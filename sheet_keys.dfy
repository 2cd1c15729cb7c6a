/**
 * How the sheet writer names things: the spreadsheet id inside a URL, column keys
 * (`_col_to_index`) and the last column letter of the header range.
 */
module SheetKeys {
  import opened Wrappers
  import opened Text

  // ---------------------------------------------------------------------------
  // extract_spreadsheet_id
  // ---------------------------------------------------------------------------

  const IdMarker: string := "/spreadsheets/d/"

  /** The class `[a-zA-Z0-9-_]` of the id pattern. */
  predicate IsIdChar(c: char) {
    IsAsciiLetter(c) || IsDigit(c) || c == '-' || c == '_'
  }

  /** Length of the run of id characters that `s` starts with (the greedy `+`). */
  function IdRunLength(s: string): (n: nat)
    ensures n <= |s|
    ensures forall i :: 0 <= i < n ==> IsIdChar(s[i])
    ensures n == |s| || !IsIdChar(s[n])
  {
    if s == [] || !IsIdChar(s[0]) then 0 else 1 + IdRunLength(s[1..])
  }

  /** The pattern matches at `p`: the marker starts there and at least one id character follows it. */
  predicate MatchesAt(s: string, p: nat) {
    p + |IdMarker| < |s| && s[p..p + |IdMarker|] == IdMarker && IsIdChar(s[p + |IdMarker|])
  }

  /** `re.search`: the leftmost position at or after `p` where the pattern matches. */
  function FirstMatch(s: string, p: nat): (r: Option<nat>)
    requires p <= |s|
    ensures r.Some? ==> p <= r.value < |s| && MatchesAt(s, r.value)
    ensures r.Some? ==> forall q :: p <= q < r.value ==> !MatchesAt(s, q)
    ensures r.None? ==> forall q :: p <= q < |s| ==> !MatchesAt(s, q)
    decreases |s| - p
  {
    if p == |s| then None
    else if MatchesAt(s, p) then Some(p)
    else FirstMatch(s, p + 1)
  }

  /** The id captured by the leftmost match, or the whole input when nothing matches. */
  function ExtractSpreadsheetId(url: string): (id: string)
    ensures FirstMatch(url, 0).None? ==> id == url
    ensures FirstMatch(url, 0).Some? ==> id != [] && |id| < |url| && forall i :: 0 <= i < |id| ==> IsIdChar(id[i])
  {
    match FirstMatch(url, 0)
    case None => url
    case Some(p) =>
      var tail := url[p + |IdMarker|..];
      tail[..IdRunLength(tail)]
  }

  /** With a leftmost match at `p`, the id is the maximal run of id characters after the marker:
      non-empty, made of id characters, and ended by the end of the URL or a non-id character. */
  lemma IdIsMaximalRun(url: string, p: nat)
    requires MatchesAt(url, p)
    requires forall q :: 0 <= q < p ==> !MatchesAt(url, q)
    ensures var start := p + |IdMarker|;
            var id := ExtractSpreadsheetId(url);
            && id != []
            && start + |id| <= |url| && id == url[start..start + |id|]
            && (forall i :: 0 <= i < |id| ==> IsIdChar(id[i]))
            && (start + |id| == |url| || !IsIdChar(url[start + |id|]))
  {
    var first := FirstMatch(url, 0);
    assert first.Some?;
    assert first.value == p;
    var tail := url[p + |IdMarker|..];
    assert tail[0] == url[p + |IdMarker|];
  }

  /** A URL in which the pattern matches nowhere is returned unchanged. */
  lemma NoMatchKeepsInput(url: string)
    requires forall q :: 0 <= q < |url| ==> !MatchesAt(url, q)
    ensures ExtractSpreadsheetId(url) == url
  {
    assert FirstMatch(url, 0).None?;
  }

  /** A bare id, or anything else without a `/`, is already an id and comes back as it is. */
  lemma SlashFreeInputUnchanged(url: string)
    requires forall i :: 0 <= i < |url| ==> url[i] != '/'
    ensures ExtractSpreadsheetId(url) == url
  {
    forall q | 0 <= q < |url|
      ensures !MatchesAt(url, q)
    {
      if q + |IdMarker| <= |url| {
        assert url[q..q + |IdMarker|][0] == url[q];
      }
    }
    NoMatchKeepsInput(url);
  }

  /** A prefix in which no `/` is followed by `s`, such as `https://docs.google.com`. */
  predicate NoMarkerStart(prefix: string) {
    forall q :: 0 <= q < |prefix| && prefix[q] == '/' ==> q + 1 < |prefix| && prefix[q + 1] != 's'
  }

  /** The id of a sheet URL `prefix/spreadsheets/d/<id><rest>` is `<id>` whenever `<rest>` does not
      continue the id (`/edit`, `#gid=0`, or nothing). */
  lemma SheetUrlYieldsId(prefix: string, id: string, rest: string)
    requires NoMarkerStart(prefix)
    requires id != [] && forall i :: 0 <= i < |id| ==> IsIdChar(id[i])
    requires rest == [] || !IsIdChar(rest[0])
    ensures ExtractSpreadsheetId(prefix + IdMarker + id + rest) == id
  {
    var url := prefix + IdMarker + id + rest;
    var p := |prefix|;
    assert url[p..p + |IdMarker|] == IdMarker;
    assert url[p + |IdMarker|] == id[0];
    forall q | 0 <= q < p
      ensures !MatchesAt(url, q)
    {
      if q + |IdMarker| <= |url| {
        var w := url[q..q + |IdMarker|];
        assert w[0] == prefix[q];
        if prefix[q] == '/' {
          assert w[1] == prefix[q + 1];
        }
      }
    }
    assert MatchesAt(url, p);
    var first := FirstMatch(url, 0);
    assert first.Some?;
    assert first.value == p;
    var tail := url[p + |IdMarker|..];
    assert tail == id + rest;
    IdRunOfId(id, rest);
  }

  /** The run of id characters in `id + rest` is exactly `id` when `rest` does not continue it. */
  lemma {:induction false} IdRunOfId(id: string, rest: string)
    requires forall i :: 0 <= i < |id| ==> IsIdChar(id[i])
    requires rest == [] || !IsIdChar(rest[0])
    ensures IdRunLength(id + rest) == |id|
  {
    if id != [] {
      assert (id + rest)[1..] == id[1..] + rest;
      IdRunOfId(id[1..], rest);
    }
  }

  /** The usual Google Sheets address. */
  lemma GoogleSheetUrl(id: string)
    requires id != [] && forall i :: 0 <= i < |id| ==> IsIdChar(id[i])
    ensures ExtractSpreadsheetId("https://docs.google.com" + IdMarker + id + "/edit") == id
  {
    var host := "https://docs.google.com";
    assert forall q :: 0 <= q < |host| && host[q] == '/' ==> q == 6 || q == 7;
    assert NoMarkerStart(host);
    SheetUrlYieldsId(host, id, "/edit");
  }

  // ---------------------------------------------------------------------------
  // Column letters
  // ---------------------------------------------------------------------------

  /** The value the letter loop of `_col_to_index` accumulates: `idx * 26 + (ord(c) - 64)` for each
      character, left to right. On upper-case letters this is bijective base 26 (A = 1, Z = 26, AA = 27). */
  function LettersValue(s: string): int {
    if s == [] then 0 else LettersValue(s[..|s| - 1]) * 26 + (s[|s| - 1] as int - 64)
  }

  /** The letters for column number `n` (1-based) that the header loop of `apply_header_style`
      builds: repeatedly `n, rem := divmod(n - 1, 26)` and prepend `chr(65 + rem)`. */
  function ColumnLetters(n: nat): string
    decreases n
  {
    if n == 0 then "" else ColumnLetters((n - 1) / 26) + [(65 + (n - 1) % 26) as char]
  }

  /** Column letters are upper-case letters, and there are some for every column number from 1. */
  lemma {:induction false} ColumnLettersAreLetters(n: nat)
    ensures AllUpperLetters(ColumnLetters(n))
    ensures n >= 1 <==> ColumnLetters(n) != []
    decreases n
  {
    if n > 0 {
      ColumnLettersAreLetters((n - 1) / 26);
    }
  }

  /** Round trip one way: reading back the letters of `n` gives `n`. */
  lemma {:induction false} LettersValueOfColumnLetters(n: nat)
    ensures LettersValue(ColumnLetters(n)) == n
    decreases n
  {
    if n > 0 {
      var q := (n - 1) / 26;
      var s := ColumnLetters(n);
      LettersValueOfColumnLetters(q);
      assert s[..|s| - 1] == ColumnLetters(q);
    }
  }

  /** Round trip the other way: every string of upper-case letters is the letters of its value,
      so column numbers and letter strings correspond one to one. */
  lemma {:induction false} ColumnLettersOfLettersValue(s: string)
    requires AllUpperLetters(s)
    ensures LettersValue(s) >= 0
    ensures s != [] ==> LettersValue(s) >= 1
    ensures ColumnLetters(LettersValue(s)) == s
    decreases |s|
  {
    if s != [] {
      var init := s[..|s| - 1];
      ColumnLettersOfLettersValue(init);
      var v := LettersValue(init);
      var d := s[|s| - 1] as int - 64;
      assert 1 <= d <= 26;
      var n := v * 26 + d;
      assert (n - 1) / 26 == v && (n - 1) % 26 == d - 1;
      assert s == init + [s[|s| - 1]];
    }
  }

  /** The `chr(64 + n)` shortcut of the header for at most 26 columns agrees with the general loop. */
  lemma ShortcutAgrees(n: nat)
    requires 1 <= n <= 26
    ensures [(64 + n) as char] == ColumnLetters(n)
  {
    assert (n - 1) / 26 == 0;
  }

  /** The header's last column letter: the shortcut up to 26 columns, the loop beyond. For a frame
      without columns the shortcut yields `@`, the character before `A`. */
  method LastColumnLetter(numCols: nat) returns (letter: string)
    ensures numCols >= 1 ==> letter == ColumnLetters(numCols)
    ensures numCols == 0 ==> letter == "@"
  {
    if numCols <= 26 {
      letter := [(64 + numCols) as char];
      if numCols >= 1 {
        ShortcutAgrees(numCols);
      }
    } else {
      letter := "";
      var n := numCols;
      while n > 0
        invariant ColumnLetters(numCols) == ColumnLetters(n) + letter
        decreases n
      {
        var q, rem := (n - 1) / 26, (n - 1) % 26;
        letter := [(65 + rem) as char] + letter;
        n := q;
      }
    }
  }

  // ---------------------------------------------------------------------------
  // _col_to_index
  // ---------------------------------------------------------------------------

  /** A column key from the style configuration: an int (1-based), a string, or another value. */
  datatype ColKey = IntKey(k: int) | StrKey(s: string) | OtherKey

  /** A whole string of ASCII letters: what `^[A-Za-z]+$` is meant to accept. */
  predicate IsLetterKey(s: string) {
    s != [] && AllAsciiLetters(s)
  }

  /** What `re.match(r"^[A-Za-z]+$", s)` accepts as written: `$` also matches just before a final
      newline, so letters followed by one `\n` get through as well. */
  predicate MatchesLetterPattern(s: string) {
    IsLetterKey(s) || (|s| >= 2 && s[|s| - 1] == '\n' && IsLetterKey(s[..|s| - 1]))
  }

  /** `list.index`: the position of the first occurrence. */
  function IndexOf(names: seq<string>, name: string): (i: nat)
    requires name in names
    ensures i < |names| && names[i] == name
    ensures forall j :: 0 <= j < i ==> names[j] != name
  {
    if names[0] == name then 0 else 1 + IndexOf(names[1..], name)
  }

  /** The letter test: as written, or as intended. */
  predicate LetterTest(s: string, asWritten: bool) {
    if asWritten then MatchesLetterPattern(s) else IsLetterKey(s)
  }

  /** The 0-based column a key designates in a frame with columns `columns`: ints first, then
      strings that pass the letter test, then column names; anything else is an error. */
  function ColIndexWith(key: ColKey, columns: seq<string>, asWritten: bool): (r: Result<int>)
    ensures r.Failure? <==> key.OtherKey? || (key.StrKey? && !LetterTest(key.s, asWritten) && key.s !in columns)
    ensures r.Success? && key.StrKey? && !LetterTest(key.s, asWritten) ==>
              0 <= r.value < |columns| && columns[r.value] == key.s && forall j :: 0 <= j < r.value ==> columns[j] != key.s
  {
    match key
    case IntKey(k) => Success(k - 1)
    case StrKey(s) =>
      if LetterTest(s, asWritten) then Success(LettersValue(Upper(s)) - 1)
      else if s in columns then Success(IndexOf(columns, s))
      else Failure("Unknown column spec: " + s)
    case OtherKey => Failure("Unknown column spec")
  }

  /** `_col_to_index` as written, with the pattern's trailing-newline loophole. */
  function ColIndexAsWritten(key: ColKey, columns: seq<string>): (r: Result<int>)
    ensures r.Failure? <==> key.OtherKey? || (key.StrKey? && !MatchesLetterPattern(key.s) && key.s !in columns)
    ensures r.Success? && key.StrKey? && !MatchesLetterPattern(key.s) ==>
              0 <= r.value < |columns| && columns[r.value] == key.s
  {
    ColIndexWith(key, columns, true)
  }

  /** `_col_to_index` as intended: only a whole string of letters is read as column letters. */
  function ColIndex(key: ColKey, columns: seq<string>): (r: Result<int>)
    ensures r.Failure? <==> key.OtherKey? || (key.StrKey? && !IsLetterKey(key.s) && key.s !in columns)
    ensures r.Success? && key.StrKey? && !IsLetterKey(key.s) ==> 0 <= r.value < |columns| && columns[r.value] == key.s
  {
    ColIndexWith(key, columns, false)
  }

  /** The loop of `_col_to_index`, proved to compute `ColIndex`. */
  method ColToIndex(key: ColKey, columns: seq<string>) returns (r: Result<int>)
    ensures r == ColIndex(key, columns)
  {
    match key {
      case IntKey(k) =>
        r := Success(k - 1);
      case StrKey(s) =>
        if IsLetterKey(s) {
          var u := Upper(s);
          var idx := 0;
          var i := 0;
          while i < |u|
            invariant 0 <= i <= |u|
            invariant idx == LettersValue(u[..i])
          {
            assert u[..i + 1][..i] == u[..i];
            idx := idx * 26 + (u[i] as int - 64);
            i := i + 1;
          }
          assert u[..|u|] == u;
          r := Success(idx - 1);
        } else if s in columns {
          r := Success(IndexOf(columns, s));
        } else {
          r := Failure("Unknown column spec: " + s);
        }
      case OtherKey =>
        r := Failure("Unknown column spec");
    }
  }

  /** A letter key is read case-insensitively as bijective base 26, minus one, even when a column
      carries that name; the index is never negative. */
  lemma LetterKeyIndex(s: string, columns: seq<string>)
    requires IsLetterKey(s)
    ensures ColIndex(StrKey(s), columns) == Success(LettersValue(Upper(s)) - 1)
    ensures ColIndex(StrKey(s), columns) == ColIndex(StrKey(Upper(s)), columns)
    ensures ColIndex(StrKey(s), columns).value >= 0
  {
    var u := Upper(s);
    UpperOfLetters(s);
    ColumnLettersOfLettersValue(u);
    LetterKeyValue(s, columns);
    LetterKeyValue(u, columns);
  }

  /** Upper-casing letters gives upper-case letters, which upper-casing keeps. */
  lemma UpperOfLetters(s: string)
    requires IsLetterKey(s)
    ensures AllUpperLetters(Upper(s)) && IsLetterKey(Upper(s)) && Upper(Upper(s)) == Upper(s)
  {
  }

  lemma LetterKeyValue(s: string, columns: seq<string>)
    requires IsLetterKey(s)
    ensures ColIndex(StrKey(s), columns) == Success(LettersValue(Upper(s)) - 1)
  {
  }

  /** A non-letter key that names a column gives that column's first position. */
  lemma NameKeyIndex(s: string, columns: seq<string>)
    requires !IsLetterKey(s) && s in columns
    ensures var r := ColIndex(StrKey(s), columns);
            && r.Success? && 0 <= r.value < |columns| && columns[r.value] == s
            && forall j :: 0 <= j < r.value ==> columns[j] != s
  {
  }

  /** Keys that are neither ints, letter strings nor column names are errors. */
  lemma UnknownKeyFails(key: ColKey, columns: seq<string>)
    requires key.OtherKey? || (key.StrKey? && !IsLetterKey(key.s) && key.s !in columns)
    ensures ColIndex(key, columns).Failure?
  {
  }

  /** `A` is column 0, `Z` column 25, `AA` column 26, and lower case reads the same. */
  lemma ColIndexExamples(columns: seq<string>)
    ensures ColIndex(StrKey("A"), columns) == Success(0)
    ensures ColIndex(StrKey("Z"), columns) == Success(25)
    ensures ColIndex(StrKey("AA"), columns) == Success(26)
    ensures ColIndex(StrKey("aa"), columns) == Success(26)
    ensures ColIndex(IntKey(3), columns) == Success(2)
  {
    assert IsLetterKey("A") && IsLetterKey("Z") && IsLetterKey("AA") && IsLetterKey("aa");
    assert Upper("aa") == "AA";
    assert "AA"[..1] == "A";
  }

  /** Round trip: the header's last column letters for `n` columns designate column `n - 1`. */
  lemma HeaderLettersRoundTrip(n: nat, columns: seq<string>)
    requires n >= 1
    ensures ColIndex(StrKey(ColumnLetters(n)), columns) == Success(n - 1)
  {
    var s := ColumnLetters(n);
    ColumnLettersAreLetters(n);
    assert IsLetterKey(s);
    assert Upper(s) == s;
    LettersValueOfColumnLetters(n);
  }

  /** As written, `"A\n"` passes the letter test and designates column -29: the newline is read as a
      letter with value 10 - 64. Without that column name the intended reading is an error. */
  lemma TrailingNewlineAccepted(columns: seq<string>)
    ensures ColIndexAsWritten(StrKey("A\n"), columns) == Success(-29)
    ensures "A\n" !in columns ==> ColIndex(StrKey("A\n"), columns).Failure?
  {
    var s := "A\n";
    assert s[..1] == "A";
    assert MatchesLetterPattern(s);
    assert !IsLetterKey(s) by { assert !IsAsciiLetter(s[1]); }
    assert Upper(s) == s;
    assert LettersValue(s) == 1 * 26 + (10 - 64);
  }

  /** The two readings differ only on a string key that ends in a newline. */
  lemma AsWrittenDiffersOnlyOnNewline(key: ColKey, columns: seq<string>)
    requires ColIndexAsWritten(key, columns) != ColIndex(key, columns)
    ensures key.StrKey? && |key.s| >= 2 && key.s[|key.s| - 1] == '\n'
  {
  }
}
