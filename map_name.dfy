/**
 * `extract_map_name` (nomic_module.py): the map name inside an Atlas URL of the shape
 * `.../data/<organisation>/<map>[/map]`, found by the regular expression
 * `/data/[^/]+/([^/]+)(?:/map)?$` searched leftmost; any other input is returned as it is.
 */
module MapName {
  import opened Wrappers
  import opened Text

  predicate SlashFree(s: string) {
    forall i :: 0 <= i < |s| ==> s[i] != '/'
  }

  function SlashCount(s: string): nat {
    if s == [] then 0 else (if s[0] == '/' then 1 else 0) + SlashCount(s[1..])
  }

  /** `s.split("/")`. */
  function Split(s: string): (parts: seq<string>)
    ensures |parts| >= 1
    ensures forall i :: 0 <= i < |parts| ==> SlashFree(parts[i])
  {
    if s == [] then [""]
    else if s[0] == '/' then [""] + Split(s[1..])
    else
      var rest := Split(s[1..]);
      [[s[0]] + rest[0]] + rest[1..]
  }

  lemma {:induction false} SplitLength(s: string)
    ensures |Split(s)| == 1 + SlashCount(s)
  {
    if s != [] {
      SplitLength(s[1..]);
    }
  }

  lemma {:induction false} SlashCountAppend(a: string, b: string)
    ensures SlashCount(a + b) == SlashCount(a) + SlashCount(b)
  {
    if a != [] {
      assert (a + b)[0] == a[0];
      assert (a + b)[1..] == a[1..] + b;
      SlashCountAppend(a[1..], b);
    } else {
      assert a + b == b;
    }
  }

  lemma {:induction false} SlashCountOfSlashFree(a: string)
    requires SlashFree(a)
    ensures SlashCount(a) == 0
  {
    if a != [] {
      SlashCountOfSlashFree(a[1..]);
    }
  }

  lemma {:induction false} SplitSlashFree(a: string)
    requires SlashFree(a)
    ensures Split(a) == [a]
  {
    if a != [] {
      SplitSlashFree(a[1..]);
      assert a == [a[0]] + a[1..];
    }
  }

  /** Splitting at the first slash: a slash-free head becomes the first part. */
  lemma {:induction false} SplitAtSlash(a: string, b: string)
    requires SlashFree(a)
    ensures Split(a + "/" + b) == [a] + Split(b)
  {
    if a == [] {
      assert a + "/" + b == "/" + b;
      assert ("/" + b)[1..] == b;
    } else {
      assert (a + "/" + b)[1..] == a[1..] + "/" + b;
      SplitAtSlash(a[1..], b);
      assert [a[0]] + a[1..] == a;
    }
  }

  const DataMarker: string := "/data/"

  /** The group the expression captures when the match starts at `p`, if it matches there:
      after `/data/` the rest splits at its slashes into organisation and name, optionally
      followed by the segment `map`; `$` also matches before one final newline. */
  function NameAt(s: string, p: nat): Option<string>
    requires p <= |s|
  {
    if !StartsWith(s[p..], DataMarker) then None
    else
      var parts := Split(s[p + |DataMarker|..]);
      if parts[0] != "" && |parts| >= 2 && parts[1] != ""
         && (|parts| == 2 || (|parts| == 3 && (parts[2] == "map" || parts[2] == "map\n")))
      then Some(parts[1])
      else None
  }

  /** The leftmost start position at or after `from` where the expression matches. */
  function FirstMatch(s: string, from: nat): (q: Option<nat>)
    requires from <= |s|
    ensures q.Some? ==> from <= q.value <= |s| && NameAt(s, q.value).Some?
                        && forall k :: from <= k < q.value ==> NameAt(s, k).None?
    ensures q.None? ==> forall k :: from <= k <= |s| ==> NameAt(s, k).None?
    decreases |s| - from
  {
    if NameAt(s, from).Some? then Some(from)
    else if from == |s| then None
    else FirstMatch(s, from + 1)
  }

  /** `extract_map_name`: the empty string for an empty input, the captured name of the leftmost
      match when there is one, and the input unchanged otherwise. */
  function ExtractMapName(s: string): (r: string)
    ensures s == "" ==> r == ""
    ensures s != "" && (exists q :: 0 <= q <= |s| && NameAt(s, q).Some?) ==>
              exists q :: 0 <= q <= |s| && NameAt(s, q) == Some(r)
                          && forall k :: 0 <= k < q ==> NameAt(s, k).None?
    ensures (forall q :: 0 <= q <= |s| ==> NameAt(s, q).None?) ==> r == s
  {
    if s == "" then ""
    else
      match FirstMatch(s, 0)
      case Some(q) => NameAt(s, q).value
      case None => s
  }

  /** The name captured at the leftmost matching position is the result. */
  lemma LeftmostMatchWins(s: string, p: nat, name: string)
    requires p <= |s| && NameAt(s, p) == Some(name)
    requires forall q :: 0 <= q < p ==> NameAt(s, q).None?
    ensures ExtractMapName(s) == name
  {
    var first := FirstMatch(s, 0);
    assert first.Some?;
    assert first.value == p;
  }

  /** An input without any slash is already a map name and comes back unchanged. */
  lemma BareNameUnchanged(s: string)
    requires SlashFree(s)
    ensures ExtractMapName(s) == s
  {
    forall q | 0 <= q <= |s| ensures NameAt(s, q).None? {
      assert q < |s| ==> s[q..][0] == s[q];
    }
  }

  lemma DataMarkerSlashes()
    ensures SlashCount(DataMarker) == 2
  {
    assert DataMarker == "/" + "data" + "/";
    SlashCountAppend("/" + "data", "/");
    SlashCountAppend("/", "data");
    assert forall i :: 0 <= i < 4 ==> "data"[i] != '/';
    SlashCountOfSlashFree("data");
  }

  lemma AddressSlashes(org: string, name: string, tail: string)
    requires SlashFree(org) && SlashFree(name)
    ensures SlashCount(DataMarker + org + "/" + name + tail) == 3 + SlashCount(tail)
  {
    SlashCountAppend(DataMarker + org + "/" + name, tail);
    SlashCountAppend(DataMarker + org + "/", name);
    SlashCountAppend(DataMarker + org, "/");
    SlashCountAppend(DataMarker, org);
    SlashCountOfSlashFree(org);
    SlashCountOfSlashFree(name);
    DataMarkerSlashes();
  }

  /** A match needs at most two slashes after its `/data/`. */
  lemma TooManySlashes(s: string, q: nat)
    requires q + 6 <= |s| && SlashCount(s[q + 6..]) >= 3
    ensures NameAt(s, q).None?
  {
    SplitLength(s[q + 6..]);
  }

  /** No match can start before `p` when the text from `p` on is `/data/`, an organisation,
      a name and `tail`, and the name is not itself a `map` segment (or `tail` adds a slash). */
  lemma NoEarlierMatch(s: string, p: nat, org: string, name: string, tail: string, q: nat)
    requires p <= |s| && s[p..] == DataMarker + org + "/" + name + tail
    requires org != "" && name != "" && SlashFree(org) && SlashFree(name)
    requires tail == "" || SlashCount(tail) >= 1
    requires tail == "" ==> name != "map" && name != "map\n"
    requires q < p
    ensures NameAt(s, q).None?
  {
    if StartsWith(s[q..], DataMarker) {
      assert s[q..][..6] == DataMarker;
      if q + 6 <= p {
        AddressSlashes(org, name, tail);
        assert s[q + 6..] == s[q + 6..p] + s[p..];
        SlashCountAppend(s[q + 6..p], s[p..]);
        TooManySlashes(s, q);
      } else {
        // Two occurrences of "/data/" can overlap only when shifted by five characters.
        var d := p - q;
        assert s[p] == '/' && s[q + d] == DataMarker[d];
        assert d == 5;
        assert s[q + 6..] == s[p..][1..];
        OverlapAtFive(org, name, tail);
      }
    }
  }

  /** The text after an earlier `/data/` that overlaps the one at `p` does not match. */
  lemma OverlapAtFive(org: string, name: string, tail: string)
    requires org != "" && name != "" && SlashFree(org) && SlashFree(name)
    requires tail == "" || SlashCount(tail) >= 1
    requires tail == "" ==> name != "map" && name != "map\n"
    ensures var rest := (DataMarker + org + "/" + name + tail)[1..];
            var parts := Split(rest);
            !(parts[0] != "" && |parts| >= 2 && parts[1] != ""
              && (|parts| == 2 || (|parts| == 3 && (parts[2] == "map" || parts[2] == "map\n"))))
  {
    var parts := Split((DataMarker + org + "/" + name + tail)[1..]);
    OverlapParts(org, name, tail);
    SlashCountAppend(name, tail);
    SlashCountOfSlashFree(name);
    SplitLength(name + tail);
    if SlashCount(tail) == 0 {
      assert |Split(name + tail)| == 1;
      SlashFreeFromCount(name + tail);
      SplitSlashFree(name + tail);
      assert parts[2] == name + tail;
      assert tail == [] && name + tail == name;
    }
  }

  /** After its first character, an address splits into `data`, the organisation, and the
      parts of the name and tail. */
  lemma OverlapParts(org: string, name: string, tail: string)
    requires SlashFree(org)
    ensures Split((DataMarker + org + "/" + name + tail)[1..]) == ["data", org] + Split(name + tail)
  {
    var rest := (DataMarker + org + "/" + name + tail)[1..];
    assert rest == "data" + "/" + (org + "/" + (name + tail));
    assert forall i :: 0 <= i < 4 ==> "data"[i] != '/';
    SplitAtSlash("data", org + "/" + (name + tail));
    SplitAtSlash(org, name + tail);
  }

  lemma {:induction false} SlashFreeFromCount(a: string)
    requires SlashCount(a) == 0
    ensures SlashFree(a)
  {
    if a != [] {
      SlashFreeFromCount(a[1..]);
    }
  }

  /** The canonical map address `<prefix>/data/<organisation>/<name>/map` yields `<name>`,
      whatever the prefix. */
  lemma MapUrlYieldsName(prefix: string, org: string, name: string)
    requires org != "" && name != "" && SlashFree(org) && SlashFree(name)
    ensures ExtractMapName(prefix + DataMarker + org + "/" + name + "/map") == name
  {
    var s := prefix + DataMarker + org + "/" + name + "/map";
    var p := |prefix|;
    assert s[p..] == DataMarker + org + "/" + name + "/map";
    SlashCountAppend("/", "map");
    forall q: nat | q < p ensures NameAt(s, q).None? {
      NoEarlierMatch(s, p, org, name, "/map", q);
    }
    assert s[p + 6..] == org + "/" + (name + "/" + "map");
    SplitAtSlash(org, name + "/" + "map");
    SplitAtSlash(name, "map");
    assert forall i :: 0 <= i < 3 ==> "map"[i] != '/';
    SplitSlashFree("map");
    assert NameAt(s, p) == Some(name);
    LeftmostMatchWins(s, p, name);
  }

  /** The short address `<prefix>/data/<organisation>/<name>` yields `<name>` unless the name is
      itself `map`, in which case a match starting five characters earlier can win. */
  lemma ShortUrlYieldsName(prefix: string, org: string, name: string)
    requires org != "" && name != "" && SlashFree(org) && SlashFree(name)
    requires name != "map" && name != "map\n"
    ensures ExtractMapName(prefix + DataMarker + org + "/" + name) == name
  {
    var s := prefix + DataMarker + org + "/" + name;
    var p := |prefix|;
    assert s[p..] == DataMarker + org + "/" + name + "";
    forall q: nat | q < p ensures NameAt(s, q).None? {
      NoEarlierMatch(s, p, org, name, "", q);
    }
    assert s[p + 6..] == org + "/" + name;
    SplitAtSlash(org, name);
    SplitSlashFree(name);
    assert NameAt(s, p) == Some(name);
    LeftmostMatchWins(s, p, name);
  }

  /** The exception: with the name `map`, `/data/data/<organisation>/map` is read as organisation
      `data` and map `<organisation>`. */
  lemma ShortUrlNamedMap(org: string)
    requires org != "" && SlashFree(org)
    ensures ExtractMapName("/data" + DataMarker + org + "/" + "map") == org
  {
    assert forall i :: 0 <= i < 4 ==> "data"[i] != '/';
    MapUrlYieldsName("", "data", org);
    var head := "/data" + DataMarker;
    assert head == "" + DataMarker + "data" + "/";
    var x := head + org;
    assert "/" + "map" == "/map";
    assert x + "/" + "map" == x + ("/" + "map");
  }
}
