/**
 * Versioned file names: `base.ext`, `base__v1.ext`, `base__v2.ext`, ...
 * (backend/app/rag/versioning.py).
 */
module Versioning {
  import opened Outcomes
  import opened Text
  import opened Paths

  /** The separator between a base name and its version number. */
  const Marker: string := "__v"

  /** The `(base, version_int)` pair `_parse_version` returns. */
  datatype Version = Version(base: string, number: nat)

  /**
   * `_parse_version`: split the stem at its last `__v`; a tail of digits is the
   * version, anything else (no marker, empty or non-digit tail) is version 0 of
   * the whole stem.
   */
  function ParseVersion(p: Path): Version {
    var stem := p.stem;
    match LastIndexOf(stem, Marker)
    case None => Version(stem, 0)
    case Some(i) =>
      var tail := stem[i + |Marker|..];
      if IsDigits(tail) then Version(stem[..i], DigitsValue(tail))
      else Version(stem, 0)
  }

  /**
   * What a parse means: either the whole stem at version 0, or a split of the
   * stem into `base`, `__v` and a digit string whose value is the version.
   */
  lemma ParseVersionShape(p: Path)
    ensures var r := ParseVersion(p);
      && (r.base == p.stem ==> r.number == 0)
      && (r.base != p.stem ==>
            && OccursAt(p.stem, Marker, |r.base|)
            && p.stem[..|r.base|] == r.base
            && IsDigits(p.stem[|r.base| + |Marker|..])
            && r.number == DigitsValue(p.stem[|r.base| + |Marker|..]))
  {
    LastIndexOfSpec(p.stem, Marker);
  }

  /** A stem without `__v` is version 0 of itself. */
  lemma ParseUnversioned(p: Path)
    requires !Contains(p.stem, Marker)
    ensures ParseVersion(p) == Version(p.stem, 0)
  {
    LastIndexOfSpec(p.stem, Marker);
  }

  /** A stem whose text after the last `__v` is not all digits is version 0 of itself. */
  lemma ParseNonDigitTail(p: Path, i: nat)
    requires OccursAt(p.stem, Marker, i)
    requires NoOccurrence(p.stem, Marker, i, |p.stem|)
    requires !IsDigits(p.stem[i + |Marker|..])
    ensures ParseVersion(p) == Version(p.stem, 0)
  {
    LastIndexOfSpec(p.stem, Marker);
    assert LastIndexOf(p.stem, Marker) == Some(i);
  }

  /**
   * Every stem of the form `base__v<digits>` parses back to `base` and the
   * digits' value, whatever `base` contains (including other `__v`s).
   */
  lemma ParseComposed(parent: string, base: string, tail: string, suffix: string)
    requires IsDigits(tail)
    ensures ParseVersion(Path(parent, base + Marker + tail, suffix)) == Version(base, DigitsValue(tail))
  {
    var stem := base + Marker + tail;
    assert OccursAt(stem, Marker, |base|);
    forall j | |base| < j <= |stem|
      ensures !OccursAt(stem, Marker, j)
    {
      if j + |Marker| <= |stem| {
        if j == |base| + 1 {
          assert stem[j + 1] == 'v';
        } else {
          assert stem[j] == 'v' || IsDigit(stem[j]);
        }
      }
    }
    LastIndexOfSpec(stem, Marker);
    assert LastIndexOf(stem, Marker) == Some(|base|);
    assert stem[|base| + |Marker|..] == tail;
    assert stem[..|base|] == base;
  }

  /** `get_next_version_path`: same directory and suffix, stem `base__v(N+1)`. */
  function NextVersionPath(latest: Path): (r: Path)
    ensures r.parent == latest.parent && r.suffix == latest.suffix
    ensures ParseVersion(r) == Version(ParseVersion(latest).base, ParseVersion(latest).number + 1)
  {
    var v := ParseVersion(latest);
    var next := v.number + 1;
    ParseComposed(latest.parent, v.base, DecimalString(next), latest.suffix);
    Path(latest.parent, v.base + Marker + DecimalString(next), latest.suffix)
  }

  /** Moving to the next version keeps the base and strictly raises the number. */
  lemma NextVersionIncreases(latest: Path)
    ensures ParseVersion(NextVersionPath(latest)).base == ParseVersion(latest).base
    ensures ParseVersion(NextVersionPath(latest)).number > ParseVersion(latest).number
  {
  }

  /** One entry of `parent.iterdir()`: a path and whether it is a regular file. */
  datatype Entry = Entry(path: Path, isFile: bool)

  /** A sibling that counts as a version of `original`: a file with the same suffix and base. */
  predicate Matches(original: Path, e: Entry) {
    && e.isFile
    && e.path.suffix == original.suffix
    && ParseVersion(e.path).base == ParseVersion(original).base
  }

  function VersionOf(e: Entry): nat {
    ParseVersion(e.path).number
  }

  /** For each sibling, whether it matches `original`. */
  function MatchFlags(original: Path, siblings: seq<Entry>): seq<bool> {
    seq(|siblings|, i requires 0 <= i < |siblings| => Matches(original, siblings[i]))
  }

  /** For each sibling, its parsed version number. */
  function Versions(siblings: seq<Entry>): seq<nat> {
    seq(|siblings|, i requires 0 <= i < |siblings| => VersionOf(siblings[i]))
  }

  /**
   * Among the first `n` candidates, `k` is the pick: it is flagged, no flagged
   * candidate has a higher version, and every flagged candidate before it has a
   * strictly lower one (the first of equal versions wins).
   */
  predicate LatestAmong(flags: seq<bool>, versions: seq<nat>, n: int, k: int)
    requires |flags| == |versions| && 0 <= n <= |flags|
  {
    && 0 <= k < n
    && flags[k]
    && (forall j :: 0 <= j < n && flags[j] ==> versions[j] <= versions[k])
    && (forall j :: 0 <= j < k && flags[j] ==> versions[j] < versions[k])
  }

  /** Sibling `k` is the one `resolve_latest_version` picks. */
  predicate IsLatest(original: Path, siblings: seq<Entry>, k: int) {
    LatestAmong(MatchFlags(original, siblings), Versions(siblings), |siblings|, k)
  }

  /** The tie-break makes the pick unique. */
  lemma LatestIsUnique(flags: seq<bool>, versions: seq<nat>, n: int, k1: int, k2: int)
    requires |flags| == |versions| && 0 <= n <= |flags|
    requires LatestAmong(flags, versions, n, k1) && LatestAmong(flags, versions, n, k2)
    ensures k1 == k2
  {
  }

  /**
   * Reference scan: the index of the latest flagged candidate among the first
   * `n`, replacing the current pick only on a strictly higher version.
   */
  function LatestIndex(flags: seq<bool>, versions: seq<nat>, n: nat): (r: Option<nat>)
    requires |flags| == |versions| && n <= |flags|
    ensures r.Some? ==> r.value < n && flags[r.value]
  {
    if n == 0 then None
    else
      var prev := LatestIndex(flags, versions, n - 1);
      if flags[n - 1] && (prev.None? || versions[n - 1] > versions[prev.value])
      then Some(n - 1)
      else prev
  }

  /** The reference scan finds nothing exactly when nothing is flagged, and otherwise finds the pick. */
  lemma {:induction false} LatestIndexCorrect(flags: seq<bool>, versions: seq<nat>, n: nat)
    requires |flags| == |versions| && n <= |flags|
    ensures var r := LatestIndex(flags, versions, n);
      && (r.None? <==> forall j :: 0 <= j < n ==> !flags[j])
      && (r.Some? ==> LatestAmong(flags, versions, n, r.value))
  {
    if n > 0 {
      LatestIndexCorrect(flags, versions, n - 1);
    }
  }

  /** The path the reference scan resolves to: the pick, or `original` when nothing matches. */
  function ResolvedPath(original: Path, siblings: seq<Entry>): Path {
    match LatestIndex(MatchFlags(original, siblings), Versions(siblings), |siblings|)
    case None => original
    case Some(k) => siblings[k].path
  }

  /**
   * What resolving means: `original` when no sibling matches, otherwise the
   * path of the unique latest matching sibling.
   */
  lemma ResolvedPathSpec(original: Path, siblings: seq<Entry>)
    ensures (forall i :: 0 <= i < |siblings| ==> !Matches(original, siblings[i])) ==>
      ResolvedPath(original, siblings) == original
    ensures (exists i :: 0 <= i < |siblings| && Matches(original, siblings[i])) ==>
      exists k :: IsLatest(original, siblings, k) && ResolvedPath(original, siblings) == siblings[k].path
  {
    var flags := MatchFlags(original, siblings);
    var versions := Versions(siblings);
    LatestIndexCorrect(flags, versions, |siblings|);
    var pick := LatestIndex(flags, versions, |siblings|);
    if pick.Some? {
      assert IsLatest(original, siblings, pick.value);
    }
  }

  /**
   * `resolve_latest_version` over the listing of `original`'s directory
   * (`parent.iterdir()`), scanning it in order with a strict `>`.
   */
  method ResolveLatestVersion(original: Path, siblings: seq<Entry>) returns (r: Path)
    ensures r == ResolvedPath(original, siblings)
  {
    ghost var flags := MatchFlags(original, siblings);
    ghost var versions := Versions(siblings);
    var base := ParseVersion(original).base;
    var suffix := original.suffix;
    var bestVersion: int := -1;
    var bestPath: Option<Path> := None;
    var i := 0;
    while i < |siblings|
      invariant 0 <= i <= |siblings|
      invariant LatestIndex(flags, versions, i).None? ==> bestPath.None? && bestVersion == -1
      invariant LatestIndex(flags, versions, i).Some? ==>
        var k := LatestIndex(flags, versions, i).value;
        bestPath == Some(siblings[k].path) && bestVersion == versions[k]
    {
      var p := siblings[i];
      if p.isFile && p.path.suffix == suffix {
        var v := ParseVersion(p.path);
        assert flags[i] <==> v.base == base;
        if v.base == base && v.number > bestVersion {
          bestVersion := v.number;
          bestPath := Some(p.path);
        }
      }
      i := i + 1;
    }
    if bestPath.None? {
      return original;
    }
    return bestPath.value;
  }
}
