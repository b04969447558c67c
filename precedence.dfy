/**
 * Comparison of versions (s.go:80-197): identifiers, identifier lists and
 * whole versions.  The loops of the source are methods proved against the
 * predicates that specify them; `Less` and the identifier comparisons,
 * which are switch code in the source, are functions over those predicates.
 */
module Precedence {
  import opened Wrappers
  import opened Strings
  import opened Decimal
  import opened Semver

  /** `allDigits` (s.go:80-87): ASCII digits only; true for the empty string. */
  method AllDigits(s: string) returns (r: bool)
    ensures r <==> IsAsciiDigits(s)
  {
    for i := 0 to |s|
      invariant forall j :: 0 <= j < i ==> '0' <= s[j] <= '9'
    {
      if s[i] < '0' || s[i] > '9' {
        return false;
      }
    }
    return true;
  }

  /**
   * `numCmp` (s.go:144-158): strip leading zeros, then the longer string is
   * the larger, then string order decides.
   */
  function NumCmp(a: string, b: string): (r: int)
    ensures r in {-1, 0, 1}
    ensures r == 0 <==> TrimZeros(a) == TrimZeros(b)
  {
    var a', b' := TrimZeros(a), TrimZeros(b);
    LexLessTrichotomy(a', b');
    if |a'| < |b'| then -1
    else if |a'| > |b'| then 1
    else if LexLess(a', b') then -1
    else if LexLess(b', a') then 1
    else 0
  }

  /**
   * `cmp` (s.go:123-138): numeric identifiers compare by value and come
   * before all others; the others compare as strings.
   */
  function Cmp(a: string, b: string): (r: int)
    ensures r in {-1, 0, 1}
    ensures r == 0 ==> (IsAsciiDigits(a) <==> IsAsciiDigits(b))
    ensures r == 0 && !IsAsciiDigits(a) ==> a == b
  {
    var numa, numb := IsAsciiDigits(a), IsAsciiDigits(b);
    LexLessTrichotomy(a, b);
    if numa && numb then NumCmp(a, b)
    else if numa then -1
    else if numb then 1
    else if LexLess(a, b) then -1
    else if LexLess(b, a) then 1
    else 0
  }

  /** A Go slice of identifiers: `nil` has length zero and no elements. */
  function Ids(ids: Option<seq<string>>): seq<string>
  {
    if ids.None? then [] else ids.value
  }

  /**
   * What `lessIds` decides: the first position where `Cmp` is not zero,
   * and when there is none, whether `a` is the shorter list.
   */
  predicate IdsLess(a: seq<string>, b: seq<string>)
    decreases |a|
  {
    if a == [] then b != []
    else if b == [] then false
    else if Cmp(a[0], b[0]) != 0 then Cmp(a[0], b[0]) < 0
    else IdsLess(a[1..], b[1..])
  }

  /** What `eqIds` decides: equal lengths and `Cmp` zero at every position. */
  predicate IdsEqual(a: seq<string>, b: seq<string>)
  {
    |a| == |b| && forall i :: 0 <= i < |a| ==> Cmp(a[i], b[i]) == 0
  }

  /** `lessIds` (s.go:91-99). */
  method LessIds(a: seq<string>, b: seq<string>) returns (r: bool)
    ensures r == IdsLess(a, b)
  {
    var i := 0;
    while i < |a| && i < |b|
      invariant 0 <= i <= |a| && i <= |b|
      invariant IdsLess(a, b) == IdsLess(a[i..], b[i..])
    {
      var c := Cmp(a[i], b[i]);
      if c != 0 {
        return c < 0;
      }
      assert a[i..][1..] == a[i + 1..] && b[i..][1..] == b[i + 1..];
      i := i + 1;
    }
    return i < |b|;
  }

  /** `eqIds` (s.go:103-113). */
  method EqIds(a: seq<string>, b: seq<string>) returns (r: bool)
    ensures r == IdsEqual(a, b)
  {
    if |a| != |b| {
      return false;
    }
    for i := 0 to |a|
      invariant forall j :: 0 <= j < i ==> Cmp(a[j], b[j]) == 0
    {
      if Cmp(a[i], b[i]) != 0 {
        return false;
      }
    }
    return true;
  }

  /**
   * `Version.Less` (s.go:162-179): major, minor and patch in turn; then the
   * prereleases, where a version without one is the greater; then the
   * builds.  A nil list and an empty one are `IdsEqual`.
   */
  predicate Less(v: Version, w: Version)
    ensures Less(v, w) ==> v.major <= w.major
    ensures Less(v, w) && v.major == w.major ==> v.minor <= w.minor
    ensures Less(v, w) && v.major == w.major && v.minor == w.minor ==> v.patch <= w.patch
  {
    if v.major != w.major then v.major < w.major
    else if v.minor != w.minor then v.minor < w.minor
    else if v.patch != w.patch then v.patch < w.patch
    else if !IdsEqual(Ids(v.prerelease), Ids(w.prerelease)) then
      if v.prerelease.None? || w.prerelease.None? then v.prerelease.Some?
      else IdsLess(v.prerelease.value, w.prerelease.value)
    else if !IdsEqual(Ids(v.build), Ids(w.build)) then IdsLess(Ids(v.build), Ids(w.build))
    else false
  }

  /**
   * What `Version.Equal` decides: the same three numbers and, element for
   * element, the same prerelease text.  The build is not consulted.
   */
  predicate SameRelease(v: Version, w: Version)
  {
    v.major == w.major && v.minor == w.minor && v.patch == w.patch &&
    Ids(v.prerelease) == Ids(w.prerelease)
  }

  /** `Version.Equal` (s.go:182-197); the source's `goto not` is the early `return false`. */
  method Equal(v: Version, w: Version) returns (r: bool)
    ensures r == SameRelease(v, w)
  {
    if v.major == w.major && v.minor == w.minor && v.patch == w.patch {
      var p, q := Ids(v.prerelease), Ids(w.prerelease);
      if |p| == |q| {
        for i := 0 to |p|
          invariant forall j :: 0 <= j < i ==> p[j] == q[j]
        {
          if p[i] != q[i] {
            return false;
          }
        }
        return true;
      }
    }
    return false;
  }
}
