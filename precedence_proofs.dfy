/** What the comparisons promise (s.go:80-197). */
module PrecedenceProofs {
  import opened Wrappers
  import opened Strings
  import opened Decimal
  import opened Semver
  import opened Precedence

  function Sign(x: int): int
  {
    if x < 0 then -1 else if x > 0 then 1 else 0
  }

  /**
   * `numCmp` compares digit strings of any length by their value: leading
   * zeros do not count and a longer significant part is larger.
   */
  lemma NumCmpIsNumeric(a: string, b: string)
    requires IsAsciiDigits(a) && IsAsciiDigits(b)
    ensures NumCmp(a, b) == Sign(Value(a) - Value(b))
  {
    TrimZerosValue(a);
    TrimZerosValue(b);
    TrimmedOrder(TrimZeros(a), TrimZeros(b));
  }

  /** `numCmp`'s comparison once leading zeros are gone. */
  lemma TrimmedOrder(a: string, b: string)
    requires IsAsciiDigits(a) && IsAsciiDigits(b)
    requires (a == [] || a[0] != '0') && (b == [] || b[0] != '0')
    ensures Sign(Value(a) - Value(b)) ==
      if |a| < |b| then -1
      else if |a| > |b| then 1
      else if LexLess(a, b) then -1
      else if LexLess(b, a) then 1
      else 0
  {
    if |a| < |b| {
      LongerIsLarger(a, b);
    } else if |a| > |b| {
      LongerIsLarger(b, a);
    } else {
      SameLengthOrder(a, b);
      SameLengthOrder(b, a);
    }
  }

  lemma LongerIsLarger(a: string, b: string)
    requires IsAsciiDigits(a) && IsAsciiDigits(b) && |a| < |b|
    requires b[0] != '0'
    ensures Value(a) < Value(b)
  {
    ValueBelowPow10(a);
    ValueAtLeast(b);
    Pow10Monotone(|a|, |b| - 1);
  }

  lemma NumCmpExamples()
    ensures NumCmp("007", "7") == 0
    ensures NumCmp("2", "11") == -1
  {
    LeadingZerosIgnored();
    ShorterIsSmaller();
  }

  lemma LeadingZerosIgnored()
    ensures NumCmp("007", "7") == 0
  {
    var s: string := "007";
    assert s[1..] == "07" && s[1..][1..] == "7";
    assert TrimZeros("7") == "7";
    assert TrimZeros(s) == "7";
    LexLessIrreflexive("7");
  }

  lemma ShorterIsSmaller()
    ensures NumCmp("2", "11") == -1
  {
    var a: string, b: string := "2", "11";
    assert a[0] == '2' && b[0] == '1';
    assert TrimZeros(a) == a;
    assert TrimZeros(b) == b;
    assert |a| < |b|;
  }

  /** `cmp` answers -1, 0 or 1, and exactly when the equal-valued or identical case holds it answers 0. */
  lemma CmpThreeWay(a: string, b: string)
    ensures Cmp(a, b) in {-1, 0, 1}
    ensures Cmp(a, b) == 0 <==>
      a == b || (IsAsciiDigits(a) && IsAsciiDigits(b) && Value(a) == Value(b))
  {
    LexLessTrichotomy(a, b);
    if IsAsciiDigits(a) && IsAsciiDigits(b) {
      NumCmpIsNumeric(a, b);
    }
  }

  /** `cmp(a, a) == 0` and `cmp(a, b) == -cmp(b, a)`. */
  lemma CmpAntisymmetric(a: string, b: string)
    ensures Cmp(a, a) == 0
    ensures Cmp(a, b) == -Cmp(b, a)
  {
    LexLessIrreflexive(a);
    LexLessTrichotomy(a, b);
    NumCmpAntisymmetric(a, b);
  }

  lemma NumCmpAntisymmetric(a: string, b: string)
    ensures NumCmp(a, a) == 0
    ensures NumCmp(a, b) == -NumCmp(b, a)
  {
    LexLessIrreflexive(TrimZeros(a));
    LexLessTrichotomy(TrimZeros(a), TrimZeros(b));
  }

  /** A numeric identifier is below every non-numeric one; non-numeric ones compare as strings. */
  lemma CmpNumericFirst(a: string, b: string)
    ensures IsAsciiDigits(a) && !IsAsciiDigits(b) ==> Cmp(a, b) == -1 && Cmp(b, a) == 1
    ensures !IsAsciiDigits(a) && !IsAsciiDigits(b) ==> (Cmp(a, b) == -1 <==> LexLess(a, b))
    ensures !IsAsciiDigits(a) && !IsAsciiDigits(b) ==> (Cmp(a, b) == 0 <==> a == b)
  {
    LexLessTrichotomy(a, b);
    LexLessIrreflexive(a);
  }

  lemma CmpExamples()
    ensures Cmp("10", "a") == -1 && Cmp("a", "10") == 1
    ensures Cmp("alpha", "beta") == -1
    ensures Cmp("007", "7") == 0
  {
    assert !IsAsciiDigits("a") by { assert "a"[0] == 'a'; }
    assert !IsAsciiDigits("alpha") by { assert "alpha"[0] == 'a'; }
    assert !IsAsciiDigits("beta") by { assert "beta"[0] == 'b'; }
    assert LexLess("alpha", "beta");
    assert IsAsciiDigits("007") && IsAsciiDigits("7") && IsAsciiDigits("10");
    NumCmpExamples();
  }

  /** `cmp` orders identifiers transitively, its ties included. */
  lemma CmpTransitive(a: string, b: string, c: string)
    requires Cmp(a, b) <= 0 && Cmp(b, c) <= 0
    ensures Cmp(a, c) <= 0
    ensures Cmp(a, b) < 0 || Cmp(b, c) < 0 ==> Cmp(a, c) < 0
  {
    var na, nb, nc := IsAsciiDigits(a), IsAsciiDigits(b), IsAsciiDigits(c);
    if na && nb && nc {
      NumCmpIsNumeric(a, b);
      NumCmpIsNumeric(b, c);
      NumCmpIsNumeric(a, c);
    } else if !na && !nb && !nc {
      LexLessTrichotomy(a, b);
      LexLessTrichotomy(b, c);
      LexLessTrichotomy(a, c);
      LexLessIrreflexive(a);
      if LexLess(a, b) && LexLess(b, c) {
        LexLessTransitive(a, b, c);
      }
    } else {
      LexLessIrreflexive(a);
      LexLessIrreflexive(b);
    }
  }

  /** `lessIds` decides at the first position where `cmp` is not zero, else by length. */
  lemma {:induction false} IdsLessFirstDifference(a: seq<string>, b: seq<string>, k: nat)
    requires k <= |a| && k <= |b|
    requires forall j :: 0 <= j < k ==> Cmp(a[j], b[j]) == 0
    requires k == |a| || k == |b| || Cmp(a[k], b[k]) != 0
    ensures IdsLess(a, b) <==> if k < |a| && k < |b| then Cmp(a[k], b[k]) < 0 else k < |b|
    decreases k
  {
    if k > 0 {
      assert Cmp(a[0], b[0]) == 0;
      IdsLessFirstDifference(a[1..], b[1..], k - 1);
    }
  }

  lemma IdsPrefixExample()
    ensures IdsLess(["1", "0"], ["1", "0", "0"])
    ensures !IdsLess(["1", "0", "0"], ["1", "0"])
  {
    CmpAntisymmetric("1", "1");
    CmpAntisymmetric("0", "0");
    IdsLessFirstDifference(["1", "0"], ["1", "0", "0"], 2);
    IdsLessFirstDifference(["1", "0", "0"], ["1", "0"], 2);
  }

  lemma {:induction false} IdsLessIrreflexive(a: seq<string>)
    ensures !IdsLess(a, a)
    decreases |a|
  {
    if a != [] {
      CmpAntisymmetric(a[0], a[0]);
      IdsLessIrreflexive(a[1..]);
    }
  }

  /**
   * Of two identifier lists exactly one holds: the first is less, the
   * second is less, or `eqIds` says they are equal.
   */
  lemma {:induction false} IdsTrichotomy(a: seq<string>, b: seq<string>)
    ensures !(IdsLess(a, b) && IdsLess(b, a))
    ensures IdsEqual(a, b) ==> !IdsLess(a, b) && !IdsLess(b, a)
    ensures !IdsLess(a, b) && !IdsLess(b, a) ==> IdsEqual(a, b)
    decreases |a|
  {
    if a != [] && b != [] {
      CmpAntisymmetric(a[0], b[0]);
      IdsTrichotomy(a[1..], b[1..]);
      if Cmp(a[0], b[0]) == 0 {
        IdsEqualCons(a, b);
      }
    }
  }

  /** `eqIds` on non-empty lists: the heads tie and the tails are equal. */
  lemma IdsEqualCons(a: seq<string>, b: seq<string>)
    requires a != [] && b != []
    ensures IdsEqual(a, b) <==> Cmp(a[0], b[0]) == 0 && IdsEqual(a[1..], b[1..])
  {
    if Cmp(a[0], b[0]) == 0 && IdsEqual(a[1..], b[1..]) {
      forall i | 0 <= i < |a| ensures Cmp(a[i], b[i]) == 0 {
        if i > 0 {
          assert a[i] == a[1..][i - 1] && b[i] == b[1..][i - 1];
        }
      }
    }
    if IdsEqual(a, b) {
      forall i | 0 <= i < |a| - 1 ensures Cmp(a[1..][i], b[1..][i]) == 0 {
        assert Cmp(a[i + 1], b[i + 1]) == 0;
      }
    }
  }

  /** `eqIds` is an equivalence. */
  lemma IdsEqualEquivalence(a: seq<string>, b: seq<string>, c: seq<string>)
    ensures IdsEqual(a, a)
    ensures IdsEqual(a, b) ==> IdsEqual(b, a)
    ensures IdsEqual(a, b) && IdsEqual(b, c) ==> IdsEqual(a, c)
  {
    forall i | 0 <= i < |a| ensures Cmp(a[i], a[i]) == 0 {
      CmpAntisymmetric(a[i], a[i]);
    }
    if IdsEqual(a, b) {
      forall i | 0 <= i < |a| ensures Cmp(b[i], a[i]) == 0 {
        CmpAntisymmetric(a[i], b[i]);
      }
      if IdsEqual(b, c) {
        forall i | 0 <= i < |a| ensures Cmp(a[i], c[i]) == 0 {
          CmpTransitive(a[i], b[i], c[i]);
          CmpAntisymmetric(a[i], c[i]);
          CmpAntisymmetric(b[i], c[i]);
          CmpAntisymmetric(a[i], b[i]);
          CmpTransitive(c[i], b[i], a[i]);
        }
      }
    }
  }

  /**
   * `lessIds` is transitive, and lists that `eqIds` relates stand in the
   * same place in its order.
   */
  lemma {:induction false} IdsLessTransitive(a: seq<string>, b: seq<string>, c: seq<string>)
    requires IdsLess(a, b) || IdsEqual(a, b)
    requires IdsLess(b, c) || IdsEqual(b, c)
    requires IdsLess(a, b) || IdsLess(b, c)
    ensures IdsLess(a, c)
    decreases |a|
  {
    if a == [] {
      if b == [] {
        assert IdsLess(b, c);
      } else {
        assert !IdsEqual(a, b) && IdsLess(a, b);
        assert |c| == |b| || IdsLess(b, c);
      }
    } else {
      assert b != [];
      assert c != [];
      IdsEqualCons(a, b);
      IdsEqualCons(b, c);
      CmpAntisymmetric(a[0], b[0]);
      CmpAntisymmetric(b[0], c[0]);
      CmpTransitive(a[0], b[0], c[0]);
      if Cmp(a[0], b[0]) == 0 && Cmp(b[0], c[0]) == 0 {
        IdsLessTransitive(a[1..], b[1..], c[1..]);
      }
    }
  }

  /**
   * "Neither is `Less`" in closed form: equal numbers and `eqIds`-equal
   * prereleases and builds (`LessTrichotomy` proves the two agree).
   */
  predicate Tied(v: Version, w: Version)
  {
    v.major == w.major && v.minor == w.minor && v.patch == w.patch &&
    IdsEqual(Ids(v.prerelease), Ids(w.prerelease)) && IdsEqual(Ids(v.build), Ids(w.build))
  }

  lemma LessIrreflexive(v: Version)
    ensures !Less(v, v)
  {
    IdsEqualEquivalence(Ids(v.prerelease), Ids(v.prerelease), Ids(v.prerelease));
    IdsEqualEquivalence(Ids(v.build), Ids(v.build), Ids(v.build));
  }

  /** `Less(v, w)` and `Less(w, v)` never both hold. */
  lemma LessAsymmetric(v: Version, w: Version)
    ensures !(Less(v, w) && Less(w, v))
  {
    if v.major == w.major && v.minor == w.minor && v.patch == w.patch {
      var pv, pw := Ids(v.prerelease), Ids(w.prerelease);
      IdsEqualEquivalence(pv, pw, pv);
      if IdsEqual(pv, pw) {
        IdsTrichotomy(Ids(v.build), Ids(w.build));
      } else {
        IdsTrichotomy(pv, pw);
      }
    }
  }

  /** Tied versions are not ordered either way. */
  lemma TiedNotLess(v: Version, w: Version)
    requires Tied(v, w)
    ensures !Less(v, w) && !Less(w, v)
  {
    IdsEqualEquivalence(Ids(v.prerelease), Ids(w.prerelease), Ids(v.prerelease));
    IdsEqualEquivalence(Ids(v.build), Ids(w.build), Ids(v.build));
  }

  /** Versions that `Less` does not order either way are tied. */
  lemma NotLessTied(v: Version, w: Version)
    requires !Less(v, w) && !Less(w, v)
    ensures Tied(v, w)
  {
    var pv, pw := Ids(v.prerelease), Ids(w.prerelease);
    IdsEqualEquivalence(pv, pw, pv);
    if !IdsEqual(pv, pw) {
      IdsTrichotomy(pv, pw);
    } else {
      IdsTrichotomy(Ids(v.build), Ids(w.build));
    }
  }

  /**
   * `Less` is a three-way comparison: exactly one of `Less(v, w)`,
   * `Less(w, v)` and `Tied(v, w)` holds.
   */
  lemma LessTrichotomy(v: Version, w: Version)
    ensures !(Less(v, w) && Less(w, v))
    ensures Tied(v, w) <==> !Less(v, w) && !Less(w, v)
  {
    LessAsymmetric(v, w);
    if Tied(v, w) {
      TiedNotLess(v, w);
    }
    if !Less(v, w) && !Less(w, v) {
      NotLessTied(v, w);
    }
  }

  /** No prerelease list is present but empty; `Parse` never produces one. */
  predicate NoEmptyPrerelease(v: Version)
  {
    v.prerelease != Some([])
  }

  /** What the prerelease step of `Less` decides on its own. */
  predicate PreLess(v: Version, w: Version)
  {
    !IdsEqual(Ids(v.prerelease), Ids(w.prerelease)) &&
    if v.prerelease.None? || w.prerelease.None? then v.prerelease.Some?
    else IdsLess(v.prerelease.value, w.prerelease.value)
  }

  lemma PreLessTransitive(u: Version, v: Version, w: Version)
    requires NoEmptyPrerelease(u) && NoEmptyPrerelease(v) && NoEmptyPrerelease(w)
    requires PreLess(u, v) || IdsEqual(Ids(u.prerelease), Ids(v.prerelease))
    requires PreLess(v, w) || IdsEqual(Ids(v.prerelease), Ids(w.prerelease))
    requires PreLess(u, v) || PreLess(v, w)
    ensures PreLess(u, w)
  {
    var pu, pv, pw := Ids(u.prerelease), Ids(v.prerelease), Ids(w.prerelease);
    IdsEqualEquivalence(pu, pv, pw);
    IdsEqualEquivalence(pv, pw, pu);
    IdsEqualEquivalence(pw, pu, pv);
    IdsTrichotomy(pu, pv);
    IdsTrichotomy(pv, pw);
    IdsTrichotomy(pu, pw);
    if u.prerelease.Some? && v.prerelease.Some? && w.prerelease.Some? {
      IdsLessTransitive(pu, pv, pw);
    }
  }

  /**
   * On versions without a present-but-empty prerelease (all that `Parse`
   * returns) `Less` is transitive.
   */
  lemma LessTransitive(u: Version, v: Version, w: Version)
    requires NoEmptyPrerelease(u) && NoEmptyPrerelease(v) && NoEmptyPrerelease(w)
    requires Less(u, v) && Less(v, w)
    ensures Less(u, w)
  {
    if u.major == v.major == w.major && u.minor == v.minor == w.minor &&
       u.patch == v.patch == w.patch {
      var pu, pv, pw := Ids(u.prerelease), Ids(v.prerelease), Ids(w.prerelease);
      var bu, bv, bw := Ids(u.build), Ids(v.build), Ids(w.build);
      IdsEqualEquivalence(pu, pv, pw);
      IdsEqualEquivalence(bu, bv, bw);
      IdsTrichotomy(bu, bv);
      IdsTrichotomy(bv, bw);
      IdsTrichotomy(bu, bw);
      if PreLess(u, v) || PreLess(v, w) {
        PreLessTransitive(u, v, w);
      } else {
        IdsLessTransitive(bu, bv, bw);
      }
    }
  }

  /**
   * Why transitivity needs `NoEmptyPrerelease`: an empty prerelease is
   * `eqIds`-equal to a missing one, yet below every non-empty one, while a
   * missing one is above them.
   */
  lemma LessNotTransitiveOnEmptyPrerelease()
    ensures var u, v, w := Version(1, 0, 0, Some([]), None),
                          Version(1, 0, 0, Some(["a"]), None),
                          Version(1, 0, 0, None, None);
            Less(u, v) && Less(v, w) && !Less(u, w)
  {
  }

  /**
   * A release outranks every non-empty prerelease with the same three
   * numbers; a present but empty prerelease ties with the release.
   */
  lemma ReleaseOutranksPrerelease(v: Version, w: Version)
    requires v.major == w.major && v.minor == w.minor && v.patch == w.patch
    requires v.prerelease.None? && w.prerelease.Some? && w.prerelease.value != []
    ensures Less(w, v) && !Less(v, w)
  {
  }

  /**
   * `Equal` implies "neither is less" when the builds are `eqIds`-equal, but
   * the converse fails: `Equal` compares prerelease text exactly.
   */
  lemma EqualIsStricterThanTied(v: Version, w: Version)
    requires SameRelease(v, w) && IdsEqual(Ids(v.build), Ids(w.build))
    ensures Tied(v, w) && !Less(v, w) && !Less(w, v)
  {
    IdsEqualEquivalence(Ids(v.prerelease), Ids(v.prerelease), Ids(v.prerelease));
    LessTrichotomy(v, w);
  }

  /** `Equal` ignores the build, which `Less` uses as its last tiebreak: 1.0.0+001 and 1.0.0+002. */
  lemma EqualIgnoresBuild()
    ensures var v, w := Version(1, 0, 0, None, Some(["001"])), Version(1, 0, 0, None, Some(["002"]));
            SameRelease(v, w) && Less(v, w) && !Less(w, v)
  {
    var a: string, b: string := "001", "002";
    BuildNumbersOrder();
    CmpAntisymmetric(a, b);
    assert IdsLess([a], [b]) && !IdsEqual([a], [b]);
    LessAsymmetric(Version(1, 0, 0, None, Some([a])), Version(1, 0, 0, None, Some([b])));
  }

  lemma BuildNumbersOrder()
    ensures Cmp("001", "002") == -1
  {
    var a: string, b: string := "001", "002";
    assert IsAsciiDigits(a) && IsAsciiDigits(b);
    assert TrimZeros(a) == "1" by {
      assert a[1..] == "01" && a[1..][1..] == "1";
      assert TrimZeros("1") == "1";
    }
    assert TrimZeros(b) == "2" by {
      assert b[1..] == "02" && b[1..][1..] == "2";
      assert TrimZeros("2") == "2";
    }
    assert LexLess("1", "2");
    assert NumCmp(a, b) == -1;
  }

  /** Prereleases 007 and 7 tie under `Less`, yet are not `Equal`. */
  lemma EqualComparesPrereleaseText()
    ensures var v, w := Version(1, 0, 0, Some(["007"]), None), Version(1, 0, 0, Some(["7"]), None);
            !SameRelease(v, w) && !Less(v, w) && !Less(w, v)
  {
    var v, w := Version(1, 0, 0, Some(["007"]), None), Version(1, 0, 0, Some(["7"]), None);
    assert "007" != "7";
    assert ["007"] != ["7"] by { assert ["007"][0] != ["7"][0]; }
    assert IsAsciiDigits("007") && IsAsciiDigits("7");
    NumCmpExamples();
    assert IdsEqual(["007"], ["7"]);
    assert IdsEqual(Ids(v.build), Ids(w.build));
    LessTrichotomy(v, w);
  }

  /** Version 1.0.0 with the given prerelease and no build. */
  function Pre(ids: seq<string>): Version
  {
    Version(1, 0, 0, Some(ids), None)
  }

  /** A non-numeric identifier ties only with itself. */
  lemma WordTies(a: string)
    requires a != [] && !('0' <= a[0] <= '9')
    ensures !IsAsciiDigits(a) && Cmp(a, a) == 0
  {
    CmpAntisymmetric(a, a);
  }

  /** Two prereleases whose first `k` identifiers tie and whose `k`-th decides. */
  lemma PreLessAt(a: seq<string>, b: seq<string>, k: nat)
    requires k <= |a| && k <= |b|
    requires forall j :: 0 <= j < k ==> Cmp(a[j], b[j]) == 0
    requires if k < |a| && k < |b| then Cmp(a[k], b[k]) < 0 else k == |a| < |b|
    ensures Less(Pre(a), Pre(b))
  {
    IdsLessFirstDifference(a, b, k);
    IdsTrichotomy(a, b);
  }

  lemma ExampleAlpha()
    ensures Less(Pre(["alpha"]), Pre(["alpha", "1"]))
    ensures Less(Pre(["alpha", "1"]), Pre(["alpha", "beta"]))
    ensures Less(Pre(["alpha", "beta"]), Pre(["beta"]))
  {
    WordTies("alpha");
    WordTies("beta");
    assert IsAsciiDigits("1");
    CmpExamples();
    PreLessAt(["alpha"], ["alpha", "1"], 1);
    PreLessAt(["alpha", "1"], ["alpha", "beta"], 1);
    PreLessAt(["alpha", "beta"], ["beta"], 0);
  }

  lemma ExampleBeta()
    ensures Less(Pre(["beta"]), Pre(["beta", "2"]))
  {
    WordTies("beta");
    PreLessAt(["beta"], ["beta", "2"], 1);
  }

  lemma ExampleBetaNumbers()
    ensures Less(Pre(["beta", "2"]), Pre(["beta", "11"]))
  {
    var a: string, b: string := "2", "11";
    WordTies("beta");
    assert IsAsciiDigits(a) && IsAsciiDigits(b);
    NumCmpExamples();
    assert Cmp(a, b) == -1;
    PreLessAt(["beta", a], ["beta", b], 1);
  }

  lemma ExampleRc()
    ensures Less(Pre(["beta", "11"]), Pre(["rc", "1"]))
  {
    var a: string, b: string := "beta", "rc";
    assert !IsAsciiDigits(a) by { assert a[0] == 'b'; }
    assert !IsAsciiDigits(b) by { assert b[0] == 'r'; }
    assert LexLess(a, b) by { assert a[0] == 'b' && b[0] == 'r'; }
    assert Cmp(a, b) == -1;
    PreLessAt([a, "11"], [b, "1"], 0);
  }

  /**
   * The precedence example of semver.org:
   * 1.0.0-alpha < 1.0.0-alpha.1 < 1.0.0-alpha.beta < 1.0.0-beta < 1.0.0-beta.2
   * < 1.0.0-beta.11 < 1.0.0-rc.1 < 1.0.0, each step and, by transitivity,
   * the two ends.
   */
  lemma SemverOrgExample()
    ensures Less(Pre(["alpha"]), Pre(["alpha", "1"]))
    ensures Less(Pre(["alpha", "1"]), Pre(["alpha", "beta"]))
    ensures Less(Pre(["alpha", "beta"]), Pre(["beta"]))
    ensures Less(Pre(["beta"]), Pre(["beta", "2"]))
    ensures Less(Pre(["beta", "2"]), Pre(["beta", "11"]))
    ensures Less(Pre(["beta", "11"]), Pre(["rc", "1"]))
    ensures Less(Pre(["rc", "1"]), Version(1, 0, 0, None, None))
    ensures Less(Pre(["alpha"]), Version(1, 0, 0, None, None))
  {
    ExampleAlpha();
    ExampleBeta();
    ExampleBetaNumbers();
    ExampleRc();
    var release := Version(1, 0, 0, None, None);
    ReleaseOutranksPrerelease(release, Pre(["rc", "1"]));
    LessTransitive(Pre(["beta", "11"]), Pre(["rc", "1"]), release);
    LessTransitive(Pre(["beta", "2"]), Pre(["beta", "11"]), release);
    LessTransitive(Pre(["beta"]), Pre(["beta", "2"]), release);
    LessTransitive(Pre(["alpha", "beta"]), Pre(["beta"]), release);
    LessTransitive(Pre(["alpha", "1"]), Pre(["alpha", "beta"]), release);
    LessTransitive(Pre(["alpha"]), Pre(["alpha", "1"]), release);
  }
}
