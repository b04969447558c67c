/** What the parser and the formatter promise (s.go:30-78). */
module SemverProofs {
  import opened Wrappers
  import opened Strings
  import opened Decimal
  import opened Semver

  /** A character outside every part and distinct from the separator is outside the join. */
  lemma {:induction false} JoinExcludes(parts: seq<string>, sep: char, c: char)
    requires c != sep
    requires forall i :: 0 <= i < |parts| ==> c !in parts[i]
    ensures c !in Join(parts, sep)
    decreases |parts|
  {
    if |parts| > 1 {
      JoinExcludes(parts[1..], sep, c);
      assert Join(parts, sep) == parts[0] + [sep] + Join(parts[1..], sep);
    }
  }

  lemma JoinThree(a: string, b: string, c: string, sep: char)
    ensures Join([a, b, c], sep) == a + [sep] + b + [sep] + c
  {
    assert [a, b, c][1..] == [b, c];
    assert [b, c][1..] == [c];
    assert Join([b, c], sep) == b + [sep] + c;
  }

  lemma SectionExcludes(cat: Categories, ids: Option<seq<string>>, c: char)
    requires Sound(cat) && Section(cat, ids) && ids.Some?
    requires c == '.' || c == '+'
    ensures forall i :: 0 <= i < |ids.value| ==> c !in ids.value[i]
  {
    forall i | 0 <= i < |ids.value| ensures c !in ids.value[i] {
      assert Identifier(cat, ids.value[i]);
    }
  }

  lemma TagExcludesPlus(cat: Categories, ids: Option<seq<string>>)
    requires Sound(cat) && Section(cat, ids)
    ensures '+' !in Tag('-', ids)
  {
    if ids.Some? {
      SectionExcludes(cat, ids, '+');
      JoinExcludes(ids.value, '.', '+');
    }
  }

  lemma NumberFieldExcludes(cat: Categories, f: string, c: char)
    requires Sound(cat) && NumberField(cat, f)
    requires c == '.' || c == '+' || c == '-'
    ensures c !in f
  {
  }

  /** A present optional group splits back into its identifiers. */
  lemma SplitTag(cat: Categories, ids: Option<seq<string>>)
    requires Sound(cat) && Section(cat, ids)
    ensures ids.Some? ==> SplitGroup(Some(Join(ids.value, '.'))) == ids
  {
    if ids.Some? {
      SectionExcludes(cat, ids, '.');
      JoinSplit(ids.value, '.');
    }
  }

  /** Cutting at `marker` recovers what precedes a tag and the tag's contents. */
  lemma CutTag(prefix: string, marker: char, ids: Option<seq<string>>)
    requires marker !in prefix
    ensures Cut(prefix + Tag(marker, ids), marker) ==
            (prefix, if ids.None? then None else Some(Join(ids.value, '.')))
  {
    if ids.None? {
      assert prefix + Tag(marker, ids) == prefix;
      CutAbsent(prefix, marker);
    } else {
      assert prefix + Tag(marker, ids) == prefix + [marker] + Join(ids.value, '.');
      CutFound(prefix, marker, Join(ids.value, '.'));
    }
  }

  /** An optional group's tag restores the marker and the group's text. */
  lemma TagOfGroup(marker: char, text: Option<string>)
    ensures Tag(marker, SplitGroup(text)) == if text.None? then [] else [marker] + text.value
  {
    if text.Some? {
      SplitJoin(text.value, '.');
    }
  }

  /** The text before a cut, followed by the tag of the split group after it, is the whole text. */
  lemma CutRejoin(s: string, c: char)
    ensures Cut(s, c).0 + Tag(c, SplitGroup(Cut(s, c).1)) == s
  {
    CutSpec(s, c);
    TagOfGroup(c, Cut(s, c).1);
  }

  /** Whatever `Match` returns is grammatical and renders to the matched text. */
  lemma MatchSound(cat: Categories, s: string)
    requires Match(cat, s).Some?
    ensures InGrammar(cat, Match(cat, s).value)
    ensures Render(Match(cat, s).value) == s
  {
    var (core, buildText) := Cut(s, '+');
    var (numbers, preText) := Cut(core, '-');
    var fields := Split(numbers, '.');
    var m := Match(cat, s).value;
    assert m == Submatch(fields[0], fields[1], fields[2], SplitGroup(preText), SplitGroup(buildText));
    CutRejoin(s, '+');
    CutRejoin(core, '-');
    assert core == numbers + Tag('-', m.prerelease);
    assert s == core + Tag('+', m.build);
    SplitJoin(numbers, '.');
    assert fields == [m.major, m.minor, m.patch];
    JoinThree(m.major, m.minor, m.patch, '.');
  }

  /** The dotted numbers of a grammatical record hold no `+` or `-`, and only the two dots. */
  lemma NumbersExclude(cat: Categories, m: Submatch, c: char)
    requires Sound(cat) && InGrammar(cat, m) && (c == '.' || c == '+' || c == '-')
    ensures c !in m.major && c !in m.minor && c !in m.patch
    ensures c != '.' ==> c !in m.major + "." + m.minor + "." + m.patch
  {
    NumberFieldExcludes(cat, m.major, c);
    NumberFieldExcludes(cat, m.minor, c);
    NumberFieldExcludes(cat, m.patch, c);
  }

  /** `Match` finds every grammatical record of submatches in the text it renders to. */
  lemma MatchComplete(cat: Categories, m: Submatch)
    requires Sound(cat) && InGrammar(cat, m)
    ensures Match(cat, Render(m)) == Some(m)
  {
    var numbers := m.major + "." + m.minor + "." + m.patch;
    var core := numbers + Tag('-', m.prerelease);
    NumbersExclude(cat, m, '+');
    NumbersExclude(cat, m, '-');
    NumbersExclude(cat, m, '.');
    TagExcludesPlus(cat, m.prerelease);
    assert '+' !in core;
    CutTag(core, '+', m.build);
    CutTag(numbers, '-', m.prerelease);
    var fields := [m.major, m.minor, m.patch];
    JoinThree(m.major, m.minor, m.patch, '.');
    JoinSplit(fields, '.');
    SplitTag(cat, m.prerelease);
    SplitTag(cat, m.build);
  }

  /** The pattern's language is exactly where `Match` succeeds. */
  lemma MatchExactlyGrammar(cat: Categories, s: string)
    requires Sound(cat)
    ensures Match(cat, s).Some? <==> InLanguage(cat, s)
  {
    if Match(cat, s).Some? {
      MatchSound(cat, s);
    }
    if InLanguage(cat, s) {
      var m :| InGrammar(cat, m) && Render(m) == s;
      MatchComplete(cat, m);
    }
  }

  /** Each text of the pattern's language has one decomposition into submatches. */
  lemma RenderInjective(cat: Categories, m1: Submatch, m2: Submatch)
    requires Sound(cat) && InGrammar(cat, m1) && InGrammar(cat, m2)
    requires Render(m1) == Render(m2)
    ensures m1 == m2
  {
    MatchComplete(cat, m1);
    MatchComplete(cat, m2);
  }

  /** `Parse` fails with `InvalidVersion` carrying the input exactly on texts outside the pattern. */
  lemma ParseRejectsExactlyOutsideGrammar(cat: Categories, s: string)
    requires Sound(cat)
    ensures Parse(cat, s) == Err(InvalidVersion(s)) <==> !InLanguage(cat, s)
  {
    MatchExactlyGrammar(cat, s);
  }

  /**
   * On a text of the pattern, `Parse` converts the three numbers when all
   * their characters are ASCII digits, and otherwise reports the first
   * field on which the source's `atoi` panics.
   */
  lemma ParseOnGrammar(cat: Categories, m: Submatch)
    requires Sound(cat) && InGrammar(cat, m)
    ensures Parse(cat, Render(m)) ==
      if !IsAsciiDigits(m.major) then Err(NumberPanic(m.major))
      else if !IsAsciiDigits(m.minor) then Err(NumberPanic(m.minor))
      else if !IsAsciiDigits(m.patch) then Err(NumberPanic(m.patch))
      else Ok(Version(Value(m.major), Value(m.minor), Value(m.patch), m.prerelease, m.build))
  {
    MatchComplete(cat, m);
  }

  /**
   * After a successful parse every identifier is non-empty and drawn from
   * the identifier class, the numbers are below 10^9, and a section is nil
   * exactly when its marker is missing: there is no `+` for the build, and
   * no `-` ahead of the first `+` for the prerelease.
   */
  lemma ParseSections(cat: Categories, s: string, v: Version)
    requires Parse(cat, s) == Ok(v)
    ensures WellFormed(cat, v)
    ensures v.build.None? <==> '+' !in s
    ensures v.prerelease.None? <==> '-' !in Cut(s, '+').0
  {
    var m := Match(cat, s).value;
    MatchSound(cat, s);
    ValueBelowPow10(m.major);
    ValueBelowPow10(m.minor);
    ValueBelowPow10(m.patch);
    assert Pow10(|m.major|) <= Pow10(9) by { Pow10Monotone(|m.major|, 9); }
    assert Pow10(|m.minor|) <= Pow10(9) by { Pow10Monotone(|m.minor|, 9); }
    assert Pow10(|m.patch|) <= Pow10(9) by { Pow10Monotone(|m.patch|, 9); }
    var (core, buildText) := Cut(s, '+');
    CutSpec(s, '+');
    CutSpec(core, '-');
  }

  lemma NumberText(cat: Categories, n: int)
    requires Sound(cat) && 0 <= n < Pow10(9)
    ensures NumberField(cat, FormatInt(n)) && Atoi(FormatInt(n)) == Some(n)
  {
    DigitsLength(n, 9);
    ValueOfDigits(n);
  }

  /** Round trip: a well-formed version prints to text that parses back to it, nil sections included. */
  lemma RoundTrip(cat: Categories, v: Version)
    requires Sound(cat) && WellFormed(cat, v)
    ensures Parse(cat, String(v)) == Ok(v)
  {
    NumberText(cat, v.major);
    NumberText(cat, v.minor);
    NumberText(cat, v.patch);
    MatchComplete(cat, Submatch(FormatInt(v.major), FormatInt(v.minor), FormatInt(v.patch),
                                v.prerelease, v.build));
  }

  /** Printing a parsed version and parsing again gives the same version (leading zeros are dropped once). */
  lemma ParseStringParse(cat: Categories, s: string, v: Version)
    requires Sound(cat) && Parse(cat, s) == Ok(v)
    ensures Parse(cat, String(v)) == Ok(v)
  {
    ParseSections(cat, s, v);
    RoundTrip(cat, v);
  }

  /** Fields free of the pattern's three separators. */
  predicate PlainFields(fields: seq<string>)
  {
    forall i :: 0 <= i < |fields| ==> '.' !in fields[i] && '+' !in fields[i] && '-' !in fields[i]
  }

  /**
   * A text without `+` or `-` matches exactly when its dot-separated fields
   * are three number fields; anything else is an `InvalidVersion`.
   */
  lemma MatchPlain(cat: Categories, fields: seq<string>)
    requires |fields| >= 1 && PlainFields(fields)
    ensures Match(cat, Join(fields, '.')).Some? <==>
      |fields| == 3 && NumberField(cat, fields[0]) && NumberField(cat, fields[1]) &&
      NumberField(cat, fields[2])
  {
    var s := Join(fields, '.');
    JoinExcludes(fields, '.', '+');
    JoinExcludes(fields, '.', '-');
    CutAbsent(s, '+');
    CutAbsent(s, '-');
    JoinSplit(fields, '.');
  }

  /** Texts outside the pattern: a missing number field. */
  lemma RejectsTwoNumbers(cat: Categories)
    ensures Parse(cat, "1.2") == Err(InvalidVersion("1.2"))
  {
    assert Join(["1", "2"], '.') == "1.2";
    MatchPlain(cat, ["1", "2"]);
  }

  /** An empty prerelease group. */
  lemma RejectsEmptyPrerelease(cat: Categories)
    ensures Parse(cat, "1.2.3-") == Err(InvalidVersion("1.2.3-"))
  {
    var s: string := "1.2.3-";
    assert '+' !in s;
    CutAbsent(s, '+');
    assert "1.2.3" + ['-'] + "" == s;
    assert '-' !in "1.2.3";
    CutFound("1.2.3", '-', "");
    EmptyGroupRejected(cat, s);
  }

  /** A `-` that ends the text before any `+` opens a prerelease group with an empty identifier. */
  lemma EmptyGroupRejected(cat: Categories, s: string)
    requires Cut(Cut(s, '+').0, '-').1 == Some("")
    ensures Match(cat, s) == None
  {
    var (core, buildText) := Cut(s, '+');
    var (numbers, preText) := Cut(core, '-');
    assert Split("", '.') == [""];
    var pre := SplitGroup(preText);
    assert pre == Some([""]);
    assert !Section(cat, pre) by {
      assert !Identifier(cat, pre.value[0]);
    }
  }

  /** A fourth number field. */
  lemma RejectsFourNumbers(cat: Categories)
    ensures Parse(cat, "1.2.3.4") == Err(InvalidVersion("1.2.3.4"))
  {
    var fields := ["1", "2", "3", "4"];
    JoinThree("2", "3", "4", '.');
    assert fields[1..] == ["2", "3", "4"];
    assert Join(fields, '.') == "1.2.3.4";
    MatchPlain(cat, fields);
  }

  /** A leading letter. */
  lemma RejectsPrefix(cat: Categories)
    requires Sound(cat)
    ensures Parse(cat, "v1.2.3") == Err(InvalidVersion("v1.2.3"))
  {
    var fields := ["v1", "2", "3"];
    JoinThree("v1", "2", "3", '.');
    assert Join(fields, '.') == "v1.2.3";
    assert cat.letter('v');
    assert !NumberChar(cat, "v1"[0]);
    MatchPlain(cat, fields);
  }

  /** The letter `d` is in the numeric class, so `d.1.2` matches and `atoi("d")` panics. */
  lemma PanicExample(cat: Categories)
    requires Sound(cat)
    ensures Parse(cat, "d.1.2") == Err(NumberPanic("d"))
  {
    var m := Submatch("d", "1", "2", None, None);
    assert Render(m) == "d.1.2";
    ParseOnGrammar(cat, m);
  }

  /** The source's own example: a Greek letter in the prerelease. */
  lemma UnicodeExample(cat: Categories)
    requires Sound(cat) && cat.letter('β')
    ensures Parse(cat, "3.24.3-β+20150115102400") ==
            Ok(Version(3, 24, 3, Some(["β"]), Some(["20150115102400"])))
  {
    var v := Version(3, 24, 3, Some(["β"]), Some(["20150115102400"]));
    UnicodeExampleText();
    UnicodeExampleWellFormed(cat);
    RoundTrip(cat, v);
  }

  lemma UnicodeExampleText()
    ensures String(Version(3, 24, 3, Some(["β"]), Some(["20150115102400"]))) == "3.24.3-β+20150115102400"
  {
    UnicodeExampleNumbers();
    UnicodeExampleTags();
    var v := Version(3, 24, 3, Some(["β"]), Some(["20150115102400"]));
    assert String(v) == "3" + "." + "24" + "." + "3" + "-β" + "+20150115102400";
  }

  lemma UnicodeExampleNumbers()
    ensures FormatInt(3) == "3" && FormatInt(24) == "24"
  {
    assert Digits(24) == Digits(2) + [DigitChar(4)];
  }

  lemma UnicodeExampleTags()
    ensures Tag('-', Some(["β"])) == "-β"
    ensures Tag('+', Some(["20150115102400"])) == "+20150115102400"
  {
  }

  lemma UnicodeExampleWellFormed(cat: Categories)
    requires Sound(cat) && cat.letter('β')
    ensures WellFormed(cat, Version(3, 24, 3, Some(["β"]), Some(["20150115102400"])))
  {
    var b: string := "20150115102400";
    assert forall i :: 0 <= i < |b| ==> '0' <= b[i] <= '9';
    assert Identifier(cat, b);
    assert Pow10(9) == 1000000000;
  }
}
