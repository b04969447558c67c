/**
 * Parsing and printing of version strings (s.go:20-78).
 *
 * The source compiles the pattern
 *   ^([\pNd]{1,9})\.([\pNd]{1,9})\.([\pNd]{1,9})(-C+(\.C+)*)?(\+C+(\.C+)*)?$
 * where C is the class [\-\pNd\pL].  Here the pattern is replaced by a
 * hand-written recogniser, `Match`, and its partner `Render`, which lays a
 * record of the pattern's submatches out as text; lemmas prove that `Match`
 * succeeds exactly on the texts `Render` can produce from grammatical
 * submatches.
 */
module Semver {
  import opened Wrappers
  import opened Strings
  import opened Decimal

  /** A parsed version; `None` is Go's nil slice, distinct from an empty one. */
  datatype Version = Version(
    major: int,
    minor: int,
    patch: int,
    prerelease: Option<seq<string>>,
    build: Option<seq<string>>)

  datatype ParseError =
    | InvalidVersion(input: string)  // the text does not match the pattern
    | NumberPanic(field: string)     // the pattern matched, but atoi could not convert this field

  /**
   * Membership in the Unicode general categories L (letters) and N
   * (numbers).  The tables themselves are not modelled: the parser takes
   * them as a parameter, and `Sound` states what the model relies on.
   */
  datatype Categories = Categories(letter: char -> bool, number: char -> bool)

  predicate Sound(cat: Categories)
  {
    (forall c :: 'a' <= c <= 'z' || 'A' <= c <= 'Z' ==> cat.letter(c)) &&
    (forall c :: '0' <= c <= '9' ==> cat.number(c)) &&
    (forall c :: !(cat.letter(c) && cat.number(c))) &&
    !cat.letter('-') && !cat.number('-') &&
    !cat.letter('.') && !cat.number('.') &&
    !cat.letter('+') && !cat.number('+')
  }

  /**
   * The class `[\pNd]`: the replacer turns the pattern's `d` into this
   * bracket, which admits every Unicode number and the letter `d` itself.
   */
  predicate NumberChar(cat: Categories, c: char)
  {
    cat.number(c) || c == 'd'
  }

  /** The class `[\-\pNd\pL]`. */
  predicate IdentChar(cat: Categories, c: char)
  {
    c == '-' || cat.number(c) || c == 'd' || cat.letter(c)
  }

  /** `[\pNd]{1,9}` */
  predicate NumberField(cat: Categories, f: string)
  {
    1 <= |f| <= 9 && forall i :: 0 <= i < |f| ==> NumberChar(cat, f[i])
  }

  /** `C+` */
  predicate Identifier(cat: Categories, id: string)
  {
    id != [] && forall i :: 0 <= i < |id| ==> IdentChar(cat, id[i])
  }

  /** The identifiers of `C+(\.C+)*`, or an absent optional group. */
  predicate Section(cat: Categories, ids: Option<seq<string>>)
  {
    ids.Some? ==>
      |ids.value| >= 1 && forall i :: 0 <= i < |ids.value| ==> Identifier(cat, ids.value[i])
  }

  /**
   * The pattern's submatches: the three numeric groups as text, and the
   * optional groups already split on `.` (absent when the group did not
   * take part in the match).
   */
  datatype Submatch = Submatch(
    major: string,
    minor: string,
    patch: string,
    prerelease: Option<seq<string>>,
    build: Option<seq<string>>)

  predicate InGrammar(cat: Categories, m: Submatch)
  {
    NumberField(cat, m.major) && NumberField(cat, m.minor) && NumberField(cat, m.patch) &&
    Section(cat, m.prerelease) && Section(cat, m.build)
  }

  /** An optional group: its marker and its dot-joined identifiers, or nothing. */
  function Tag(marker: char, ids: Option<seq<string>>): string
  {
    if ids.None? then [] else [marker] + Join(ids.value, '.')
  }

  /** The text a record of submatches stands for. */
  function Render(m: Submatch): string
  {
    m.major + "." + m.minor + "." + m.patch + Tag('-', m.prerelease) + Tag('+', m.build)
  }

  /** The texts the pattern matches. */
  ghost predicate InLanguage(cat: Categories, s: string)
  {
    exists m :: InGrammar(cat, m) && Render(m) == s
  }

  function SplitGroup(text: Option<string>): Option<seq<string>>
  {
    if text.None? then None else Some(Split(text.value, '.'))
  }

  /**
   * `versionPat.FindStringSubmatch(s)`.  No class of the pattern admits `+`,
   * and the numeric classes do not admit `-` or `.`, so the build group
   * starts at the first `+`, the prerelease group at the first `-` before
   * it, and the numeric groups are what lies between the dots before that.
   */
  function Match(cat: Categories, s: string): (r: Option<Submatch>)
    ensures r.Some? ==> InGrammar(cat, r.value)
    ensures r.Some? ==> (r.value.build.Some? <==> '+' in s)
  {
    var (core, buildText) := Cut(s, '+');
    var (numbers, preText) := Cut(core, '-');
    var fields := Split(numbers, '.');
    var pre, build := SplitGroup(preText), SplitGroup(buildText);
    if |fields| == 3 && NumberField(cat, fields[0]) && NumberField(cat, fields[1]) &&
       NumberField(cat, fields[2]) && Section(cat, pre) && Section(cat, build)
    then Some(Submatch(fields[0], fields[1], fields[2], pre, build))
    else None
  }

  /**
   * `Parse` (s.go:41-57).  A text outside the pattern is an
   * `InvalidVersion`.  A numeric field the pattern admits but `atoi` cannot
   * convert (a non-ASCII number such as U+0663, or the letter `d`) makes the
   * source panic; here that is the outcome `NumberPanic`, for the first such
   * field in the order the source converts them.
   */
  function Parse(cat: Categories, s: string): (r: Result<Version, ParseError>)
    ensures r == Err(InvalidVersion(s)) <==> Match(cat, s).None?
    ensures r.Err? && r.error.NumberPanic? ==> Atoi(r.error.field).None?
    ensures r.Ok? ==> 0 <= r.value.major && 0 <= r.value.minor && 0 <= r.value.patch
    ensures r.Ok? ==> (r.value.build.Some? <==> '+' in s)
  {
    match Match(cat, s)
    case None => Err(InvalidVersion(s))
    case Some(m) =>
      if Atoi(m.major).None? then Err(NumberPanic(m.major))
      else if Atoi(m.minor).None? then Err(NumberPanic(m.minor))
      else if Atoi(m.patch).None? then Err(NumberPanic(m.patch))
      else Ok(Version(Atoi(m.major).value, Atoi(m.minor).value, Atoi(m.patch).value,
                      m.prerelease, m.build))
  }

  /** `Version.String` (s.go:69-78): the numbers as `%d` prints them, then the present tags. */
  function String(v: Version): (s: string)
    ensures |s| >= 5
    ensures v.build.Some? ==> '+' in s
  {
    Render(Submatch(FormatInt(v.major), FormatInt(v.minor), FormatInt(v.patch),
                    v.prerelease, v.build))
  }

  /** The versions `Parse` can return and `String` prints back to parseable text. */
  predicate WellFormed(cat: Categories, v: Version)
  {
    0 <= v.major < Pow10(9) && 0 <= v.minor < Pow10(9) && 0 <= v.patch < Pow10(9) &&
    Section(cat, v.prerelease) && Section(cat, v.build)
  }
}
