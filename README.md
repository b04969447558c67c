# semver: parsing and precedence of version strings, in Dafny

This project models the Go package `semver` (one file, `s.go`), which parses
version strings of the form `major.minor.patch[-prerelease][+build]`, prints
them back, and orders them by semver.org precedence. Unlike semver.org, the
package admits any Unicode letter or number in prerelease and build
identifiers (so `3.24.3-β+20150115102400` is a version).

Modules, one per part of the package:

- `Strings` (`strings.dfy`): `strings.Split`, `strings.Join`, Go's string `<`
  (`LexLess`; Dafny's own `<` on sequences means "proper prefix"), and `Cut`,
  which delimits an optional group of the pattern at its marker character.
- `Decimal` (`decimal.dfy`): ASCII digit strings, their value, `atoi`, `%d`
  and `strings.TrimLeft(s, "0")`.
- `Semver` (`semver.dfy`): the `Version` record, the pattern of the source as
  a hand-written recogniser `Match` with its partner `Render`, `Parse` and
  `String`. `SemverProofs` (`semver_proofs.dfy`) holds their lemmas.
- `Precedence` (`precedence.dfy`): `allDigits`, `numCmp`, `cmp`, `lessIds`,
  `eqIds`, `Less` and `Equal`. `PrecedenceProofs` (`precedence_proofs.dfy`)
  holds their lemmas.

Design decisions:

- Unicode categories. The pattern uses `\pL` (letters) and `\pN` (numbers).
  The tables are not modelled. `Parse` takes a `Categories` value holding both
  membership tests. The lemmas assume `Sound(cat)`: ASCII letters are letters,
  ASCII digits are numbers, no character is both, and `-`, `.`, `+` are
  neither, as in Unicode.
- The numeric class. The source's replacer turns `d` into `[\pNd]`. That
  class admits every Unicode number and the letter `d`, not only ASCII
  digits (`NumberChar`).
- The `atoi` panic. `atoi` accepts only ASCII digits and panics otherwise
  (s.go:61-66). So `d.1.2`, or a version written in Arabic-Indic digits,
  matches the pattern and then panics. The model keeps this boundary as a
  failure outcome of its own, `NumberPanic(field)`. It names the first field
  in the order the source converts them, and is separate from
  `InvalidVersion(input)`.
- Nil slices. `Version.prerelease` and `Version.build` are `Option`s. `None`
  is Go's nil, which `Parse` returns when a group is missing. `Ids` reads nil
  as the empty list, as `len` and `range` do.
- Loops. `allDigits`, `lessIds`, `eqIds` and `Equal` are methods with loops.
  Each is proved equal to a predicate (`IsAsciiDigits`, `IdsLess`, `IdsEqual`,
  `SameRelease`), and the lemmas are stated over those predicates. `cmp`,
  `numCmp` and `Less` are switch code in the source, so they are functions.

Two consequences of the pattern and of `atoi`:

- The numeric class `[\pNd]` is wider than ASCII decimal digits: it admits
  every `\pN` character and the letter `d`.
- A number field that `atoi` rejects makes the source panic. The model
  reports this as `NumberPanic`, not as `InvalidVersion`. Nine digits never
  overflow a Go `int`, so no overflow case arises.

Two facts the proofs brought out:

- `Less` is transitive on every version without a prerelease that is present
  but empty (`LessTransitive`). Every version `Parse` returns qualifies.
- With a present-but-empty prerelease, `Less` is not transitive
  (`LessNotTransitiveOnEmptyPrerelease`). Such a value can only be built by
  hand.

## Model

| member | source | states |
|---|---|---|
| `Semver.Match` | s.go:30-42 | the recogniser returns only grammatical submatches, with a build group exactly when the text holds a `+`; `MatchSound`, `MatchComplete` and `MatchExactlyGrammar` relate it to the pattern's language |
| `Semver.Parse` | s.go:41-57 | `InvalidVersion` of the input exactly when the recogniser fails; a panic only on a field `atoi` rejects; non-negative numbers and a build exactly when the text holds a `+`; `ParseOnGrammar`, `ParseRejectsExactlyOutsideGrammar` and `ParseSections` give the full result |
| `Semver.String` | s.go:69-78 | at least the three numbers and two dots, and a `+` whenever a build is present; `RoundTrip` proves `Parse` inverts it |
| `SemverProofs.MatchSound` | s.go:30-42 | whatever the recogniser returns is a grammatical set of submatches (three 1-9 character number fields, optional non-empty lists of non-empty identifiers) that lays out exactly as the input text |
| `SemverProofs.MatchComplete` | s.go:30-42 | every grammatical set of submatches is found, unchanged, in the text it lays out as |
| `SemverProofs.MatchExactlyGrammar` | s.go:30-42 | the recogniser succeeds exactly on the texts of the pattern's language |
| `SemverProofs.RenderInjective` | s.go:30-34 | a text of the pattern has only one decomposition into submatches |
| `SemverProofs.ParseRejectsExactlyOutsideGrammar` | s.go:41-45 | `Parse` fails with `InvalidVersion` carrying the input exactly when the input is outside the pattern |
| `SemverProofs.ParseOnGrammar` | s.go:41-66 | on a text of the pattern, `Parse` returns the numbers' values and the split groups when the three number fields are ASCII digits, and otherwise the panic on the first field `atoi` rejects |
| `SemverProofs.ParseSections` | s.go:46-56 | a parsed version has numbers below 10^9 and non-empty identifiers from the identifier class; build is nil exactly when there is no `+`, prerelease exactly when no `-` comes before the first `+` |
| `SemverProofs.RoundTrip` | s.go:41-78 | for numbers in [0, 10^9) and present groups that are non-empty lists of identifiers, `Parse(String(v))` gives back `v` field for field, nil groups included |
| `SemverProofs.ParseStringParse` | s.go:41-78 | printing a parsed version and parsing again gives the same version |
| `SemverProofs.MatchPlain` | s.go:30-45 | a text without `+` or `-` matches exactly when its dot-separated fields are three number fields |
| `SemverProofs.EmptyGroupRejected` | s.go:32-43 | a prerelease group that is only `-` makes the text fail to match |
| `SemverProofs.RejectsTwoNumbers` | s.go:41-45 | `1.2` is an `InvalidVersion` |
| `SemverProofs.RejectsEmptyPrerelease` | s.go:41-45 | `1.2.3-` is an `InvalidVersion` |
| `SemverProofs.RejectsFourNumbers` | s.go:41-45 | `1.2.3.4` is an `InvalidVersion` |
| `SemverProofs.RejectsPrefix` | s.go:41-45 | `v1.2.3` is an `InvalidVersion` |
| `SemverProofs.PanicExample` | s.go:59-66 | `d.1.2` matches the pattern and `atoi("d")` panics |
| `SemverProofs.UnicodeExample` | s.go:4-7 | `3.24.3-β+20150115102400` parses to 3, 24, 3, `["β"]`, `["20150115102400"]` when `β` is a letter |
| `Decimal.FormatInt` | s.go:77 | `%d` prints a non-empty text starting with `-` exactly for negative numbers, which `atoi` reads back for non-negative ones |
| `Decimal.TrimZeros` | s.go:145-146 | `TrimLeft(s, "0")` never lengthens the text and leaves no leading zero; `TrimZerosValue` proves it keeps the value |
| `Decimal.Atoi` | s.go:61-66 | conversion succeeds exactly on non-empty ASCII digit strings; otherwise the source panics |
| `Decimal.ValueOfDigits` | s.go:61-77 | `atoi` of what `%d` prints is the number printed |
| `Decimal.DigitsLength` | s.go:77 | a number below 10^k prints in at most k digits |
| `Decimal.DigitsNoLeadingZero` | s.go:77 | `%d` prints a leading zero only for zero |
| `Decimal.TrimZerosValue` | s.go:145-146 | trimming leading zeros keeps a digit string's value |
| `Decimal.SameLengthOrder` | s.go:152-155 | for digit strings of equal length, string order is numeric order and equal values mean equal strings |
| `Strings.Split` | s.go:50-55 | `strings.Split` always yields at least one part; `SplitJoin` and `JoinSplit` pair it with `Join` |
| `Strings.Join` | s.go:70-76 | joining n >= 1 parts yields at least the n - 1 separators; `JoinSplit` proves `Split` inverts it |
| `Strings.Cut` | s.go:32-34 | a cut finds a marker exactly when the text holds one; `CutSpec` states where it divides the text |
| `Strings.SplitJoin` | s.go:50-55 | the parts of a split hold no separator, and joining them restores the text |
| `Strings.JoinSplit` | s.go:69-78 | splitting a join of separator-free parts gives the parts back |
| `Strings.CutSpec` | s.go:32-34 | a cut divides a text at the first marker, or leaves it whole when there is none |
| `Strings.LexLessIrreflexive` | s.go:132-135 | no string is below itself under Go's `<` |
| `Strings.LexLessTrichotomy` | s.go:132-135 | Go's string `<` is asymmetric and total on distinct strings |
| `Strings.LexLessTransitive` | s.go:132-135 | Go's string `<` is transitive |
| `Precedence.AllDigits` | s.go:80-87 | returns true exactly when every character is an ASCII digit, so true for the empty string |
| `Precedence.NumCmp` | s.go:144-158 | the answer is -1, 0 or 1, and 0 exactly when the two texts agree once leading zeros are trimmed; `NumCmpIsNumeric` proves it compares values |
| `PrecedenceProofs.NumCmpIsNumeric` | s.go:140-158 | on ASCII digit strings of any length, `numCmp` is the sign of the difference of their values |
| `PrecedenceProofs.NumCmpAntisymmetric` | s.go:144-158 | `numCmp(a, a)` is 0 and swapping the arguments negates the answer |
| `PrecedenceProofs.NumCmpExamples` | s.go:144-158 | `007` and `7` compare equal; `2` is below `11` |
| `Precedence.Cmp` | s.go:123-138 | the answer is -1, 0 or 1; a tie needs both or neither identifier numeric, and non-numeric identifiers tie only when identical; `CmpThreeWay`, `CmpAntisymmetric` and `CmpTransitive` give its order properties |
| `PrecedenceProofs.CmpThreeWay` | s.go:115-138 | `cmp` answers -1, 0 or 1, and 0 exactly for identical strings or digit strings of equal value |
| `PrecedenceProofs.CmpAntisymmetric` | s.go:123-138 | `cmp(a, a) == 0` and `cmp(a, b) == -cmp(b, a)` |
| `PrecedenceProofs.CmpNumericFirst` | s.go:119-137 | an all-ASCII-digit identifier is below any other; two non-numeric identifiers compare in string order and tie only when identical |
| `PrecedenceProofs.CmpTransitive` | s.go:123-158 | `cmp` is transitive, its ties included |
| `PrecedenceProofs.CmpExamples` | s.go:123-138 | `10` is below `a`, `alpha` below `beta`, `007` ties with `7` |
| `Precedence.LessIds` | s.go:91-99 | the loop returns the list order that `IdsLess` specifies |
| `Precedence.EqIds` | s.go:103-113 | the loop returns true exactly when the lengths agree and `cmp` is 0 at every position |
| `PrecedenceProofs.IdsLessFirstDifference` | s.go:89-99 | `lessIds` is decided by `cmp` at the first position where it is not 0, and otherwise by whether `a` is the shorter list |
| `PrecedenceProofs.IdsPrefixExample` | s.go:91-99 | `["1","0"]` is below `["1","0","0"]` and not the reverse |
| `PrecedenceProofs.IdsLessIrreflexive` | s.go:91-99 | no list is below itself |
| `PrecedenceProofs.IdsTrichotomy` | s.go:89-113 | for two lists exactly one holds: the first is below, the second is below, or `eqIds` relates them |
| `PrecedenceProofs.IdsEqualEquivalence` | s.go:103-113 | `eqIds` is reflexive, symmetric and transitive |
| `PrecedenceProofs.IdsLessTransitive` | s.go:91-113 | `lessIds` is transitive, also through lists that `eqIds` relates |
| `Precedence.Less` | s.go:162-179 | the three numbers are compared first, in order, so a smaller version never has a larger major, or a larger minor under an equal major, or a larger patch under equal major and minor; `LessTrichotomy` and `LessTransitive` give its order properties |
| `PrecedenceProofs.LessIrreflexive` | s.go:162-179 | no version is less than itself |
| `PrecedenceProofs.LessAsymmetric` | s.go:162-179 | `v.Less(w)` and `w.Less(v)` never both hold |
| `PrecedenceProofs.LessTrichotomy` | s.go:162-179 | neither version is less exactly when the numbers agree and `eqIds` relates both the prereleases and the builds |
| `PrecedenceProofs.LessTransitive` | s.go:162-179 | `Less` is transitive on versions without a present-but-empty prerelease |
| `PrecedenceProofs.LessNotTransitiveOnEmptyPrerelease` | s.go:170-174 | with a present-but-empty prerelease, `Less` is not transitive |
| `PrecedenceProofs.ReleaseOutranksPrerelease` | s.go:170-173 | a release is greater than every non-empty prerelease with the same three numbers |
| `PrecedenceProofs.SemverOrgExample` | s.go:162-179 | 1.0.0-alpha < alpha.1 < alpha.beta < beta < beta.2 < beta.11 < rc.1 < 1.0.0 |
| `Precedence.Equal` | s.go:182-197 | returns true exactly when the three numbers agree and the prereleases are equal as text, element for element with equal lengths, nil reading as empty |
| `PrecedenceProofs.EqualIsStricterThanTied` | s.go:162-197 | `Equal` versions whose builds are `eqIds`-equal are not ordered either way by `Less` |
| `PrecedenceProofs.EqualIgnoresBuild` | s.go:175-197 | 1.0.0+001 and 1.0.0+002 are `Equal`, yet `Less` puts the first below the second |
| `PrecedenceProofs.EqualComparesPrereleaseText` | s.go:186-191 | prereleases `007` and `7` are not `Equal`, although `Less` orders them neither way |

## Left out

- The Unicode tables for `\pL` and `\pN`. They are a parameter of `Parse`, and
  the lemmas assume only what `Sound` states.
- The `regexp` engine and the `strings.NewReplacer` construction of the
  pattern. The recogniser `Match` stands for the compiled pattern, and
  `MatchExactlyGrammar` relates it to the pattern's language.
- The text of the `fmt.Errorf` message. The error is `InvalidVersion(input)`.
- The panic itself. It is the outcome `NumberPanic(field)`, not a crash.
- `strconv.Atoi`'s handling of signs and of overflow. The numeric class
  admits no sign, and nine digits fit any Go `int`, so these paths are never
  reached from `Parse`.
- Go's fixed-width `int` in `Version`. The model uses unbounded integers,
  which differ only for values `Parse` cannot produce.
- Pointers and nil receivers (`*Version`, `new(Version)`). Versions are
  values.
- Strings that are not valid UTF-8. Dafny strings hold Unicode scalar
  values, on which Go's byte-wise `<` is code-point order.
