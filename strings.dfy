/**
 * The three string operations of Go's standard library that the version
 * package relies on: `strings.Split`, `strings.Join` and the `<` operator on
 * strings.  Strings are sequences of Unicode scalar values; Go compares
 * UTF-8 bytes, which orders valid text exactly as code points do.
 */
module Strings {
  import opened Wrappers

  /** `strings.Split(s, sep)` for a one-character separator: never empty. */
  function Split(s: string, sep: char): (parts: seq<string>)
    ensures |parts| >= 1
    decreases |s|
  {
    if s == [] then [[]]
    else
      var rest := Split(s[1..], sep);
      if s[0] == sep then [[]] + rest
      else [[s[0]] + rest[0]] + rest[1..]
  }

  /** `strings.Join(parts, sep)`. */
  function Join(parts: seq<string>, sep: char): (s: string)
    ensures |parts| >= 1 ==> |s| >= |parts| - 1
    decreases |parts|
  {
    if |parts| == 0 then []
    else if |parts| == 1 then parts[0]
    else parts[0] + [sep] + Join(parts[1..], sep)
  }

  /**
   * The text before the first `c`, and the text after it when `c` occurs.
   * This is how a regular-expression group that starts with a marker
   * character that no earlier group can contain is delimited.
   */
  function Cut(s: string, c: char): (r: (string, Option<string>))
    ensures r.1.Some? <==> c in s
    decreases |s|
  {
    if s == [] then ([], None)
    else if s[0] == c then ([], Some(s[1..]))
    else
      var (head, tail) := Cut(s[1..], c);
      ([s[0]] + head, tail)
  }

  /** Go's `a < b` on strings: lexicographic, a proper prefix is smaller. */
  predicate LexLess(a: string, b: string)
    decreases |a|
  {
    if a == [] then b != []
    else if b == [] then false
    else if a[0] != b[0] then a[0] < b[0]
    else LexLess(a[1..], b[1..])
  }

  /** No part of a split contains the separator, and joining restores the input. */
  lemma {:induction false} SplitJoin(s: string, sep: char)
    ensures Join(Split(s, sep), sep) == s
    ensures forall i :: 0 <= i < |Split(s, sep)| ==> sep !in Split(s, sep)[i]
    decreases |s|
  {
    if s != [] {
      var rest := Split(s[1..], sep);
      SplitJoin(s[1..], sep);
      if s[0] == sep {
        assert Split(s, sep) == [[]] + rest;
        assert Join([[]] + rest, sep) == [] + [sep] + Join(rest, sep);
      } else {
        var parts := Split(s, sep);
        assert parts == [[s[0]] + rest[0]] + rest[1..];
        if |rest| == 1 {
          assert Join(parts, sep) == [s[0]] + rest[0];
          assert Join(rest, sep) == rest[0];
        } else {
          assert parts[1..] == rest[1..];
          assert Join(parts, sep) == [s[0]] + rest[0] + [sep] + Join(rest[1..], sep);
          assert Join(rest, sep) == rest[0] + [sep] + Join(rest[1..], sep);
        }
        forall i | 0 <= i < |parts| ensures sep !in parts[i] {
          if i == 0 {
            assert sep !in rest[0];
          } else {
            assert parts[i] == rest[i];
          }
        }
      }
    }
  }

  /** Splitting a join of separator-free parts gives the parts back. */
  lemma {:induction false} JoinSplit(parts: seq<string>, sep: char)
    requires |parts| >= 1
    requires forall i :: 0 <= i < |parts| ==> sep !in parts[i]
    ensures Split(Join(parts, sep), sep) == parts
    decreases |parts|
  {
    if |parts| == 1 {
      SplitWhole(parts[0], sep);
    } else {
      JoinSplit(parts[1..], sep);
      SplitFirst(parts[0], sep, Join(parts[1..], sep));
      assert parts == [parts[0]] + parts[1..];
    }
  }

  /** Text without the separator splits into itself alone. */
  lemma {:induction false} SplitWhole(p: string, sep: char)
    requires sep !in p
    ensures Split(p, sep) == [p]
    decreases |p|
  {
    if p != [] {
      SplitWhole(p[1..], sep);
      assert [p[0]] + p[1..] == p;
    }
  }

  /** The first part of a split runs up to the first separator. */
  lemma {:induction false} SplitFirst(p: string, sep: char, rest: string)
    requires sep !in p
    ensures Split(p + [sep] + rest, sep) == [p] + Split(rest, sep)
    decreases |p|
  {
    var s := p + [sep] + rest;
    if p == [] {
      assert s[0] == sep && s[1..] == rest;
    } else {
      SplitFirst(p[1..], sep, rest);
      assert s[0] == p[0] && s[1..] == p[1..] + [sep] + rest;
      assert [p[0]] + p[1..] == p;
    }
  }

  /** Cutting at the first `c` of `x + [c] + y`, where `x` has no `c`. */
  lemma {:induction false} CutFound(x: string, c: char, y: string)
    requires c !in x
    ensures Cut(x + [c] + y, c) == (x, Some(y))
    decreases |x|
  {
    if x != [] {
      CutFound(x[1..], c, y);
      var s := x + [c] + y;
      assert s[0] == x[0] && s[0] != c;
      assert s[1..] == x[1..] + [c] + y;
      assert [x[0]] + x[1..] == x;
    } else {
      assert (x + [c] + y)[1..] == y;
    }
  }

  /** Cutting a text with no `c` leaves it whole. */
  lemma {:induction false} CutAbsent(x: string, c: char)
    requires c !in x
    ensures Cut(x, c) == (x, None)
    decreases |x|
  {
    if x != [] {
      CutAbsent(x[1..], c);
      assert [x[0]] + x[1..] == x;
    }
  }

  /** A cut splits its input at the first `c`, or leaves it whole when there is none. */
  lemma {:induction false} CutSpec(s: string, c: char)
    ensures c !in Cut(s, c).0
    ensures Cut(s, c).1.None? ==> Cut(s, c).0 == s
    ensures Cut(s, c).1.Some? ==> Cut(s, c).0 + [c] + Cut(s, c).1.value == s
    decreases |s|
  {
    if s != [] && s[0] != c {
      CutSpec(s[1..], c);
      assert [s[0]] + s[1..] == s;
    }
  }

  /** No string is below itself under Go's `<`. */
  lemma {:induction false} LexLessIrreflexive(a: string)
    ensures !LexLess(a, a)
    decreases |a|
  {
    if a != [] {
      LexLessIrreflexive(a[1..]);
    }
  }

  /** Go's string `<` is a strict total order. */
  lemma {:induction false} LexLessTrichotomy(a: string, b: string)
    ensures !(LexLess(a, b) && LexLess(b, a))
    ensures a != b ==> LexLess(a, b) || LexLess(b, a)
    decreases |a|
  {
    if a != [] && b != [] && a[0] == b[0] {
      LexLessTrichotomy(a[1..], b[1..]);
      if a != b {
        assert a == [a[0]] + a[1..] && b == [b[0]] + b[1..];
      }
    }
  }

  lemma {:induction false} LexLessTransitive(a: string, b: string, c: string)
    requires LexLess(a, b) && LexLess(b, c)
    ensures LexLess(a, c)
    decreases |a|
  {
    if a != [] && a[0] == b[0] && b[0] == c[0] {
      LexLessTransitive(a[1..], b[1..], c[1..]);
    }
  }
}
