/**
 * The two string operations the query endpoint relies on: Python's `str.split`
 * on a one-character separator and Python's ordering of `str` values.
 */
module Strings {

  /** `sep.join(parts)` for a one-character separator. */
  function Join(parts: seq<string>, sep: char): string
  {
    if |parts| == 0 then ""
    else if |parts| == 1 then parts[0]
    else parts[0] + [sep] + Join(parts[1..], sep)
  }

  /**
   * `s.split(sep)`: the pieces between occurrences of `sep`, untrimmed, so that
   * there is always at least one piece and joining them back gives `s`.
   */
  function Split(s: string, sep: char): (parts: seq<string>)
    ensures |parts| >= 1
    ensures forall i :: 0 <= i < |parts| ==> sep !in parts[i]
    ensures Join(parts, sep) == s
    decreases |s|
  {
    if s == [] then [""]
    else
      var rest := Split(s[1..], sep);
      assert s == [s[0]] + s[1..];
      if s[0] == sep then [""] + rest
      else
        var parts := [[s[0]] + rest[0]] + rest[1..];
        assert parts[1..] == rest[1..];
        parts
  }

  /** Splitting a piece-free word followed by more text extends the first piece. */
  lemma {:induction false} SplitPrefix(w: string, t: string, sep: char)
    requires sep !in w
    ensures Split(w + t, sep) == [w + Split(t, sep)[0]] + Split(t, sep)[1..]
    decreases |w|
  {
    if w == [] {
      var u := Split(t, sep);
      assert w + t == t && w + u[0] == u[0];
      assert u == [u[0]] + u[1..];
    } else {
      var u := Split(t, sep);
      SplitPrefix(w[1..], t, sep);
      assert (w + t)[1..] == w[1..] + t;
      var rest := Split(w[1..] + t, sep);
      assert rest[0] == w[1..] + u[0] && rest[1..] == u[1..];
      assert (w + t)[0] == w[0] != sep;
      assert Split(w + t, sep) == [[w[0]] + rest[0]] + rest[1..];
      assert [w[0]] + (w[1..] + u[0]) == w + u[0];
    }
  }

  /** A separator in front starts with an empty piece. */
  lemma SplitSeparator(t: string, sep: char)
    ensures Split([sep] + t, sep) == [""] + Split(t, sep)
  {
    assert ([sep] + t)[1..] == t;
  }

  /** Splitting undoes joining, as long as no piece holds the separator. */
  lemma {:induction false} SplitJoin(parts: seq<string>, sep: char)
    requires |parts| >= 1
    requires forall i :: 0 <= i < |parts| ==> sep !in parts[i]
    ensures Split(Join(parts, sep), sep) == parts
    decreases |parts|
  {
    if |parts| == 1 {
      SplitPrefix(parts[0], "", sep);
      assert parts[0] + "" == parts[0];
    } else {
      var tail := Join(parts[1..], sep);
      assert Join(parts, sep) == parts[0] + ([sep] + tail);
      SplitJoin(parts[1..], sep);
      SplitSeparator(tail, sep);
      var u := Split([sep] + tail, sep);
      assert u == [""] + parts[1..];
      SplitPrefix(parts[0], [sep] + tail, sep);
      assert Split(Join(parts, sep), sep) == [parts[0] + u[0]] + u[1..];
      assert u[0] == "" && u[1..] == parts[1..];
      assert parts[0] + "" == parts[0];
      assert parts == [parts[0]] + parts[1..];
    }
  }

  /** A string without the separator splits into itself alone. */
  lemma SplitSingle(s: string, sep: char)
    requires sep !in s
    ensures Split(s, sep) == [s]
  {
    SplitJoin([s], sep);
  }

  /**
   * Python's `a < b` on `str`: code-point-wise lexicographic order, where a
   * proper prefix sorts first.
   */
  predicate Less(a: string, b: string)
    ensures |a| < |b| && a == b[..|a|] ==> Less(a, b)
    ensures Less(a, b) ==> !(|b| <= |a| && b == a[..|b|])
    decreases |a|
  {
    if b == [] then false
    else if a == [] then true
    else if a[0] != b[0] then a[0] as int < b[0] as int
    else Less(a[1..], b[1..])
  }

  /** Python's `a > b` on `str`. */
  predicate Greater(a: string, b: string)
    ensures Greater(a, b) ==> a != "" && !Less(a, b)
    ensures !Greater(a, b) ==> a == b || Less(a, b)
  {
    LessAsymmetric(a, b);
    LessTotal(a, b);
    Less(b, a)
  }

  lemma LessAsymmetric(a: string, b: string)
    ensures Less(a, b) ==> !Less(b, a)
  {
    if Less(a, b) && Less(b, a) {
      LessTransitive(a, b, a);
      LessIrreflexive(a);
    }
  }

  /** Nothing sorts before the empty string. */
  lemma NothingBelowEmpty(a: string)
    ensures !Less(a, "")
  {
  }

  lemma {:induction false} LessIrreflexive(a: string)
    ensures !Less(a, a)
    decreases |a|
  {
    if a != [] {
      LessIrreflexive(a[1..]);
    }
  }

  lemma {:induction false} LessTransitive(a: string, b: string, c: string)
    requires Less(a, b) && Less(b, c)
    ensures Less(a, c)
    decreases |a|
  {
    if a != [] && a[0] == b[0] && b[0] == c[0] {
      LessTransitive(a[1..], b[1..], c[1..]);
    }
  }

  lemma {:induction false} LessTotal(a: string, b: string)
    ensures a == b || Less(a, b) || Less(b, a)
    decreases |a|
  {
    if a != [] && b != [] && a[0] == b[0] {
      LessTotal(a[1..], b[1..]);
      if a[1..] == b[1..] {
        assert a == [a[0]] + a[1..] && b == [b[0]] + b[1..];
      }
    }
  }

  /**
   * The order agrees with its textbook definition: `a` is a proper prefix of
   * `b`, or at the first position where they differ `a` has the smaller code point.
   */
  lemma {:induction false} LessIsLexicographic(a: string, b: string)
    ensures Less(a, b) <==>
      (|a| < |b| && a == b[..|a|]) ||
      (exists k :: 0 <= k < |a| && k < |b| && a[..k] == b[..k] && a[k] as int < b[k] as int)
    decreases |a|
  {
    if a == [] || b == [] {
    } else if a[0] != b[0] {
      if Less(a, b) {
        assert a[..0] == b[..0];
      }
      assert |a| < |b| ==> b[..|a|][0] == b[0];
    } else {
      LessIsLexicographic(a[1..], b[1..]);
      var a', b' := a[1..], b[1..];
      if (|a'| < |b'| && a' == b'[..|a'|]) {
        assert a == [a[0]] + a' && b[..|a|] == [b[0]] + b'[..|a'|];
      }
      if |a| < |b| && a == b[..|a|] {
        assert a' == b'[..|a'|];
      }
      if k :| 0 <= k < |a'| && k < |b'| && a'[..k] == b'[..k] && a'[k] as int < b'[k] as int {
        assert a[..k + 1] == [a[0]] + a'[..k] && b[..k + 1] == [b[0]] + b'[..k];
        assert a[k + 1] == a'[k] && b[k + 1] == b'[k];
      }
      if k :| 0 <= k < |a| && k < |b| && a[..k] == b[..k] && a[k] as int < b[k] as int {
        assert k != 0;
        assert a'[..k - 1] == a[..k][1..] && b'[..k - 1] == b[..k][1..];
        assert a'[k - 1] == a[k] && b'[k - 1] == b[k];
      }
    }
  }
}
