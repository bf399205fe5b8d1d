/** Byte strings in the order std::string compares them, one character per byte. */
module Strings {

  function Less(a: string, b: string): bool {
    if b == [] then false
    else if a == [] then true
    else a[0] < b[0] || (a[0] == b[0] && Less(a[1..], b[1..]))
  }

  predicate StartsWith(s: string, prefix: string) {
    |s| >= |prefix| && s[..|prefix|] == prefix
  }

  lemma {:induction false} LessIrreflexive(a: string)
    ensures !Less(a, a)
    decreases |a|
  {
    if a != [] { LessIrreflexive(a[1..]); }
  }

  lemma {:induction false} LessTransitive(a: string, b: string, c: string)
    requires Less(a, b) && Less(b, c)
    ensures Less(a, c)
    decreases |a|
  {
    if a != [] && a[0] == b[0] == c[0] { LessTransitive(a[1..], b[1..], c[1..]); }
  }

  lemma {:induction false} LessTotal(a: string, b: string)
    ensures Less(a, b) || a == b || Less(b, a)
    decreases |a|
  {
    if a != [] && b != [] && a[0] == b[0] {
      LessTotal(a[1..], b[1..]);
      assert a == [a[0]] + a[1..] && b == [b[0]] + b[1..];
    }
  }

  /** If a is not below b and b is not below c, then a is not below c. */
  lemma NotLessTransitive(a: string, b: string, c: string)
    requires !Less(a, b) && !Less(b, c)
    ensures !Less(a, c)
  {
    LessTotal(a, b);
    LessTotal(b, c);
    if a != b && b != c {
      LessTransitive(c, b, a);
      LessAsymmetric(c, a);
    }
  }

  lemma {:induction false} LessAsymmetric(a: string, b: string)
    requires Less(a, b)
    ensures !Less(b, a)
    decreases |a|
  {
    if a != [] && a[0] == b[0] { LessAsymmetric(a[1..], b[1..]); }
  }

  /** A string is never below its own prefix. */
  lemma {:induction false} PrefixNotLess(s: string, prefix: string)
    requires StartsWith(s, prefix)
    ensures !Less(s, prefix)
    decreases |prefix|
  {
    if prefix != [] {
      assert s[0] == s[..|prefix|][0];
      assert s[1..][..|prefix| - 1] == s[..|prefix|][1..];
      PrefixNotLess(s[1..], prefix[1..]);
    }
  }

  /** Strings sharing a prefix are neighbours: nothing without the prefix lies between two of them,
      nor between the prefix itself and one of them. */
  lemma {:induction false} PrefixContiguous(prefix: string, low: string, high: string)
    requires !Less(low, prefix) && Less(low, high) && StartsWith(high, prefix)
    ensures StartsWith(low, prefix)
    decreases |prefix|
  {
    if prefix != [] {
      assert high[0] == high[..|prefix|][0];
      assert high[1..][..|prefix| - 1] == high[..|prefix|][1..];
      PrefixContiguous(prefix[1..], low[1..], high[1..]);
      assert low[..|prefix|] == [low[0]] + low[1..][..|prefix| - 1];
    }
  }
}
