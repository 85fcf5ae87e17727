/** Vocabulary shared by every module: optional values and the two orders the program relies on. */
module Base {

  datatype Option<+T> = None | Some(value: T)

  /** The strict order of JavaScript's `<` on strings: code unit by code unit, a proper prefix first. */
  predicate StringLess(a: string, b: string)
  {
    if a == [] then b != []
    else b != [] && (a[0] < b[0] || (a[0] == b[0] && StringLess(a[1..], b[1..])))
  }

  lemma {:induction false} StringLessTrichotomy(a: string, b: string)
    ensures a == b || StringLess(a, b) || StringLess(b, a)
    ensures !(StringLess(a, b) && StringLess(b, a))
    ensures a == b ==> !StringLess(a, b)
  {
    if a != [] && b != [] {
      StringLessTrichotomy(a[1..], b[1..]);
      assert a == [a[0]] + a[1..] && b == [b[0]] + b[1..];
    }
  }

  lemma {:induction false} StringLessTransitive(a: string, b: string, c: string)
    requires StringLess(a, b) && StringLess(b, c)
    ensures StringLess(a, c)
  {
    if a != [] && a[0] == b[0] && b[0] == c[0] {
      StringLessTransitive(a[1..], b[1..], c[1..]);
    }
  }

  /** Equal-length heads decide the comparison unless they are equal, and then the tails do. */
  lemma {:induction false} StringLessConcat(a: string, a': string, b: string, b': string)
    requires |a| == |b|
    ensures StringLess(a + a', b + b') <==> (StringLess(a, b) || (a == b && StringLess(a', b')))
  {
    if a == [] {
      assert a + a' == a' && b + b' == b';
    } else {
      assert (a + a')[1..] == a[1..] + a' && (b + b')[1..] == b[1..] + b';
      assert a == [a[0]] + a[1..] && b == [b[0]] + b[1..];
      StringLessConcat(a[1..], a', b[1..], b');
    }
  }

  lemma SameEmptiness<T(!new)>(a: seq<T>, b: seq<T>)
    requires forall x :: x in a <==> x in b
    ensures a == [] <==> b == []
  {
    if a != [] { assert a[0] in a; }
    if b != [] { assert b[0] in b; }
  }

  /** `t` occurs in `s` at position `k`. */
  predicate OccursAt(s: string, t: string, k: nat)
  {
    k + |t| <= |s| && s[k..k + |t|] == t
  }

  /** `t` is a substring of `s`. */
  predicate Contains(s: string, t: string)
  {
    exists k | 0 <= k <= |s| :: OccursAt(s, t, k)
  }

  function FirstIndex(s: string, c: char): nat
  {
    if s == [] || s[0] == c then 0 else 1 + FirstIndex(s[1..], c)
  }

  lemma {:induction false} FirstIndexAfter(x: string, t: string, c: char)
    requires c !in x
    ensures FirstIndex(x + [c] + t, c) == |x|
  {
    if x == [] {
      assert x + [c] + t == [c] + t;
    } else {
      assert (x + [c] + t)[1..] == x[1..] + [c] + t;
      FirstIndexAfter(x[1..], t, c);
    }
  }

  /** A string splits in only one way at a character its head does not contain. */
  lemma UniqueSplit(x: string, t: string, y: string, u: string, c: char)
    requires c !in x && c !in y
    requires x + [c] + t == y + [c] + u
    ensures x == y && t == u
  {
    FirstIndexAfter(x, t, c);
    FirstIndexAfter(y, u, c);
    var w := x + [c] + t;
    assert x == w[..|x|] && y == w[..|y|];
    assert t == w[|x| + 1..] && u == w[|y| + 1..];
  }
}
