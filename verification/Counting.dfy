/** Counting the elements of a sequence that satisfy a predicate. */
module Counting {

  ghost function Count<T>(p: T -> bool, s: seq<T>): (n: nat)
    ensures n <= |s|
  {
    if s == [] then 0 else (if p(s[0]) then 1 else 0) + Count(p, s[1..])
  }

  ghost function One(b: bool): nat { if b then 1 else 0 }

  lemma {:induction false} CountConcat<T>(p: T -> bool, a: seq<T>, b: seq<T>)
    ensures Count(p, a + b) == Count(p, a) + Count(p, b)
  {
    if a == [] {
      assert a + b == b;
    } else {
      assert (a + b)[1..] == a[1..] + b;
      CountConcat(p, a[1..], b);
    }
  }

  lemma CountAppend<T>(p: T -> bool, s: seq<T>, x: T)
    ensures Count(p, s + [x]) == Count(p, s) + One(p(x))
  {
    CountConcat(p, s, [x]);
  }

  lemma CountUpdate<T>(p: T -> bool, s: seq<T>, i: nat, x: T)
    requires i < |s|
    ensures Count(p, s[i := x]) == Count(p, s) - One(p(s[i])) + One(p(x))
  {
    var a, b := s[..i], s[i + 1..];
    assert s == a + ([s[i]] + b) && s[i := x] == a + ([x] + b);
    CountConcat(p, a, [s[i]] + b);
    CountConcat(p, a, [x] + b);
    CountConcat(p, [s[i]], b);
    CountConcat(p, [x], b);
  }

  lemma {:induction false} CountRemove<T>(p: T -> bool, s: seq<T>, i: nat)
    requires i < |s|
    ensures Count(p, s[..i] + s[i + 1..]) == Count(p, s) - One(p(s[i]))
  {
    if i == 0 {
      assert s[..0] + s[1..] == s[1..];
    } else {
      assert s[..i] + s[i + 1..] == [s[0]] + (s[1..][..i - 1] + s[1..][i..]);
      CountRemove(p, s[1..], i - 1);
    }
  }

  /** Two matches at different places count twice. */
  lemma {:induction false} CountTwo<T>(p: T -> bool, s: seq<T>, i: nat, j: nat)
    requires i < j < |s| && p(s[i]) && p(s[j])
    ensures Count(p, s) >= 2
  {
    assert s == s[..j] + ([s[j]] + s[j + 1..]);
    CountConcat(p, s[..j], [s[j]] + s[j + 1..]);
    CountAt(p, s[..j], i);
  }

  lemma {:induction false} CountAt<T>(p: T -> bool, s: seq<T>, i: nat)
    requires i < |s| && p(s[i])
    ensures Count(p, s) >= 1
  {
    if i > 0 { CountAt(p, s[1..], i - 1); }
  }
}
