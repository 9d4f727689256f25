/** Move-to-front lists of keys, and what a position in one means. */
module Recency {

  function Elems<K(==)>(s: seq<K>): set<K> { set x | x in s }

  predicate NoDup<K(==)>(s: seq<K>) { forall i, j :: 0 <= i < j < |s| ==> s[i] != s[j] }

  function Without<K(==)>(s: seq<K>, x: K): (r: seq<K>)
    ensures |r| <= |s| && x !in r
  {
    if s == [] then []
    else if s[0] == x then Without(s[1..], x)
    else [s[0]] + Without(s[1..], x)
  }

  function Take<K>(s: seq<K>, m: nat): seq<K> { if |s| <= m then s else s[..m] }

  function Touch<K(==)>(s: seq<K>, x: K, m: nat): seq<K> { Take([x] + Without(s, x), m) }

  /** The distinct keys, most recently used first. */
  function Recent<K(==)>(keys: seq<K>): seq<K> {
    if keys == [] then [] else [keys[|keys| - 1]] + Without(Recent(keys[..|keys| - 1]), keys[|keys| - 1])
  }

  lemma Joined<K>(a: seq<K>, b: seq<K>)
    ensures Elems(a + b) == Elems(a) + Elems(b)
    ensures NoDup(a + b) <==> NoDup(a) && NoDup(b) && Elems(a) !! Elems(b)
  {
    var c := a + b;
    if NoDup(c) {
      assert forall i :: 0 <= i < |a| ==> c[i] == a[i];
      assert forall i :: 0 <= i < |b| ==> c[|a| + i] == b[i];
    }
    if NoDup(a) && NoDup(b) && Elems(a) !! Elems(b) {
      forall i, j | 0 <= i < j < |c| ensures c[i] != c[j] {
        if i < |a| && j >= |a| { assert c[i] in Elems(a) && c[j] in Elems(b); }
      }
    }
  }

  lemma Split<K>(s: seq<K>)
    requires s != []
    ensures s == [s[0]] + s[1..] && Elems(s) == {s[0]} + Elems(s[1..])
    ensures NoDup(s) <==> NoDup(s[1..]) && s[0] !in s[1..]
  {
    assert s == [s[0]] + s[1..] && Elems([s[0]]) == {s[0]};
    Joined([s[0]], s[1..]);
    assert s[0] in s[1..] <==> s[0] in Elems(s[1..]);
  }

  lemma {:induction false} WithoutElems<K>(s: seq<K>, x: K)
    requires NoDup(s)
    ensures NoDup(Without(s, x)) && Elems(Without(s, x)) == Elems(s) - {x}
    ensures |Without(s, x)| == if x in s then |s| - 1 else |s|
    ensures x !in s ==> Without(s, x) == s
  {
    if s != [] {
      Split(s);
      WithoutElems(s[1..], x);
      var w := Without(s[1..], x);
      Joined([s[0]], w);
      assert s[0] in w <==> s[0] in Elems(w);
    }
  }

  lemma {:induction false} WithoutConcat<K>(a: seq<K>, b: seq<K>, x: K)
    ensures Without(a + b, x) == Without(a, x) + Without(b, x)
  {
    if a == [] {
      assert a + b == b;
    } else {
      assert (a + b)[1..] == a[1..] + b;
      WithoutConcat(a[1..], b, x);
    }
  }

  lemma {:induction false} RecentNoDup<K>(keys: seq<K>)
    ensures NoDup(Recent(keys)) && Elems(Recent(keys)) == Elems(keys)
  {
    if keys != [] {
      var n := |keys| - 1;
      var x := keys[n];
      RecentNoDup(keys[..n]);
      WithoutElems(Recent(keys[..n]), x);
      var w := Without(Recent(keys[..n]), x);
      Joined([x], w);
      Joined(keys[..n], [x]);
      assert keys == keys[..n] + [x];
    }
  }

  lemma TakePrefix<K>(u: seq<K>, v: seq<K>, m: nat)
    requires |u| >= m
    ensures Take(u + v, m) == Take(u, m)
  {
    assert (u + v)[..m] == u[..m];
  }

  lemma TouchSplit<K>(a: seq<K>, b: seq<K>, x: K, m: nat)
    requires NoDup(a) && |a| == m > 0
    ensures Touch(a, x, m) == Take([x] + Without(a + b, x), m)
  {
    WithoutConcat(a, b, x);
    WithoutElems(a, x);
    var u, v := Without(a, x), Without(b, x);
    Front(x, u, v, m);
  }

  lemma Front<K>(x: K, u: seq<K>, v: seq<K>, m: nat)
    requires |u| + 1 >= m
    ensures Take([x] + (u + v), m) == Take([x] + u, m)
  {
    assert [x] + (u + v) == ([x] + u) + v;
    TakePrefix([x] + u, v, m);
  }

  /** Only the first m of the list need be kept. */
  lemma TouchTake<K>(s: seq<K>, x: K, m: nat)
    requires NoDup(s) && m > 0
    ensures Touch(Take(s, m), x, m) == Take([x] + Without(s, x), m)
  {
    if |s| > m {
      TouchSplit(s[..m], s[m..], x, m);
      assert s == s[..m] + s[m..];
    }
  }

  // ---- Keys used since ------------------------------------------------------------------------------------------------

  /** The keys used after the last use of `k`. */
  function KeysSince<K(==)>(keys: seq<K>, k: K): set<K>
    requires k in keys
  {
    var n := |keys| - 1;
    if keys[n] == k then {} else KeysSince(keys[..n], k) + {keys[n]}
  }

  /** Before a key in the recency list come exactly the keys used since. */
  lemma {:induction false} RecentRank<K>(keys: seq<K>, k: K) returns (a: seq<K>, b: seq<K>)
    requires k in keys
    ensures Recent(keys) == a + [k] + b && Elems(a) == KeysSince(keys, k)
  {
    var n := |keys| - 1;
    var x := keys[n];
    if x == k {
      a, b := [], Recent(keys)[1..];
    } else {
      var c, d := RecentRank(keys[..n], k);
      hide Recent;
      RecentNoDup(keys[..n]);
      assert NoDup(c + [k] + d);
      WithoutParts(c, k, d, x);
      RecentStep(keys);
      a, b := [x] + Without(c, x), Without(d, x);
      Joined([x], Without(c, x));
      assert a + [k] + b == [x] + (Without(c, x) + [k] + b);
    }
  }

  lemma WithoutParts<K>(c: seq<K>, k: K, d: seq<K>, x: K)
    requires NoDup(c + [k] + d) && x != k
    ensures Without(c + [k] + d, x) == Without(c, x) + [k] + Without(d, x)
    ensures Elems(Without(c, x)) == Elems(c) - {x}
  {
    Joined(c + [k], d);
    Joined(c, [k]);
    WithoutConcat(c + [k], d, x);
    WithoutConcat(c, [k], x);
    WithoutElems(c, x);
  }

  lemma RecentStep<K>(keys: seq<K>)
    requires keys != []
    ensures Recent(keys) == [keys[|keys| - 1]] + Without(Recent(keys[..|keys| - 1]), keys[|keys| - 1])
  {
  }

  lemma {:induction false} Distinct<K>(s: seq<K>)
    requires NoDup(s)
    ensures |Elems(s)| == |s|
  {
    if s != [] {
      Split(s);
      Distinct(s[1..]);
    }
  }

  /** Among the first m of the list are exactly the keys with fewer than m keys used since. */
  lemma TopKeys<K>(keys: seq<K>, m: nat, k: K)
    ensures k in Take(Recent(keys), m) <==> k in keys && |KeysSince(keys, k)| < m
  {
    RecentNoDup(keys);
    var s := Recent(keys);
    assert k in keys <==> k in Elems(keys);
    assert k in s <==> k in Elems(s);
    if k in keys {
      var a, b := RecentRank(keys, k);
      assert NoDup(a + [k] + b);
      hide Recent, KeysSince;
      Position(a, k, b, m);
    }
  }

  lemma Position<K>(a: seq<K>, k: K, b: seq<K>, m: nat)
    requires NoDup(a + [k] + b)
    ensures k in Take(a + [k] + b, m) <==> |Elems(a)| < m
  {
    var s := a + [k] + b;
    Joined(a + [k], b);
    Joined(a, [k]);
    Distinct(a);
    assert s[|a|] == k;
    if |a| < m {
      assert Take(s, m)[|a|] == k;
    } else {
      assert Take(s, m) == a[..m];
      assert k !in Elems(a) by { assert k in Elems([k]); }
    }
  }
}
