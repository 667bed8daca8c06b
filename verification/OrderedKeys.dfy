/**
 Iteration order. A `BTreeMap` is walked in ascending key order, which `Ascending` makes a
 sequence. A `HashMap` is walked in an arbitrary order: `IsOrder` says which sequences are possible.
 */
module OrderedKeys {

  ghost predicate Increasing(s: seq<nat>) {
    forall i, j :: 0 <= i < j < |s| ==> s[i] < s[j]
  }

  ghost predicate Distinct<T>(s: seq<T>) {
    forall i, j :: 0 <= i < j < |s| ==> s[i] != s[j]
  }

  /** `s` lists every member of `keys` exactly once. */
  ghost predicate IsOrder<T(!new)>(s: seq<T>, keys: set<T>) {
    && Distinct(s)
    && forall k :: k in s <==> k in keys
  }

  function SetOf<T>(s: seq<T>): set<T> {
    set x | x in s
  }

  lemma SetOfTail<T>(s: seq<T>)
    requires s != []
    ensures SetOf(s) == {s[0]} + SetOf(s[1..])
  {
    assert s == [s[0]] + s[1..];
  }

  lemma {:induction false} SetOfSize<T>(s: seq<T>)
    ensures |SetOf(s)| <= |s|
    ensures Distinct(s) ==> |SetOf(s)| == |s|
    decreases |s|
  {
    if s != [] {
      SetOfTail(s);
      SetOfSize(s[1..]);
      if Distinct(s) {
        assert s[0] !in s[1..];
      }
    }
  }

  lemma SubsetSize<T>(a: set<T>, b: set<T>)
    requires a <= b
    ensures |a| <= |b|
  {
    assert b == a + (b - a);
  }

  lemma AppendDistinct<T>(a: seq<T>, b: seq<T>)
    requires Distinct(a) && Distinct(b) && forall x :: x in a ==> x !in b
    ensures Distinct(a + b)
  {
    var s := a + b;
    forall i, j | 0 <= i < j < |s|
      ensures s[i] != s[j]
    {
      if i < |a| <= j { assert s[i] in a && s[j] in b; }
    }
  }

  lemma OrderTail<T(!new)>(s: seq<T>, keys: set<T>)
    requires s != [] && IsOrder(s, keys)
    ensures s[0] in keys && IsOrder(s[1..], keys - {s[0]})
  {
    assert s == [s[0]] + s[1..];
  }

  lemma NonEmptyHas<T>(s: seq<T>)
    ensures s == [] || exists k :: k in s
  {
    if s != [] { assert s[0] in s; }
  }

  ghost predicate IsLeast(m: nat, keys: set<nat>) {
    m in keys && forall x :: x in keys ==> m <= x
  }

  lemma {:induction false} LeastExists(keys: set<nat>)
    requires keys != {}
    ensures exists m :: IsLeast(m, keys)
  {
    var k :| k in keys;
    var rest := keys - {k};
    if rest == {} {
      assert keys == {k};
      assert IsLeast(k, keys);
    } else {
      LeastExists(rest);
      var m :| IsLeast(m, rest);
      assert keys == rest + {k};
      assert IsLeast(if m < k then m else k, keys);
    }
  }

  function Least(keys: set<nat>): (m: nat)
    requires keys != {}
    ensures m in keys
    ensures forall x :: x in keys ==> m <= x
  {
    LeastExists(keys);
    assert exists m :: IsLeast(m, keys);
    var m :| m in keys && forall x :: x in keys ==> m <= x;
    m
  }

  /** The keys of a `BTreeMap` in the order in which it is iterated. */
  function Ascending(keys: set<nat>): (r: seq<nat>)
    ensures Increasing(r)
    ensures forall k :: k in r <==> k in keys
  {
    if keys == {} then
      []
    else
      var m := Least(keys);
      var rest := Ascending(keys - {m});
      assert forall k :: k in [m] + rest <==> k == m || k in rest;
      [m] + rest
  }

  lemma {:induction false} AscendingSize(keys: set<nat>)
    ensures |Ascending(keys)| == |keys|
  {
    if keys != {} {
      AscendingSize(keys - {Least(keys)});
    }
  }

  lemma {:induction false} IncreasingUnique(a: seq<nat>, b: seq<nat>)
    requires Increasing(a) && Increasing(b)
    requires forall k :: k in a <==> k in b
    ensures a == b
  {
    assert b != [] ==> b[0] in b;
    if a != [] {
      assert a[0] in b;
      assert b[0] in a;
      assert a[0] == b[0];
      var x := a[0];
      forall k
        ensures k in a[1..] <==> k in b[1..]
      {
        assert k in a[1..] ==> k in a && k != x;
        assert k in b[1..] ==> k in b && k != x;
        assert k in a && k != x ==> k in a[1..] by { assert a == [x] + a[1..]; }
        assert k in b && k != x ==> k in b[1..] by { assert b == [x] + b[1..]; }
      }
      IncreasingUnique(a[1..], b[1..]);
    }
  }

  ghost predicate IsGreatest(m: nat, keys: set<nat>) {
    m in keys && forall x :: x in keys ==> x <= m
  }

  lemma {:induction false} GreatestExists(keys: set<nat>)
    requires keys != {}
    ensures exists m :: IsGreatest(m, keys)
  {
    var k :| k in keys;
    var rest := keys - {k};
    if rest == {} {
      assert keys == {k};
      assert IsGreatest(k, keys);
    } else {
      GreatestExists(rest);
      var m :| IsGreatest(m, rest);
      assert keys == rest + {k};
      assert IsGreatest(if m < k then k else m, keys);
    }
  }

  /** `.max().unwrap_or(0)` */
  function GreatestOr0(keys: set<nat>): (m: nat)
    ensures keys == {} ==> m == 0
    ensures keys != {} ==> m in keys
    ensures forall x :: x in keys ==> x <= m
  {
    if keys == {} then
      0
    else
      GreatestExists(keys);
      assert exists m :: IsGreatest(m, keys);
      var m :| m in keys && forall x :: x in keys ==> x <= m;
      m
  }

  /** The numbers `lo..hi`, both ends included. */
  function Range(lo: nat, hi: int): (r: seq<nat>)
    ensures |r| == if lo <= hi then hi - lo + 1 else 0
    ensures forall i :: 0 <= i < |r| ==> r[i] == lo + i
  {
    seq(if lo <= hi then hi - lo + 1 else 0, i requires i >= 0 => lo + i)
  }

  lemma {:induction false} AscendingRange(keys: set<nat>, lo: nat, hi: int)
    requires forall k: nat :: k in keys <==> lo <= k <= hi
    ensures Ascending(keys) == Range(lo, hi)
  {
    var r := Range(lo, hi);
    forall k: nat
      ensures k in r <==> k in Ascending(keys)
    {
      if lo <= k <= hi { assert r[k - lo] == k; }
    }
    IncreasingUnique(Ascending(keys), r);
  }
}
