/** Lists of entries with a key: which keys occur, whether each occurs once, and what is left when
    some keys are dropped. */
module Keyed {
  import opened SafeLists

  function KeysOf<T, K(==)>(xs: seq<T>, key: T -> K): set<K> {
    set i | 0 <= i < |xs| :: key(xs[i])
  }

  /** No two entries share a key. */
  ghost predicate OneEach<T, K>(xs: seq<T>, key: T -> K) {
    forall i, j :: 0 <= i < j < |xs| ==> key(xs[i]) != key(xs[j])
  }

  function Self<T>(x: T): T { x }

  ghost predicate Distinct<T>(xs: seq<T>) { OneEach(xs, Self) }

  function Drop<T, K(==)>(xs: seq<T>, key: T -> K, gone: set<K>): seq<T> {
    if xs == [] then []
    else (if key(xs[0]) in gone then [] else [xs[0]]) + Drop(xs[1..], key, gone)
  }

  lemma {:induction false} DropConcat<T, K>(xs: seq<T>, ys: seq<T>, key: T -> K, gone: set<K>)
    ensures Drop(xs + ys, key, gone) == Drop(xs, key, gone) + Drop(ys, key, gone)
  {
    if xs == [] {
      assert xs + ys == ys;
    } else {
      assert (xs + ys)[1..] == xs[1..] + ys;
      DropConcat(xs[1..], ys, key, gone);
    }
  }

  lemma {:induction false} DropNothing<T, K>(xs: seq<T>, key: T -> K)
    ensures Drop(xs, key, {}) == xs
  {
    if xs != [] {
      DropNothing(xs[1..], key);
    }
  }

  lemma {:induction false} DropElements<T, K>(xs: seq<T>, key: T -> K, gone: set<K>)
    ensures var rest := Drop(xs, key, gone);
            && (forall i :: 0 <= i < |rest| ==> rest[i] in xs && key(rest[i]) !in gone)
            && (forall i :: 0 <= i < |xs| && key(xs[i]) !in gone ==> xs[i] in rest)
  {
    if xs != [] {
      DropElements(xs[1..], key, gone);
      assert xs == [xs[0]] + xs[1..];
      var rest, tail := Drop(xs, key, gone), Drop(xs[1..], key, gone);
      forall i | 0 <= i < |rest|
        ensures rest[i] in xs && key(rest[i]) !in gone
      {
        assert rest[i] == xs[0] || rest[i] in xs[1..];
      }
      forall i | 0 <= i < |xs| && key(xs[i]) !in gone
        ensures xs[i] in rest
      {
        assert i > 0 ==> xs[i] == xs[1..][i - 1] && xs[i] in tail;
      }
    }
  }

  /** An entry in front keeps its key to itself if it had it to itself in a longer list. */
  lemma OneEachInFront<T, K>(xs: seq<T>, key: T -> K, rest: seq<T>)
    requires xs != [] && OneEach(xs, key) && OneEach(rest, key)
    requires forall i :: 0 <= i < |rest| ==> rest[i] in xs[1..]
    ensures OneEach([xs[0]] + rest, key)
  {
    forall i | 0 <= i < |rest|
      ensures key(rest[i]) != key(xs[0])
    {
      var k :| 0 <= k < |xs[1..]| && xs[1..][k] == rest[i];
      assert xs[k + 1] == rest[i];
    }
  }

  lemma {:induction false} DropOneEach<T, K>(xs: seq<T>, key: T -> K, gone: set<K>)
    requires OneEach(xs, key)
    ensures OneEach(Drop(xs, key, gone), key)
  {
    if xs != [] {
      DropOneEach(xs[1..], key, gone);
      DropElements(xs[1..], key, gone);
      OneEachInFront(xs, key, Drop(xs[1..], key, gone));
    }
  }

  lemma {:induction false} WithoutOneEach<T, K>(xs: seq<T>, key: T -> K, gone: seq<T>)
    requires OneEach(xs, key)
    ensures OneEach(Without(xs, gone), key)
  {
    if xs != [] {
      WithoutOneEach(xs[1..], key, gone);
      WithoutElements(xs[1..], gone);
      OneEachInFront(xs, key, Without(xs[1..], gone));
    }
  }

  lemma DropFacts<T, K>(xs: seq<T>, key: T -> K, gone: set<K>)
    ensures var rest := Drop(xs, key, gone);
            && (forall i :: 0 <= i < |rest| ==> rest[i] in xs && key(rest[i]) !in gone)
            && (forall i :: 0 <= i < |xs| && key(xs[i]) !in gone ==> xs[i] in rest)
    ensures KeysOf(Drop(xs, key, gone), key) == KeysOf(xs, key) - gone
    ensures OneEach(xs, key) ==> OneEach(Drop(xs, key, gone), key)
  {
    hide OneEach;
    DropElements(xs, key, gone);
    var rest := Drop(xs, key, gone);
    forall k | k in KeysOf(xs, key) - gone
      ensures k in KeysOf(rest, key)
    {
      var i :| 0 <= i < |xs| && key(xs[i]) == k;
      var j :| 0 <= j < |rest| && rest[j] == xs[i];
    }
    forall k | k in KeysOf(rest, key)
      ensures k in KeysOf(xs, key) - gone
    {
      var j :| 0 <= j < |rest| && key(rest[j]) == k;
      var i :| 0 <= i < |xs| && xs[i] == rest[j];
    }
    if OneEach(xs, key) {
      DropOneEach(xs, key, gone);
    }
  }

  /** Only keys that occur matter. */
  lemma {:induction false} DropSame<T, K>(xs: seq<T>, key: T -> K, a: set<K>, b: set<K>)
    requires forall i :: 0 <= i < |xs| ==> (key(xs[i]) in a <==> key(xs[i]) in b)
    ensures Drop(xs, key, a) == Drop(xs, key, b)
  {
    if xs != [] {
      DropSame(xs[1..], key, a, b);
    }
  }

  lemma KeysAppended<T, K>(xs: seq<T>, key: T -> K, x: T)
    ensures KeysOf(xs + [x], key) == KeysOf(xs, key) + {key(x)}
  {
    var ys := xs + [x];
    assert ys[|xs|] == x;
    forall k | k in KeysOf(xs, key)
      ensures k in KeysOf(ys, key)
    {
      var i :| 0 <= i < |xs| && key(xs[i]) == k;
      assert ys[i] == xs[i];
    }
  }

  /** Entries that are replaced by others with the same keys. */
  lemma KeysReplaced<T, K>(xs: seq<T>, ys: seq<T>, key: T -> K)
    requires |xs| == |ys| && forall i :: 0 <= i < |xs| ==> key(ys[i]) == key(xs[i])
    ensures KeysOf(ys, key) == KeysOf(xs, key)
    ensures OneEach(xs, key) ==> OneEach(ys, key)
  {
    forall i | 0 <= i < |xs|
      ensures key(xs[i]) in KeysOf(ys, key) && key(ys[i]) in KeysOf(xs, key)
    {
      assert key(xs[i]) == key(ys[i]);
    }
  }
}
