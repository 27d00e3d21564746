/** A find-or-append list of keyed entries, as the disk and CPU statistics keep one, against the map
    it stands for. `step` combines an entry with new data; a new entry starts from `start`. */
module Index {
  import opened Words
  import opened Keyed

  function Keys<K, V>(xs: seq<(K, V)>): seq<K> {
    seq(|xs|, i requires 0 <= i < |xs| => xs[i].0)
  }

  /** The place of a key, or the length of the list. */
  function Find<K(==), V>(xs: seq<(K, V)>, k: K): (i: nat)
    ensures i <= |xs|
    ensures i < |xs| ==> xs[i].0 == k
    ensures forall j :: 0 <= j < i ==> xs[j].0 != k
  {
    if xs == [] || xs[0].0 == k then 0 else 1 + Find(xs[1..], k)
  }

  function Get<K(==), V>(xs: seq<(K, V)>, k: K): Option<V> {
    var i := Find(xs, k);
    if i < |xs| then Some(xs[i].1) else None
  }

  function Advance<V, D>(prior: Option<V>, d: D, step: (V, D) -> V, start: V): V {
    step(if prior.Some? then prior.value else start, d)
  }

  function Upsert<K(==), V, D>(xs: seq<(K, V)>, k: K, d: D, step: (V, D) -> V, start: V): seq<(K, V)> {
    var i := Find(xs, k);
    var v := Advance(Get(xs, k), d, step, start);
    if i < |xs| then xs[i := (k, v)] else xs + [(k, v)]
  }

  function UpsertAll<K(==), V, D>(xs: seq<(K, V)>, lines: seq<(K, D)>, step: (V, D) -> V, start: V):
    seq<(K, V)>
    decreases |lines|
  {
    if lines == [] then xs
    else UpsertAll(Upsert(xs, lines[0].0, lines[0].1, step, start), lines[1..], step, start)
  }

  /** The data of the lines for one key, in order. */
  function DataFor<K(==), D>(lines: seq<(K, D)>, k: K): seq<D> {
    if lines == [] then []
    else (if lines[0].0 == k then [lines[0].1] else []) + DataFor(lines[1..], k)
  }

  /** What a map entry becomes under a list of data. */
  function Folded<V, D>(prior: Option<V>, ds: seq<D>, step: (V, D) -> V, start: V): Option<V>
    decreases |ds|
  {
    if ds == [] then prior else Folded(Some(Advance(prior, ds[0], step, start)), ds[1..], step, start)
  }

  lemma {:induction false} FindUnique<K, V>(xs: seq<(K, V)>, k: K, i: nat)
    requires i < |xs| && xs[i].0 == k && Distinct(Keys(xs))
    ensures Find(xs, k) == i
  {
    var j := Find(xs, k);
    assert Keys(xs)[i] == k;
    if j < |xs| {
      assert Keys(xs)[j] == xs[j].0;
    }
  }

  /** One line changes its own key and no other, keeps the order, and appends a new key at the end. */
  lemma UpsertFacts<K, V, D>(xs: seq<(K, V)>, k: K, d: D, step: (V, D) -> V, start: V)
    requires Distinct(Keys(xs))
    ensures var ys := Upsert(xs, k, d, step, start);
            && Distinct(Keys(ys))
            && Keys(xs) <= Keys(ys)
            && Keys(ys) == Keys(xs) + (if k in Keys(xs) then [] else [k])
            && Get(ys, k) == Some(Advance(Get(xs, k), d, step, start))
  {
    var ys := Upsert(xs, k, d, step, start);
    var i := Find(xs, k);
    assert i < |xs| ==> Keys(xs)[i] == k;
    assert k in Keys(xs) ==> exists j :: 0 <= j < |xs| && xs[j].0 == k;
    assert Keys(ys) == Keys(xs) + (if k in Keys(xs) then [] else [k]);
    FindUnique(ys, k, i);
  }

  lemma UpsertOthers<K, V, D>(xs: seq<(K, V)>, k: K, d: D, step: (V, D) -> V, start: V, other: K)
    requires other != k
    ensures Get(Upsert(xs, k, d, step, start), other) == Get(xs, other)
  {
    var ys := Upsert(xs, k, d, step, start);
    var a, b := Find(xs, other), Find(ys, other);
    if a < |xs| {
      assert ys[a].0 == other;
    }
    if b < |ys| {
      assert b < |xs| && xs[b].0 == other;
    }
  }

  /** The refinement: for every key the list holds what a map would hold, keys stay unique, the keys
      seen before keep their places, and exactly the keys of the lines are added. */
  lemma {:induction false} Refines<K, V, D>(xs: seq<(K, V)>, lines: seq<(K, D)>, step: (V, D) -> V, start: V, k: K)
    requires Distinct(Keys(xs))
    ensures var ys := UpsertAll(xs, lines, step, start);
            && Distinct(Keys(ys))
            && Keys(xs) <= Keys(ys)
            && Get(ys, k) == Folded(Get(xs, k), DataFor(lines, k), step, start)
            && (k in Keys(ys) <==> k in Keys(xs) || DataFor(lines, k) != [])
    decreases |lines|
  {
    hide Upsert, Find;
    if lines != [] {
      var zs := Upsert(xs, lines[0].0, lines[0].1, step, start);
      UpsertFacts(xs, lines[0].0, lines[0].1, step, start);
      Refines(zs, lines[1..], step, start, k);
      if lines[0].0 == k {
        assert DataFor(lines, k)[1..] == DataFor(lines[1..], k);
      } else {
        UpsertOthers(xs, lines[0].0, lines[0].1, step, start, k);
        assert DataFor(lines, k) == DataFor(lines[1..], k);
      }
    }
  }

  /** Several files in a row are one long file. */
  lemma {:induction false} FilesConcat<K, V, D>(xs: seq<(K, V)>, a: seq<(K, D)>, b: seq<(K, D)>,
                                                step: (V, D) -> V, start: V)
    ensures UpsertAll(xs, a + b, step, start) == UpsertAll(UpsertAll(xs, a, step, start), b, step, start)
    decreases |a|
  {
    if a == [] {
      assert a + b == b;
    } else {
      assert (a + b)[1..] == a[1..] + b;
      FilesConcat(Upsert(xs, a[0].0, a[0].1, step, start), a[1..], b, step, start);
    }
  }

  // ---- The order of new keys ----

  /** What a list of keys gains when keys are read that it may lack. */
  function Gained<K(==)>(known: seq<K>, ks: seq<K>): seq<K>
    decreases |ks|
  {
    if ks == [] then []
    else if ks[0] in known then Gained(known, ks[1..])
    else [ks[0]] + Gained(known + [ks[0]], ks[1..])
  }

  lemma {:induction false} KeysGained<K, V, D>(xs: seq<(K, V)>, lines: seq<(K, D)>, step: (V, D) -> V, start: V)
    requires Distinct(Keys(xs))
    ensures Keys(UpsertAll(xs, lines, step, start)) == Keys(xs) + Gained(Keys(xs), Keys(lines))
    decreases |lines|
  {
    hide Upsert, Find;
    if lines != [] {
      var k, zs := lines[0].0, Upsert(xs, lines[0].0, lines[0].1, step, start);
      UpsertFacts(xs, k, lines[0].1, step, start);
      KeysGained(zs, lines[1..], step, start);
      assert Keys(lines)[1..] == Keys(lines[1..]);
      if k in Keys(xs) {
        assert Keys(zs) == Keys(xs);
      } else {
        var more := Gained(Keys(zs), Keys(lines[1..]));
        assert (Keys(xs) + [k]) + more == Keys(xs) + ([k] + more);
      }
    }
  }

  /** `at` are the places in `ks` of keys that are not known, each place the first of its key. */
  ghost predicate FirstPlaces<K>(known: seq<K>, ks: seq<K>, at: seq<nat>) {
    && (forall i :: 0 <= i < |at| ==> at[i] < |ks| && ks[at[i]] !in known)
    && (forall i, j :: 0 <= i < j < |at| ==> at[i] < at[j])
    && (forall i, j :: 0 <= i < |at| && 0 <= j < at[i] ==> ks[j] != ks[at[i]])
  }

  function At<K>(ks: seq<K>, at: seq<nat>): seq<K>
    requires forall i :: 0 <= i < |at| ==> at[i] < |ks|
  {
    seq(|at|, i requires 0 <= i < |at| => ks[at[i]])
  }

  lemma {:induction false} GainedPlaces<K>(known: seq<K>, ks: seq<K>) returns (at: seq<nat>)
    ensures FirstPlaces(known, ks, at) && Gained(known, ks) == At(ks, at)
    decreases |ks|
  {
    at := [];
    if ks != [] {
      hide FirstPlaces, At;
      var known' := if ks[0] in known then known else known + [ks[0]];
      var later := GainedPlaces(known', ks[1..]);
      var shifted := seq(|later|, i requires 0 <= i < |later| => later[i] + 1);
      ShiftedPlaces(known', ks, later, shifted);
      at := if ks[0] in known then shifted else [0] + shifted;
      if ks[0] !in known {
        PlaceAtFront(known, ks, shifted);
      }
    }
  }

  lemma PlaceAtFront<K>(known: seq<K>, ks: seq<K>, shifted: seq<nat>)
    requires ks != [] && ks[0] !in known && FirstPlaces(known + [ks[0]], ks, shifted)
    ensures FirstPlaces(known, ks, [0] + shifted)
    ensures At(ks, [0] + shifted) == [ks[0]] + At(ks, shifted)
  {
    forall i | 0 <= i < |shifted|
      ensures shifted[i] > 0 && ks[shifted[i]] !in known
    {
      var k := ks[shifted[i]];
      assert (known + [ks[0]])[|known|] == ks[0] && k !in known + [ks[0]];
    }
  }

  lemma ShiftedPlaces<K>(known: seq<K>, ks: seq<K>, later: seq<nat>, shifted: seq<nat>)
    requires ks != [] && ks[0] in known && FirstPlaces(known, ks[1..], later)
    requires |shifted| == |later| && forall i :: 0 <= i < |later| ==> shifted[i] == later[i] + 1
    ensures FirstPlaces(known, ks, shifted) && At(ks, shifted) == At(ks[1..], later)
  {
    forall i, j | 0 <= i < |shifted| && 0 <= j < shifted[i]
      ensures ks[j] != ks[shifted[i]]
    {
      assert j > 0 ==> ks[1..][j - 1] == ks[j];
    }
  }

  /** The keys that a run of lines adds come in the order in which the lines first name them. */
  lemma NewKeysInOrder<K, V, D>(xs: seq<(K, V)>, lines: seq<(K, D)>, step: (V, D) -> V, start: V)
    returns (at: seq<nat>)
    requires Distinct(Keys(xs))
    ensures FirstPlaces(Keys(xs), Keys(lines), at)
    ensures Keys(UpsertAll(xs, lines, step, start)) == Keys(xs) + At(Keys(lines), at)
  {
    KeysGained(xs, lines, step, start);
    at := GainedPlaces(Keys(xs), Keys(lines));
  }

  // ---- The last line for a key ----

  lemma {:induction false} FoldedSnoc<V, D>(prior: Option<V>, ds: seq<D>, d: D, step: (V, D) -> V, start: V)
    ensures Folded(prior, ds + [d], step, start)
         == Some(Advance(Folded(prior, ds, step, start), d, step, start))
    decreases |ds|
  {
    if ds == [] {
      assert (ds + [d])[1..] == [];
    } else {
      assert (ds + [d])[1..] == ds[1..] + [d];
      FoldedSnoc(Some(Advance(prior, ds[0], step, start)), ds[1..], d, step, start);
    }
  }
}
