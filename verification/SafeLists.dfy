/** The two library containers every component is built on: a list whose changes are
    staged until they are committed, and a first-in first-out request queue. */
module SafeLists {

  /** `xs` without the elements that occur in `gone`, in the order of `xs`. */
  function Without<T(==)>(xs: seq<T>, gone: seq<T>): seq<T> {
    if xs == [] then []
    else if xs[0] in gone then Without(xs[1..], gone)
    else [xs[0]] + Without(xs[1..], gone)
  }

  lemma {:induction false} WithoutNothing<T>(xs: seq<T>)
    ensures Without(xs, []) == xs
  {
    if xs != [] {
      WithoutNothing(xs[1..]);
    }
  }

  lemma {:induction false} WithoutElements<T>(xs: seq<T>, gone: seq<T>)
    ensures forall i :: 0 <= i < |Without(xs, gone)| ==>
              Without(xs, gone)[i] in xs && Without(xs, gone)[i] !in gone
    ensures forall i :: 0 <= i < |xs| && xs[i] !in gone ==> xs[i] in Without(xs, gone)
  {
    if xs != [] {
      WithoutElements(xs[1..], gone);
      assert xs == [xs[0]] + xs[1..];
    }
  }

  lemma {:induction false} WithoutConcat<T>(xs: seq<T>, ys: seq<T>, gone: seq<T>)
    ensures Without(xs + ys, gone) == Without(xs, gone) + Without(ys, gone)
  {
    if xs == [] {
      assert xs + ys == ys;
    } else {
      assert (xs + ys)[1..] == xs[1..] + ys;
      WithoutConcat(xs[1..], ys, gone);
    }
  }

  /** `foreach` visits `items` only, so it is a loop over that field. */
  class SafeList<T(==)> {
    var items: seq<T>
    var adding: seq<T>
    var removing: seq<T>

    constructor ()
      ensures items == [] && adding == [] && removing == []
    {
      items, adding, removing := [], [], [];
    }

    method Commit()
      modifies this
      ensures items == Without(old(items) + old(adding), old(removing))
      ensures adding == [] && removing == []
    {
      items := Without(items + adding, removing);
      adding, removing := [], [];
    }

    method Append(x: T, now: bool)
      modifies this
      ensures !now ==> items == old(items) && adding == old(adding) + [x] && removing == old(removing)
      ensures now ==> items == Without(old(items) + (old(adding) + [x]), old(removing))
      ensures now ==> adding == [] && removing == []
    {
      adding := adding + [x];
      if now {
        Commit();
      }
    }

    method Remove(x: T, now: bool)
      modifies this
      ensures !now ==> items == old(items) && adding == old(adding) && removing == old(removing) + [x]
      ensures now ==> items == Without(old(items) + old(adding), old(removing) + [x])
      ensures now ==> adding == [] && removing == []
    {
      removing := removing + [x];
      if now {
        Commit();
      }
    }
  }

  class AsyncQueue<T> {
    var pending: seq<T>

    constructor ()
      ensures pending == []
    {
      pending := [];
    }

    method Push(x: T)
      modifies this
      ensures pending == old(pending) + [x]
    {
      pending := pending + [x];
    }

    method Pop() returns (x: T)
      requires pending != []
      modifies this
      ensures x == old(pending)[0] && pending == old(pending)[1..]
    {
      x := pending[0];
      pending := pending[1..];
    }
  }
}
