/** Everything that a collection of sequences holds, as one multiset. */
module Bags {

  /** All elements of all the sequences. */
  function Bag<T>(qs: seq<seq<T>>): multiset<T>
  {
    if qs == [] then multiset{} else multiset(qs[0]) + Bag(qs[1..])
  }

  lemma AddFront<T>(f: multiset<T>, a: multiset<T>, b: multiset<T>, c: multiset<T>, d: multiset<T>)
    requires a + b == c + d
    ensures f + a + b == f + c + d
  {
    assert f + a + b == f + (a + b);
  }

  lemma {:induction false} BagUpdate<T>(qs: seq<seq<T>>, i: nat, q: seq<T>)
    requires i < |qs|
    ensures Bag(qs[i := q]) + multiset(qs[i]) == Bag(qs) + multiset(q)
    ensures multiset(qs[i]) <= Bag(qs)
  {
    var t := qs[i := q];
    if i == 0 {
      assert t[1..] == qs[1..] && t[0] == q;
    } else {
      BagUpdate(qs[1..], i - 1, q);
      assert t[1..] == qs[1..][i - 1 := q] && t[0] == qs[0];
      AddFront(multiset(qs[0]), Bag(t[1..]), multiset(qs[i]), Bag(qs[1..]), multiset(q));
    }
  }

  lemma {:induction false} BagEmpty<T>(qs: seq<seq<T>>)
    ensures Bag(qs) == multiset{} <==> forall i :: 0 <= i < |qs| ==> qs[i] == []
  {
    if qs != [] {
      BagEmpty(qs[1..]);
      if Bag(qs) == multiset{} {
        assert multiset(qs[0]) == multiset{};
        assert forall i :: 0 <= i < |qs| ==> qs[i] == if i == 0 then qs[0] else qs[1..][i - 1];
      } else if qs[0] != [] {
        assert qs[0][0] in multiset(qs[0]);
      } else {
        var i :| 0 <= i < |qs[1..]| && qs[1..][i] != [];
        assert qs[i + 1] != [];
      }
    }
  }

  lemma MoveBetween<T>(a: multiset<T>, b: multiset<T>, x: multiset<T>, y: multiset<T>)
    requires b + (x + y) == a + y
    ensures a == b + x
  {
    forall t ensures a[t] == (b + x)[t] {
      assert (b + (x + y))[t] == (a + y)[t];
    }
  }

  /** BagUpdate, for the number of times one element is held. */
  lemma BagCount<T>(qs: seq<seq<T>>, i: nat, q: seq<T>, x: T)
    requires i < |qs|
    ensures Bag(qs[i := q])[x] + multiset(qs[i])[x] == Bag(qs)[x] + multiset(q)[x]
  {
    BagUpdate(qs, i, q);
    assert (Bag(qs[i := q]) + multiset(qs[i]))[x] == (Bag(qs) + multiset(q))[x];
  }

  /** Appending to one sequence adds exactly that. */
  lemma BagPut<T>(qs: seq<seq<T>>, i: nat, xs: seq<T>)
    requires i < |qs|
    ensures Bag(qs[i := qs[i] + xs]) == Bag(qs) + multiset(xs)
  {
    BagUpdate(qs, i, qs[i] + xs);
    MoveBetween(Bag(qs[i := qs[i] + xs]), Bag(qs), multiset(xs), multiset(qs[i]));
  }

  /** Taking the front of one sequence off removes exactly that. */
  lemma BagTake<T>(qs: seq<seq<T>>, i: nat, xs: seq<T>, rest: seq<T>)
    requires i < |qs| && qs[i] == xs + rest
    ensures Bag(qs) == Bag(qs[i := rest]) + multiset(xs)
  {
    BagUpdate(qs, i, rest);
    MoveBetween(Bag(qs), Bag(qs[i := rest]), multiset(xs), multiset(rest));
  }
}
