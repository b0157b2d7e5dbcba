// What it means for a list to be another one filtered and mapped, without saying how it was built.
module Selection {
  import opened Options

  predicate Rising(at: seq<nat>) {
    forall j, k :: 0 <= j < k < |at| ==> at[j] < at[k]
  }

  // `at` are the positions at which f finds something, in order, and picked is what it finds there.
  ghost predicate PicksAt<A, B(!new)>(from: seq<A>, f: A -> Option<B>, picked: seq<B>, at: seq<nat>) {
    && |at| == |picked|
    && Rising(at)
    && (forall k :: 0 <= k < |at| ==> at[k] < |from| && f(from[at[k]]) == Some(picked[k]))
    && (forall i :: 0 <= i < |from| && f(from[i]).Some? ==> i in at)
  }

  ghost predicate Picks<A, B(!new)>(from: seq<A>, f: A -> Option<B>, picked: seq<B>) {
    exists places: seq<nat> :: PicksAt(from, f, picked, places)
  }

  lemma PicksNothing<A, B(!new)>(f: A -> Option<B>)
    ensures Picks([], f, [])
  {
    assert PicksAt([], f, [], []);
  }

  lemma OneMoreAt<A, B(!new)>(from: seq<A>, f: A -> Option<B>, picked: seq<B>, x: A, at: seq<nat>)
    requires PicksAt(from, f, picked, at) && f(x).Some?
    ensures PicksAt(from + [x], f, picked + [f(x).value], at + [|from|])
  {
    var on, all := at + [|from|], from + [x];
    assert Rising(on);
    forall i | 0 <= i < |all| && f(all[i]).Some?
      ensures i in on
    {
      if i == |from| {
        assert on[|at|] == i;
      } else {
        assert i in at;
      }
    }
  }

  // One more element at the end.
  lemma PicksOneMore<A, B(!new)>(from: seq<A>, f: A -> Option<B>, picked: seq<B>, x: A)
    requires Picks(from, f, picked)
    ensures Picks(from + [x], f, if f(x).Some? then picked + [f(x).value] else picked)
  {
    var at: seq<nat> :| PicksAt(from, f, picked, at);
    if f(x).Some? {
      hide PicksAt;
      OneMoreAt(from, f, picked, x, at);
    } else {
      assert PicksAt(from + [x], f, picked, at);
    }
  }

  lemma {:induction false} SameRising(a: seq<nat>, b: seq<nat>)
    requires Rising(a) && Rising(b) && forall i :: i in a <==> i in b
    ensures a == b
  {
    assert a == [] || a[|a| - 1] in a;
    assert b == [] || b[|b| - 1] in b;
    if b != [] {
      var m, n := |a| - 1, |b| - 1;
      LastIsLargest(a);
      LastIsLargest(b);
      assert a[m] == b[n];
      forall i
        ensures i in a[..m] <==> i in b[..n]
      {
        InFront(a, i);
        InFront(b, i);
      }
      SameRising(a[..m], b[..n]);
      assert a == a[..m] + [a[m]] && b == b[..n] + [b[n]];
    }
  }

  lemma LastIsLargest(a: seq<nat>)
    requires Rising(a) && a != []
    ensures forall i :: i in a ==> i <= a[|a| - 1]
  {
  }

  lemma InFront(a: seq<nat>, i: nat)
    requires Rising(a) && a != []
    ensures i in a[..|a| - 1] <==> i in a && i != a[|a| - 1]
  {
    assert a == a[..|a| - 1] + [a[|a| - 1]];
  }

  // There is one such list.
  lemma PicksOne<A, B(!new)>(from: seq<A>, f: A -> Option<B>, p: seq<B>, q: seq<B>)
    requires Picks(from, f, p) && Picks(from, f, q)
    ensures p == q
  {
    var a: seq<nat> :| PicksAt(from, f, p, a);
    var b: seq<nat> :| PicksAt(from, f, q, b);
    forall i
      ensures i in a <==> i in b
    {
    }
    SameRising(a, b);
  }
}
