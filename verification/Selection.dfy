/** What it means to pick members of a list and keep their order. */
module Selection {

  ghost predicate Increasing(at: seq<nat>) {
    forall k, l :: 0 <= k < l < |at| ==> at[k] < at[l]
  }

  /** `at` are the positions of exactly the kept members of the list, and `out` is what stands there. */
  ghost predicate PicksAt<T>(out: seq<T>, all: seq<T>, kept: nat -> bool, at: seq<nat>) {
    && |at| == |out| && Increasing(at)
    && (forall k :: 0 <= k < |at| ==> at[k] < |all| && kept(at[k]) && out[k] == all[at[k]])
    && (forall i: nat {:trigger Stands(at, i)} :: i < |all| && kept(i) ==> Stands(at, i))
  }

  ghost predicate Stands(at: seq<nat>, i: nat) { i in at }

  /** `out` is the kept members of the list, each as often as it is kept, in the list's order. */
  ghost predicate Picks<T>(out: seq<T>, all: seq<T>, kept: nat -> bool) {
    exists at: seq<nat> :: PicksAt(out, all, kept, at)
  }

  lemma PicksNothing<T>(kept: nat -> bool)
    ensures Picks<T>([], [], kept)
  {
    assert PicksAt<T>([], [], kept, []);
  }

  lemma PickOn<T>(out: seq<T>, all: seq<T>, x: T, kept: nat -> bool, at: seq<nat>)
    requires PicksAt(out, all, kept, at) && kept(|all|)
    ensures PicksAt(out + [x], all + [x], kept, at + [|all|])
  {
    var next := at + [|all|];
    forall i: nat | i < |all + [x]| && kept(i) ensures Stands(next, i) {
      assert i < |all| ==> Stands(at, i);
      assert next[|at|] == |all|;
    }
  }

  lemma PassOver<T>(out: seq<T>, all: seq<T>, x: T, kept: nat -> bool, at: seq<nat>)
    requires PicksAt(out, all, kept, at) && !kept(|all|)
    ensures PicksAt(out, all + [x], kept, at)
  {
    forall i: nat | i < |all + [x]| && kept(i) ensures Stands(at, i) {
      assert i < |all|;
    }
  }

  /** One more member, kept or not. */
  lemma PicksOneMore<T>(out: seq<T>, all: seq<T>, x: T, kept: nat -> bool)
    requires Picks(out, all, kept)
    ensures Picks(if kept(|all|) then out + [x] else out, all + [x], kept)
  {
    var at: seq<nat> :| PicksAt(out, all, kept, at);
    if kept(|all|) {
      PickOn(out, all, x, kept, at);
    } else {
      PassOver(out, all, x, kept, at);
    }
  }

  lemma PicksNext<T>(out: seq<T>, out': seq<T>, all: seq<T>, x: T, all': seq<T>, kept: nat -> bool)
    requires Picks(out, all, kept) && all' == all + [x] && out' == if kept(|all|) then out + [x] else out
    ensures Picks(out', all', kept)
  {
    PicksOneMore(out, all, x, kept);
  }

  /** `outs` follows a pass over the list that appends each kept member. */
  ghost predicate AppendsKept<T>(outs: seq<seq<T>>, all: seq<T>, kept: nat -> bool) {
    && |outs| == |all| + 1 && outs[0] == []
    && forall i: nat :: i < |all| ==> AppendsAt(outs, all, kept, i)
  }

  ghost predicate AppendsAt<T>(outs: seq<seq<T>>, all: seq<T>, kept: nat -> bool, i: nat)
    requires |outs| == |all| + 1 && i < |all|
  {
    outs[i + 1] == if kept(i) then outs[i] + [all[i]] else outs[i]
  }

  lemma {:induction false} PassPicks<T>(outs: seq<seq<T>>, all: seq<T>, kept: nat -> bool, n: nat)
    requires AppendsKept(outs, all, kept) && n <= |all|
    ensures Picks(outs[n], all[..n], kept)
    decreases n
  {
    if n == 0 {
      PicksNothing<T>(kept);
    } else {
      PassPicks(outs, all, kept, n - 1);
      assert all[..n] == all[..n - 1] + [all[n - 1]];
      assert AppendsAt(outs, all, kept, n - 1);
      PicksNext(outs[n - 1], outs[n], all[..n - 1], all[n - 1], all[..n], kept);
    }
  }

  /** A pass that appends each kept member picks them. */
  lemma WholePassPicks<T>(outs: seq<seq<T>>, all: seq<T>, kept: nat -> bool)
    requires AppendsKept(outs, all, kept)
    ensures Picks(outs[|all|], all, kept)
  {
    PassPicks(outs, all, kept, |all|);
    assert all[..|all|] == all;
  }

  /** What is picked is what some kept position holds. */
  lemma PickedExactly<T>(out: seq<T>, all: seq<T>, kept: nat -> bool, x: T)
    requires Picks(out, all, kept)
    ensures x in out <==> exists i: nat :: i < |all| && kept(i) && all[i] == x
  {
    var at: seq<nat> :| PicksAt(out, all, kept, at);
    if x in out {
      var k :| 0 <= k < |out| && out[k] == x;
      assert at[k] < |all| && kept(at[k]) && all[at[k]] == x;
    }
    if i: nat :| i < |all| && kept(i) && all[i] == x {
      assert Stands(at, i);
      var k :| 0 <= k < |at| && at[k] == i;
      assert out[k] == x;
    }
  }
}
