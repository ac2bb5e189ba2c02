/** Chunks of questions sent in whatever order the workers take them. */
module Chunks {

  /** Everything in the first n chunks. */
  ghost function Total<T>(chunks: seq<multiset<T>>, n: nat): multiset<T>
    requires n <= |chunks|
  {
    if n == 0 then multiset{} else Total(chunks, n - 1) + chunks[n - 1]
  }

  /** Everything in the chunks named by `order`. */
  function Gather<T>(chunks: seq<multiset<T>>, order: seq<nat>): multiset<T>
    requires forall i :: 0 <= i < |order| ==> order[i] < |chunks|
  {
    if order == [] then multiset{} else chunks[order[0]] + Gather(chunks, order[1..])
  }

  /** `order` names each of the first n chunks exactly once. */
  ghost predicate OnceEach(order: seq<nat>, n: nat) {
    && (forall i :: 0 <= i < |order| ==> order[i] < n)
    && (forall i, j :: 0 <= i < j < |order| ==> order[i] != order[j])
    && (forall p: nat :: p < n ==> p in order)
  }

  lemma {:induction false} GatherWithout<T>(chunks: seq<multiset<T>>, order: seq<nat>, i: nat)
    requires forall j :: 0 <= j < |order| ==> order[j] < |chunks|
    requires i < |order|
    ensures Gather(chunks, order) == Gather(chunks, order[..i] + order[i + 1..]) + chunks[order[i]]
    decreases i
  {
    if i == 0 {
      assert order[..0] + order[1..] == order[1..];
    } else {
      GatherWithout(chunks, order[1..], i - 1);
      assert order[1..][..i - 1] + order[1..][i..] == (order[..i] + order[i + 1..])[1..];
    }
  }

  lemma DropLast(order: seq<nat>, i: nat, n: nat)
    requires n > 0 && OnceEach(order, n) && i < |order| && order[i] == n - 1
    ensures OnceEach(order[..i] + order[i + 1..], n - 1)
  {
    var rest := order[..i] + order[i + 1..];
    forall p: nat | p < n - 1 ensures p in rest {
      assert p in order;
      var j :| 0 <= j < |order| && order[j] == p;
      assert rest[if j < i then j else j - 1] == p;
    }
  }

  /** Asking every chunk once asks everything once, in any order. */
  lemma {:induction false} GatherOnce<T>(chunks: seq<multiset<T>>, order: seq<nat>, n: nat)
    requires n <= |chunks| && OnceEach(order, n)
    ensures Gather(chunks, order) == Total(chunks, n)
    decreases n
  {
    if n > 0 {
      assert n - 1 in order;
      var i :| 0 <= i < |order| && order[i] == n - 1;
      DropLast(order, i, n);
      GatherOnce(chunks, order[..i] + order[i + 1..], n - 1);
      GatherWithout(chunks, order, i);
    }
  }
}
