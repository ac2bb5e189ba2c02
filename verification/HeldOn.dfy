/**
  On which of a mixed list of objects a subject holds one relation. The list is cut by type,
  because a batch answers about one type only, and the types are asked in name order.
*/
module HeldOn {
  import opened Outcomes
  import opened ObjectRef
  import opened WorkerPool
  import opened Visibility
  import DecisionDoor
  import Text

  /** The objects of the list the relation is held on: ill-formed names are held by nobody. */
  ghost function HeldObjects(v: Verdict, relation: string, names: seq<string>): set<string> {
    set name | name in names && Parse(name).Some? && v(relation, name)
  }

  /** The ids listed under a type are those of the well-formed names of that type, once each. */
  ghost predicate Groups(byType: map<string, seq<string>>, names: seq<string>) {
    && (forall t :: t in byType ==> t != "" && ':' !in t && byType[t] != [] && Distinct(byType[t]))
    && (forall t, id :: t in byType && id in byType[t] ==> id != "" && Name(t, id) in names)
    && (forall name :: name in names && Parse(name).Some? ==> Filed(byType, Parse(name).value))
  }

  ghost predicate Filed(byType: map<string, seq<string>>, ref: Ref) {
    ref.objectType in byType && ref.id in byType[ref.objectType]
  }

  function IdsOf(byType: map<string, seq<string>>, t: string): seq<string> {
    if t in byType then byType[t] else []
  }

  lemma FileOne(byType: map<string, seq<string>>, names: seq<string>, name: string, ref: Ref)
    requires Groups(byType, names) && Parse(name) == Some(ref) && !Filed(byType, ref)
    ensures Groups(byType[ref.objectType := IdsOf(byType, ref.objectType) + [ref.id]], names + [name])
  {
    ParseThenName(name);
    var t0 := ref.objectType;
    var filed := byType[t0 := IdsOf(byType, t0) + [ref.id]];
    assert Distinct(filed[t0]);
    forall t, id | t in filed && id in filed[t] ensures id != "" && Name(t, id) in names + [name] {
      if !(t == t0 && id == ref.id) { assert t in byType && id in byType[t]; }
    }
    forall other | other in names + [name] && Parse(other).Some? ensures Filed(filed, Parse(other).value) {
      assert other in names ==> Filed(byType, Parse(other).value);
    }
  }

  lemma FileNone(byType: map<string, seq<string>>, names: seq<string>, name: string)
    requires Groups(byType, names) && (Parse(name).Some? ==> Filed(byType, Parse(name).value))
    ensures Groups(byType, names + [name])
  {}

  /** A name seen before is filed already, and a filed name was seen before. */
  lemma FiledMeansSeen(byType: map<string, seq<string>>, names: seq<string>, name: string)
    requires Groups(byType, names) && Parse(name).Some?
    ensures name in names <==> Filed(byType, Parse(name).value)
  {
    ParseThenName(name);
  }

  method GroupByType(names: seq<string>) returns (byType: map<string, seq<string>>)
    ensures Groups(byType, names)
  {
    byType := map[];
    var seen := {};
    for i := 0 to |names|
      invariant Groups(byType, names[..i])
      invariant forall name :: name in seen <==> name in names[..i] && Parse(name).Some?
    {
      var name := names[i];
      assert names[..i + 1] == names[..i] + [name];
      var (t, id, ok) := Cut(name);
      CutAgreesWithParse(name);
      if !ok || t == "" || id == "" {
        FileNone(byType, names[..i], name);
        continue;
      }
      FiledMeansSeen(byType, names[..i], name);
      if name in seen {
        FileNone(byType, names[..i], name);
        continue;
      }
      FileOne(byType, names[..i], name, Ref(t, id));
      seen := seen + {name};
      byType := byType[t := IdsOf(byType, t) + [id]];
    }
    assert names[..|names|] == names;
  }

  /** The objects of the settled types the relation is held on. */
  ghost function HeldOf(v: Verdict, relation: string, byType: map<string, seq<string>>, types: set<string>): set<string>
    requires types <= byType.Keys
  {
    set t, id | t in types && id in byType[t] && v(relation, Name(t, id)) :: Name(t, id)
  }

  lemma HeldOfAll(v: Verdict, relation: string, byType: map<string, seq<string>>, names: seq<string>)
    requires Groups(byType, names)
    ensures HeldOf(v, relation, byType, byType.Keys) == HeldObjects(v, relation, names)
  {
    forall name | name in HeldObjects(v, relation, names)
      ensures name in HeldOf(v, relation, byType, byType.Keys)
    {
      ParseThenName(name);
      var ref := Parse(name).value;
      assert Filed(byType, ref);
      assert ref.objectType in byType.Keys && ref.id in byType[ref.objectType];
    }
    forall name | name in HeldOf(v, relation, byType, byType.Keys)
      ensures name in HeldObjects(v, relation, names)
    {
      var t, id :| t in byType.Keys && id in byType[t] && v(relation, Name(t, id)) && name == Name(t, id);
      NameThenParse(t, id);
    }
  }

  /** A request of this call: up to fifty objects, all well-formed, all of one type, all from the list. */
  ghost predicate GoodBatch(objects: seq<string>, names: seq<string>) {
    && 0 < |objects| <= 50
    && DecisionDoor.SingleTyped(objects)
    && forall k :: 0 <= k < |objects| ==> objects[k] in names
  }

  lemma BatchIsGood(objects: seq<string>, t: string, byType: map<string, seq<string>>, names: seq<string>)
    requires Groups(byType, names) && t in byType && BatchOf(objects, t, byType[t])
    ensures GoodBatch(objects, names)
  {
    forall k | 0 <= k < |objects|
      ensures Parse(objects[k]).Some? && Parse(objects[k]).value.objectType == t && objects[k] in names
    {
      assert NamesOneOf(objects[k], t, byType[t]);
      var i :| 0 <= i < |byType[t]| && objects[k] == Name(t, byType[t][i]);
      assert byType[t][i] in byType[t];
      NameThenParse(t, byType[t][i]);
    }
    assert DecisionDoor.AllOf(objects, t);
  }

  lemma HeldOfOneMore(v: Verdict, relation: string, byType: map<string, seq<string>>, done: set<string>, t: string)
    requires done <= byType.Keys && t in byType
    ensures HeldOf(v, relation, byType, done + {t}) ==
            HeldOf(v, relation, byType, done) + (set id | id in Granted(v, relation, t, byType[t]) :: Name(t, id))
  {
    var a, b := HeldOf(v, relation, byType, done + {t}), HeldOf(v, relation, byType, done);
    var c := set id | id in Granted(v, relation, t, byType[t]) :: Name(t, id);
    forall name | name in a ensures name in b + c {
      var u, id :| u in done + {t} && id in byType[u] && v(relation, Name(u, id)) && name == Name(u, id);
      if u == t { assert id in Granted(v, relation, t, byType[t]); }
    }
    forall name | name in c ensures name in a {
      var id :| id in Granted(v, relation, t, byType[t]) && name == Name(t, id);
      assert t in done + {t} && id in byType[t];
    }
  }

  /** Requests that the listed types cost: so many per type, whatever the mix. */
  ghost function TypeRequests(byType: map<string, seq<string>>, types: seq<string>): nat
    requires forall t :: t in types ==> t in byType
  {
    if types == [] then 0
    else TypeRequests(byType, types[..|types| - 1]) + Requests(|byType[types[|types| - 1]]|)
  }

  /** The types asked so far, in name order, before all those left. */
  ghost predicate AskedInOrder(order: seq<string>, all: set<string>, left: set<string>) {
    && (forall t :: t in order <==> t in all - left)
    && (forall i, t :: 0 <= i < |order| && t in left ==> Text.Precedes(order[i], t))
    && (forall i, j :: 0 <= i < j < |order| ==> order[i] != order[j] && Text.Precedes(order[i], order[j]))
  }

  lemma AskNext(order: seq<string>, all: set<string>, left: set<string>, t: string)
    requires left <= all && AskedInOrder(order, all, left) && Text.IsFirst(t, left)
    ensures AskedInOrder(order + [t], all, left - {t})
  {
    assert forall i :: 0 <= i < |order| ==> order[i] in order;
  }

  /** Every id filed under one of the types was decided about. */
  ghost predicate TypesDecided(store: Store, relation: string, byType: map<string, seq<string>>, types: set<string>)
    requires types <= byType.Keys
  {
    forall t, id :: t in types && id in byType[t] ==> Decided(store, relation, Name(t, id))
  }

  /** Calls of this question: good batches, each replied to by the store or broken off. */
  ghost predicate HeldCalls(store: Store, relation: string, calls: seq<Call>, names: seq<string>) {
    forall i :: 0 <= i < |calls| ==> GoodBatch(calls[i].objects, names) && FromStore(store, relation, calls[i])
  }

  /** Where the rounds stand with some types left. */
  ghost predicate InTypes(store: Store, relation: string, byType: map<string, seq<string>>, names: seq<string>,
                          left: set<string>, order: seq<string>, out: set<string>, expired: bool, traffic: Traffic)
  {
    && left <= byType.Keys && AskedInOrder(order, byType.Keys, left)
    && !SomeFailed(traffic.calls) && HeldCalls(store, relation, traffic.calls, names)
    && traffic.peak <= BATCH_PARALLELISM
    && (!expired ==>
          && out == HeldOf(store.verdict, relation, byType, byType.Keys - left)
          && TypesDecided(store, relation, byType, byType.Keys - left)
          && |traffic.calls| == TypeRequests(byType, order))
  }

  lemma MoreHeldCalls(store: Store, relation: string, t: string, byType: map<string, seq<string>>, names: seq<string>,
                      a: seq<Call>, b: seq<Call>)
    requires Groups(byType, names) && t in byType && HeldCalls(store, relation, a, names)
    requires forall i :: 0 <= i < |b| ==> BatchOf(b[i].objects, t, byType[t]) && FromStore(store, relation, b[i])
    ensures HeldCalls(store, relation, a + b, names)
  {
    forall i | 0 <= i < |b| ensures GoodBatch(b[i].objects, names) {
      BatchIsGood(b[i].objects, t, byType, names);
    }
  }

  lemma OneMoreType(store: Store, relation: string, byType: map<string, seq<string>>, left: set<string>, t: string)
    requires t in left && left <= byType.Keys
    requires TypesDecided(store, relation, byType, byType.Keys - left)
    requires forall id :: id in byType[t] ==> Decided(store, relation, Name(t, id))
    ensures HeldOf(store.verdict, relation, byType, byType.Keys - (left - {t})) ==
            HeldOf(store.verdict, relation, byType, byType.Keys - left) +
            (set id | id in Granted(store.verdict, relation, t, byType[t]) :: Name(t, id))
    ensures TypesDecided(store, relation, byType, byType.Keys - (left - {t}))
  {
    assert byType.Keys - (left - {t}) == (byType.Keys - left) + {t};
    HeldOfOneMore(store.verdict, relation, byType, byType.Keys - left, t);
  }

  /** The round of one type, on top of what went before. */
  method AskType(store: Store, relation: string, byType: map<string, seq<string>>, ghost names: seq<string>, t: string,
                 ghost left: set<string>, order: seq<string>, out: set<string>, expired: bool, traffic: Traffic)
    returns (r: Result<set<string>, Failure>, expired': bool, traffic': Traffic)
    requires Reliable(store) && Groups(byType, names) && Text.IsFirst(t, left)
    requires InTypes(store, relation, byType, names, left, order, out, expired, traffic)
    ensures expired ==> expired'
    ensures r.Ok? ==> InTypes(store, relation, byType, names, left - {t}, order + [t], r.value, expired', traffic')
    ensures r.Err? ==> FailedWith(traffic'.calls, r.error) && (r.error.ContextDone? ==> expired')
    ensures r.Ok? <==> !SomeFailed(traffic'.calls)
    ensures HeldCalls(store, relation, traffic'.calls, names) && traffic'.peak <= BATCH_PARALLELISM
  {
    var round, held, more;
    round, held, expired', more := BatchRelationRound(store, t, relation, byType[t], {}, expired);
    CallsAppend(traffic.calls, more.calls);
    MoreHeldCalls(store, relation, t, byType, names, traffic.calls, more.calls);
    traffic' := traffic.Then(more);
    if round.Err? {
      return Err(round.error), expired', traffic';
    }
    AskNext(order, byType.Keys, left, t);
    assert (order + [t])[..|order|] == order;
    if !expired' {
      OneMoreType(store, relation, byType, left, t);
    }
    r := Ok(out + (set id | id in held :: Name(t, id)));
  }

  /** One type after another, in name order, until a round fails. */
  method AskTypes(store: Store, relation: string, byType: map<string, seq<string>>, ghost names: seq<string>,
                  expired: bool)
    returns (r: Result<set<string>, Failure>, expired': bool, traffic: Traffic, order: seq<string>)
    requires Reliable(store) && Groups(byType, names)
    ensures expired ==> expired'
    ensures r.Err? <==> SomeFailed(traffic.calls)
    ensures r.Err? ==> FailedWith(traffic.calls, r.error) && (r.error.ContextDone? ==> expired')
    ensures HeldCalls(store, relation, traffic.calls, names) && traffic.peak <= BATCH_PARALLELISM
    ensures r.Ok? ==> AskedInOrder(order, byType.Keys, {})
    ensures r.Ok? && !expired' ==>
              && r.value == HeldOf(store.verdict, relation, byType, byType.Keys)
              && TypesDecided(store, relation, byType, byType.Keys)
              && (forall t :: t in order ==> t in byType) && |traffic.calls| == TypeRequests(byType, order)
  {
    expired', traffic, order := expired, NO_TRAFFIC, [];
    var out, left := {}, byType.Keys;
    while left != {}
      invariant expired ==> expired'
      invariant InTypes(store, relation, byType, names, left, order, out, expired', traffic)
      decreases left
    {
      ghost var first := Text.HasFirst(left);
      var t :| t in left && Text.IsFirst(t, left);
      var held;
      held, expired', traffic := AskType(store, relation, byType, names, t, left, order, out, expired', traffic);
      if held.Err? {
        return Err(held.error), expired', traffic, order;
      }
      out, left, order := held.value, left - {t}, order + [t];
    }
    assert byType.Keys - left == byType.Keys;
    r := Ok(out);
  }

  /** Every well-formed object of the list was decided about. */
  ghost predicate AllNamesDecided(store: Store, relation: string, names: seq<string>) {
    forall name :: name in names && Parse(name).Some? ==> Decided(store, relation, name)
  }

  /** The list gives nothing to ask about, or there is nobody to ask for. */
  ghost predicate NothingToAsk(checker: Option<Store>, subject: string, relation: string, names: seq<string>) {
    checker.None? || subject == "" || relation == "" || names == []
  }

  /**
    The objects the subject holds the relation on. Either every well-formed object was asked
    about and the answer is exactly the objects held, or an error is returned.
  */
  method HeldOn(checker: Option<Store>, subject: string, relation: string, names: seq<string>, expired: bool)
    returns (r: Result<set<string>, PageError>, expired': bool, traffic: Traffic,
             byType: map<string, seq<string>>, order: seq<string>)
    requires checker.Some? ==> Reliable(checker.value)
    ensures expired ==> expired'
    ensures NothingToAsk(checker, subject, relation, names) ==> r == Ok({}) && traffic == NO_TRAFFIC
    ensures !NothingToAsk(checker, subject, relation, names) ==>
              && (r.Ok? <==> !SomeFailed(traffic.calls) && !expired')
              && (r.Ok? ==> r.value == HeldObjects(checker.value.verdict, relation, names))
              && (r.Ok? ==> AllNamesDecided(checker.value, relation, names))
              && (r.Err? && r.error.StoreFailed? ==>
                    FailedWith(traffic.calls, r.error.cause) && (r.error.cause.ContextDone? ==> expired'))
              && (r.Err? && r.error.ContextExpired? ==> !SomeFailed(traffic.calls) && expired')
              && Groups(byType, names)
              && (r.Ok? ==> AskedInOrder(order, byType.Keys, {}))
              && (r.Ok? ==> (forall t :: t in order ==> t in byType) && |traffic.calls| == TypeRequests(byType, order))
              && HeldCalls(checker.value, relation, traffic.calls, names) && traffic.peak <= 8
  {
    expired', traffic, order, byType := expired, NO_TRAFFIC, [], map[];
    if checker.None? || subject == "" || relation == "" || |names| == 0 {
      return Ok({}), expired', traffic, byType, order;
    }
    byType := GroupByType(names);
    var held;
    held, expired', traffic, order := AskTypes(checker.value, relation, byType, names, expired);
    if held.Err? {
      return Err(StoreFailed(held.error)), expired', traffic, byType, order;
    }
    if * {
      expired' := true;
    }
    if expired' {
      return Err(ContextExpired), expired', traffic, byType, order;
    }
    HeldOfAll(checker.value.verdict, relation, byType, names);
    forall name | name in names && Parse(name).Some? ensures Decided(checker.value, relation, name) {
      ParseThenName(name);
      assert Filed(byType, Parse(name).value);
    }
    r := Ok(held.value);
  }
}
