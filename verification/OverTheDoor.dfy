/**
  Page questions put to the decision door. The store behind them is the door itself: a batch
  comes back with the door's own answer about it, unless its context broke the call off.
*/
module OverTheDoor {
  import opened Outcomes
  import opened ObjectRef
  import opened WorkerPool
  import opened Visibility
  import opened HeldOn
  import DecisionDoor
  import Text

  type Client = Option<DecisionDoor.Form>

  /** What a single check allows. */
  function DoorVerdict(client: Client, subject: string): Verdict {
    (relation, name) => DecisionDoor.Check(client, subject, relation, name) == Ok(true)
  }

  function Reason(e: DecisionDoor.DoorError): string {
    match e
    case FormNotWired => "form not wired"
    case Unparsable(_) => "not an object name"
    case MixedTypes(_, _) => "two object types in one batch"
    case NotAdmittable(_) => "admission unknown"
    case FormFailed(_) => "form failed"
    case TooManyPages => "too many pages"
  }

  /** The door's answer about a batch, as the caller of the batch sees it. */
  function DoorReply(client: Client, subject: string, relation: string, names: seq<string>): Reply {
    match DecisionDoor.BatchAnswer(client, subject, relation, names)
    case Ok(vs) => Verdicts(vs)
    case Err(e) => Refusal(Reason(e))
  }

  function DoorStore(client: Client, subject: string): Store {
    Store(DoorVerdict(client, subject),
          (relation: string, names: seq<string>, reply: Reply) => reply == DoorReply(client, subject, relation, names))
  }

  ghost predicate CoherentClient(client: Client) {
    client.Some? ==> DecisionDoor.Coherent(client.value)
  }

  /**
    A batch the door answers with one verdict per object says of each what a single check says,
    and no single check of it fails.
  */
  lemma DoorIsHonest(client: Client, subject: string, relation: string, names: seq<string>)
    requires CoherentClient(client)
    ensures var reply := DoorReply(client, subject, relation, names);
            Honest(VerdictsOn(DoorVerdict(client, subject), relation, names), reply)
    ensures FailureOf(DoorReply(client, subject, relation, names), |names|).None? ==>
              forall name :: name in names ==> DecisionDoor.Check(client, subject, relation, name).Ok?
  {
    if DecisionDoor.BatchAnswer(client, subject, relation, names).Ok? {
      DecisionDoor.BatchAgreesWithCheck(client, subject, relation, names);
    }
  }

  lemma DoorIsReliable(client: Client, subject: string)
    requires CoherentClient(client)
    ensures Reliable(DoorStore(client, subject))
  {
    var store := DoorStore(client, subject);
    forall relation, names, reply ensures Truthfully(store, relation, names, reply) {
      DoorIsHonest(client, subject, relation, names);
    }
    forall relation, names ensures Replies(store, relation, names) {
      assert store.answers(relation, names, DoorReply(client, subject, relation, names));
    }
  }

  /** What was decided over the door is what a single check decides, and the check does not fail. */
  lemma DecidedMeansChecked(client: Client, subject: string, relation: string, name: string)
    requires CoherentClient(client) && Decided(DoorStore(client, subject), relation, name)
    ensures DecisionDoor.Check(client, subject, relation, name).Ok?
  {
    var names, reply :| DecidedBy(DoorStore(client, subject), relation, name, names, reply);
    DoorIsHonest(client, subject, relation, names);
  }

  /** No request about one type of well-formed objects can meet the door's parse or mixed-type refusal. */
  lemma DoorAcceptsGoodBatches(client: Client, subject: string, relation: string, objects: seq<string>,
                               names: seq<string>)
    requires GoodBatch(objects, names)
    ensures var answer := DecisionDoor.BatchAnswer(client, subject, relation, objects);
            answer.Err? ==> !answer.error.Unparsable? && !answer.error.MixedTypes?
  {
    DecisionDoor.ParseBatchExact(objects);
  }

  /** The door was asked about exactly these objects, and this is its answer. */
  ghost predicate IsDoorAnswer(client: Client, subject: string, relation: string, call: Call) {
    match DecisionDoor.BatchAnswer(client, subject, relation, call.objects)
    case Ok(vs) => call.reply == Verdicts(vs)
    case Err(_) => call.reply.Refusal?
  }

  /** The door's answer about the batch is an error, or not one verdict for each object. */
  ghost predicate Refusing(client: Client, subject: string, relation: string, objects: seq<string>) {
    var answer := DecisionDoor.BatchAnswer(client, subject, relation, objects);
    answer.Err? || |answer.value| != |objects|
  }

  /** A reply of the door's store is the door's answer, and fails exactly when the door refuses. */
  lemma StoreAnswersAsDoor(client: Client, subject: string, relation: string, call: Call)
    requires FromStore(DoorStore(client, subject), relation, call) && !call.reply.Interrupted?
    ensures IsDoorAnswer(client, subject, relation, call)
    ensures Failed(call) <==> Refusing(client, subject, relation, call.objects)
  {
    assert call.reply == DoorReply(client, subject, relation, call.objects);
  }

  /** The door itself turned the batch down, for no fault of the batch. */
  ghost predicate TurnedDown(client: Client, subject: string, relation: string, call: Call) {
    var answer := DecisionDoor.BatchAnswer(client, subject, relation, call.objects);
    && IsDoorAnswer(client, subject, relation, call) && Refusing(client, subject, relation, call.objects)
    && (answer.Err? ==> !answer.error.Unparsable? && !answer.error.MixedTypes?)
  }

  /** The calls went to the door about good batches, and came back with its answers or broken off. */
  ghost predicate DoorCalls(client: Client, subject: string, relation: string, calls: seq<Call>, names: seq<string>) {
    forall i :: 0 <= i < |calls| ==>
      && GoodBatch(calls[i].objects, names)
      && (IsDoorAnswer(client, subject, relation, calls[i]) || calls[i].reply.Interrupted?)
  }

  ghost predicate SomeTurnedDown(client: Client, subject: string, relation: string, calls: seq<Call>) {
    exists i :: 0 <= i < |calls| && TurnedDown(client, subject, relation, calls[i])
  }

  lemma FailureIsTheDoors(client: Client, subject: string, relation: string, calls: seq<Call>, names: seq<string>,
                          e: Failure)
    requires DoorCalls(client, subject, relation, calls, names) && FailedWith(calls, e) && !e.ContextDone?
    ensures SomeTurnedDown(client, subject, relation, calls)
  {
    var i :| 0 <= i < |calls| && FailureOf(calls[i].reply, |calls[i].objects|) == Some(e);
    DoorAcceptsGoodBatches(client, subject, relation, calls[i].objects, names);
    assert TurnedDown(client, subject, relation, calls[i]);
  }

  /**
    Over the door: an answer is exactly the objects a separate check allows, and no check of a
    well-formed object of the list failed on the way. There is an answer exactly when the context
    is not done and the door turned no batch down; what it can turn a batch down for is never the
    batch's own shape.
  */
  method HeldOnDoor(client: Client, subject: string, relation: string, names: seq<string>, expired: bool)
    returns (r: Result<set<string>, PageError>, expired': bool, calls: seq<Call>)
    requires CoherentClient(client)
    ensures expired ==> expired'
    ensures subject == "" || relation == "" || names == [] ==> r == Ok({}) && calls == []
    ensures subject != "" && relation != "" && names != [] ==>
              && DoorCalls(client, subject, relation, calls, names)
              && (r.Ok? <==> !expired' && !SomeTurnedDown(client, subject, relation, calls))
    ensures r.Ok? && subject != "" && relation != "" ==>
              r.value == set name | name in names && Parse(name).Some? &&
                                    DecisionDoor.Check(client, subject, relation, name) == Ok(true)
    ensures r.Ok? && subject != "" && relation != "" ==>
              forall name :: name in names && Parse(name).Some? ==>
                DecisionDoor.Check(client, subject, relation, name).Ok?
  {
    DoorIsReliable(client, subject);
    var store := DoorStore(client, subject);
    var traffic, byType, order;
    r, expired', traffic, byType, order := HeldOn.HeldOn(Some(store), subject, relation, names, expired);
    calls := traffic.calls;
    if subject != "" && relation != "" && names != [] {
      forall i | 0 <= i < |calls| && !calls[i].reply.Interrupted?
        ensures IsDoorAnswer(client, subject, relation, calls[i])
      {
        assert FromStore(store, relation, calls[i]);
        StoreAnswersAsDoor(client, subject, relation, calls[i]);
      }
      if r.Ok? {
        forall name | name in names && Parse(name).Some?
          ensures DecisionDoor.Check(client, subject, relation, name).Ok?
        {
          DecidedMeansChecked(client, subject, relation, name);
        }
      } else if !expired' {
        FailureIsTheDoors(client, subject, relation, calls, names, r.error.cause);
      }
    }
  }

  /** A separate check allows the row: a role by either of two relations, anything else by one. */
  ghost predicate CheckAllows(client: Client, subject: string, objectType: string, id: string) {
    var name := objectType + ":" + id;
    if objectType == "iam_role" then
      || DecisionDoor.Check(client, subject, "viewer", name) == Ok(true)
      || DecisionDoor.Check(client, subject, "v_list", name) == Ok(true)
    else DecisionDoor.Check(client, subject, "v_get", name) == Ok(true)
  }

  /** The page is refused for the shape of its names. */
  ghost predicate RefusedForShape(client: Client, subject: string, relation: string, objects: seq<string>) {
    var answer := DecisionDoor.BatchAnswer(client, subject, relation, objects);
    answer.Err? && (answer.error.Unparsable? || answer.error.MixedTypes?)
  }

  /** Where the names of a page are split: at the first colon of the type, if it has one, else after it. */
  lemma NamesSplitAlike(objectType: string, id: string)
    requires objectType != "" && id != ""
    ensures var ref := Parse(Name(objectType, id));
            if objectType[0] == ':' then ref.None?
            else
              var i := Text.IndexOf(objectType, ':');
              ref.Some? && ref.value.objectType == if i < 0 then objectType else objectType[..i]
  {
    var name := Name(objectType, id);
    var i, j := Text.IndexOf(objectType, ':'), Text.IndexOf(name, ':');
    assert name[|objectType|] == ':' && (forall k :: 0 <= k < |objectType| ==> name[k] == objectType[k]);
    assert ':' in name;
    if i < 0 {
      assert forall k :: 0 <= k < |objectType| ==> objectType[k] in objectType;
      assert j == |objectType| && name[..j] == objectType;
    } else {
      assert j == i && name[..j] == objectType[..i];
    }
  }

  lemma IdInBatch(objects: seq<string>, objectType: string, ids: seq<string>, k: nat) returns (id: string)
    requires BatchOf(objects, objectType, ids) && k < |objects| && forall id :: id in ids ==> id != ""
    ensures id != "" && objects[k] == Name(objectType, id)
  {
    assert NamesOneOf(objects[k], objectType, ids);
    var i :| 0 <= i < |ids| && objects[k] == Name(objectType, ids[i]);
    id := ids[i];
    assert id in ids;
  }

  lemma ColonFirst(objects: seq<string>, objectType: string, ids: seq<string>)
    requires BatchOf(objects, objectType, ids) && objectType != "" && forall id :: id in ids ==> id != ""
    requires objectType[0] == ':'
    ensures DecisionDoor.ParseBatch(objects) == Err(DecisionDoor.Unparsable(objects[0]))
  {
    var id := IdInBatch(objects, objectType, ids, 0);
    NamesSplitAlike(objectType, id);
    assert objects[..1] == [objects[0]];
    OneNameParses(objects[0]);
    DecisionDoor.ParseBatchStops(objects, 1);
  }

  lemma ColonLater(objects: seq<string>, objectType: string, ids: seq<string>)
    requires BatchOf(objects, objectType, ids) && objectType != "" && forall id :: id in ids ==> id != ""
    requires objectType[0] != ':'
    ensures DecisionDoor.ParseBatch(objects).Ok?
  {
    var i := Text.IndexOf(objectType, ':');
    var t := if i < 0 then objectType else objectType[..i];
    forall k | 0 <= k < |objects| ensures Parse(objects[k]).Some? && Parse(objects[k]).value.objectType == t {
      var id := IdInBatch(objects, objectType, ids, k);
      NamesSplitAlike(objectType, id);
    }
    assert DecisionDoor.AllOf(objects, t);
    DecisionDoor.ParseBatchExact(objects);
  }

  /**
    A batch of a page is refused for the shape of its names exactly when the type starts with a
    colon, which makes every name unusable; the door has to be wired to get that far.
  */
  lemma ShapeRefusalExactly(client: Client, subject: string, relation: string, objects: seq<string>,
                            objectType: string, ids: seq<string>)
    requires BatchOf(objects, objectType, ids) && objectType != "" && forall id :: id in ids ==> id != ""
    ensures RefusedForShape(client, subject, relation, objects) <==> client.Some? && objectType[0] == ':'
  {
    if objectType[0] == ':' {
      ColonFirst(objects, objectType, ids);
    } else {
      ColonLater(objects, objectType, ids);
    }
  }

  lemma OneNameParses(name: string)
    requires Parse(name).None?
    ensures DecisionDoor.ParseBatch([name]) == Err(DecisionDoor.Unparsable(name))
  {
    assert [name][..0] == [];
  }

  /** The door itself turned the batch down under one of the type's relations. */
  ghost predicate PageTurnedDown(client: Client, subject: string, objectType: string, call: Call) {
    exists relation ::
      && relation in (if objectType == "iam_role" then ["viewer", "v_list"] else ["v_get"])
      && IsDoorAnswer(client, subject, relation, call) && Refusing(client, subject, relation, call.objects)
  }

  ghost predicate SomePageTurnedDown(client: Client, subject: string, objectType: string, calls: seq<Call>) {
    exists i :: 0 <= i < |calls| && PageTurnedDown(client, subject, objectType, calls[i])
  }

  lemma PageFailureIsTheDoors(client: Client, subject: string, objectType: string, ids: seq<string>,
                              calls: seq<Call>, e: Failure)
    requires StoreCalls(DoorStore(client, subject), objectType, ids, calls) && FailedWith(calls, e) && !e.ContextDone?
    ensures SomePageTurnedDown(client, subject, objectType, calls)
  {
    var i :| 0 <= i < |calls| && FailureOf(calls[i].reply, |calls[i].objects|) == Some(e);
    assert PageCall(DoorStore(client, subject), objectType, ids, calls[i]);
    RelationsExactly(objectType);
    var relation :| relation in RelationsFor(objectType) && FromStore(DoorStore(client, subject), relation, calls[i]);
    StoreAnswersAsDoor(client, subject, relation, calls[i]);
    assert PageTurnedDown(client, subject, objectType, calls[i]);
  }

  /** A batch the door turned down is a failed call. */
  lemma TurnedDownFails(client: Client, subject: string, objectType: string, calls: seq<Call>)
    requires SomePageTurnedDown(client, subject, objectType, calls)
    ensures SomeFailed(calls)
  {
    var i :| 0 <= i < |calls| && PageTurnedDown(client, subject, objectType, calls[i]);
    assert Failed(calls[i]);
  }

  lemma PageBatches(store: Store, objectType: string, ids: seq<string>, calls: seq<Call>)
    requires StoreCalls(store, objectType, ids, calls)
    ensures forall i :: 0 <= i < |calls| ==> BatchOf(calls[i].objects, objectType, ids)
  {
    assert forall i :: 0 <= i < |calls| ==> PageCall(store, objectType, ids, calls[i]);
  }

  /**
    A page over the door: exactly the rows some relation of the type is allowed on by a separate
    check, and no check the page asked for failed. There is an answer exactly when the context is
    not done and the door turned no batch down.
  */
  method VisibleSetDoor(client: Client, subject: string, objectType: string, ids: seq<string>, expired: bool)
    returns (r: Result<set<string>, PageError>, expired': bool, traffic: Traffic)
    requires CoherentClient(client)
    ensures expired ==> expired'
    ensures subject == "" || objectType == "" || (forall id :: id in ids ==> id == "") ==>
              r == Ok({}) && traffic == NO_TRAFFIC
    ensures subject != "" && objectType != "" && (exists id :: id in ids && id != "") ==>
              && (r.Ok? <==> !expired' && !SomePageTurnedDown(client, subject, objectType, traffic.calls))
              && forall i :: 0 <= i < |traffic.calls| ==> BatchOf(traffic.calls[i].objects, objectType, Pending(ids))
    ensures r.Ok? && subject != "" && objectType != "" ==>
              && r.value == (set id | id in ids && id != "" && CheckAllows(client, subject, objectType, id))
              && forall q :: q in traffic.asked ==> DecisionDoor.Check(client, subject, q.0, Name(objectType, q.1)).Ok?
    ensures traffic.peak <= 8
  {
    DoorIsReliable(client, subject);
    var store := DoorStore(client, subject);
    r, expired', traffic := VisibleSet(Batched(store), subject, objectType, ids, expired);
    if subject != "" && objectType != "" {
      PageBatches(store, objectType, Pending(ids), traffic.calls);
      if SomePageTurnedDown(client, subject, objectType, traffic.calls) {
        TurnedDownFails(client, subject, objectType, traffic.calls);
      }
      if r.Err? && !expired' {
        PageFailureIsTheDoors(client, subject, objectType, Pending(ids), traffic.calls, r.error.cause);
      }
      if r.Ok? {
        PageIsChecked(client, subject, objectType, ids, r.value, traffic.asked);
      }
    }
  }

  /** What the store decides about a page is what separate checks decide. */
  lemma PageIsChecked(client: Client, subject: string, objectType: string, ids: seq<string>, value: set<string>,
                      asked: multiset<Question>)
    requires CoherentClient(client) && AllDecided(DoorStore(client, subject), objectType, asked)
    requires value == ReadableIds(DoorVerdict(client, subject), objectType, ids)
    ensures value == (set id | id in ids && id != "" && CheckAllows(client, subject, objectType, id))
    ensures forall q :: q in asked ==> DecisionDoor.Check(client, subject, q.0, Name(objectType, q.1)).Ok?
  {
    assert forall id :: MayRead(DoorVerdict(client, subject), objectType, id) <==>
                        CheckAllows(client, subject, objectType, id);
    forall q | q in asked ensures DecisionDoor.Check(client, subject, q.0, Name(objectType, q.1)).Ok? {
      DecidedMeansChecked(client, subject, q.0, Name(objectType, q.1));
    }
  }
}
