/**
  Which rows of a page a subject may read. A row belongs on the page when some relation of
  its type allows it. The per-object form asks one question at a time, the batched form asks
  one relation about up to fifty objects per request.
*/
module Visibility {
  import opened Outcomes
  import opened Chunks
  import opened ObjectRef
  import opened WorkerPool
  import opened Selection

  const DEFAULT_PARALLELISM := 16
  const MAX_BATCH_CHECKS_PER_REQUEST := 50
  const BATCH_PARALLELISM := 8

  const PAGE_RELATIONS: map<string, seq<string>> := map[
    "" := ["v_get"],
    "account" := ["v_get"],
    "project" := ["v_get"],
    "iam_user" := ["v_get"],
    "iam_group" := ["v_get"],
    "iam_service_account" := ["v_get"],
    "iam_access_binding" := ["v_get"],
    "iam_role" := ["viewer", "v_list"]
  ]

  function RelationsFor(objectType: string): seq<string> {
    if objectType in PAGE_RELATIONS && objectType != "" then PAGE_RELATIONS[objectType] else PAGE_RELATIONS[""]
  }

  /** The relation store's verdict about one subject: relation, object name. */
  type Verdict = (string, string) -> bool

  /** What a store decides, and which replies it may give to a relation asked about some objects. */
  datatype Store = Store(verdict: Verdict, answers: (string, seq<string>, Reply) -> bool)

  datatype Checker = NoChecker | PerObject(single: Verdict) | Batched(store: Store) {
    function Decides(): Verdict
      requires !NoChecker?
    {
      if PerObject? then single else store.verdict
    }
  }

  /** The verdicts about the named objects, in order. */
  function VerdictsOn(v: Verdict, relation: string, names: seq<string>): (vs: seq<bool>)
    ensures |vs| == |names| && forall i :: 0 <= i < |names| ==> vs[i] == v(relation, names[i])
  {
    seq(|names|, i requires 0 <= i < |names| => v(relation, names[i]))
  }

  ghost predicate Replies(store: Store, relation: string, names: seq<string>) {
    exists reply :: store.answers(relation, names, reply) && !reply.Interrupted?
  }

  /** A reply the store may give is what it decides, if it is of the right length. */
  ghost predicate Truthfully(store: Store, relation: string, names: seq<string>, reply: Reply) {
    store.answers(relation, names, reply) ==> Honest(VerdictsOn(store.verdict, relation, names), reply)
  }

  /** The store comes back with something, and what it says at the right length is what it decides. */
  ghost predicate Reliable(store: Store) {
    && (forall relation, names, reply :: Truthfully(store, relation, names, reply))
    && (forall relation, names :: Replies(store, relation, names))
  }

  datatype PageError = StoreFailed(cause: Failure) | ContextExpired

  /** One call made to the store: the objects it was about and what it returned. */
  datatype Call = Call(objects: seq<string>, reply: Reply)

  /** What a page cost: the questions put, the calls made, the most calls open at once. */
  datatype Traffic = Traffic(asked: multiset<Question>, calls: seq<Call>, peak: nat) {
    function Then(more: Traffic): Traffic {
      Traffic(asked + more.asked, calls + more.calls, Max(peak, more.peak))
    }
  }

  const NO_TRAFFIC := Traffic(multiset{}, [], 0)

  predicate Failed(call: Call) {
    FailureOf(call.reply, |call.objects|).Some?
  }

  /** A call fails exactly when it brings no verdicts, or not one for each object. */
  lemma FailedExactly(call: Call)
    ensures Failed(call) <==> !(call.reply.Verdicts? && |call.reply.vs| == |call.objects|)
  {}

  ghost predicate SomeFailed(calls: seq<Call>) {
    exists i :: 0 <= i < |calls| && Failed(calls[i])
  }

  /** e is a failure one of the calls returned. */
  ghost predicate FailedWith(calls: seq<Call>, e: Failure) {
    exists i :: 0 <= i < |calls| && FailureOf(calls[i].reply, |calls[i].objects|) == Some(e)
  }

  // ---------------------------------------------------------------------------------------
  // What a page is, independently of how it is asked for
  // ---------------------------------------------------------------------------------------

  predicate Allowed(v: Verdict, rels: seq<string>, objectType: string, id: string) {
    exists j :: 0 <= j < |rels| && v(rels[j], Name(objectType, id))
  }

  ghost function VisibleIds(v: Verdict, rels: seq<string>, objectType: string, ids: seq<string>): set<string> {
    set id | id in ids && id != "" && Allowed(v, rels, objectType, id)
  }

  /** The identifiers one relation does not allow, in input order. */
  function DeniedIds(v: Verdict, relation: string, objectType: string, ids: seq<string>): seq<string> {
    if ids == [] then []
    else
      var rest := DeniedIds(v, relation, objectType, ids[..|ids| - 1]);
      var id := ids[|ids| - 1];
      if v(relation, Name(objectType, id)) then rest else rest + [id]
  }

  ghost function Granted(v: Verdict, relation: string, objectType: string, ids: seq<string>): set<string> {
    set id | id in ids && v(relation, Name(objectType, id))
  }

  function Pair(relation: string, ids: seq<string>): (qs: seq<Question>)
    ensures |qs| == |ids| && forall i :: 0 <= i < |ids| ==> qs[i] == (relation, ids[i])
  {
    seq(|ids|, i requires 0 <= i < |ids| => (relation, ids[i]))
  }

  /** The questions about one object: relation after relation until one allows it. */
  function Questions(v: Verdict, rels: seq<string>, objectType: string, id: string): seq<Question> {
    if rels == [] then []
    else if v(rels[0], Name(objectType, id)) then [(rels[0], id)]
    else [(rels[0], id)] + Questions(v, rels[1..], objectType, id)
  }

  /** The questions about a page: each relation asked of what the earlier ones refused. */
  ghost function PageQuestions(v: Verdict, rels: seq<string>, objectType: string,
                               ids: seq<string>): multiset<Question> {
    if rels == [] then multiset{}
    else multiset(Pair(rels[0], ids)) + PageQuestions(v, rels[1..], objectType, DeniedIds(v, rels[0], objectType, ids))
  }

  /** Batched requests for n objects: as many as it takes at fifty each, and no more. */
  lemma RequestsExactly(n: nat)
    ensures 50 * Requests(n) >= n && (n > 0 ==> 50 * (Requests(n) - 1) < n) && Requests(0) == 0
  {}

  function Requests(n: nat): nat { (n + MAX_BATCH_CHECKS_PER_REQUEST - 1) / MAX_BATCH_CHECKS_PER_REQUEST }

  /** How many batched requests a page costs. */
  ghost function PageRequests(v: Verdict, rels: seq<string>, objectType: string, ids: seq<string>): nat {
    if rels == [] then 0
    else Requests(|ids|) + PageRequests(v, rels[1..], objectType, DeniedIds(v, rels[0], objectType, ids))
  }

  /** The positions of a page one relation refuses. */
  ghost function RefusedAt(v: Verdict, relation: string, objectType: string, ids: seq<string>): nat -> bool {
    (i: nat) => i < |ids| && !v(relation, objectType + ":" + ids[i])
  }

  ghost function DeniedPasses(v: Verdict, relation: string, objectType: string, ids: seq<string>)
    : (outs: seq<seq<string>>)
    ensures |outs| == |ids| + 1
    ensures forall i :: 0 <= i <= |ids| ==> outs[i] == DeniedIds(v, relation, objectType, ids[..i])
  {
    seq(|ids| + 1, i requires 0 <= i <= |ids| => DeniedIds(v, relation, objectType, ids[..i]))
  }

  /** The denied ids are the refused ones of the page, all of them and in its order. */
  lemma DeniedPicks(v: Verdict, relation: string, objectType: string, ids: seq<string>)
    ensures Picks(DeniedIds(v, relation, objectType, ids), ids, RefusedAt(v, relation, objectType, ids))
  {
    var outs, kept := DeniedPasses(v, relation, objectType, ids), RefusedAt(v, relation, objectType, ids);
    forall i: nat | i < |ids| ensures AppendsAt(outs, ids, kept, i) {
      assert ids[..i + 1][..i] == ids[..i];
    }
    WholePassPicks(outs, ids, kept);
    assert ids[..|ids|] == ids;
  }

  lemma {:induction false} DeniedSound(v: Verdict, relation: string, objectType: string, ids: seq<string>)
    ensures forall id :: id in DeniedIds(v, relation, objectType, ids) <==>
            id in ids && !v(relation, Name(objectType, id))
    ensures |DeniedIds(v, relation, objectType, ids)| <= |ids|
  {
    if ids != [] {
      DeniedSound(v, relation, objectType, ids[..|ids| - 1]);
      assert ids == ids[..|ids| - 1] + [ids[|ids| - 1]];
    }
  }

  /** Adding one object to a page adds exactly the questions about that object. */
  lemma {:induction false} PageQuestionsCons(v: Verdict, rels: seq<string>, objectType: string, ids: seq<string>,
                                             id: string)
    ensures PageQuestions(v, rels, objectType, ids + [id]) ==
            PageQuestions(v, rels, objectType, ids) + multiset(Questions(v, rels, objectType, id))
    decreases |rels|
  {
    if rels != [] {
      var rest := DeniedIds(v, rels[0], objectType, ids);
      assert (ids + [id])[..|ids + [id]| - 1] == ids;
      assert Pair(rels[0], ids + [id]) == Pair(rels[0], ids) + [(rels[0], id)];
      if !v(rels[0], Name(objectType, id)) {
        PageQuestionsCons(v, rels[1..], objectType, rest, id);
      }
    }
  }

  lemma NoQuestions(v: Verdict, rels: seq<string>, objectType: string)
    ensures PageQuestions(v, rels, objectType, []) == multiset{}
    decreases |rels|
  {
    if rels != [] {
      NoQuestions(v, rels[1..], objectType);
    }
  }

  function QuestionChunks(v: Verdict, rels: seq<string>, objectType: string,
                          ids: seq<string>): (chunks: seq<multiset<Question>>)
    ensures |chunks| == |ids|
    ensures forall i :: 0 <= i < |ids| ==> chunks[i] == multiset(Questions(v, rels, objectType, ids[i]))
  {
    seq(|ids|, i requires 0 <= i < |ids| => multiset(Questions(v, rels, objectType, ids[i])))
  }

  /**
    The two ways of asking ask the same: object by object until a relation allows, or
    relation by relation over what is left, pose the same questions equally often.
  */
  lemma {:induction false} SameQuestions(v: Verdict, rels: seq<string>, objectType: string, ids: seq<string>, n: nat)
    requires n <= |ids|
    ensures Total(QuestionChunks(v, rels, objectType, ids), n) == PageQuestions(v, rels, objectType, ids[..n])
    decreases n
  {
    if n == 0 {
      NoQuestions(v, rels, objectType);
    } else {
      assert ids[..n] == ids[..n - 1] + [ids[n - 1]];
      SameQuestions(v, rels, objectType, ids, n - 1);
      PageQuestionsCons(v, rels, objectType, ids[..n - 1], ids[n - 1]);
    }
  }

  ghost predicate Distinct(ids: seq<string>) {
    forall i, j :: 0 <= i < j < |ids| ==> ids[i] != ids[j]
  }

  /** On a page of different objects whose relations differ, no question is posed twice. */
  lemma {:induction false} AskedAtMostOnce(v: Verdict, rels: seq<string>, objectType: string, ids: seq<string>,
                                           q: Question)
    requires Distinct(ids) && Distinct(rels)
    ensures PageQuestions(v, rels, objectType, ids)[q] ==
            if q.0 in rels && q.1 in ids && StillOpen(v, rels, objectType, q) then 1 else 0
    decreases |rels|
  {
    if rels != [] {
      var rest := DeniedIds(v, rels[0], objectType, ids);
      DeniedSound(v, rels[0], objectType, ids);
      DeniedDistinct(v, rels[0], objectType, ids);
      AskedAtMostOnce(v, rels[1..], objectType, rest, q);
      PairCount(rels[0], ids, q);
      assert rels == [rels[0]] + rels[1..];
    }
  }

  /** No relation before the question's own allows its object. */
  ghost predicate StillOpen(v: Verdict, rels: seq<string>, objectType: string, q: Question) {
    rels == [] || rels[0] == q.0 || (!v(rels[0], Name(objectType, q.1)) && StillOpen(v, rels[1..], objectType, q))
  }

  lemma {:induction false} DeniedDistinct(v: Verdict, relation: string, objectType: string, ids: seq<string>)
    requires Distinct(ids)
    ensures Distinct(DeniedIds(v, relation, objectType, ids))
    decreases |ids|
  {
    if ids != [] {
      DeniedDistinct(v, relation, objectType, ids[..|ids| - 1]);
      DeniedSound(v, relation, objectType, ids[..|ids| - 1]);
    }
  }

  lemma {:induction false} PairCount(relation: string, ids: seq<string>, q: Question)
    requires Distinct(ids)
    ensures multiset(Pair(relation, ids))[q] == if q.0 == relation && q.1 in ids then 1 else 0
    decreases |ids|
  {
    if ids != [] {
      var init := ids[..|ids| - 1];
      PairCount(relation, init, q);
      assert ids == init + [ids[|ids| - 1]];
      assert Pair(relation, ids) == Pair(relation, init) + [(relation, ids[|ids| - 1])];
    }
  }

  // ---------------------------------------------------------------------------------------
  // One relation round, batched
  // ---------------------------------------------------------------------------------------

  datatype Partition = Partition(offset: nat, ids: seq<string>)

  /** Partition p of a page of n ids: it starts after p full ones and is full unless it is the last. */
  ghost predicate PartitionOk(part: Partition, ids: seq<string>, p: nat) {
    && part.offset == p * MAX_BATCH_CHECKS_PER_REQUEST
    && part.offset < |ids|
    && part.offset + |part.ids| == (if |ids| - part.offset < MAX_BATCH_CHECKS_PER_REQUEST then |ids|
                                    else part.offset + MAX_BATCH_CHECKS_PER_REQUEST)
    && part.ids == ids[part.offset..part.offset + |part.ids|]
  }

  /** The partitions cut ids, in order, into requests of at most fifty. */
  ghost predicate Partitions(parts: seq<Partition>, ids: seq<string>) {
    && |parts| == Requests(|ids|)
    && forall p :: 0 <= p < |parts| ==> PartitionOk(parts[p], ids, p)
  }

  method Split(ids: seq<string>) returns (parts: seq<Partition>)
    ensures Partitions(parts, ids)
  {
    parts := [];
    var off := 0;
    while off < |ids|
      invariant 0 <= off && off == |parts| * MAX_BATCH_CHECKS_PER_REQUEST
      invariant off < |ids| + MAX_BATCH_CHECKS_PER_REQUEST
      invariant forall p :: 0 <= p < |parts| ==> PartitionOk(parts[p], ids, p)
    {
      var end := off + MAX_BATCH_CHECKS_PER_REQUEST;
      if end > |ids| {
        end := |ids|;
      }
      parts := parts + [Partition(off, ids[off..end])];
      off := off + MAX_BATCH_CHECKS_PER_REQUEST;
    }
  }

  function SpansOf(parts: seq<Partition>): (spans: seq<Span>)
    ensures |spans| == |parts|
    ensures forall p :: 0 <= p < |parts| ==> spans[p] == Span(parts[p].offset, parts[p].offset + |parts[p].ids|)
  {
    seq(|parts|, p requires 0 <= p < |parts| => Span(parts[p].offset, parts[p].offset + |parts[p].ids|))
  }

  lemma PartitionsTile(parts: seq<Partition>, ids: seq<string>)
    requires Partitions(parts, ids)
    ensures Tiles(SpansOf(parts), |ids|)
  {
    var spans := SpansOf(parts);
    assert forall p :: 0 <= p < |parts| ==> PartitionOk(parts[p], ids, p);
    forall k | 0 <= k < |ids| ensures Covered(spans, k) {
      var p := k / MAX_BATCH_CHECKS_PER_REQUEST;
      assert spans[p].Covers(k);
    }
  }

  function ObjectsOf(objectType: string, parts: seq<Partition>): (objects: seq<seq<string>>)
    ensures |objects| == |parts|
    ensures forall p :: 0 <= p < |parts| ==> objects[p] == Names(objectType, parts[p].ids)
  {
    seq(|parts|, p requires 0 <= p < |parts| => Names(objectType, parts[p].ids))
  }

  function QuestionsOf(relation: string, parts: seq<Partition>): (chunks: seq<multiset<Question>>)
    ensures |chunks| == |parts|
    ensures forall p :: 0 <= p < |parts| ==> chunks[p] == multiset(Pair(relation, parts[p].ids))
  {
    seq(|parts|, p requires 0 <= p < |parts| => multiset(Pair(relation, parts[p].ids)))
  }

  ghost function EndOf(parts: seq<Partition>, n: nat): nat
    requires n <= |parts|
  {
    if n == 0 then 0 else parts[n - 1].offset + |parts[n - 1].ids|
  }

  lemma PairSplit(relation: string, ids: seq<string>, from: nat, to: nat)
    requires from <= to <= |ids|
    ensures multiset(Pair(relation, ids[..to])) ==
            multiset(Pair(relation, ids[..from])) + multiset(Pair(relation, ids[from..to]))
  {
    assert Pair(relation, ids[..to]) == Pair(relation, ids[..from]) + Pair(relation, ids[from..to]);
  }

  lemma PartitionEnds(parts: seq<Partition>, ids: seq<string>, n: nat)
    requires Partitions(parts, ids) && 0 < n <= |parts|
    ensures EndOf(parts, n - 1) <= EndOf(parts, n) <= |ids|
    ensures parts[n - 1].ids == ids[EndOf(parts, n - 1)..EndOf(parts, n)]
  {
    assert PartitionOk(parts[n - 1], ids, n - 1);
    assert n > 1 ==> PartitionOk(parts[n - 2], ids, n - 2);
  }

  lemma PartitionsEnd(parts: seq<Partition>, ids: seq<string>)
    requires Partitions(parts, ids)
    ensures EndOf(parts, |parts|) == |ids|
  {
    assert parts != [] ==> PartitionOk(parts[|parts| - 1], ids, |parts| - 1);
  }

  ghost predicate Slice(chunk: multiset<Question>, relation: string, ids: seq<string>, from: nat, to: nat) {
    from <= to <= |ids| && chunk == multiset(Pair(relation, ids[from..to]))
  }

  /** Chunks that cut ids at the given ends hold, up to any of them, the questions about the ids before it. */
  lemma {:induction false} SlicesTotal(relation: string, ids: seq<string>, chunks: seq<multiset<Question>>,
                                       ends: seq<nat>, n: nat)
    requires |ends| == |chunks| + 1 && ends[0] == 0 && n <= |chunks|
    requires forall i :: 0 <= i < |chunks| ==> Slice(chunks[i], relation, ids, ends[i], ends[i + 1])
    ensures ends[n] <= |ids|
    ensures Total(chunks, n) == multiset(Pair(relation, ids[..ends[n]]))
    decreases n
  {
    if n > 0 {
      SlicesTotal(relation, ids, chunks, ends, n - 1);
      assert Slice(chunks[n - 1], relation, ids, ends[n - 1], ends[n]);
      PairSplit(relation, ids, ends[n - 1], ends[n]);
    }
  }

  ghost function Ends(parts: seq<Partition>): (ends: seq<nat>)
    ensures |ends| == |parts| + 1 && forall i :: 0 <= i <= |parts| ==> ends[i] == EndOf(parts, i)
  {
    seq(|parts| + 1, i requires 0 <= i <= |parts| => EndOf(parts, i))
  }

  lemma PartitionSlice(relation: string, parts: seq<Partition>, ids: seq<string>, i: nat)
    requires Partitions(parts, ids) && i < |parts|
    ensures Slice(QuestionsOf(relation, parts)[i], relation, ids, EndOf(parts, i), EndOf(parts, i + 1))
  {
    PartitionEnds(parts, ids, i + 1);
  }

  lemma PartitionsTotal(relation: string, parts: seq<Partition>, ids: seq<string>)
    requires Partitions(parts, ids)
    ensures Total(QuestionsOf(relation, parts), |parts|) == multiset(Pair(relation, ids))
  {
    var chunks, ends := QuestionsOf(relation, parts), Ends(parts);
    forall i | 0 <= i < |chunks| ensures Slice(chunks[i], relation, ids, ends[i], ends[i + 1]) {
      PartitionSlice(relation, parts, ids, i);
    }
    SlicesTotal(relation, ids, chunks, ends, |parts|);
    PartitionsEnd(parts, ids);
    assert ids[..|ids|] == ids;
  }

  function Order(log: seq<Exchange>): (order: seq<nat>)
    ensures |order| == |log| && forall i :: 0 <= i < |log| ==> order[i] == log[i].part
  {
    seq(|log|, i requires 0 <= i < |log| => log[i].part)
  }

  function Names(objectType: string, ids: seq<string>): (names: seq<string>)
    ensures |names| == |ids| && forall i :: 0 <= i < |ids| ==> names[i] == Name(objectType, ids[i])
  {
    seq(|ids|, i requires 0 <= i < |ids| => Name(objectType, ids[i]))
  }

  /** The objects each task of the pool is about. */
  ghost predicate NamesTasks(objects: seq<seq<string>>, c: Config)
    requires WellFormed(c)
  {
    |objects| == |c.spans| && forall p :: 0 <= p < |c.spans| ==> |objects[p]| == Length(c, p)
  }

  /** The pool's log as calls to the store. */
  function CallsOf(objects: seq<seq<string>>, log: seq<Exchange>): (calls: seq<Call>)
    requires forall i :: 0 <= i < |log| ==> log[i].part < |objects|
    ensures |calls| == |log|
    ensures forall i :: 0 <= i < |log| ==> calls[i] == Call(objects[log[i].part], log[i].reply)
  {
    seq(|log|, i requires 0 <= i < |log| => Call(objects[log[i].part], log[i].reply))
  }

  lemma CallsReport(objects: seq<seq<string>>, c: Config, s: State)
    requires WellFormed(c) && Settled(c, s) && NamesTasks(objects, c)
    ensures forall i :: 0 <= i < |s.log| ==> s.log[i].part < |objects|
    ensures SomeFailed(CallsOf(objects, s.log)) <==> s.firstErr.Some?
    ensures s.firstErr.Some? ==> FailedWith(CallsOf(objects, s.log), s.firstErr.value)
  {
    var calls := CallsOf(objects, s.log);
    if SomeFailed(calls) {
      var i :| 0 <= i < |calls| && Failed(calls[i]);
      assert Faulty(c, s.log[i]);
    }
    if s.firstErr.Some? {
      var i :| 0 <= i < |s.log| && s.log[i].part < |c.spans|
               && FailureOf(s.log[i].reply, Length(c, s.log[i].part)) == s.firstErr;
      assert FailureOf(calls[i].reply, |calls[i].objects|) == s.firstErr;
    }
  }

  lemma LogOrder(c: Config, s: State)
    requires AskedOnceEach(c, s)
    ensures OnceEach(Order(s.log), |c.spans|)
  {
    forall p: nat | p < |c.spans| ensures p in Order(s.log) {
      assert Logged(s.log, p);
      var i :| 0 <= i < |s.log| && s.log[i].part == p;
      assert Order(s.log)[i] == p;
    }
  }

  /** A page's verdicts under one relation. */
  function PageVerdicts(v: Verdict, relation: string, objectType: string, ids: seq<string>): (vs: seq<bool>)
    ensures |vs| == |ids| && forall i :: 0 <= i < |ids| ==> vs[i] == v(relation, Name(objectType, ids[i]))
  {
    seq(|ids|, i requires 0 <= i < |ids| => v(relation, Name(objectType, ids[i])))
  }

  /** The questions the carried-out tasks put. */
  function Posed(log: seq<Exchange>): multiset<Question> {
    if log == [] then multiset{} else multiset(log[0].asked) + Posed(log[1..])
  }

  /** Tasks that each put the questions of their chunk put, together, those of the chunks in log order. */
  lemma {:induction false} PosedIsGather(chunks: seq<multiset<Question>>, log: seq<Exchange>)
    requires forall i :: 0 <= i < |log| ==> log[i].part < |chunks| && multiset(log[i].asked) == chunks[log[i].part]
    ensures Posed(log) == Gather(chunks, Order(log))
    decreases |log|
  {
    if log != [] {
      PosedIsGather(chunks, log[1..]);
      assert Order(log)[1..] == Order(log[1..]);
    }
  }

  /** The pool of one round: a task sends one partition and comes back with one of the store's replies. */
  function RoundConfig(store: Store, objectType: string, relation: string, parts: seq<Partition>,
                       ids: seq<string>): Config {
    Config(
      PageVerdicts(store.verdict, relation, objectType, ids), SpansOf(parts), BATCH_PARALLELISM,
      (p: nat, reply: Reply, asked: seq<Question>) =>
        p < |parts| && asked == Pair(relation, parts[p].ids) &&
        (reply.Interrupted? || store.answers(relation, Names(objectType, parts[p].ids), reply)))
  }

  lemma RoundWellFormed(store: Store, objectType: string, relation: string, parts: seq<Partition>, ids: seq<string>)
    requires Reliable(store) && Partitions(parts, ids)
    ensures WellFormed(RoundConfig(store, objectType, relation, parts, ids))
  {
    var c := RoundConfig(store, objectType, relation, parts, ids);
    PartitionsTile(parts, ids);
    forall p: nat | p < |parts|
      ensures Truth(c, p) == VerdictsOn(store.verdict, relation, Names(objectType, parts[p].ids))
    {
      assert PartitionOk(parts[p], ids, p);
    }
    forall p: nat, reply, asked | p < |parts| && c.answers(p, reply, asked) ensures Honest(Truth(c, p), reply) {
      assert Truthfully(store, relation, Names(objectType, parts[p].ids), reply);
    }
    forall p: nat | p < |parts| ensures Responds(c, p) {
      assert Replies(store, relation, Names(objectType, parts[p].ids));
      var reply :| store.answers(relation, Names(objectType, parts[p].ids), reply) && !reply.Interrupted?;
      assert c.answers(p, reply, Pair(relation, parts[p].ids));
    }
  }

  /** A round that asked every partition once asked its relation about every id once. */
  lemma RoundAsksOnce(store: Store, objectType: string, relation: string, parts: seq<Partition>, ids: seq<string>,
                      s: State)
    requires Partitions(parts, ids) && WellFormed(RoundConfig(store, objectType, relation, parts, ids))
    requires Settled(RoundConfig(store, objectType, relation, parts, ids), s)
    requires AskedOnceEach(RoundConfig(store, objectType, relation, parts, ids), s)
    ensures Posed(s.log) == multiset(Pair(relation, ids))
    ensures |s.log| == Requests(|ids|)
  {
    var c, chunks := RoundConfig(store, objectType, relation, parts, ids), QuestionsOf(relation, parts);
    forall i | 0 <= i < |s.log|
      ensures s.log[i].part < |chunks| && multiset(s.log[i].asked) == chunks[s.log[i].part]
    {
      assert c.answers(s.log[i].part, s.log[i].reply, s.log[i].asked);
    }
    PosedIsGather(chunks, s.log);
    LogOrder(c, s);
    GatherOnce(chunks, Order(s.log), |parts|);
    PartitionsTotal(relation, parts, ids);
  }

  ghost predicate NamedIn(calls: seq<Call>, name: string) {
    exists i :: 0 <= i < |calls| && name in calls[i].objects
  }

  /** The partition that holds slot k. */
  lemma SlotHasPartition(parts: seq<Partition>, ids: seq<string>, k: nat) returns (p: nat)
    requires Partitions(parts, ids) && k < |ids|
    ensures p < |parts| && parts[p].offset <= k < parts[p].offset + |parts[p].ids|
    ensures parts[p].ids[k - parts[p].offset] == ids[k]
  {
    p := k / MAX_BATCH_CHECKS_PER_REQUEST;
    assert PartitionOk(parts[p], ids, p);
  }

  /** A round that asked every partition once named every id's object to the store. */
  lemma RoundNamesAll(objectType: string, parts: seq<Partition>, ids: seq<string>, c: Config, s: State,
                      calls: seq<Call>)
    requires Partitions(parts, ids) && |c.spans| == |parts| && AskedOnceEach(c, s)
    requires |calls| == |s.log|
    requires forall i :: 0 <= i < |calls| ==> calls[i].objects == Names(objectType, parts[s.log[i].part].ids)
    ensures forall id :: id in ids ==> NamedIn(calls, Name(objectType, id))
  {
    forall id | id in ids ensures NamedIn(calls, Name(objectType, id)) {
      var k :| 0 <= k < |ids| && ids[k] == id;
      var p := SlotHasPartition(parts, ids, k);
      assert Logged(s.log, p);
      var i :| 0 <= i < |s.log| && s.log[i].part == p;
      assert calls[i].objects[k - parts[p].offset] == Name(objectType, id);
    }
  }

  /** Sorts a page by its verdicts: the allowed ids join out, the others are returned in order. */
  method Collect(v: Verdict, objectType: string, relation: string, ids: seq<string>, slots: seq<bool>, out: set<string>)
    returns (denied: seq<string>, out': set<string>)
    requires |slots| == |ids|
    requires forall i :: 0 <= i < |ids| && slots[i] ==> v(relation, Name(objectType, ids[i]))
    ensures out <= out' <= out + Granted(v, relation, objectType, ids)
    ensures forall id :: id in denied ==> id in ids
    ensures slots == PageVerdicts(v, relation, objectType, ids) ==>
              && denied == DeniedIds(v, relation, objectType, ids)
              && out' == out + Granted(v, relation, objectType, ids)
  {
    denied, out' := [], out;
    for i := 0 to |ids|
      invariant out <= out' <= out + Granted(v, relation, objectType, ids)
      invariant forall id :: id in denied ==> id in ids
      invariant slots == PageVerdicts(v, relation, objectType, ids) ==>
                  && denied == DeniedIds(v, relation, objectType, ids[..i])
                  && out' == out + Granted(v, relation, objectType, ids[..i])
    {
      assert ids[..i + 1][..i] == ids[..i] && ids[..i + 1] == ids[..i] + [ids[i]];
      if slots[i] {
        out' := out' + {ids[i]};
      } else {
        denied := denied + [ids[i]];
      }
    }
    assert ids[..|ids|] == ids;
  }

  /** A request names between one and fifty objects of the type, all of them ids of the page. */
  ghost predicate BatchOf(objects: seq<string>, objectType: string, ids: seq<string>) {
    && 0 < |objects| <= 50
    && forall k :: 0 <= k < |objects| ==> NamesOneOf(objects[k], objectType, ids)
  }

  ghost predicate NamesOneOf(name: string, objectType: string, ids: seq<string>) {
    exists i :: 0 <= i < |ids| && name == Name(objectType, ids[i])
  }

  lemma PartitionIsBatch(part: Partition, ids: seq<string>, p: nat, objectType: string)
    requires PartitionOk(part, ids, p)
    ensures BatchOf(Names(objectType, part.ids), objectType, ids)
  {
    var objects := Names(objectType, part.ids);
    forall k | 0 <= k < |objects| ensures NamesOneOf(objects[k], objectType, ids) {
      assert objects[k] == Name(objectType, ids[part.offset + k]);
    }
  }

  /** The call was broken off by its context, or its reply is one of the store's. */
  ghost predicate FromStore(store: Store, relation: string, call: Call) {
    call.reply.Interrupted? || store.answers(relation, call.objects, call.reply)
  }

  /** Some batch about the object was answered in full. */
  ghost predicate Decided(store: Store, relation: string, name: string) {
    exists names, reply :: DecidedBy(store, relation, name, names, reply)
  }

  ghost predicate DecidedBy(store: Store, relation: string, name: string, names: seq<string>, reply: Reply) {
    name in names && store.answers(relation, names, reply) && reply.Verdicts? && |reply.vs| == |names|
  }

  lemma NamedIsDecided(store: Store, relation: string, calls: seq<Call>, name: string)
    requires !SomeFailed(calls) && NamedIn(calls, name)
    requires forall i :: 0 <= i < |calls| ==> FromStore(store, relation, calls[i])
    ensures Decided(store, relation, name)
  {
    var i :| 0 <= i < |calls| && name in calls[i].objects;
    assert !Failed(calls[i]) && FromStore(store, relation, calls[i]);
    assert DecidedBy(store, relation, name, calls[i].objects, calls[i].reply);
  }

  /** Asks one relation about every id; records the allowed ones and returns the denied ones. */
  method BatchRelationRound(store: Store, objectType: string, relation: string, ids: seq<string>,
                            out: set<string>, expired: bool)
    returns (r: Result<seq<string>, Failure>, out': set<string>, expired': bool, traffic: Traffic)
    requires Reliable(store)
    ensures expired ==> expired'
    ensures r.Err? <==> SomeFailed(traffic.calls)
    ensures r.Err? ==> out' == out && FailedWith(traffic.calls, r.error) && (r.error.ContextDone? ==> expired')
    ensures forall i :: 0 <= i < |traffic.calls| ==>
              BatchOf(traffic.calls[i].objects, objectType, ids) && FromStore(store, relation, traffic.calls[i])
    ensures traffic.peak <= BATCH_PARALLELISM
    ensures out <= out' <= out + Granted(store.verdict, relation, objectType, ids)
    ensures r.Ok? ==> forall id :: id in r.value ==> id in ids
    ensures r.Ok? && !expired' ==>
              && r.value == DeniedIds(store.verdict, relation, objectType, ids)
              && out' == out + Granted(store.verdict, relation, objectType, ids)
              && traffic.asked == multiset(Pair(relation, ids))
              && |traffic.calls| == Requests(|ids|)
              && forall id :: id in ids ==> Decided(store, relation, Name(objectType, id))
  {
    var parts := Split(ids);
    var c := RoundConfig(store, objectType, relation, parts, ids);
    RoundWellFormed(store, objectType, relation, parts, ids);
    var s := RunPool(c, expired);
    expired', out' := s.expired, out;
    traffic := RoundTraffic(store, objectType, relation, parts, ids, s);
    if s.firstErr.Some? {
      r := Err(s.firstErr.value);
      return;
    }
    var denied;
    denied, out' := Collect(store.verdict, objectType, relation, ids, s.slots, out);
    r := Ok(denied);
  }

  /** What a finished round sent. */
  method RoundTraffic(store: Store, objectType: string, relation: string, parts: seq<Partition>, ids: seq<string>,
                      s: State)
    returns (traffic: Traffic)
    requires Partitions(parts, ids) && WellFormed(RoundConfig(store, objectType, relation, parts, ids))
    requires Settled(RoundConfig(store, objectType, relation, parts, ids), s)
    ensures SomeFailed(traffic.calls) <==> s.firstErr.Some?
    ensures s.firstErr.Some? ==> FailedWith(traffic.calls, s.firstErr.value)
    ensures forall i :: 0 <= i < |traffic.calls| ==>
              BatchOf(traffic.calls[i].objects, objectType, ids) && FromStore(store, relation, traffic.calls[i])
    ensures traffic.peak <= BATCH_PARALLELISM
    ensures s.firstErr.None? && !s.expired ==>
              && traffic.asked == multiset(Pair(relation, ids))
              && |traffic.calls| == Requests(|ids|)
              && forall id :: id in ids ==> Decided(store, relation, Name(objectType, id))
  {
    ghost var c := RoundConfig(store, objectType, relation, parts, ids);
    var objects := ObjectsOf(objectType, parts);
    assert forall p :: 0 <= p < |parts| ==> PartitionOk(parts[p], ids, p);
    CallsReport(objects, c, s);
    var calls := CallsOf(objects, s.log);
    traffic := Traffic(Posed(s.log), calls, s.peak);
    forall i | 0 <= i < |calls|
      ensures BatchOf(calls[i].objects, objectType, ids) && FromStore(store, relation, calls[i])
    {
      PartitionIsBatch(parts[s.log[i].part], ids, s.log[i].part, objectType);
      assert c.answers(s.log[i].part, s.log[i].reply, s.log[i].asked);
    }
    if s.firstErr.None? && !s.expired {
      RoundAsksOnce(store, objectType, relation, parts, ids, s);
      RoundNamesAll(objectType, parts, ids, c, s, calls);
      forall id | id in ids ensures Decided(store, relation, Name(objectType, id)) {
        NamedIsDecided(store, relation, calls, Name(objectType, id));
      }
    }
  }

  // ---------------------------------------------------------------------------------------
  // The page, both ways
  // ---------------------------------------------------------------------------------------

  /** The ids of a page worth asking about: no blanks, first occurrences only, in order. */
  function Pending(ids: seq<string>): seq<string> {
    if ids == [] then []
    else
      var init, id := Pending(ids[..|ids| - 1]), ids[|ids| - 1];
      if id == "" || id in init then init else init + [id]
  }

  lemma {:induction false} PendingSound(ids: seq<string>)
    ensures Distinct(Pending(ids))
    ensures forall id :: id in Pending(ids) <==> id in ids && id != ""
  {
    if ids != [] {
      PendingSound(ids[..|ids| - 1]);
      assert ids == ids[..|ids| - 1] + [ids[|ids| - 1]];
    }
  }

  /** The positions at which an id that is not blank stands for the first time. */
  ghost function FirstAt(ids: seq<string>): nat -> bool {
    (i: nat) => i < |ids| && ids[i] != "" && ids[i] !in ids[..i]
  }

  ghost function PendingPasses(ids: seq<string>): (outs: seq<seq<string>>)
    ensures |outs| == |ids| + 1 && forall i :: 0 <= i <= |ids| ==> outs[i] == Pending(ids[..i])
  {
    seq(|ids| + 1, i requires 0 <= i <= |ids| => Pending(ids[..i]))
  }

  /** What is kept of a page are the first occurrences of its ids, in its order. */
  lemma PendingPicks(ids: seq<string>)
    ensures Picks(Pending(ids), ids, FirstAt(ids))
  {
    var outs, kept := PendingPasses(ids), FirstAt(ids);
    forall i: nat | i < |ids| ensures AppendsAt(outs, ids, kept, i) {
      assert ids[..i + 1][..i] == ids[..i];
      PendingSound(ids[..i]);
    }
    WholePassPicks(outs, ids, kept);
    assert ids[..|ids|] == ids;
  }

  method Deduplicate(ids: seq<string>) returns (pending: seq<string>)
    ensures pending == Pending(ids)
  {
    pending := [];
    var seen := {};
    for i := 0 to |ids|
      invariant pending == Pending(ids[..i])
      invariant seen == set id | id in pending
    {
      assert ids[..i + 1][..i] == ids[..i];
      if ids[i] != "" && ids[i] !in seen {
        seen := seen + {ids[i]};
        pending := pending + [ids[i]];
      }
    }
    assert ids[..|ids|] == ids;
  }

  /** One per-object question: the store answers truly, refuses, or is broken off by a context that is done. */
  method CheckOnce(v: Verdict, relation: string, name: string, done: bool) returns (r: Result<bool, Failure>)
    ensures r.Ok? ==> r.value == v(relation, name)
    ensures r.Err? ==> !r.error.Misaligned? && (r.error.ContextDone? ==> done)
  {
    if * {
      r := Ok(v(relation, name));
    } else if done {
      r := Err(ContextDone);
    } else {
      r := Err(Refused("relation store unavailable"));
    }
  }

  ghost predicate Degraded(checker: Checker, subject: string, objectType: string) {
    checker.NoChecker? || subject == "" || objectType == ""
  }

  /** The outcome of asking about one object, as a reply about one object. */
  function ReplyOf(r: Result<bool, Failure>): Reply {
    match r
    case Ok(b) => Verdicts([b])
    case Err(Refused(reason)) => Refusal(reason)
    case Err(_) => Interrupted
  }

  /**
    The ways of asking about one object, relation after relation: each question is the next
    relation's, an allowing verdict or a failure ends it, and so does the last denial.
  */
  predicate Asks(v: Verdict, rels: seq<string>, objectType: string, id: string, reply: Reply, asked: seq<Question>) {
    if rels == [] then asked == [] && reply == Verdicts([false])
    else
      && asked != [] && asked[0] == (rels[0], id)
      && (if v(rels[0], Name(objectType, id)) then
            |asked| == 1 && (reply == Verdicts([true]) || !reply.Verdicts?)
          else
            (|asked| == 1 && !reply.Verdicts?) || Asks(v, rels[1..], objectType, id, reply, asked[1..]))
  }

  lemma AllowedFirst(v: Verdict, rels: seq<string>, objectType: string, id: string)
    requires rels != []
    ensures Allowed(v, rels, objectType, id) <==>
            v(rels[0], Name(objectType, id)) || Allowed(v, rels[1..], objectType, id)
  {
    if Allowed(v, rels[1..], objectType, id) {
      var j :| 0 <= j < |rels[1..]| && v(rels[1..][j], Name(objectType, id));
      assert rels[j + 1] == rels[1..][j];
    }
    if Allowed(v, rels, objectType, id) {
      var j :| 0 <= j < |rels| && v(rels[j], Name(objectType, id));
      assert j > 0 ==> rels[1..][j - 1] == rels[j];
    }
  }

  /** However the asking went, it put the page rule's questions in order, all of them if it got a verdict. */
  lemma {:induction false} AsksSound(v: Verdict, rels: seq<string>, objectType: string, id: string, reply: Reply,
                                     asked: seq<Question>)
    requires Asks(v, rels, objectType, id, reply, asked)
    ensures asked <= Questions(v, rels, objectType, id)
    ensures reply.Verdicts? ==>
              reply.vs == [Allowed(v, rels, objectType, id)] && asked == Questions(v, rels, objectType, id)
    decreases |rels|
  {
    if rels != [] {
      AllowedFirst(v, rels, objectType, id);
      assert asked == [asked[0]] + asked[1..];
      if Asks(v, rels[1..], objectType, id, reply, asked[1..]) && !v(rels[0], Name(objectType, id)) {
        AsksSound(v, rels[1..], objectType, id, reply, asked[1..]);
      }
    }
  }

  /** A store that answers every question brings the asking to its verdict. */
  lemma {:induction false} AsksAnswers(v: Verdict, rels: seq<string>, objectType: string, id: string)
    ensures var reply := Verdicts([Allowed(v, rels, objectType, id)]);
            Asks(v, rels, objectType, id, reply, Questions(v, rels, objectType, id))
    decreases |rels|
  {
    if rels != [] {
      AllowedFirst(v, rels, objectType, id);
      AsksAnswers(v, rels[1..], objectType, id);
      var asked := Questions(v, rels, objectType, id);
      if !v(rels[0], Name(objectType, id)) {
        assert asked[1..] == Questions(v, rels[1..], objectType, id);
      }
    }
  }

  /** Denied by the first j relations, the asking goes on as one about the rest. */
  lemma {:induction false} AsksOn(v: Verdict, rels: seq<string>, j: nat, objectType: string, id: string, reply: Reply,
                                  asked: seq<Question>)
    requires j <= |rels| && |asked| >= j && asked[..j] == Turns(rels[..j], id)
    requires forall i :: 0 <= i < j ==> !v(rels[i], Name(objectType, id))
    requires Asks(v, rels[j..], objectType, id, reply, asked[j..])
    ensures Asks(v, rels, objectType, id, reply, asked)
    decreases j
  {
    if j == 0 {
      assert rels[0..] == rels && asked[0..] == asked;
    } else {
      assert asked[0] == asked[..j][0] == (rels[0], id);
      assert asked[1..][..j - 1] == asked[..j][1..] == Turns(rels[1..][..j - 1], id);
      assert rels[1..][j - 1..] == rels[j..] && asked[1..][j - 1..] == asked[j..];
      AsksOn(v, rels[1..], j - 1, objectType, id, reply, asked[1..]);
    }
  }

  /** Each of the relations, asked about one object. */
  function Turns(rels: seq<string>, id: string): (qs: seq<Question>)
    ensures |qs| == |rels| && forall i :: 0 <= i < |rels| ==> qs[i] == (rels[i], id)
  {
    seq(|rels|, i requires 0 <= i < |rels| => (rels[i], id))
  }

  /** Relation after relation until one allows the object or the store fails. */
  method AskInTurn(v: Verdict, rels: seq<string>, objectType: string, id: string, done: bool)
    returns (r: Result<bool, Failure>, asked: seq<Question>)
    ensures Asks(v, rels, objectType, id, ReplyOf(r), asked)
    ensures r.Err? ==> !r.error.Misaligned? && (r.error.ContextDone? ==> done)
  {
    asked := [];
    for j := 0 to |rels|
      invariant forall i :: 0 <= i < j ==> !v(rels[i], Name(objectType, id))
      invariant asked == Turns(rels[..j], id)
    {
      var allowed := CheckOnce(v, rels[j], Name(objectType, id), done);
      var before := asked;
      asked := asked + [(rels[j], id)];
      assert asked[..j] == before && asked[j..] == [(rels[j], id)] && rels[j..][0] == rels[j];
      if allowed.Err? {
        AsksOn(v, rels, j, objectType, id, ReplyOf(Err(allowed.error)), asked);
        return Err(allowed.error), asked;
      }
      if allowed.value {
        AsksOn(v, rels, j, objectType, id, ReplyOf(Ok(true)), asked);
        return Ok(true), asked;
      }
    }
    r := Ok(false);
    assert rels[..|rels|] == rels && asked[..|rels|] == asked && asked[|rels|..] == [] && rels[|rels|..] == [];
    AsksOn(v, rels, |rels|, objectType, id, ReplyOf(r), asked);
  }

  /** May the subject read this one object; `done` tells whether the call's context is. */
  method Visible(checker: Checker, subject: string, objectType: string, id: string, done: bool)
    returns (r: Result<bool, Failure>, asked: seq<Question>)
    ensures r.Err? ==> !r.error.Misaligned? && (r.error.ContextDone? ==> done)
    ensures Degraded(checker, subject, objectType) || id == "" ==> r == Ok(false) && asked == []
    ensures !Degraded(checker, subject, objectType) && id != "" ==>
              var v, rels := checker.Decides(), RelationsFor(objectType);
              && Asks(v, rels, objectType, id, ReplyOf(r), asked)
              && asked <= Questions(v, rels, objectType, id)
              && (r.Ok? ==> r.value == Allowed(v, rels, objectType, id) && asked == Questions(v, rels, objectType, id))
              && (r.Ok? ==> r.value == MayRead(v, objectType, id))
  {
    if checker.NoChecker? || subject == "" || objectType == "" || id == "" {
      return Ok(false), [];
    }
    r, asked := AskInTurn(checker.Decides(), RelationsFor(objectType), objectType, id, done);
    AsksSound(checker.Decides(), RelationsFor(objectType), objectType, id, ReplyOf(r), asked);
    AllowedIsMayRead(checker.Decides(), objectType, id);
  }

  /** Who may read a row: a role by either of two relations, anything else by one. */
  predicate MayRead(v: Verdict, objectType: string, id: string) {
    var name := objectType + ":" + id;
    if objectType == "iam_role" then v("viewer", name) || v("v_list", name) else v("v_get", name)
  }

  lemma RelationsExactly(objectType: string)
    ensures RelationsFor(objectType) == if objectType == "iam_role" then ["viewer", "v_list"] else ["v_get"]
  {
    assert forall t :: t in PAGE_RELATIONS && t != "iam_role" ==> PAGE_RELATIONS[t] == ["v_get"];
  }

  /** Some relation of the type allows the row exactly when it may be read. */
  lemma AllowedIsMayRead(v: Verdict, objectType: string, id: string)
    ensures Allowed(v, RelationsFor(objectType), objectType, id) <==> MayRead(v, objectType, id)
  {
    RelationsExactly(objectType);
    var rels := RelationsFor(objectType);
    if MayRead(v, objectType, id) {
      assert v(rels[0], Name(objectType, id)) || (|rels| > 1 && v(rels[1], Name(objectType, id)));
    }
  }

  /** The rows of the page that may be read. */
  ghost function ReadableIds(v: Verdict, objectType: string, ids: seq<string>): set<string> {
    set id | id in ids && id != "" && MayRead(v, objectType, id)
  }

  lemma VisibleIsReadable(v: Verdict, objectType: string, ids: seq<string>)
    ensures VisibleIds(v, RelationsFor(objectType), objectType, ids) == ReadableIds(v, objectType, ids)
  {
    forall id ensures Allowed(v, RelationsFor(objectType), objectType, id) <==> MayRead(v, objectType, id) {
      AllowedIsMayRead(v, objectType, id);
    }
  }

  /** The questions of a page: a role is asked about by the second relation only where the first refuses. */
  predicate Asked(v: Verdict, objectType: string, ids: seq<string>, q: Question) {
    && q.1 in ids && q.1 != ""
    && if objectType == "iam_role" then q.0 == "viewer" || (q.0 == "v_list" && !v("viewer", objectType + ":" + q.1))
       else q.0 == "v_get"
  }

  lemma OpenUnderTwo(v: Verdict, first: string, second: string, objectType: string, q: Question)
    requires first != second && (q.0 == first || q.0 == second)
    ensures StillOpen(v, [first, second], objectType, q) <==> q.0 == first || !v(first, Name(objectType, q.1))
  {
    assert [first, second][1..] == [second];
  }

  /** A page asks exactly its questions, once each. */
  lemma PageAsksExactly(v: Verdict, objectType: string, ids: seq<string>, q: Question)
    ensures PageQuestions(v, RelationsFor(objectType), objectType, Pending(ids))[q] ==
            if Asked(v, objectType, ids, q) then 1 else 0
  {
    PageAsksOnce(v, objectType, ids, q);
    RelationsExactly(objectType);
    RelationsDiffer(objectType);
    if objectType == "iam_role" && (q.0 == "viewer" || q.0 == "v_list") {
      assert RelationsFor(objectType)[0] != RelationsFor(objectType)[1];
      OpenUnderTwo(v, "viewer", "v_list", objectType, q);
    }
  }

  lemma RequestsOfOne(v: Verdict, relation: string, objectType: string, ids: seq<string>)
    ensures PageRequests(v, [relation], objectType, ids) == Requests(|ids|)
  {
    assert [relation][1..] == [];
  }

  lemma RequestsOfTwo(v: Verdict, first: string, second: string, objectType: string, ids: seq<string>)
    ensures PageRequests(v, [first, second], objectType, ids) ==
            Requests(|ids|) + Requests(|DeniedIds(v, first, objectType, ids)|)
  {
    assert [first, second][1..] == [second];
    RequestsOfOne(v, second, objectType, DeniedIds(v, first, objectType, ids));
  }

  /** The requests of a page: one count for its ids, and for roles another for those the first relation refuses. */
  lemma PageRequestsExactly(v: Verdict, objectType: string, ids: seq<string>)
    ensures PageRequests(v, RelationsFor(objectType), objectType, ids) ==
            Requests(|ids|) +
            if objectType == "iam_role" then Requests(|DeniedIds(v, "viewer", objectType, ids)|) else 0
  {
    RelationsExactly(objectType);
    if objectType == "iam_role" {
      RequestsOfTwo(v, "viewer", "v_list", objectType, ids);
    } else {
      RequestsOfOne(v, "v_get", objectType, ids);
    }
  }

  lemma RelationsDiffer(objectType: string)
    ensures Distinct(RelationsFor(objectType))
  {
    assert forall t :: t in PAGE_RELATIONS ==> PAGE_RELATIONS[t] in [["v_get"], ["viewer", "v_list"]];
  }

  /**
    However a page repeats or blanks its ids, each question about it is posed at most once:
    exactly when no relation asked before it allows its object.
  */
  lemma PageAsksOnce(v: Verdict, objectType: string, ids: seq<string>, q: Question)
    ensures PageQuestions(v, RelationsFor(objectType), objectType, Pending(ids))[q] ==
            var rels := RelationsFor(objectType);
            if q.0 in rels && q.1 in ids && q.1 != "" && StillOpen(v, rels, objectType, q) then 1 else 0
  {
    PendingSound(ids);
    RelationsDiffer(objectType);
    AskedAtMostOnce(v, RelationsFor(objectType), objectType, Pending(ids), q);
  }

  /** What a page answer means, whichever form produced it. */
  ghost predicate PageAnswer(v: Verdict, objectType: string, pending: seq<string>,
                             r: Result<set<string>, PageError>, expired: bool, traffic: Traffic)
  {
    var rels := RelationsFor(objectType);
    && (r.Ok? <==> !SomeFailed(traffic.calls) && !expired)
    && (r.Ok? ==> r.value == VisibleIds(v, rels, objectType, pending))
    && (r.Ok? ==> traffic.asked == PageQuestions(v, rels, objectType, pending))
    && (r.Err? && r.error.StoreFailed? ==>
          FailedWith(traffic.calls, r.error.cause) && (r.error.cause.ContextDone? ==> expired))
    && (r.Err? && r.error.ContextExpired? ==> !SomeFailed(traffic.calls) && expired)
  }

  lemma CallsAppend(a: seq<Call>, b: seq<Call>)
    ensures SomeFailed(a + b) <==> SomeFailed(a) || SomeFailed(b)
    ensures forall e :: FailedWith(b, e) ==> FailedWith(a + b, e)
  {
    if SomeFailed(a) { var i :| 0 <= i < |a| && Failed(a[i]); assert Failed((a + b)[i]); }
    if SomeFailed(b) { var i :| 0 <= i < |b| && Failed(b[i]); assert Failed((a + b)[|a| + i]); }
    forall e | FailedWith(b, e) ensures FailedWith(a + b, e) {
      var i :| 0 <= i < |b| && FailureOf(b[i].reply, |b[i].objects|) == Some(e);
      assert (a + b)[|a| + i] == b[i];
    }
  }

  /** The round loop has settled the first j relations for the page. */
  ghost predicate RoundsDone(v: Verdict, rels: seq<string>, objectType: string, pending: seq<string>, j: nat,
                             remaining: seq<string>, out: set<string>, asked: multiset<Question>, calls: seq<Call>)
    requires j <= |rels|
  {
    && (forall id :: id in remaining <==> id in pending && !Allowed(v, rels[..j], objectType, id))
    && out == VisibleIds(v, rels[..j], objectType, pending)
    && asked + PageQuestions(v, rels[j..], objectType, remaining) == PageQuestions(v, rels, objectType, pending)
    && |calls| + PageRequests(v, rels[j..], objectType, remaining) == PageRequests(v, rels, objectType, pending)
  }

  lemma AllowedOneMore(v: Verdict, rels: seq<string>, j: nat, objectType: string, id: string)
    requires j < |rels|
    ensures Allowed(v, rels[..j + 1], objectType, id) <==>
            Allowed(v, rels[..j], objectType, id) || v(rels[j], Name(objectType, id))
  {
    var a, b := rels[..j], rels[..j + 1];
    if Allowed(v, a, objectType, id) {
      var i :| 0 <= i < |a| && v(a[i], Name(objectType, id));
      assert b[i] == a[i];
    }
    if v(rels[j], Name(objectType, id)) { assert b[j] == rels[j]; }
    if Allowed(v, b, objectType, id) {
      var i :| 0 <= i < |b| && v(b[i], Name(objectType, id));
      assert i < j ==> a[i] == b[i];
    }
  }

  lemma OneMoreRound(v: Verdict, rels: seq<string>, objectType: string, pending: seq<string>, j: nat,
                     remaining: seq<string>, out: set<string>, asked: multiset<Question>, calls: seq<Call>,
                     more: seq<Call>)
    requires j < |rels| && RoundsDone(v, rels, objectType, pending, j, remaining, out, asked, calls)
    requires |more| == Requests(|remaining|) && (forall id :: id in pending ==> id != "")
    ensures RoundsDone(v, rels, objectType, pending, j + 1, DeniedIds(v, rels[j], objectType, remaining),
                       out + Granted(v, rels[j], objectType, remaining),
                       asked + multiset(Pair(rels[j], remaining)), calls + more)
  {
    DeniedSound(v, rels[j], objectType, remaining);
    forall id ensures Allowed(v, rels[..j + 1], objectType, id) <==>
                      Allowed(v, rels[..j], objectType, id) || v(rels[j], Name(objectType, id)) {
      AllowedOneMore(v, rels, j, objectType, id);
    }
    assert rels[j..][0] == rels[j] && rels[j..][1..] == rels[j + 1..];
  }

  lemma NoRequests(v: Verdict, rels: seq<string>, objectType: string)
    ensures PageRequests(v, rels, objectType, []) == 0
    decreases |rels|
  {
    if rels != [] {
      NoRequests(v, rels[1..], objectType);
    }
  }

  /** Relations left over for an empty remainder change nothing. */
  lemma EveryoneSettled(v: Verdict, rels: seq<string>, objectType: string, pending: seq<string>, j: nat,
                        remaining: seq<string>, out: set<string>, asked: multiset<Question>, calls: seq<Call>)
    requires j <= |rels| && RoundsDone(v, rels, objectType, pending, j, remaining, out, asked, calls)
    requires j == |rels| || remaining == []
    ensures out == VisibleIds(v, rels, objectType, pending)
    ensures asked == PageQuestions(v, rels, objectType, pending)
    ensures |calls| == PageRequests(v, rels, objectType, pending)
  {
    if j == |rels| {
      assert rels[..j] == rels;
    } else {
      NoQuestions(v, rels[j..], objectType);
      NoRequests(v, rels[j..], objectType);
      forall id | id in pending ensures Allowed(v, rels, objectType, id) && Allowed(v, rels[..j], objectType, id) {
        assert id !in remaining;
        var i :| 0 <= i < j && v(rels[..j][i], Name(objectType, id));
        assert v(rels[i], Name(objectType, id));
      }
    }
  }

  ghost predicate AllDecided(store: Store, objectType: string, asked: multiset<Question>) {
    forall q :: q in asked ==> Decided(store, q.0, Name(objectType, q.1))
  }

  lemma RoundDecides(store: Store, objectType: string, relation: string, ids: seq<string>, asked: multiset<Question>)
    requires AllDecided(store, objectType, asked)
    requires forall id :: id in ids ==> Decided(store, relation, Name(objectType, id))
    ensures AllDecided(store, objectType, asked + multiset(Pair(relation, ids)))
  {
    forall q | q in multiset(Pair(relation, ids)) ensures q.0 == relation && q.1 in ids {
      var i :| 0 <= i < |ids| && Pair(relation, ids)[i] == q;
    }
  }

  /** A batch about objects of the page, replied to by the store under one of the type's relations. */
  ghost predicate PageCall(store: Store, objectType: string, ids: seq<string>, call: Call) {
    && BatchOf(call.objects, objectType, ids)
    && exists relation :: relation in RelationsFor(objectType) && FromStore(store, relation, call)
  }

  ghost predicate StoreCalls(store: Store, objectType: string, ids: seq<string>, calls: seq<Call>) {
    forall i :: 0 <= i < |calls| ==> PageCall(store, objectType, ids, calls[i])
  }

  lemma BatchOfMore(objects: seq<string>, objectType: string, some: seq<string>, all: seq<string>)
    requires BatchOf(objects, objectType, some) && forall id :: id in some ==> id in all
    ensures BatchOf(objects, objectType, all)
  {
    forall k | 0 <= k < |objects| ensures NamesOneOf(objects[k], objectType, all) {
      assert NamesOneOf(objects[k], objectType, some);
      var i :| 0 <= i < |some| && objects[k] == Name(objectType, some[i]);
      assert some[i] in all;
      var j :| 0 <= j < |all| && all[j] == some[i];
    }
  }

  lemma MoreStoreCalls(store: Store, objectType: string, relation: string, a: seq<Call>, b: seq<Call>,
                       some: seq<string>, all: seq<string>)
    requires StoreCalls(store, objectType, all, a) && relation in RelationsFor(objectType)
    requires forall id :: id in some ==> id in all
    requires forall i :: 0 <= i < |b| ==> BatchOf(b[i].objects, objectType, some) && FromStore(store, relation, b[i])
    ensures StoreCalls(store, objectType, all, a + b)
  {
    forall i | 0 <= i < |b| ensures PageCall(store, objectType, all, b[i]) {
      BatchOfMore(b[i].objects, objectType, some, all);
    }
  }

  /** Where the rounds stand before the j-th: no call has failed, and unless the context is done all is settled. */
  ghost predicate InRounds(store: Store, objectType: string, pending: seq<string>, j: nat,
                           remaining: seq<string>, out: set<string>, expired: bool, traffic: Traffic)
  {
    var rels := RelationsFor(objectType);
    && j <= |rels| && !SomeFailed(traffic.calls) && (forall id :: id in remaining ==> id in pending)
    && StoreCalls(store, objectType, pending, traffic.calls) && traffic.peak <= BATCH_PARALLELISM
    && (!expired ==>
          && RoundsDone(store.verdict, rels, objectType, pending, j, remaining, out, traffic.asked, traffic.calls)
          && AllDecided(store, objectType, traffic.asked))
  }

  /** The j-th round, on top of what went before. */
  method NextRound(store: Store, objectType: string, ghost pending: seq<string>, j: nat,
                   remaining: seq<string>, out: set<string>, expired: bool, traffic: Traffic)
    returns (r: Result<seq<string>, Failure>, out': set<string>, expired': bool, traffic': Traffic)
    requires Reliable(store) && forall id :: id in pending ==> id != ""
    requires j < |RelationsFor(objectType)| && InRounds(store, objectType, pending, j, remaining, out, expired, traffic)
    ensures expired ==> expired'
    ensures r.Ok? ==> InRounds(store, objectType, pending, j + 1, r.value, out', expired', traffic')
    ensures r.Err? ==> FailedWith(traffic'.calls, r.error) && (r.error.ContextDone? ==> expired')
    ensures r.Ok? <==> !SomeFailed(traffic'.calls)
    ensures StoreCalls(store, objectType, pending, traffic'.calls) && traffic'.peak <= BATCH_PARALLELISM
  {
    var relation, more := RelationsFor(objectType)[j], NO_TRAFFIC;
    r, out', expired', more := BatchRelationRound(store, objectType, relation, remaining, out, expired);
    CallsAppend(traffic.calls, more.calls);
    MoreStoreCalls(store, objectType, relation, traffic.calls, more.calls, remaining, pending);
    traffic' := traffic.Then(more);
    if r.Ok? && !expired' {
      OneMoreRound(store.verdict, RelationsFor(objectType), objectType, pending, j, remaining, out,
                   traffic.asked, traffic.calls, more.calls);
      RoundDecides(store, objectType, relation, remaining, traffic.asked);
    }
  }

  /** A failed call is reported as what it failed with. */
  lemma PageFails(v: Verdict, objectType: string, pending: seq<string>, e: Failure, expired: bool, traffic: Traffic)
    requires FailedWith(traffic.calls, e) && (e.ContextDone? ==> expired)
    ensures SomeFailed(traffic.calls)
    ensures PageAnswer(v, objectType, pending, Err(StoreFailed(e)), expired, traffic)
  {
    var i :| 0 <= i < |traffic.calls| && FailureOf(traffic.calls[i].reply, |traffic.calls[i].objects|) == Some(e);
    assert Failed(traffic.calls[i]);
  }

  /** Out of relations or out of ids, with the context not done, the page is answered. */
  lemma RoundsOver(store: Store, objectType: string, pending: seq<string>, j: nat,
                   remaining: seq<string>, out: set<string>, traffic: Traffic)
    requires InRounds(store, objectType, pending, j, remaining, out, false, traffic)
    requires j == |RelationsFor(objectType)| || remaining == []
    ensures PageAnswer(store.verdict, objectType, pending, Ok(out), false, traffic)
    ensures |traffic.calls| == PageRequests(store.verdict, RelationsFor(objectType), objectType, pending)
  {
    EveryoneSettled(store.verdict, RelationsFor(objectType), objectType, pending, j, remaining, out,
                    traffic.asked, traffic.calls);
  }

  lemma RoundsBegin(store: Store, objectType: string, pending: seq<string>, expired: bool)
    requires forall id :: id in pending ==> id != ""
    ensures InRounds(store, objectType, pending, 0, pending, {}, expired, NO_TRAFFIC)
  {
    var rels := RelationsFor(objectType);
    assert rels[..0] == [] && rels[0..] == rels;
  }

  /** A context that is done by the end of the rounds is reported. */
  lemma RoundsCutShort(store: Store, objectType: string, pending: seq<string>, traffic: Traffic)
    requires !SomeFailed(traffic.calls)
    ensures PageAnswer(store.verdict, objectType, pending, Err(ContextExpired), true, traffic)
  {}

  /** The rounds one after another, until one fails, nothing is left to ask, or the relations are used up. */
  method AskRounds(store: Store, objectType: string, pending: seq<string>, expired: bool)
    returns (r: Result<set<string>, Failure>, expired': bool, traffic: Traffic,
             ghost j: nat, ghost remaining: seq<string>)
    requires Reliable(store) && forall id :: id in pending ==> id != ""
    ensures expired ==> expired'
    ensures r.Err? ==>
              && FailedWith(traffic.calls, r.error) && (r.error.ContextDone? ==> expired')
              && StoreCalls(store, objectType, pending, traffic.calls) && traffic.peak <= BATCH_PARALLELISM
    ensures r.Ok? ==> InRounds(store, objectType, pending, j, remaining, r.value, expired', traffic)
    ensures r.Ok? ==> j >= |RelationsFor(objectType)| || remaining == []
  {
    var rels := RelationsFor(objectType);
    var rest, out, i := pending, {}, 0;
    j, remaining := 0, pending;
    traffic, expired' := NO_TRAFFIC, expired;
    RoundsBegin(store, objectType, pending, expired);
    while i < |rels| && |rest| > 0
      invariant expired ==> expired'
      invariant InRounds(store, objectType, pending, i, rest, out, expired', traffic)
    {
      var denied;
      denied, out, expired', traffic := NextRound(store, objectType, pending, i, rest, out, expired', traffic);
      if denied.Err? {
        return Err(denied.error), expired', traffic, i, rest;
      }
      rest := denied.value;
      i := i + 1;
    }
    return Ok(out), expired', traffic, i, rest;
  }

  method VisibleSetBatched(store: Store, objectType: string, pending: seq<string>, expired: bool)
    returns (r: Result<set<string>, PageError>, expired': bool, traffic: Traffic)
    requires Reliable(store) && forall id :: id in pending ==> id != ""
    ensures expired ==> expired'
    ensures PageAnswer(store.verdict, objectType, pending, r, expired', traffic)
    ensures r.Ok? ==> |traffic.calls| == PageRequests(store.verdict, RelationsFor(objectType), objectType, pending)
    ensures r.Ok? ==> AllDecided(store, objectType, traffic.asked)
    ensures StoreCalls(store, objectType, pending, traffic.calls) && traffic.peak <= BATCH_PARALLELISM
  {
    var out;
    ghost var j, remaining;
    out, expired', traffic, j, remaining := AskRounds(store, objectType, pending, expired);
    if out.Err? {
      PageFails(store.verdict, objectType, pending, out.error, expired', traffic);
      return Err(StoreFailed(out.error)), expired', traffic;
    }
    if * {
      expired' := true;
    }
    if expired' {
      RoundsCutShort(store, objectType, pending, traffic);
      return Err(ContextExpired), expired', traffic;
    }
    RoundsOver(store, objectType, pending, j, remaining, out.value, traffic);
    r := Ok(out.value);
  }

  function Singles(n: nat): (spans: seq<Span>)
    ensures |spans| == n && forall i :: 0 <= i < n ==> spans[i] == Span(i, i + 1)
  {
    seq(n, i requires 0 <= i < n => Span(i, i + 1))
  }

  lemma SinglesTile(n: nat)
    ensures Tiles(Singles(n), n)
  {
    forall k | 0 <= k < n ensures Covered(Singles(n), k) {
      assert Singles(n)[k].Covers(k);
    }
  }

  /** The pool of the per-object page: a task is one call of Visible. */
  function PageConfig(v: Verdict, objectType: string, pending: seq<string>): Config {
    var rels := RelationsFor(objectType);
    Config(
      AllowedEach(v, rels, objectType, pending), Singles(|pending|), DEFAULT_PARALLELISM,
      (p: nat, reply: Reply, asked: seq<Question>) =>
        p < |pending| && Asks(v, rels, objectType, pending[p], reply, asked))
  }

  lemma PageWellFormed(v: Verdict, objectType: string, pending: seq<string>)
    ensures WellFormed(PageConfig(v, objectType, pending))
  {
    var c, rels := PageConfig(v, objectType, pending), RelationsFor(objectType);
    SinglesTile(|pending|);
    forall p: nat, reply, asked | p < |pending| && c.answers(p, reply, asked) ensures Honest(Truth(c, p), reply) {
      AsksSound(v, rels, objectType, pending[p], reply, asked);
      assert c.spans[p] == Span(p, p + 1) && c.truth[p..p + 1] == [c.truth[p]];
      assert Truth(c, p) == [Allowed(v, rels, objectType, pending[p])];
    }
    forall p: nat | p < |pending| ensures Responds(c, p) {
      AsksAnswers(v, rels, objectType, pending[p]);
      var id := pending[p];
      assert c.answers(p, Verdicts([Allowed(v, rels, objectType, id)]), Questions(v, rels, objectType, id));
    }
  }

  /** Exactly what a call of Visible about its object may come to is what a task of the pool may come to. */
  ghost predicate CallsVisible(c: Config, v: Verdict, objectType: string, pending: seq<string>) {
    && |c.spans| == |pending|
    && forall p: nat, reply, asked :: c.answers(p, reply, asked) <==>
         p < |pending| && Asks(v, RelationsFor(objectType), objectType, pending[p], reply, asked)
  }

  /** A task that came to a verdict asked the page rule's questions about its object. */
  lemma TaskAsked(v: Verdict, objectType: string, pending: seq<string>, c: Config, e: Exchange)
    requires WellFormed(c) && CallsVisible(c, v, objectType, pending) && c.spans == Singles(|pending|)
    requires c.answers(e.part, e.reply, e.asked) && !Faulty(c, e)
    ensures e.part < |pending| && e.asked == Questions(v, RelationsFor(objectType), objectType, pending[e.part])
  {
    AsksSound(v, RelationsFor(objectType), objectType, pending[e.part], e.reply, e.asked);
  }

  /** What the calls of Visible asked, when all of them came to a verdict, is what the page asks. */
  lemma SinglesAskOnce(v: Verdict, objectType: string, pending: seq<string>, c: Config, s: State)
    requires WellFormed(c) && CallsVisible(c, v, objectType, pending) && c.spans == Singles(|pending|)
    requires Settled(c, s) && s.firstErr.None? && AskedOnceEach(c, s)
    ensures Posed(s.log) == PageQuestions(v, RelationsFor(objectType), objectType, pending)
  {
    var rels := RelationsFor(objectType);
    var chunks := QuestionChunks(v, rels, objectType, pending);
    forall i | 0 <= i < |s.log|
      ensures s.log[i].part < |chunks| && multiset(s.log[i].asked) == chunks[s.log[i].part]
    {
      assert !Faulty(c, s.log[i]);
      TaskAsked(v, objectType, pending, c, s.log[i]);
    }
    PosedIsGather(chunks, s.log);
    LogOrder(c, s);
    GatherOnce(chunks, Order(s.log), |pending|);
    SameQuestions(v, rels, objectType, pending, |pending|);
    assert pending[..|pending|] == pending;
  }

  function Marked(pending: seq<string>, slots: seq<bool>): set<string>
    requires |slots| == |pending|
  {
    set i | 0 <= i < |pending| && slots[i] :: pending[i]
  }

  function AllowedEach(v: Verdict, rels: seq<string>, objectType: string, ids: seq<string>): (vs: seq<bool>)
    ensures |vs| == |ids| && forall i :: 0 <= i < |ids| ==> vs[i] == Allowed(v, rels, objectType, ids[i])
  {
    seq(|ids|, i requires 0 <= i < |ids| => Allowed(v, rels, objectType, ids[i]))
  }

  lemma MarkedIsVisible(v: Verdict, rels: seq<string>, objectType: string, pending: seq<string>)
    requires forall id :: id in pending ==> id != ""
    ensures Marked(pending, AllowedEach(v, rels, objectType, pending)) == VisibleIds(v, rels, objectType, pending)
  {
    var slots := AllowedEach(v, rels, objectType, pending);
    forall id | id in VisibleIds(v, rels, objectType, pending) ensures id in Marked(pending, slots) {
      var i :| 0 <= i < |pending| && pending[i] == id;
      assert slots[i];
    }
    forall id | id in Marked(pending, slots) ensures id in VisibleIds(v, rels, objectType, pending) {
      var i :| 0 <= i < |pending| && slots[i] && pending[i] == id;
      assert id in pending && id != "" && Allowed(v, rels, objectType, id);
    }
  }

  function SingleObjects(objectType: string, ids: seq<string>): (objects: seq<seq<string>>)
    ensures |objects| == |ids| && forall i :: 0 <= i < |ids| ==> objects[i] == [Name(objectType, ids[i])]
  {
    seq(|ids|, i requires 0 <= i < |ids| => [Name(objectType, ids[i])])
  }

  /** The worker's call of Visible is a step of the pool, whatever comes of it. */
  method CallVisible(checker: Checker, subject: string, objectType: string, pending: seq<string>,
                     c: Config, s: State, ask: Step)
    returns (step: Step)
    requires checker.PerObject? && subject != "" && objectType != "" && forall id :: id in pending ==> id != ""
    requires WellFormed(c) && CallsVisible(c, checker.single, objectType, pending)
    requires ask.Ask? && Enabled(c, s, ask)
    ensures Enabled(c, s, step)
  {
    var p := s.workers[ask.w].part;
    assert p < |pending| && pending[p] in pending;
    var r, asked := Visible(checker, subject, objectType, pending[p], Done(s));
    step := Ask(ask.w, ReplyOf(r), asked);
  }

  /** Runs the per-object pool to its end under an arbitrary schedule; a worker with an object calls Visible. */
  method RunPage(checker: Checker, subject: string, objectType: string, pending: seq<string>, c: Config, expired: bool)
    returns (s: State)
    requires checker.PerObject? && subject != "" && objectType != "" && forall id :: id in pending ==> id != ""
    requires WellFormed(c) && CallsVisible(c, checker.single, objectType, pending)
    ensures Settled(c, s)
    ensures expired ==> s.expired
  {
    s := Init(c, expired);
    InitInv(c, expired);
    while !Terminal(s)
      invariant Inv(c, s)
      invariant expired ==> s.expired
      decreases Measure(c, s)
    {
      var step := Choose(c, s);
      if step.Ask? {
        step := CallVisible(checker, subject, objectType, pending, c, s, step);
      }
      s := Take(c, s, step);
    }
    AtTheEnd(c, s);
  }

  /** The page asked object by object; a task of the pool is one call of Visible. */
  method VisibleSetPerObject(checker: Checker, subject: string, objectType: string, pending: seq<string>, expired: bool)
    returns (r: Result<set<string>, PageError>, expired': bool, traffic: Traffic)
    requires checker.PerObject? && subject != "" && objectType != "" && forall id :: id in pending ==> id != ""
    ensures expired ==> expired'
    ensures PageAnswer(checker.single, objectType, pending, r, expired', traffic)
    ensures traffic.peak <= DEFAULT_PARALLELISM
  {
    var v := checker.single;
    var c := PageConfig(v, objectType, pending);
    PageWellFormed(v, objectType, pending);
    var s := RunPage(checker, subject, objectType, pending, c, expired);
    var objects := SingleObjects(objectType, pending);
    CallsReport(objects, c, s);
    expired', traffic := s.expired, Traffic(Posed(s.log), CallsOf(objects, s.log), s.peak);
    if s.firstErr.Some? {
      return Err(StoreFailed(s.firstErr.value)), expired', traffic;
    }
    if * {
      expired' := true;
    }
    if expired' {
      return Err(ContextExpired), expired', traffic;
    }
    r := Ok(Marked(pending, s.slots));
    SinglesAskOnce(v, objectType, pending, c, s);
    MarkedIsVisible(v, RelationsFor(objectType), objectType, pending);
  }

  lemma PageIsLiteral(v: Verdict, objectType: string, ids: seq<string>)
    ensures VisibleIds(v, RelationsFor(objectType), objectType, Pending(ids)) == ReadableIds(v, objectType, ids)
    ensures forall q :: PageQuestions(v, RelationsFor(objectType), objectType, Pending(ids))[q] ==
                        if Asked(v, objectType, ids, q) then 1 else 0
  {
    VisibleIsReadable(v, objectType, Pending(ids));
    PendingSound(ids);
    forall q ensures PageQuestions(v, RelationsFor(objectType), objectType, Pending(ids))[q] ==
                     if Asked(v, objectType, ids, q) then 1 else 0 {
      PageAsksExactly(v, objectType, ids, q);
    }
  }

  /**
    The rows of a page the subject may read. Blank and repeated ids cost nothing. Either the
    whole page is answered or an error is returned: a failed, misaligned or abandoned call
    never turns into a smaller page.
  */
  method VisibleSet(checker: Checker, subject: string, objectType: string, ids: seq<string>, expired: bool)
    returns (r: Result<set<string>, PageError>, expired': bool, traffic: Traffic)
    requires checker.Batched? ==> Reliable(checker.store)
    ensures expired ==> expired'
    ensures Degraded(checker, subject, objectType) || (forall id :: id in ids ==> id == "") ==>
              r == Ok({}) && traffic == NO_TRAFFIC
    ensures !Degraded(checker, subject, objectType) && (exists id :: id in ids && id != "") ==>
              PageAnswer(checker.Decides(), objectType, Pending(ids), r, expired', traffic)
    ensures r.Ok? && !Degraded(checker, subject, objectType) ==>
              && r.value == ReadableIds(checker.Decides(), objectType, ids)
              && forall q :: traffic.asked[q] == if Asked(checker.Decides(), objectType, ids, q) then 1 else 0
    ensures checker.Batched? && !Degraded(checker, subject, objectType) ==>
              && StoreCalls(checker.store, objectType, Pending(ids), traffic.calls)
              && (r.Ok? ==> AllDecided(checker.store, objectType, traffic.asked))
              && (r.Ok? ==>
                    var rels := RelationsFor(objectType);
                    |traffic.calls| == PageRequests(checker.store.verdict, rels, objectType, Pending(ids)))
    ensures traffic.peak <= if checker.Batched? then 8 else 16
  {
    expired', traffic := expired, NO_TRAFFIC;
    if checker.NoChecker? || subject == "" || objectType == "" || |ids| == 0 {
      if !checker.NoChecker? { NoRequests(checker.Decides(), RelationsFor(objectType), objectType); }
      return Ok({}), expired', traffic;
    }
    var pending := Deduplicate(ids);
    PendingSound(ids);
    if |pending| == 0 {
      assert forall id :: id in ids ==> id !in pending;
      NoRequests(checker.Decides(), RelationsFor(objectType), objectType);
      return Ok({}), expired', traffic;
    }
    assert pending[0] in ids && pending[0] != "";
    assert forall id :: id in pending <==> id in ids && id != "";
    PageIsLiteral(checker.Decides(), objectType, ids);
    if checker.Batched? {
      r, expired', traffic := VisibleSetBatched(checker.store, objectType, pending, expired);
    } else {
      r, expired', traffic := VisibleSetPerObject(checker, subject, objectType, pending, expired);
    }
  }
}
