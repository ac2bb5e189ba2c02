/**
  The bounded worker pool behind a page of visibility questions.

  One feeder hands tasks to a fixed number of workers over an unbuffered queue. A worker
  puts the questions of the task it holds to the relation store and stores one verdict per slot. The
  first failure is recorded and cancels the pool's context; the parent context may expire
  at any time. The pool is a step system: a run is any sequence of enabled steps, so what
  is proved of every run is proved of every interleaving.
*/
module WorkerPool {
  import opened Outcomes

  /** The slots a task covers: `lo` up to, not including, `hi`. */
  datatype Span = Span(lo: nat, hi: nat) {
    ghost predicate Covers(k: int) { lo <= k < hi }
  }

  /** One question put to the store: relation, identifier. */
  type Question = (string, string)

  /** What a task came to: verdicts, the store's own refusal, or a call broken off by its context. */
  datatype Reply = Verdicts(vs: seq<bool>) | Refusal(reason: string) | Interrupted

  datatype Failure = Refused(reason: string) | Misaligned(got: nat, want: nat) | ContextDone

  /**
    What a pool is asked to do: `truth[k]` is the store's verdict about slot k, `spans` are
    the tasks in feeding order, `width` bounds the number of workers. `answers` tells which
    replies a task may come to, and after which questions.
  */
  datatype Config = Config(
    truth: seq<bool>,
    spans: seq<Span>,
    width: nat,
    answers: (nat, Reply, seq<Question>) -> bool)

  datatype Worker =
    | Waiting
    | Holding(part: nat)
    | Answered(part: nat, reply: Reply, asked: seq<Question>)
    | Storing(part: nat, vs: seq<bool>, stored: nat)
    | Exited

  /** A task carried out: what it came to, and the questions it put. */
  datatype Exchange = Exchange(part: nat, reply: Reply, asked: seq<Question>)

  datatype State = State(
    next: nat,                   // tasks handed over so far
    feeding: bool,               // the queue is still open
    workers: seq<Worker>,
    slots: seq<bool>,
    firstErr: Option<Failure>,
    cancelled: bool,             // cancel() was called
    expired: bool,               // the parent context is done
    log: seq<Exchange>,          // tasks carried out, in the order they came back
    peak: nat)                   // the most tasks that were with the store at once

  datatype Step =
    | Feed(w: nat)
    | Abandon
    | Close
    | Leave(w: nat)
    | Ask(w: nat, reply: Reply, asked: seq<Question>)
    | Settle(w: nat)
    | Write(w: nat)
    | Rejoin(w: nat)
    | Expire

  ghost predicate Covered(spans: seq<Span>, k: int) {
    exists p :: 0 <= p < |spans| && spans[p].Covers(k)
  }

  /** The tasks are non-empty, in order, and cover exactly the slots below n. */
  ghost predicate Tiles(spans: seq<Span>, n: nat) {
    && (forall p :: 0 <= p < |spans| ==> spans[p].lo < spans[p].hi <= n)
    && (forall p, q :: 0 <= p < q < |spans| ==> spans[p].hi <= spans[q].lo)
    && (forall k :: 0 <= k < n ==> Covered(spans, k))
  }

  /** An answer of the right length is the store's true verdict. */
  ghost predicate Truthful(c: Config)
    requires Tiles(c.spans, |c.truth|)
  {
    forall p: nat, reply, asked :: p < |c.spans| && c.answers(p, reply, asked) ==> Honest(Truth(c, p), reply)
  }

  /** Every task comes to something, whatever the context does. */
  ghost predicate Responsive(c: Config) {
    forall p: nat :: p < |c.spans| ==> Responds(c, p)
  }

  ghost predicate Responds(c: Config, p: nat) {
    exists reply, asked :: c.answers(p, reply, asked) && !reply.Interrupted?
  }

  ghost predicate WellFormed(c: Config) {
    Tiles(c.spans, |c.truth|) && c.width > 0 && Truthful(c) && Responsive(c)
  }

  function Width(c: Config): nat {
    if |c.spans| < c.width then |c.spans| else c.width
  }

  function Length(c: Config, p: nat): nat
    requires WellFormed(c) && p < |c.spans|
  {
    c.spans[p].hi - c.spans[p].lo
  }

  /** The failure a worker sees in a reply about `want` objects, if any. */
  function FailureOf(reply: Reply, want: nat): Option<Failure> {
    match reply
    case Refusal(reason) => Some(Refused(reason))
    case Verdicts(vs) => if |vs| == want then None else Some(Misaligned(|vs|, want))
    case Interrupted => Some(ContextDone)
  }

  /** A store may fail at any time; an answer of the right length is its true verdict. */
  predicate Honest(truth: seq<bool>, reply: Reply) {
    reply.Verdicts? && |reply.vs| == |truth| ==> reply.vs == truth
  }

  function Truth(c: Config, p: nat): seq<bool>
    requires Tiles(c.spans, |c.truth|) && p < |c.spans|
  {
    c.truth[c.spans[p].lo..c.spans[p].hi]
  }

  function Init(c: Config, expired: bool): State {
    State(0, true, seq(Width(c), _ => Waiting), seq(|c.truth|, _ => false), None, false, expired, [], 0)
  }

  // ---------------------------------------------------------------------------------------
  // Steps
  // ---------------------------------------------------------------------------------------

  predicate Done(s: State) { s.cancelled || s.expired }

  predicate Enabled(c: Config, s: State, step: Step)
    requires WellFormed(c)
  {
    match step
    case Feed(w) => s.feeding && s.next < |c.spans| && w < |s.workers| && s.workers[w].Waiting?
    case Abandon => s.feeding && s.next < |c.spans| && Done(s)
    case Close => s.feeding && s.next >= |c.spans|
    case Leave(w) => !s.feeding && w < |s.workers| && s.workers[w].Waiting?
    case Ask(w, reply, asked) =>
      && w < |s.workers| && s.workers[w].Holding? && s.workers[w].part < |c.spans|
      && c.answers(s.workers[w].part, reply, asked) && (reply.Interrupted? ==> Done(s))
    case Settle(w) => w < |s.workers| && s.workers[w].Answered? && s.workers[w].part < |c.spans|
    case Write(w) =>
      && w < |s.workers| && s.workers[w].Storing?
      && s.workers[w].part < |c.spans| && s.workers[w].stored < |s.workers[w].vs|
      && c.spans[s.workers[w].part].lo + s.workers[w].stored < |s.slots|
    case Rejoin(w) =>
      w < |s.workers| && s.workers[w].Storing? && s.workers[w].stored >= |s.workers[w].vs|
    case Expire => !s.expired
  }

  predicate WithStore(wk: Worker) { wk.Holding? }

  /** How many tasks are with the store. */
  function InFlight(ws: seq<Worker>): (n: nat)
    ensures n <= |ws|
  {
    if ws == [] then 0 else (if WithStore(ws[0]) then 1 else 0) + InFlight(ws[1..])
  }

  function Max(a: nat, b: nat): nat { if a < b then b else a }

  function SetWorker(s: State, w: nat, wk: Worker): State
    requires w < |s.workers|
  {
    s.(workers := s.workers[w := wk])
  }

  function Apply(c: Config, s: State, step: Step): State
    requires WellFormed(c) && Enabled(c, s, step)
  {
    match step
    case Feed(w) =>
      var t := SetWorker(s, w, Holding(s.next));
      t.(next := s.next + 1, peak := Max(s.peak, InFlight(t.workers)))
    case Abandon => s.(feeding := false)
    case Close => s.(feeding := false)
    case Leave(w) => SetWorker(s, w, Exited)
    case Ask(w, reply, asked) =>
      var p := s.workers[w].part;
      SetWorker(s, w, Answered(p, reply, asked)).(log := s.log + [Exchange(p, reply, asked)])
    case Settle(w) =>
      var wk := s.workers[w];
      (match FailureOf(wk.reply, Length(c, wk.part))
       case None => SetWorker(s, w, Storing(wk.part, wk.reply.vs, 0))
       case Some(e) =>
         SetWorker(s, w, Exited).(firstErr := if s.firstErr.None? then Some(e) else s.firstErr,
                                  cancelled := true))
    case Write(w) =>
      var wk := s.workers[w];
      SetWorker(s, w, wk.(stored := wk.stored + 1)).
        (slots := s.slots[c.spans[wk.part].lo + wk.stored := wk.vs[wk.stored]])
    case Rejoin(w) => SetWorker(s, w, Waiting)
    case Expire => s.(expired := true)
  }

  /** The feeder has closed the queue and every worker has returned. */
  predicate Terminal(s: State) {
    !s.feeding && forall w :: 0 <= w < |s.workers| ==> s.workers[w].Exited?
  }

  // ---------------------------------------------------------------------------------------
  // What every step keeps
  // ---------------------------------------------------------------------------------------

  ghost predicate Carries(wk: Worker, p: nat) {
    match wk
    case Waiting => false
    case Exited => false
    case Holding(q) => p == q
    case Answered(q, _, _) => p == q
    case Storing(q, _, _) => p == q
  }

  ghost predicate Carried(s: State, p: nat) {
    exists w :: 0 <= w < |s.workers| && Carries(s.workers[w], p)
  }

  ghost predicate Stored(c: Config, s: State, p: nat)
    requires WellFormed(c) && p < |c.spans| && |s.slots| == |c.truth|
  {
    forall k :: c.spans[p].lo <= k < c.spans[p].hi ==> s.slots[k] == c.truth[k]
  }

  ghost predicate Logged(log: seq<Exchange>, p: nat) {
    exists i :: 0 <= i < |log| && log[i].part == p
  }

  ghost predicate Faulty(c: Config, e: Exchange)
    requires WellFormed(c)
  {
    e.part < |c.spans| && FailureOf(e.reply, Length(c, e.part)).Some?
  }

  ghost predicate Shape(c: Config, s: State) {
    && |s.workers| == Width(c)
    && |s.slots| == |c.truth|
    && s.next <= |c.spans|
    && (s.firstErr.Some? <==> s.cancelled)
    && (!s.feeding ==> s.next == |c.spans| || Done(s))
  }

  ghost predicate WorkerOk(c: Config, s: State, wk: Worker)
    requires WellFormed(c) && Shape(c, s)
  {
    match wk
    case Waiting => true
    case Exited => s.cancelled || !s.feeding
    case Holding(p) => p < s.next && !Logged(s.log, p)
    case Answered(p, reply, asked) =>
      p < s.next && Honest(Truth(c, p), reply) && Exchange(p, reply, asked) in s.log
    case Storing(p, vs, stored) =>
      && p < s.next && vs == Truth(c, p) && stored <= |vs| && Logged(s.log, p)
      && forall k :: c.spans[p].lo <= k < c.spans[p].lo + stored ==> s.slots[k] == c.truth[k]
  }

  ghost predicate Exclusive(s: State) {
    forall v, w, p | 0 <= v < w < |s.workers| && Carries(s.workers[v], p) :: !Carries(s.workers[w], p)
  }

  /** Every task handed over is in some worker's hands, or stored, or the pool is cancelled. */
  ghost predicate Accounted(c: Config, s: State)
    requires WellFormed(c) && Shape(c, s)
  {
    forall p :: 0 <= p < s.next ==> s.cancelled || Carried(s, p) || Stored(c, s, p)
  }

  ghost predicate HeldUnasked(s: State, p: nat) {
    exists w :: 0 <= w < |s.workers| && s.workers[w] == Holding(p)
  }

  /** The recorded failure is what one of the calls returned. */
  ghost predicate Reported(c: Config, s: State)
    requires WellFormed(c)
  {
    exists i :: 0 <= i < |s.log| && s.log[i].part < |c.spans|
                && FailureOf(s.log[i].reply, Length(c, s.log[i].part)) == s.firstErr
  }

  ghost predicate FaultPending(s: State, e: Exchange) {
    exists w :: 0 <= w < |s.workers| && s.workers[w] == Answered(e.part, e.reply, e.asked)
  }

  ghost predicate LogOk(c: Config, s: State)
    requires WellFormed(c) && Shape(c, s)
  {
    && (forall i :: 0 <= i < |s.log| ==>
          s.log[i].part < s.next && Honest(Truth(c, s.log[i].part), s.log[i].reply))
    && (forall i, j :: 0 <= i < j < |s.log| ==> s.log[i].part != s.log[j].part)
    && (forall p :: 0 <= p < s.next ==> Logged(s.log, p) || HeldUnasked(s, p))
    && (forall i :: 0 <= i < |s.log| && Faulty(c, s.log[i]) ==> s.cancelled || FaultPending(s, s.log[i]))
    && (s.firstErr.Some? ==> Reported(c, s))
  }

  ghost predicate Kept(c: Config, s: State)
    requires WellFormed(c)
  {
    && Shape(c, s)
    && (forall w :: 0 <= w < |s.workers| ==> WorkerOk(c, s, s.workers[w]))
    && Exclusive(s)
    && Accounted(c, s)
    && LogOk(c, s)
    && (forall k :: 0 <= k < |s.slots| && s.slots[k] ==> c.truth[k])
  }

  lemma InitInv(c: Config, expired: bool)
    requires WellFormed(c)
    ensures Inv(c, Init(c, expired))
  {
    NobodyInFlight(Width(c));
  }

  /**
    What the log and the figures say: every reply is one its task may come to, a call is broken
    off only once the context is done, the context is reported only when the parent's expired,
    and the peak is one.
  */
  ghost predicate Traced(c: Config, s: State) {
    && (forall i :: 0 <= i < |s.log| ==> c.answers(s.log[i].part, s.log[i].reply, s.log[i].asked))
    && (forall i :: 0 <= i < |s.log| && s.log[i].reply.Interrupted? ==> Done(s))
    && (s.firstErr == Some(ContextDone) ==> s.expired)
    && InFlight(s.workers) <= s.peak <= |s.workers|
  }

  ghost predicate Inv(c: Config, s: State)
    requires WellFormed(c)
  {
    Kept(c, s) && Traced(c, s)
  }

  lemma NobodyInFlight(n: nat)
    ensures InFlight(seq(n, _ => Waiting)) == 0
  {
    if n > 0 {
      assert seq(n, _ => Waiting)[1..] == seq(n - 1, _ => Waiting);
      NobodyInFlight(n - 1);
    }
  }

  // How one worker's move touches the rest of the invariant. In each lemma t is a state
  // reached from s in which only worker w changed hands.

  ghost predicate Moved(s: State, t: State, w: nat) {
    && w < |s.workers| == |t.workers|
    && t.workers == s.workers[w := t.workers[w]]
    && s.next <= t.next
    && (s.cancelled ==> t.cancelled && t.firstErr == s.firstErr)
    && s.feeding == t.feeding
  }

  ghost predicate SlotsKept(c: Config, s: State, t: State)
    requires |s.slots| == |t.slots| == |c.truth|
  {
    forall k :: 0 <= k < |s.slots| && s.slots[k] == c.truth[k] ==> t.slots[k] == c.truth[k]
  }

  /** A worker that moves on with the task it had keeps everybody's hands disjoint. */
  lemma StillExclusive(s: State, t: State, w: nat)
    requires Exclusive(s) && Moved(s, t, w)
    requires forall p :: Carries(t.workers[w], p) ==> Carries(s.workers[w], p)
    ensures Exclusive(t)
  {}

  lemma StillAccounted(c: Config, s: State, t: State, w: nat)
    requires WellFormed(c) && Shape(c, s) && Shape(c, t) && Accounted(c, s)
    requires Moved(s, t, w) && SlotsKept(c, s, t)
    requires forall p | 0 <= p < s.next && Carries(s.workers[w], p) ::
               t.cancelled || Carries(t.workers[w], p) || Stored(c, t, p)
    requires forall p | s.next <= p < t.next :: Carries(t.workers[w], p)
    ensures Accounted(c, t)
  {
    forall p | 0 <= p < t.next ensures t.cancelled || Carried(t, p) || Stored(c, t, p) {
      if p < s.next && !t.cancelled && Carried(s, p) {
        var v :| 0 <= v < |s.workers| && Carries(s.workers[v], p);
        assert v != w ==> Carries(t.workers[v], p);
      } else if p >= s.next {
        assert Carries(t.workers[w], p);
      }
    }
  }

  lemma StillLogged(c: Config, s: State, t: State, w: nat)
    requires WellFormed(c) && Shape(c, s) && Shape(c, t) && LogOk(c, s)
    requires Moved(s, t, w) && t.log == s.log && !s.workers[w].Holding?
    requires s.workers[w].Answered? ==>
               t.cancelled || !Faulty(c, Exchange(s.workers[w].part, s.workers[w].reply, s.workers[w].asked))
    requires t.firstErr.Some? && s.firstErr.None? ==> Reported(c, t)
    requires t.next == s.next || (t.next == s.next + 1 && t.workers[w] == Holding(s.next))
    ensures LogOk(c, t)
  {
    forall p | 0 <= p < t.next ensures Logged(t.log, p) || HeldUnasked(t, p) {
      if p < s.next && !Logged(s.log, p) {
        var v :| 0 <= v < |s.workers| && s.workers[v] == Holding(p);
        assert t.workers[v] == Holding(p);
      }
    }
    forall i | 0 <= i < |s.log| && Faulty(c, s.log[i]) ensures t.cancelled || FaultPending(t, s.log[i]) {
      if !t.cancelled {
        var v :| 0 <= v < |s.workers| && s.workers[v] == Answered(s.log[i].part, s.log[i].reply, s.log[i].asked);
        assert t.workers[v] == s.workers[v];
      }
    }
    assert s.firstErr.Some? ==> Reported(c, s) && Reported(c, t);
  }

  lemma StillOk(c: Config, s: State, t: State, w: nat)
    requires WellFormed(c) && Shape(c, s) && Shape(c, t) && Moved(s, t, w) && SlotsKept(c, s, t)
    requires forall v :: 0 <= v < |s.workers| ==> WorkerOk(c, s, s.workers[v])
    requires t.log == s.log && WorkerOk(c, t, t.workers[w])
    ensures forall v :: 0 <= v < |t.workers| ==> WorkerOk(c, t, t.workers[v])
  {
    forall v | 0 <= v < |t.workers| ensures WorkerOk(c, t, t.workers[v]) {
      if v != w {
        assert WorkerOk(c, s, s.workers[v]) && t.workers[v] == s.workers[v];
      }
    }
  }

  lemma FeedKeeps(c: Config, s: State, w: nat)
    requires WellFormed(c) && Kept(c, s) && Enabled(c, s, Feed(w))
    ensures Kept(c, Apply(c, s, Feed(w)))
  {
    var t := Apply(c, s, Feed(w));
    assert Exclusive(t) by {
      assert forall v :: 0 <= v < |s.workers| ==> WorkerOk(c, s, s.workers[v]);
    }
    StillAccounted(c, s, t, w);
    StillLogged(c, s, t, w);
    StillOk(c, s, t, w);
  }

  lemma FeederKeeps(c: Config, s: State, step: Step)
    requires WellFormed(c) && Kept(c, s) && Enabled(c, s, step)
    requires step.Abandon? || step.Close? || step.Expire?
    ensures Kept(c, Apply(c, s, step))
  {
    var t := Apply(c, s, step);
    assert t.workers == s.workers && t.log == s.log && t.slots == s.slots;
    forall p | 0 <= p < s.next && Carried(s, p) ensures Carried(t, p) {}
    forall p | 0 <= p < s.next && HeldUnasked(s, p) ensures HeldUnasked(t, p) {}
    forall i | 0 <= i < |s.log| && FaultPending(s, s.log[i]) ensures FaultPending(t, s.log[i]) {}
  }

  lemma LeaveKeeps(c: Config, s: State, w: nat)
    requires WellFormed(c) && Kept(c, s) && Enabled(c, s, Leave(w))
    ensures Kept(c, Apply(c, s, Leave(w)))
  {
    var t := Apply(c, s, Leave(w));
    StillExclusive(s, t, w);
    StillAccounted(c, s, t, w);
    StillLogged(c, s, t, w);
    StillOk(c, s, t, w);
  }

  /** The log after a task came back is the log before it and that task. */
  ghost predicate OneMoreLogged(s: State, t: State, w: nat, e: Exchange) {
    && w < |s.workers| == |t.workers| && s.workers[w] == Holding(e.part)
    && t.workers == s.workers[w := Answered(e.part, e.reply, e.asked)]
    && t.log == s.log + [e] && t.next == s.next && t.cancelled == s.cancelled && t.firstErr == s.firstErr
  }

  lemma StillUnasked(s: State, t: State, w: nat, e: Exchange, p: nat)
    requires OneMoreLogged(s, t, w, e) && (Logged(s.log, p) || HeldUnasked(s, p))
    ensures Logged(t.log, p) || HeldUnasked(t, p)
  {
    if Logged(s.log, p) {
      var i :| 0 <= i < |s.log| && s.log[i].part == p;
      assert t.log[i].part == p;
    } else {
      var v :| 0 <= v < |s.workers| && s.workers[v] == Holding(p);
      assert if v == w then t.log[|s.log|].part == p else t.workers[v] == Holding(p);
    }
  }

  lemma StillPending(s: State, t: State, w: nat, e: Exchange, f: Exchange)
    requires OneMoreLogged(s, t, w, e) && (f == e || FaultPending(s, f))
    ensures FaultPending(t, f)
  {
    if f == e {
      assert t.workers[w] == Answered(f.part, f.reply, f.asked);
    } else {
      var v :| 0 <= v < |s.workers| && s.workers[v] == Answered(f.part, f.reply, f.asked);
      assert t.workers[v] == s.workers[v];
    }
  }

  lemma StillReported(c: Config, s: State, t: State, w: nat, e: Exchange)
    requires WellFormed(c) && OneMoreLogged(s, t, w, e) && Reported(c, s)
    ensures Reported(c, t)
  {
    var i :| 0 <= i < |s.log| && s.log[i].part < |c.spans|
             && FailureOf(s.log[i].reply, Length(c, s.log[i].part)) == s.firstErr;
    assert t.log[i] == s.log[i];
  }

  lemma AskLogs(c: Config, s: State, w: nat, reply: Reply, asked: seq<Question>)
    requires WellFormed(c) && Kept(c, s) && Enabled(c, s, Ask(w, reply, asked))
    ensures LogOk(c, Apply(c, s, Ask(w, reply, asked)))
  {
    var t := Apply(c, s, Ask(w, reply, asked));
    var e := Exchange(s.workers[w].part, reply, asked);
    assert WorkerOk(c, s, s.workers[w]);
    assert OneMoreLogged(s, t, w, e);
    assert forall i :: 0 <= i < |s.log| ==> t.log[i] == s.log[i];
    forall p | 0 <= p < s.next ensures Logged(t.log, p) || HeldUnasked(t, p) {
      StillUnasked(s, t, w, e, p);
    }
    forall i | 0 <= i < |t.log| && Faulty(c, t.log[i]) ensures t.cancelled || FaultPending(t, t.log[i]) {
      if !s.cancelled {
        StillPending(s, t, w, e, t.log[i]);
      }
    }
    if s.firstErr.Some? {
      StillReported(c, s, t, w, e);
    }
  }

  /** A call answered for one worker leaves every other worker's bookkeeping in order. */
  lemma LogGrows(c: Config, s: State, t: State, v: nat)
    requires WellFormed(c) && Shape(c, s) && Shape(c, t)
    requires v < |s.workers| == |t.workers| && s.workers[v] == t.workers[v] && WorkerOk(c, s, s.workers[v])
    requires |t.log| == |s.log| + 1 && t.log[..|s.log|] == s.log
    requires !Carries(s.workers[v], t.log[|s.log|].part)
    requires t.slots == s.slots && t.next == s.next && t.cancelled == s.cancelled && t.feeding == s.feeding
    ensures WorkerOk(c, t, t.workers[v])
  {
    assert forall i :: 0 <= i < |s.log| ==> t.log[i] == s.log[i];
    match s.workers[v]
    case Storing(p, _, _) =>
      var i :| 0 <= i < |s.log| && s.log[i].part == p;
      assert t.log[i].part == p;
    case _ =>
  }

  lemma AskKeeps(c: Config, s: State, w: nat, reply: Reply, asked: seq<Question>)
    requires WellFormed(c) && Kept(c, s) && Enabled(c, s, Ask(w, reply, asked))
    ensures Kept(c, Apply(c, s, Ask(w, reply, asked)))
  {
    var t := Apply(c, s, Ask(w, reply, asked));
    AskLogs(c, s, w, reply, asked);
    StillExclusive(s, t, w);
    StillAccounted(c, s, t, w);
    forall v | 0 <= v < |t.workers| ensures WorkerOk(c, t, t.workers[v]) {
      assert WorkerOk(c, s, s.workers[v]);
      if v == w {
        assert t.log[|s.log|] == Exchange(t.workers[w].part, reply, asked);
      } else {
        assert Carries(s.workers[w], t.log[|s.log|].part);
        LogGrows(c, s, t, v);
      }
    }
  }

  /** A failure a worker settles is one that was logged. */
  lemma SettledIsReported(c: Config, s: State, w: nat)
    requires WellFormed(c) && Kept(c, s) && Enabled(c, s, Settle(w))
    ensures var t := Apply(c, s, Settle(w)); t.firstErr.Some? && s.firstErr.None? ==> Reported(c, t)
  {
    var e := Exchange(s.workers[w].part, s.workers[w].reply, s.workers[w].asked);
    var t := Apply(c, s, Settle(w));
    assert WorkerOk(c, s, s.workers[w]);
    var j :| 0 <= j < |s.log| && s.log[j] == e;
    assert t.log[j] == e;
  }

  /** What a worker turns into when it settles its reply is in order. */
  lemma SettledWorkerOk(c: Config, s: State, w: nat)
    requires WellFormed(c) && Kept(c, s) && Enabled(c, s, Settle(w))
    ensures var t := Apply(c, s, Settle(w)); Shape(c, t) && WorkerOk(c, t, t.workers[w])
  {
    var e := Exchange(s.workers[w].part, s.workers[w].reply, s.workers[w].asked);
    var t := Apply(c, s, Settle(w));
    assert WorkerOk(c, s, s.workers[w]);
    var j :| 0 <= j < |s.log| && s.log[j] == e;
    assert t.log[j].part == e.part;
  }

  lemma SettleKeeps(c: Config, s: State, w: nat)
    requires WellFormed(c) && Kept(c, s) && Enabled(c, s, Settle(w))
    ensures Kept(c, Apply(c, s, Settle(w)))
  {
    var t := Apply(c, s, Settle(w));
    SettledWorkerOk(c, s, w);
    SettledIsReported(c, s, w);
    StillExclusive(s, t, w);
    StillAccounted(c, s, t, w);
    StillLogged(c, s, t, w);
    StillOk(c, s, t, w);
  }

  lemma WriteKeeps(c: Config, s: State, w: nat)
    requires WellFormed(c) && Kept(c, s) && Enabled(c, s, Write(w))
    ensures Kept(c, Apply(c, s, Write(w)))
  {
    var wk := s.workers[w];
    var t := Apply(c, s, Write(w));
    assert WorkerOk(c, s, wk);
    var k0 := c.spans[wk.part].lo + wk.stored;
    assert wk.vs[wk.stored] == c.truth[k0];
    assert forall k :: 0 <= k < |s.slots| ==> t.slots[k] == if k == k0 then c.truth[k0] else s.slots[k];
    StillExclusive(s, t, w);
    StillAccounted(c, s, t, w);
    StillLogged(c, s, t, w);
    assert WorkerOk(c, t, t.workers[w]) by { assert Logged(s.log, wk.part) && t.log == s.log; }
    StillOk(c, s, t, w);
  }

  lemma RejoinKeeps(c: Config, s: State, w: nat)
    requires WellFormed(c) && Kept(c, s) && Enabled(c, s, Rejoin(w))
    ensures Kept(c, Apply(c, s, Rejoin(w)))
  {
    var t := Apply(c, s, Rejoin(w));
    assert WorkerOk(c, s, s.workers[w]);
    assert Stored(c, t, s.workers[w].part);
    StillExclusive(s, t, w);
    StillAccounted(c, s, t, w);
    StillLogged(c, s, t, w);
    StillOk(c, s, t, w);
  }

  lemma {:induction false} InFlightUpdate(ws: seq<Worker>, w: nat, wk: Worker)
    requires w < |ws|
    ensures InFlight(ws[w := wk]) ==
            InFlight(ws) - (if WithStore(ws[w]) then 1 else 0) + (if WithStore(wk) then 1 else 0)
  {
    if w == 0 {
      assert ws[w := wk][1..] == ws[1..];
    } else {
      assert ws[w := wk][1..] == ws[1..][w - 1 := wk];
      InFlightUpdate(ws[1..], w - 1, wk);
    }
  }

  /** A step that neither logs nor reports anything. */
  lemma QuietTraces(c: Config, s: State, step: Step)
    requires WellFormed(c) && Shape(c, s) && Traced(c, s) && Enabled(c, s, step) && !step.Ask? && !step.Settle?
    ensures Traced(c, Apply(c, s, step))
  {
    var t := Apply(c, s, step);
    assert t.log == s.log && t.firstErr == s.firstErr && (Done(s) ==> Done(t));
    if !(step.Abandon? || step.Close? || step.Expire?) {
      InFlightUpdate(s.workers, step.w, t.workers[step.w]);
    }
  }

  lemma AskTraces(c: Config, s: State, step: Step)
    requires WellFormed(c) && Shape(c, s) && Traced(c, s) && Enabled(c, s, step) && step.Ask?
    ensures Traced(c, Apply(c, s, step))
  {
    var t := Apply(c, s, step);
    InFlightUpdate(s.workers, step.w, t.workers[step.w]);
    assert forall i :: 0 <= i < |s.log| ==> t.log[i] == s.log[i];
  }

  /** The context is the first error only if the parent's expired: nobody had cancelled yet. */
  lemma FirstErrorOfContext(c: Config, s: State, w: nat)
    requires WellFormed(c) && Shape(c, s) && Traced(c, s) && Enabled(c, s, Settle(w))
    requires WorkerOk(c, s, s.workers[w])
    ensures Apply(c, s, Settle(w)).firstErr == Some(ContextDone) ==> s.expired
  {
    var wk := s.workers[w];
    var i :| 0 <= i < |s.log| && s.log[i] == Exchange(wk.part, wk.reply, wk.asked);
    assert wk.reply.Interrupted? ==> Done(s);
  }

  lemma SettleMoves(c: Config, s: State, w: nat)
    requires WellFormed(c) && Enabled(c, s, Settle(w))
    ensures var t := Apply(c, s, Settle(w));
            && |t.workers| == |s.workers| && t.workers == s.workers[w := t.workers[w]]
            && !WithStore(t.workers[w]) && !WithStore(s.workers[w])
            && t.log == s.log && t.peak == s.peak && t.expired == s.expired && (s.cancelled ==> t.cancelled)
  {}

  lemma SettleTraces(c: Config, s: State, w: nat)
    requires WellFormed(c) && Shape(c, s) && Traced(c, s) && Enabled(c, s, Settle(w))
    requires WorkerOk(c, s, s.workers[w])
    ensures Traced(c, Apply(c, s, Settle(w)))
  {
    var t := Apply(c, s, Settle(w));
    SettleMoves(c, s, w);
    FirstErrorOfContext(c, s, w);
    InFlightUpdate(s.workers, w, t.workers[w]);
  }

  lemma StepKeeps(c: Config, s: State, step: Step)
    requires WellFormed(c) && Inv(c, s) && Enabled(c, s, step)
    ensures Inv(c, Apply(c, s, step))
  {
    if step.Ask? {
      AskTraces(c, s, step);
    } else if step.Settle? {
      SettleTraces(c, s, step.w);
    } else {
      QuietTraces(c, s, step);
    }
    match step
    case Feed(w) => FeedKeeps(c, s, w);
    case Leave(w) => LeaveKeeps(c, s, w);
    case Ask(w, reply, asked) => AskKeeps(c, s, w, reply, asked);
    case Settle(w) => SettleKeeps(c, s, w);
    case Write(w) => WriteKeeps(c, s, w);
    case Rejoin(w) => RejoinKeeps(c, s, w);
    case _ => FeederKeeps(c, s, step);
  }

  // ---------------------------------------------------------------------------------------
  // The pool always finishes
  // ---------------------------------------------------------------------------------------

  /** How many steps of its own a worker can still take with the task in its hands. */
  function Rank(c: Config, wk: Worker): nat
    requires WellFormed(c)
  {
    match wk
    case Exited => 0
    case Waiting => 1
    case Storing(_, vs, stored) => if stored < |vs| then 2 + |vs| - stored else 2
    case Answered(p, _, _) => if p < |c.spans| then 3 + Length(c, p) else 0
    case Holding(p) => if p < |c.spans| then 4 + Length(c, p) else 0
  }

  function Ranks(c: Config, ws: seq<Worker>): nat
    requires WellFormed(c)
  {
    if ws == [] then 0 else Rank(c, ws[0]) + Ranks(c, ws[1..])
  }

  function Unfed(c: Config, from: nat): nat
    requires WellFormed(c)
    decreases |c.spans| - from
  {
    if from >= |c.spans| then 0 else 4 + Length(c, from) + Unfed(c, from + 1)
  }

  function Measure(c: Config, s: State): nat
    requires WellFormed(c)
  {
    (if s.expired then 0 else 1) + (if s.feeding then 1 else 0) + Unfed(c, s.next) + Ranks(c, s.workers)
  }

  lemma {:induction false} RanksUpdate(c: Config, ws: seq<Worker>, w: nat, wk: Worker)
    requires WellFormed(c) && w < |ws|
    ensures Ranks(c, ws[w := wk]) == Ranks(c, ws) - Rank(c, ws[w]) + Rank(c, wk)
  {
    if w == 0 {
      assert ws[w := wk][1..] == ws[1..];
    } else {
      assert ws[w := wk][1..] == ws[1..][w - 1 := wk];
      RanksUpdate(c, ws[1..], w - 1, wk);
    }
  }

  /** A worker's own step leaves it fewer to take. */
  lemma RankDrops(c: Config, s: State, step: Step)
    requires WellFormed(c) && Enabled(c, s, step)
    requires step.Leave? || step.Ask? || step.Write? || step.Rejoin?
    ensures Rank(c, Apply(c, s, step).workers[step.w]) < Rank(c, s.workers[step.w])
  {}

  lemma RankDropsAtSettling(c: Config, s: State, w: nat)
    requires WellFormed(c) && Enabled(c, s, Settle(w))
    ensures Rank(c, Apply(c, s, Settle(w)).workers[w]) < Rank(c, s.workers[w])
  {}

  lemma FeedShrinks(c: Config, s: State, w: nat)
    requires WellFormed(c) && Enabled(c, s, Feed(w))
    ensures Measure(c, Apply(c, s, Feed(w))) < Measure(c, s)
  {
    RanksUpdate(c, s.workers, w, Holding(s.next));
  }

  lemma WorkerShrinks(c: Config, s: State, t: State, w: nat)
    requires WellFormed(c) && w < |s.workers| && w < |t.workers| && t.workers == s.workers[w := t.workers[w]]
    requires t.expired == s.expired && t.feeding == s.feeding && t.next == s.next
    requires Rank(c, t.workers[w]) < Rank(c, s.workers[w])
    ensures Measure(c, t) < Measure(c, s)
  {
    RanksUpdate(c, s.workers, w, t.workers[w]);
  }

  lemma FeederShrinks(c: Config, s: State, step: Step)
    requires WellFormed(c) && Enabled(c, s, step) && (step.Abandon? || step.Close? || step.Expire?)
    ensures Measure(c, Apply(c, s, step)) < Measure(c, s)
  {}

  /** A worker's own step moves nothing the measure counts but that worker. */
  lemma OneWorkerMoves(c: Config, s: State, step: Step)
    requires WellFormed(c) && Enabled(c, s, step)
    requires step.Leave? || step.Ask? || step.Settle? || step.Write? || step.Rejoin?
    ensures var t := Apply(c, s, step);
            && |t.workers| == |s.workers| && t.workers == s.workers[step.w := t.workers[step.w]]
            && t.expired == s.expired && t.feeding == s.feeding && t.next == s.next
  {}

  lemma StepShrinks(c: Config, s: State, step: Step)
    requires WellFormed(c) && Enabled(c, s, step)
    ensures Measure(c, Apply(c, s, step)) < Measure(c, s)
  {
    if step.Abandon? || step.Close? || step.Expire? {
      FeederShrinks(c, s, step);
    } else if step.Feed? {
      FeedShrinks(c, s, step.w);
    } else {
      if step.Settle? {
        RankDropsAtSettling(c, s, step.w);
      } else {
        RankDrops(c, s, step);
      }
      OneWorkerMoves(c, s, step);
      WorkerShrinks(c, s, Apply(c, s, step), step.w);
    }
  }

  /**
    No deadlock: whatever the environment does, a pool that has not finished has a step of
    its own to take. A feeder left without a receiver can take the cancel branch, because a
    worker leaves an open queue only after cancelling.
  */
  lemma NeverStuck(c: Config, s: State) returns (step: Step)
    requires WellFormed(c) && Inv(c, s) && !Terminal(s)
    ensures Enabled(c, s, step) && !step.Expire?
  {
    if w :| 0 <= w < |s.workers| && !s.workers[w].Exited? && !s.workers[w].Waiting? {
      assert WorkerOk(c, s, s.workers[w]);
      match s.workers[w]
      case Holding(p) =>
        assert Responds(c, p);
        var reply, asked :| c.answers(p, reply, asked) && !reply.Interrupted?;
        step := Ask(w, reply, asked);
      case Answered(p, _, _) => step := Settle(w);
      case Storing(p, vs, stored) => step := if stored < |vs| then Write(w) else Rejoin(w);
    } else if w :| 0 <= w < |s.workers| && s.workers[w].Waiting? {
      step := if !s.feeding then Leave(w) else if s.next < |c.spans| then Feed(w) else Close;
    } else {
      assert forall w :: 0 <= w < |s.workers| ==> s.workers[w].Exited?;
      assert s.feeding;
      if s.next < |c.spans| {
        assert WorkerOk(c, s, s.workers[0]);
        step := Abandon;
      } else {
        step := Close;
      }
    }
  }

  // ---------------------------------------------------------------------------------------
  // Whole runs
  // ---------------------------------------------------------------------------------------

  ghost predicate Run(c: Config, s: State, steps: seq<Step>, t: State)
    requires WellFormed(c)
    decreases |steps|
  {
    if steps == [] then s == t
    else Enabled(c, s, steps[0]) && Run(c, Apply(c, s, steps[0]), steps[1..], t)
  }

  /** The calls of a finished pool: every task asked exactly once. */
  ghost predicate AskedOnceEach(c: Config, s: State) {
    && |s.log| == |c.spans|
    && (forall i :: 0 <= i < |s.log| ==> s.log[i].part < |c.spans|)
    && (forall i, j :: 0 <= i < j < |s.log| ==> s.log[i].part != s.log[j].part)
    && (forall p :: 0 <= p < |c.spans| ==> Logged(s.log, p))
  }

  ghost predicate SomeFault(c: Config, s: State)
    requires WellFormed(c)
  {
    exists i :: 0 <= i < |s.log| && Faulty(c, s.log[i])
  }

  /** What a finished pool has established. */
  ghost predicate Settled(c: Config, s: State)
    requires WellFormed(c)
  {
    && |s.slots| == |c.truth|
    && (s.firstErr.Some? <==> SomeFault(c, s))
    && (s.firstErr.Some? ==> Reported(c, s))
    && (s.firstErr == Some(ContextDone) ==> s.expired)
    && (forall i :: 0 <= i < |s.log| ==>
          s.log[i].part < |c.spans| && c.answers(s.log[i].part, s.log[i].reply, s.log[i].asked))
    && (forall k :: 0 <= k < |s.slots| && s.slots[k] ==> c.truth[k])
    && s.peak <= c.width
    && (s.firstErr.None? && !s.expired ==> s.slots == c.truth && AskedOnceEach(c, s))
  }

  /** With nothing in hand, no error and no expiry, every slot holds its verdict. */
  lemma AllStored(c: Config, s: State, k: nat)
    requires WellFormed(c) && Inv(c, s) && Terminal(s) && s.firstErr.None? && !s.expired && k < |s.slots|
    ensures s.slots[k] == c.truth[k]
  {
    assert Covered(c.spans, k);
    var p :| 0 <= p < |c.spans| && c.spans[p].Covers(k);
    assert !Carried(s, p) && Stored(c, s, p);
  }

  lemma AllAsked(c: Config, s: State)
    requires WellFormed(c) && Inv(c, s) && Terminal(s) && s.firstErr.None? && !s.expired
    ensures AskedOnceEach(c, s)
  {
    forall p | 0 <= p < |c.spans| ensures Logged(s.log, p) {
      assert !HeldUnasked(s, p);
    }
    CountTasks(s.log, |c.spans|);
  }

  lemma ErrorsAreFaults(c: Config, s: State)
    requires WellFormed(c) && Inv(c, s) && Terminal(s)
    ensures s.firstErr.Some? <==> SomeFault(c, s)
  {
    if s.firstErr.Some? {
      var i :| 0 <= i < |s.log| && s.log[i].part < |c.spans|
               && FailureOf(s.log[i].reply, Length(c, s.log[i].part)) == s.firstErr;
      assert Faulty(c, s.log[i]);
    }
    if i :| 0 <= i < |s.log| && Faulty(c, s.log[i]) {
      assert s.cancelled || FaultPending(s, s.log[i]);
    }
  }

  lemma AtTheEnd(c: Config, s: State)
    requires WellFormed(c) && Inv(c, s) && Terminal(s)
    ensures Settled(c, s)
  {
    ErrorsAreFaults(c, s);
    if s.firstErr.None? && !s.expired {
      forall k: nat | k < |s.slots| ensures s.slots[k] == c.truth[k] {
        AllStored(c, s, k);
      }
      AllAsked(c, s);
    }
  }

  /** Calls about pairwise different tasks, covering all n of them, number n. */
  lemma {:induction false} CountTasks(log: seq<Exchange>, n: nat)
    requires forall i :: 0 <= i < |log| ==> log[i].part < n
    requires forall i, j :: 0 <= i < j < |log| ==> log[i].part != log[j].part
    requires forall p :: 0 <= p < n ==> Logged(log, p)
    ensures |log| == n
  {
    if log == [] {
      assert n > 0 ==> Logged(log, 0);
    } else {
      assert log[0].part < n && Logged(log, n - 1);
      var i :| 0 <= i < |log| && log[i].part == n - 1;
      var rest := log[..i] + log[i + 1..];
      forall p | 0 <= p < n - 1 ensures Logged(rest, p) {
        assert Logged(log, p);
        var j :| 0 <= j < |log| && log[j].part == p;
        assert rest[if j < i then j else j - 1].part == p;
      }
      CountTasks(rest, n - 1);
    }
  }

  /**
    Every interleaving. From a fresh pool, however feeder, workers, store and parent context
    are scheduled, the run keeps the invariant, is bounded in length, is never stuck before
    its end, never has more than `width` tasks with the store, and at its end has either
    reported a failure some task came to, or been cut short by the parent context, or carried
    out every task once and stored every verdict.
  */
  lemma EveryInterleaving(c: Config, expired: bool, steps: seq<Step>, t: State)
    requires WellFormed(c) && Run(c, Init(c, expired), steps, t)
    ensures Inv(c, t) && InFlight(t.workers) <= t.peak <= c.width
    ensures |t.workers| == if |c.spans| < c.width then |c.spans| else c.width
    ensures |steps| <= Measure(c, Init(c, expired))
    ensures !Terminal(t) ==> exists step :: Enabled(c, t, step) && !step.Expire?
    ensures Terminal(t) ==> Settled(c, t)
  {
    InitInv(c, expired);
    RunKeeps(c, Init(c, expired), steps, t);
    if Terminal(t) {
      AtTheEnd(c, t);
    } else {
      var step := NeverStuck(c, t);
    }
  }

  lemma {:induction false} RunKeeps(c: Config, s: State, steps: seq<Step>, t: State)
    requires WellFormed(c) && Inv(c, s) && Run(c, s, steps, t)
    ensures Inv(c, t)
    ensures |steps| + Measure(c, t) <= Measure(c, s)
    ensures s.expired ==> t.expired
    decreases |steps|
  {
    if steps != [] {
      StepKeeps(c, s, steps[0]);
      StepShrinks(c, s, steps[0]);
      RunKeeps(c, Apply(c, s, steps[0]), steps[1..], t);
    }
  }

  /** No two workers write the same slot. */
  lemma WritersAreDisjoint(c: Config, s: State, w: nat, v: nat, k: int)
    requires WellFormed(c) && Inv(c, s) && w < |s.workers| && v < |s.workers| && v != w
    requires s.workers[w].Storing? && s.workers[w].part < |c.spans| && c.spans[s.workers[w].part].Covers(k)
    ensures !Carries(s.workers[v], s.workers[w].part)
    ensures s.workers[v].Storing? ==> s.workers[v].part < |c.spans| && !c.spans[s.workers[v].part].Covers(k)
  {
    assert Carries(s.workers[w], s.workers[w].part);
    if s.workers[v].Storing? {
      assert WorkerOk(c, s, s.workers[v]) && Carries(s.workers[v], s.workers[v].part);
    }
  }

  /**
    The result slots need no lock: a slot changes only under the hand of the worker that
    carries the task covering it, and no other worker carries that task.
  */
  lemma SlotsHaveOneWriter(c: Config, s: State, step: Step, k: nat)
    requires WellFormed(c) && Inv(c, s) && Enabled(c, s, step)
    requires k < |s.slots| && Apply(c, s, step).slots[k] != s.slots[k]
    ensures step.Write? && s.workers[step.w].Storing? && s.workers[step.w].part < |c.spans|
    ensures c.spans[s.workers[step.w].part].Covers(k)
    ensures forall v :: 0 <= v < |s.workers| && v != step.w ==> !Carries(s.workers[v], s.workers[step.w].part)
    ensures forall v :: 0 <= v < |s.workers| && v != step.w && s.workers[v].Storing? ==>
              s.workers[v].part < |c.spans| && !c.spans[s.workers[v].part].Covers(k)
  {
    assert step.Write?;
    assert WorkerOk(c, s, s.workers[step.w]);
    forall v: nat | v < |s.workers| && v != step.w
      ensures !Carries(s.workers[v], s.workers[step.w].part)
      ensures s.workers[v].Storing? ==> s.workers[v].part < |c.spans| && !c.spans[s.workers[v].part].Covers(k)
    {
      WritersAreDisjoint(c, s, step.w, v, k);
    }
  }

  method Take(c: Config, s: State, step: Step) returns (t: State)
    requires WellFormed(c) && Inv(c, s) && Enabled(c, s, step)
    ensures Inv(c, t) && Measure(c, t) < Measure(c, s) && (s.expired ==> t.expired)
  {
    StepKeeps(c, s, step);
    StepShrinks(c, s, step);
    t := Apply(c, s, step);
  }

  /** A step the schedule may take. */
  method Choose(c: Config, s: State) returns (step: Step)
    requires WellFormed(c) && Inv(c, s) && !Terminal(s)
    ensures Enabled(c, s, step)
  {
    ghost var enabled := NeverStuck(c, s);
    step :| Enabled(c, s, step);
  }

  /** Runs a pool to its end under an arbitrary schedule. */
  method RunPool(c: Config, expired: bool) returns (s: State)
    requires WellFormed(c)
    ensures Settled(c, s)
    ensures expired ==> s.expired
  {
    s := Init(c, expired);
    InitInv(c, expired);
    while !Terminal(s)
      invariant Inv(c, s)
      invariant expired ==> s.expired
      decreases Measure(c, s)
    {
      var step := Choose(c, s);
      s := Take(c, s, step);
    }
    AtTheEnd(c, s);
  }
}
