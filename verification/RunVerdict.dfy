/** The verdict of a run, and the agreement between the tool that writes it and the one that checks it. */
module RunVerdict {
  import opened Outcomes
  import opened History
  import opened TestEvents
  import opened Census
  import opened CensusFacts
  import opened WrittenCensus

  datatype Verdict = Unknown | Mixed | Named | PackageFailed | Passed

  predicate Complete(c: Summary) {
    c.nonJSON == 0 && |c.packages| > 0 && c.unterminatedPackages == {} && c.unterminatedTests == {}
  }

  predicate SomeBuildFailed(c: Summary) { true in c.builds.Values }

  function OutcomeOf(c: Summary, goRC: int): Verdict {
    if !Complete(c) then Unknown
    else if c.namedFailures != {} then (if c.packageOnlyFailures != {} then Mixed else Named)
    else if c.failedPackages != {} || SomeBuildFailed(c) then PackageFailed
    else if goRC == 0 then Passed
    else Unknown
  }

  function HelperRC(c: Summary, goRC: int): int {
    if !Complete(c) then 2
    else if goRC != 0 || c.namedFailures != {} || c.failedPackages != {} || SomeBuildFailed(c) then 1
    else 0
  }

  // ---------------------------------------------------------------------------------------
  // What the verdict says about the stream
  // ---------------------------------------------------------------------------------------

  /** A package blamed a build that the stream never reported failed. */
  ghost predicate Dangling(h: seq<Event>, p: string) {
    LastFailedBuild(h, p) != "" && !Ever(h, BuildFails(LastFailedBuild(h, p)))
  }

  /** The stream is whole: every line read, every opened thing ended, something ended at all. */
  ghost predicate Whole(h: seq<Event>, malformed: nat) {
    && malformed == 0
    && (forall p :: !Dangling(h, p))
    && Ever(h, SomePackageEnds())
    && (forall p :: !PackageOpen(h, p))
    && (forall k: Key :: !TestOpen(h, k))
  }

  lemma DanglingTold(h: seq<Event>)
    ensures DanglingBuild(Tallied(h).builds) <==> exists p :: Dangling(h, p)
  {
    FiguresTold(h);
    var f := Tallied(h).builds;
    if DanglingBuild(f) {
      var p :| p in f.blamed && !(f.blamed[p] in f.builds && f.builds[f.blamed[p]]);
      assert BuildTold(h, f, p) && BuildTold(h, f, f.blamed[p]);
      assert Dangling(h, p);
    }
    if p :| Dangling(h, p) {
      assert BuildTold(h, f, p) && BuildTold(h, f, LastFailedBuild(h, p));
      assert p in f.blamed;
    }
  }

  lemma SomePackageTold(h: seq<Event>)
    ensures Tallied(h).packages.packages.Keys != {} <==> Ever(h, SomePackageEnds())
  {
    FiguresTold(h);
    var f := Tallied(h).packages;
    if f.packages.Keys != {} {
      var p :| p in f.packages.Keys;
      assert PackageTold(h, f, p);
      var i :| 0 <= i < |h| && PackageEnds(p)(h[i]);
      assert SomePackageEnds()(h[i]);
    }
    if Ever(h, SomePackageEnds()) {
      var i :| 0 <= i < |h| && SomePackageEnds()(h[i]);
      var p := h[i].package;
      assert PackageEnds(p)(h[i]);
      assert PackageTold(h, f, p);
    }
  }

  /** A census is complete exactly when the stream is whole. */
  lemma CompleteExactly(h: seq<Event>, malformed: nat)
    ensures Complete(CensusOf(h, malformed)) <==> Whole(h, malformed)
  {
    UnterminatedExactly(h, malformed);
    DanglingTold(h);
    SomePackageTold(h);
    var c := CensusOf(h, malformed);
    assert |c.packages| > 0 <==> c.packages.Keys != {};
    if Complete(c) {
      forall p ensures !PackageOpen(h, p) { assert p !in c.unterminatedPackages; }
      forall k: Key ensures !TestOpen(h, k) { assert k !in c.unterminatedTests; }
    }
    if Whole(h, malformed) {
      assert forall p :: p !in c.unterminatedPackages;
      assert forall k: Key :: k !in c.unterminatedTests;
    }
  }

  ghost predicate SomeRecorded(c: Summary) {
    c.namedFailures != {} || c.failedPackages != {} || SomeBuildFailed(c)
  }

  /** A failure anywhere in the stream is on record at its end; nothing later erases it. */
  lemma FailuresRecorded(h: seq<Event>, malformed: nat)
    requires Ever(h, Failure())
    ensures SomeRecorded(CensusOf(h, malformed))
  {
    FiguresTold(h);
    var f := Tallied(h);
    var i :| 0 <= i < |h| && Failure()(h[i]);
    var e := h[i];
    if e.Line? && e.test != "" {
      var k := (e.package, e.test);
      assert TestFails(k)(h[i]);
      assert TestTold(h, f.tests, k);
    } else if e.Line? {
      assert PackageFails(e.package)(h[i]);
      assert PackageTold(h, f.packages, e.package);
    } else {
      var b := if e.Build? then e.identity else e.package;
      assert BuildFails(b)(h[i]);
      assert BuildTold(h, f.builds, b);
      assert f.builds.builds[b] in f.builds.builds.Values;
    }
  }

  lemma SomeFailure(h: seq<Event>, f: Event -> bool)
    requires Ever(h, f) && forall e :: f(e) ==> Failure()(e)
    ensures Ever(h, Failure())
  {
    var i :| 0 <= i < |h| && f(h[i]);
    assert Failure()(h[i]);
  }

  lemma RecordsAreReal(h: seq<Event>, malformed: nat)
    requires SomeRecorded(CensusOf(h, malformed))
    ensures Ever(h, Failure())
  {
    FiguresTold(h);
    var f := Tallied(h);
    if k :| k in f.tests.failed {
      assert TestTold(h, f.tests, k);
      SomeFailure(h, TestFails(k));
    } else if p :| p in f.packages.failed {
      assert PackageTold(h, f.packages, p);
      SomeFailure(h, PackageFails(p));
    } else {
      var b :| b in f.builds.builds && f.builds.builds[b];
      assert BuildTold(h, f.builds, b);
      SomeFailure(h, BuildFails(b));
    }
  }

  /**
    The verdict is sound and exact: the run passes exactly when the helper returns 0, and that
    exactly when the stream is whole, Go returned 0, and no event of any kind is a failure.
  */
  lemma PassedExactly(h: seq<Event>, malformed: nat, goRC: int)
    ensures OutcomeOf(CensusOf(h, malformed), goRC) == Passed <==> HelperRC(CensusOf(h, malformed), goRC) == 0
    ensures HelperRC(CensusOf(h, malformed), goRC) == 0 <==> Whole(h, malformed) && goRC == 0 && !Ever(h, Failure())
    ensures HelperRC(CensusOf(h, malformed), goRC) == 2 <==> !Whole(h, malformed)
  {
    CompleteExactly(h, malformed);
    if Ever(h, Failure()) {
      FailuresRecorded(h, malformed);
    } else if SomeRecorded(CensusOf(h, malformed)) {
      RecordsAreReal(h, malformed);
    }
  }

  /** A failed package none of whose tests failed. */
  ghost predicate Unexplained(h: seq<Event>, p: string) {
    Ever(h, PackageFails(p)) && forall t :: !Ever(h, TestFails((p, t)))
  }

  lemma UnexplainedExactly(h: seq<Event>, malformed: nat, p: string)
    ensures p in CensusOf(h, malformed).packageOnlyFailures <==> Unexplained(h, p)
  {
    FiguresTold(h);
    var f := Tallied(h);
    var named := set k | k in f.tests.failed :: k.0;
    assert PackageTold(h, f.packages, p);
    if p in named {
      var k :| k in f.tests.failed && k.0 == p;
      assert TestTold(h, f.tests, (p, k.1));
    } else {
      forall t ensures !Ever(h, TestFails((p, t))) {
        assert TestTold(h, f.tests, (p, t));
        assert (p, t) in f.tests.failed ==> (p, t).0 in named;
      }
    }
  }

  lemma NamedIsReal(h: seq<Event>, k: Key)
    requires Ever(h, TestFails(k))
    ensures Ever(h, SomeTestEndsAs(Fail))
  {
    var i :| 0 <= i < |h| && TestFails(k)(h[i]);
    assert SomeTestEndsAs(Fail)(h[i]);
  }

  lemma RealIsNamed(h: seq<Event>) returns (k: Key)
    requires Ever(h, SomeTestEndsAs(Fail))
    ensures Ever(h, TestFails(k))
  {
    var i :| 0 <= i < |h| && SomeTestEndsAs(Fail)(h[i]);
    k := (h[i].package, h[i].test);
    assert TestFails(k)(h[i]);
  }

  lemma NamedExactly(h: seq<Event>, malformed: nat)
    ensures CensusOf(h, malformed).namedFailures != {} <==> Ever(h, SomeTestEndsAs(Fail))
  {
    FiguresTold(h);
    var f := Tallied(h).tests;
    if k :| k in f.failed {
      assert TestTold(h, f, k);
      NamedIsReal(h, k);
    }
    if Ever(h, SomeTestEndsAs(Fail)) {
      var k := RealIsNamed(h);
      assert TestTold(h, f, k);
    }
  }

  /** A whole stream with a failed test is "mixed" exactly when some package failed on its own, else "named". */
  lemma MixedExactly(h: seq<Event>, malformed: nat, goRC: int)
    requires Whole(h, malformed)
    ensures OutcomeOf(CensusOf(h, malformed), goRC) == Mixed <==>
            Ever(h, SomeTestEndsAs(Fail)) && exists p :: Unexplained(h, p)
    ensures OutcomeOf(CensusOf(h, malformed), goRC) in {Mixed, Named} <==> Ever(h, SomeTestEndsAs(Fail))
  {
    CompleteExactly(h, malformed);
    NamedExactly(h, malformed);
    forall p ensures p in CensusOf(h, malformed).packageOnlyFailures <==> Unexplained(h, p) {
      UnexplainedExactly(h, malformed, p);
    }
  }

  /** A package or a build failed, one way or the other. */
  function PackageOrBuildFailure(): Event -> bool {
    (e: Event) => if e.Line? then e.action == Fail && e.test == "" else e.failed
  }

  lemma PackageOrBuildExactly(h: seq<Event>, malformed: nat)
    ensures var c := CensusOf(h, malformed);
            c.failedPackages != {} || SomeBuildFailed(c) <==> Ever(h, PackageOrBuildFailure())
  {
    FiguresTold(h);
    var f := Tallied(h);
    if p :| p in f.packages.failed {
      assert PackageTold(h, f.packages, p);
      SomePackageOrBuild(h, PackageFails(p));
    }
    if b :| b in f.builds.builds && f.builds.builds[b] {
      assert BuildTold(h, f.builds, b);
      SomePackageOrBuild(h, BuildFails(b));
    }
    if Ever(h, PackageOrBuildFailure()) {
      PackageOrBuildIsRecorded(h, malformed);
    }
  }

  lemma SomePackageOrBuild(h: seq<Event>, f: Event -> bool)
    requires Ever(h, f) && forall e :: f(e) ==> PackageOrBuildFailure()(e)
    ensures Ever(h, PackageOrBuildFailure())
  {
    var i :| 0 <= i < |h| && f(h[i]);
    assert PackageOrBuildFailure()(h[i]);
  }

  lemma PackageOrBuildIsRecorded(h: seq<Event>, malformed: nat)
    requires Ever(h, PackageOrBuildFailure())
    ensures var c := CensusOf(h, malformed); c.failedPackages != {} || SomeBuildFailed(c)
  {
    FiguresTold(h);
    var f := Tallied(h);
    var i :| 0 <= i < |h| && PackageOrBuildFailure()(h[i]);
    var e := h[i];
    if e.Line? {
      assert PackageFails(e.package)(h[i]);
      assert PackageTold(h, f.packages, e.package);
    } else {
      var b := if e.Build? then e.identity else e.package;
      assert BuildFails(b)(h[i]);
      assert BuildTold(h, f.builds, b);
      assert f.builds.builds[b] in f.builds.builds.Values;
    }
  }

  lemma FailureSplit(h: seq<Event>)
    ensures Ever(h, Failure()) <==> Ever(h, SomeTestEndsAs(Fail)) || Ever(h, PackageOrBuildFailure())
  {
    if Ever(h, Failure()) {
      var i :| 0 <= i < |h| && Failure()(h[i]);
      assert SomeTestEndsAs(Fail)(h[i]) || PackageOrBuildFailure()(h[i]);
    }
    if Ever(h, SomeTestEndsAs(Fail)) { SomeFailure(h, SomeTestEndsAs(Fail)); }
    if Ever(h, PackageOrBuildFailure()) { SomeFailure(h, PackageOrBuildFailure()); }
  }

  /**
    Every outcome told from the stream. Not whole: unknown, code 2. Whole: a failed test makes it
    mixed or named; else a failed package or build makes it a package failure; else Go's own code
    decides between a pass and the unknown. The code is 1 in every whole case but the pass.
  */
  lemma OutcomeExactly(h: seq<Event>, malformed: nat, goRC: int)
    ensures var c := CensusOf(h, malformed);
            && (OutcomeOf(c, goRC) == PackageFailed <==>
                Whole(h, malformed) && !Ever(h, SomeTestEndsAs(Fail)) && Ever(h, PackageOrBuildFailure()))
            && (OutcomeOf(c, goRC) == Unknown <==>
                !Whole(h, malformed) || (goRC != 0 && !Ever(h, Failure())))
            && (HelperRC(c, goRC) == 1 <==> Whole(h, malformed) && (goRC != 0 || Ever(h, Failure())))
            && HelperRC(c, goRC) in {0, 1, 2}
  {
    CompleteExactly(h, malformed);
    NamedExactly(h, malformed);
    PackageOrBuildExactly(h, malformed);
    FailureSplit(h);
  }

  // ---------------------------------------------------------------------------------------
  // Reading the stream
  // ---------------------------------------------------------------------------------------

  /** A line of the stream: the members of its JSON object, if it is one. */
  type RawLine = Option<seq<(string, Json)>>

  function EventOf(line: RawLine): Option<Event> {
    if line.None? then None else FromMembers(line.value)
  }

  function EventsOf(lines: seq<RawLine>): (events: seq<Option<Event>>)
    ensures |events| == |lines| && forall i :: 0 <= i < |lines| ==> events[i] == EventOf(lines[i])
  {
    seq(|lines|, i requires 0 <= i < |lines| => EventOf(lines[i]))
  }

  /** The values that are there, in order. */
  function Present<T>(items: seq<Option<T>>): seq<T> {
    if items == [] then []
    else
      var init, last := Present(items[..|items| - 1]), items[|items| - 1];
      if last.None? then init else init + [last.value]
  }

  lemma {:induction false} PresentBound<T>(items: seq<Option<T>>)
    ensures |Present(items)| <= |items|
    decreases |items|
  {
    if items != [] {
      PresentBound(items[..|items| - 1]);
    }
  }

  lemma {:induction false} AllPresentExactly<T>(items: seq<Option<T>>)
    ensures |Present(items)| == |items| <==> forall i :: 0 <= i < |items| ==> items[i].Some?
    decreases |items|
  {
    if items != [] {
      var init := items[..|items| - 1];
      PresentBound(init);
      AllPresentExactly(init);
      assert forall i :: 0 <= i < |init| ==> items[i] == init[i];
    }
  }

  lemma PresentStep<T>(items: seq<Option<T>>, item: Option<T>)
    ensures Present(items + [item]) == Present(items) + if item.Some? then [item.value] else []
  {
    assert (items + [item])[..|items|] == items;
  }

  lemma {:induction false} PresentAreThere<T>(items: seq<Option<T>>)
    ensures forall x :: x in Present(items) ==> Some(x) in items
    decreases |items|
  {
    if items != [] {
      var init, last := items[..|items| - 1], items[|items| - 1];
      PresentAreThere(init);
      assert items == init + [last];
      PresentStep(init, last);
    }
  }

  function AcceptedEvents(lines: seq<RawLine>): seq<Event> {
    Present(EventsOf(lines))
  }

  /** What is accepted is well-formed. */
  lemma AcceptedAreWellFormed(lines: seq<RawLine>)
    ensures forall e :: e in AcceptedEvents(lines) ==> WellFormed(e)
  {
    PresentAreThere(EventsOf(lines));
    forall e | e in AcceptedEvents(lines) ensures WellFormed(e) {
      var i :| 0 <= i < |lines| && EventsOf(lines)[i] == Some(e);
      assert FromMembers(lines[i].value) == Some(e);
    }
  }

  method ReadEvents(lines: seq<RawLine>) returns (events: seq<Event>, malformed: nat)
    ensures events == AcceptedEvents(lines) && malformed == |lines| - |events|
  {
    events, malformed := [], 0;
    for i := 0 to |lines|
      invariant events == AcceptedEvents(lines[..i]) && malformed == i - |events|
    {
      var e := EventOf(lines[i]);
      assert EventsOf(lines[..i + 1]) == EventsOf(lines[..i]) + [e];
      PresentStep(EventsOf(lines[..i]), e);
      if e.None? {
        malformed := malformed + 1;
      } else {
        events := events + [e.value];
      }
    }
    assert lines[..|lines|] == lines;
  }

  /** The census of a file: a line that is no event is counted, never skipped silently. */
  method ReadCensus(lines: seq<RawLine>) returns (c: Summary)
    ensures |AcceptedEvents(lines)| <= |lines|
    ensures c == CensusOf(AcceptedEvents(lines), |lines| - |AcceptedEvents(lines)|)
    ensures Complete(c) ==> forall i :: 0 <= i < |lines| ==> EventOf(lines[i]).Some?
    ensures forall e :: e in AcceptedEvents(lines) ==> WellFormed(e)
  {
    var events, malformed := ReadEvents(lines);
    PresentBound(EventsOf(lines));
    AllPresentExactly(EventsOf(lines));
    AcceptedAreWellFormed(lines);
    c := Summarize(events, malformed);
    CompleteExactly(events, malformed);
    assert malformed == 0 ==> forall i :: 0 <= i < |lines| ==> EventsOf(lines)[i].Some?;
  }

  // ---------------------------------------------------------------------------------------
  // Producer and validator
  // ---------------------------------------------------------------------------------------

  datatype Status = Incomplete | CompleteStatus | Interrupted | ErrorStatus

  datatype Manifest = Manifest(
    complete: bool,
    captureStatus: Status,
    censusStatus: Status,
    goRC: Option<int>,
    parseRC: Option<int>,
    captureRC: Option<int>,
    helperRC: Option<int>,
    outcome: Verdict)

  const FRESH_MANIFEST := Manifest(false, Incomplete, Incomplete, None, None, None, None, Unknown)

  /** Does a manifest agree with the census it should stand for. */
  predicate Agrees(m: Manifest, expected: Summary) {
    && Complete(expected)
    && m.goRC.Some? && m.complete && m.captureStatus == CompleteStatus && m.censusStatus == CompleteStatus
    && m.parseRC == Some(0) && m.captureRC == Some(0)
    && m.helperRC == Some(HelperRC(expected, m.goRC.value))
    && m.outcome == OutcomeOf(expected, m.goRC.value)
    && !(m.goRC.value == 0 && HelperRC(expected, 0) != 0)
  }

  /** Does the validator accept a manifest and a census against the parsed events. */
  predicate Accepts(m: Manifest, c: Summary, events: seq<Event>) {
    c == CensusOf(events, 0) && Agrees(m, CensusOf(events, 0))
  }

  /** The one manifest that stands for a whole stream and Go's code. */
  ghost function TrueManifest(events: seq<Event>, goRC: int): Manifest {
    Manifest(
      true, CompleteStatus, CompleteStatus, Some(goRC), Some(0), Some(0),
      Some(if goRC == 0 && !Ever(events, Failure()) then 0 else 1),
      if Ever(events, SomeTestEndsAs(Fail)) then (if exists p :: Unexplained(events, p) then Mixed else Named)
      else if Ever(events, PackageOrBuildFailure()) then PackageFailed
      else if goRC == 0 then Passed else Unknown)
  }

  /**
    What the validator accepts, told from the stream: exactly the census of a whole stream together
    with the one manifest that is true of it, unless Go claims success over a failure.
  */
  lemma AcceptsExactly(m: Manifest, c: Summary, events: seq<Event>)
    ensures Accepts(m, c, events) <==>
            && c == CensusOf(events, 0) && Whole(events, 0)
            && m.goRC.Some? && m == TrueManifest(events, m.goRC.value)
            && !(m.goRC.value == 0 && Ever(events, Failure()))
  {
    CompleteExactly(events, 0);
    if m.goRC.Some? && Whole(events, 0) {
      var goRC := m.goRC.value;
      PassedExactly(events, 0, goRC);
      PassedExactly(events, 0, 0);
      MixedExactly(events, 0, goRC);
      OutcomeExactly(events, 0, goRC);
      FailureSplit(events);
    }
  }

  /** The validator compares what is written: that is comparing the censuses themselves. */
  lemma AcceptedAsWritten(m: Manifest, c: Summary, events: seq<Event>, w: Written, expected: Written)
    requires Writes(w, c) && Writes(expected, CensusOf(events, 0))
    ensures Accepts(m, c, events) <==> w == expected && Agrees(m, CensusOf(events, 0))
  {
    WrittenAlikeExactly(w, expected, c, CensusOf(events, 0));
  }

  /** Where a file operation or the start of the child may fail. */
  datatype Stage = BeforeExit | BeforeCensus | AfterCensus

  /**
    How one capture went: Go's code, the stream if it could be decoded, when a stop signal
    arrived (before which of the producer's looks at it, if any), and where an operation failed.
  */
  datatype Capture = Capture(goRC: int, events: seq<Event>, malformed: nat, decoded: bool, signal: Option<nat>,
                             fault: Option<Stage>) {
    predicate Sees(look: nat) { signal.Some? && signal.value <= look }
    predicate FailsAt(stage: Stage) { fault == Some(stage) }
    predicate Counted() { decoded && !FailsAt(BeforeExit) && !FailsAt(BeforeCensus) }
  }

  const LAST_LOOK := 4

  /** The manifest left behind when an operation failed. */
  function Broken(m: Manifest): Manifest {
    m.(complete := false, captureStatus := ErrorStatus, captureRC := Some(2), helperRC := Some(2))
  }

  ghost predicate Accepted(m: Manifest, c: Option<Summary>, events: seq<Event>) {
    c.Some? && Accepts(m, c.value, events)
  }

  /** The producer's part once the child was started: the manifest and the census it leaves behind, if any. */
  method Finish(run: Capture) returns (m: Manifest, c: Option<Summary>)
    ensures c == if run.Counted() then Some(CensusOf(run.events, run.malformed)) else None
    ensures m.complete <==>
              && run.Counted() && run.fault.None? && !run.Sees(2) && Complete(c.value)
              && !(run.goRC == 0 && HelperRC(c.value, 0) != 0)
    ensures m.complete ==> (Accepted(m, c, run.events) <==> !run.Sees(4))
    ensures m.complete ==> (m.captureStatus == Interrupted <==> run.Sees(3))
    ensures m.complete ==> m.helperRC == Some(HelperRC(c.value, run.goRC)) && m.outcome == OutcomeOf(c.value, run.goRC)
    ensures !m.complete ==> !Accepted(m, c, run.events) && m.helperRC == Some(2)
    ensures m.goRC.None? <==> run.FailsAt(BeforeExit)
    ensures m.goRC.Some? ==> m.goRC.value == run.goRC
    ensures run.fault.Some? ==> m.captureStatus == ErrorStatus && m.captureRC == Some(2)
    ensures !m.complete && run.fault.None? ==> m.outcome == Unknown && m.parseRC == Some(2)
    ensures m.complete && !run.Sees(4) ==> m == TrueManifest(run.events, run.goRC)
    ensures Accepted(m, c, run.events) && m.helperRC == Some(0) ==>
              Whole(run.events, run.malformed) && run.goRC == 0 && !Ever(run.events, Failure())
  {
    m, c := FRESH_MANIFEST, None;
    if run.FailsAt(BeforeExit) {
      return Broken(m), c;
    }
    m := m.(goRC := Some(run.goRC));
    m := m.(captureStatus := if !run.Sees(0) then CompleteStatus else Interrupted);
    m := m.(captureRC := Some(if !run.Sees(1) then 0 else 2));
    if run.FailsAt(BeforeCensus) {
      return Broken(m), c;
    }
    if !run.decoded {
      m := m.(parseRC := Some(2), censusStatus := ErrorStatus, helperRC := Some(2));
      return if run.fault.Some? then Broken(m) else m, c;
    }
    var census := Summarize(run.events, run.malformed);
    c := Some(census);
    PassedExactly(run.events, run.malformed, run.goRC);
    CompleteExactly(run.events, run.malformed);
    var valid := Complete(census) && !run.Sees(2) && !(run.goRC == 0 && HelperRC(census, 0) != 0);
    m := m.(complete := valid);
    m := m.(captureStatus := if !run.Sees(3) then CompleteStatus else Interrupted);
    m := m.(censusStatus := if valid then CompleteStatus else Incomplete);
    m := m.(outcome := if valid then OutcomeOf(census, run.goRC) else Unknown);
    m := m.(parseRC := Some(if valid then 0 else 2));
    m := m.(captureRC := Some(if !run.Sees(LAST_LOOK) then 0 else 2));
    m := m.(helperRC := Some(if valid then HelperRC(census, run.goRC) else 2));
    if run.fault.Some? {
      var stage := run.fault.value;
      assert stage.BeforeExit? || stage.BeforeCensus? || stage.AfterCensus?;
      m := Broken(m);
    }
    if m.complete && !run.Sees(LAST_LOOK) {
      AcceptsExactly(m, census, run.events);
    }
  }

  /** Any accepted manifest whose helper code is 0 stands for a whole stream without a failure. */
  lemma AcceptedPassIsClean(m: Manifest, c: Summary, events: seq<Event>)
    requires Accepts(m, c, events) && m.helperRC == Some(0)
    ensures Whole(events, 0) && !Ever(events, Failure()) && m.outcome == Passed && m.goRC == Some(0)
  {
    PassedExactly(events, 0, m.goRC.value);
  }

  /** The shortest whole stream that passes. */
  lemma OnePackagePasses(h: seq<Event>)
    requires h == [Line(Start, "p", "", "", ""), Line(Pass, "p", "", "", "")]
    ensures Complete(CensusOf(h, 0)) && HelperRC(CensusOf(h, 0), 0) == 0
  {
    var h1 := h[..1];
    assert |h1| == 1 && h1[0] == h[0] && h1[..0] == [] && Tallied([]) == NO_FIGURES;
    var f := Tallied(h1);
    assert f == Next(NO_FIGURES, h[0]);
    assert Tallied(h) == Next(f, h[1]);
    assert Tallied(h).packages == PackageFigures(map["p" := Pass], {}, {"p"}, {}, 1, 0);
    assert Tallied(h).tests == NO_FIGURES.tests && Tallied(h).builds == NO_FIGURES.builds;
  }

  /**
    An interrupted manifest can call itself complete, and is then refused: the signal came
    between two of the producer's looks at it.
  */
  method LateSignalSplitsTheManifest() returns (run: Capture, m: Manifest, c: Option<Summary>)
    ensures m.complete && m.captureStatus == Interrupted && m.helperRC != Some(2)
    ensures !Accepted(m, c, run.events)
  {
    var h := [Line(Start, "p", "", "", ""), Line(Pass, "p", "", "", "")];
    run := Capture(0, h, 0, true, Some(3), None);
    OnePackagePasses(h);
    m, c := Finish(run);
  }
}
