/** What the census says about the stream it was taken from, event by event. */
module CensusFacts {
  import opened Outcomes
  import opened History
  import opened TestEvents
  import opened Census

  // ---------------------------------------------------------------------------------------
  // Kinds of events
  // ---------------------------------------------------------------------------------------

  predicate Ended(a: Action) { a == Pass || a == Fail || a == Skip }

  /** A build that failed, reported in the older form: the failure of its package. */
  predicate LegacyFailure(e: Event) { e.LegacyBuild? && e.failed }

  predicate Says(e: Event, p: string) { (e.Line? || LegacyFailure(e)) && e.package == p }
  predicate SaysTest(e: Event, k: Key) { e.Line? && e.package == k.0 && e.test == k.1 && k.1 != "" }
  predicate SaysPackage(e: Event, p: string) { e.Line? && e.package == p && e.test == "" }

  function OfPackage(p: string): Event -> bool { (e: Event) => Says(e, p) }
  function PackageStarts(p: string): Event -> bool { (e: Event) => e.Line? && e.package == p && e.action == Start }
  function PackageEnds(p: string): Event -> bool {
    (e: Event) => (SaysPackage(e, p) && Ended(e.action)) || (LegacyFailure(e) && e.package == p)
  }
  function PackageFails(p: string): Event -> bool {
    (e: Event) => (SaysPackage(e, p) && e.action == Fail) || (LegacyFailure(e) && e.package == p)
  }

  function OfTest(k: Key): Event -> bool { (e: Event) => SaysTest(e, k) }
  function TestRuns(k: Key): Event -> bool { (e: Event) => SaysTest(e, k) && e.action == Run }
  function TestEnds(k: Key): Event -> bool { (e: Event) => SaysTest(e, k) && Ended(e.action) }
  function TestFails(k: Key): Event -> bool { (e: Event) => SaysTest(e, k) && e.action == Fail }

  function OfBuild(b: string): Event -> bool {
    (e: Event) => !e.Line? && (if e.Build? then e.identity else e.package) == b
  }
  function BuildFails(b: string): Event -> bool {
    (e: Event) => !e.Line? && (if e.Build? then e.identity else e.package) == b && e.failed
  }

  function SomeTestEnds(): Event -> bool { (e: Event) => e.Line? && e.test != "" && Ended(e.action) }
  function SomeTestEndsAs(a: Action): Event -> bool { (e: Event) => e.Line? && e.test != "" && e.action == a }
  function SomePackageEnds(): Event -> bool {
    (e: Event) => (e.Line? && e.test == "" && Ended(e.action)) || LegacyFailure(e)
  }
  function SomePackageEndsAs(a: Action): Event -> bool {
    (e: Event) => (e.Line? && e.test == "" && e.action == a) || (LegacyFailure(e) && a == Fail)
  }

  /** A failure of any kind: of a test, of a package, of a build. */
  function Failure(): Event -> bool {
    (e: Event) => if e.Line? then e.action == Fail else e.failed
  }

  // ---------------------------------------------------------------------------------------
  // Packages and builds
  // ---------------------------------------------------------------------------------------

  ghost predicate PackageOpen(h: seq<Event>, p: string) {
    Open(h, OfPackage(p), PackageStarts(p), PackageEnds(p))
  }

  ghost predicate TestOpen(h: seq<Event>, k: Key) {
    Open(h, OfTest(k), TestRuns(k), TestEnds(k))
  }

  ghost predicate PackageTold(h: seq<Event>, f: PackageFigures, p: string) {
    && (p in f.seen <==> Ever(h, OfPackage(p)))
    && (p in f.open <==> PackageOpen(h, p))
    && (p in f.packages <==> Ever(h, PackageEnds(p)))
    && (p in f.packages ==> Some(f.packages[p]) == LastEnd(h, p))
    && (p in f.failed <==> Ever(h, PackageFails(p)))
  }

  ghost predicate BuildTold(h: seq<Event>, f: BuildFigures, b: string) {
    && (b in f.builds <==> Ever(h, OfBuild(b)))
    && (b in f.builds && f.builds[b] <==> Ever(h, BuildFails(b)))
    && (b in f.blamed <==> LastFailedBuild(h, b) != "")
    && (b in f.blamed ==> f.blamed[b] == LastFailedBuild(h, b))
  }

  /** How the package last ended. */
  ghost function LastEnd(h: seq<Event>, p: string): Option<Action> {
    if h == [] then None
    else if PackageEnds(p)(h[|h| - 1]) then Some(if h[|h| - 1].Line? then h[|h| - 1].action else Fail)
    else LastEnd(h[..|h| - 1], p)
  }

  /** The build the package last blamed, "" if it never blamed one. */
  ghost function LastFailedBuild(h: seq<Event>, p: string): string {
    if h == [] then ""
    else
      var e := h[|h| - 1];
      if e.Line? && e.package == p && e.test == "" && Ended(e.action) && e.failedBuild != "" then e.failedBuild
      else LastFailedBuild(h[..|h| - 1], p)
  }

  lemma PackageOpenStep(h: seq<Event>, e: Event, f: Figures, p: string)
    requires p in f.packages.seen <==> Ever(h, OfPackage(p))
    requires p in f.packages.open <==> PackageOpen(h, p)
    ensures p in Next(f, e).packages.seen <==> Ever(h + [e], OfPackage(p))
    ensures p in Next(f, e).packages.open <==> PackageOpen(h + [e], p)
  {
    EverStep(h, e, OfPackage(p));
    OpenStep(h, e, OfPackage(p), PackageStarts(p), PackageEnds(p));
  }

  lemma PackageEndStep(h: seq<Event>, e: Event, f: Figures, p: string)
    requires p in f.packages.packages <==> Ever(h, PackageEnds(p))
    requires p in f.packages.packages ==> Some(f.packages.packages[p]) == LastEnd(h, p)
    ensures p in Next(f, e).packages.packages <==> Ever(h + [e], PackageEnds(p))
    ensures p in Next(f, e).packages.packages ==> Some(Next(f, e).packages.packages[p]) == LastEnd(h + [e], p)
  {
    EverStep(h, e, PackageEnds(p));
    assert (h + [e])[..|h|] == h;
  }

  lemma PackageFailStep(h: seq<Event>, e: Event, f: Figures, p: string)
    requires p in f.packages.failed <==> Ever(h, PackageFails(p))
    ensures p in Next(f, e).packages.failed <==> Ever(h + [e], PackageFails(p))
  {
    EverStep(h, e, PackageFails(p));
  }

  lemma PackageStep(h: seq<Event>, e: Event, f: Figures, p: string)
    requires PackageTold(h, f.packages, p)
    ensures PackageTold(h + [e], Next(f, e).packages, p)
  {
    PackageOpenStep(h, e, f, p);
    PackageEndStep(h, e, f, p);
    PackageFailStep(h, e, f, p);
  }

  lemma BuildStep(h: seq<Event>, e: Event, f: Figures, b: string)
    requires BuildTold(h, f.builds, b)
    ensures BuildTold(h + [e], Next(f, e).builds, b)
  {
    EverStep(h, e, OfBuild(b));
    EverStep(h, e, BuildFails(b));
    assert (h + [e])[..|h|] == h;
  }

  // ---------------------------------------------------------------------------------------
  // Tests
  // ---------------------------------------------------------------------------------------

  /** What a test printed since it last ran or ended. */
  ghost function OutputSince(h: seq<Event>, k: Key): string {
    if h == [] then ""
    else
      var init, e := h[..|h| - 1], h[|h| - 1];
      if !SaysTest(e, k) then OutputSince(init, k)
      else if e.action == Run || Ended(e.action) then ""
      else if e.action == Output then OutputSince(init, k) + e.text
      else OutputSince(init, k)
  }

  /** The text carries the words of a precondition that could not be built. */
  ghost predicate Marked(text: string) {
    exists x, y :: text == x + "УСЛОВИЕ НЕ СОЗДАНО" + y
  }

  /** Searching a text for a part finds it exactly when the text is something, the part, and something. */
  lemma ContainsExactly(text: string, part: string)
    ensures Contains(text, part) <==> exists x, y :: text == x + part + y
  {
    if i: nat :| i <= |text| && OccursAt(text, part, i) {
      assert text == text[..i] + part + text[i + |part|..];
    }
    if x, y :| text == x + part + y {
      assert text[|x|..|x| + |part|] == part;
      assert OccursAt(text, part, |x|);
    }
  }

  /** The skips whose output carried the marker, in order. */
  ghost function UnmetSkips(h: seq<Event>): seq<Key> {
    if h == [] then []
    else
      var init, e := h[..|h| - 1], h[|h| - 1];
      UnmetSkips(init) +
      if e.Line? && e.test != "" && e.action == Skip && Marked(OutputSince(init, (e.package, e.test)))
      then [(e.package, e.test)] else []
  }

  ghost predicate TestTold(h: seq<Event>, f: TestFigures, k: Key) {
    && (k in f.seen <==> Ever(h, OfTest(k)))
    && (k in f.open <==> TestOpen(h, k))
    && (k in f.failed <==> Ever(h, TestFails(k)))
  }

  ghost predicate OutputTold(h: seq<Event>, f: TestFigures, k: Key) {
    k.1 != "" ==> Joined(Chunks(f, k)) == OutputSince(h, k)
  }

  ghost predicate CountsTold(h: seq<Event>, f: Figures) {
    && f.tests.passed == Count(h, SomeTestEndsAs(Pass))
    && f.tests.failedExecutions == Count(h, SomeTestEndsAs(Fail))
    && |f.tests.unmet| + f.tests.otherSkips == Count(h, SomeTestEndsAs(Skip))
    && f.packages.passed == Count(h, SomePackageEndsAs(Pass))
    && f.packages.skipped == Count(h, SomePackageEndsAs(Skip))
  }

  lemma TestStep(h: seq<Event>, e: Event, f: Figures, k: Key)
    requires TestTold(h, f.tests, k)
    ensures TestTold(h + [e], Next(f, e).tests, k)
  {
    EverStep(h, e, OfTest(k));
    EverStep(h, e, TestFails(k));
    OpenStep(h, e, OfTest(k), TestRuns(k), TestEnds(k));
  }

  lemma OutputStep(h: seq<Event>, e: Event, f: Figures, k: Key)
    requires OutputTold(h, f.tests, k)
    ensures OutputTold(h + [e], Next(f, e).tests, k)
  {
    assert (h + [e])[..|h|] == h;
    if k.1 != "" && SaysTest(e, k) && e.action == Output {
      assert (Chunks(f.tests, k) + [e.text])[..|Chunks(f.tests, k)|] == Chunks(f.tests, k);
    }
  }

  lemma UnmetStep(h: seq<Event>, e: Event, f: Figures)
    requires f.tests.unmet == UnmetSkips(h)
    requires e.Line? ==> OutputTold(h, f.tests, (e.package, e.test))
    ensures Next(f, e).tests.unmet == UnmetSkips(h + [e])
  {
    assert (h + [e])[..|h|] == h;
    if e.Line? {
      ContainsExactly(OutputSince(h, (e.package, e.test)), MARK);
    }
  }

  lemma CountsStep(h: seq<Event>, e: Event, f: Figures)
    requires CountsTold(h, f)
    ensures CountsTold(h + [e], Next(f, e))
  {
    CountStep(h, e, SomeTestEndsAs(Pass));
    CountStep(h, e, SomeTestEndsAs(Fail));
    CountStep(h, e, SomeTestEndsAs(Skip));
    CountStep(h, e, SomePackageEndsAs(Pass));
    CountStep(h, e, SomePackageEndsAs(Skip));
  }

  ghost predicate AllTold(h: seq<Event>, f: Figures) {
    && (forall p :: PackageTold(h, f.packages, p) && BuildTold(h, f.builds, p))
    && (forall k: Key :: TestTold(h, f.tests, k) && OutputTold(h, f.tests, k))
    && f.tests.unmet == UnmetSkips(h)
    && CountsTold(h, f)
  }

  /** After any stream, every figure of the pass says what the events said. */
  lemma {:induction false} FiguresTold(h: seq<Event>)
    ensures AllTold(h, Tallied(h))
    decreases |h|
  {
    if h == [] {
      forall p { NothingOpen(OfPackage(p), PackageStarts(p), PackageEnds(p)); }
      forall k: Key { NothingOpen(OfTest(k), TestRuns(k), TestEnds(k)); }
    } else {
      var init, e := h[..|h| - 1], h[|h| - 1];
      var f := Tallied(init);
      FiguresTold(init);
      assert h == init + [e];
      forall p ensures PackageTold(h, Next(f, e).packages, p) && BuildTold(h, Next(f, e).builds, p) {
        PackageStep(init, e, f, p);
        BuildStep(init, e, f, p);
      }
      forall k: Key ensures TestTold(h, Next(f, e).tests, k) && OutputTold(h, Next(f, e).tests, k) {
        TestStep(init, e, f, k);
        OutputStep(init, e, f, k);
      }
      UnmetStep(init, e, f);
      CountsStep(init, e, f);
    }
  }

  lemma NothingOpen(touches: Event -> bool, restarts: Event -> bool, ends: Event -> bool)
    ensures !Open([], touches, restarts, ends)
  {}

  // ---------------------------------------------------------------------------------------
  // Main results about the census
  // ---------------------------------------------------------------------------------------

  /**
    Completeness is exact: a package is unterminated when it was opened, by its first event or
    by a start, and no end of it came at or after that; a test likewise, with run for start.
  */
  lemma UnterminatedExactly(h: seq<Event>, malformed: nat)
    ensures forall p :: p in CensusOf(h, malformed).unterminatedPackages <==> PackageOpen(h, p)
    ensures forall k: Key :: k in CensusOf(h, malformed).unterminatedTests <==> TestOpen(h, k)
  {
    FiguresTold(h);
    forall p ensures p in CensusOf(h, malformed).unterminatedPackages <==> PackageOpen(h, p) {
      assert PackageTold(h, Tallied(h).packages, p);
    }
    forall k: Key ensures k in CensusOf(h, malformed).unterminatedTests <==> TestOpen(h, k) {
      assert TestTold(h, Tallied(h).tests, k);
    }
  }

  /** Every ended test is counted once, and under exactly one heading. */
  lemma ExecutionsConserved(h: seq<Event>, malformed: nat)
    ensures var c := CensusOf(h, malformed);
            && c.testExecutions == Count(h, SomeTestEnds())
            && c.passedTests == Count(h, SomeTestEndsAs(Pass))
            && c.failedTests == Count(h, SomeTestEndsAs(Fail))
            && c.unmetSkips == UnmetSkips(h)
            && |c.unmetSkips| + c.otherSkips == Count(h, SomeTestEndsAs(Skip))
            && c.passedPackages == Count(h, SomePackageEndsAs(Pass))
            && c.skippedPackages == Count(h, SomePackageEndsAs(Skip))
  {
    FiguresTold(h);
    CountSplit(h, SomeTestEnds(), SomeTestEndsAs(Pass), SomeTestEndsAs(Fail), SomeTestEndsAs(Skip));
  }

  /** What is on record: how each package last ended, which failed, which builds ran and failed, who blamed whom. */
  lemma RecordsExactly(h: seq<Event>, malformed: nat, p: string, k: Key)
    ensures var c := CensusOf(h, malformed);
            && c.events == |h| && (c.nonJSON == malformed || c.nonJSON == malformed + 1)
            && (p in c.packages <==> Ever(h, PackageEnds(p)))
            && (p in c.packages ==> LastEnd(h, p) == Some(c.packages[p]))
            && (p in c.failedPackages <==> Ever(h, PackageFails(p)))
            && (k in c.namedFailures <==> Ever(h, TestFails(k)))
            && (p in c.builds <==> Ever(h, OfBuild(p)))
            && (p in c.builds && c.builds[p] <==> Ever(h, BuildFails(p)))
            && (p in c.failedBuilds <==> LastFailedBuild(h, p) != "")
            && (p in c.failedBuilds ==> c.failedBuilds[p] == LastFailedBuild(h, p))
  {
    FiguresTold(h);
    var f := Tallied(h);
    assert PackageTold(h, f.packages, p) && BuildTold(h, f.builds, p) && TestTold(h, f.tests, k);
  }

  /** The marker is recognised even when two output events cut it in half. */
  lemma CutMarkerIsSeen(h: seq<Event>, p: string, t: string, x: string, a: string, b: string, y: string)
    requires t != "" && a + b == "УСЛОВИЕ НЕ СОЗДАНО" && OutputSince(h, (p, t)) == ""
    ensures var told := h + [Line(Output, p, t, x + a, ""), Line(Output, p, t, b + y, ""), Line(Skip, p, t, "", "")];
            UnmetSkips(told) == UnmetSkips(h) + [(p, t)]
  {
    var o1, o2, s := Line(Output, p, t, x + a, ""), Line(Output, p, t, b + y, ""), Line(Skip, p, t, "", "");
    var h1 := h + [o1];
    var h2 := h1 + [o2];
    var h3 := h2 + [s];
    assert h3 == h + [o1, o2, s];
    assert h1[..|h|] == h && h2[..|h1|] == h1 && h3[..|h2|] == h2;
    assert OutputSince(h1, (p, t)) == "" + (x + a) == x + a;
    assert UnmetSkips(h1) == UnmetSkips(h) && UnmetSkips(h2) == UnmetSkips(h1);
    assert x + a + (b + y) == x + (a + b) + y;
  }
}
