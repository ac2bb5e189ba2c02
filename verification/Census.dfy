/**
  The census of one Go test run: a single pass over the accepted events keeps sets, maps and
  counters, from which the verdict of the run is computed.
*/
module Census {
  import opened Outcomes
  import opened TestEvents

  /** A test is named by its package and its own name. */
  type Key = (string, string)

  /** What a skipped test prints when its precondition could not be built. */
  const MARK := "УСЛОВИЕ НЕ СОЗДАНО"

  predicate Terminal(a: Action) { a == Pass || a == Fail || a == Skip }

  predicate OccursAt(text: string, part: string, i: nat) {
    i + |part| <= |text| && text[i..i + |part|] == part
  }

  predicate Contains(text: string, part: string) {
    exists i :: 0 <= i <= |text| && OccursAt(text, part, i)
  }

  /** What an event says about a package or a test; a failed build in the older form fails its package. */
  function Effect(e: Event): Option<Event> {
    match e
    case Build(_, _) => None
    case LegacyBuild(failed, p) => if failed then Some(Line(Fail, p, "", "", "")) else None
    case Line(_, _, _, _, _) => Some(e)
  }

  // ---------------------------------------------------------------------------------------
  // The pass
  // ---------------------------------------------------------------------------------------

  datatype PackageFigures = PackageFigures(
    packages: map<string, Action>,
    failed: set<string>,
    seen: set<string>,
    open: set<string>,
    passed: nat,
    skipped: nat)

  datatype TestFigures = TestFigures(
    failed: set<Key>,
    seen: set<Key>,
    open: set<Key>,
    output: map<Key, seq<string>>,
    passed: nat,
    failedExecutions: nat,
    otherSkips: nat,
    unmet: seq<Key>)

  /** A build is mapped to true once it has failed; a package to the build it blamed. */
  datatype BuildFigures = BuildFigures(builds: map<string, bool>, blamed: map<string, string>)

  datatype Figures = Figures(packages: PackageFigures, tests: TestFigures, builds: BuildFigures)

  const NO_FIGURES := Figures(
    PackageFigures(map[], {}, {}, {}, 0, 0),
    TestFigures({}, {}, {}, map[], 0, 0, 0, []),
    BuildFigures(map[], map[]))

  function Chunks(f: TestFigures, k: Key): seq<string> {
    if k in f.output then f.output[k] else []
  }

  function Joined(chunks: seq<string>): string {
    if chunks == [] then "" else Joined(chunks[..|chunks| - 1]) + chunks[|chunks| - 1]
  }

  function NextPackages(f: PackageFigures, l: Event): PackageFigures
    requires l.Line?
  {
    var p := l.package;
    var begun := if l.action == Start || p !in f.seen then f.open + {p} else f.open;
    if l.test != "" || !Terminal(l.action) then f.(open := begun, seen := f.seen + {p})
    else
      PackageFigures(
        f.packages[p := l.action],
        if l.action == Fail then f.failed + {p} else f.failed,
        f.seen + {p},
        begun - {p},
        f.passed + if l.action == Pass then 1 else 0,
        f.skipped + if l.action == Skip then 1 else 0)
  }

  function NextTests(f: TestFigures, l: Event): TestFigures
    requires l.Line?
  {
    var k := (l.package, l.test);
    var seen, begun := f.seen + {k}, if l.action == Run || k !in f.seen then f.open + {k} else f.open;
    var unbuilt := Contains(Joined(Chunks(f, k)), MARK);
    if k.1 == "" then f
    else if Terminal(l.action) then
      TestFigures(
        if l.action == Fail then f.failed + {k} else f.failed,
        seen,
        begun - {k},
        f.output - {k},
        f.passed + if l.action == Pass then 1 else 0,
        f.failedExecutions + if l.action == Fail then 1 else 0,
        f.otherSkips + if l.action == Skip && !unbuilt then 1 else 0,
        f.unmet + if l.action == Skip && unbuilt then [k] else [])
    else if l.action == Run then f.(seen := seen, open := begun, output := f.output - {k})
    else if l.action == Output then f.(seen := seen, open := begun, output := f.output[k := Chunks(f, k) + [l.text]])
    else f.(seen := seen, open := begun)
  }

  function NextBuilds(f: BuildFigures, e: Event): BuildFigures {
    if e.Line? then
      if e.test == "" && Terminal(e.action) && e.failedBuild != "" then
        f.(blamed := f.blamed[e.package := e.failedBuild])
      else f
    else
      var b := if e.Build? then e.identity else e.package;
      f.(builds := f.builds[b := e.failed || (b in f.builds && f.builds[b])])
  }

  /** The figures after one more event. */
  function Next(f: Figures, e: Event): Figures {
    match Effect(e)
    case None => f.(builds := NextBuilds(f.builds, e))
    case Some(l) => Figures(NextPackages(f.packages, l), NextTests(f.tests, l), NextBuilds(f.builds, e))
  }

  function Tallied(h: seq<Event>): Figures {
    if h == [] then NO_FIGURES else Next(Tallied(h[..|h| - 1]), h[|h| - 1])
  }

  /** One event of the pass, figure by figure as they change. */
  method Observe(f: Figures, e: Event) returns (t: Figures)
    ensures t == Next(f, e)
  {
    var packages, tests, builds := f.packages, f.tests, f.builds;
    var l := e;
    if !e.Line? {
      var b := if e.Build? then e.identity else e.package;
      if !(b in builds.builds && builds.builds[b]) {
        builds := builds.(builds := builds.builds[b := e.failed]);
      }
      assert builds.builds == NextBuilds(f.builds, e).builds;
      if e.Build? || !e.failed {
        return Figures(packages, tests, builds);
      }
      l := Line(Fail, e.package, "", "", "");
    }
    if l.action == Start || l.package !in packages.seen {
      packages := packages.(open := packages.open + {l.package});
    }
    packages := packages.(seen := packages.seen + {l.package});
    if l.test != "" {
      tests := ObserveTest(tests, l);
    } else if Terminal(l.action) {
      packages := ObservePackageEnd(packages, l);
      if l.failedBuild != "" {
        builds := builds.(blamed := builds.blamed[l.package := l.failedBuild]);
      }
    }
    t := Figures(packages, tests, builds);
  }

  method ObserveTest(f: TestFigures, l: Event) returns (t: TestFigures)
    requires l.Line? && l.test != ""
    ensures t == NextTests(f, l)
  {
    t := f;
    var k := (l.package, l.test);
    if l.action == Run {
      t := t.(open := t.open + {k}, output := t.output - {k});
    } else if k !in t.seen {
      t := t.(open := t.open + {k});
    }
    t := t.(seen := t.seen + {k});
    if l.action == Output {
      t := t.(output := t.output[k := Chunks(t, k) + [l.text]]);
    } else if Terminal(l.action) {
      t := t.(open := t.open - {k});
      if l.action == Fail {
        t := t.(failed := t.failed + {k}, failedExecutions := t.failedExecutions + 1);
      } else if l.action == Pass {
        t := t.(passed := t.passed + 1);
      } else if Contains(Joined(Chunks(t, k)), MARK) {
        t := t.(unmet := t.unmet + [k]);
      } else {
        t := t.(otherSkips := t.otherSkips + 1);
      }
      t := t.(output := t.output - {k});
    }
  }

  /** The end of a package already noted as seen. */
  method ObservePackageEnd(f: PackageFigures, l: Event) returns (t: PackageFigures)
    requires l.Line? && l.test == "" && Terminal(l.action) && l.package in f.seen
    ensures t == NextPackages(f, l)
  {
    t := f.(open := f.open - {l.package}, packages := f.packages[l.package := l.action]);
    if l.action == Fail {
      t := t.(failed := t.failed + {l.package});
    } else if l.action == Pass {
      t := t.(passed := t.passed + 1);
    } else {
      t := t.(skipped := t.skipped + 1);
    }
    assert f.seen + {l.package} == f.seen;
  }

  datatype Summary = Summary(
    events: nat,
    nonJSON: nat,
    unterminatedPackages: set<string>,
    unterminatedTests: set<Key>,
    packages: map<string, Action>,
    failedPackages: set<string>,
    namedFailures: set<Key>,
    packageOnlyFailures: set<string>,
    passedTests: nat,
    failedTests: nat,
    testExecutions: nat,
    unmetSkips: seq<Key>,
    otherSkips: nat,
    passedPackages: nat,
    skippedPackages: nat,
    builds: map<string, bool>,
    failedBuilds: map<string, string>)

  predicate DanglingBuild(f: BuildFigures) {
    exists p :: p in f.blamed && !(f.blamed[p] in f.builds && f.builds[f.blamed[p]])
  }

  function Summarized(f: Figures, events: nat, malformed: nat): Summary {
    Summary(
      events,
      malformed + if DanglingBuild(f.builds) then 1 else 0,
      f.packages.open, f.tests.open, f.packages.packages, f.packages.failed, f.tests.failed,
      f.packages.failed - (set k | k in f.tests.failed :: k.0),
      f.tests.passed, f.tests.failedExecutions,
      f.tests.passed + f.tests.failedExecutions + |f.tests.unmet| + f.tests.otherSkips,
      f.tests.unmet, f.tests.otherSkips, f.packages.passed, f.packages.skipped, f.builds.builds, f.builds.blamed)
  }

  /** The census of a stream of accepted events, `malformed` lines besides. */
  function CensusOf(events: seq<Event>, malformed: nat): Summary {
    Summarized(Tallied(events), |events|, malformed)
  }

  method Summarize(events: seq<Event>, malformed: nat) returns (c: Summary)
    ensures c == CensusOf(events, malformed)
  {
    var tally := NO_FIGURES;
    for i := 0 to |events|
      invariant tally == Tallied(events[..i])
    {
      assert events[..i + 1][..i] == events[..i];
      tally := Observe(tally, events[i]);
    }
    assert events[..|events|] == events;
    c := Summarized(tally, |events|, malformed);
  }
}
