/** Events of a Go test run as they are accepted from the JSON stream. */
module TestEvents {
  import opened Outcomes

  datatype Action = Start | Run | Pause | Cont | Output | Pass | Fail | Skip

  /**
    A build event carries its own identity; one written in the older form names a package
    instead. Any other event is about a package, or about a test of it when test is not "".
  */
  datatype Event =
    | Build(failed: bool, identity: string)
    | LegacyBuild(failed: bool, package: string)
    | Line(action: Action, package: string, test: string, text: string, failedBuild: string)

  ghost predicate WellFormed(e: Event) {
    match e
    case Build(_, _) => true
    case LegacyBuild(_, p) => p != ""
    case Line(a, p, test, _, failedBuild) => p != "" && (failedBuild != "" ==> a == Fail && test == "")
  }

  datatype Json = Str(s: string) | Other

  /** The members of a JSON object in order; a repeated name is an error of the whole line. */
  function UniqueMembers(members: seq<(string, Json)>): Option<map<string, Json>> {
    if members == [] then Some(map[])
    else
      match UniqueMembers(members[..|members| - 1])
      case None => None
      case Some(m) =>
        var (k, v) := members[|members| - 1];
        if k in m then None else Some(m[k := v])
  }

  function ActionNamed(name: string): Option<Action> {
    if name == "start" then Some(Start)
    else if name == "run" then Some(Run)
    else if name == "pause" then Some(Pause)
    else if name == "cont" then Some(Cont)
    else if name == "output" then Some(Output)
    else if name == "pass" then Some(Pass)
    else if name == "fail" then Some(Fail)
    else if name == "skip" then Some(Skip)
    else None
  }

  predicate IsText(m: map<string, Json>, key: string) {
    key in m && m[key].Str?
  }

  /** The text of an optional member, "" when absent. */
  function TextOf(m: map<string, Json>, key: string): string {
    if IsText(m, key) then m[key].s else ""
  }

  predicate OptionalTexts(m: map<string, Json>) {
    && ("Test" in m ==> m["Test"].Str?)
    && ("Output" in m ==> m["Output"].Str?)
    && ("FailedBuild" in m ==> m["FailedBuild"].Str?)
  }

  function ActionName(a: Action): string {
    match a
    case Start => "start" case Run => "run" case Pause => "pause" case Cont => "cont"
    case Output => "output" case Pass => "pass" case Fail => "fail" case Skip => "skip"
  }

  function BuildAction(failed: bool): string { if failed then "build-fail" else "build-output" }

  /** The member is this text, or is absent and the text is empty. */
  ghost predicate TellsText(m: map<string, Json>, key: string, text: string) {
    if key in m then m[key] == Str(text) else text == ""
  }

  /** What the members of an accepted line must say for it to be this event; others are ignored. */
  ghost predicate Tells(m: map<string, Json>, e: Event) {
    && "Action" in m
    && (match e
        case Build(failed, identity) =>
          && m["Action"] == Str(if failed then "build-fail" else "build-output")
          && "ImportPath" in m && m["ImportPath"] == Str(identity)
          && TellsText(m, "Test", "") && TellsText(m, "FailedBuild", "")
          && ("Output" in m ==> m["Output"].Str?)
        case LegacyBuild(failed, p) =>
          && m["Action"] == Str(if failed then "build-fail" else "build-output")
          && "ImportPath" !in m && "Package" in m && m["Package"] == Str(p)
          && TellsText(m, "Test", "") && TellsText(m, "FailedBuild", "")
          && ("Output" in m ==> m["Output"].Str?)
        case Line(a, p, test, text, failedBuild) =>
          && m["Action"] == Str(ActionName(a)) && "Package" in m && m["Package"] == Str(p)
          && TellsText(m, "Test", test) && TellsText(m, "Output", text) && TellsText(m, "FailedBuild", failedBuild))
  }

  /** Accepts one line of the stream, given as the members of its JSON object. */
  function FromMembers(members: seq<(string, Json)>): (r: Option<Event>)
    ensures r.Some? ==> WellFormed(r.value) && UniqueMembers(members).Some?
    ensures r.Some? ==> Tells(UniqueMembers(members).value, r.value)
  {
    match UniqueMembers(members)
    case None => None
    case Some(m) =>
      if !IsText(m, "Action") then None
      else
        var action := m["Action"].s;
        var build := action == "build-output" || action == "build-fail";
        if !build && ActionNamed(action).None? then None
        else
          var key := if build && "ImportPath" in m then "ImportPath" else "Package";
          if !IsText(m, key) || (m[key].s == "" && key == "Package") || !OptionalTexts(m) then None
          else if build && TextOf(m, "Test") != "" then None
          else if TextOf(m, "FailedBuild") != "" && (build || TextOf(m, "Test") != "" || action != "fail") then None
          else if build && key == "ImportPath" then Some(Build(action == "build-fail", m[key].s))
          else if build then Some(LegacyBuild(action == "build-fail", m[key].s))
          else
            Some(Line(ActionNamed(action).value, m[key].s,
                      TextOf(m, "Test"), TextOf(m, "Output"), TextOf(m, "FailedBuild")))
  }

  /** An event written out as members. */
  function ToMembers(e: Event): seq<(string, Json)> {
    match e
    case Build(failed, identity) =>
      [("Action", Str(BuildAction(failed))), ("ImportPath", Str(identity))]
    case LegacyBuild(failed, p) =>
      [("Action", Str(BuildAction(failed))), ("Package", Str(p))]
    case Line(a, p, test, text, failedBuild) =>
      [("Action", Str(ActionName(a))), ("Package", Str(p)), ("Test", Str(test)), ("Output", Str(text)),
       ("FailedBuild", Str(failedBuild))]
  }

  ghost predicate NoMemberTwice(members: seq<(string, Json)>) {
    forall i, j :: 0 <= i < j < |members| ==> members[i].0 != members[j].0
  }

  ghost predicate IsMember(members: seq<(string, Json)>, k: string, v: Json) {
    exists i :: 0 <= i < |members| && members[i] == (k, v)
  }

  /** The members become a map exactly when no name repeats, and the map holds exactly the members. */
  lemma {:induction false} UniqueMembersExactly(members: seq<(string, Json)>)
    ensures UniqueMembers(members).Some? <==> NoMemberTwice(members)
    ensures UniqueMembers(members).Some? ==>
              forall k, v :: (k in UniqueMembers(members).value && UniqueMembers(members).value[k] == v) <==>
                             IsMember(members, k, v)
    decreases |members|
  {
    if members != [] {
      var n := |members| - 1;
      var init, last := members[..n], members[n];
      UniqueMembersExactly(init);
      assert forall i :: 0 <= i < n ==> init[i] == members[i];
      forall k, v ensures IsMember(members, k, v) <==> IsMember(init, k, v) || last == (k, v) {
        MemberStep(members, k, v);
      }
      if UniqueMembers(init).Some? {
        var m := UniqueMembers(init).value;
        if last.0 in m {
          assert IsMember(init, last.0, m[last.0]);
        } else {
          forall i | 0 <= i < n ensures members[i].0 != last.0 {
            assert IsMember(init, init[i].0, init[i].1);
          }
        }
      }
    }
  }

  lemma MemberStep(members: seq<(string, Json)>, k: string, v: Json)
    requires members != []
    ensures IsMember(members, k, v) <==> IsMember(members[..|members| - 1], k, v) || members[|members| - 1] == (k, v)
  {
    var init := members[..|members| - 1];
    if IsMember(init, k, v) {
      var i :| 0 <= i < |init| && init[i] == (k, v);
      assert members[i] == (k, v);
    }
    if IsMember(members, k, v) {
      var i :| 0 <= i < |members| && members[i] == (k, v);
      assert i < |init| ==> init[i] == (k, v);
    }
  }

  lemma MembersAdd(members: seq<(string, Json)>, k: string, v: Json, m: map<string, Json>)
    requires UniqueMembers(members) == Some(m) && k !in m
    ensures UniqueMembers(members + [(k, v)]) == Some(m[k := v])
  {
    assert (members + [(k, v)])[..|members|] == members;
  }

  lemma BuildMembers(e: Event)
    requires !e.Line?
    ensures UniqueMembers(ToMembers(e)) ==
            Some(map[ToMembers(e)[0].0 := ToMembers(e)[0].1, ToMembers(e)[1].0 := ToMembers(e)[1].1])
  {
    var ms := ToMembers(e);
    assert [] + [ms[0]] == [ms[0]] && [ms[0]] + [ms[1]] == ms;
    MembersAdd([], ms[0].0, ms[0].1, map[]);
    MembersAdd([ms[0]], ms[1].0, ms[1].1, map[ms[0].0 := ms[0].1]);
  }

  lemma LineMembers(e: Event)
    requires e.Line?
    ensures UniqueMembers(ToMembers(e)) ==
            Some(map["Action" := Str(ActionName(e.action)), "Package" := Str(e.package), "Test" := Str(e.test),
                     "Output" := Str(e.text), "FailedBuild" := Str(e.failedBuild)])
  {
    var ms := ToMembers(e);
    assert [] + [ms[0]] == ms[..1] && ms[..1] + [ms[1]] == ms[..2] && ms[..2] + [ms[2]] == ms[..3];
    assert ms[..3] + [ms[3]] == ms[..4] && ms[..4] + [ms[4]] == ms;
    var m1 := map["Action" := ms[0].1];
    var m2 := m1["Package" := ms[1].1];
    var m3 := m2["Test" := ms[2].1];
    var m4 := m3["Output" := ms[3].1];
    MembersAdd([], "Action", ms[0].1, map[]);
    MembersAdd(ms[..1], "Package", ms[1].1, m1);
    MembersAdd(ms[..2], "Test", ms[2].1, m2);
    MembersAdd(ms[..3], "Output", ms[3].1, m3);
    MembersAdd(ms[..4], "FailedBuild", ms[4].1, m4);
  }

  /** The words of the stream. */
  lemma ActionWords()
    ensures ActionName(Start) == "start" && ActionName(Run) == "run" && ActionName(Pause) == "pause"
    ensures ActionName(Cont) == "cont" && ActionName(Output) == "output"
    ensures ActionName(Pass) == "pass" && ActionName(Fail) == "fail" && ActionName(Skip) == "skip"
    ensures BuildAction(true) == "build-fail" && BuildAction(false) == "build-output"
  {}

  lemma ActionNames(name: string, a: Action)
    ensures ActionNamed(name) == Some(a) <==> name == ActionName(a)
    ensures ActionNamed("build-output").None? && ActionNamed("build-fail").None?
  {}

  /** Exactly these lines are accepted: no member twice, and the members tell a well-formed event. */
  lemma AcceptedExactly(members: seq<(string, Json)>, e: Event)
    ensures FromMembers(members) == Some(e) <==>
            UniqueMembers(members).Some? && WellFormed(e) && Tells(UniqueMembers(members).value, e)
  {
    assert |"build-fail"| != |"build-output"|;
    if e.Line? {
      ActionNames(ActionName(e.action), e.action);
    }
    forall name, a ensures ActionNamed(name) == Some(a) <==> name == ActionName(a) {
      ActionNames(name, a);
    }
  }

  lemma BuildArrives(e: Event)
    requires WellFormed(e) && !e.Line?
    ensures FromMembers(ToMembers(e)) == Some(e)
  {
    BuildMembers(e);
    assert |"build-fail"| != |"build-output"|;
  }

  lemma LineArrives(e: Event)
    requires WellFormed(e) && e.Line?
    ensures FromMembers(ToMembers(e)) == Some(e)
  {
    LineMembers(e);
    assert ActionNamed(ActionName(e.action)) == Some(e.action);
  }

  /** Every well-formed event can arrive: written out, it is accepted as itself. */
  lemma EveryEventArrives(e: Event)
    requires WellFormed(e)
    ensures FromMembers(ToMembers(e)) == Some(e)
  {
    if e.Line? {
      LineArrives(e);
    } else {
      BuildArrives(e);
    }
  }
}
