/**
  The admission predicate: a person whose current address is not verified is admitted to no
  decision. Who is a person is told by the rows of people, never by the caller's claim.
*/
module Admission {
  import opened Outcomes
  import Text

  /** A reader of address marks: which of the named ids are people, and verified or not. */
  type Marks = seq<string> -> Result<map<string, bool>, string>

  /** The rows of people: id to "address verified". */
  type People = map<string, bool>

  datatype AdmissionError = NoMarks | MarksFailed(cause: string)

  const SYSTEM_CLASS := "system_class"

  /** Is the principal with this id admitted. A blank id names nobody and is admitted. */
  function ID(m: Option<Marks>, id: string): Result<bool, AdmissionError> {
    var trimmed := Text.Trim(id);
    if trimmed == "" then Ok(true)
    else if m.None? then Err(NoMarks)
    else match m.value([trimmed])
         case Err(cause) => Err(MarksFailed(cause))
         case Ok(marks) => Ok(trimmed !in marks || marks[trimmed])
  }

  /** The id a subject names; sets, wildcards, system classes and bare words name none. */
  function SubjectID(subject: string): Option<string> {
    var i := Text.IndexOf(subject, ':');
    if i <= 0 || i == |subject| - 1 then None
    else if subject[..i] == SYSTEM_CLASS then None
    else if '#' in subject[i + 1..] || '*' in subject[i + 1..] then None
    else Some(subject[i + 1..])
  }

  /** The subject is a type other than the system class, a colon, and an id that is neither a set nor a wildcard. */
  ghost predicate NamesBy(subject: string, t: string, id: string) {
    && subject == t + ":" + id
    && t != "" && ':' !in t && t != "system_class"
    && id != "" && '#' !in id && '*' !in id
  }

  ghost predicate Designates(subject: string, id: string) {
    exists t :: NamesBy(subject, t, id)
  }

  /** A subject names exactly the id it is made of. */
  lemma SubjectIDExactly(subject: string, id: string)
    ensures SubjectID(subject) == Some(id) <==> Designates(subject, id)
    ensures SubjectID(subject).None? <==> !exists other :: Designates(subject, other)
  {
    var i := Text.IndexOf(subject, ':');
    if SubjectID(subject).Some? {
      assert subject == subject[..i] + ":" + subject[i + 1..];
      assert NamesBy(subject, subject[..i], subject[i + 1..]);
      assert Designates(subject, subject[i + 1..]);
    }
    forall other | Designates(subject, other) ensures SubjectID(subject) == Some(other) {
      var t :| NamesBy(subject, t, other);
      assert subject[|t|] == ':' && forall k :: 0 <= k < |t| ==> subject[k] == t[k] && t[k] in t;
      assert i == |t| && subject[..i] == t && subject[i + 1..] == other;
    }
  }

  function Subject(m: Option<Marks>, subject: string): Result<bool, AdmissionError> {
    match SubjectID(subject)
    case None => Ok(true)
    case Some(id) => ID(m, id)
  }

  // ---------------------------------------------------------------------------------------
  // Many subjects, one question
  // ---------------------------------------------------------------------------------------

  /** The ids named by the subjects, in order. */
  function NamedIds(subjects: seq<string>): seq<string> {
    if subjects == [] then []
    else
      var init := NamedIds(subjects[..|subjects| - 1]);
      match SubjectID(subjects[|subjects| - 1])
      case None => init
      case Some(id) => init + [id]
  }

  /** A subject is admitted by the marks read unless it names a person they call unverified. */
  predicate Passes(marks: People, subject: string) {
    match SubjectID(subject)
    case None => true
    case Some(id) => id !in marks || marks[id]
  }

  /** The answer about a list of subjects: one verdict each, in order, or an error for all. */
  function AdmitAll(m: Option<Marks>, subjects: seq<string>): Result<seq<bool>, AdmissionError> {
    var ids := NamedIds(subjects);
    if ids == [] then Ok(seq(|subjects|, _ => true))
    else if m.None? then Err(NoMarks)
    else match m.value(ids)
         case Err(cause) => Err(MarksFailed(cause))
         case Ok(marks) => Ok(PassesEach(marks, subjects))
  }

  function PassesEach(marks: People, subjects: seq<string>): (out: seq<bool>)
    ensures |out| == |subjects| && forall i :: 0 <= i < |subjects| ==> out[i] == Passes(marks, subjects[i])
  {
    seq(|subjects|, i requires 0 <= i < |subjects| => Passes(marks, subjects[i]))
  }

  /** Strikes out, in place, the subjects whose marks say "person, not verified". */
  method StrikeUnverified(marks: People, subjects: seq<string>, all: seq<bool>) returns (out: seq<bool>)
    requires |all| == |subjects| && forall i :: 0 <= i < |all| ==> all[i]
    ensures out == PassesEach(marks, subjects)
  {
    out := all;
    for i := 0 to |subjects|
      invariant |out| == |subjects|
      invariant forall k :: 0 <= k < i ==> out[k] == Passes(marks, subjects[k])
      invariant forall k :: i <= k < |subjects| ==> out[k]
    {
      match SubjectID(subjects[i])
      case None =>
      case Some(id) =>
        if id in marks && !marks[id] {
          out := out[i := false];
        }
    }
  }

  lemma NamedIdsStep(subjects: seq<string>, i: nat)
    requires i < |subjects|
    ensures NamedIds(subjects[..i + 1]) ==
            NamedIds(subjects[..i]) + match SubjectID(subjects[i]) case None => [] case Some(id) => [id]
  {
    assert subjects[..i + 1][..i] == subjects[..i] && subjects[..i + 1][i] == subjects[i];
  }

  /** Admits everybody to begin with and lists the ids to ask about. */
  method CollectIds(subjects: seq<string>) returns (all: seq<bool>, ids: seq<string>)
    ensures ids == NamedIds(subjects)
    ensures |all| == |subjects| && forall i :: 0 <= i < |all| ==> all[i]
  {
    all, ids := [], [];
    for i := 0 to |subjects|
      invariant ids == NamedIds(subjects[..i])
      invariant |all| == i && forall k :: 0 <= k < i ==> all[k]
    {
      NamedIdsStep(subjects, i);
      all := all + [true];
      var id := SubjectID(subjects[i]);
      if id.Some? {
        ids := ids + [id.value];
      }
    }
    assert subjects[..|subjects|] == subjects;
  }

  method Subjects(m: Option<Marks>, subjects: seq<string>) returns (r: Result<seq<bool>, AdmissionError>)
    ensures r == AdmitAll(m, subjects)
  {
    var out, ids := CollectIds(subjects);
    if |ids| == 0 {
      assert out == seq(|subjects|, _ => true);
      return Ok(out);
    }
    if m.None? {
      return Err(NoMarks);
    }
    var marks := m.value(ids);
    if marks.Err? {
      return Err(MarksFailed(marks.error));
    }
    out := StrikeUnverified(marks.value, subjects, out);
    r := Ok(out);
  }

  // ---------------------------------------------------------------------------------------
  // Agreement, and what a failed reader can cause
  // ---------------------------------------------------------------------------------------

  /** The rows of the named people, of those there are. */
  function Rows(people: People, ids: seq<string>): People {
    map id | id in ids && id in people :: people[id]
  }

  /** A reader of these rows: whenever it answers, it answers with the rows it was asked for. */
  ghost predicate Reads(m: Marks, people: People) {
    forall ids :: m(ids).Ok? ==> m(ids).value == Rows(people, ids)
  }

  lemma {:induction false} NamedIdsHas(subjects: seq<string>, i: nat)
    requires i < |subjects| && SubjectID(subjects[i]).Some?
    ensures SubjectID(subjects[i]).value in NamedIds(subjects)
    decreases |subjects|
  {
    if i < |subjects| - 1 {
      NamedIdsHas(subjects[..|subjects| - 1], i);
    }
  }

  /** The list answer is the predicate over the rows of people, subject by subject. */
  lemma AdmitAllIsAdmission(m: Option<Marks>, people: People, subjects: seq<string>)
    requires m.Some? ==> Reads(m.value, people)
    requires AdmitAll(m, subjects).Ok?
    ensures |AdmitAll(m, subjects).value| == |subjects|
    ensures forall i :: 0 <= i < |subjects| ==> AdmitAll(m, subjects).value[i] == Passes(people, subjects[i])
  {
    forall i | 0 <= i < |subjects|
      ensures AdmitAll(m, subjects).value[i] == Passes(people, subjects[i])
    {
      if SubjectID(subjects[i]).Some? {
        NamedIdsHas(subjects, i);
      }
    }
  }

  /** The rows of people call the id, without surrounding white space, an unverified person. */
  ghost predicate Unverified(people: People, id: string) {
    Text.Trim(id) != "" && Text.Trim(id) in people && !people[Text.Trim(id)]
  }

  /** The subject names an id, not blank, that a reader was asked about and could not tell. */
  ghost predicate Untold(m: Option<Marks>, subject: string) {
    exists id :: Designates(subject, id) && Text.Trim(id) != "" && (m.None? || m.value([Text.Trim(id)]).Err?)
  }

  /** The subject names an unverified person. */
  ghost predicate Barred(people: People, subject: string) {
    exists id :: Designates(subject, id) && Unverified(people, id)
  }

  /**
    A subject alone: an error exactly when its marks are needed and cannot be read, a refusal
    exactly when it names an unverified person, and everybody else is admitted.
  */
  lemma SubjectExactly(m: Option<Marks>, people: People, subject: string)
    requires m.Some? ==> Reads(m.value, people)
    ensures Subject(m, subject).Err? <==> Untold(m, subject)
    ensures Subject(m, subject) == Ok(false) <==> !Untold(m, subject) && Barred(people, subject)
  {
    if SubjectID(subject).None? {
      SubjectIDExactly(subject, "");
    } else {
      var id := SubjectID(subject).value;
      forall other ensures Designates(subject, other) <==> other == id {
        SubjectIDExactly(subject, other);
      }
      var trimmed := Text.Trim(id);
      assert Barred(people, subject) <==> Unverified(people, id);
      assert Untold(m, subject) <==> trimmed != "" && (m.None? || m.value([trimmed]).Err?);
      if m.Some? && m.value([trimmed]).Ok? {
        assert m.value([trimmed]).value == Rows(people, [trimmed]);
        assert trimmed in [trimmed];
      }
    }
  }

  /** The ids asked about are those the subjects name. */
  lemma {:induction false} NamedIdsExactly(subjects: seq<string>, id: string)
    ensures id in NamedIds(subjects) <==> exists i :: 0 <= i < |subjects| && Designates(subjects[i], id)
    decreases |subjects|
  {
    if subjects != [] {
      var init, last := subjects[..|subjects| - 1], subjects[|subjects| - 1];
      NamedIdsExactly(init, id);
      SubjectIDExactly(last, id);
      assert forall i :: 0 <= i < |init| ==> init[i] == subjects[i];
    }
  }

  /** The subject names, letter for letter, a person the rows call unverified. */
  ghost predicate Struck(people: People, subject: string) {
    exists id :: Designates(subject, id) && id in people && !people[id]
  }

  ghost predicate SomebodyNamed(subjects: seq<string>) {
    exists i, id :: 0 <= i < |subjects| && Designates(subjects[i], id)
  }

  /**
    Many subjects: nobody is asked about when none names an id; otherwise an error exactly when the
    one question fails; and a subject is refused exactly when it names an unverified person.
  */
  lemma AdmitAllExactly(m: Option<Marks>, people: People, subjects: seq<string>)
    requires m.Some? ==> Reads(m.value, people)
    ensures AdmitAll(m, subjects).Err? <==>
            SomebodyNamed(subjects) && (m.None? || m.value(NamedIds(subjects)).Err?)
    ensures AdmitAll(m, subjects).Ok? ==>
              && |AdmitAll(m, subjects).value| == |subjects|
              && forall i :: 0 <= i < |subjects| ==> (AdmitAll(m, subjects).value[i] <==> !Struck(people, subjects[i]))
  {
    if SomebodyNamed(subjects) {
      var i, id :| 0 <= i < |subjects| && Designates(subjects[i], id);
      NamedIdsExactly(subjects, id);
    } else if NamedIds(subjects) != [] {
      NamedIdsExactly(subjects, NamedIds(subjects)[0]);
    }
    if AdmitAll(m, subjects).Ok? {
      AdmitAllIsAdmission(m, people, subjects);
      forall i | 0 <= i < |subjects| ensures Passes(people, subjects[i]) <==> !Struck(people, subjects[i]) {
        PassesExactly(people, subjects[i]);
      }
    }
  }

  lemma PassesExactly(people: People, subject: string)
    ensures Passes(people, subject) <==> !Struck(people, subject)
  {
    if SubjectID(subject).None? {
      SubjectIDExactly(subject, "");
    } else {
      forall other ensures Designates(subject, other) <==> SubjectID(subject) == Some(other) {
        SubjectIDExactly(subject, other);
      }
    }
  }

  /** Asked together or alone, a subject whose id carries no surrounding white space gets one verdict. */
  lemma ManyAgreesWithOne(m: Option<Marks>, people: People, subjects: seq<string>, i: nat)
    requires m.Some? ==> Reads(m.value, people)
    requires i < |subjects| && AdmitAll(m, subjects).Ok? && Subject(m, subjects[i]).Ok?
    requires SubjectID(subjects[i]).Some? ==> Text.Trim(SubjectID(subjects[i]).value) == SubjectID(subjects[i]).value
    ensures i < |AdmitAll(m, subjects).value|
    ensures AdmitAll(m, subjects).value[i] == Subject(m, subjects[i]).value
  {
    AdmitAllIsAdmission(m, people, subjects);
    if SubjectID(subjects[i]).Some? {
      var id := SubjectID(subjects[i]).value;
      if m.Some? && m.value([id]).Ok? {
        assert m.value([id]).value == Rows(people, [id]);
        assert id in [id];
      }
    }
  }

  /** A reader of these rows that never fails. */
  function Reader(people: People): Marks {
    ids => Ok(Rows(people, ids))
  }

  ghost predicate OneVerdict(people: People, subject: string) {
    AdmitAll(Some(Reader(people)), [subject]) == Ok([true]) <==> Subject(Some(Reader(people)), subject) == Ok(true)
  }

  /**
    Only the single form trims. So the two forms agree about a subject whatever the rows of
    people are exactly when the id it names is already trimmed.
  */
  lemma AgreementNeedsTrimmedIds(subject: string, id: string)
    requires SubjectID(subject) == Some(id)
    ensures (forall people :: OneVerdict(people, subject)) <==> Text.Trim(id) == id
  {
    if Text.Trim(id) == id {
      forall people ensures OneVerdict(people, subject) {
        var m := Some(Reader(people));
        ManyAgreesWithOne(m, people, [subject], 0);
        AdmitAllIsAdmission(m, people, [subject]);
        assert AdmitAll(m, [subject]).value == [AdmitAll(m, [subject]).value[0]];
      }
    } else {
      var people := map[id := false];
      var m := Some(Reader(people));
      AdmitAllIsAdmission(m, people, [subject]);
      assert AdmitAll(m, [subject]).value[0] == false;
      assert !OneVerdict(people, subject);
    }
  }

  lemma SpacedSubject(subject: string)
    requires subject == "user: u1"
    ensures SubjectID(subject) == Some(" u1")
  {
    var i := Text.IndexOf(subject, ':');
    assert subject[4] == ':' && subject[..4] == "user" && subject[5..] == " u1";
    assert ':' in subject;
    assert i == 4;
  }

  /**
    The disagreement is real: an unverified person, named with a leading space, is refused alone
    and passes in a list.
  */
  lemma UntrimmedSubjectPassesInAList(subject: string, people: People)
    requires subject == "user: u1" && people == map["u1" := false]
    ensures Subject(Some(Reader(people)), subject) == Ok(false)
    ensures AdmitAll(Some(Reader(people)), [subject]) == Ok([true])
  {
    var m := Some(Reader(people));
    SpacedSubject(subject);
    var id := " u1";
    assert Text.IsSpace(id[0]) && id[1..] == "u1" && Text.Trim(id) == Text.Trim("u1") == "u1";
    assert "u1" in ["u1"] && Reader(people)(["u1"]).value["u1"] == false;
    assert id[0] != "u1"[0];
    AdmitAllIsAdmission(m, people, [subject]);
    assert AdmitAll(m, [subject]).value == [true];
  }

  /** The other way about: a row keyed with the space is missed by the single form, which trims. */
  lemma UntrimmedSubjectIsAdmittedAlone(subject: string, people: People)
    requires subject == "user: u1" && people == map[" u1" := false]
    ensures Subject(Some(Reader(people)), subject) == Ok(true)
    ensures AdmitAll(Some(Reader(people)), [subject]) == Ok([false])
  {
    var m := Some(Reader(people));
    SpacedSubject(subject);
    var id := " u1";
    assert Text.IsSpace(id[0]) && id[1..] == "u1" && Text.Trim(id) == Text.Trim("u1") == "u1";
    AdmitAllIsAdmission(m, people, [subject]);
    assert AdmitAll(m, [subject]).value == [false];
  }
}
