/**
  The decision door: the one value every guard asks. It puts the admission predicate in
  front of every verdict and every list of holders, and answers an error, never a denial,
  when it could not ask.
*/
module DecisionDoor {
  import opened Outcomes
  import opened ObjectRef
  import opened Admission
  import opened Selection
  import Text

  /** The relational form behind the door: deterministic answers from the service's own rows. */
  datatype Form = Form(
    allowed: (string, string, string, string) -> Result<bool, string>,              // subject, type, id, relation
    allowedMany: (string, string, seq<string>, string) -> Result<seq<bool>, string>, // subject, type, ids, relation
    // type, id, relation, after, limit
    subjectsPage: (string, string, string, string, int) -> Result<(seq<string>, string), string>,
    marks: Marks)

  datatype DoorError =
    | FormNotWired
    | Unparsable(name: string)
    | MixedTypes(first: string, other: string)
    | NotAdmittable(cause: AdmissionError)
    | FormFailed(reason: string)
    | TooManyPages

  const MAX_PAGES := 64

  // ---------------------------------------------------------------------------------------
  // Verdicts
  // ---------------------------------------------------------------------------------------

  function Check(client: Option<Form>, subject: string, relation: string, name: string): Result<bool, DoorError> {
    if client.None? then Err(FormNotWired)
    else
      match Parse(name)
      case None => Err(Unparsable(name))
      case Some(ref) =>
        match Subject(Some(client.value.marks), subject)
        case Err(e) => Err(NotAdmittable(e))
        case Ok(false) => Ok(false)
        case Ok(true) =>
          match client.value.allowed(subject, ref.objectType, ref.id, relation)
          case Err(e) => Err(FormFailed(e))
          case Ok(b) => Ok(b)
  }

  /**
    A single verdict, over the form and the rows of people. It allows exactly when the name is an
    object, the subject can be and is admitted, and the form allows this subject this relation on
    this object. It is an error, never a denial, exactly when there is no form, the name is no
    object, the subject's marks cannot be read, or the form fails on an admitted subject.
  */
  lemma CheckExactly(client: Option<Form>, people: People, subject: string, relation: string, name: string)
    requires client.Some? ==> Reads(client.value.marks, people)
    ensures Check(client, subject, relation, name) == Ok(true) <==>
            && client.Some? && !Untold(Some(client.value.marks), subject) && !Barred(people, subject)
            && exists t, id :: IsObject(name, t, id) && client.value.allowed(subject, t, id, relation) == Ok(true)
    ensures Check(client, subject, relation, name).Err? <==>
            || client.None? || (forall t, id :: !IsObject(name, t, id))
            || Untold(Some(client.value.marks), subject)
            || (!Barred(people, subject) &&
                exists t, id :: IsObject(name, t, id) && client.value.allowed(subject, t, id, relation).Err?)
  {
    if client.Some? {
      SubjectExactly(Some(client.value.marks), people, subject);
      forall t, id ensures IsObject(name, t, id) <==> Parse(name) == Some(Ref(t, id)) {
        ParseExactly(name, Ref(t, id));
      }
    }
  }

  /** Which error it is: the first of the reasons, in this order. */
  lemma CheckErrsBecause(client: Option<Form>, people: People, subject: string, relation: string, name: string)
    requires client.Some? ==> Reads(client.value.marks, people)
    requires Check(client, subject, relation, name).Err?
    ensures var e := Check(client, subject, relation, name).error;
            if client.None? then e == FormNotWired
            else if forall t, id :: !IsObject(name, t, id) then e == Unparsable(name)
            else if Untold(Some(client.value.marks), subject) then e.NotAdmittable?
            else e.FormFailed? &&
                 exists t, id :: IsObject(name, t, id) &&
                                 client.value.allowed(subject, t, id, relation) == Err(e.reason)
  {
    if client.Some? {
      SubjectExactly(Some(client.value.marks), people, subject);
      forall t, id ensures IsObject(name, t, id) <==> Parse(name) == Some(Ref(t, id)) {
        ParseExactly(name, Ref(t, id));
      }
    }
  }

  /** Splits a batch of names: the type they share and their ids, or the first offender. */
  function ParseBatch(names: seq<string>): Result<(string, seq<string>), DoorError> {
    if names == [] then Ok(("", []))
    else
      match ParseBatch(names[..|names| - 1])
      case Err(e) => Err(e)
      case Ok((t, ids)) =>
        match Parse(names[|names| - 1])
        case None => Err(Unparsable(names[|names| - 1]))
        case Some(ref) =>
          if t == "" then Ok((ref.objectType, ids + [ref.id]))
          else if ref.objectType != t then Err(MixedTypes(t, ref.objectType))
          else Ok((t, ids + [ref.id]))
  }

  ghost predicate AllOf(names: seq<string>, objectType: string) {
    forall i :: 0 <= i < |names| ==> Parse(names[i]).Some? && Parse(names[i]).value.objectType == objectType
  }

  /** The names are objects, all of one type. */
  ghost predicate SingleTyped(names: seq<string>) {
    exists t :: AllOf(names, t)
  }

  lemma {:induction false} ParsedNameByName(names: seq<string>)
    requires ParseBatch(names).Ok?
    ensures |ParseBatch(names).value.1| == |names|
    ensures names == [] <==> ParseBatch(names).value.0 == ""
    ensures forall i :: 0 <= i < |names| ==>
              Parse(names[i]) == Some(Ref(ParseBatch(names).value.0, ParseBatch(names).value.1[i]))
    decreases |names|
  {
    if names != [] {
      var n := |names| - 1;
      ParsedNameByName(names[..n]);
      ParseThenName(names[n]);
      assert n > 0 ==> names[..n] != [];
      var (t, ids) := ParseBatch(names[..n]).value;
      assert n > 0 ==> ParseBatch(names).value.0 == t;
      assert ParseBatch(names).value.1 == ids + [Parse(names[n]).value.id];
      forall i | 0 <= i < |names|
        ensures Parse(names[i]) == Some(Ref(ParseBatch(names).value.0, ParseBatch(names).value.1[i]))
      {
        if i < n { assert names[..n][i] == names[i]; }
      }
    }
  }

  lemma {:induction false} OneTypeParses(names: seq<string>, objectType: string)
    requires AllOf(names, objectType)
    ensures ParseBatch(names).Ok?
    ensures names != [] ==> ParseBatch(names).value.0 == objectType
    decreases |names|
  {
    if names != [] {
      var n := |names| - 1;
      assert forall i :: 0 <= i < n ==> names[..n][i] == names[i];
      OneTypeParses(names[..n], objectType);
    }
  }

  /** A batch is split exactly when it is single-typed. */
  lemma ParseBatchExact(names: seq<string>)
    ensures ParseBatch(names).Ok? <==> SingleTyped(names)
  {
    if ParseBatch(names).Ok? {
      ParsedNameByName(names);
      assert AllOf(names, ParseBatch(names).value.0);
    } else if SingleTyped(names) {
      var t :| AllOf(names, t);
      OneTypeParses(names, t);
    }
  }

  /** The answer about a batch: one verdict per object, in order, or an error for all of it. */
  function BatchAnswer(client: Option<Form>, subject: string, relation: string, names: seq<string>): Result<seq<bool>,
                       DoorError> {
    if client.None? then Err(FormNotWired)
    else if names == [] then Ok([])
    else
      match ParseBatch(names)
      case Err(e) => Err(e)
      case Ok((t, ids)) =>
        match Subject(Some(client.value.marks), subject)
        case Err(e) => Err(NotAdmittable(e))
        case Ok(false) => Ok(seq(|names|, _ => false))
        case Ok(true) =>
          match client.value.allowedMany(subject, t, ids, relation)
          case Err(e) => Err(FormFailed(e))
          case Ok(vs) => Ok(vs)
  }

  /** The names are these ids of this type, in order. */
  ghost predicate AreObjects(names: seq<string>, t: string, ids: seq<string>) {
    |ids| == |names| && forall i :: 0 <= i < |names| ==> IsObject(names[i], t, ids[i])
  }

  /** A batch is split into exactly the parts it is made of. */
  lemma ParseBatchIsObjects(names: seq<string>, t: string, ids: seq<string>)
    requires names != []
    ensures ParseBatch(names) == Ok((t, ids)) <==> AreObjects(names, t, ids)
  {
    if ParseBatch(names) == Ok((t, ids)) {
      ParsedNameByName(names);
      forall i | 0 <= i < |names| ensures IsObject(names[i], t, ids[i]) {
        ParseExactly(names[i], Ref(t, ids[i]));
      }
    }
    if AreObjects(names, t, ids) {
      forall i | 0 <= i < |names| ensures Parse(names[i]) == Some(Ref(t, ids[i])) {
        ParseExactly(names[i], Ref(t, ids[i]));
      }
      OneTypeParses(names, t);
      ParsedNameByName(names);
      var split := ParseBatch(names).value;
      assert forall i :: 0 <= i < |names| ==> split.1[i] == ids[i];
      assert split.1 == ids;
    }
  }

  /** The first name that is no object, or not of the type of those before it, and what is said of it. */
  ghost predicate Offends(names: seq<string>, k: nat, e: DoorError) {
    && k < |names| && SingleTyped(names[..k])
    && match Parse(names[k])
       case None => e == Unparsable(names[k])
       case Some(ref) => k > 0 && Parse(names[0]).Some? && ref.objectType != Parse(names[0]).value.objectType &&
                         e == MixedTypes(Parse(names[0]).value.objectType, ref.objectType)
  }

  /** A batch that is not split is refused for its first offender. */
  lemma {:induction false} FirstOffender(names: seq<string>) returns (k: nat)
    requires ParseBatch(names).Err?
    ensures Offends(names, k, ParseBatch(names).error)
    decreases |names|
  {
    var n := |names| - 1;
    var init := names[..n];
    if ParseBatch(init).Err? {
      k := FirstOffender(init);
      assert names[..k] == init[..k] && names[k] == init[k] && names[0] == init[0];
    } else {
      k := n;
      ParseBatchExact(init);
      ParsedNameByName(init);
      assert n > 0 ==> init[0] == names[0];
    }
  }

  /**
    A batch, over the form and the rows of people: answered exactly when there is a form and the
    batch is empty, or its names are objects of one type, the subject's marks can be read, and the
    subject is barred or the form answers about this subject, this relation and these objects. A
    barred subject is denied on each; anybody else gets the form's own answer.
  */
  lemma BatchExactly(client: Option<Form>, people: People, subject: string, relation: string, names: seq<string>)
    requires client.Some? ==> Reads(client.value.marks, people)
    requires names != []
    ensures BatchAnswer(client, subject, relation, names).Ok? <==>
            && client.Some? && !Untold(Some(client.value.marks), subject)
            && exists t, ids :: AreObjects(names, t, ids) &&
                                (Barred(people, subject) || client.value.allowedMany(subject, t, ids, relation).Ok?)
    ensures BatchAnswer(client, subject, relation, names).Ok? ==>
              var vs := BatchAnswer(client, subject, relation, names).value;
              if Barred(people, subject) then |vs| == |names| && forall i :: 0 <= i < |vs| ==> !vs[i]
              else exists t, ids :: AreObjects(names, t, ids) &&
                                    client.value.allowedMany(subject, t, ids, relation) == Ok(vs)
  {
    if client.Some? {
      SubjectExactly(Some(client.value.marks), people, subject);
      forall t, ids ensures AreObjects(names, t, ids) <==> ParseBatch(names) == Ok((t, ids)) {
        ParseBatchIsObjects(names, t, ids);
      }
      if ParseBatch(names).Ok? {
        var (t, ids) := ParseBatch(names).value;
        assert AreObjects(names, t, ids);
      }
    }
  }

  lemma {:induction false} ParseBatchStops(names: seq<string>, n: nat)
    requires n <= |names| && ParseBatch(names[..n]).Err?
    ensures ParseBatch(names) == ParseBatch(names[..n])
    decreases |names|
  {
    if n == |names| {
      assert names[..n] == names;
    } else {
      assert names[..|names| - 1][..n] == names[..n];
      ParseBatchStops(names[..|names| - 1], n);
    }
  }

  method BatchCheck(client: Option<Form>, subject: string, relation: string, names: seq<string>)
    returns (r: Result<seq<bool>, DoorError>)
    ensures r == BatchAnswer(client, subject, relation, names)
    ensures client.None? ==> r == Err(FormNotWired)
    ensures client.Some? && names == [] ==> r == Ok([])
  {
    if client.None? {
      return Err(FormNotWired);
    }
    if |names| == 0 {
      return Ok([]);
    }
    var objectType, ids := "", [];
    for i := 0 to |names|
      invariant ParseBatch(names[..i]) == Ok((objectType, ids))
    {
      assert names[..i + 1][..i] == names[..i];
      var ref := Parse(names[i]);
      if ref.None? {
        ParseBatchStops(names, i + 1);
        return Err(Unparsable(names[i]));
      }
      if objectType == "" {
        objectType := ref.value.objectType;
      } else if ref.value.objectType != objectType {
        ParseBatchStops(names, i + 1);
        return Err(MixedTypes(objectType, ref.value.objectType));
      }
      ids := ids + [ref.value.id];
    }
    assert names[..|names|] == names;
    var admitted := Subject(Some(client.value.marks), subject);
    if admitted.Err? {
      return Err(NotAdmittable(admitted.error));
    }
    if !admitted.value {
      return Ok(seq(|names|, _ => false));
    }
    var vs := client.value.allowedMany(subject, objectType, ids, relation);
    r := if vs.Err? then Err(FormFailed(vs.error)) else Ok(vs.value);
  }

  /**
    The page form of a verdict reads the same rows as the single form: whenever it answers with
    one verdict per object, they are the single ones. That it does so is a separate matter.
  */
  ghost predicate Coherent(form: Form) {
    forall subject, t, ids, relation :: form.allowedMany(subject, t, ids, relation).Ok? ==>
      var vs := form.allowedMany(subject, t, ids, relation).value;
      |vs| == |ids| ==> forall i :: 0 <= i < |ids| ==> form.allowed(subject, t, ids[i], relation) == Ok(vs[i])
  }

  ghost predicate Aligned(form: Form) {
    forall subject, t, ids, relation :: form.allowedMany(subject, t, ids, relation).Ok? ==>
      |form.allowedMany(subject, t, ids, relation).value| == |ids|
  }

  /** Asked together or alone, an object gets one verdict; a batch fails only as a whole. */
  lemma BatchAgreesWithCheck(client: Option<Form>, subject: string, relation: string, names: seq<string>)
    requires client.Some? ==> Coherent(client.value)
    requires BatchAnswer(client, subject, relation, names).Ok?
    ensures Aligned(client.value) ==> |BatchAnswer(client, subject, relation, names).value| == |names|
    ensures |BatchAnswer(client, subject, relation, names).value| == |names| ==>
              forall i :: 0 <= i < |names| ==>
                Check(client, subject, relation, names[i]) == Ok(BatchAnswer(client, subject, relation, names).value[i])
  {
    if names != [] {
      ParsedNameByName(names);
      var form := client.value;
      var (t, ids) := ParseBatch(names).value;
      assert Subject(Some(form.marks), subject) == Ok(true) ==> form.allowedMany(subject, t, ids, relation).Ok?;
    }
  }

  /**
    Nothing is allowed through a door that could not tell whether the subject is admitted: an
    allowed verdict, alone or in a batch, means the marks of the id the subject names were read
    and do not call it an unverified person.
  */
  lemma AllowedMeansAdmitted(client: Option<Form>, people: People, subject: string, relation: string,
                             names: seq<string>, id: string)
    requires client.Some? ==> Reads(client.value.marks, people)
    requires SubjectID(subject) == Some(id) && Text.Trim(id) != ""
    requires || (names != [] && Check(client, subject, relation, names[0]) == Ok(true))
             || var batch := BatchAnswer(client, subject, relation, names); batch.Ok? && true in batch.value
    ensures client.Some? && client.value.marks([Text.Trim(id)]).Ok?
    ensures Text.Trim(id) !in people || people[Text.Trim(id)]
  {
    var trimmed := Text.Trim(id);
    assert Subject(Some(client.value.marks), subject) == Ok(true);
    assert client.value.marks([trimmed]).value == Rows(people, [trimmed]);
    assert trimmed in people ==> trimmed in Rows(people, [trimmed]) by { assert trimmed in [trimmed]; }
  }

  // ---------------------------------------------------------------------------------------
  // Holders
  // ---------------------------------------------------------------------------------------

  /** The subjects marked true, in order. */
  function Keep(subjects: seq<string>, verdicts: seq<bool>): seq<string>
    requires |subjects| == |verdicts|
  {
    if subjects == [] then []
    else
      var n := |subjects| - 1;
      Keep(subjects[..n], verdicts[..n]) + if verdicts[n] then [subjects[n]] else []
  }

  function HoldersAnswer(form: Form, subjects: seq<string>): Result<seq<string>, DoorError> {
    match AdmitAll(Some(form.marks), subjects)
    case Err(e) => Err(NotAdmittable(e))
    case Ok(vs) => Ok(Keep(subjects, vs))
  }

  method KeepMarked(subjects: seq<string>, verdicts: seq<bool>) returns (out: seq<string>)
    requires |subjects| == |verdicts|
    ensures out == Keep(subjects, verdicts)
  {
    out := [];
    for i := 0 to |subjects|
      invariant out == Keep(subjects[..i], verdicts[..i])
    {
      assert subjects[..i + 1][..i] == subjects[..i] && verdicts[..i + 1][..i] == verdicts[..i];
      if verdicts[i] {
        out := out + [subjects[i]];
      }
    }
    assert subjects[..|subjects|] == subjects && verdicts[..|subjects|] == verdicts;
  }

  method AdmittedHolders(form: Form, subjects: seq<string>) returns (r: Result<seq<string>, DoorError>)
    ensures r == HoldersAnswer(form, subjects)
  {
    var verdicts := Subjects(Some(form.marks), subjects);
    if verdicts.Err? {
      return Err(NotAdmittable(verdicts.error));
    }
    var out := KeepMarked(subjects, verdicts.value);
    r := Ok(out);
  }

  /** One page of holders: the source page narrowed, its cursor untouched. */
  function ListSubjects(client: Option<Form>, objectType: string, id: string, relation: string, size: int,
                        token: string)
    : Result<(seq<string>, string), DoorError>
  {
    if client.None? then Err(FormNotWired)
    else
      match client.value.subjectsPage(objectType, id, relation, token, size)
      case Err(e) => Err(FormFailed(e))
      case Ok((subjects, next)) =>
        match HoldersAnswer(client.value, subjects)
        case Err(e) => Err(e)
        case Ok(out) => Ok((out, next))
  }

  /** The source's own pages from a cursor on, if they end within n pages. */
  function SourcePages(form: Form, objectType: string, id: string, relation: string, after: string, size: int, n: nat)
    : Pages
    decreases n
  {
    if n == 0 then Err(TooManyPages)
    else
      match form.subjectsPage(objectType, id, relation, after, size)
      case Err(e) => Err(FormFailed(e))
      case Ok((subjects, next)) =>
        if next == "" then Ok([subjects])
        else
          match SourcePages(form, objectType, id, relation, next, size, n - 1)
          case Err(e) => Err(e)
          case Ok(rest) => Ok([subjects] + rest)
  }

  /** The same walk over the door's pages. */
  function ListedPages(client: Option<Form>, objectType: string, id: string, relation: string, after: string,
                       size: int, n: nat)
    : Pages
    decreases n
  {
    if n == 0 then Err(TooManyPages)
    else
      match ListSubjects(client, objectType, id, relation, size, after)
      case Err(e) => Err(e)
      case Ok((out, next)) =>
        if next == "" then Ok([out])
        else
          match ListedPages(client, objectType, id, relation, next, size, n - 1)
          case Err(e) => Err(e)
          case Ok(rest) => Ok([out] + rest)
  }

  /** The marks of every page can be read. */
  ghost predicate AllReadable(form: Form, pages: seq<seq<string>>) {
    pages == [] || (HoldersAnswer(form, pages[0]).Ok? && AllReadable(form, pages[1..]))
  }

  /** The admitted members of a list, in order. */
  ghost function AdmittedOf(people: People, subjects: seq<string>): seq<string> {
    if subjects == [] then []
    else
      var n := |subjects| - 1;
      AdmittedOf(people, subjects[..n]) + if Passes(people, subjects[n]) then [subjects[n]] else []
  }

  ghost function Join(pages: seq<seq<string>>): seq<string> {
    if pages == [] then [] else pages[0] + Join(pages[1..])
  }

  lemma {:induction false} KeepIsAdmitted(people: People, subjects: seq<string>, vs: seq<bool>)
    requires |vs| == |subjects| && forall i :: 0 <= i < |vs| ==> vs[i] == Passes(people, subjects[i])
    ensures Keep(subjects, vs) == AdmittedOf(people, subjects)
    decreases |subjects|
  {
    if subjects != [] {
      KeepIsAdmitted(people, subjects[..|subjects| - 1], vs[..|subjects| - 1]);
    }
  }

  lemma HoldersAreAdmitted(form: Form, people: People, subjects: seq<string>)
    requires Reads(form.marks, people) && HoldersAnswer(form, subjects).Ok?
    ensures HoldersAnswer(form, subjects).value == AdmittedOf(people, subjects)
  {
    AdmitAllIsAdmission(Some(form.marks), people, subjects);
    KeepIsAdmitted(people, subjects, AdmitAll(Some(form.marks), subjects).value);
  }

  lemma {:induction false} AdmittedOfJoin(people: People, a: seq<string>, b: seq<string>)
    ensures AdmittedOf(people, a + b) == AdmittedOf(people, a) + AdmittedOf(people, b)
    decreases |b|
  {
    if b == [] {
      assert a + b == a;
    } else {
      assert (a + b)[..|a + b| - 1] == a + b[..|b| - 1];
      AdmittedOfJoin(people, a, b[..|b| - 1]);
    }
  }

  /** The positions of a list the admission predicate does not strike out. */
  ghost function Standing(people: People, subjects: seq<string>): nat -> bool {
    (i: nat) => i < |subjects| && !Struck(people, subjects[i])
  }

  ghost function AdmittedPasses(people: People, subjects: seq<string>): (outs: seq<seq<string>>)
    ensures |outs| == |subjects| + 1
    ensures forall i :: 0 <= i <= |subjects| ==> outs[i] == AdmittedOf(people, subjects[..i])
  {
    seq(|subjects| + 1, i requires 0 <= i <= |subjects| => AdmittedOf(people, subjects[..i]))
  }

  lemma AdmittedStep(people: People, subjects: seq<string>, i: nat)
    requires i < |subjects|
    ensures AdmittedOf(people, subjects[..i + 1]) ==
            if Struck(people, subjects[i]) then AdmittedOf(people, subjects[..i])
            else AdmittedOf(people, subjects[..i]) + [subjects[i]]
  {
    PassesExactly(people, subjects[i]);
    assert subjects[..i + 1][..i] == subjects[..i];
  }

  lemma AdmittedOfPicks(people: People, subjects: seq<string>)
    ensures Picks(AdmittedOf(people, subjects), subjects, Standing(people, subjects))
  {
    var outs, kept := AdmittedPasses(people, subjects), Standing(people, subjects);
    forall i: nat | i < |subjects| ensures AppendsAt(outs, subjects, kept, i) {
      AdmittedStep(people, subjects, i);
    }
    WholePassPicks(outs, subjects, kept);
    assert subjects[..|subjects|] == subjects;
  }

  /**
    A page of holders: an error exactly when somebody is named and the marks cannot be read; else the
    holders that name no unverified person, all of them and in order.
  */
  lemma HoldersExactly(form: Form, people: People, subjects: seq<string>)
    requires Reads(form.marks, people)
    ensures HoldersAnswer(form, subjects).Err? <==> SomebodyNamed(subjects) && form.marks(NamedIds(subjects)).Err?
    ensures HoldersAnswer(form, subjects).Ok? ==>
              Picks(HoldersAnswer(form, subjects).value, subjects, Standing(people, subjects))
  {
    AdmitAllExactly(Some(form.marks), people, subjects);
    if HoldersAnswer(form, subjects).Ok? {
      HoldersAreAdmitted(form, people, subjects);
      AdmittedOfPicks(people, subjects);
    }
  }

  /** One page through the door: the source's page of this very object, relation and cursor, and its cursor. */
  lemma ListSubjectsExactly(form: Form, objectType: string, id: string, relation: string, size: int, token: string,
                            out: seq<string>, next: string)
    ensures ListSubjects(Some(form), objectType, id, relation, size, token) == Ok((out, next)) <==>
            exists page :: form.subjectsPage(objectType, id, relation, token, size) == Ok((page, next)) &&
                           HoldersAnswer(form, page) == Ok(out)
  {}

  /** The source, asked about this object and relation from cursor to cursor, gives these pages and ends. */
  ghost predicate WalksBy(form: Form, objectType: string, id: string, relation: string, after: string, size: int,
                          pages: seq<seq<string>>, cursors: seq<string>)
  {
    && pages != [] && |cursors| == |pages| + 1 && cursors[0] == after && cursors[|pages|] == ""
    && (forall i :: 0 < i < |pages| ==> cursors[i] != "")
    && forall i :: 0 <= i < |pages| ==>
         form.subjectsPage(objectType, id, relation, cursors[i], size) == Ok((pages[i], cursors[i + 1]))
  }

  ghost predicate Walks(form: Form, objectType: string, id: string, relation: string, after: string, size: int,
                        pages: seq<seq<string>>)
  {
    exists cursors :: WalksBy(form, objectType, id, relation, after, size, pages, cursors)
  }

  lemma WalksOn(form: Form, objectType: string, id: string, relation: string, after: string, size: int,
                page: seq<string>, next: string, rest: seq<seq<string>>)
    requires form.subjectsPage(objectType, id, relation, after, size) == Ok((page, next)) && next != ""
    ensures Walks(form, objectType, id, relation, after, size, [page] + rest) <==>
            Walks(form, objectType, id, relation, next, size, rest)
  {
    var pages := [page] + rest;
    if Walks(form, objectType, id, relation, next, size, rest) {
      var cursors :| WalksBy(form, objectType, id, relation, next, size, rest, cursors);
      var more := [after] + cursors;
      assert forall i :: 0 < i < |pages| ==> more[i] == cursors[i - 1] && pages[i] == rest[i - 1];
      assert WalksBy(form, objectType, id, relation, after, size, pages, more);
    }
    if Walks(form, objectType, id, relation, after, size, pages) {
      var cursors :| WalksBy(form, objectType, id, relation, after, size, pages, cursors);
      assert pages[0] == page && cursors[1] == next && rest != [];
      assert forall i :: 0 <= i < |rest| ==> cursors[1..][i] == cursors[i + 1] && rest[i] == pages[i + 1];
      assert WalksBy(form, objectType, id, relation, next, size, rest, cursors[1..]);
    }
  }

  lemma WalksFirst(form: Form, objectType: string, id: string, relation: string, after: string, size: int,
                   pages: seq<seq<string>>)
    requires Walks(form, objectType, id, relation, after, size, pages)
    ensures form.subjectsPage(objectType, id, relation, after, size).Ok?
    ensures var (page, next) := form.subjectsPage(objectType, id, relation, after, size).value;
            pages[0] == page && (next == "" <==> |pages| == 1)
  {
    var cursors :| WalksBy(form, objectType, id, relation, after, size, pages, cursors);
    assert form.subjectsPage(objectType, id, relation, cursors[0], size) == Ok((pages[0], cursors[1]));
  }

  /** The source's pages are those a walk by its cursors gives, if that walk ends within n pages; else an error. */
  lemma {:induction false} SourcePagesExactly(form: Form, objectType: string, id: string, relation: string,
                                              after: string, size: int, n: nat, pages: seq<seq<string>>)
    ensures SourcePages(form, objectType, id, relation, after, size, n) == Ok(pages) <==>
            |pages| <= n && Walks(form, objectType, id, relation, after, size, pages)
    decreases n
  {
    var fetched := form.subjectsPage(objectType, id, relation, after, size);
    if Walks(form, objectType, id, relation, after, size, pages) {
      WalksFirst(form, objectType, id, relation, after, size, pages);
    }
    if n > 0 && fetched.Ok? && fetched.value.1 == "" {
      var (page, next) := fetched.value;
      assert |pages| == 1 && pages[0] == page ==> pages == [page];
      assert WalksBy(form, objectType, id, relation, after, size, [page], [after, ""]);
    } else if n > 0 && fetched.Ok? {
      var (page, next) := fetched.value;
      var rest := if pages == [] then [] else pages[1..];
      SourcePagesExactly(form, objectType, id, relation, next, size, n - 1, rest);
      WalksOn(form, objectType, id, relation, after, size, page, next, rest);
      assert pages != [] && pages[0] == page ==> pages == [page] + rest;
      var ahead := SourcePages(form, objectType, id, relation, next, size, n - 1);
      assert ahead.Ok? ==> ([page] + ahead.value)[1..] == ahead.value;
    }
  }

  type Pages = Result<seq<seq<string>>, DoorError>

  /**
    A walk over the door's pages against the same walk over the source's: it ends exactly when the
    source's does and every page can be read for admission, and then it has named exactly the
    admitted holders the source named, in the source's order.
  */
  ghost predicate Agree(form: Form, people: People, listed: Pages, source: Pages) {
    && (listed.Ok? <==> source.Ok? && AllReadable(form, source.value))
    && (listed.Ok? ==> |listed.value| == |source.value|)
    && (listed.Ok? ==> Join(listed.value) == AdmittedOf(people, Join(source.value)))
  }

  /** One page in front of two walks that agree. */
  lemma AgreeOneMore(form: Form, people: People, page: seq<string>, listed: Pages, source: Pages)
    requires Reads(form.marks, people) && Agree(form, people, listed, source)
    ensures Agree(form, people,
                  match HoldersAnswer(form, page)
                  case Err(e) => Err(e)
                  case Ok(out) => After([out], listed),
                  After([page], source))
  {
    if source.Ok? {
      PageInFront(form, people, page, source.value);
      if listed.Ok? && HoldersAnswer(form, page).Ok? {
        HoldersAreAdmitted(form, people, page);
        assert ([AdmittedOf(people, page)] + listed.value)[1..] == listed.value;
      }
    }
  }

  /** The walks agree on an only page. */
  lemma AgreeOnOne(form: Form, people: People, page: seq<string>)
    requires Reads(form.marks, people)
    ensures Agree(form, people,
                  match HoldersAnswer(form, page)
                  case Err(e) => Err(e)
                  case Ok(out) => Ok([out]),
                  Ok([page]))
  {
    AgreeOneMore(form, people, page, Ok([]), Ok([]));
    assert forall p: seq<string> :: [p] + [] == [p];
  }

  /** Walking the door by its cursor walks the source by the same cursors. */
  lemma {:induction false} WalkNamesAdmittedHolders(form: Form, people: People, objectType: string, id: string,
                                                    relation: string, after: string, size: int, n: nat)
    requires Reads(form.marks, people)
    ensures Agree(form, people, ListedPages(Some(form), objectType, id, relation, after, size, n),
                  SourcePages(form, objectType, id, relation, after, size, n))
    decreases n
  {
    if n > 0 && form.subjectsPage(objectType, id, relation, after, size).Ok? {
      var (subjects, next) := form.subjectsPage(objectType, id, relation, after, size).value;
      if next == "" {
        AgreeOnOne(form, people, subjects);
      } else {
        WalkNamesAdmittedHolders(form, people, objectType, id, relation, next, size, n - 1);
        AgreeOneMore(form, people, subjects,
                     ListedPages(Some(form), objectType, id, relation, next, size, n - 1),
                     SourcePages(form, objectType, id, relation, next, size, n - 1));
      }
    }
  }

  lemma PageInFront(form: Form, people: People, page: seq<string>, rest: seq<seq<string>>)
    ensures AllReadable(form, [page] + rest) <==> HoldersAnswer(form, page).Ok? && AllReadable(form, rest)
    ensures AdmittedOf(people, Join([page] + rest)) == AdmittedOf(people, page) + AdmittedOf(people, Join(rest))
  {
    assert ([page] + rest)[1..] == rest;
    AdmittedOfJoin(people, page, Join(rest));
  }

  // ---------------------------------------------------------------------------------------
  // Every holder at once
  // ---------------------------------------------------------------------------------------

  /** No type asked for means any; otherwise the subject must be an object of one of them. */
  predicate Wanted(types: set<string>, subject: string) {
    types == {} || (Parse(subject).Some? && Parse(subject).value.objectType in types)
  }

  function OfTypes(types: set<string>, subjects: seq<string>): seq<string> {
    if subjects == [] then []
    else
      var n := |subjects| - 1;
      OfTypes(types, subjects[..n]) + if Wanted(types, subjects[n]) then [subjects[n]] else []
  }

  /** The admitted part of a page, nothing of one that cannot be read. */
  function ReadPage(form: Form, page: seq<string>): seq<string> {
    match HoldersAnswer(form, page)
    case Err(_) => []
    case Ok(holders) => holders
  }

  /** The narrowed pages joined. */
  ghost function Narrowed(form: Form, types: set<string>, pages: seq<seq<string>>): seq<string> {
    if pages == [] then [] else OfTypes(types, ReadPage(form, pages[0])) + Narrowed(form, types, pages[1..])
  }

  method SelectTypes(types: set<string>, subjects: seq<string>) returns (out: seq<string>)
    ensures out == OfTypes(types, subjects)
  {
    out := [];
    for i := 0 to |subjects|
      invariant out == OfTypes(types, subjects[..i])
    {
      assert subjects[..i + 1][..i] == subjects[..i];
      if |types| > 0 {
        var ref := Parse(subjects[i]);
        if ref.None? || ref.value.objectType !in types {
          continue;
        }
      }
      out := out + [subjects[i]];
    }
    assert subjects[..|subjects|] == subjects;
  }

  type Holders = Result<seq<string>, DoorError>

  /** Every page of the source, narrowed and joined, if they end within the limit and can all be read. */
  ghost predicate AllOrNothing(form: Form, types: set<string>, pages: Pages, r: Holders) {
    && (r.Ok? <==> pages.Ok? && AllReadable(form, pages.value))
    && (r.Ok? ==> r.value == Narrowed(form, types, pages.value))
  }

  /** An answer about the rest, with these holders in front. */
  function InFront(out: seq<string>, rest: Holders): Holders {
    match rest
    case Err(e) => Err(e)
    case Ok(more) => Ok(out + more)
  }

  /** One page, narrowed. */
  function NarrowedPage(form: Form, types: set<string>, page: seq<string>): Holders {
    match HoldersAnswer(form, page)
    case Err(e) => Err(e)
    case Ok(holders) => Ok(OfTypes(types, holders))
  }

  /** The page at a cursor, narrowed, and the next cursor. */
  function PageAt(form: Form, objectType: string, id: string, relation: string, types: set<string>, after: string)
    : Result<(seq<string>, string), DoorError>
  {
    match form.subjectsPage(objectType, id, relation, after, 0)
    case Err(e) => Err(FormFailed(e))
    case Ok((subjects, next)) =>
      match NarrowedPage(form, types, subjects)
      case Err(e) => Err(e)
      case Ok(out) => Ok((out, next))
  }

  /** What the walk from a cursor on comes to, with n pages allowed. */
  function WalkFrom(form: Form, objectType: string, id: string, relation: string, types: set<string>, after: string,
                    n: nat): Holders
    decreases n
  {
    if n == 0 then Err(TooManyPages)
    else
      match PageAt(form, objectType, id, relation, types, after)
      case Err(e) => Err(e)
      case Ok((out, next)) =>
        if next == "" then Ok(out) else InFront(out, WalkFrom(form, objectType, id, relation, types, next, n - 1))
  }

  /** One page in front of a walk that is all or nothing. */
  lemma AllOrNothingOneMore(form: Form, types: set<string>, page: seq<string>, pages: Pages, rest: Holders)
    requires AllOrNothing(form, types, pages, rest)
    ensures AllOrNothing(form, types, After([page], pages),
                         match NarrowedPage(form, types, page)
                         case Err(e) => Err(e)
                         case Ok(out) => InFront(out, rest))
  {
    if pages.Ok? {
      assert ([page] + pages.value)[1..] == pages.value;
    }
  }

  lemma {:induction false} WalkIsAllOrNothing(form: Form, objectType: string, id: string, relation: string,
                                              types: set<string>, after: string, n: nat)
    ensures AllOrNothing(form, types, SourcePages(form, objectType, id, relation, after, 0, n),
                         WalkFrom(form, objectType, id, relation, types, after, n))
    decreases n
  {
    if n > 0 && form.subjectsPage(objectType, id, relation, after, 0).Ok? {
      var (subjects, next) := form.subjectsPage(objectType, id, relation, after, 0).value;
      if next == "" {
        AllOrNothingOneMore(form, types, subjects, Ok([]), Ok([]));
        assert [subjects] + [] == [subjects];
      } else {
        WalkIsAllOrNothing(form, objectType, id, relation, types, next, n - 1);
        AllOrNothingOneMore(form, types, subjects, SourcePages(form, objectType, id, relation, next, 0, n - 1),
                            WalkFrom(form, objectType, id, relation, types, next, n - 1));
      }
    }
  }

  lemma InFrontTwice(a: seq<string>, b: seq<string>, rest: Holders)
    ensures InFront(a, InFront(b, rest)) == InFront(a + b, rest)
  {
    if rest.Ok? {
      assert a + (b + rest.value) == a + b + rest.value;
    }
  }

  method FetchPage(form: Form, objectType: string, id: string, relation: string, types: set<string>, after: string)
    returns (r: Result<(seq<string>, string), DoorError>)
    ensures r == PageAt(form, objectType, id, relation, types, after)
  {
    var fetched := form.subjectsPage(objectType, id, relation, after, 0);
    if fetched.Err? {
      return Err(FormFailed(fetched.error));
    }
    var (subjects, next) := fetched.value;
    var selected := NarrowPage(form, types, subjects);
    r := if selected.Err? then Err(selected.error) else Ok((selected.value, next));
  }

  /** One page further: what is gathered so far, before what is still to come. */
  lemma WalkOn(form: Form, objectType: string, id: string, relation: string, types: set<string>, after: string,
               n: nat, gathered: seq<string>)
    requires n > 0
    ensures var page := PageAt(form, objectType, id, relation, types, after);
            InFront(gathered, WalkFrom(form, objectType, id, relation, types, after, n)) ==
            if page.Err? then Err(page.error)
            else if page.value.1 == "" then Ok(gathered + page.value.0)
            else InFront(gathered + page.value.0,
                         WalkFrom(form, objectType, id, relation, types, page.value.1, n - 1))
  {
    var page := PageAt(form, objectType, id, relation, types, after);
    if page.Ok? && page.value.1 != "" {
      InFrontTwice(gathered, page.value.0, WalkFrom(form, objectType, id, relation, types, page.value.1, n - 1));
    }
  }

  /** The next page of a walk: `whole` is what the walk comes to, `gathered` what it has so far. */
  method NextPage(form: Form, objectType: string, id: string, relation: string, types: set<string>, after: string,
                  ghost n: nat, ghost gathered: seq<string>, ghost whole: Holders)
    returns (r: Result<(seq<string>, string), DoorError>)
    requires n > 0 && whole == InFront(gathered, WalkFrom(form, objectType, id, relation, types, after, n))
    ensures r.Err? ==> whole == Err(r.error)
    ensures r.Ok? && r.value.1 == "" ==> whole == Ok(gathered + r.value.0)
    ensures r.Ok? && r.value.1 != "" ==>
              whole == InFront(gathered + r.value.0,
                               WalkFrom(form, objectType, id, relation, types, r.value.1, n - 1))
  {
    r := FetchPage(form, objectType, id, relation, types, after);
    WalkOn(form, objectType, id, relation, types, after, n, gathered);
  }

  method WalkPages(form: Form, objectType: string, id: string, relation: string, types: set<string>, maxPages: nat)
    returns (r: Holders)
    ensures r == WalkFrom(form, objectType, id, relation, types, "", maxPages)
  {
    var out, after := [], "";
    ghost var whole := WalkFrom(form, objectType, id, relation, types, "", maxPages);
    NothingInFront(whole);
    for page := 0 to maxPages
      invariant whole == InFront(out, WalkFrom(form, objectType, id, relation, types, after, maxPages - page))
    {
      var next := NextPage(form, objectType, id, relation, types, after, maxPages - page, out, whole);
      if next.Err? {
        return Err(next.error);
      }
      out := out + next.value.0;
      if next.value.1 == "" {
        return Ok(out);
      }
      after := next.value.1;
    }
    r := Err(TooManyPages);
  }

  lemma NothingInFront(rest: Holders)
    ensures InFront([], rest) == rest
  {
    if rest.Ok? {
      assert [] + rest.value == rest.value;
    }
  }

  method WalkHolders(form: Form, objectType: string, id: string, relation: string, types: set<string>, maxPages: nat)
    returns (r: Holders)
    ensures AllOrNothing(form, types, SourcePages(form, objectType, id, relation, "", 0, maxPages), r)
  {
    r := WalkPages(form, objectType, id, relation, types, maxPages);
    WalkIsAllOrNothing(form, objectType, id, relation, types, "", maxPages);
  }

  /**
    Every holder of a relation on an object. All or nothing: the answer is the narrowing of
    all the source's pages, and a source that does not end within the page limit, fails, or
    cannot be read for admission yields an error.
  */
  method ListUsers(client: Option<Form>, objectType: string, id: string, relation: string, userTypes: seq<string>)
    returns (r: Result<seq<string>, DoorError>)
    ensures client.None? ==> r == Err(FormNotWired)
    ensures client.Some? ==>
              (r.Ok? <==> exists pages :: |pages| <= 64 && AllReadable(client.value, pages) &&
                                          Walks(client.value, objectType, id, relation, "", 0, pages))
    ensures client.Some? && r.Ok? ==>
              forall pages, people | Walks(client.value, objectType, id, relation, "", 0, pages) && |pages| <= 64 &&
                                     Reads(client.value.marks, people) ::
                ListsChosen(people, (set t | t in userTypes), pages, r.value)
  {
    if client.None? {
      return Err(FormNotWired);
    }
    var types := set t | t in userTypes;
    r := WalkHolders(client.value, objectType, id, relation, types, MAX_PAGES);
    forall pages ensures SourcePages(client.value, objectType, id, relation, "", 0, MAX_PAGES) == Ok(pages) <==>
                         |pages| <= MAX_PAGES && Walks(client.value, objectType, id, relation, "", 0, pages) {
      SourcePagesExactly(client.value, objectType, id, relation, "", 0, MAX_PAGES, pages);
    }
    if r.Ok? {
      var pages := SourcePages(client.value, objectType, id, relation, "", 0, MAX_PAGES).value;
      forall people | Reads(client.value.marks, people) ensures ListsChosen(people, types, pages, r.value) {
        NarrowedListsChosen(client.value, people, types, pages);
      }
    }
  }

  /** One page of the source, admitted and of the wanted types. */
  method NarrowPage(form: Form, types: set<string>, subjects: seq<string>) returns (r: Holders)
    ensures r == NarrowedPage(form, types, subjects)
  {
    var holders := AdmittedHolders(form, subjects);
    if holders.Err? {
      return Err(holders.error);
    }
    var selected := SelectTypes(types, holders.value);
    r := Ok(selected);
  }

  ghost function After(walked: seq<seq<string>>, rest: Pages): Pages {
    match rest
    case Err(e) => Err(e)
    case Ok(pages) => Ok(walked + pages)
  }

  /** The wanted, admitted members of a list, in order. */
  ghost function Entitled(people: People, types: set<string>, subjects: seq<string>): seq<string> {
    OfTypes(types, AdmittedOf(people, subjects))
  }

  lemma {:induction false} OfTypesJoin(types: set<string>, a: seq<string>, b: seq<string>)
    ensures OfTypes(types, a + b) == OfTypes(types, a) + OfTypes(types, b)
    decreases |b|
  {
    if b == [] {
      assert a + b == a;
    } else {
      assert (a + b)[..|a + b| - 1] == a + b[..|b| - 1];
      OfTypesJoin(types, a, b[..|b| - 1]);
    }
  }

  lemma EntitledJoin(people: People, types: set<string>, a: seq<string>, b: seq<string>)
    ensures Entitled(people, types, a + b) == Entitled(people, types, a) + Entitled(people, types, b)
  {
    AdmittedOfJoin(people, a, b);
    OfTypesJoin(types, AdmittedOf(people, a), AdmittedOf(people, b));
  }

  /** The holder names no unverified person and is of a type asked for, if any is. */
  ghost predicate Chosen(people: People, types: set<string>, subject: string) {
    !Struck(people, subject) && (types == {} || exists t, id :: t in types && IsObject(subject, t, id))
  }

  ghost function ChosenAt(people: People, types: set<string>, all: seq<string>): nat -> bool {
    (i: nat) => i < |all| && Chosen(people, types, all[i])
  }

  lemma OneEntitled(people: People, types: set<string>, subject: string)
    ensures Entitled(people, types, [subject]) == if Chosen(people, types, subject) then [subject] else []
  {
    PassesExactly(people, subject);
    forall t, id ensures IsObject(subject, t, id) <==> Parse(subject) == Some(Ref(t, id)) {
      ParseExactly(subject, Ref(t, id));
    }
    assert [subject][..0] == [];
    assert AdmittedOf(people, [subject]) == if Passes(people, subject) then [subject] else [];
    assert OfTypes(types, [subject]) == if Wanted(types, subject) then [subject] else [];
  }

  ghost function EntitledPasses(people: People, types: set<string>, all: seq<string>): (outs: seq<seq<string>>)
    ensures |outs| == |all| + 1
    ensures forall i :: 0 <= i <= |all| ==> outs[i] == Entitled(people, types, all[..i])
  {
    seq(|all| + 1, i requires 0 <= i <= |all| => Entitled(people, types, all[..i]))
  }

  lemma EntitledStep(people: People, types: set<string>, all: seq<string>, i: nat)
    requires i < |all|
    ensures Entitled(people, types, all[..i + 1]) ==
            if Chosen(people, types, all[i]) then Entitled(people, types, all[..i]) + [all[i]]
            else Entitled(people, types, all[..i])
  {
    assert all[..i + 1] == all[..i] + [all[i]];
    EntitledJoin(people, types, all[..i], [all[i]]);
    OneEntitled(people, types, all[i]);
  }

  lemma EntitledPicks(people: People, types: set<string>, all: seq<string>)
    ensures Picks(Entitled(people, types, all), all, ChosenAt(people, types, all))
  {
    var outs, kept := EntitledPasses(people, types, all), ChosenAt(people, types, all);
    forall i: nat | i < |all| ensures AppendsAt(outs, all, kept, i) {
      EntitledStep(people, types, all, i);
    }
    WholePassPicks(outs, all, kept);
    assert all[..|all|] == all;
  }

  /** The list is, of everything the walked pages hold, the chosen holders, all of them and in order. */
  ghost predicate ListsChosen(people: People, types: set<string>, pages: seq<seq<string>>, out: seq<string>) {
    Picks(out, Join(pages), ChosenAt(people, types, Join(pages)))
  }

  lemma NarrowedListsChosen(form: Form, people: People, types: set<string>, pages: seq<seq<string>>)
    requires Reads(form.marks, people) && AllReadable(form, pages)
    ensures ListsChosen(people, types, pages, Narrowed(form, types, pages))
  {
    var all := Join(pages);
    NarrowedIsEntitled(form, people, types, pages);
    EntitledPicks(people, types, all);
  }

  /** Who is on the list: exactly the chosen holders of the walked pages. */
  lemma ListedExactly(people: People, types: set<string>, pages: seq<seq<string>>, out: seq<string>, subject: string)
    requires ListsChosen(people, types, pages, out)
    ensures subject in out <==> subject in Join(pages) && Chosen(people, types, subject)
  {
    PickedExactly(out, Join(pages), ChosenAt(people, types, Join(pages)), subject);
  }

  lemma PageIsEntitled(form: Form, people: People, types: set<string>, page: seq<string>)
    requires Reads(form.marks, people) && HoldersAnswer(form, page).Ok?
    ensures OfTypes(types, ReadPage(form, page)) == Entitled(people, types, page)
  {
    HoldersAreAdmitted(form, people, page);
  }

  /** The full list is the entitled part of everything the source holds, in the source's order. */
  lemma {:induction false} NarrowedIsEntitled(form: Form, people: People, types: set<string>, pages: seq<seq<string>>)
    requires Reads(form.marks, people) && AllReadable(form, pages)
    ensures Narrowed(form, types, pages) == Entitled(people, types, Join(pages))
    decreases |pages|
  {
    if pages != [] {
      NarrowedIsEntitled(form, people, types, pages[1..]);
      PageIsEntitled(form, people, types, pages[0]);
      EntitledJoin(people, types, pages[0], Join(pages[1..]));
    }
  }
}
