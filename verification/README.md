# Access decisions, test census and process guards: a Dafny model

This project models the decision-heavy parts of an identity and access service and proves what
they promise over every input, every interleaving or every run.

- **Page visibility** (`WorkerPool`, `Visibility`, `HeldOn`, `OverTheDoor`, `ObjectRef`,
  `Selection`). A page of rows is
  filtered by asking a relation store. A feeder hands tasks to a bounded set of workers; the first
  failure cancels the pool; the caller's context may expire at any moment. The pool is a step
  system, so a statement about every run is a statement about every interleaving. The per-object
  page and the batched page are methods over that pool, and both are proved against one
  definition of what a page is and which questions it costs.
- **Decision door and admission** (`DecisionDoor`, `Admission`). Verdicts, batches of verdicts and
  lists of holders, all behind the predicate that a person without a verified address is admitted
  to nothing.
- **Test-run census** (`History`, `TestEvents`, `Census`, `CensusFacts`, `WrittenCensus`,
  `RunVerdict`). A single
  pass over a Go test stream, the verdict computed from it, the producer of the manifest and its
  validator.
- **Process shutdown** (`StartupTask`, `RootShutdown`). Tasks, two causes of shutdown, a once-only
  teardown, and the classifier that decides which startup error is an orderly cancellation.
- **Assurance levels** (`Assurance`), **migration rollback guards** (`MigrationGuards`), **caller
  policy** (`CallerPolicy`), **address gate** (`AddressGate`) and **audience resolution**
  (`Audience`).

How the outside world appears:

- The batched store is any verdict per (relation, object) together with any relation telling which
  replies it may give to a batch; it may refuse at will and may answer with the wrong number of
  verdicts. A reliable store comes back with something, and what it says at the right length is its
  verdict. The single-object store answers truly or refuses. Any call may be broken off once its
  context is done, never before. Scheduling and the expiry of the caller's context are
  nondeterministic.
- A task of the per-object pool is one call of `Visible`. Its result is stored in a step separate from
  recording an error, which allows more interleavings than the lock in the source does.
- Over the decision door the store is the door: a batch comes back with the door's own answer.
- The relational form behind the door and the reader of address marks are deterministic functions
  that may fail. `Coherent` says that a batched answer with one verdict per object reads the same rows
  as the single answers; that it has one verdict per object is not assumed of the form, since the
  door passes its answer through and the page questions check the length (`Aligned` names the
  assumption where it is used). `Reads` says that a marks reader which answers does so from the rows
  of people.
- A listener of the shutdown model is any task that one teardown action stops: the two servers, the
  HTTP surfaces, the admission reporter.
- The result map of a page is returned as a set of identifiers.
- The pass of the census is written over records of figures that are replaced event by event.

What turned out false of the code, with the exact condition under which it holds:

- The list form of admission agrees with the single form about a subject, whatever the rows of
  people, if and only if the identifier it names carries no surrounding white space: only the
  single form trims. An unverified person named with a leading space is refused alone and passes in a
  list (`Admission.AgreementNeedsTrimmedIds`, `Admission.UntrimmedSubjectPassesInAList`).
- A manifest that calls itself complete is accepted by the validator if and only if no stop signal
  had arrived by the producer's last look at it; a signal between two looks leaves a manifest that is
  complete and interrupted at once (`RunVerdict.Finish`, `RunVerdict.LateSignalSplitsTheManifest`).
- The lineage guard computes its floor for a plain `down` from the highest applied version, while
  the migration tool takes back the version it regards as current. What can be checked before the
  command: accepted without a recorded origin, it takes a colliding version back if and only if the
  tool's current version is one (`MigrationGuards.PlainRollbackTakesExactly`). Over whole runs, an
  applied colliding version survives if and only if no command went through as a plain rollback of that
  very version (`MigrationGuards.CollisionSurvivesExactly`); one applied late, below a higher version,
  can be taken back (`MigrationGuards.LateCollisionIsRolledBack`).
- With no narrowing, a request that names no audience is answered with the default even when the
  deployment's list lacks it; the answer lies within bounds if and only if the default lies in that
  list (`Audience.StrayDefaultIsIssued`).

## Model

| member | source | states |
|---|---|---|
| `WorkerPool.EveryInterleaving` | internal/authzfilter/visibility.go:470-528 | Every run of feeder, workers, store and parent context keeps the pool's invariant, is bounded in length, is never stuck before its end, never has more than `width` tasks with the store, and ends with a failure some task came to, or cut short by expiry, or with every task carried out exactly once and every slot holding the store's verdict |
| `WorkerPool.NeverStuck` | internal/authzfilter/visibility.go:328-373 | In every reachable unfinished state some step other than expiry is enabled: a feeder left without a receiver can take the cancel branch |
| `WorkerPool.StepShrinks` | internal/authzfilter/visibility.go:470-524 | Every step lowers a measure over tasks left, tasks in flight, live workers and the context |
| `WorkerPool.StepKeeps` | internal/authzfilter/visibility.go:470-524 | Every step keeps the invariant: hands are disjoint, each handed-over task is held, stored or the pool is cancelled, each task is carried out at most once with a reply it may come to, the recorded error is one a task came to, the context is reported only when the parent's expired, and a true slot is truly allowed |
| `WorkerPool.SlotsHaveOneWriter` | internal/authzfilter/visibility.go:465-508 | A slot changes only under the worker carrying the partition that covers it, and no other worker carries or can write it |
| `WorkerPool.AtTheEnd` | internal/authzfilter/visibility.go:375-384 | A finished pool has an error exactly when some call failed or came back misaligned; without error and expiry all slots are true and all tasks were asked once |
| `WorkerPool.RunPool` | internal/authzfilter/visibility.go:470-528 | Under any schedule the pool ends settled: exact slots or an error or expiry, at most `width` tasks with the store at any time, and a done context stays done |
| `Visibility.Split` | internal/authzfilter/visibility.go:452-463 | The partitions are ceil(n/50) consecutive cuts of the ids, full except the last |
| `Visibility.RoundAsksOnce` | internal/authzfilter/visibility.go:445-524 | What the carried-out tasks of a round really asked, each partition once and in any order, is its relation about every id exactly once, in ceil(n/50) requests |
| `Visibility.Collect` | internal/authzfilter/visibility.go:530-538 | From true slots: allowed ids join the result, the denied ones come back in input order; from any slots of a cut-short round nothing unallowed joins |
| `Visibility.DeniedSound` | internal/authzfilter/visibility.go:530-538 | The denied list holds exactly the ids the relation refuses |
| `Visibility.DeniedPicks` | internal/authzfilter/visibility.go:530-538 | The denied list is the refused ids of the page, all of them and in its order |
| `Visibility.RequestsExactly` | internal/authzfilter/visibility.go:452-463 | As many requests as it takes at fifty objects each, and no more |
| `Visibility.BatchRelationRound` | internal/authzfilter/visibility.go:445-539 | For every reliable store: error exactly when a call failed or was misaligned, and then the result is untouched; otherwise without expiry the denied list, the granted set, the questions asked and the number of requests are exact and every id's object was decided by an answered batch; every request names one to fifty objects of the type, its reply is the store's own or a broken-off call, and at most 8 are open at once |
| `Visibility.VisibleSetBatched` | internal/authzfilter/visibility.go:415-440 | For every reliable store: Ok exactly when no call failed and the context is not done; then exactly the ids some relation allows, with exactly the page's questions, requests and decided objects; at most 8 requests open at once |
| `Visibility.VisibleSetPerObject` | internal/authzfilter/visibility.go:325-385 | The pool whose tasks call Visible gives the same answer as the batched form, and the questions those calls really asked are the page's questions; at most 16 calls open at once |
| `Visibility.CallVisible` | internal/authzfilter/visibility.go:346-361 | Whatever a worker's call of Visible comes to is a step of the pool |
| `Visibility.RunPage` | internal/authzfilter/visibility.go:328-373 | Under any schedule the pool whose workers call Visible ends settled |
| `Visibility.SinglesAskOnce` | internal/authzfilter/visibility.go:325-385 | When every call of Visible came to a verdict, the questions they asked are exactly the page's questions |
| `Visibility.RelationsExactly` | internal/authzfilter/visibility.go:117-140 | The relations of a type, in order: `viewer` and `v_list` for a role, `v_get` for everything else |
| `Visibility.AllowedIsMayRead` | internal/authzfilter/visibility.go:270-285 | Some relation of the type allows a row iff it may be read by those named relations |
| `Visibility.VisibleSet` | internal/authzfilter/visibility.go:295-385 | For every reliable store and every id list, blanks and repeats included, both forms answer with exactly the non-blank ids the subject may read (a role by `viewer` or `v_list`, anything else by `v_get`) or with an error; they ask each of those questions once and no other (`v_list` only where `viewer` refuses); at most 8 batched or 16 single calls are open; an error is a call's own failure or an expired context; no checker, subject, type or id yields the empty page without a call |
| `Visibility.Deduplicate` | internal/authzfilter/visibility.go:301-316 | Keeps first occurrences of non-blank ids in order |
| `Visibility.PendingSound` | internal/authzfilter/visibility.go:301-316 | What is kept is pairwise different and is exactly the non-blank ids of the page |
| `Visibility.PendingPicks` | internal/authzfilter/visibility.go:301-316 | What is kept of a page are the first occurrences of its non-blank ids, in its order |
| `Visibility.AskInTurn` | internal/authzfilter/visibility.go:275-284 | The loop asks the next relation each time and stops at the first allowing verdict, the first failure or the last denial |
| `Visibility.AsksSound` | internal/authzfilter/visibility.go:275-284 | However such an asking went, it put a prefix of the page rule's questions, all of them if it came to a verdict, and the verdict is whether some relation allows |
| `Visibility.Visible` | internal/authzfilter/visibility.go:270-285 | Missing parts give a denial without a question; otherwise an answer is whether the row may be read by the named relations of its type, its questions are those of the page rule, a failure stops at a prefix of them, and the context is reported only if it is done |
| `Visibility.SameQuestions` | internal/authzfilter/visibility.go:415-463 | Asking object by object and asking relation by relation over what is left pose the same questions equally often |
| `Visibility.AskedAtMostOnce` | internal/authzfilter/visibility.go:415-440 | A question is posed once if no earlier relation allows its object, else never |
| `Visibility.PageAsksOnce` | internal/authzfilter/visibility.go:295-323 | However a page repeats or blanks its ids, each of its questions is posed at most once, and exactly the open ones are |
| `Visibility.PageAsksExactly` | internal/authzfilter/visibility.go:295-323 | A page asks exactly its questions by name, once each: the second relation of a role only where the first refuses |
| `Visibility.PageRequestsExactly` | internal/authzfilter/visibility.go:415-463 | A page costs one count of requests for its ids, and for roles another for those `viewer` refuses |
| `ObjectRef.ParseThenName` | internal/authzcascade/authzcascade.go:64-70 | Splitting at the first colon and rejoining gives the name back; both parts are non-empty and the type has no colon |
| `ObjectRef.NameThenParse` | internal/authzcascade/authzcascade.go:64-70 | A joined name splits into its parts if and only if the type is non-empty without colon and the id is non-empty |
| `ObjectRef.ParseExactly` | internal/authzcascade/authzcascade.go:64-70 | A name splits into a type and an id iff it is that type, a colon and that id; it splits into none iff it is made of none |
| `ObjectRef.CutAgreesWithParse` | internal/authzfilter/held_on.go:47-57 | The split by cutting and the split by index accept the same names and give the same parts |
| `HeldOn.GroupByType` | internal/authzfilter/held_on.go:45-62 | Every well-formed name is filed once under its type, nothing else is |
| `HeldOn.AskTypes` | internal/authzfilter/held_on.go:64-72 | Types are asked in name order, each once; error exactly when a call failed; otherwise without expiry exactly the held objects, each of them decided by an answered batch |
| `Text.PrecedesExactly` | internal/authzfilter/held_on.go:58-62 | The order of types is dictionary order: a prefix first, otherwise the first difference decides |
| `HeldOn.HeldOn` | internal/authzfilter/held_on.go:39-79 | For every reliable store: Ok exactly when no call failed and the context is not done, and then exactly the well-formed objects the relation is held on, every one decided by an answered batch; every request is single-typed, well-formed and at most fifty long, at most 8 open at once |
| `OverTheDoor.DoorIsHonest` | internal/authzcascade/own_gates.go:207-243 | A batch the door answers with one verdict per object says of each what a single check says, and no single check of them fails |
| `OverTheDoor.DoorIsReliable` | internal/authzcascade/own_gates.go:169-243 | The door is a reliable store for the page questions: its replies are never untrue at the right length |
| `OverTheDoor.StoreAnswersAsDoor` | internal/authzcascade/own_gates.go:207-243 | What the page questions get back is the door's own answer about those objects, and it fails iff that is an error or not one verdict each |
| `OverTheDoor.DecidedMeansChecked` | internal/authzcascade/own_gates.go:169-243 | An object decided by an answered batch is one whose single check does not fail |
| `OverTheDoor.DoorAcceptsGoodBatches` | internal/authzcascade/own_gates.go:218-232 | No request of HeldOn can meet the door's parse or mixed-type refusal |
| `OverTheDoor.HeldOnDoor` | internal/authzfilter/held_on.go:39-79 | Asking the door itself: every call is a single-typed batch that came back with the door's own answer or was broken off; there is an answer iff the context is not done and the door turned no batch down, never for its parse or mixed-type reasons; the answer is exactly the well-formed objects a separate check allows, and none of their checks fails |
| `OverTheDoor.VisibleSetDoor` | internal/authzfilter/visibility.go:295-440 | A page over the door is answered iff the context is not done and the door turned no batch down; the answer is exactly the rows a separate check allows by the named relations of their type, no check the page asked for failed, and at most 8 requests were open at once |
| `OverTheDoor.ShapeRefusalExactly` | internal/authzcascade/own_gates.go:207-232 | A wired door refuses a batch of a page for the shape of its names iff the type starts with a colon |
| `Admission.SubjectIDExactly` | internal/admission/admission.go:111-124 | A subject names an id iff it is a type other than the system class, a colon, and that non-empty id free of `#` and `*` |
| `Admission.SubjectExactly` | internal/admission/admission.go:86-133 | A subject alone is an error iff it names a non-blank id whose marks cannot be read, refused iff it names an unverified person, and admitted otherwise |
| `Text.TrimExactly` | internal/admission/admission.go:86-90 | Trimming takes away the white space at both ends, all of it and nothing else |
| `Admission.Subjects` | internal/admission/admission.go:137-164 | One verdict per subject in order, or one error for all, as the list rule says |
| `Admission.AdmitAllExactly` | internal/admission/admission.go:137-164 | A list is an error iff somebody is named and the one question fails; a subject of it is refused iff it names an unverified person letter for letter |
| `Admission.AdmitAllIsAdmission` | internal/admission/admission.go:137-164 | An answer about a list is the admission predicate over the rows of people, position by position |
| `Admission.ManyAgreesWithOne` | internal/admission/admission.go:86-164 | List and single form agree about every subject whose id is trimmed |
| `Admission.AgreementNeedsTrimmedIds` | internal/admission/admission.go:86-164 | The two forms agree for all rows of people if and only if the id is trimmed |
| `Admission.UntrimmedSubjectIsAdmittedAlone` | internal/admission/admission.go:86-133 | A row keyed with a leading space is missed by the single form and found by the list form |
| `Admission.UntrimmedSubjectPassesInAList` | internal/admission/admission.go:86-164 | A concrete unverified person, named with a leading space, is refused alone and passes in a list |
| `DecisionDoor.CheckExactly` | internal/authzcascade/own_gates.go:169-186 | Over the form and the rows of people: allowed iff wired, the name is an object, the subject is admitted, and the form allows this subject this relation on this object; an error iff unwired, no object, marks unreadable, or the form fails on an admitted subject |
| `DecisionDoor.CheckErrsBecause` | internal/authzcascade/own_gates.go:169-186 | Which error it is: the first of those reasons, in order, with the form's own reason |
| `DecisionDoor.BatchCheck` | internal/authzcascade/own_gates.go:207-243 | The loop with its early returns answers as the batch rule says; unwired is an error, empty is empty |
| `DecisionDoor.BatchExactly` | internal/authzcascade/own_gates.go:207-243 | Answered iff wired, the names are objects of one type, marks readable, and the subject barred or the form answers about this subject, relation and these ids; a barred subject is denied on each, anybody else gets the form's own answer |
| `DecisionDoor.FirstOffender` | internal/authzcascade/own_gates.go:218-232 | A batch that is not split is refused for its first offender, as no object or as of another type than the first |
| `DecisionDoor.ParseBatchExact` | internal/authzcascade/own_gates.go:218-232 | A batch is split if and only if all its names are objects of one type |
| `DecisionDoor.ParsedNameByName` | internal/authzcascade/own_gates.go:218-232 | The split batch lists the ids position by position under the shared type |
| `DecisionDoor.BatchAgreesWithCheck` | internal/authzcascade/own_gates.go:169-243 | Every verdict of a batch answered at the right length equals the single check of that object; the length is right if the form's own answers are |
| `DecisionDoor.AllowedMeansAdmitted` | internal/authzcascade/own_gates.go:169-243 | An allowed verdict, alone or in a batch, means the marks of the subject were read and do not call it an unverified person |
| `DecisionDoor.AdmittedHolders` | internal/authzcascade/own_gates.go:270-282 | The loop keeps, in order, the subjects the list form admits, or passes its error on |
| `DecisionDoor.HoldersAreAdmitted` | internal/authzcascade/own_gates.go:270-282 | An answered page of holders is the admitted part of the source page, in order |
| `DecisionDoor.HoldersExactly` | internal/authzcascade/own_gates.go:270-282 | An error iff somebody is named and the marks cannot be read; else exactly the holders that name no unverified person, in order |
| `DecisionDoor.ListSubjectsExactly` | internal/authzcascade/own_gates.go:249-266 | A page through the door is the source's page of this object, relation, cursor and size, narrowed, with the source's next cursor |
| `DecisionDoor.WalkNamesAdmittedHolders` | internal/authzcascade/own_gates.go:249-266 | Walking by cursor ends if and only if the source walk ends and every page can be read for admission; then it names exactly the admitted holders of the source, in order |
| `DecisionDoor.WalkHolders` | internal/authzcascade/own_gates.go:303-338 | For any page limit: success if and only if the source ends within it and every page is readable, and then all its pages narrowed and joined, never a prefix |
| `DecisionDoor.WalkIsAllOrNothing` | internal/authzcascade/own_gates.go:303-338 | From any cursor, with any number of pages allowed, the walk is all or nothing |
| `DecisionDoor.SourcePagesExactly` | internal/authzcascade/own_gates.go:303-338 | The source's pages are those a walk from cursor to cursor about this object and relation gives, if it ends within the limit |
| `DecisionDoor.ListUsers` | internal/authzcascade/own_gates.go:292-339 | Answered iff a walk of the source by its cursors ends within 64 pages all readable for admission; the answer is then, of everything those pages hold, the holders that name no unverified person and are objects of a type asked for (any, if none is), all of them and in order; unwired is an error |
| `DecisionDoor.ListedExactly` | internal/authzcascade/own_gates.go:318-329 | Somebody is on the list iff the walked pages hold them, they name no unverified person, and no type is asked for or they are an object of one of them |
| `DecisionDoor.NarrowedIsEntitled` | internal/authzcascade/own_gates.go:292-339 | The list equals the admitted, type-filtered part of the concatenation of the source pages, in order |
| `TestEvents.FromMembers` | scripts/standalone_protocol.py:22-43 | An accepted line repeats no member, and the event is well-formed and told by the members field by field |
| `TestEvents.UniqueMembersExactly` | scripts/standalone_protocol.py:13-19 | The members become a map iff no name repeats, and the map holds exactly the members |
| `TestEvents.AcceptedExactly` | scripts/standalone_protocol.py:13-43 | A line is accepted as an event iff no member repeats and its members tell that well-formed event, field by field |
| `TestEvents.EveryEventArrives` | scripts/standalone_protocol.py:13-43 | Every well-formed event, written out, is accepted as itself |
| `TestEvents.ActionWords` | scripts/standalone_protocol.py:22-43 | The words of the stream for each action |
| `Census.ObserveTest` | scripts/standalone_protocol.py:68-89 | The in-order updates for a test event give the next figures |
| `Census.Observe` | scripts/standalone_protocol.py:53-100 | One event of any kind gives the next figures |
| `Census.Summarize` | scripts/standalone_protocol.py:46-114 | The pass computes the census of the whole stream |
| `CensusFacts.FiguresTold` | scripts/standalone_protocol.py:46-100 | After any stream every figure says what the events said: seen, open, ended how, failed, printed since, blamed build, counts |
| `CensusFacts.PackageStep` | scripts/standalone_protocol.py:65-98 | Whatever the next event, the package figures stay true to the history: seen, open, how last ended, ever failed |
| `CensusFacts.UnterminatedExactly` | scripts/standalone_protocol.py:46-100 | A test is open if and only if an opening (first event or run) has no terminal event at or after it; a package likewise with start |
| `CensusFacts.ExecutionsConserved` | scripts/standalone_protocol.py:76-114 | testExecutions counts the terminal test events, each under exactly one heading; unmet skips are those whose output since the last run or end carries the marker |
| `CensusFacts.RecordsExactly` | scripts/standalone_protocol.py:46-114 | How each package last ended, which packages and tests ever failed, which builds ran and failed, and the build last blamed |
| `WrittenCensus.WriteOut` | scripts/standalone_protocol.py:103-114 | The written census carries the same figures, its sets as sorted lists without repetition |
| `WrittenCensus.WrittenAlikeExactly` | scripts/standalone_protocol.py:149-153 | Two censuses are written alike iff they are the same |
| `CensusFacts.CutMarkerIsSeen` | scripts/standalone_protocol.py:68-89 | A marker split at any point between two output events makes the following skip unmet |
| `CensusFacts.ContainsExactly` | scripts/standalone_protocol.py:85-86 | A text contains a part iff it is something, the part, and something |
| `RunVerdict.CompleteExactly` | scripts/standalone_protocol.py:128-130 | The census is complete if and only if every line was an event, some package ended, nothing is open and no package blames a build never reported failed |
| `RunVerdict.FailuresRecorded` | scripts/standalone_protocol.py:53-114 | A failure of a test, package or build anywhere in the stream is on record at its end |
| `RunVerdict.PassedExactly` | scripts/standalone_protocol.py:133-146 | The outcome is pass iff the helper code is 0 iff the stream is whole, Go returned 0 and no event is a failure; the code is 2 iff the stream is not whole |
| `RunVerdict.MixedExactly` | scripts/standalone_protocol.py:133-140 | On a whole stream the outcome is mixed iff some test failed and some package failed without a failed test of its own; mixed or named iff some test failed |
| `RunVerdict.OutcomeExactly` | scripts/standalone_protocol.py:133-146 | Package failure iff whole, no failed test, and a failed package or build; unknown iff not whole, or Go failed without a failure event; code 1 iff whole and Go or an event failed |
| `RunVerdict.ReadCensus` | scripts/standalone_protocol.py:117-125 | The census of a file counts every line that is no event, and a complete one has none |
| `RunVerdict.Finish` | scripts/standalone-capture.py:86-114 | The manifest is complete exactly under the producer's condition, file errors at any stage included; a complete one is accepted by the validator iff no signal had arrived by the last look, and is then the one manifest true of the stream; an incomplete one is refused with code 2 and, unless a file operation failed, says unknown; an accepted code 0 means a whole stream without failure |
| `RunVerdict.AcceptsExactly` | scripts/standalone_protocol.py:149-165 | Accepted iff the census is that of a whole stream, the manifest is field by field the one true of it and of Go's code, and Go does not claim success over a failure |
| `RunVerdict.AcceptedPassIsClean` | scripts/standalone_protocol.py:149-165 | Any accepted manifest with helper code 0 stands for a whole stream with no failure event and Go code 0 |
| `RunVerdict.AcceptedAsWritten` | scripts/standalone_protocol.py:149-165 | Accepting by comparing the written censuses is accepting by comparing the censuses |
| `RunVerdict.LateSignalSplitsTheManifest` | scripts/standalone-capture.py:102-110 | A concrete run whose manifest is complete, interrupted and refused by the validator |
| `StartupTask.OnlyStartupCancellation` | cmd/kaname/startup_task.go:29-52 | True if and only if every leaf of the error tree is the cancellation, a wrapper around nothing being a leaf |
| `StartupTask.CancellationRules` | cmd/kaname/startup_task.go:29-52 | What is an orderly cancellation, form by form: a wrapper around nothing and an empty join are none |
| `StartupTask.OnlyIsStricterThanMentions` | cmd/kaname/startup_task.go:26-52 | The classifier implies the standard membership test |
| `StartupTask.JoinedFailureIsNotCancellation` | cmd/kaname/startup_task.go:26-28 | A real failure joined to a cancellation passes the membership test and fails the classifier |
| `StartupTask.Supervise` | cmd/kaname/startup_task.go:14-24 | An error is swallowed iff the context was cancelled and every leaf is that cancellation; otherwise it is reported and shutdown is triggered |
| `RootShutdown.StepKeeps` | cmd/kaname/root_shutdown.go:80-101 | Every step of tasks and environment keeps the invariant: one owner of the once, teardown actions a prefix in order, a finished once means all of it and the cancellation |
| `RootShutdown.EveryShutdown` | cmd/kaname/root_shutdown.go:67-101 | In every run teardown happens in order and at most once, leaving rotation first and draining mail last; waiters and failing tasks return only after it and the cancellation; without signal or Stop cancellation follows teardown; runs are bounded; a caused run that has gone quiet is fully down; without a cause nothing is torn down |
| `RootShutdown.TeardownOrder` | cmd/kaname/serve.go:1735-1753 | The six actions, each once: rotation, admission, internal server, public server, surfaces, mail |
| `RootShutdown.QuietMeansDown` | cmd/kaname/serve.go:1735-1802 | After either cause nobody is stuck: when no task can move, teardown is complete and every listener, reporter and waiter has returned, the waiter after draining |
| `RootShutdown.QuietWithoutCause` | cmd/kaname/root_shutdown.go:98-101 | Without a cause no teardown action has happened and no waiter has woken |
| `RootShutdown.CrashIsReported` | cmd/kaname/serve.go:1770-1787 | After a listener crashes, every quiet continuation is fully down and that listener returned its error |
| `RootShutdown.StartupFailureIsReported` | cmd/kaname/startup_task.go:14-24 | After a startup failure every quiet continuation is fully down, and the task has returned that failure iff not (context already cancelled and every leaf the cancellation), else none |
| `Assurance.LevelOf` | internal/assurance/level.go:246-254 | The loop returns the level of the first row that holds |
| `Assurance.FirstIsHighest` | internal/assurance/level.go:221-254 | In a descending table the first row that holds is a highest one |
| `Assurance.LevelIsHighest` | internal/assurance/level.go:221-254 | On the real table the level is that of the highest condition met, and there is one iff some condition is met |
| `Assurance.TableIsRule` | internal/assurance/level.go:192-254 | The level depends only on the set of presentations: 3 for a verified, device-bound key, 2 for a key or a password with a code, 1 for a password or a recovery code, else none |
| `Assurance.OutdoneIsLower` | internal/assurance/level.go:221-254 | Presentations matched method by method by at least as strong ones reach no higher level |
| `Assurance.LevelNeverDrops` | internal/assurance/level.go:240-254 | Adding presentations never lowers the level |
| `Assurance.Assemble` | internal/assurance/level.go:301-307 | The bit loop selects the methods whose bit is set, in order |
| `Assurance.EverySubsetHasAMask` | internal/assurance/level.go:300-307 | Every subset of the methods has a mask in range, a non-empty one a positive mask |
| `Assurance.MasksReachExactly` | internal/assurance/level.go:300-311 | The masks from 1 reach exactly the levels of the non-empty subsets |
| `Assurance.LevelsOver` | internal/assurance/level.go:289-318 | The result is strictly ascending and holds exactly the levels of non-empty choices of the known methods |
| `Assurance.PresentableLevels` | internal/assurance/level.go:263-265 | Exactly the best-case levels, ascending; each is attained by a session, and no session of the wired methods exceeds the top |
| `Assurance.GuaranteedLevels` | internal/assurance/level.go:283-285 | Exactly the worst-case levels, ascending; each has a choice of methods reaching at least it under all key flags, and no choice is sure of more than the list shows |
| `MigrationGuards.BaselineVersion` | internal/migrations/baseline_version.go:23-59 | The lowest version of the chain, or an error if and only if no file carries one |
| `MigrationGuards.BaselineIsLowest` | internal/migrations/baseline_version.go:23-59 | A number is the baseline iff it is the lowest version of the chain |
| `MigrationGuards.AppliedExactly` | cmd/migrator/registration_lineage.go:114-138 | A version is applied iff some record applies it and no later record is about it |
| `MigrationGuards.ReadLedger` | cmd/migrator/registration_lineage.go:114-138 | The row loop folds applied flags and head |
| `MigrationGuards.ActiveIsApplied` | cmd/migrator/registration_lineage.go:114-138 | The fold says of every version what its last ledger record says |
| `MigrationGuards.HeadIsHighest` | cmd/migrator/registration_lineage.go:129-138 | The head bounds every applied version and is one of them unless 0 |
| `MigrationGuards.ChooseSource` | cmd/migrator/registration_lineage.go:80-207 | For whatever ledger the rows are the latest records of: without a recorded origin a rollback goes through iff neither colliding version is both applied and reached; with one, an accepted rollback past the collision gets the file of the one history to undo |
| `MigrationGuards.BaselineGuardExactly` | cmd/migrator/baseline_rollback.go:59-98 | A rollback is let through iff the chain has a lowest version and the target is not below it, or, without target, the current version could be read and is another; it is refused for the baseline iff it would drop it |
| `MigrationGuards.BaselineStays` | cmd/migrator/baseline_rollback.go:59-98 | For every chain, every ledger and every sequence of accepted up and down commands, the lowest version of the chain stays applied once it is |
| `MigrationGuards.UnknownOriginOutOfReach` | cmd/migrator/registration_lineage.go:139-156 | Without a recorded origin a rollback to any target, or to none, is accepted iff neither colliding version is both applied and reached, where a plain rollback reaches the highest applied version; a roll forward always is; either works from the chain itself |
| `MigrationGuards.PlainRollbackTakesExactly` | cmd/migrator/registration_lineage.go:139-156 | An accepted plain rollback without recorded origin takes a colliding version back iff the tool's current version is one, which then lies below the highest applied |
| `MigrationGuards.CollisionLostExactly` | cmd/migrator/registration_lineage.go:114-156 | Any accepted command without recorded origin takes an applied colliding version back iff it is a plain rollback of that very version |
| `MigrationGuards.CollisionSurvivesExactly` | cmd/migrator/registration_lineage.go:114-156 | Over every accepted sequence without recorded origin an applied colliding version survives iff no command is a plain rollback of it |
| `MigrationGuards.LateCollisionIsRolledBack` | cmd/migrator/registration_lineage.go:139-156 | A concrete ledger on which an accepted plain rollback takes the colliding version back |
| `MigrationGuards.CollisionStays` | cmd/migrator/registration_lineage.go:114-156 | So it survives every accepted sequence whose plain rollbacks take back the highest applied version or one that does not collide |
| `MigrationGuards.RecordedOriginExactly` | cmd/migrator/registration_lineage.go:157-206 | With a recorded origin, exactly which commands go through and from which file: one origin, of the known format, naming a history, in the ledger's state and matching; one history to undo; the reconciled schema; the writer's known file |
| `MigrationGuards.RecordedOriginChoosesItsFile` | cmd/migrator/registration_lineage.go:157-206 | With a recorded origin an accepted rollback past the collision has exactly one history to undo and gets that history's file |
| `CallerPolicy.HopMethodSet` | internal/authzguard/caller_policy.go:249-268 | The set is exactly the methods listed by every profile |
| `CallerPolicy.NewCallerPolicy` | internal/authzguard/caller_policy.go:277-289 | A new policy carries that set and no allow-list or hop |
| `CallerPolicy.WithSANAllowlist` | internal/authzguard/caller_policy.go:301-318 | Per method exactly the trimmed, non-blank names of its list; nothing else changes |
| `CallerPolicy.ModuleLaneExactly` | internal/authzguard/caller_policy.go:412-479 | In production a module identity may call an unrestricted method iff its profile lists it and, for the gateway's own, it is the gateway |
| `CallerPolicy.DevLetsThrough` | internal/authzguard/caller_policy.go:412-479 | Outside production every unrestricted method is open to everybody |
| `CallerPolicy.RestrictedExactly` | internal/authzguard/caller_policy.go:412-425 | A restricted method is open exactly to the verified names on its list |
| `CallerPolicy.HopIsTheCommonLane` | internal/authzguard/caller_policy.go:412-479 | In production, outside restricted methods, the hop may call a method iff every non-gateway module identity of every profile may |
| `CallerPolicy.HopIsNeverWider` | internal/authzguard/caller_policy.go:412-479 | What the hop may call every recognised identity may call, and it is never gateway-only |
| `CallerPolicy.NamedFrontIsTheOnlyStranger` | internal/authzguard/caller_policy.go:383-479 | In production, outside restricted methods, a caller without module identity gets through iff it verifiably bears the configured, trimmed, non-blank front name and every module may call the method |
| `CallerPolicy.ProductionOnlyTightens` | internal/authzguard/caller_policy.go:412-479 | Production allows nothing dev refuses; restricted methods do not depend on the mode |
| `CallerPolicy.ConfigureRestricted` | internal/authzguard/caller_policy.go:301-318 | A configured restricted method is open exactly to the verified names listed, an unconfigured one to nobody, and other methods are unaffected |
| `AddressGate.Findings` | internal/authzguard/address_gate.go:241-283 | The list holds a finding if and only if what it claims is true of the table and the two lists |
| `AddressGate.NoFindingsExactly` | internal/authzguard/address_gate.go:241-283 | No findings iff both lists are non-empty, the keys are exactly their union, circle rows and only those are inside, and every row has a reason |
| `AddressGate.JudgeExactly` | internal/authzguard/address_gate.go:182-213 | A call without principal, outside the circle or on oneself where allowed proceeds unread; otherwise refused iff an unverified person whose marks were read, unavailable iff marks are needed and unreadable, else it proceeds |
| `AddressGate.CleanTableGuards` | internal/authzguard/address_gate.go:182-213 | With no findings, an unverified person passes a circle method iff by unary self-revoke on a row that allows it, whatever the reader does, and never passes a method in neither list; on the other internal methods the gate reads nothing and stops nobody |
| `AddressGate.OthersAreNotRefused` | internal/authzguard/address_gate.go:182-213 | Nobody but an unverified person is refused for the address |
| `Audience.FindBounds` | internal/audiencepolicy/audiencepolicy.go:113-135 | The loop computes the effective list and its fallback, or the refusal |
| `Audience.Resolve` | internal/audiencepolicy/audiencepolicy.go:84-103 | The first entry out of bounds decides the refusal; otherwise the request, or the fallback |
| `Audience.RequestGrantedExactly` | internal/audiencepolicy/audiencepolicy.go:84-149 | A non-empty request is granted unchanged iff every entry lies within both bounds |
| `Audience.RefusedBecause` | internal/audiencepolicy/audiencepolicy.go:84-135 | Why a request is refused: no deployment list, nothing shared with it, or the first entry out of bounds, told apart by whether the deployment knows it |
| `Audience.FallbackExactly` | internal/audiencepolicy/audiencepolicy.go:84-135 | An empty request is refused iff nothing lies within both bounds; else it gets the default if nothing narrows it or it lies within, else the first declared audience the deployment knows; that lies within bounds iff there is a narrowing or the default is in the deployment's list |
| `Audience.IssuedWithinAndStable` | internal/audiencepolicy/audiencepolicy.go:84-149 | What is issued is non-empty; it lies within both bounds, and resolves to itself, iff it was not a bare unnarrowed request with a stray default |
| `Audience.NarrowingNeverWidens` | internal/audiencepolicy/audiencepolicy.go:84-149 | What is granted under a narrowing is granted alike without it |
| `Audience.StrayDefaultIsIssued` | internal/audiencepolicy/audiencepolicy.go:113-135 | Without narrowing the bare answer lies within bounds iff the default lies in the deployment's list |

## Left out

- Census.Summarize: the sorted lists of the source are sets here; WrittenCensus.WriteOut gives the lists and WrittenCensus.WrittenAlikeExactly shows that comparing them is comparing the sets.
- MigrationGuards.CollisionStays: is a corollary of the exact CollisionSurvivesExactly for runs in which the tool's current version is the highest applied or does not collide.
- RunVerdict.Finish: the list of captured files with sizes and digests, the identity of the run and the printed report are not part of the manifest.
- RootShutdown.QuietMeansDown: each teardown action and the waiter's drain are taken to complete, as their timeouts make them; the race of the graceful stop against its timer is not modelled.
- Condition contexts passed with every check, the direct-relation lookups of the door, and the status returned for a refusal.
- JSON at the byte level, duplicate names inside nested objects, and the distinction of booleans from integers in the manifest.
- Recognition of module identities from certificates, the concrete method tables of profiles, gateway and circle; they are parameters.
- The migration tool, parsing of target versions, reading errors of the ledger queries and the content digest of the writer's file; each is a parameter or an outcome.
- Log text, error wording, metrics, and the rest of the service's composition root.
