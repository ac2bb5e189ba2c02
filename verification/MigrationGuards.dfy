/**
  The guards in front of the migrator's rollback: the baseline is never rolled back, and a
  version two histories collided on is never rolled back while its origin is unknown.
*/
module MigrationGuards {
  import opened Outcomes

  const RECONCILIATION := 20261026090001
  const COLLISION := 20261026090000

  /** One line of the version ledger: a version was applied, or rolled back. */
  datatype Record = Record(version: int, applied: bool)

  type Ledger = seq<Record>

  /** A version is applied when its last record says so. */
  predicate Applied(ledger: Ledger, v: int) {
    if ledger == [] then false
    else if ledger[|ledger| - 1].version == v then ledger[|ledger| - 1].applied
    else Applied(ledger[..|ledger| - 1], v)
  }

  ghost predicate LastSaysApplied(ledger: Ledger, v: int, i: nat) {
    && i < |ledger| && ledger[i] == Record(v, true)
    && forall j :: i < j < |ledger| ==> ledger[j].version != v
  }

  /** A version is applied exactly when some record applies it and no later one is about it. */
  lemma {:induction false} AppliedExactly(ledger: Ledger, v: int)
    ensures Applied(ledger, v) <==> exists i: nat :: LastSaysApplied(ledger, v, i)
    decreases |ledger|
  {
    if ledger != [] {
      var n := |ledger| - 1;
      var init := ledger[..n];
      AppliedExactly(init, v);
      if ledger[n].version != v {
        if i: nat :| LastSaysApplied(init, v, i) {
          assert forall j :: i < j < |init| ==> ledger[j] == init[j];
          assert LastSaysApplied(ledger, v, i);
        }
        if i: nat :| LastSaysApplied(ledger, v, i) {
          assert LastSaysApplied(init, v, i);
        }
      } else {
        assert ledger[n].applied ==> LastSaysApplied(ledger, v, n);
        forall i: nat | LastSaysApplied(ledger, v, i) ensures i == n {}
      }
    }
  }

  // ---------------------------------------------------------------------------------------
  // The baseline guard
  // ---------------------------------------------------------------------------------------

  datatype Target = NoTarget | To(version: int) | BadTarget

  datatype Refusal =
    | NoVersions
    | UnparsableTarget
    | UnreadableHead
    | DropsBaseline
    | WrongIsolation
    | UnknownReconciliation
    | UnknownOrigin
    | OriginCount
    | OriginMismatch
    | OriginShape
    | AmbiguousOwner
    | SchemaDiffers
    | WriterIdentity

  /** The versions of the chain's files; a file without one does not count. */
  type VersionChain = seq<Option<int>>

  ghost predicate HasVersion(chain: VersionChain, v: int) {
    exists i :: 0 <= i < |chain| && chain[i] == Some(v)
  }

  ghost predicate Lowest(chain: VersionChain, v: int) {
    HasVersion(chain, v) && forall u :: HasVersion(chain, u) ==> v <= u
  }

  /** The baseline, if the chain has any version. */
  function Baseline(chain: VersionChain): Result<int, Refusal> {
    if chain == [] then Err(NoVersions)
    else
      var init, last := Baseline(chain[..|chain| - 1]), chain[|chain| - 1];
      if last.None? || (init.Ok? && init.value <= last.value) then init else Ok(last.value)
  }

  /** The baseline is the lowest version of the chain; there is none only in a chain without versions. */
  lemma {:induction false} BaselineIsLowest(chain: VersionChain)
    ensures Baseline(chain).Ok? <==> exists v :: HasVersion(chain, v)
    ensures Baseline(chain).Err? ==> Baseline(chain).error == NoVersions
    ensures forall v :: Baseline(chain) == Ok(v) <==> Lowest(chain, v)
    decreases |chain|
  {
    if chain != [] {
      var init, last := chain[..|chain| - 1], chain[|chain| - 1];
      BaselineIsLowest(init);
      forall v ensures HasVersion(chain, v) <==> HasVersion(init, v) || last == Some(v) {
        HasVersionStep(chain, v);
      }
      if Baseline(chain).Ok? {
        assert Lowest(chain, Baseline(chain).value);
      }
    }
  }

  lemma HasVersionStep(chain: VersionChain, v: int)
    requires chain != []
    ensures HasVersion(chain, v) <==> HasVersion(chain[..|chain| - 1], v) || chain[|chain| - 1] == Some(v)
  {
    var init := chain[..|chain| - 1];
    if HasVersion(init, v) {
      var i :| 0 <= i < |init| && init[i] == Some(v);
      assert chain[i] == Some(v);
    }
    if HasVersion(chain, v) {
      var i :| 0 <= i < |chain| && chain[i] == Some(v);
      assert i < |init| ==> init[i] == Some(v);
    }
  }

  method BaselineVersion(chain: VersionChain) returns (r: Result<int, Refusal>)
    ensures r == Baseline(chain)
    ensures r.Ok? <==> exists v :: HasVersion(chain, v)
    ensures r.Ok? ==> Lowest(chain, r.value)
  {
    var lowest, seen := 0, 0;
    for i := 0 to |chain|
      invariant Baseline(chain[..i]) == if seen == 0 then Err(NoVersions) else Ok(lowest)
    {
      assert chain[..i + 1][..i] == chain[..i];
      if chain[i].None? {
        continue;
      }
      seen := seen + 1;
      if seen == 1 || chain[i].value < lowest {
        lowest := chain[i].value;
      }
    }
    assert chain[..|chain|] == chain;
    BaselineIsLowest(chain);
    if seen == 0 {
      return Err(NoVersions);
    }
    r := Ok(lowest);
  }

  /** Refuses a rollback that would drop the baseline. The head is asked for only without a target. */
  function RefuseBaselineRollback(chain: VersionChain, target: Target, head: Result<int, string>): Result<(), Refusal> {
    match Baseline(chain)
    case Err(e) => Err(e)
    case Ok(baseline) =>
      match target
      case BadTarget => Err(UnparsableTarget)
      case To(v) => if v >= baseline then Ok(()) else Err(DropsBaseline)
      case NoTarget =>
        match head
        case Err(_) => Err(UnreadableHead)
        case Ok(current) => if current != baseline then Ok(()) else Err(DropsBaseline)
  }


  /**
    The guard lets a rollback through exactly when the chain has a lowest version and the rollback
    leaves it alone: its target is not below it, or, without a target, the tool could tell its
    current version and that is another.
  */
  lemma BaselineGuardExactly(chain: VersionChain, target: Target, head: Result<int, string>)
    ensures RefuseBaselineRollback(chain, target, head).Ok? <==>
            exists lowest :: Lowest(chain, lowest) &&
                             ((target.To? && lowest <= target.version) ||
                              (target.NoTarget? && head.Ok? && head.value != lowest))
    ensures RefuseBaselineRollback(chain, target, head) == Err(DropsBaseline) <==>
            exists lowest :: Lowest(chain, lowest) &&
                             ((target.To? && target.version < lowest) || (target.NoTarget? && head == Ok(lowest)))
  {
    BaselineIsLowest(chain);
    if Baseline(chain).Ok? {
      assert Lowest(chain, Baseline(chain).value);
    }
  }

  // ---------------------------------------------------------------------------------------
  // The lineage guard
  // ---------------------------------------------------------------------------------------

  /** The recorded origin, with what the database says about it and about the current schema. */
  datatype Origin = Origin(format: int, creator: bool, writer: bool, state: string, matches: bool,
                           shapeIsComplete: bool)

  /** The latest record of each version, as the ledger query returns them; origins when the table exists. */
  datatype Database = Database(isolation: string, rows: seq<Record>, origins: Option<seq<Origin>>)

  /** Which file stands for the collided version: the chain's own, or one of the two histories. */
  datatype Source = Chain | History(writer: bool)

  /** The query's rows: each version of the ledger once, with its last word. */
  ghost predicate Latest(rows: seq<Record>, ledger: Ledger) {
    && (forall i, j :: 0 <= i < j < |rows| ==> rows[i].version != rows[j].version)
    && (forall i :: 0 <= i < |rows| ==> rows[i].applied == Applied(ledger, rows[i].version))
    && (forall v :: Applied(ledger, v) ==> Record(v, true) in rows)
  }

  /** The highest applied version, 0 if none is above it. */
  function Head(rows: seq<Record>): int {
    if rows == [] then 0
    else
      var h, last := Head(rows[..|rows| - 1]), rows[|rows| - 1];
      if last.applied && last.version > h then last.version else h
  }

  predicate Active(rows: seq<Record>, v: int) {
    if rows == [] then false
    else if rows[|rows| - 1].version == v then rows[|rows| - 1].applied
    else Active(rows[..|rows| - 1], v)
  }

  method ReadLedger(rows: seq<Record>) returns (applied: map<int, bool>, head: int)
    ensures head == Head(rows)
    ensures forall v :: (v in applied && applied[v]) <==> Active(rows, v)
  {
    applied, head := map[], 0;
    for i := 0 to |rows|
      invariant head == Head(rows[..i])
      invariant forall v :: (v in applied && applied[v]) <==> Active(rows[..i], v)
    {
      assert rows[..i + 1][..i] == rows[..i];
      applied := applied[rows[i].version := rows[i].applied];
      if rows[i].applied && rows[i].version > head {
        head := rows[i].version;
      }
    }
    assert rows[..|rows|] == rows;
  }

  lemma {:induction false} ActiveAt(rows: seq<Record>, i: nat)
    requires forall i, j :: 0 <= i < j < |rows| ==> rows[i].version != rows[j].version
    requires i < |rows|
    ensures Active(rows, rows[i].version) == rows[i].applied
    decreases |rows|
  {
    if i < |rows| - 1 {
      ActiveAt(rows[..|rows| - 1], i);
    }
  }

  lemma {:induction false} ActiveIsIn(rows: seq<Record>, v: int)
    requires Active(rows, v)
    ensures Record(v, true) in rows
    decreases |rows|
  {
    if rows[|rows| - 1].version != v {
      ActiveIsIn(rows[..|rows| - 1], v);
    }
  }

  /** The folded rows say of every version what the ledger's last record of it says. */
  lemma ActiveIsApplied(rows: seq<Record>, ledger: Ledger, v: int)
    requires Latest(rows, ledger)
    ensures Active(rows, v) <==> Applied(ledger, v)
  {
    if Active(rows, v) {
      ActiveIsIn(rows, v);
      var i :| 0 <= i < |rows| && rows[i] == Record(v, true);
    }
    if Applied(ledger, v) {
      assert Record(v, true) in rows;
      var i :| 0 <= i < |rows| && rows[i] == Record(v, true);
      ActiveAt(rows, i);
    }
  }

  lemma {:induction false} HeadIsHighest(rows: seq<Record>)
    ensures forall r :: r in rows && r.applied ==> r.version <= Head(rows)
    ensures Head(rows) != 0 ==> Record(Head(rows), true) in rows
    ensures Head(rows) >= 0
    decreases |rows|
  {
    if rows != [] {
      HeadIsHighest(rows[..|rows| - 1]);
      assert rows == rows[..|rows| - 1] + [rows[|rows| - 1]];
    }
  }

  /** The lowest version a rollback may still touch is the one above its floor. */
  function Floor(rows: seq<Record>, target: Target): int
    requires !target.BadTarget?
  {
    match target
    case NoTarget => Head(rows) - 1
    case To(v) => v
  }

  /** An origin of the known format that names a history and a state. */
  predicate Plausible(o: Origin) {
    o.format == 2 && (o.creator || o.writer) && (o.state == "up" || o.state == "down")
  }

  /** The versions two histories collided on. */
  predicate Collided(v: int) { v == RECONCILIATION || v == COLLISION }

  /** The rollback reaches the version: its target lies below, or, without a target, nothing higher is applied. */
  ghost predicate Reaches(ledger: Ledger, target: Target, v: int) {
    match target
    case BadTarget => false
    case To(t) => t < v
    case NoTarget => forall u :: Applied(ledger, u) ==> u <= v
  }

  /** Neither colliding version is both applied and reached. */
  ghost predicate OutOfReach(ledger: Ledger, target: Target) {
    && !(Applied(ledger, 20261026090000) && Reaches(ledger, target, 20261026090000))
    && !(Applied(ledger, 20261026090001) && Reaches(ledger, target, 20261026090001))
  }

  /** The floor computed from the rows is what the rollback reaches in the ledger. */
  lemma FloorIsReach(rows: seq<Record>, ledger: Ledger, target: Target, v: int)
    requires Latest(rows, ledger) && !target.BadTarget? && Applied(ledger, v) && v > 0
    ensures Floor(rows, target) < v <==> Reaches(ledger, target, v)
  {
    HeadIsHighest(rows);
    assert Record(v, true) in rows;
    if target.NoTarget? {
      if Head(rows) <= v {
        forall u | Applied(ledger, u) ensures u <= v {
          assert Record(u, true) in rows;
        }
      }
      if Reaches(ledger, target, v) && Head(rows) != 0 {
        var i :| 0 <= i < |rows| && rows[i] == Record(Head(rows), true);
        assert Applied(ledger, Head(rows));
      }
    }
  }

  /** The decision before any statement runs: which source to migrate from, or a refusal. */
  function MigrationSource(reconcilable: bool, db: Database, target: Target, down: bool,
                           writerIdentity: bool): Result<Source, Refusal> {
    if !reconcilable then Ok(Chain)
    else if db.isolation != "read committed" then Err(WrongIsolation)
    else if target.BadTarget? then Err(UnparsableTarget)
    else
      var floor := Floor(db.rows, target);
      var reconciled := Active(db.rows, RECONCILIATION);
      var collided := Active(db.rows, COLLISION);
      if db.origins.None? then
        if down && reconciled && floor < RECONCILIATION then Err(UnknownReconciliation)
        else if down && collided && floor < COLLISION then Err(UnknownOrigin)
        else Ok(Chain)
      else if |db.origins.value| != 1 then Err(OriginCount)
      else
        var o := db.origins.value[0];
        if !Plausible(o) || reconciled != (o.state == "up") then Err(OriginMismatch)
        else if !o.matches then Err(OriginShape)
        else if down && o.creator && o.writer && collided && floor < COLLISION then Err(AmbiguousOwner)
        else if down && reconciled && floor < RECONCILIATION && !o.shapeIsComplete then Err(SchemaDiffers)
        else if o.writer && !o.creator then (if writerIdentity then Ok(History(true)) else Err(WriterIdentity))
        else Ok(History(false))
  }

  /**
    Decides in the source's order of refusals. For whatever ledger the rows are the latest records
    of: without a recorded origin a rollback goes through exactly when no applied colliding version
    is within its reach; with one, a rollback past the collision is given the file of the one history
    it has to undo.
  */
  method ChooseSource(reconcilable: bool, db: Database, target: Target, down: bool, writerIdentity: bool)
    returns (r: Result<Source, Refusal>)
    ensures r == MigrationSource(reconcilable, db, target, down, writerIdentity)
    ensures !reconcilable ==> r == Ok(Chain)
    ensures reconcilable && r.Ok? ==> db.isolation == "read committed" && !target.BadTarget?
    ensures reconcilable && down && db.origins.None? && db.isolation == "read committed" && !target.BadTarget? ==>
              forall ledger :: Latest(db.rows, ledger) ==> (r.Ok? <==> OutOfReach(ledger, target))
    ensures reconcilable && down && db.origins.Some? && r.Ok? && Active(db.rows, COLLISION) &&
            Floor(db.rows, target) < COLLISION ==>
              |db.origins.value| == 1 && db.origins.value[0].writer != db.origins.value[0].creator &&
              r.value == History(db.origins.value[0].writer)
  {
    if !reconcilable {
      return Ok(Chain);
    }
    if db.isolation != "read committed" {
      return Err(WrongIsolation);
    }
    var applied, head := ReadLedger(db.rows);
    var reconciled := RECONCILIATION in applied && applied[RECONCILIATION];
    var collided := COLLISION in applied && applied[COLLISION];
    var floor := head - 1;
    match target {
      case NoTarget =>
      case BadTarget => return Err(UnparsableTarget);
      case To(v) => floor := v;
    }
    if db.origins.None? {
      forall ledger | Latest(db.rows, ledger)
        ensures MigrationSource(true, db, target, true, writerIdentity).Ok? <==> OutOfReach(ledger, target)
      {
        UnknownOriginOutOfReach(db, ledger, target, writerIdentity);
      }
      if down && reconciled && floor < RECONCILIATION {
        return Err(UnknownReconciliation);
      }
      if down && collided && floor < COLLISION {
        return Err(UnknownOrigin);
      }
      return Ok(Chain);
    }
    if |db.origins.value| != 1 {
      return Err(OriginCount);
    }
    var o := db.origins.value[0];
    if !Plausible(o) || reconciled != (o.state == "up") {
      return Err(OriginMismatch);
    }
    if !o.matches {
      return Err(OriginShape);
    }
    if down && o.creator && o.writer && collided && floor < COLLISION {
      return Err(AmbiguousOwner);
    }
    if down && reconciled && floor < RECONCILIATION && !o.shapeIsComplete {
      return Err(SchemaDiffers);
    }
    if o.writer && !o.creator {
      return if writerIdentity then Ok(History(true)) else Err(WriterIdentity);
    }
    return Ok(History(false));
  }

  // ---------------------------------------------------------------------------------------
  // What a command does to the ledger
  // ---------------------------------------------------------------------------------------

  /**
    One command: `current` is the version the migration tool itself takes for the latest, which
    the baseline guard reads by the same call; it may fail to read it.
  */
  datatype Command = Up(target: Target, versions: seq<int>) | Down(target: Target, current: Result<int, string>)

  /** The records a command may write; a rollback that breaks off has written fewer. */
  ghost predicate Writes(ledger: Ledger, cmd: Command, records: seq<Record>) {
    match cmd
    case Up(_, versions) => forall r :: r in records ==> r.applied && r.version in versions
    case Down(To(v), _) => forall r :: r in records ==> !r.applied && r.version > v && Applied(ledger, r.version)
    case Down(NoTarget, Ok(current)) =>
      forall r :: r in records ==> r == Record(current, false) && Applied(ledger, current)
    case Down(_, _) => records == []
  }

  ghost predicate Guarded(chain: VersionChain, reconcilable: bool, db: Database, cmd: Command, writerIdentity: bool) {
    match cmd
    case Up(target, _) => MigrationSource(reconcilable, db, target, false, writerIdentity).Ok?
    case Down(target, current) =>
      && RefuseBaselineRollback(chain, target, current).Ok?
      && MigrationSource(reconcilable, db, target, true, writerIdentity).Ok?
  }

  /** A step of a run: the guards accepted the command on this database, and it wrote its records. */
  datatype Event = Event(reconcilable: bool, db: Database, cmd: Command, writerIdentity: bool, records: seq<Record>)

  ghost predicate StepOk(chain: VersionChain, ledger: Ledger, e: Event) {
    && Latest(e.db.rows, ledger)
    && Guarded(chain, e.reconcilable, e.db, e.cmd, e.writerIdentity)
    && Writes(ledger, e.cmd, e.records)
  }

  ghost predicate Run(chain: VersionChain, ledger: Ledger, events: seq<Event>, end: Ledger)
    decreases |events|
  {
    if events == [] then end == ledger
    else StepOk(chain, ledger, events[0]) && Run(chain, ledger + events[0].records, events[1..], end)
  }

  lemma {:induction false} AppendKeeps(ledger: Ledger, records: seq<Record>, v: int)
    requires Applied(ledger, v)
    requires forall r :: r in records ==> r.version == v ==> r.applied
    ensures Applied(ledger + records, v)
    decreases |records|
  {
    if records == [] {
      assert ledger + records == ledger;
    } else {
      var n := |records| - 1;
      AppendKeeps(ledger, records[..n], v);
      assert (ledger + records)[..|ledger + records| - 1] == ledger + records[..n];
      assert (ledger + records)[|ledger + records| - 1] == records[n] && records[n] in records;
    }
  }

  /**
    For every chain, every ledger and every sequence of accepted commands, the lowest version of the
    chain stays applied once it is.
  */
  lemma {:induction false} BaselineStays(chain: VersionChain, baseline: int, ledger: Ledger, events: seq<Event>,
                                         end: Ledger)
    requires Lowest(chain, baseline) && Run(chain, ledger, events, end) && Applied(ledger, baseline)
    ensures Applied(end, baseline)
    decreases |events|
  {
    if events != [] {
      BaselineIsLowest(chain);
      AppendKeeps(ledger, events[0].records, baseline);
      BaselineStays(chain, baseline, ledger + events[0].records, events[1..], end);
    }
  }

  /**
    Without a recorded origin a rollback is accepted exactly when neither colliding version is
    both applied and reached; a roll forward is accepted, from the chain itself.
  */
  lemma UnknownOriginOutOfReach(db: Database, ledger: Ledger, target: Target, writerIdentity: bool)
    requires Latest(db.rows, ledger) && db.origins.None?
    ensures MigrationSource(true, db, target, true, writerIdentity).Ok? <==>
            db.isolation == "read committed" && !target.BadTarget? && OutOfReach(ledger, target)
    ensures forall down :: MigrationSource(true, db, target, down, writerIdentity).Ok? ==>
              MigrationSource(true, db, target, down, writerIdentity).value == Chain
    ensures MigrationSource(true, db, target, false, writerIdentity).Ok? <==>
            db.isolation == "read committed" && !target.BadTarget?
  {
    ReachOfBoth(db, ledger, target);
  }

  lemma ReachOfBoth(db: Database, ledger: Ledger, target: Target)
    requires Latest(db.rows, ledger)
    ensures Active(db.rows, RECONCILIATION) <==> Applied(ledger, 20261026090001)
    ensures Active(db.rows, COLLISION) <==> Applied(ledger, 20261026090000)
    ensures !target.BadTarget? && Applied(ledger, 20261026090001) ==>
              (Floor(db.rows, target) < RECONCILIATION <==> Reaches(ledger, target, 20261026090001))
    ensures !target.BadTarget? && Applied(ledger, 20261026090000) ==>
              (Floor(db.rows, target) < COLLISION <==> Reaches(ledger, target, 20261026090000))
  {
    ActiveIsApplied(db.rows, ledger, RECONCILIATION);
    ActiveIsApplied(db.rows, ledger, COLLISION);
    if !target.BadTarget? && Applied(ledger, RECONCILIATION) {
      FloorIsReach(db.rows, ledger, target, RECONCILIATION);
    }
    if !target.BadTarget? && Applied(ledger, COLLISION) {
      FloorIsReach(db.rows, ledger, target, COLLISION);
    }
  }

  /** The recorded origin is of the known format, names a history, and its state is the ledger's. */
  ghost predicate OriginHolds(o: Origin, ledger: Ledger) {
    && o.format == 2 && (o.creator || o.writer) && o.matches
    && o.state == if Applied(ledger, 20261026090001) then "up" else "down"
  }

  /**
    With a recorded origin, exactly what goes through, and from which file. The origin must hold; a
    rollback that reaches the collided version must have one history to undo; one that reaches the
    reconciliation must find the reconciled schema; the writer's own file must be the known one.
  */
  lemma RecordedOriginExactly(db: Database, ledger: Ledger, target: Target, down: bool, writerIdentity: bool)
    requires Latest(db.rows, ledger) && db.origins.Some?
    ensures var r := MigrationSource(true, db, target, down, writerIdentity);
            && (r.Ok? <==>
                && db.isolation == "read committed" && !target.BadTarget? && |db.origins.value| == 1
                && var o := db.origins.value[0];
                   && OriginHolds(o, ledger)
                   && !(down && o.creator && o.writer &&
                        Applied(ledger, 20261026090000) && Reaches(ledger, target, 20261026090000))
                   && !(down && !o.shapeIsComplete &&
                        Applied(ledger, 20261026090001) && Reaches(ledger, target, 20261026090001))
                   && (o.writer && !o.creator ==> writerIdentity))
            && (r.Ok? ==> r.value == History(db.origins.value[0].writer && !db.origins.value[0].creator))
  {
    ReachOfBoth(db, ledger, target);
  }

  lemma AppliedSnoc(ledger: Ledger, r: Record, v: int)
    ensures Applied(ledger + [r], v) == if r.version == v then r.applied else Applied(ledger, v)
    ensures Active(ledger + [r], v) == if r.version == v then r.applied else Active(ledger, v)
    ensures Head(ledger + [r]) == if r.applied && r.version > Head(ledger) then r.version else Head(ledger)
  {
    assert (ledger + [r])[..|ledger|] == ledger;
  }

  lemma ThreeRecords(a: Record, b: Record, c: Record, v: int)
    requires a.version != b.version && b.version != c.version && a.version != c.version
    requires a.applied && b.applied && c.applied && 0 < a.version
    ensures Applied([a, b, c], v) <==> v == a.version || v == b.version || v == c.version
    ensures Active([a, b, c], v) <==> v == a.version || v == b.version || v == c.version
    ensures a.version < b.version < c.version ==> Head([a, b, c]) == c.version
  {
    assert [] + [a] == [a] && [a] + [b] == [a, b] && [a, b] + [c] == [a, b, c];
    AppliedSnoc([], a, v);
    AppliedSnoc([a], b, v);
    AppliedSnoc([a, b], c, v);
  }

  /** The gap is real: the collided version applied late, below a higher one, is taken back. */
  lemma LateCollisionIsRolledBack(chain: VersionChain, ledger: Ledger, rows: seq<Record>, db: Database)
    requires chain == [Some(1), Some(COLLISION), Some(20261026090005)]
    requires ledger == [Record(1, true), Record(20261026090005, true), Record(COLLISION, true)]
    requires rows == [Record(1, true), Record(COLLISION, true), Record(20261026090005, true)]
    requires db == Database("read committed", rows, None)
    ensures Latest(rows, ledger) && Applied(ledger, COLLISION)
    ensures Guarded(chain, true, db, Down(NoTarget, Ok(COLLISION)), true)
    ensures Writes(ledger, Down(NoTarget, Ok(COLLISION)), [Record(COLLISION, false)])
    ensures !Applied(ledger + [Record(COLLISION, false)], COLLISION)
  {
    forall v
      ensures Applied(ledger, v) <==> v in {1, COLLISION, 20261026090005}
      ensures Active(rows, v) <==> v in {1, COLLISION, 20261026090005}
      ensures Head(rows) == 20261026090005
    {
      ThreeRecords(ledger[0], ledger[1], ledger[2], v);
      ThreeRecords(rows[0], rows[1], rows[2], v);
    }
    assert rows[0] in rows && rows[1] in rows && rows[2] in rows;
    AppliedSnoc(ledger, Record(COLLISION, false), COLLISION);
    BaselineIsLowest(chain);
    assert Lowest(chain, 1) by { assert chain[0] == Some(1); }
  }

  /**
    A plain rollback takes back the tool's current version, while the guard reasons from the
    highest applied one. Accepted without a recorded origin it takes a colliding version back
    exactly when the tool's current version is one; that version then lies below the highest.
  */
  lemma PlainRollbackTakesExactly(chain: VersionChain, ledger: Ledger, db: Database, current: int, writerIdentity: bool)
    requires Latest(db.rows, ledger) && db.origins.None? && Applied(ledger, current)
    requires Guarded(chain, true, db, Down(NoTarget, Ok(current)), writerIdentity)
    ensures (exists v :: Collided(v) && Applied(ledger, v) && !Applied(ledger + [Record(current, false)], v)) <==>
            Collided(current)
    ensures Collided(current) ==> current < Head(db.rows) && exists u :: Applied(ledger, u) && u > current
  {
    UnknownOriginOutOfReach(db, ledger, NoTarget, writerIdentity);
    if Collided(current) {
      NotReachedByPlain(db.rows, ledger, current);
    }
    forall v ensures Applied(ledger + [Record(current, false)], v) == (v != current && Applied(ledger, v)) {
      AppliedSnoc(ledger, Record(current, false), v);
    }
    if Collided(current) {
      assert Applied(ledger, current) && !Applied(ledger + [Record(current, false)], current);
    }
  }

  /** An applied version a plain rollback does not reach lies below a higher applied one. */
  lemma NotReachedByPlain(rows: seq<Record>, ledger: Ledger, v: int)
    requires Latest(rows, ledger) && !Reaches(ledger, NoTarget, v)
    ensures v < Head(rows) && exists u :: Applied(ledger, u) && u > v
  {
    var u :| Applied(ledger, u) && u > v;
    HeadIsHighest(rows);
    assert Record(u, true) in rows;
  }

  /** The command is a plain rollback of this version, and went through with it. */
  ghost predicate TakesBack(e: Event, v: int) {
    e.cmd == Down(NoTarget, Ok(v)) && e.records != []
  }

  lemma {:induction false} LastWord(ledger: Ledger, records: seq<Record>, v: int)
    requires records != [] && forall r :: r in records ==> r == Record(v, false)
    ensures !Applied(ledger + records, v)
  {
    var n := |records| - 1;
    assert (ledger + records)[|ledger + records| - 1] == records[n] && records[n] in records;
  }

  /**
    One command exactly: while no origin is recorded, an accepted command takes an applied colliding
    version back if and only if it is a plain rollback of that very version, which then lies below
    the highest applied one.
  */
  lemma CollisionLostExactly(chain: VersionChain, ledger: Ledger, e: Event, v: int)
    requires StepOk(chain, ledger, e) && e.reconcilable && e.db.origins.None?
    requires Applied(ledger, v) && Collided(v)
    ensures !Applied(ledger + e.records, v) <==> TakesBack(e, v)
    ensures TakesBack(e, v) ==> v < Head(e.db.rows) && exists u :: Applied(ledger, u) && u > v
  {
    match e.cmd {
      case Up(_, _) =>
      case Down(target, _) => UnknownOriginOutOfReach(e.db, ledger, target, e.writerIdentity);
    }
    if TakesBack(e, v) {
      NotReachedByPlain(e.db.rows, ledger, v);
      LastWord(ledger, e.records, v);
    } else {
      AppendKeeps(ledger, e.records, v);
    }
  }

  /** The version is applied after every command of the run. */
  ghost predicate Survives(ledger: Ledger, events: seq<Event>, v: int)
    decreases |events|
  {
    events == [] || (Applied(ledger + events[0].records, v) && Survives(ledger + events[0].records, events[1..], v))
  }

  ghost predicate OriginUnknown(events: seq<Event>) {
    forall i :: 0 <= i < |events| ==> events[i].reconcilable && events[i].db.origins.None?
  }

  /**
    Whole runs exactly: while no origin is recorded, an applied colliding version survives a sequence
    of accepted commands if and only if none of them is a plain rollback of that version.
  */
  lemma {:induction false} CollisionSurvivesExactly(chain: VersionChain, ledger: Ledger, events: seq<Event>,
                                                    end: Ledger, v: int)
    requires Run(chain, ledger, events, end) && OriginUnknown(events) && Applied(ledger, v) && Collided(v)
    ensures Survives(ledger, events, v) <==> forall i :: 0 <= i < |events| ==> !TakesBack(events[i], v)
    ensures Survives(ledger, events, v) ==> Applied(end, v)
    decreases |events|
  {
    if events != [] {
      var next, rest := ledger + events[0].records, events[1..];
      assert events[0].reconcilable && events[0].db.origins.None?;
      CollisionLostExactly(chain, ledger, events[0], v);
      if !TakesBack(events[0], v) {
        CollisionSurvivesExactly(chain, next, rest, end, v);
        assert forall i :: 0 <= i < |rest| ==> rest[i] == events[i + 1];
        if Survives(ledger, events, v) {
          forall i | 0 <= i < |events| ensures !TakesBack(events[i], v) {
            assert i > 0 ==> events[i] == rest[i - 1];
          }
        }
      }
    }
  }

  /** Each plain rollback takes back the highest applied version, or one that is not colliding. */
  ghost predicate SparesCollisions(e: Event) {
    match e.cmd
    case Down(NoTarget, Ok(current)) => current == Head(e.db.rows) || !Collided(current)
    case _ => true
  }

  /**
    So where the tool's current version is the highest applied one or does not collide, the guard does
    its work: an applied colliding version survives every sequence of accepted commands.
  */
  lemma {:induction false} CollisionStays(chain: VersionChain, ledger: Ledger, events: seq<Event>, end: Ledger, v: int)
    requires Run(chain, ledger, events, end) && OriginUnknown(events) && Applied(ledger, v) && Collided(v)
    requires forall i :: 0 <= i < |events| ==> SparesCollisions(events[i])
    ensures Applied(end, v)
    decreases |events|
  {
    if events != [] {
      assert events[0].reconcilable && events[0].db.origins.None? && SparesCollisions(events[0]);
      CollisionLostExactly(chain, ledger, events[0], v);
      CollisionStays(chain, ledger + events[0].records, events[1..], end, v);
    }
  }

  /**
    With a recorded origin, an accepted rollback past the collided version has exactly one
    history to undo, and is given that history's own file.
  */
  lemma RecordedOriginChoosesItsFile(db: Database, ledger: Ledger, target: Target, writerIdentity: bool)
    requires Latest(db.rows, ledger) && db.origins.Some?
    requires MigrationSource(true, db, target, true, writerIdentity).Ok?
    requires Applied(ledger, 20261026090000) && Reaches(ledger, target, 20261026090000)
    ensures |db.origins.value| == 1
    ensures var o := db.origins.value[0];
            && o.writer != o.creator
            && MigrationSource(true, db, target, true, writerIdentity).value == History(o.writer)
            && (o.state == "up" <==> Applied(ledger, RECONCILIATION))
            && (Applied(ledger, RECONCILIATION) ==> o.shapeIsComplete)
  {
    RecordedOriginExactly(db, ledger, target, true, writerIdentity);
  }
}
