/**
  The address gate in front of both listeners, driven by a closed table of internal methods,
  and the checker that compares that table with the two lists it must cover.
*/
module AddressGate {
  import opened Outcomes
  import opened Admission
  import Text

  datatype GateRow = Refuses | AllowsSelfRevoke | OutsideCircle

  datatype Entry = Entry(row: GateRow, reason: string)

  type Table = map<string, Entry>

  datatype Finding =
    | EmptyCircle
    | EmptyInternal
    | CircleWithoutRow(name: string)
    | CircleDeclaredOutside(name: string)
    | InternalWithoutRow(name: string)
    | InternalDeclaredInside(name: string)
    | RowWithoutMethod(name: string)
    | RowWithoutReason(name: string)

  // ---------------------------------------------------------------------------------------
  // The checker
  // ---------------------------------------------------------------------------------------

  /** What each finding claims about the table and the two lists. */
  ghost predicate Holds(f: Finding, circle: seq<string>, internals: seq<string>, table: Table) {
    match f
    case EmptyCircle => circle == []
    case EmptyInternal => internals == []
    case CircleWithoutRow(m) => m in circle && m !in table
    case CircleDeclaredOutside(m) => m in circle && m in table && table[m].row == OutsideCircle
    case InternalWithoutRow(m) => m in internals && m !in circle && m !in table
    case InternalDeclaredInside(m) => m in internals && m !in circle && m in table && table[m].row != OutsideCircle
    case RowWithoutMethod(m) => m in table && m !in internals && m !in circle
    case RowWithoutReason(m) => m in table && table[m].reason == ""
  }

  ghost predicate OfCircle(f: Finding) { f.CircleWithoutRow? || f.CircleDeclaredOutside? }
  ghost predicate OfInternals(f: Finding) { f.InternalWithoutRow? || f.InternalDeclaredInside? }
  ghost predicate OfRows(f: Finding) { f.RowWithoutMethod? || f.RowWithoutReason? }

  method CircleFindings(circle: seq<string>, internals: seq<string>, table: Table) returns (out: seq<Finding>)
    ensures forall f :: f in out <==> OfCircle(f) && Holds(f, circle, internals, table)
  {
    out := [];
    for i := 0 to |circle|
      invariant forall f :: f in out <==> OfCircle(f) && Holds(f, circle[..i], internals, table)
    {
      var m := circle[i];
      assert circle[..i + 1] == circle[..i] + [m];
      if m !in table {
        out := out + [CircleWithoutRow(m)];
      } else if table[m].row == OutsideCircle {
        out := out + [CircleDeclaredOutside(m)];
      }
    }
    assert circle[..|circle|] == circle;
  }

  method InternalFindings(circle: seq<string>, internals: seq<string>, table: Table) returns (out: seq<Finding>)
    ensures forall f :: f in out <==> OfInternals(f) && Holds(f, circle, internals, table)
  {
    out := [];
    for i := 0 to |internals|
      invariant forall f :: f in out <==> OfInternals(f) && Holds(f, circle, internals[..i], table)
    {
      var m := internals[i];
      assert internals[..i + 1] == internals[..i] + [m];
      if m in circle {
        continue;
      }
      if m !in table {
        out := out + [InternalWithoutRow(m)];
      } else if table[m].row != OutsideCircle {
        out := out + [InternalDeclaredInside(m)];
      }
    }
    assert internals[..|internals|] == internals;
  }

  method RowFindings(circle: seq<string>, internals: seq<string>, table: Table) returns (out: seq<Finding>)
    ensures forall f :: f in out <==> OfRows(f) && Holds(f, circle, internals, table)
  {
    out := [];
    var left := table.Keys;
    while left != {}
      invariant left <= table.Keys
      invariant forall f :: f in out <==> OfRows(f) && f.name !in left && Holds(f, circle, internals, table)
      decreases left
    {
      var m :| m in left;
      if m !in internals && m !in circle {
        out := out + [RowWithoutMethod(m)];
      }
      if table[m].reason == "" {
        out := out + [RowWithoutReason(m)];
      }
      left := left - {m};
    }
  }

  /** Everything wrong with the table, and nothing else. */
  method Findings(circle: seq<string>, internals: seq<string>, table: Table) returns (out: seq<Finding>)
    ensures forall f :: f in out <==> Holds(f, circle, internals, table)
  {
    out := [];
    if |circle| == 0 {
      out := out + [EmptyCircle];
    }
    if |internals| == 0 {
      out := out + [EmptyInternal];
    }
    var a := CircleFindings(circle, internals, table);
    var b := InternalFindings(circle, internals, table);
    var c := RowFindings(circle, internals, table);
    out := out + a + b + c;
  }

  /** The table is in order: closed over both lists, circle rows and only those inside, each with a reason. */
  ghost predicate Clean(circle: seq<string>, internals: seq<string>, table: Table) {
    && circle != [] && internals != []
    && (forall m :: m in table <==> m in circle || m in internals)
    && (forall m :: m in table ==> (table[m].row != OutsideCircle <==> m in circle))
    && (forall m :: m in table ==> table[m].reason != "")
  }

  /** No findings means exactly that the table is in order. */
  lemma NoFindingsExactly(circle: seq<string>, internals: seq<string>, table: Table)
    ensures (forall f :: !Holds(f, circle, internals, table)) <==> Clean(circle, internals, table)
  {
    if forall f :: !Holds(f, circle, internals, table) {
      assert !Holds(EmptyCircle, circle, internals, table) && !Holds(EmptyInternal, circle, internals, table);
      forall m ensures m in table <==> m in circle || m in internals {
        assert !Holds(CircleWithoutRow(m), circle, internals, table);
        assert !Holds(InternalWithoutRow(m), circle, internals, table);
        assert !Holds(RowWithoutMethod(m), circle, internals, table);
      }
      forall m | m in table ensures (table[m].row != OutsideCircle <==> m in circle) && table[m].reason != "" {
        assert !Holds(CircleDeclaredOutside(m), circle, internals, table);
        assert !Holds(InternalDeclaredInside(m), circle, internals, table);
        assert !Holds(RowWithoutMethod(m), circle, internals, table);
        assert !Holds(RowWithoutReason(m), circle, internals, table);
      }
    }
  }

  // ---------------------------------------------------------------------------------------
  // The gate
  // ---------------------------------------------------------------------------------------

  datatype Outcome = Proceed | RefusedUnverified | Unavailable

  /** The outcome of the gate, and whether it asked for any marks to find it. */
  datatype Judgement = Judgement(outcome: Outcome, consulted: bool)

  /**
    Judges one call: who calls, if anybody is known; the person the request is about, which only
    a unary request can name; and the reader of marks.
  */
  function Judge(table: Table, principal: Option<string>, fullMethod: string, target: Option<string>,
                 m: Option<Marks>): Judgement {
    if principal.None? || principal.value == "" then Judgement(Proceed, false)
    else if fullMethod in table && table[fullMethod].row == OutsideCircle then Judgement(Proceed, false)
    else if fullMethod in table && table[fullMethod].row == AllowsSelfRevoke && target == principal then
      Judgement(Proceed, false)
    else
      var consulted := m.Some? && Text.Trim(principal.value) != "";
      match ID(m, principal.value)
      case Err(_) => Judgement(Unavailable, consulted)
      case Ok(admitted) => Judgement(if admitted then Proceed else RefusedUnverified, consulted)
  }

  /**
    A table without findings makes the gate do what it is for. On every method of the circle an
    unverified person never gets past it, whatever the reader of marks does, except to revoke
    a credential of their own by a unary call to a row that allows it; on a method in neither list
    they never get past it at all; and on every other internal method the gate reads nothing and
    stops nobody.
  */
  lemma CleanTableGuards(circle: seq<string>, internals: seq<string>, table: Table, people: People,
                         id: string, fullMethod: string, target: Option<string>, m: Option<Marks>)
    requires forall f :: !Holds(f, circle, internals, table)
    requires Unverified(people, id) && (m.Some? ==> Reads(m.value, people))
    ensures fullMethod in circle ==>
              (Judge(table, Some(id), fullMethod, target, m).outcome == Proceed <==>
               fullMethod in table && table[fullMethod].row == AllowsSelfRevoke && target == Some(id))
    ensures fullMethod !in circle && fullMethod !in internals ==>
              Judge(table, Some(id), fullMethod, target, m).outcome != Proceed
    ensures Judge(table, Some(id), fullMethod, target, m).outcome == Unavailable ==>
              m.None? || m.value([Text.Trim(id)]).Err?
    ensures fullMethod in internals && fullMethod !in circle ==>
              Judge(table, Some(id), fullMethod, target, m) == Judgement(Proceed, false)
  {
    NoFindingsExactly(circle, internals, table);
    var trimmed := Text.Trim(id);
    if m.Some? && m.value([trimmed]).Ok? {
      assert m.value([trimmed]).value == Rows(people, [trimmed]);
      assert trimmed in [trimmed];
    }
  }

  /** The gate does not judge the call: nobody calls, the row is outside, or it lets one act on oneself. */
  ghost predicate NotJudged(table: Table, principal: Option<string>, fullMethod: string, target: Option<string>) {
    || principal.None? || principal == Some("")
    || (fullMethod in table && table[fullMethod].row == OutsideCircle)
    || (fullMethod in table && table[fullMethod].row == AllowsSelfRevoke && target == principal)
  }

  /**
    Every outcome of the gate. A call it does not judge proceeds and nothing is read. Otherwise the
    caller is refused exactly as an unverified person whose marks were read, turned away as
    unavailable exactly when marks are needed and cannot be read, and proceeds in every other case.
  */
  lemma JudgeExactly(table: Table, people: People, principal: Option<string>, fullMethod: string,
                     target: Option<string>, m: Option<Marks>)
    requires m.Some? ==> Reads(m.value, people)
    ensures var j := Judge(table, principal, fullMethod, target, m);
            if NotJudged(table, principal, fullMethod, target) then j == Judgement(Proceed, false)
            else
              var id := Text.Trim(principal.value);
              && (j.outcome == Unavailable <==> id != "" && (m.None? || m.value([id]).Err?))
              && (j.outcome == RefusedUnverified <==>
                  m.Some? && Unverified(people, principal.value) && m.value([id]).Ok?)
              && (j.consulted <==> id != "" && m.Some?)
  {
    if principal.Some? {
      var trimmed := Text.Trim(principal.value);
      if m.Some? && m.value([trimmed]).Ok? {
        assert m.value([trimmed]).value == Rows(people, [trimmed]);
        assert trimmed in [trimmed];
      }
    }
  }

  /** A verified person, or somebody who is no person at all, is never refused for the address. */
  lemma OthersAreNotRefused(table: Table, people: People, id: string, fullMethod: string, target: Option<string>,
                            m: Option<Marks>)
    requires !Unverified(people, id) && (m.Some? ==> Reads(m.value, people))
    ensures Judge(table, Some(id), fullMethod, target, m).outcome != RefusedUnverified
  {
    var trimmed := Text.Trim(id);
    if m.Some? && m.value([trimmed]).Ok? {
      assert m.value([trimmed]).value == Rows(people, [trimmed]);
    }
  }
}
