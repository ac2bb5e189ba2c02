/**
  The assurance level of a session: the highest row of the rule whose condition the presented
  credentials meet, and the levels a given choice of sign-in methods can or must reach.
*/
module Assurance {
  import opened Outcomes

  /** The closed vocabulary of methods; Nameless is the zero value, which is no method. */
  datatype Method = Password | Totp | LookupSecret | WebAuthn | RecoveryCode | Nameless

  const METHODS := [Password, Totp, LookupSecret, WebAuthn, RecoveryCode]

  /** One successful presentation; the flags mean something for a key only. */
  datatype Presentation = Presentation(means: Method, userVerified: bool, backupEligible: bool)

  type Level = n: nat | 1 <= n <= 3 witness 1

  // ---------------------------------------------------------------------------------------
  // The rule
  // ---------------------------------------------------------------------------------------

  predicate Has(ps: seq<Presentation>, m: Method) {
    exists i :: 0 <= i < |ps| && ps[i].means == m
  }

  predicate DeviceBound(p: Presentation) {
    p.means == WebAuthn && p.userVerified && !p.backupEligible
  }

  predicate HasDeviceBoundVerifiedKey(ps: seq<Presentation>) {
    exists i :: 0 <= i < |ps| && DeviceBound(ps[i])
  }

  datatype Row = Row(level: Level, holds: seq<Presentation> -> bool)

  /** The rule as data, highest level first. */
  function Rows(): seq<Row> {
    [Row(3, ps => HasDeviceBoundVerifiedKey(ps)),
     Row(2, ps => Has(ps, WebAuthn)),
     Row(2, ps => Has(ps, Password) && (Has(ps, Totp) || Has(ps, LookupSecret))),
     Row(1, ps => Has(ps, Password)),
     Row(1, ps => Has(ps, RecoveryCode))]
  }

  /** The level of the first row that holds. */
  function FirstRow(table: seq<Row>, ps: seq<Presentation>): Option<Level> {
    if table == [] then None
    else if table[0].holds(ps) then Some(table[0].level)
    else FirstRow(table[1..], ps)
  }

  method LevelOf(table: seq<Row>, ps: seq<Presentation>) returns (level: Option<Level>)
    ensures level == FirstRow(table, ps)
  {
    for i := 0 to |table|
      invariant FirstRow(table, ps) == FirstRow(table[i..], ps)
    {
      if table[i].holds(ps) {
        return Some(table[i].level);
      }
    }
    level := None;
  }

  ghost predicate Descending(table: seq<Row>) {
    forall i, j :: 0 <= i < j < |table| ==> table[i].level >= table[j].level
  }

  /** In a table sorted downwards the first row that holds is a highest one. */
  lemma {:induction false} FirstIsHighest(table: seq<Row>, ps: seq<Presentation>, i: nat)
    requires Descending(table) && i < |table| && table[i].holds(ps)
    ensures FirstRow(table, ps).Some? && FirstRow(table, ps).value >= table[i].level
    decreases |table|
  {
    if !table[0].holds(ps) {
      FirstIsHighest(table[1..], ps, i - 1);
    }
  }

  /** The table runs downwards, so the level is that of the highest condition met, and none if none is. */
  lemma LevelIsHighest(ps: seq<Presentation>)
    ensures forall i :: 0 <= i < |Rows()| && Rows()[i].holds(ps) ==>
              FirstRow(Rows(), ps).Some? && FirstRow(Rows(), ps).value >= Rows()[i].level
    ensures FirstRow(Rows(), ps).Some? ==>
              exists i :: 0 <= i < |Rows()| && Rows()[i].holds(ps) && FirstRow(Rows(), ps).value == Rows()[i].level
  {
    assert Descending(Rows());
    forall i | 0 <= i < |Rows()| && Rows()[i].holds(ps)
      ensures FirstRow(Rows(), ps).Some? && FirstRow(Rows(), ps).value >= Rows()[i].level
    {
      FirstIsHighest(Rows(), ps, i);
    }
    if FirstRow(Rows(), ps).Some? {
      FirstIsARow(Rows(), ps);
    }
  }

  lemma {:induction false} FirstIsARow(table: seq<Row>, ps: seq<Presentation>)
    requires FirstRow(table, ps).Some?
    ensures exists i :: 0 <= i < |table| && table[i].holds(ps) && FirstRow(table, ps).value == table[i].level
    decreases |table|
  {
    if !table[0].holds(ps) {
      FirstIsARow(table[1..], ps);
      var rest := table[1..];
      var i :| 0 <= i < |rest| && rest[i].holds(ps) && FirstRow(rest, ps).value == rest[i].level;
      assert table[i + 1] == rest[i];
    }
  }

  /** The rule in words, over the set of what was presented. */
  ghost function Rule(s: set<Presentation>): Option<Level> {
    if Presentation(WebAuthn, true, false) in s then Some(3)
    else if Includes(s, WebAuthn) then Some(2)
    else if Includes(s, Password) && (Includes(s, Totp) || Includes(s, LookupSecret)) then Some(2)
    else if Includes(s, Password) || Includes(s, RecoveryCode) then Some(1)
    else None
  }

  ghost predicate Includes(s: set<Presentation>, m: Method) {
    exists p :: p in s && p.means == m
  }

  ghost function Presented(ps: seq<Presentation>): set<Presentation> {
    set p | p in ps
  }

  lemma HasIsIncludes(ps: seq<Presentation>, m: Method)
    ensures Has(ps, m) <==> Includes(Presented(ps), m)
  {
    if Has(ps, m) {
      var i :| 0 <= i < |ps| && ps[i].means == m;
      assert ps[i] in Presented(ps);
    }
    if Includes(Presented(ps), m) {
      var p :| p in Presented(ps) && p.means == m;
      var i :| 0 <= i < |ps| && ps[i] == p;
    }
  }

  /** The table computes the rule: order and repetition of presentations do not matter. */
  lemma TableIsRule(ps: seq<Presentation>)
    ensures FirstRow(Rows(), ps) == Rule(Presented(ps))
  {
    HasIsIncludes(ps, WebAuthn);
    HasIsIncludes(ps, Password);
    HasIsIncludes(ps, Totp);
    HasIsIncludes(ps, LookupSecret);
    HasIsIncludes(ps, RecoveryCode);
    assert HasDeviceBoundVerifiedKey(ps) <==> exists p :: p in Presented(ps) && DeviceBound(p) by {
      if HasDeviceBoundVerifiedKey(ps) {
        var i :| 0 <= i < |ps| && DeviceBound(ps[i]);
        assert ps[i] in Presented(ps);
      }
    }
    FiveRows(Rows(), ps);
  }

  lemma FiveRows(t: seq<Row>, ps: seq<Presentation>)
    requires |t| == 5
    ensures FirstRow(t, ps) ==
            if t[0].holds(ps) then Some(t[0].level) else if t[1].holds(ps) then Some(t[1].level)
            else if t[2].holds(ps) then Some(t[2].level) else if t[3].holds(ps) then Some(t[3].level)
            else if t[4].holds(ps) then Some(t[4].level) else None
  {
    var t1 := t[1..];
    var t2 := t1[1..];
    var t3 := t2[1..];
    var t4 := t3[1..];
    assert t1[0] == t[1] && t2[0] == t[2] && t3[0] == t[3] && t4[0] == t[4] && t4[1..] == [];
    assert FirstRow(t4, ps) == if t[4].holds(ps) then Some(t[4].level) else None;
    assert FirstRow(t3, ps) == if t[3].holds(ps) then Some(t[3].level) else FirstRow(t4, ps);
    assert FirstRow(t2, ps) == if t[2].holds(ps) then Some(t[2].level) else FirstRow(t3, ps);
  }

  function Rank(l: Option<Level>): nat { if l.None? then 0 else l.value }

  /** Everything presented in a is matched in b by the same method with at least as strong flags. */
  ghost predicate Outdone(a: set<Presentation>, b: set<Presentation>) {
    forall p :: p in a && p.means != Nameless ==>
      exists q :: q in b && q.means == p.means && (DeviceBound(p) ==> DeviceBound(q))
  }

  /** What is outdone reaches no higher level. */
  lemma OutdoneIsLower(a: set<Presentation>, b: set<Presentation>)
    requires Outdone(a, b)
    ensures Rank(Rule(a)) <= Rank(Rule(b))
  {
    forall m | m != Nameless && Includes(a, m) ensures Includes(b, m) {
      var p :| p in a && p.means == m;
      var q :| q in b && q.means == p.means && (DeviceBound(p) ==> DeviceBound(q));
    }
  }

  /** A further presentation never lowers the level. */
  lemma LevelNeverDrops(ps: seq<Presentation>, more: seq<Presentation>)
    requires forall p :: p in ps ==> p in more
    ensures Rank(FirstRow(Rows(), ps)) <= Rank(FirstRow(Rows(), more))
  {
    TableIsRule(ps);
    TableIsRule(more);
    OutdoneIsLower(Presented(ps), Presented(more));
  }

  // ---------------------------------------------------------------------------------------
  // Masks and subsets
  // ---------------------------------------------------------------------------------------

  function Pow2(n: nat): nat { if n == 0 then 1 else 2 * Pow2(n - 1) }

  /** Is bit i of the mask set. */
  predicate Bit(mask: nat, i: nat) {
    if i == 0 then mask % 2 == 1 else Bit(mask / 2, i - 1)
  }

  /** The methods a mask selects, lowest bit first. */
  function Select(known: seq<Method>, mask: nat, present: Method -> Presentation): seq<Presentation> {
    if known == [] then []
    else (if mask % 2 == 1 then [present(known[0])] else []) + Select(known[1..], mask / 2, present)
  }

  ghost function Chosen(known: seq<Method>, mask: nat): set<Method> {
    if known == [] then {}
    else (if mask % 2 == 1 then {known[0]} else {}) + Chosen(known[1..], mask / 2)
  }

  ghost function PresentAll(s: set<Method>, present: Method -> Presentation): set<Presentation> {
    set m | m in s :: present(m)
  }

  method Assemble(known: seq<Method>, mask: nat, present: Method -> Presentation) returns (ps: seq<Presentation>)
    ensures ps == Select(known, mask, present)
  {
    ps := [];
    ghost var left := mask;
    for i := 0 to |known|
      invariant Select(known, mask, present) == ps + Select(known[i..], left, present)
      invariant forall j: nat :: Bit(mask, i + j) <==> Bit(left, j)
    {
      assert Bit(mask, i + 0) <==> Bit(left, 0);
      assert known[i..][0] == known[i] && known[i..][1..] == known[i + 1..];
      if Bit(mask, i) {
        ps := ps + [present(known[i])];
      }
      forall j: nat ensures Bit(mask, i + 1 + j) <==> Bit(left / 2, j) {
        assert Bit(mask, i + (j + 1)) <==> Bit(left, j + 1);
      }
      left := left / 2;
    }
  }

  lemma {:induction false} SelectIsChosen(known: seq<Method>, mask: nat, present: Method -> Presentation)
    ensures Presented(Select(known, mask, present)) == PresentAll(Chosen(known, mask), present)
    decreases |known|
  {
    if known != [] {
      var rest := Select(known[1..], mask / 2, present);
      SelectIsChosen(known[1..], mask / 2, present);
      var a, b := Presented(Select(known, mask, present)), PresentAll(Chosen(known, mask), present);
      forall p ensures p in a <==> p in b {
        assert p in Select(known, mask, present) <==> (mask % 2 == 1 && p == present(known[0])) || p in rest;
        assert p in rest <==> p in Presented(rest);
        if p in Presented(rest) {
          var m :| m in Chosen(known[1..], mask / 2) && p == present(m);
          assert m in Chosen(known, mask);
        }
        if mask % 2 == 1 { assert known[0] in Chosen(known, mask); }
      }
    }
  }

  lemma {:induction false} ChosenIsSubset(known: seq<Method>, mask: nat)
    requires mask < Pow2(|known|)
    ensures forall m :: m in Chosen(known, mask) ==> m in known
    ensures mask > 0 ==> Chosen(known, mask) != {}
    decreases |known|
  {
    if known != [] {
      ChosenIsSubset(known[1..], mask / 2);
      if mask % 2 == 1 { assert known[0] in Chosen(known, mask); }
    }
  }

  /** Every subset of the methods is selected by a mask in range; a non-empty one by a positive mask. */
  lemma {:induction false} EverySubsetHasAMask(known: seq<Method>, s: set<Method>) returns (mask: nat)
    requires forall m :: m in s ==> m in known
    ensures mask < Pow2(|known|) && Chosen(known, mask) == s
    ensures s != {} ==> mask > 0
    decreases |known|
  {
    if known == [] {
      mask := 0;
    } else {
      var rest := EverySubsetHasAMask(known[1..], set m | m in s && m in known[1..]);
      mask := 2 * rest + if known[0] in s then 1 else 0;
      assert mask / 2 == rest && (mask % 2 == 1 <==> known[0] in s);
      assert known == [known[0]] + known[1..];
      if mask == 0 {
        assert Chosen(known, mask) == s;
        NoBitsNoMethods(known);
      }
    }
  }

  lemma {:induction false} NoBitsNoMethods(known: seq<Method>)
    ensures Chosen(known, 0) == {}
    decreases |known|
  {
    if known != [] {
      NoBitsNoMethods(known[1..]);
    }
  }

  // ---------------------------------------------------------------------------------------
  // Levels over the wired methods
  // ---------------------------------------------------------------------------------------

  /** The level is reached by some non-empty choice of the methods, each presented as told. */
  ghost predicate Reached(level: Level, known: seq<Method>, present: Method -> Presentation) {
    exists s: set<Method> :: ReachedBy(level, s, known, present)
  }

  ghost predicate ChosenFrom(s: set<Method>, methods: seq<Method>) {
    s != {} && forall m :: m in s ==> m in methods
  }

  ghost predicate ReachedBy(level: Level, s: set<Method>, known: seq<Method>, present: Method -> Presentation) {
    ChosenFrom(s, known) && Rule(PresentAll(s, present)) == Some(level)
  }

  ghost predicate ReachedBelow(level: Level, known: seq<Method>, present: Method -> Presentation, bound: nat) {
    exists mask: nat :: 1 <= mask < bound && FirstRow(Rows(), Select(known, mask, present)) == Some(level)
  }

  ghost predicate Ascending(levels: seq<Level>) {
    forall i, j :: 0 <= i < j < |levels| ==> levels[i] < levels[j]
  }

  method KnownMethods(wired: seq<Method>) returns (known: seq<Method>)
    ensures forall m :: m in known <==> m in wired && m != Nameless
  {
    known := [];
    for i := 0 to |METHODS|
      invariant forall m :: m in known <==> m in wired && m in METHODS[..i]
    {
      assert METHODS[..i + 1] == METHODS[..i] + [METHODS[i]];
      if METHODS[i] in wired {
        known := known + [METHODS[i]];
      }
    }
    assert METHODS[..|METHODS|] == METHODS;
    assert forall m :: m in METHODS <==> m != Nameless by {
      assert METHODS[0] == Password && METHODS[1] == Totp && METHODS[2] == LookupSecret;
      assert METHODS[3] == WebAuthn && METHODS[4] == RecoveryCode;
    }
  }

  method SortedLevels(seen: set<Level>) returns (out: seq<Level>)
    ensures Ascending(out) && forall l :: l in out <==> l in seen
  {
    out := [];
    for l := 1 to 4
      invariant Ascending(out)
      invariant forall k :: k in out <==> k in seen && k < l
    {
      assert forall i :: 0 <= i < |out| ==> out[i] in out;
      if l in seen {
        out := out + [l];
      }
    }
  }

  /** One mask more. */
  lemma ReachedOneMore(level: Level, known: seq<Method>, present: Method -> Presentation, bound: nat)
    requires bound >= 1
    ensures ReachedBelow(level, known, present, bound + 1) <==>
            ReachedBelow(level, known, present, bound) || FirstRow(Rows(), Select(known, bound, present)) == Some(level)
  {
    if ReachedBelow(level, known, present, bound + 1) {
      var mask: nat :| 1 <= mask < bound + 1 && FirstRow(Rows(), Select(known, mask, present)) == Some(level);
      assert mask < bound || mask == bound;
    }
    if ReachedBelow(level, known, present, bound) {
      var mask: nat :| 1 <= mask < bound && FirstRow(Rows(), Select(known, mask, present)) == Some(level);
      assert 1 <= mask < bound + 1;
    }
  }

  lemma MasksReachExactly(level: Level, known: seq<Method>, present: Method -> Presentation)
    ensures ReachedBelow(level, known, present, Pow2(|known|)) <==> Reached(level, known, present)
  {
    if ReachedBelow(level, known, present, Pow2(|known|)) {
      var mask: nat :| 1 <= mask < Pow2(|known|) && FirstRow(Rows(), Select(known, mask, present)) == Some(level);
      SelectIsChosen(known, mask, present);
      ChosenIsSubset(known, mask);
      TableIsRule(Select(known, mask, present));
      assert ReachedBy(level, Chosen(known, mask), known, present);
    }
    if Reached(level, known, present) {
      var s: set<Method> :| ReachedBy(level, s, known, present);
      var mask := EverySubsetHasAMask(known, s);
      SelectIsChosen(known, mask, present);
      TableIsRule(Select(known, mask, present));
      assert 1 <= mask < Pow2(|known|) && FirstRow(Rows(), Select(known, mask, present)) == Some(level);
    }
  }

  /** The levels of all non-empty choices of the wired methods, strictly ascending. */
  method LevelsOver(wired: seq<Method>, present: Method -> Presentation) returns (out: seq<Level>, known: seq<Method>)
    ensures forall m :: m in known <==> m in wired && m != Nameless
    ensures Ascending(out)
    ensures forall l :: l in out <==> Reached(l, known, present)
  {
    known := KnownMethods(wired);
    var seen: set<Level> := {};
    var mask: nat := 1;
    PowPositive(|known|);
    while mask < Pow2(|known|)
      invariant 1 <= mask <= Pow2(|known|)
      invariant forall l :: l in seen <==> ReachedBelow(l, known, present, mask)
    {
      var ps := Assemble(known, mask, present);
      var level := LevelOf(Rows(), ps);
      forall l: Level ensures ReachedBelow(l, known, present, mask + 1) <==>
                              ReachedBelow(l, known, present, mask) || level == Some(l) {
        ReachedOneMore(l, known, present, mask);
      }
      if level.Some? {
        seen := seen + {level.value};
      }
      mask := mask + 1;
    }
    out := SortedLevels(seen);
    forall l: Level ensures l in out <==> Reached(l, known, present) {
      MasksReachExactly(l, known, present);
    }
  }

  lemma PowPositive(n: nat)
    ensures Pow2(n) >= 1
  {}

  function BestPresentation(m: Method): Presentation {
    if m == WebAuthn then Presentation(m, true, false) else Presentation(m, false, false)
  }

  function WorstPresentation(m: Method): Presentation {
    if m == WebAuthn then Presentation(m, false, true) else Presentation(m, false, false)
  }

  /** A key may report any flags: one presentation per method, whatever it says. */
  ghost predicate Faithful(present: Method -> Presentation) {
    forall m :: present(m).means == m
  }

  /** A name outside the vocabulary among the wired ones reaches nothing of its own. */
  lemma NamelessAddsNothing(level: Level, wired: seq<Method>, known: seq<Method>, present: Method -> Presentation)
    requires Faithful(present) && forall m :: m in known <==> m in wired && m != Nameless
    ensures Reached(level, wired, present) <==> Reached(level, known, present)
  {
    if Reached(level, known, present) {
      var s: set<Method> :| ReachedBy(level, s, known, present);
      assert ReachedBy(level, s, wired, present);
    }
    if Reached(level, wired, present) {
      var s: set<Method> :| ReachedBy(level, s, wired, present);
      var named := s - {Nameless};
      var a, b := PresentAll(s, present), PresentAll(named, present);
      forall p | p in a && p.means != Nameless ensures p in b {
        assert p.means in named;
      }
      assert Outdone(a, b) && Outdone(b, a);
      OutdoneIsLower(a, b);
      OutdoneIsLower(b, a);
      assert named == {} ==> b == {};
      assert ReachedBy(level, named, known, present);
    }
  }

  /** A session in which only these methods were presented. */
  ghost predicate SessionOf(ps: seq<Presentation>, wired: seq<Method>) {
    forall p :: p in ps ==> p.means in wired
  }

  ghost predicate BoundedBy(level: Level, out: seq<Level>) {
    exists l :: l in out && level <= l
  }

  /** What these methods can reach: no session that uses them gets higher than the top of the list. */
  method PresentableLevels(wired: seq<Method>) returns (out: seq<Level>)
    ensures Ascending(out)
    ensures forall l :: l in out <==> Reached(l, wired, BestPresentation)
    ensures forall l :: l in out ==> exists ps :: SessionOf(ps, wired) && FirstRow(Rows(), ps) == Some(l)
    ensures forall ps, l :: SessionOf(ps, wired) && FirstRow(Rows(), ps) == Some(l) ==> BoundedBy(l, out)
  {
    var known;
    out, known := LevelsOver(wired, BestPresentation);
    forall l: Level ensures l in out <==> Reached(l, wired, BestPresentation) {
      NamelessAddsNothing(l, wired, known, BestPresentation);
    }
    forall l | l in out ensures exists ps :: SessionOf(ps, wired) && FirstRow(Rows(), ps) == Some(l) {
      var s: set<Method> :| ReachedBy(l, s, known, BestPresentation);
      var mask := EverySubsetHasAMask(known, s);
      var ps := Select(known, mask, BestPresentation);
      SelectIsChosen(known, mask, BestPresentation);
      TableIsRule(ps);
      forall p | p in ps ensures p.means in wired {
        assert p in Presented(ps);
      }
      assert SessionOf(ps, wired);
    }
    forall ps, l | SessionOf(ps, wired) && FirstRow(Rows(), ps) == Some(l) ensures BoundedBy(l, out) {
      SessionIsOutdone(ps, l, known, out);
    }
  }

  lemma SessionIsOutdone(ps: seq<Presentation>, level: Level, known: seq<Method>, out: seq<Level>)
    requires forall p :: p in ps && p.means != Nameless ==> p.means in known
    requires forall l :: l in out <==> Reached(l, known, BestPresentation)
    requires FirstRow(Rows(), ps) == Some(level)
    ensures BoundedBy(level, out)
  {
    TableIsRule(ps);
    var a := Presented(ps);
    var s := set p | p in ps && p.means != Nameless :: p.means;
    var b := PresentAll(s, BestPresentation);
    forall p | p in a && p.means != Nameless
      ensures exists q :: q in b && q.means == p.means && (DeviceBound(p) ==> DeviceBound(q))
    {
      assert p.means in s && BestPresentation(p.means) in b;
    }
    OutdoneIsLower(a, b);
    assert s == {} ==> b == {};
    forall m | m in s ensures m in known {
      var p :| p in ps && p.means != Nameless && p.means == m;
    }
    assert ReachedBy(Rule(b).value, s, known, BestPresentation);
    assert Rule(b).value in out && level <= Rule(b).value;
  }

  ghost predicate ReachesWhatever(level: Level, s: set<Method>) {
    forall present :: Faithful(present) ==> Rank(Rule(PresentAll(s, present))) >= level
  }

  /**
    What these methods are sure to reach, whatever a key says of itself: each level listed has a
    choice of methods reaching it under all flags, and no choice is sure to reach more.
  */
  method GuaranteedLevels(enrolled: seq<Method>) returns (out: seq<Level>)
    ensures Ascending(out)
    ensures forall l :: l in out <==> Reached(l, enrolled, WorstPresentation)
    ensures forall l :: l in out ==> exists s: set<Method> :: ChosenFrom(s, enrolled) && ReachesWhatever(l, s)
    ensures forall l: Level, s: set<Method> :: ChosenFrom(s, enrolled) && ReachesWhatever(l, s) ==> BoundedBy(l, out)
  {
    var known;
    out, known := LevelsOver(enrolled, WorstPresentation);
    forall l: Level ensures l in out <==> Reached(l, enrolled, WorstPresentation) {
      NamelessAddsNothing(l, enrolled, known, WorstPresentation);
    }
    forall l | l in out ensures exists s: set<Method> :: ChosenFrom(s, enrolled) && ReachesWhatever(l, s) {
      var s: set<Method> :| ReachedBy(l, s, enrolled, WorstPresentation);
      forall present: Method -> Presentation | Faithful(present) ensures Rank(Rule(PresentAll(s, present))) >= l {
        WorstIsOutdone(s, present);
      }
      assert ChosenFrom(s, enrolled) && ReachesWhatever(l, s);
    }
    forall l: Level, s: set<Method> | ChosenFrom(s, enrolled) && ReachesWhatever(l, s) ensures BoundedBy(l, out) {
      assert Faithful(WorstPresentation);
      var sure := Rule(PresentAll(s, WorstPresentation));
      assert ReachedBy(sure.value, s, enrolled, WorstPresentation);
      assert sure.value in out && l <= sure.value;
    }
  }

  lemma WorstIsOutdone(s: set<Method>, present: Method -> Presentation)
    requires Faithful(present)
    ensures Rank(Rule(PresentAll(s, WorstPresentation))) <= Rank(Rule(PresentAll(s, present)))
  {
    var a, b := PresentAll(s, WorstPresentation), PresentAll(s, present);
    forall p | p in a && p.means != Nameless
      ensures exists q :: q in b && q.means == p.means && (DeviceBound(p) ==> DeviceBound(q))
    {
      assert present(p.means) in b;
    }
    OutdoneIsLower(a, b);
  }
}
