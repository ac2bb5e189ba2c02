/**
  The audiences of an issued token: chosen inside what the deployment declares, and inside what
  the key was issued for, which narrows but never widens.
*/
module Audience {
  import opened Outcomes

  datatype AudienceError = OutsideLanding | OutsideDeclared | NarrowingDisjoint | NoLanding

  datatype Scope = Scope(landing: seq<string>, default: string, declared: seq<string>)

  /** The declared audiences the deployment knows, first occurrences only, in order. */
  function Effective(landing: seq<string>, declared: seq<string>): seq<string> {
    if declared == [] then []
    else
      var init, a := Effective(landing, declared[..|declared| - 1]), declared[|declared| - 1];
      if a in landing && a !in init then init + [a] else init
  }

  /** The set to choose from and the audience for a request that names none. */
  function Bounds(s: Scope): Result<(seq<string>, string), AudienceError> {
    if s.landing == [] then Err(NoLanding)
    else if s.declared == [] then Ok((s.landing, s.default))
    else
      var effective := Effective(s.landing, s.declared);
      if effective == [] then Err(NarrowingDisjoint)
      else Ok((effective, if s.default in effective then s.default else effective[0]))
  }

  /** The first requested audience out of bounds decides the refusal. */
  function Judged(s: Scope, effective: seq<string>, requested: seq<string>): Option<AudienceError> {
    if requested == [] then None
    else if requested[0] !in s.landing then Some(OutsideLanding)
    else if requested[0] !in effective then Some(OutsideDeclared)
    else Judged(s, effective, requested[1..])
  }

  function Resolved(s: Scope, requested: seq<string>): Result<seq<string>, AudienceError> {
    match Bounds(s)
    case Err(e) => Err(e)
    case Ok((effective, fallback)) =>
      if requested == [] then Ok([fallback])
      else
        match Judged(s, effective, requested)
        case Some(e) => Err(e)
        case None => Ok(requested)
  }

  method FindBounds(s: Scope) returns (r: Result<(seq<string>, string), AudienceError>)
    ensures r == Bounds(s)
  {
    if |s.landing| == 0 {
      return Err(NoLanding);
    }
    if |s.declared| == 0 {
      return Ok((s.landing, s.default));
    }
    var effective := [];
    for i := 0 to |s.declared|
      invariant effective == Effective(s.landing, s.declared[..i])
    {
      assert s.declared[..i + 1][..i] == s.declared[..i];
      var a := s.declared[i];
      if a in s.landing && a !in effective {
        effective := effective + [a];
      }
    }
    assert s.declared[..|s.declared|] == s.declared;
    if |effective| == 0 {
      return Err(NarrowingDisjoint);
    }
    if s.default in effective {
      return Ok((effective, s.default));
    }
    r := Ok((effective, effective[0]));
  }

  method Resolve(s: Scope, requested: seq<string>) returns (r: Result<seq<string>, AudienceError>)
    ensures r == Resolved(s, requested)
  {
    var bounds := FindBounds(s);
    if bounds.Err? {
      return Err(bounds.error);
    }
    var (effective, fallback) := bounds.value;
    if |requested| == 0 {
      return Ok([fallback]);
    }
    for i := 0 to |requested|
      invariant Judged(s, effective, requested) == Judged(s, effective, requested[i..])
    {
      if requested[i] !in s.landing {
        return Err(OutsideLanding);
      }
      if requested[i] !in effective {
        return Err(OutsideDeclared);
      }
    }
    r := Ok(requested);
  }

  // ---------------------------------------------------------------------------------------
  // What a resolved audience promises
  // ---------------------------------------------------------------------------------------

  /** Inside the deployment's list, and inside the key's own when it declared one. */
  ghost predicate Within(s: Scope, a: string) {
    a in s.landing && (s.declared != [] ==> a in s.declared)
  }

  lemma {:induction false} EffectiveExactly(landing: seq<string>, declared: seq<string>)
    ensures forall a :: a in Effective(landing, declared) <==> a in landing && a in declared
    decreases |declared|
  {
    if declared != [] {
      EffectiveExactly(landing, declared[..|declared| - 1]);
      assert declared == declared[..|declared| - 1] + [declared[|declared| - 1]];
    }
  }

  lemma {:induction false} JudgedExactly(s: Scope, effective: seq<string>, requested: seq<string>)
    requires forall a :: a in effective ==> a in s.landing
    ensures Judged(s, effective, requested).None? <==> forall a :: a in requested ==> a in effective
    decreases |requested|
  {
    if requested != [] {
      JudgedExactly(s, effective, requested[1..]);
      assert requested == [requested[0]] + requested[1..];
    }
  }

  /** Is there anything this key could be given a token for. */
  ghost predicate Issuable(s: Scope) {
    exists a :: Within(s, a)
  }

  /** A request that names audiences is granted as it stands, exactly when every one is within both bounds. */
  lemma RequestGrantedExactly(s: Scope, requested: seq<string>)
    requires requested != []
    ensures Resolved(s, requested).Ok? <==> forall a :: a in requested ==> Within(s, a)
    ensures Resolved(s, requested).Ok? ==> Resolved(s, requested).value == requested
  {
    EffectiveExactly(s.landing, s.declared);
    var effective := if s.declared == [] then s.landing else Effective(s.landing, s.declared);
    JudgedExactly(s, effective, requested);
    assert requested[0] in requested;
  }

  /** Entry k of the request is the first that lies out of bounds. */
  ghost predicate FirstOutside(s: Scope, requested: seq<string>, k: nat) {
    k < |requested| && !Within(s, requested[k]) && forall j :: 0 <= j < k ==> Within(s, requested[j])
  }

  lemma {:induction false} JudgedAt(s: Scope, effective: seq<string>, requested: seq<string>, k: nat)
    requires forall a :: a in effective <==> Within(s, a)
    requires FirstOutside(s, requested, k)
    ensures Judged(s, effective, requested) ==
            Some(if requested[k] in s.landing then OutsideDeclared else OutsideLanding)
    decreases |requested|
  {
    if k > 0 {
      assert Within(s, requested[0]) && requested[0] in effective;
      assert forall j :: 0 <= j < k - 1 ==> requested[1..][j] == requested[j + 1];
      JudgedAt(s, effective, requested[1..], k - 1);
    }
  }

  /**
    Why a request is refused: no list of the deployment, a key's list that shares nothing with it,
    or the first entry out of bounds, told apart by whether the deployment knows it.
  */
  lemma RefusedBecause(s: Scope, requested: seq<string>, k: nat)
    ensures s.landing == [] ==> Resolved(s, requested) == Err(NoLanding)
    ensures s.landing != [] && !Issuable(s) ==> Resolved(s, requested) == Err(NarrowingDisjoint)
    ensures Issuable(s) && FirstOutside(s, requested, k) ==>
              Resolved(s, requested) == Err(if requested[k] in s.landing then OutsideDeclared else OutsideLanding)
  {
    EffectiveExactly(s.landing, s.declared);
    var effective := if s.declared == [] then s.landing else Effective(s.landing, s.declared);
    if s.landing != [] {
      assert Within(s, s.landing[0]) || s.declared != [];
      if effective != [] {
        assert effective[0] in effective;
        assert Within(s, effective[0]);
      }
    }
    if Issuable(s) && FirstOutside(s, requested, k) {
      var a :| Within(s, a);
      assert a in effective;
      JudgedAt(s, effective, requested, k);
    }
  }

  /** The first audience of the key's list that the deployment knows. */
  ghost predicate FirstDeclared(s: Scope, a: string) {
    exists i :: 0 <= i < |s.declared| && s.declared[i] == a && a in s.landing &&
                forall j :: 0 <= j < i ==> s.declared[j] !in s.landing
  }

  lemma {:induction false} EffectiveFirst(s: Scope, n: nat)
    requires n <= |s.declared| && Effective(s.landing, s.declared[..n]) != []
    ensures FirstDeclared(s, Effective(s.landing, s.declared[..n])[0])
    decreases n
  {
    var d := s.declared[..n];
    assert d[..n - 1] == s.declared[..n - 1];
    EffectiveExactly(s.landing, s.declared[..n - 1]);
    if Effective(s.landing, s.declared[..n - 1]) != [] {
      EffectiveFirst(s, n - 1);
    } else {
      forall j | 0 <= j < n - 1 ensures s.declared[j] !in s.landing {
        assert s.declared[..n - 1][j] == s.declared[j];
        assert s.declared[j] !in Effective(s.landing, s.declared[..n - 1]);
      }
      assert s.declared[n - 1] == Effective(s.landing, d)[0];
    }
  }

  /** The default is issued only where the deployment knows it: it matters for a bare request without narrowing. */
  ghost predicate DefaultInPlace(s: Scope, requested: seq<string>) {
    requested == [] && s.declared == [] ==> s.default in s.landing
  }

  /**
    A request that names none is refused exactly when nothing lies within both bounds. Otherwise
    it gets one audience: the deployment's default when nothing narrows it or the key's list
    admits it, else the first of the key's list the deployment knows. What it gets lies within
    both bounds exactly when the default is in place.
  */
  lemma FallbackExactly(s: Scope)
    ensures Resolved(s, []).Ok? <==> Issuable(s)
    ensures Resolved(s, []).Ok? ==>
              && |Resolved(s, []).value| == 1
              && (if s.declared == [] || Within(s, s.default) then Resolved(s, []).value[0] == s.default
                  else FirstDeclared(s, Resolved(s, []).value[0]))
              && (Within(s, Resolved(s, []).value[0]) <==> DefaultInPlace(s, []))
  {
    EffectiveExactly(s.landing, s.declared);
    if s.landing != [] && s.declared == [] {
      assert Within(s, s.landing[0]);
    }
    if s.landing != [] && s.declared != [] {
      var effective := Effective(s.landing, s.declared);
      if effective == [] {
        forall a ensures !Within(s, a) { assert a !in effective; }
      } else {
        assert effective[0] in effective && Within(s, effective[0]);
        assert s.declared[..|s.declared|] == s.declared;
        EffectiveFirst(s, |s.declared|);
      }
    }
  }

  /**
    Whatever is issued is non-empty; it is within both bounds, and asking for it again gives it
    again, exactly when the default is in place.
  */
  lemma IssuedWithinAndStable(s: Scope, requested: seq<string>)
    requires Resolved(s, requested).Ok?
    ensures var issued := Resolved(s, requested).value;
            && issued != []
            && ((forall a :: a in issued ==> Within(s, a)) <==> DefaultInPlace(s, requested))
            && (Resolved(s, issued) == Ok(issued) <==> DefaultInPlace(s, requested))
  {
    var issued := Resolved(s, requested).value;
    if requested == [] {
      FallbackExactly(s);
      assert issued == [issued[0]] && issued[0] in issued;
      RequestGrantedExactly(s, issued);
    } else {
      RequestGrantedExactly(s, requested);
    }
  }

  /** A key's own list never opens what the deployment alone refuses. */
  lemma NarrowingNeverWidens(s: Scope, requested: seq<string>)
    requires requested != [] && Resolved(s, requested).Ok?
    ensures Resolved(s.(declared := []), requested) == Resolved(s, requested)
  {
    RequestGrantedExactly(s, requested);
    RequestGrantedExactly(s.(declared := []), requested);
  }

  /** The default must lie in the deployment's list: outside it, a bare request is answered out of bounds. */
  lemma StrayDefaultIsIssued(s: Scope)
    requires s.landing != [] && s.declared == []
    ensures Resolved(s, []).Ok?
    ensures (forall a :: a in Resolved(s, []).value ==> Within(s, a)) <==> s.default in s.landing
  {
    assert Resolved(s, []).value == [s.default] && s.default in [s.default];
  }
}
