/**
  Supervision of a startup task: a failure is swallowed only as the task's own orderly
  cancellation, anything else starts the shutdown.
*/
module StartupTask {
  import opened Outcomes

  /** An error and what it wraps: one cause, or several, some of them nil. */
  datatype ErrTree =
    | Canceled
    | Plain(text: string)
    | Wrapped(cause: Option<ErrTree>)
    | Joined(causes: seq<Option<ErrTree>>)

  /** The errors at the bottom of the tree; a wrapper with nothing inside is at the bottom itself. */
  ghost function Leaves(e: ErrTree): set<ErrTree>
    decreases e
  {
    match e
    case Canceled => {e}
    case Plain(_) => {e}
    case Wrapped(None) => {e}
    case Wrapped(Some(cause)) => Leaves(cause)
    case Joined(causes) =>
      if forall i :: 0 <= i < |causes| ==> causes[i].None? then {e}
      else set i, leaf | 0 <= i < |causes| && causes[i].Some? && leaf in Leaves(causes[i].value) :: leaf
  }

  ghost predicate OnlyCanceled(e: ErrTree) {
    forall leaf :: leaf in Leaves(e) ==> leaf == Canceled
  }

  /** What is an orderly cancellation, form by form: a wrapper around nothing is none. */
  lemma CancellationRules(e: ErrTree)
    ensures match e
            case Canceled => OnlyCanceled(e)
            case Plain(_) => !OnlyCanceled(e)
            case Wrapped(None) => !OnlyCanceled(e)
            case Wrapped(Some(cause)) => OnlyCanceled(e) <==> OnlyCanceled(cause)
            case Joined(causes) =>
              OnlyCanceled(e) <==>
              && (exists i :: 0 <= i < |causes| && causes[i].Some?)
              && forall i :: 0 <= i < |causes| && causes[i].Some? ==> OnlyCanceled(causes[i].value)
  {
    match e
    case Canceled =>
    case Plain(_) => assert e in Leaves(e);
    case Wrapped(None) => assert e in Leaves(e);
    case Wrapped(Some(cause)) => assert Leaves(e) == Leaves(cause);
    case Joined(causes) =>
      if forall i :: 0 <= i < |causes| ==> causes[i].None? {
        assert e in Leaves(e);
      } else {
        JoinedLeaves(e);
      }
  }

  lemma JoinedLeaves(e: ErrTree)
    requires e.Joined? && exists i :: 0 <= i < |e.causes| && e.causes[i].Some?
    ensures OnlyCanceled(e) <==>
            forall i :: 0 <= i < |e.causes| && e.causes[i].Some? ==> OnlyCanceled(e.causes[i].value)
  {
    if OnlyCanceled(e) {
      forall i | 0 <= i < |e.causes| && e.causes[i].Some? ensures OnlyCanceled(e.causes[i].value) {
        assert forall leaf :: leaf in Leaves(e.causes[i].value) ==> leaf in Leaves(e);
      }
    } else {
      var leaf :| leaf in Leaves(e) && leaf != Canceled;
      var i :| 0 <= i < |e.causes| && e.causes[i].Some? && leaf in Leaves(e.causes[i].value);
      assert !OnlyCanceled(e.causes[i].value);
    }
  }

  method OnlyStartupCancellation(e: ErrTree) returns (only: bool)
    ensures only <==> OnlyCanceled(e)
    decreases e
  {
    match e
    case Canceled => return true;
    case Plain(_) => assert e in Leaves(e); return false;
    case Wrapped(None) => assert e in Leaves(e); return false;
    case Wrapped(Some(cause)) =>
      only := OnlyStartupCancellation(cause);
      assert Leaves(e) == Leaves(cause);
    case Joined(causes) =>
      var seen := false;
      for i := 0 to |causes|
        invariant seen <==> exists j :: 0 <= j < i && causes[j].Some?
        invariant forall j :: 0 <= j < i && causes[j].Some? ==> OnlyCanceled(causes[j].value)
      {
        if causes[i].None? {
          continue;
        }
        var inner := OnlyStartupCancellation(causes[i].value);
        if !inner {
          ghost var leaf :| leaf in Leaves(causes[i].value) && leaf != Canceled;
          assert leaf in Leaves(e);
          return false;
        }
        seen := true;
      }
      if !seen {
        assert e in Leaves(e);
      } else {
        forall leaf | leaf in Leaves(e) ensures leaf == Canceled {
          var i :| 0 <= i < |causes| && causes[i].Some? && leaf in Leaves(causes[i].value);
        }
      }
      return seen;
  }

  /** What the standard membership test says: some error of the tree is the cancellation. */
  ghost predicate Mentions(e: ErrTree)
    decreases e
  {
    match e
    case Canceled => true
    case Plain(_) => false
    case Wrapped(None) => false
    case Wrapped(Some(cause)) => Mentions(cause)
    case Joined(causes) => exists i :: 0 <= i < |causes| && causes[i].Some? && Mentions(causes[i].value)
  }

  /** A tree of cancellations mentions one; the converse fails on a real error joined to a cancellation. */
  lemma {:induction false} OnlyIsStricterThanMentions(e: ErrTree)
    ensures OnlyCanceled(e) ==> Mentions(e)
    decreases e
  {
    match e
    case Canceled =>
    case Plain(_) => assert e in Leaves(e);
    case Wrapped(None) => assert e in Leaves(e);
    case Wrapped(Some(cause)) =>
      assert Leaves(e) == Leaves(cause);
      OnlyIsStricterThanMentions(cause);
    case Joined(causes) =>
      if forall i :: 0 <= i < |causes| ==> causes[i].None? {
        assert e in Leaves(e);
      } else if OnlyCanceled(e) {
        var i :| 0 <= i < |causes| && causes[i].Some?;
        forall leaf | leaf in Leaves(causes[i].value) ensures leaf == Canceled {
          assert leaf in Leaves(e);
        }
        OnlyIsStricterThanMentions(causes[i].value);
      }
  }

  lemma JoinedFailureIsNotCancellation(e: ErrTree)
    requires e == Joined([Some(Canceled), Some(Plain("seed failed"))])
    ensures Mentions(e) && !OnlyCanceled(e)
  {
    assert e.causes[0].value == Canceled && Mentions(e.causes[0].value);
    assert Plain("seed failed") in Leaves(e.causes[1].value);
    assert Plain("seed failed") in Leaves(e);
  }

  /** Runs the supervision once the task has returned; `cancelled` is the context at that moment. */
  method Supervise(cancelled: bool, result: Option<ErrTree>) returns (reported: Option<ErrTree>, triggered: bool)
    ensures triggered <==> reported.Some?
    ensures reported == if result.Some? && !(cancelled && OnlyCanceled(result.value)) then result else None
  {
    if result.None? {
      return None, false;
    }
    if cancelled {
      var only := OnlyStartupCancellation(result.value);
      if only {
        return None, false;
      }
    }
    return result, true;
  }
}
