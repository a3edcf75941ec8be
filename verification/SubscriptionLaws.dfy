/** What a subscription can become, and when its organization may work, over all runs of status changes. */
module SubscriptionLaws {
  import opened TrialSweep

  /** One status change, as the entity makes it. */
  function Change(o: Row, target: Status): Row {
    if target in Allowed(o.status) then o.(status := target) else o
  }

  function Changes(o: Row, targets: seq<Status>): Row
    decreases targets
  {
    if targets == [] then o else Changes(Change(o, targets[0]), targets[1..])
  }

  /** The nine changes there are. */
  lemma ChangesThereAre(from: Status, target: Status)
    ensures target in Allowed(from) <==>
            match target
            case Trialing => false
            case Active => from == Trialing || from == Suspended || from == PastDue
            case Suspended => from == Trialing || from == Active
            case PastDue => from == Active
            case Canceled => from == Active || from == PastDue
  {
    match from
    case Trialing => assert Allowed(from)[0] == Active && Allowed(from)[1] == Suspended;
    case Suspended => assert Allowed(from)[0] == Active;
    case Active => assert Allowed(from)[0] == PastDue && Allowed(from)[1] == Canceled && Allowed(from)[2] == Suspended;
    case PastDue => assert Allowed(from)[0] == Active && Allowed(from)[1] == Canceled;
    case Canceled =>
  }

  /** After a change that succeeds the organization may work always if it became active, and never otherwise. */
  lemma AccessAfterChange(o: Row, target: Status, t: int)
    requires target in Allowed(o.status)
    ensures CanPerformBusinessOperations(Change(o, target), t) <==> target == Active
    ensures !IsTrialExpired(Change(o, target), t) && !IsDue(Change(o, target), t)
  {
    ChangesThereAre(o.status, target);
  }

  /** Over any run: while the trial is untouched its end decides, and afterwards only whether the status is active. */
  lemma {:induction false} AccessAfterRun(o: Row, targets: seq<Status>, t: int)
    ensures var after := Changes(o, targets);
            && after.trialStartsAt == o.trialStartsAt && after.trialEndsAt == o.trialEndsAt
            && (after.status == Trialing ==> o.status == Trialing && after == o)
            && (CanPerformBusinessOperations(after, t) <==>
                after.status == Active || (after.status == Trialing && t < o.trialEndsAt))
    decreases targets
  {
    if targets != [] {
      ChangesThereAre(o.status, targets[0]);
      AccessAfterRun(Change(o, targets[0]), targets[1..], t);
    }
  }

  /** A canceled organization stays canceled, and may never work again. */
  lemma {:induction false} CanceledForGood(o: Row, targets: seq<Status>, t: int)
    requires o.status == Canceled
    ensures Changes(o, targets) == o && !CanPerformBusinessOperations(Changes(o, targets), t)
    decreases targets
  {
    if targets != [] {
      ChangesThereAre(o.status, targets[0]);
      CanceledForGood(o, targets[1..], t);
    }
  }

  predicate BecomesActive(o: Row, targets: seq<Status>) {
    Changes(o, targets).status == Active
  }

  /** Every other one can become active again, in one change at most. */
  lemma CanceledIsTheOnlyEnd(o: Row)
    ensures (exists targets :: BecomesActive(o, targets)) <==> o.status != Canceled
  {
    if targets :| BecomesActive(o, targets) {
      if o.status == Canceled {
        CanceledForGood(o, targets, 0);
      }
    }
    if o.status != Canceled {
      ChangesThereAre(o.status, Active);
      var once := [Active];
      assert Changes(o, once) == Changes(Change(o, Active), once[1..]) == Change(o, Active);
      assert BecomesActive(o, once);
    }
  }

  /** A suspended trial is given back its right to work only by becoming active. */
  lemma SweptThenActivated(o: Row, now: int, t: int)
    requires IsDue(o, now)
    ensures var swept := Change(o, Suspended);
            && swept.status == Suspended && !CanPerformBusinessOperations(swept, t)
            && (forall target :: target in Allowed(swept.status) <==> target == Active)
            && CanPerformBusinessOperations(Change(swept, Active), t)
  {
    ChangesThereAre(Trialing, Suspended);
    forall target
      ensures target in Allowed(Suspended) <==> target == Active
    {
      ChangesThereAre(Suspended, target);
    }
  }
}
