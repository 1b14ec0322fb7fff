/** What becomes of a work item in the NATS queue, traced back to what its callers asked
    for: every change of its record is the answer to one request, and an item ends
    acknowledged or dead exactly when somebody asked for that. */
module NatsSettlement {
  import opened Common
  import opened NatsQueue

  // ----- what a request asks of the record -----

  predicate IsRequest(a: Action) { a.Reserve? || a.SettleDelivery? || a.Renew? || a.Release? || a.ReadMark? }

  /** An item that a reserve at this time may take. */
  predicate Available(record: Option<Record>, now: real) {
    record.Some? ==>
      match record.value.work.status
      case Ready => true
      case Released => true
      case Delayed(until) => until <= now
      case Active(_, until) => until <= now
      case Acknowledged => false
      case DeadPending => false
      case Dead => false
  }

  /** The attempt the next delivery is: an item given back unused keeps its number. */
  function NextAttempt(work: Work): nat { if work.status.Released? then work.attempt else work.attempt + 1 }

  /** This request sends the item to the dead letters. */
  predicate AsksToBury(a: Action, record: Option<Record>, max: nat) {
    record.Some? &&
    match a
    case Reserve(_, _, _, _) => NextAttempt(record.value.work) > max
    case SettleDelivery(_, settlement, _) =>
      settlement.ToDeadLetter? || (settlement.ToReject? && record.value.work.attempt >= max)
    case _ => false
  }

  predicate AsksToAcknowledge(a: Action) { a.SettleDelivery? && a.settlement.ToAcknowledge? }

  /** Who may ask: anybody for an available item, and for a delivery only its owner. */
  predicate MayAsk(a: Action, record: Option<Record>) {
    match a
    case Reserve(now, _, _, _) => Available(record, now)
    case SettleDelivery(receipt, _, _) => OwnedBy(record, receipt)
    case Renew(receipt, _, _) => OwnedBy(record, receipt)
    case Release(receipt) => OwnedBy(record, receipt)
    case ReadMark => record.Some? && record.value.work.status.DeadPending?
    case _ => false
  }

  /** The work as the request wants it. */
  predicate Fulfils(a: Action, record: Option<Record>, max: nat, after: Work) {
    if AsksToBury(a, record, max) then after == record.value.work.(status := DeadPending)
    else
      match a
      case Reserve(now, dueAt, timeout, receipt) =>
        if record.None? then after == Work(0, if now < dueAt then Delayed(dueAt) else Ready)
        else after == Work(NextAttempt(record.value.work), Active(receipt, now + timeout))
      case SettleDelivery(_, settlement, now) =>
        && record.Some? && after.attempt == record.value.work.attempt
        && (settlement.ToAcknowledge? ==> after.status == Acknowledged)
        && (settlement.ToReject? ==> after.status == Delayed(now + settlement.delay))
      case Renew(receipt, now, timeout) =>
        record.Some? && after == Work(record.value.work.attempt, Active(receipt, now + timeout))
      case Release(_) => record.Some? && after == Work(record.value.work.attempt, Released)
      case ReadMark => record.Some? && after == Work(record.value.work.attempt, Dead)
      case _ => false
  }

  // ----- a plan and its request -----

  /** The plan that follows from a request on this record. */
  ghost predicate Follows(t: Task, a: Action, record: Option<Record>, max: nat) {
    && t.Planned? && t.basis == SequenceOf(record)
    && MayAsk(a, record) && Fulfils(a, record, max, t.work)
  }

  lemma ReserveFollows(record: Option<Record>, max: nat, a: Action)
    requires a.Reserve?
    ensures var t := ReservePlan(record, max, a);
            && (t.Planned? <==> Available(record, a.now))
            && (t.Planned? ==> Follows(t, a, record, max))
  {}

  lemma OwnerFollows(record: Option<Record>, max: nat, attempt: nat, a: Action)
    requires a.SettleDelivery? || a.Renew? || a.Release?
    ensures var t := OwnerPlan(record, max, attempt, a);
            && (t.Planned? <==> OwnedBy(record, a.receipt) && record.value.work.attempt == attempt)
            && (t.Planned? ==> Follows(t, a, record, max))
  {}

  lemma MarkFollows(record: Option<Record>, pending: Work, max: nat)
    requires pending.status.DeadPending?
    ensures var t := MarkPlan(record, pending); t.Planned? ==> Follows(t, ReadMark, record, max)
  {}

  lemma RunStep(max: nat, states: seq<State>, events: seq<Event>, n: nat)
    requires IsRun(max, states, events) && n < |events|
    ensures Step(states[n], max, events[n], states[n + 1])
  {}

  lemma RequestPlans(s: State, max: nat, e: Event, s': State)
    requires Invariant(s, max) && Step(s, max, e, s') && IsRequest(e.action)
    ensures var t := TaskOf(s'.tasks, e.worker); t.Planned? ==> Follows(t, e.action, s.record, max)
    ensures e.action.Reserve? ==> (TaskOf(s'.tasks, e.worker).Planned? <==> Available(s.record, e.action.now))
  {
    hide Invariant, ReservePlan, OwnerPlan, MarkPlan, Follows, Available;
    match e.action
    case Reserve(_, _, _, _) => ReserveFollows(s.record, max, e.action);
    case SettleDelivery(receipt, _, _) => OwnerFollows(s.record, max, s.handed[receipt], e.action);
    case Renew(receipt, _, _) => OwnerFollows(s.record, max, s.handed[receipt], e.action);
    case Release(receipt) => OwnerFollows(s.record, max, s.handed[receipt], e.action);
    case ReadMark =>
      Parts(s, max, e.worker);
      MarkFollows(s.record, TaskOf(s.tasks, e.worker).pending, max);
  }

  lemma OtherwiseNoPlan(s: State, max: nat, e: Event, s': State, w: nat)
    requires Step(s, max, e, s') && TaskOf(s'.tasks, w).Planned? && !(IsRequest(e.action) && e.worker == w)
    ensures TaskOf(s.tasks, w) == TaskOf(s'.tasks, w)
  {
    hide ReservePlan, OwnerPlan, MarkPlan, AfterPublish;
    if e.action.Publish? && e.worker == w { AfterPublishIsNoPlan(TaskOf(s.tasks, w)); }
  }

  /** Event m is the request on which worker w acts in state n. */
  ghost predicate RequestedAt(max: nat, states: seq<State>, events: seq<Event>, n: nat, w: nat, m: nat) {
    && m < n < |states| == |events| + 1 && events[m].worker == w && IsRequest(events[m].action)
    && Follows(TaskOf(states[n].tasks, w), events[m].action, states[m].record, max)
  }

  lemma {:induction false} RequestBefore(max: nat, states: seq<State>, events: seq<Event>, n: nat, w: nat)
    returns (m: nat)
    requires IsRun(max, states, events) && n < |states| && TaskOf(states[n].tasks, w).Planned?
    ensures RequestedAt(max, states, events, n, w, m)
  {
    hide Step, Invariant, Follows;
    m := 0;
    if n > 0 {
      RunStep(max, states, events, n - 1);
      RunKeepsInvariant(max, states, events, n - 1);
      var e := events[n - 1];
      if IsRequest(e.action) && e.worker == w {
        m := n - 1;
        RequestPlans(states[n - 1], max, e, states[n]);
      } else {
        OtherwiseNoPlan(states[n - 1], max, e, states[n], w);
        m := RequestBefore(max, states, events, n - 1, w);
      }
    }
  }

  // ----- the record a request saw is the one its publication replaces -----

  lemma StepSequences(s: State, max: nat, e: Event, s': State)
    requires Step(s, max, e, s')
    ensures s.last <= s'.last && (s'.record == s.record || SequenceOf(s'.record) == s.last + 1)
  {
    hide ReservePlan, OwnerPlan, MarkPlan;
  }

  lemma {:induction false} SameOrLater(max: nat, states: seq<State>, events: seq<Event>, m: nat, n: nat)
    requires IsRun(max, states, events) && m <= n < |states|
    ensures states[m].last <= states[n].last
    ensures states[n].record == states[m].record || SequenceOf(states[n].record) > states[m].last
    decreases n - m
  {
    hide Step;
    if m < n {
      SameOrLater(max, states, events, m, n - 1);
      RunStep(max, states, events, n - 1);
      StepSequences(states[n - 1], max, events[n - 1], states[n]);
    }
  }

  lemma SequenceBounded(s: State, max: nat)
    requires Invariant(s, max)
    ensures SequenceOf(s.record) <= s.last
  {
    hide PlanSound, PlanGood, TaskSound, LettersSound, HoldsNew;
  }

  /** Event n is the accepted publication that answers request m. */
  ghost predicate Answers(max: nat, states: seq<State>, events: seq<Event>, n: nat, m: nat): (answers: bool)
    ensures answers ==> m < n < |events| < |states| && IsRequest(events[m].action)
  {
    && m < n < |events| && |states| == |events| + 1
    && events[n].action.Publish? && Accepted(states[n], TaskOf(states[n].tasks, events[n].worker))
    && RequestedAt(max, states, events, n, events[n].worker, m)
    && states[m].record == states[n].record
  }

  /** In every run a record changes only in answer to a request of the publishing worker,
      made on that very record by somebody entitled to it, and becomes what was asked. */
  lemma ChangeIsAnswer(max: nat, states: seq<State>, events: seq<Event>, n: nat) returns (m: nat)
    requires IsRun(max, states, events) && n < |events|
    requires events[n].action.Publish? && Accepted(states[n], TaskOf(states[n].tasks, events[n].worker))
    ensures Answers(max, states, events, n, m)
    ensures MayAsk(events[m].action, states[n].record) && states[n + 1].record.Some?
    ensures Fulfils(events[m].action, states[n].record, max, states[n + 1].record.value.work)
  {
    hide Invariant, Fulfils, MayAsk, AfterPublish;
    m := RequestBefore(max, states, events, n, events[n].worker);
    SameOrLater(max, states, events, m, n);
    RunKeepsInvariant(max, states, events, m);
    SequenceBounded(states[m], max);
    RunStep(max, states, events, n);
  }

  lemma OnlyPublicationsChange(s: State, max: nat, e: Event, s': State)
    requires Step(s, max, e, s') && s'.record != s.record
    ensures e.action.Publish? && Accepted(s, TaskOf(s.tasks, e.worker))
  {
    hide ReservePlan, OwnerPlan, MarkPlan;
  }

  // ----- how an item ends -----

  predicate IsAcknowledged(record: Option<Record>) { record.Some? && record.value.work.status.Acknowledged? }

  predicate IsBuried(record: Option<Record>) {
    record.Some? && (record.value.work.status.DeadPending? || record.value.work.status.Dead?)
  }

  /** Some accepted acknowledgement before state n. */
  ghost predicate AcknowledgedBefore(max: nat, states: seq<State>, events: seq<Event>, n: nat) {
    exists i: nat, m: nat :: i < n && Answers(max, states, events, i, m) && AsksToAcknowledge(events[m].action)
  }

  /** Some accepted dead-lettering, rejection of the last attempt, or reserve without an
      attempt left before state n. */
  ghost predicate BuriedBefore(max: nat, states: seq<State>, events: seq<Event>, n: nat) {
    exists i: nat, m: nat ::
      i < n && Answers(max, states, events, i, m) && AsksToBury(events[m].action, states[m].record, max)
  }

  lemma AcknowledgesIffAsked(a: Action, record: Option<Record>, max: nat, after: Work)
    requires Fulfils(a, record, max, after)
    ensures after.status.Acknowledged? <==> AsksToAcknowledge(a)
    ensures after.status.DeadPending? <==> AsksToBury(a, record, max)
    ensures after.status.Dead? <==> a.ReadMark?
  {}

  /** What an accepted publication does to the fate of the item. */
  lemma AnswerDecides(max: nat, states: seq<State>, events: seq<Event>, n: nat, m: nat)
    requires IsRun(max, states, events) && Answers(max, states, events, n, m)
    ensures IsAcknowledged(states[n + 1].record) <==> AsksToAcknowledge(events[m].action)
    ensures AsksToBury(events[m].action, states[m].record, max) ==> IsBuried(states[n + 1].record)
    ensures IsBuried(states[n + 1].record) ==>
              IsBuried(states[n].record) || AsksToBury(events[m].action, states[m].record, max)
  {
    hide Step, Fulfils, AsksToAcknowledge, AsksToBury, AfterPublish;
    RunStep(max, states, events, n);
    AcceptedStores(states[n], max, events[n], states[n + 1]);
    AcknowledgesIffAsked(events[m].action, states[n].record, max, states[n + 1].record.value.work);
  }

  lemma AcceptedStores(s: State, max: nat, e: Event, s': State)
    requires Step(s, max, e, s') && e.action.Publish? && Accepted(s, TaskOf(s.tasks, e.worker))
    ensures s'.record.Some? && s'.record.value.work == TaskOf(s.tasks, e.worker).work
  {
    hide AfterPublish;
  }

  /** An item is acknowledged if and only if its owner's acknowledgement was accepted. */
  lemma {:induction false} AcknowledgedIffAsked(max: nat, states: seq<State>, events: seq<Event>, n: nat)
    requires IsRun(max, states, events) && n < |states|
    ensures IsAcknowledged(states[n].record) <==> AcknowledgedBefore(max, states, events, n)
  {
    hide Step, Answers, AsksToAcknowledge;
    if n > 0 {
      AcknowledgedIffAsked(max, states, events, n - 1);
      RunStep(max, states, events, n - 1);
      AcknowledgedStep(max, states, events, n - 1);
    }
  }

  lemma AcknowledgedStep(max: nat, states: seq<State>, events: seq<Event>, n: nat)
    requires IsRun(max, states, events) && n < |events|
    requires IsAcknowledged(states[n].record) <==> AcknowledgedBefore(max, states, events, n)
    ensures IsAcknowledged(states[n + 1].record) <==> AcknowledgedBefore(max, states, events, n + 1)
  {
    hide Step, Answers, AsksToAcknowledge, Fulfils;
    RunStep(max, states, events, n);
    if AcknowledgedBefore(max, states, events, n) {
      LifeOnlyMovesOn(max, states, events, n, n + 1);
      var i: nat, m: nat :| i < n && Answers(max, states, events, i, m) && AsksToAcknowledge(events[m].action);
      assert i < n + 1;
    }
    forall m: nat | Answers(max, states, events, n, m)
      ensures IsAcknowledged(states[n + 1].record) <==> AsksToAcknowledge(events[m].action)
    {
      AnswerDecides(max, states, events, n, m);
    }
    if IsAcknowledged(states[n + 1].record) && !IsAcknowledged(states[n].record) {
      OnlyPublicationsChange(states[n], max, events[n], states[n + 1]);
      var m := ChangeIsAnswer(max, states, events, n);
      assert Answers(max, states, events, n, m);
    }
  }

  /** An item goes to the dead letters if and only if a dead-lettering by its owner, a
      rejection of its last attempt or a reserve without attempts left was accepted. */
  lemma {:induction false} BuriedIffAsked(max: nat, states: seq<State>, events: seq<Event>, n: nat)
    requires IsRun(max, states, events) && n < |states|
    ensures IsBuried(states[n].record) <==> BuriedBefore(max, states, events, n)
  {
    hide Step, Answers, AsksToBury;
    if n > 0 {
      BuriedIffAsked(max, states, events, n - 1);
      BuriedStep(max, states, events, n - 1);
    }
  }

  lemma BuriedStep(max: nat, states: seq<State>, events: seq<Event>, n: nat)
    requires IsRun(max, states, events) && n < |events|
    requires IsBuried(states[n].record) <==> BuriedBefore(max, states, events, n)
    ensures IsBuried(states[n + 1].record) <==> BuriedBefore(max, states, events, n + 1)
  {
    hide Step, Answers, AsksToBury, Fulfils;
    RunStep(max, states, events, n);
    if BuriedBefore(max, states, events, n) {
      LifeOnlyMovesOn(max, states, events, n, n + 1);
      var i: nat, m: nat :|
        i < n && Answers(max, states, events, i, m) && AsksToBury(events[m].action, states[m].record, max);
      assert i < n + 1;
    }
    forall m: nat | Answers(max, states, events, n, m)
      ensures m < |states|
      ensures AsksToBury(events[m].action, states[m].record, max) ==> IsBuried(states[n + 1].record)
      ensures IsBuried(states[n + 1].record) ==>
                IsBuried(states[n].record) || AsksToBury(events[m].action, states[m].record, max)
    {
      AnswerDecides(max, states, events, n, m);
    }
    if IsBuried(states[n + 1].record) && !IsBuried(states[n].record) {
      OnlyPublicationsChange(states[n], max, events[n], states[n + 1]);
      var m := ChangeIsAnswer(max, states, events, n);
      assert Answers(max, states, events, n, m);
    }
  }

  /** What a caller can rely on. A dead letter is written only for an item somebody sent
      there; an acknowledged item never has one. Once the work message is gone, the item was
      acknowledged on request and has no letter, or was sent to the dead letters on request
      and has one, written with the attempts it used. */
  lemma ItemEndsAsAsked(max: nat, states: seq<State>, events: seq<Event>, n: nat)
    requires IsRun(max, states, events) && n < |states|
    ensures var s := states[n];
            && (s.letters != [] ==> BuriedBefore(max, states, events, n))
            && (AcknowledgedBefore(max, states, events, n) ==> s.letters == [] && !BuriedBefore(max, states, events, n))
            && (!s.message ==>
                  if AcknowledgedBefore(max, states, events, n) then s.letters == []
                  else
                    && BuriedBefore(max, states, events, n)
                    && s.record.Some? && s.record.value.work.attempt in s.letters)
  {
    hide Step, AcknowledgedBefore, BuriedBefore;
    NothingIsLost(max, states, events, n);
    AcknowledgedIffAsked(max, states, events, n);
    BuriedIffAsked(max, states, events, n);
  }

  /** A worker that hears its publication through goes on to finish the item: it removes
      the message of an item that is over, and writes the letter of a buried one. */
  lemma WorkerFinishesItem(max: nat, states: seq<State>, events: seq<Event>, n: nat)
    requires IsRun(max, states, events) && n < |events| && events[n].action == Publish(true)
    requires Accepted(states[n], TaskOf(states[n].tasks, events[n].worker)) && states[n + 1].record.Some?
    ensures var s' := states[n + 1];
            var work, t := s'.record.value.work, TaskOf(s'.tasks, events[n].worker);
            && (work.status.Acknowledged? || work.status.Dead? ==> t == Removing)
            && (work.status.DeadPending? ==> t == Burying(work))
  {
    hide Invariant, Fulfils, MayAsk;
    RunKeepsInvariant(max, states, events, n);
    PlanMoves(states[n], max, events[n].worker);
    RunStep(max, states, events, n);
    GoalOfOver(states[n], max, events[n].worker);
  }

  lemma GoalOfOver(s: State, max: nat, w: nat)
    requires Invariant(s, max) && Accepted(s, TaskOf(s.tasks, w))
    ensures var t := TaskOf(s.tasks, w);
            && (t.work.status.Acknowledged? ==> t.goal.Settle?)
            && (t.work.status.Dead? ==> t.goal.Finish?)
            && (t.work.status.DeadPending? ==> t.goal.Settle? || t.goal.Bury?)
  {
    hide TaskSound, LettersSound, HoldsNew, RecordSound;
    assert PlanSound(TaskOf(s.tasks, w), s.record, max) && PlanGood(TaskOf(s.tasks, w), s.last, max, s.used);
  }

  // ----- no delivery before its time -----

  /** A delivery is handed out only in answer to a reserve that found the item available:
      never before the time a publish or a rejection asked for, nor while another delivery
      is still visible. */
  lemma DeliveredOnlyWhenAvailable(max: nat, states: seq<State>, events: seq<Event>, n: nat) returns (m: nat)
    requires IsRun(max, states, events) && n < |events|
    requires events[n].action.Publish? && Accepted(states[n], TaskOf(states[n].tasks, events[n].worker))
    requires TaskOf(states[n].tasks, events[n].worker).goal.Hold?
    ensures Answers(max, states, events, n, m)
    ensures events[m].action.Reserve? && Available(states[n].record, events[m].action.now)
    ensures states[n + 1].record.Some? && states[n].record.Some?
    ensures states[n + 1].record.value.work ==
              Work(NextAttempt(states[n].record.value.work),
                   Active(events[m].action.receipt, events[m].action.now + events[m].action.timeout))
  {
    hide Step, Answers, Invariant;
    m := ChangeIsAnswer(max, states, events, n);
    RunKeepsInvariant(max, states, events, n);
    HoldIsNew(states[n], max, events[n].worker);
    RunStep(max, states, events, n);
    AcceptedStores(states[n], max, events[n], states[n + 1]);
  }

  /** A plan to hand out a delivery brings a receipt that does not own the item. */
  lemma HoldIsNew(s: State, max: nat, w: nat)
    requires Invariant(s, max) && TaskOf(s.tasks, w).Planned? && TaskOf(s.tasks, w).goal.Hold?
    ensures var t := TaskOf(s.tasks, w);
            && t.work.status.Active? && t.work.status.receipt == t.goal.receipt
            && !OwnedBy(s.record, t.goal.receipt)
  {
    hide RecordSound, PlanSound, TaskSound, LettersSound, Sensible;
    var t := TaskOf(s.tasks, w);
    assert PlanGood(t, s.last, max, s.used);
    assert PlansToHold(t, t.goal.receipt);
  }

  /** And a reserve that reads an available item always goes on to deliver or to bury it. */
  lemma ReservesWhatIsAvailable(max: nat, states: seq<State>, events: seq<Event>, n: nat)
    requires IsRun(max, states, events) && n < |events| && events[n].action.Reserve?
    ensures TaskOf(states[n + 1].tasks, events[n].worker).Planned? <==>
            Available(states[n].record, events[n].action.now)
  {
    hide Step, Invariant;
    RunStep(max, states, events, n);
    RunKeepsInvariant(max, states, events, n);
    RequestPlans(states[n], max, events[n], states[n + 1]);
  }
}
