/** One work item of the NATS queue: workers that read its state record, decide, and
    publish a new state only if the record is still the one they read. Workers
    interleave at every read and publication, use their own clocks, crash anywhere and
    can lose an acknowledgement. The state record is retained throughout. */
module NatsQueue {
  import opened Common

  datatype Status =
    | Ready
    | Delayed(until: real)
    | Active(receipt: string, until: real)
    | Released
    | Acknowledged
    | DeadPending
    | Dead

  datatype Work = Work(attempt: nat, status: Status)
  datatype Record = Record(sequence: nat, work: Work)

  /** What a worker goes on to do once its publication is accepted. */
  datatype Goal =
    | Begin                      // the first record of the item
    | Hold(receipt: string)      // hand out a delivery
    | Bury                       // out of attempts: write the dead letter
    | Settle(receipt: string)    // acknowledge, reject or dead-letter a delivery
    | Keep(receipt: string)      // renew or release a delivery
    | Finish                     // mark the item dead

  datatype Task =
    | Idle
    | Planned(basis: nat, work: Work, at: real, goal: Goal)
    | Burying(pending: Work)     // the dead letter is still to be written
    | Marking(pending: Work)     // the dead letter is written
    | Removing                   // the work message is about to go

  datatype Settlement = ToAcknowledge | ToReject(delay: real) | ToDeadLetter

  datatype State = State(
    record: Option<Record>,
    last: nat,                   // last sequence number of the state stream
    tasks: map<nat, Task>,
    handed: map<string, nat>,    // every delivery handed out, with its attempt
    used: set<string>,           // every receipt drawn
    letters: seq<nat>,           // dead letters written, with their attempts
    message: bool)               // the work message is still in its stream

  datatype Action =
    | Reserve(now: real, dueAt: real, timeout: real, receipt: string)
    | SettleDelivery(receipt: string, settlement: Settlement, now: real)
    | Renew(receipt: string, now: real, timeout: real)
    | Release(receipt: string)
    | Publish(heard: bool)       // heard: the acknowledgement arrived
    | WriteLetter
    | ReadMark
    | RemoveMessage
    | Crash
    | Elsewhere                  // another subject of the state stream is written

  function TaskOf(tasks: map<nat, Task>, w: nat): Task { if w in tasks then tasks[w] else Idle }

  function SequenceOf(record: Option<Record>): nat { if record.None? then 0 else record.value.sequence }

  // ----- what a worker decides on what it read -----

  /** `_reserve_message`, one pass. */
  function ReservePlan(record: Option<Record>, max: nat, a: Action): Task
    requires a.Reserve?
  {
    if record.None? then
      Planned(0, Work(0, if a.dueAt > a.now then Delayed(a.dueAt) else Ready), a.now, Begin)
    else
      var Record(sequence, work) := record.value;
      if work.status.Acknowledged? || work.status.Dead? then Removing
      else if work.status.DeadPending? then Burying(work)
      else if work.status.Delayed? && work.status.until > a.now then Idle
      else if work.status.Active? && work.status.until > a.now then Idle
      else
        var next := if work.status.Released? then work.attempt else work.attempt + 1;
        if next > max then Planned(sequence, Work(work.attempt, DeadPending), a.now, Bury)
        else Planned(sequence, Work(next, Active(a.receipt, a.now + a.timeout)), a.now, Hold(a.receipt))
  }

  predicate Owns(work: Work, receipt: string, attempt: nat) {
    work.status.Active? && work.status.receipt == receipt && work.attempt == attempt
  }

  function Settled(work: Work, max: nat, settlement: Settlement, now: real): Work {
    match settlement
    case ToAcknowledge => work.(status := Acknowledged)
    case ToReject(delay) => work.(status := if work.attempt >= max then DeadPending else Delayed(now + delay))
    case ToDeadLetter => work.(status := DeadPending)
  }

  /** `_settle`, `renew` and `_return_to_ready`, one pass on behalf of a delivery. */
  function OwnerPlan(record: Option<Record>, max: nat, attempt: nat, a: Action): Task
    requires a.SettleDelivery? || a.Renew? || a.Release?
  {
    if record.None? || !Owns(record.value.work, a.receipt, attempt) then Idle
    else
      var Record(sequence, work) := record.value;
      match a
      case SettleDelivery(receipt, settlement, now) =>
        Planned(sequence, Settled(work, max, settlement, now), now, Settle(receipt))
      case Renew(receipt, now, timeout) =>
        Planned(sequence, work.(status := Active(receipt, now + timeout)), now, Keep(receipt))
      case Release(receipt) => Planned(sequence, work.(status := Released), 0.0, Keep(receipt))
  }

  /** `_mark_dead`, one pass. */
  function MarkPlan(record: Option<Record>, pending: Work): Task {
    if record.None? then Idle
    else if record.value.work.status.Dead? then Removing
    else if record.value.work != pending then Idle
    else Planned(record.value.sequence, pending.(status := Dead), 0.0, Finish)
  }

  function AfterPublish(t: Task): Task
    requires t.Planned?
  {
    match t.goal
    case Bury => Burying(t.work)
    case Settle(_) =>
      if t.work.status.Acknowledged? then Removing else if t.work.status.DeadPending? then Burying(t.work) else Idle
    case Finish => Removing
    case _ => Idle
  }

  function AfterConflict(t: Task): Task
    requires t.Planned?
  {
    if t.goal.Finish? then Marking(t.work.(status := DeadPending)) else Idle
  }

  predicate Accepted(s: State, t: Task) { t.Planned? && t.basis == SequenceOf(s.record) }

  function Published(s: State, w: nat, t: Task, heard: bool): State
    requires t.Planned?
  {
    if !Accepted(s, t) then s.(tasks := s.tasks[w := AfterConflict(t)])
    else
      s.(record := Some(Record(s.last + 1, t.work)), last := s.last + 1,
         tasks := s.tasks[w := if heard then AfterPublish(t) else Idle],
         handed := if heard && t.goal.Hold? then s.handed[t.goal.receipt := t.work.attempt] else s.handed)
  }

  predicate Enabled(s: State, w: nat, a: Action) {
    var t := TaskOf(s.tasks, w);
    match a
    case Reserve(_, _, _, receipt) => t.Idle? && receipt !in s.used
    case SettleDelivery(receipt, _, _) => t.Idle? && receipt in s.handed
    case Renew(receipt, _, _) => t.Idle? && receipt in s.handed
    case Release(receipt) => t.Idle? && receipt in s.handed
    case Publish(_) => t.Planned?
    case WriteLetter => t.Burying?
    case ReadMark => t.Marking?
    case RemoveMessage => t.Removing?
    case Crash => true
    case Elsewhere => true
  }

  function Next(s: State, max: nat, w: nat, a: Action): State
    requires Enabled(s, w, a)
  {
    var t := TaskOf(s.tasks, w);
    match a
    case Reserve(_, _, _, receipt) =>
      s.(tasks := s.tasks[w := ReservePlan(s.record, max, a)], used := s.used + {receipt})
    case SettleDelivery(receipt, _, _) => s.(tasks := s.tasks[w := OwnerPlan(s.record, max, s.handed[receipt], a)])
    case Renew(receipt, _, _) => s.(tasks := s.tasks[w := OwnerPlan(s.record, max, s.handed[receipt], a)])
    case Release(receipt) => s.(tasks := s.tasks[w := OwnerPlan(s.record, max, s.handed[receipt], a)])
    case Publish(heard) => Published(s, w, t, heard)
    case WriteLetter => s.(letters := s.letters + [t.pending.attempt], tasks := s.tasks[w := Marking(t.pending)])
    case ReadMark => s.(tasks := s.tasks[w := MarkPlan(s.record, t.pending)])
    case RemoveMessage => s.(message := false, tasks := s.tasks[w := Idle])
    case Crash => s.(tasks := s.tasks[w := Idle])
    case Elsewhere => s.(last := s.last + 1)
  }

  function Initial(): State { State(None, 0, map[], map[], {}, [], true) }

  // ----- the life of an item -----

  /** The ways a state record may follow another, seen at some worker's time. */
  ghost predicate Leads(old_: Work, new_: Work, max: nat, at: real) {
    match old_.status
    case Ready => Taken(old_, new_, max)
    case Delayed(until) => until <= at && Taken(old_, new_, max)
    case Active(receipt, until) =>
      || (until <= at && Taken(old_, new_, max))
      || (new_.attempt == old_.attempt && Disposed(new_.status, receipt, old_.attempt, max))
    case Released => new_.attempt == old_.attempt && new_.status.Active?
    case Acknowledged => false
    case DeadPending => new_ == old_.(status := Dead)
    case Dead => false
  }

  /** Another delivery, or a dead letter when no attempt is left. */
  predicate Taken(old_: Work, new_: Work, max: nat) {
    if old_.attempt < max then new_.attempt == old_.attempt + 1 && new_.status.Active?
    else new_ == old_.(status := DeadPending)
  }

  /** What the owner of a delivery may do with it. */
  predicate Disposed(status: Status, receipt: string, attempt: nat, max: nat) {
    match status
    case Active(r, _) => r == receipt
    case Delayed(_) => attempt < max
    case Ready => false
    case Dead => false
    case _ => true
  }

  // ----- the invariant -----

  predicate Sensible(work: Work, max: nat) {
    && work.attempt <= max
    && (work.status.Ready? ==> work.attempt == 0)
    && (work.status.Active? || work.status.Released? || work.status.Acknowledged? ==> 1 <= work.attempt)
    && (work.status.Delayed? ==> work.attempt < max)
  }

  ghost predicate RecordSound(record: Option<Record>, last: nat, max: nat, used: set<string>) {
    record.Some? ==>
      && 0 < record.value.sequence <= last
      && Sensible(record.value.work, max)
      && (record.value.work.status.Active? ==> record.value.work.status.receipt in used)
  }

  /** A plan still on time is one the item's life allows. */
  ghost predicate PlanSound(t: Task, record: Option<Record>, max: nat) {
    t.Planned? && t.basis == SequenceOf(record) ==>
      if record.None? then t.goal.Begin? && Begun(t.work)
      else Leads(record.value.work, t.work, max, t.at) && GoalFits(record.value.work, t)
  }

  predicate Begun(work: Work) { work.attempt == 0 && (work.status.Ready? || work.status.Delayed?) }

  /** Only the owner settles or keeps; only a delivery brings a new receipt. */
  predicate GoalFits(work: Work, t: Task)
    requires t.Planned?
  {
    match t.goal
    case Begin => false
    case Hold(receipt) => t.work.status.Active? && t.work.status.receipt == receipt
    case Bury => t.work.status.DeadPending?
    case Settle(receipt) =>
      work.status.Active? && work.status.receipt == receipt && !t.work.status.Active? && !t.work.status.Released?
    case Keep(receipt) =>
      && work.status.Active? && work.status.receipt == receipt
      && (t.work.status.Released? || (t.work.status.Active? && t.work.status.receipt == receipt))
    case Finish => work.status.DeadPending?
  }

  /** What holds of a plan whether or not it is still on time. */
  ghost predicate PlanGood(t: Task, last: nat, max: nat, used: set<string>) {
    t.Planned? ==>
      && t.basis <= last && Sensible(t.work, max)
      && (t.work.status.Active? ==> t.work.status.receipt in used)
      && (t.goal.Finish? <==> t.work.status.Dead?)
      && (t.goal.Hold? ==> t.work.status.Active? && t.work.status.receipt == t.goal.receipt)
      && (t.goal.Begin? ==> t.basis == 0)
  }

  /** The record has reached the dead letter named by this pending state. */
  predicate Buried(record: Option<Record>, pending: Work) {
    && pending.status.DeadPending? && record.Some?
    && (record.value.work == pending || record.value.work == pending.(status := Dead))
  }

  predicate Over(record: Option<Record>) {
    record.Some? && (record.value.work.status.Acknowledged? || record.value.work.status.Dead?)
  }

  ghost predicate TaskSound(t: Task, record: Option<Record>, letters: seq<nat>) {
    match t
    case Idle => true
    case Planned(_, work, _, goal) =>
      goal.Finish? ==> Buried(record, work.(status := DeadPending)) && work.attempt in letters
    case Burying(pending) => Buried(record, pending)
    case Marking(pending) => Buried(record, pending) && pending.attempt in letters
    case Removing => Over(record)
  }

  /** Dead letters exist only for an item that is past delivery, one attempt for all. */
  ghost predicate LettersSound(record: Option<Record>, letters: seq<nat>) {
    && (letters != [] ==> record.Some? && (record.value.work.status.DeadPending? || record.value.work.status.Dead?))
    && (forall i :: 0 <= i < |letters| ==> record.Some? && letters[i] == record.value.work.attempt)
    && (record.Some? && record.value.work.status.Dead? ==> letters != [])
  }

  predicate OwnedBy(record: Option<Record>, receipt: string) {
    record.Some? && record.value.work.status.Active? && record.value.work.status.receipt == receipt
  }

  predicate PlansToHold(t: Task, receipt: string) { t.Planned? && t.goal == Hold(receipt) }

  /** A receipt about to be handed out is new to everyone. */
  ghost predicate HoldsNew(tasks: map<nat, Task>, record: Option<Record>, handed: map<string, nat>) {
    && (forall w, receipt :: PlansToHold(TaskOf(tasks, w), receipt) ==> !OwnedBy(record, receipt) && receipt !in handed)
    && (forall w, v, receipt ::
          PlansToHold(TaskOf(tasks, w), receipt) && PlansToHold(TaskOf(tasks, v), receipt) ==> w == v)
  }

  ghost predicate Invariant(s: State, max: nat) {
    && RecordSound(s.record, s.last, max, s.used)
    && (forall w :: PlanSound(TaskOf(s.tasks, w), s.record, max))
    && (forall w :: PlanGood(TaskOf(s.tasks, w), s.last, max, s.used))
    && (forall w :: TaskSound(TaskOf(s.tasks, w), s.record, s.letters))
    && LettersSound(s.record, s.letters)
    && (s.message || Over(s.record))
    && s.handed.Keys <= s.used
    && HoldsNew(s.tasks, s.record, s.handed)
  }

  // ----- what each decision promises -----

  lemma ReservePlanSound(record: Option<Record>, last: nat, max: nat, used: set<string>, letters: seq<nat>, a: Action)
    requires a.Reserve? && RecordSound(record, last, max, used) && 0 < max
    ensures var t := ReservePlan(record, max, a);
            && PlanSound(t, record, max) && PlanGood(t, last, max, used + {a.receipt})
            && TaskSound(t, record, letters)
            && (t.Planned? && t.goal.Hold? ==> t.goal.receipt == a.receipt)
  {}

  lemma OwnerPlanSound(record: Option<Record>, last: nat, max: nat, used: set<string>, letters: seq<nat>,
                       attempt: nat, a: Action)
    requires (a.SettleDelivery? || a.Renew? || a.Release?) && RecordSound(record, last, max, used)
    ensures var t := OwnerPlan(record, max, attempt, a);
            && PlanSound(t, record, max) && PlanGood(t, last, max, used) && TaskSound(t, record, letters)
            && !(t.Planned? && t.goal.Hold?)
  {}

  lemma MarkPlanSound(record: Option<Record>, last: nat, max: nat, used: set<string>, letters: seq<nat>, pending: Work)
    requires RecordSound(record, last, max, used) && TaskSound(Marking(pending), record, letters)
    ensures var t := MarkPlan(record, pending);
            && PlanSound(t, record, max) && PlanGood(t, last, max, used) && TaskSound(t, record, letters)
            && !(t.Planned? && t.goal.Hold?)
  {}

  // ----- steps that leave the record alone -----

  /** A task's step: it may replace its own task, draw a receipt, write a letter that is
      due, or remove a message that is over. */
  lemma TaskStepKeeps(s: State, max: nat, w: nat, t: Task, s': State)
    requires Invariant(s, max)
    requires s' == s.(tasks := s.tasks[w := t], used := s'.used) && s.used <= s'.used
    requires PlanSound(t, s.record, max) && PlanGood(t, s.last, max, s'.used) && TaskSound(t, s.record, s.letters)
    requires t.Planned? && t.goal.Hold? ==> t.goal.receipt !in s.used
    ensures Invariant(s', max)
  {
    hide PlanSound, TaskSound, LettersSound, Over, Sensible, Leads;
    forall v ensures PlanSound(TaskOf(s'.tasks, v), s.record, max)
                  && PlanGood(TaskOf(s'.tasks, v), s.last, max, s'.used)
                  && TaskSound(TaskOf(s'.tasks, v), s.record, s.letters)
    {
      if v != w { assert PlanSound(TaskOf(s.tasks, v), s.record, max) &&
          PlanGood(TaskOf(s.tasks, v), s.last, max, s.used); }
    }
    HoldsStayNew(s, max, w, t);
  }

  lemma HoldsStayNew(s: State, max: nat, w: nat, t: Task)
    requires Invariant(s, max) && (t.Planned? && t.goal.Hold? ==> t.goal.receipt !in s.used)
    ensures HoldsNew(s.tasks[w := t], s.record, s.handed)
  {
    hide PlanSound, TaskSound, LettersSound, Over, Sensible, Leads;
    var tasks := s.tasks[w := t];
    forall v, receipt | PlansToHold(TaskOf(tasks, v), receipt)
      ensures !OwnedBy(s.record, receipt) && receipt !in s.handed && (v == w <==> receipt !in s.used)
    {
      if v != w {
        assert PlansToHold(TaskOf(s.tasks, v), receipt);
        assert PlanGood(TaskOf(s.tasks, v), s.last, max, s.used);
      }
    }
    forall u, v, receipt | PlansToHold(TaskOf(tasks, u), receipt) && PlansToHold(TaskOf(tasks, v), receipt)
      ensures u == v
    {
      if u != w && v != w {
        assert PlansToHold(TaskOf(s.tasks, u), receipt) && PlansToHold(TaskOf(s.tasks, v), receipt);
      }
    }
  }

  // ----- the publication -----

  /** An accepted publication moves the record along the item's life. */
  ghost predicate Moves(record: Option<Record>, record': Option<Record>, max: nat, at: real) {
    && record'.Some?
    && if record.None? then Begun(record'.value.work) else Leads(record.value.work, record'.value.work, max, at)
  }

  lemma BuriedStays(record: Option<Record>, record': Option<Record>, max: nat, at: real, pending: Work)
    requires Moves(record, record', max, at)
    ensures Buried(record, pending) ==> Buried(record', pending)
    ensures !Over(record)
  {}

  lemma TaskStaysSound(t: Task, record: Option<Record>, record': Option<Record>, letters: seq<nat>, max: nat, at: real)
    requires Moves(record, record', max, at) && TaskSound(t, record, letters)
    ensures TaskSound(t, record', letters)
  {
    hide Buried, Over, Moves;
    match t
    case Idle =>
    case Planned(_, work, _, _) => BuriedStays(record, record', max, at, work.(status := DeadPending));
    case Burying(pending) => BuriedStays(record, record', max, at, pending);
    case Marking(pending) => BuriedStays(record, record', max, at, pending);
    case Removing => BuriedStays(record, record', max, at, Work(0, Ready));
  }

  lemma LettersStaySound(record: Option<Record>, record': Option<Record>, letters: seq<nat>, max: nat, at: real)
    requires Moves(record, record', max, at) && LettersSound(record, letters)
    requires record'.value.work.status.Dead? ==> record'.value.work.attempt in letters
    ensures LettersSound(record', letters)
  {}

  /** Once accepted, a plan has done what its next task relies on. */
  lemma AfterPublishSound(t: Task, record': Option<Record>, last: nat, max: nat, used: set<string>, letters: seq<nat>)
    requires PlanGood(t, last, max, used) && t.Planned? && record'.Some? && record'.value.work == t.work
    requires t.goal.Bury? ==> t.work.status.DeadPending?
    ensures var t' := AfterPublish(t);
            PlanSound(t', record', max) && PlanGood(t', last, max, used) && TaskSound(t', record', letters)
            && !t'.Planned?
  {}

  lemma PlanMoves(s: State, max: nat, w: nat)
    requires Invariant(s, max) && Accepted(s, TaskOf(s.tasks, w))
    ensures var t := TaskOf(s.tasks, w);
            && Moves(s.record, Some(Record(s.last + 1, t.work)), max, t.at)
            && (t.goal.Bury? ==> t.work.status.DeadPending?)
            && (t.goal.Settle? || t.goal.Keep? ==> OwnedBy(s.record, t.goal.receipt))
  {
    hide Leads, TaskSound, LettersSound, Sensible, HoldsNew, Over;
    assert PlanSound(TaskOf(s.tasks, w), s.record, max);
    assert PlanGood(TaskOf(s.tasks, w), s.last, max, s.used);
  }

  lemma AcceptedKeepsTasks(s: State, max: nat, w: nat, heard: bool, v: nat)
    requires Invariant(s, max) && Accepted(s, TaskOf(s.tasks, w))
    ensures var s' := Published(s, w, TaskOf(s.tasks, w), heard);
            && PlanSound(TaskOf(s'.tasks, v), s'.record, max)
            && PlanGood(TaskOf(s'.tasks, v), s'.last, max, s'.used)
            && TaskSound(TaskOf(s'.tasks, v), s'.record, s'.letters)
  {
    hide TaskSound, LettersSound, Sensible, HoldsNew, Moves, AfterPublish, Leads, Buried;
    var t := TaskOf(s.tasks, w);
    var s' := Published(s, w, t, heard);
    PlanMoves(s, max, w);
    assert PlanGood(t, s.last, max, s.used);
    if v == w {
      AfterPublishSound(t, s'.record, s'.last, max, s'.used, s'.letters);
      TaskIdle(s'.record, s'.letters);
    } else {
      assert PlanGood(TaskOf(s.tasks, v), s.last, max, s.used);
      assert TaskSound(TaskOf(s.tasks, v), s.record, s.letters);
      TaskStaysSound(TaskOf(s.tasks, v), s.record, s'.record, s.letters, max, t.at);
    }
  }

  lemma TaskIdle(record: Option<Record>, letters: seq<nat>)
    ensures TaskSound(Idle, record, letters)
  {}

  lemma AcceptedKeepsRecord(s: State, max: nat, w: nat, heard: bool)
    requires Invariant(s, max) && Accepted(s, TaskOf(s.tasks, w))
    ensures var s' := Published(s, w, TaskOf(s.tasks, w), heard);
            && RecordSound(s'.record, s'.last, max, s'.used) && LettersSound(s'.record, s'.letters)
            && s'.message && s'.handed.Keys <= s'.used
  {
    hide Sensible, HoldsNew, Leads, AfterPublish, LettersSound;
    var t := TaskOf(s.tasks, w);
    PlanMoves(s, max, w);
    assert PlanGood(t, s.last, max, s.used);
    assert TaskSound(t, s.record, s.letters);
    var record' := Some(Record(s.last + 1, t.work));
    BuriedStays(s.record, record', max, t.at, t.work);
    LettersStaySound(s.record, record', s.letters, max, t.at);
  }

  lemma AcceptedKeepsHolds(s: State, max: nat, w: nat, heard: bool)
    requires Invariant(s, max) && Accepted(s, TaskOf(s.tasks, w))
    ensures var s' := Published(s, w, TaskOf(s.tasks, w), heard);
            HoldsNew(s'.tasks, s'.record, s'.handed)
  {
    hide TaskSound, LettersSound, Sensible, Leads, AfterPublish, Over, PlanSound, RecordSound;
    var t := TaskOf(s.tasks, w);
    var s' := Published(s, w, t, heard);
    PlanMoves(s, max, w);
    assert PlanGood(t, s.last, max, s.used);
    AfterPublishIsNoPlan(t);
    RenewedByItsOwner(s, max, w);
    assert forall v, receipt :: PlansToHold(TaskOf(s'.tasks, v), receipt) ==>
      v != w && PlansToHold(TaskOf(s.tasks, v), receipt);
  }

  lemma AfterPublishIsNoPlan(t: Task)
    requires t.Planned?
    ensures !AfterPublish(t).Planned?
  {}

  /** A record that comes to be owned is owned by the receipt just handed out, or by the
      one that owned it before. */
  lemma RenewedByItsOwner(s: State, max: nat, w: nat)
    requires Invariant(s, max) && Accepted(s, TaskOf(s.tasks, w))
    ensures var t := TaskOf(s.tasks, w);
            t.work.status.Active? ==>
              t.goal == Hold(t.work.status.receipt) || OwnedBy(s.record, t.work.status.receipt)
  {
    hide LettersSound, Sensible, HoldsNew, Over, RecordSound, TaskSound;
    var t := TaskOf(s.tasks, w);
    assert PlanSound(t, s.record, max);
    assert PlanGood(t, s.last, max, s.used);
  }

  // ----- every step -----

  lemma LetterWritten(s: State, max: nat, w: nat)
    requires Invariant(s, max) && TaskOf(s.tasks, w).Burying?
    ensures Invariant(Next(s, max, w, WriteLetter), max)
  {
    hide PlanSound, PlanGood, RecordSound, Sensible;
    var t := TaskOf(s.tasks, w);
    var s' := Next(s, max, w, WriteLetter);
    assert TaskSound(t, s.record, s.letters);
    forall v ensures PlanSound(TaskOf(s'.tasks, v), s.record, max) && PlanGood(TaskOf(s'.tasks, v), s.last, max, s.used)
                  && TaskSound(TaskOf(s'.tasks, v), s.record, s'.letters)
    {
      NoPlan(s.record, s.last, max, s.used, Marking(t.pending));
      assert PlanSound(TaskOf(s.tasks, v), s.record, max) && PlanGood(TaskOf(s.tasks, v), s.last, max, s.used);
      assert TaskSound(TaskOf(s.tasks, v), s.record, s.letters);
      assert s'.letters[|s.letters|] == t.pending.attempt;
    }
    HoldsStayNew(s, max, w, Marking(t.pending));
  }

  lemma NoPlan(record: Option<Record>, last: nat, max: nat, used: set<string>, t: Task)
    requires !t.Planned?
    ensures PlanSound(t, record, max) && PlanGood(t, last, max, used)
  {}

  lemma MessageRemoved(s: State, max: nat, w: nat)
    requires Invariant(s, max) && TaskOf(s.tasks, w).Removing?
    ensures Invariant(Next(s, max, w, RemoveMessage), max)
  {
    hide PlanSound, PlanGood, RecordSound, Sensible, LettersSound, HoldsNew;
    assert TaskSound(TaskOf(s.tasks, w), s.record, s.letters);
    NoPlan(s.record, s.last, max, s.used, Idle);
    TaskStepKeeps(s, max, w, Idle, s.(tasks := s.tasks[w := Idle]));
  }

  lemma PublishKeeps(s: State, max: nat, w: nat, heard: bool)
    requires Invariant(s, max) && TaskOf(s.tasks, w).Planned?
    ensures Invariant(Next(s, max, w, Publish(heard)), max)
  {
    hide PlanSound, RecordSound, Sensible, LettersSound, HoldsNew, Over, Buried;
    var t := TaskOf(s.tasks, w);
    var s' := Published(s, w, t, heard);
    if Accepted(s, t) {
      AcceptedKeepsRecord(s, max, w, heard);
      AcceptedKeepsHolds(s, max, w, heard);
      forall v ensures PlanSound(TaskOf(s'.tasks, v), s'.record, max) &&
          PlanGood(TaskOf(s'.tasks, v), s'.last, max, s'.used)
                    && TaskSound(TaskOf(s'.tasks, v), s'.record, s'.letters)
      {
        AcceptedKeepsTasks(s, max, w, heard, v);
      }
    } else {
      assert PlanGood(t, s.last, max, s.used) && TaskSound(t, s.record, s.letters);
      NoPlan(s.record, s.last, max, s.used, AfterConflict(t));
      TaskStepKeeps(s, max, w, AfterConflict(t), s');
    }
  }

  lemma StepKeepsInvariant(s: State, max: nat, w: nat, a: Action)
    requires Invariant(s, max) && Enabled(s, w, a) && 0 < max
    ensures Invariant(Next(s, max, w, a), max)
  {
    hide Invariant, ReservePlan, OwnerPlan, MarkPlan, PlanSound, PlanGood, TaskSound;
    Parts(s, max, w);
    match a
    case Reserve(_, _, _, _) =>
      ReservePlanSound(s.record, s.last, max, s.used, s.letters, a);
      TaskStepKeeps(s, max, w, ReservePlan(s.record, max, a), Next(s, max, w, a));
    case SettleDelivery(receipt, _, _) =>
      OwnerPlanSound(s.record, s.last, max, s.used, s.letters, s.handed[receipt], a);
      TaskStepKeeps(s, max, w, OwnerPlan(s.record, max, s.handed[receipt], a), Next(s, max, w, a));
    case Renew(receipt, _, _) =>
      OwnerPlanSound(s.record, s.last, max, s.used, s.letters, s.handed[receipt], a);
      TaskStepKeeps(s, max, w, OwnerPlan(s.record, max, s.handed[receipt], a), Next(s, max, w, a));
    case Release(receipt) =>
      OwnerPlanSound(s.record, s.last, max, s.used, s.letters, s.handed[receipt], a);
      TaskStepKeeps(s, max, w, OwnerPlan(s.record, max, s.handed[receipt], a), Next(s, max, w, a));
    case Publish(heard) => PublishKeeps(s, max, w, heard);
    case WriteLetter => LetterWritten(s, max, w);
    case ReadMark =>
      MarkPlanSound(s.record, s.last, max, s.used, s.letters, TaskOf(s.tasks, w).pending);
      TaskStepKeeps(s, max, w, MarkPlan(s.record, TaskOf(s.tasks, w).pending), Next(s, max, w, a));
    case RemoveMessage => MessageRemoved(s, max, w);
    case Crash =>
      NoPlan(s.record, s.last, max, s.used, Idle);
      TaskIdle(s.record, s.letters);
      TaskStepKeeps(s, max, w, Idle, Next(s, max, w, a));
    case Elsewhere => ElsewhereKeeps(s, max);
  }

  lemma Parts(s: State, max: nat, w: nat)
    requires Invariant(s, max)
    ensures RecordSound(s.record, s.last, max, s.used) && TaskSound(TaskOf(s.tasks, w), s.record, s.letters)
  {
    hide PlanSound, PlanGood, RecordSound, LettersSound, HoldsNew, TaskSound;
  }

  lemma ElsewhereKeeps(s: State, max: nat)
    requires Invariant(s, max)
    ensures Invariant(s.(last := s.last + 1), max)
  {
    hide PlanSound, LettersSound, HoldsNew, TaskSound, Sensible;
    forall w ensures PlanGood(TaskOf(s.tasks, w), s.last + 1, max, s.used) {
      assert PlanGood(TaskOf(s.tasks, w), s.last, max, s.used);
    }
  }

  // ----- runs -----

  datatype Event = Event(worker: nat, action: Action)

  ghost predicate Step(s: State, max: nat, e: Event, s': State) {
    Enabled(s, e.worker, e.action) && s' == Next(s, max, e.worker, e.action)
  }

  ghost predicate IsRun(max: nat, states: seq<State>, events: seq<Event>) {
    && 0 < max && |states| == |events| + 1 && states[0] == Initial()
    && forall i :: 0 <= i < |events| ==> Step(states[i], max, events[i], states[i + 1])
  }

  lemma {:induction false} RunKeepsInvariant(max: nat, states: seq<State>, events: seq<Event>, n: nat)
    requires IsRun(max, states, events) && n < |states|
    ensures Invariant(states[n], max)
  {
    hide Invariant, Next, Enabled;
    if n == 0 {
      InitialInvariant(max);
    } else {
      RunKeepsInvariant(max, states, events, n - 1);
      assert Step(states[n - 1], max, events[n - 1], states[n - 1 + 1]);
      StepKeepsInvariant(states[n - 1], max, events[n - 1].worker, events[n - 1].action);
    }
  }

  lemma InitialInvariant(max: nat)
    ensures Invariant(Initial(), max)
  {}

  /** A step leaves the record alone or moves it along the item's life. */
  lemma StepMoves(s: State, max: nat, e: Event, s': State) returns (at: real)
    requires Invariant(s, max) && Step(s, max, e, s')
    ensures s'.record == s.record || Moves(s.record, s'.record, max, at)
  {
    hide Invariant, ReservePlan, OwnerPlan, MarkPlan, Moves;
    var t := TaskOf(s.tasks, e.worker);
    at := 0.0;
    if e.action.Publish? && Accepted(s, t) {
      PlanMoves(s, max, e.worker);
      at := t.at;
    }
  }

  /** Attempts never fall and never exceed the maximum; acknowledged and dead are final;
      a dead letter's attempt count never changes. */
  lemma {:induction false} LifeOnlyMovesOn(max: nat, states: seq<State>, events: seq<Event>, i: nat, n: nat)
    requires IsRun(max, states, events) && i <= n < |states| && states[i].record.Some?
    ensures states[n].record.Some?
    ensures states[i].record.value.work.attempt <= states[n].record.value.work.attempt <= max
    ensures Over(states[i].record) ==> states[n].record == states[i].record
    ensures states[i].record.value.work.status.DeadPending? ==> Buried(states[n].record, states[i].record.value.work)
    decreases n - i
  {
    hide Step, Next, Enabled;
    RunKeepsInvariant(max, states, events, n);
    if i < n {
      LifeOnlyMovesOn(max, states, events, i, n - 1);
      RunKeepsInvariant(max, states, events, n - 1);
      assert Step(states[n - 1], max, events[n - 1], states[n - 1 + 1]);
      var at := StepMoves(states[n - 1], max, events[n - 1], states[n]);
      if states[n].record != states[n - 1].record {
        BuriedStays(states[n - 1].record, states[n].record, max, at, states[i].record.value.work);
      }
    }
  }

  // ----- ownership -----

  ghost predicate NoHold(tasks: map<nat, Task>, receipt: string) {
    forall w :: !PlansToHold(TaskOf(tasks, w), receipt)
  }

  /** The receipt is known, does not own the record and is not about to. */
  ghost predicate Lost(s: State, receipt: string) {
    receipt in s.used && !OwnedBy(s.record, receipt) && NoHold(s.tasks, receipt)
  }

  lemma TakeoverLoses(s: State, max: nat, e: Event, s': State, receipt: string)
    requires Invariant(s, max) && Invariant(s', max) && Step(s, max, e, s')
    requires (OwnedBy(s.record, receipt) && !OwnedBy(s'.record, receipt)) || Lost(s, receipt)
    ensures Lost(s', receipt)
  {
    hide RecordSound, PlanSound, PlanGood, LettersSound, TaskSound, OwnerPlan, MarkPlan, ReservePlan, Leads;
    var t := TaskOf(s.tasks, e.worker);
    if OwnedBy(s.record, receipt) { OwnerIsUsed(s, max, receipt); }
    if e.action.Publish? && Accepted(s, t) { RenewedByItsOwner(s, max, e.worker); AfterPublishIsNoPlan(t); }
    NewHoldIsFresh(s, max, e, s', receipt);
  }

  lemma OwnerIsUsed(s: State, max: nat, receipt: string)
    requires Invariant(s, max) && OwnedBy(s.record, receipt)
    ensures receipt in s.used && NoHold(s.tasks, receipt)
  {
    hide PlanSound, PlanGood, LettersSound, TaskSound;
  }

  /** No step plans to hand out a receipt drawn before. */
  lemma NewHoldIsFresh(s: State, max: nat, e: Event, s': State, receipt: string)
    requires Invariant(s, max) && Step(s, max, e, s') && receipt in s.used
    requires NoHold(s.tasks, receipt)
    ensures receipt in s'.used && NoHold(s'.tasks, receipt)
  {
    hide Invariant, OwnerPlan, MarkPlan, ReservePlan, AfterPublish, NoHold;
    var t := TaskOf(s.tasks, e.worker);
    match e.action
    case Reserve(_, _, _, _) =>
      ReserveHoldsItsOwn(s.record, max, e.action);
      NoneHolds(s.tasks, e.worker, ReservePlan(s.record, max, e.action), receipt);
    case SettleDelivery(r, _, _) =>
      OwnerNeverHolds(s.record, max, s.handed[r], e.action);
      NoneHolds(s.tasks, e.worker, OwnerPlan(s.record, max, s.handed[r], e.action), receipt);
    case Renew(r, _, _) =>
      OwnerNeverHolds(s.record, max, s.handed[r], e.action);
      NoneHolds(s.tasks, e.worker, OwnerPlan(s.record, max, s.handed[r], e.action), receipt);
    case Release(r) =>
      OwnerNeverHolds(s.record, max, s.handed[r], e.action);
      NoneHolds(s.tasks, e.worker, OwnerPlan(s.record, max, s.handed[r], e.action), receipt);
    case Publish(_) =>
      AfterPublishIsNoPlan(t);
      NoneHolds(s.tasks, e.worker, TaskOf(s'.tasks, e.worker), receipt);
    case ReadMark =>
      MarkNeverHolds(s.record, t.pending);
      NoneHolds(s.tasks, e.worker, MarkPlan(s.record, t.pending), receipt);
    case Elsewhere =>
    case _ => NoneHolds(s.tasks, e.worker, TaskOf(s'.tasks, e.worker), receipt);
  }

  lemma NoneHolds(tasks: map<nat, Task>, w: nat, t: Task, receipt: string)
    requires !PlansToHold(t, receipt) && NoHold(tasks, receipt)
    ensures NoHold(tasks[w := t], receipt)
  {
    var tasks' := tasks[w := t];
    forall v ensures !PlansToHold(TaskOf(tasks', v), receipt) {
      assert v != w ==> TaskOf(tasks', v) == TaskOf(tasks, v);
    }
  }

  lemma ReserveHoldsItsOwn(record: Option<Record>, max: nat, a: Action)
    requires a.Reserve?
    ensures forall receipt :: PlansToHold(ReservePlan(record, max, a), receipt) ==> receipt == a.receipt
  {}

  lemma OwnerNeverHolds(record: Option<Record>, max: nat, attempt: nat, a: Action)
    requires a.SettleDelivery? || a.Renew? || a.Release?
    ensures forall receipt :: !PlansToHold(OwnerPlan(record, max, attempt, a), receipt)
  {}

  lemma MarkNeverHolds(record: Option<Record>, pending: Work)
    ensures forall receipt :: !PlansToHold(MarkPlan(record, pending), receipt)
  {}

  lemma {:induction false} LostStaysLost(max: nat, states: seq<State>, events: seq<Event>, i: nat, n: nat,
                                         receipt: string)
    requires IsRun(max, states, events) && i <= n < |states| && Lost(states[i], receipt)
    ensures Lost(states[n], receipt)
    decreases n - i
  {
    hide Step, Lost, Invariant;
    if i < n {
      LostStaysLost(max, states, events, i, n - 1, receipt);
      RunKeepsInvariant(max, states, events, n - 1);
      RunKeepsInvariant(max, states, events, n);
      assert Step(states[n - 1], max, events[n - 1], states[n - 1 + 1]);
      TakeoverLoses(states[n - 1], max, events[n - 1], states[n], receipt);
    }
  }

  /** The publication of a settlement, a renewal or a release for this receipt. */
  predicate ActsFor(s: State, e: Event, receipt: string) {
    var t := TaskOf(s.tasks, e.worker);
    && e.action.Publish? && Accepted(s, t)
    && (t.goal == Settle(receipt) || t.goal == Keep(receipt))
  }

  /** A delivery that has lost its item, by takeover or by settling it, never owns it
      again, and nothing done on its behalf is ever accepted. */
  lemma NoActionAfterTakeover(
    max: nat, states: seq<State>, events: seq<Event>, i: nat, n: nat, receipt: string)
    requires IsRun(max, states, events) && i < n < |events|
    requires OwnedBy(states[i].record, receipt) && !OwnedBy(states[i + 1].record, receipt)
    ensures !OwnedBy(states[n].record, receipt) && !ActsFor(states[n], events[n], receipt)
  {
    hide Step, Invariant, Accepted;
    RunKeepsInvariant(max, states, events, i);
    RunKeepsInvariant(max, states, events, i + 1);
    RunKeepsInvariant(max, states, events, n);
    assert Step(states[i], max, events[i], states[i + 1]);
    TakeoverLoses(states[i], max, events[i], states[i + 1], receipt);
    LostStaysLost(max, states, events, i + 1, n, receipt);
    if ActsFor(states[n], events[n], receipt) { PlanMoves(states[n], max, events[n].worker); }
  }

  /** Whatever is done for a delivery is done while it owns the item. */
  lemma OnlyTheOwnerActs(max: nat, states: seq<State>, events: seq<Event>, n: nat, receipt: string)
    requires IsRun(max, states, events) && n < |events| && ActsFor(states[n], events[n], receipt)
    ensures OwnedBy(states[n].record, receipt)
  {
    hide Step, Invariant, Accepted;
    RunKeepsInvariant(max, states, events, n);
    PlanMoves(states[n], max, events[n].worker);
  }

  /** Nothing is lost: the work message stays until the item is acknowledged or dead, and
      a dead item has its dead letter, written with the attempts it used. */
  lemma NothingIsLost(max: nat, states: seq<State>, events: seq<Event>, n: nat)
    requires IsRun(max, states, events) && n < |states|
    ensures var s := states[n];
            && (s.message || Over(s.record))
            && (s.record.Some? && s.record.value.work.status.Dead? ==> s.record.value.work.attempt in s.letters)
            && (s.letters != [] ==>
                  s.record.Some? && (s.record.value.work.status.DeadPending? || s.record.value.work.status.Dead?))
  {
    hide Step, RecordSound, PlanSound, PlanGood, TaskSound, HoldsNew;
    RunKeepsInvariant(max, states, events, n);
    var s := states[n];
    if s.letters != [] { assert s.letters[0] == s.record.value.work.attempt; }
  }
}
