/** A NATS counter under crashes, redelivery and re-publication.

    One coordinator at a time works on one command: the durable consumer allows one
    unacknowledged command and redelivers it until it is acknowledged or its
    deliveries are used up. A crash forgets the coordinator's progress, never the
    stream, and a client may have published the same command several times. An
    outcome record outlives every duplicate of its command. */
module NatsCounter {

  /** An increment as its client published it; its duplicates are identical. */
  datatype Increment = Increment(operation: string, amount: int)

  datatype Entry =
    | Absent
    | Tombstone
    | ByteValue(lapsed: bool)
    | Counter(operation: string, total: int, lapsed: bool)

  predicate Live(e: Entry) { e.Counter? && !e.lapsed }

  datatype Phase =
    | Idle
    | Delivered(command: Increment)
    | Cleared(command: Increment)                  // no outcome found, guard claimed
    | Computed(command: Increment, total: int, restart: bool)
    | Settling(command: Increment, reply: int)     // the outcome is still to be recorded

  datatype State = State(
    entry: Entry,
    outcomes: map<string, int>,
    phase: Phase,
    lives: seq<seq<Increment>>)   // what took effect, one sequence for each life of the counter

  datatype Action =
    | Deliver(increment: Increment)
    | LookUp                      // `_operation_reply`, then `_claim_guard`
    | ReadCounter
    | WriteCounter
    | RecordOutcome
    | Crash                       // also `_OperationReplayRequired`: the command comes back
    | Drop                        // acknowledged with a failure, or out of deliveries
    | Lapse                       // the entry's time to live passes
    | Vanish                      // the server removes the entry
    | Replace(entry: Entry)       // another command on the same key

  function Initial(): State { State(Absent, map[], Idle, []) }

  function Extended(lives: seq<seq<Increment>>, c: Increment, restart: bool): seq<seq<Increment>> {
    if restart || lives == [] then lives + [[c]] else lives[|lives| - 1 := lives[|lives| - 1] + [c]]
  }

  /** The branches of `_apply_increment` on the entry it reads. */
  function AfterRead(e: Entry, c: Increment): Phase {
    match e
    case Absent => Computed(c, c.amount, true)
    case Tombstone => Computed(c, c.amount, true)
    case ByteValue(lapsed) => if lapsed then Computed(c, c.amount, true) else Idle   // a conflict
    case Counter(operation, total, lapsed) =>
      if lapsed then Computed(c, c.amount, true)
      else if operation == c.operation then Settling(c, total)
      else Computed(c, total + c.amount, false)
  }

  predicate Enabled(s: State, a: Action) {
    match a
    case Deliver(_) => s.phase.Idle?
    case LookUp => s.phase.Delivered?
    case ReadCounter => s.phase.Cleared?
    case WriteCounter => s.phase.Computed?
    case RecordOutcome => s.phase.Settling?
    case Crash => !s.phase.Idle?
    case Drop => !s.phase.Idle?
    case Lapse => s.entry.ByteValue? || s.entry.Counter?
    case Vanish => true
    case Replace(entry) => s.phase.Idle? && !Live(s.entry) && !entry.Counter?
  }

  function Next(s: State, a: Action): State
    requires Enabled(s, a)
  {
    match a
    case Deliver(c) => s.(phase := Delivered(c))
    case LookUp =>
      s.(phase := if s.phase.command.operation in s.outcomes then Idle else Cleared(s.phase.command))
    case ReadCounter => s.(phase := AfterRead(s.entry, s.phase.command))
    case WriteCounter =>
      var c := s.phase.command;
      s.(entry := Counter(c.operation, s.phase.total, false), phase := Settling(c, s.phase.total),
         lives := Extended(s.lives, c, s.phase.restart))
    case RecordOutcome =>
      s.(outcomes := s.outcomes[s.phase.command.operation := s.phase.reply], phase := Idle)
    case Crash => s.(phase := Delivered(s.phase.command))
    case Drop => s.(phase := Idle)
    case Lapse => s.(entry := s.entry.(lapsed := true))
    case Vanish => s.(entry := Absent)
    case Replace(entry) => s.(entry := entry)
  }

  /** The command being worked on has taken effect and has no outcome yet. */
  predicate Unsettled(s: State) {
    && !s.phase.Idle? && Live(s.entry)
    && s.entry.operation == s.phase.command.operation
    && s.phase.command.operation !in s.outcomes
  }

  ghost predicate Step(s: State, a: Action, s': State) { Enabled(s, a) && s' == Next(s, a) }

  // ----- the invariant -----

  function Sum(life: seq<Increment>): int {
    if life == [] then 0 else Sum(life[..|life| - 1]) + life[|life| - 1].amount
  }

  ghost predicate Distinct(life: seq<Increment>) {
    forall i, j :: 0 <= i < j < |life| ==> life[i].operation != life[j].operation
  }

  function Current(lives: seq<seq<Increment>>): seq<Increment> {
    if lives == [] then [] else lives[|lives| - 1]
  }

  /** A live counter is the sum of its life, and names the last increment in it. */
  ghost predicate Exact(entry: Entry, lives: seq<seq<Increment>>) {
    var life := Current(lives);
    Live(entry) ==>
      life != [] && entry.total == Sum(life) && life[|life| - 1].operation == entry.operation
  }

  ghost predicate AllDistinct(lives: seq<seq<Increment>>) {
    forall k :: 0 <= k < |lives| ==> Distinct(lives[k])
  }

  ghost predicate AllRecorded(life: seq<Increment>, outcomes: map<string, int>) {
    forall i :: 0 <= i < |life| ==> life[i].operation in outcomes
  }

  predicate InProgress(p: Phase, operation: string) { !p.Idle? && p.command.operation == operation }

  /** Whatever took effect in a live counter has its outcome recorded, except the last
      increment while its own command is still being worked on. */
  ghost predicate Settled(s: State) {
    var life := Current(s.lives);
    Live(s.entry) && life != [] ==>
      && AllRecorded(life[..|life| - 1], s.outcomes)
      && (life[|life| - 1].operation in s.outcomes || InProgress(s.phase, life[|life| - 1].operation))
  }

  /** The reply is the running total at the operation's place in some life. */
  ghost predicate Replied(lives: seq<seq<Increment>>, operation: string, reply: int) {
    exists k, i ::
      0 <= k < |lives| && 0 <= i < |lives[k]| && lives[k][i].operation == operation &&
      reply == Sum(lives[k][..i + 1])
  }

  ghost predicate RepliesRight(lives: seq<seq<Increment>>, outcomes: map<string, int>) {
    forall operation :: operation in outcomes ==> Replied(lives, operation, outcomes[operation])
  }

  ghost predicate Progress(s: State) {
    match s.phase
    case Idle => true
    case Delivered(_) => true
    case Cleared(c) => c.operation !in s.outcomes
    case Computed(c, total, restart) =>
      && c.operation !in s.outcomes
      && (if restart then total == c.amount && !Live(s.entry)
          else s.lives != [] && total == Sum(Current(s.lives)) + c.amount && AllRecorded(Current(s.lives), s.outcomes))
    case Settling(c, reply) => Replied(s.lives, c.operation, reply)
  }

  ghost predicate Invariant(s: State) {
    && AllDistinct(s.lives) && Exact(s.entry, s.lives) && Settled(s) && Progress(s)
    && RepliesRight(s.lives, s.outcomes)
  }

  // ----- every step keeps it -----

  lemma SumOfExtended(life: seq<Increment>, c: Increment)
    ensures Sum(life + [c]) == Sum(life) + c.amount
    ensures Sum([c]) == c.amount
  {
    assert (life + [c])[..|life|] == life;
    assert [c][..0] == [];
  }

  lemma RepliedLater(lives: seq<seq<Increment>>, c: Increment, restart: bool, operation: string, reply: int)
    requires Replied(lives, operation, reply)
    ensures Replied(Extended(lives, c, restart), operation, reply)
  {
    var k, i :|
      0 <= k < |lives| && 0 <= i < |lives[k]| && lives[k][i].operation == operation &&
      reply == Sum(lives[k][..i + 1]);
    var more := Extended(lives, c, restart);
    assert more[k][..i + 1] == lives[k][..i + 1];
  }

  lemma LastReplied(lives: seq<seq<Increment>>)
    requires Current(lives) != []
    ensures Replied(lives, Current(lives)[|Current(lives)| - 1].operation, Sum(Current(lives)))
  {
    var k, life := |lives| - 1, Current(lives);
    assert lives[k][..|life| - 1 + 1] == life;
  }

  lemma RepliesLater(lives: seq<seq<Increment>>, outcomes: map<string, int>, c: Increment, restart: bool)
    requires RepliesRight(lives, outcomes)
    ensures RepliesRight(Extended(lives, c, restart), outcomes)
  {
    hide Replied, Extended;
    forall operation | operation in outcomes
      ensures Replied(Extended(lives, c, restart), operation, outcomes[operation])
    {
      RepliedLater(lives, c, restart, operation, outcomes[operation]);
    }
  }

  lemma ExtendedLife(lives: seq<seq<Increment>>, c: Increment, restart: bool)
    requires restart || lives != []
    ensures Current(Extended(lives, c, restart)) == (if restart then [] else Current(lives)) + [c]
  {}

  lemma StillDistinct(lives: seq<seq<Increment>>, c: Increment, restart: bool, outcomes: map<string, int>)
    requires AllDistinct(lives) && c.operation !in outcomes
    requires restart || AllRecorded(Current(lives), outcomes)
    ensures AllDistinct(Extended(lives, c, restart))
  {}

  /** The write that takes effect adds its increment to the life once. */
  lemma WriteKeeps(s: State)
    requires Invariant(s) && s.phase.Computed?
    ensures Invariant(Next(s, WriteCounter))
  {
    hide Replied, RepliesRight, Sum, Extended, AllDistinct;
    var c, restart := s.phase.command, s.phase.restart;
    ExtendedLife(s.lives, c, restart);
    StillDistinct(s.lives, c, restart, s.outcomes);
    SumOfExtended(if restart then [] else Current(s.lives), c);
    SumOfNone();
    RepliesLater(s.lives, s.outcomes, c, restart);
    LastReplied(Extended(s.lives, c, restart));
    var life := Current(Extended(s.lives, c, restart));
    assert life[..|life| - 1] == if restart then [] else Current(s.lives);
  }

  lemma SumOfNone()
    ensures Sum([]) == 0
  {}

  lemma ReadKeeps(s: State)
    requires Invariant(s) && s.phase.Cleared?
    ensures Invariant(Next(s, ReadCounter))
  {
    hide Replied, RepliesRight, Sum, AllDistinct;
    if Live(s.entry) { LastReplied(s.lives); }
  }

  lemma RecordKeeps(s: State)
    requires Invariant(s) && s.phase.Settling?
    ensures Invariant(Next(s, RecordOutcome))
  {
    hide Replied, Sum, AllDistinct;
  }

  lemma StepKeepsInvariant(s: State, a: Action, s': State)
    requires Invariant(s) && Step(s, a, s') && !(a.Drop? && Unsettled(s))
    ensures Invariant(s')
  {
    hide Replied, RepliesRight, Sum, AllDistinct, Extended, AfterRead;
    match a
    case WriteCounter => WriteKeeps(s);
    case ReadCounter => ReadKeeps(s);
    case RecordOutcome => RecordKeeps(s);
    case _ =>
  }

  // ----- runs -----

  ghost predicate IsPath(states: seq<State>, actions: seq<Action>) {
    && |states| == |actions| + 1
    && forall i :: 0 <= i < |actions| ==> Step(states[i], actions[i], states[i + 1])
  }

  ghost predicate NeverDropsUnsettled(states: seq<State>, actions: seq<Action>)
    requires |states| == |actions| + 1
  {
    forall i :: 0 <= i < |actions| ==> !(actions[i].Drop? && Unsettled(states[i]))
  }

  /** In every run that never drops a command which has taken effect and has no outcome,
      a live counter is the sum of the increments that took effect since it last started
      from nothing, each counted once, and every recorded outcome is the running total at
      its own increment. */
  lemma {:induction false} CounterIsExactInEveryRun(states: seq<State>, actions: seq<Action>, n: nat)
    requires IsPath(states, actions) && states[0] == Initial() && NeverDropsUnsettled(states, actions)
    requires n < |states|
    ensures var s := states[n];
            && Invariant(s)
            && (Live(s.entry) ==> s.entry.total == Sum(Current(s.lives)) && Distinct(Current(s.lives)))
            && (forall operation :: operation in s.outcomes ==> Replied(s.lives, operation, s.outcomes[operation]))
  {
    hide Step, Replied, Sum;
    if n > 0 {
      CounterIsExactInEveryRun(states, actions, n - 1);
      assert Step(states[n - 1], actions[n - 1], states[n - 1 + 1]);
      StepKeepsInvariant(states[n - 1], actions[n - 1], states[n]);
    }
  }

  /** The condition is exact: wherever such a command is dropped, one more increment and
      a duplicate of the dropped command make the counter count it twice. */
  lemma DroppedCommandCanCountTwice(s: State, other: Increment)
    returns (states: seq<State>, actions: seq<Action>)
    requires Invariant(s) && Unsettled(s)
    requires other.operation != s.phase.command.operation && other.operation !in s.outcomes
    ensures IsPath(states, actions) && states[0] == s
    ensures var t := states[|states| - 1];
            && Live(t.entry) && !Distinct(Current(t.lives))
            && t.entry.total == s.entry.total + other.amount + s.phase.command.amount
  {
    hide Replied, RepliesRight, Sum, AllDistinct;
    var c := s.phase.command;
    var s1 := Next(s, Drop);
    var t := Counted(s1, other);
    var s6 := Next(t[4], RecordOutcome);
    var u := Counted(s6, c);
    states := [s] + t + u;
    actions := [Drop] + Counting(other) + [RecordOutcome] + Counting(c);
    var life := Current(u[4].lives);
    assert life == Current(s.lives) + [other] + [c];
    assert life[|Current(s.lives)| - 1].operation == life[|life| - 1].operation;
  }

  function Counting(c: Increment): seq<Action> { [Deliver(c), LookUp, ReadCounter, WriteCounter] }

  /** One increment carried out on a live counter, up to its write. */
  lemma Counted(s: State, c: Increment) returns (t: seq<State>)
    requires s.phase.Idle? && Live(s.entry) && s.entry.operation != c.operation && c.operation !in s.outcomes
    requires s.lives != []
    ensures |t| == 5 && t[0] == s && IsPath(t, Counting(c))
    ensures t[4] == State(Counter(c.operation, s.entry.total + c.amount, false), s.outcomes,
                          Settling(c, s.entry.total + c.amount), Extended(s.lives, c, false))
  {
    var t1 := Next(s, Deliver(c));
    var t2 := Next(t1, LookUp);
    var t3 := Next(t2, ReadCounter);
    t := [s, t1, t2, t3, Next(t3, WriteCounter)];
  }

  /** The same from the very beginning: a run in which an increment of 1 takes effect, is
      dropped without an outcome, and is counted again when its duplicate arrives. */
  lemma DoubleCountRun() returns (states: seq<State>, actions: seq<Action>)
    ensures IsPath(states, actions) && states[0] == Initial()
    ensures var t := states[|actions|];
            Live(t.entry) && !Distinct(Current(t.lives)) && t.entry.total == 3
  {
    hide Sum;
    var c, other := Increment("a", 1), Increment("b", 1);
    var s1 := Next(Initial(), Deliver(c));
    var s2 := Next(s1, LookUp);
    var s3 := Next(s2, ReadCounter);
    var s4 := Next(s3, WriteCounter);
    var a, x := [Initial(), s1, s2, s3, s4], [Deliver(c), LookUp, ReadCounter, WriteCounter];
    assert IsPath(a, x);
    assert NeverDropsUnsettled(a, x);
    CounterIsExactInEveryRun(a, x, 4);
    var b, y := DroppedCommandCanCountTwice(s4, other);
    Joined(a, x, b, y);
    states, actions := a + b[1..], x + y;
  }

  lemma Joined(a: seq<State>, x: seq<Action>, b: seq<State>, y: seq<Action>)
    requires IsPath(a, x) && IsPath(b, y) && a[|a| - 1] == b[0]
    ensures IsPath(a + b[1..], x + y) && (a + b[1..])[0] == a[0] && (a + b[1..])[|x| + |y|] == b[|y|]
  {
    hide Step;
    var c, z := a + b[1..], x + y;
    forall i | 0 <= i < |z| ensures Step(c[i], z[i], c[i + 1]) {
      if i < |x| { assert Step(a[i], x[i], a[i + 1]); } else { assert Step(b[i - |x|], y[i - |x|], b[i - |x| + 1]); }
    }
  }
}
