/** Compare-and-set under overlapping coordinators: when a write of the state stream
    replaces the record its coordinator decided on. */
module NatsOverlap {
  import opened Common
  import opened NatsFencing

  function GuardOf(p: Phase): Option<nat> {
    match p
    case Guarded(g) => Some(g)
    case Decided(g, _, _) => Some(g)
    case Ready(g, _, _, _) => Some(g)
    case _ => None
  }

  predicate HasRead(p: Phase) { p.Decided? || p.Ready? }

  /** No two workers ever hold the same guard. */
  ghost predicate GuardsUnique(s: State) {
    && (forall w :: w in s.workers && GuardOf(s.workers[w].phase).Some? ==>
        GuardOf(s.workers[w].phase).value <= s.sequence)
    && (forall u, w :: u in s.workers && w in s.workers && u != w && GuardOf(s.workers[u].phase).Some? ==>
          GuardOf(s.workers[u].phase) != GuardOf(s.workers[w].phase))
  }

  lemma StepKeepsGuards(s: State, a: Action, w: nat, now: real, s': State)
    requires GuardsUnique(s) && Step(s, a, w, now, s')
    ensures GuardsUnique(s')
  {
    hide Proceeds, HeaderFor, HeaderHolds, NewData, GuardSequence, Onlookers, Base;
  }

  /** The target as a worker that has read it finds it: what it read while nobody has
      stored there since, something newer once somebody has. */
  ghost predicate Accounted(last: map<Subject, Record>, sequence: nat, disturbed: bool, w: Worker) {
    HasRead(w.phase) ==>
      && (w.phase.seen.Some? ==> w.phase.seen.value.sequence <= sequence)
      && (w.command.Swap? || w.command.Delete? ==>
            w.phase.seen.Some? && w.phase.seen.value.sequence == w.command.expected)
      && (Target(w.command) in last ==>
            if disturbed then w.phase.seen.Some? ==> w.phase.seen.value.sequence < last[Target(w.command)].sequence
            else w.phase.seen == Some(last[Target(w.command)]))
  }

  ghost predicate AllAccounted(s: State) {
    forall w :: w in s.workers ==> Accounted(s.last, s.sequence, w in s.disturbed, s.workers[w])
  }

  /** A store leaves every account right: it disturbs those who look at the subject. */
  lemma StoreAccounts(s: State, subject: Subject, data: Data, until: real, w: Worker, disturbed: bool)
    requires Bounded(s) && Accounted(s.last, s.sequence, disturbed, w)
    ensures var s' := Stored(s, subject, data, until);
            Accounted(s'.last, s'.sequence, disturbed || Target(w.command) == subject, w)
  {}

  lemma GuardAccounts(s: State, now: real, w: Worker, disturbed: bool)
    requires Bounded(s) && Accounted(s.last, s.sequence, disturbed, w)
    ensures var s' := Stored(s, Guard, Mark, now); Accounted(s'.last, s'.sequence, disturbed, w)
  {
    StoreAccounts(s, Guard, Mark, now, w, disturbed);
    assert Target(w.command) != Guard;
  }

  lemma ReadAccounts(s: State, c: Command, guard: nat, base: int, now: real)
    requires Bounded(s) && Proceeds(c, Look(s, Target(c)), now)
    ensures Accounted(s.last, s.sequence, false, Worker(c, Decided(guard, Look(s, Target(c)), base)))
  {}

  lemma StepKeepsAccounts(s: State, a: Action, w: nat, now: real, s': State)
    requires Bounded(s) && AllAccounted(s) && Step(s, a, w, now, s')
    ensures AllAccounted(s')
  {
    hide Proceeds, HeaderFor, HeaderHolds, NewData, Base, Bounded;
    match a
    case PublishGuard =>
      forall u | u in s.workers ensures Accounted(Stored(s, Guard, Mark, now).last, s.sequence + 1, u in s.disturbed,
          s.workers[u]) {
        GuardAccounts(s, now, s.workers[u], u in s.disturbed);
      }
    case ReadTarget =>
      var c := s.workers[w].command;
      if Proceeds(c, Look(s, Target(c)), now) {
        ReadAccounts(s, c, s.workers[w].phase.guard, Base(c, Look(s, Target(c)), now), now);
      }
    case Publish =>
      var c, p := s.workers[w].command, s.workers[w].phase;
      if HeaderHolds(s, p.header) {
        var data := NewData(c, p.guard, p.base);
        forall u | u in s'.workers ensures Accounted(s'.last, s'.sequence, u in s'.disturbed, s'.workers[u]) {
          StoreAccounts(s, Target(c), data, now, s.workers[u], u in s.disturbed);
        }
      }
    case _ =>
  }

  /** Only a store on a lease header can disturb the holder of the last guard. */
  ghost predicate GuardProtects(s: State) {
    forall w :: w in s.workers && HasRead(s.workers[w].phase) ==>
      && (w in s.overtaken ==> w in s.disturbed)
      && (GuardOf(s.workers[w].phase) == Some(GuardSequence(s)) && w in s.disturbed ==> w in s.overtaken)
  }

  lemma LoneWriter(s: State, w: nat, u: nat)
    requires WorkersHonest(s) && GuardsUnique(s) && w in s.workers && u in s.workers && u != w
    requires s.workers[w].phase.Ready? && s.workers[w].phase.header.OnGuard? &&
              HeaderHolds(s, s.workers[w].phase.header)
    ensures GuardOf(s.workers[u].phase) != Some(GuardSequence(s))
  {
    assert Honest(s.last, s.workers[w]);
  }

  lemma PublishKeepsProtection(s: State, w: nat, now: real, s': State)
    requires WorkersHonest(s) && GuardsUnique(s) && GuardProtects(s) && Step(s, Publish, w, now, s')
    ensures GuardProtects(s')
  {
    hide Proceeds, HeaderFor, NewData, WorkersHonest, GuardsUnique, HeaderHolds;
    var h := s.workers[w].phase.header;
    if HeaderHolds(s, h) && h.OnGuard? {
      forall u | u in s.workers && u != w ensures GuardOf(s.workers[u].phase) != Some(GuardSequence(s)) {
        LoneWriter(s, w, u);
      }
    }
    assert GuardSequence(s') == GuardSequence(s);
  }

  lemma StepKeepsProtection(s: State, a: Action, w: nat, now: real, s': State)
    requires WorkersHonest(s) && GuardsUnique(s) && GuardProtects(s) && Step(s, a, w, now, s')
    ensures GuardProtects(s')
  {
    hide Proceeds, HeaderFor, NewData, WorkersHonest, HeaderHolds, Published, Onlookers, Base;
    if a.Publish? { PublishKeepsProtection(s, w, now, s'); }
  }

  lemma {:induction false} RunKeepsAccounts(states: seq<State>, events: seq<Event>, n: nat)
    requires IsRun(states, events) && n < |states|
    ensures GuardsUnique(states[n]) && AllAccounted(states[n]) && GuardProtects(states[n])
  {
    hide Step, Bounded, LeasesLatest, WorkersHonest, WritesFenced;
    if n > 0 {
      RunKeepsAccounts(states, events, n - 1);
      RunKeepsInvariant(states, events, n - 1);
      var e, s, s' := events[n - 1], states[n - 1], states[n];
      assert Step(s, e.action, e.worker, e.now, states[n - 1 + 1]);
      StepKeepsGuards(s, e.action, e.worker, e.now, s');
      StepKeepsAccounts(s, e.action, e.worker, e.now, s');
      StepKeepsProtection(s, e.action, e.worker, e.now, s');
    }
  }

  /** A publication that is going through. */
  predicate Stores(s: State, e: Event) {
    && e.action.Publish? && e.worker in s.workers && s.workers[e.worker].phase.Ready?
    && HeaderHolds(s, s.workers[e.worker].phase.header)
  }

  /** The record it replaces is the one its coordinator decided on. */
  predicate ReplacesWhatItRead(s: State, w: nat)
    requires w in s.workers && s.workers[w].phase.Ready?
  {
    Look(s, Target(s.workers[w].command)) == s.workers[w].phase.seen
  }

  /** Whatever overlaps, and whichever header it carries, a write that finds a record on
      its target replaces the one it decided on if and only if nobody has stored there
      since it read; a swap or a deletion then replaces the revision it expected, and
      otherwise another one. Under the guard, only a store on a lease header counts. */
  lemma WriteReplacesWhatItReadIffUndisturbed(states: seq<State>, events: seq<Event>, n: nat)
    requires IsRun(states, events) && n < |events| && Stores(states[n], events[n])
    ensures var s, w := states[n], events[n].worker;
            var c := s.workers[w].command;
            Target(c) in s.last ==>
              && (ReplacesWhatItRead(s, w) <==> w !in s.disturbed)
              && (c.Swap? || c.Delete? ==> (s.last[Target(c)].sequence == c.expected <==> w !in s.disturbed))
              && (s.workers[w].phase.header.OnGuard? ==> (ReplacesWhatItRead(s, w) <==> w !in s.overtaken))
  {
    hide Step, Bounded, LeasesLatest, WritesFenced, GuardsUnique, Validated, SeenStill;
    RunKeepsAccounts(states, events, n);
    RunKeepsInvariant(states, events, n);
    var s, w := states[n], events[n].worker;
    assert Honest(s.last, s.workers[w]);
    assert Accounted(s.last, s.sequence, w in s.disturbed, s.workers[w]);
  }

  /** The condition in terms of the commands: a worker is disturbed if and only if some
      publication on its key went through between its read and now. */
  lemma {:induction false} DisturbedIffStoredBetween(states: seq<State>, events: seq<Event>, m: nat, n: nat, w: nat)
    requires IsRun(states, events) && m < n <= |events| && events[m] == Event(ReadTarget, w, events[m].now)
    requires forall k :: m < k <= n ==> w in states[k].workers && HasRead(states[k].workers[w].phase)
    ensures w in states[m].workers && states[n].workers[w].command == states[m].workers[w].command
    ensures var subject := Target(states[n].workers[w].command);
            w in states[n].disturbed <==>
            exists i :: m < i < n && Stores(states[i], events[i]) &&
                        Target(states[i].workers[events[i].worker].command) == subject
    decreases n - m
  {
    hide Step, Stores;
    assert Step(states[m], events[m].action, w, events[m].now, states[m + 1]);
    if n == m + 1 {
      JustRead(states[m], w, events[m].now, states[m + 1]);
    } else {
      var e, s, s' := events[n - 1], states[n - 1], states[n];
      DisturbedIffStoredBetween(states, events, m, n - 1, w);
      assert Step(s, e.action, e.worker, e.now, states[n - 1 + 1]);
      StepDisturbs(s, e, s', w);
    }
  }

  lemma JustRead(s: State, w: nat, now: real, s': State)
    requires Step(s, ReadTarget, w, now, s') && w in s'.workers
    ensures w in s.workers && s'.workers[w].command == s.workers[w].command && w !in s'.disturbed
  {
    hide Proceeds, Base;
  }

  lemma StepDisturbs(s: State, e: Event, s': State, w: nat)
    requires Step(s, e.action, e.worker, e.now, s')
    requires w in s.workers && HasRead(s.workers[w].phase) && w in s'.workers && HasRead(s'.workers[w].phase)
    ensures s'.workers[w].command == s.workers[w].command
    ensures w in s'.disturbed <==>
            || w in s.disturbed
            || (Stores(s, e) && Target(s.workers[e.worker].command) == Target(s.workers[w].command))
  {
    hide Proceeds, HeaderFor, HeaderHolds, NewData, Base;
  }

  // ----- a run in which a leased swap replaces another revision -----

  ghost predicate IsPath(states: seq<State>, events: seq<Event>) {
    && |states| == |events| + 1
    && forall i :: 0 <= i < |events| ==>
        Step(states[i], events[i].action, events[i].worker, events[i].now, states[i + 1])
  }

  ghost predicate AllAt(events: seq<Event>, now: real) { forall i :: 0 <= i < |events| ==> events[i].now == now }

  lemma JoinPaths(a: seq<State>, x: seq<Event>, b: seq<State>, y: seq<Event>)
    requires IsPath(a, x) && IsPath(b, y) && a[|a| - 1] == b[0]
    ensures IsPath(a + b[1..], x + y)
    ensures (a + b[1..])[0] == a[0] && (a + b[1..])[|x| + |y|] == b[|y|]
  {
    hide Step;
    var c, z := a + b[1..], x + y;
    forall i | 0 <= i < |z| ensures Step(c[i], z[i].action, z[i].worker, z[i].now, c[i + 1]) {
      if i < |x| {
        assert Step(a[i], x[i].action, x[i].worker, x[i].now, a[i + 1]);
      } else {
        var j := i - |x|;
        assert Step(b[j], y[j].action, y[j].worker, y[j].now, b[j + 1]);
      }
    }
  }

  /** A worker ready to publish its command, the guard it took being the last. */
  function ReadyState(s: State, w: nat, c: Command, now: real, header: Header): State {
    var seen := Look(s, Target(c));
    Stored(s, Guard, Mark, now).(
      workers := s.workers[w := Worker(c, Ready(s.sequence + 1, seen, Base(c, seen, now), header))],
      overtaken := s.overtaken - {w}, disturbed := s.disturbed - {w})
  }

  /** A worker starts and takes the guard. */
  lemma TakesGuard(s: State, w: nat, c: Command, now: real) returns (states: seq<State>, events: seq<Event>)
    requires w !in s.workers
    ensures IsPath(states, events) && |states| == 4 && |events| == 3 && states[0] == s && AllAt(events, now)
    ensures states[3] == Stored(s, Guard, Mark, now).(workers := s.workers[w := Worker(c, Guarded(s.sequence + 1))])
  {
    var s1 := s.(workers := s.workers[w := Worker(c, Begun)]);
    var s2 := At(s1, w, SawGuard(GuardSequence(s1)));
    var s3 := GuardPublished(s2, w, GuardSequence(s1), now);
    states := [s, s1, s2, s3];
    events := [Event(Start(c), w, now), Event(ReadGuard, w, now), Event(PublishGuard, w, now)];
  }

  /** It reads its target and validates its header. */
  lemma Validates(s: State, w: nat, guard: nat, now: real, header: Header)
    returns (states: seq<State>, events: seq<Event>)
    requires w in s.workers && s.workers[w].phase == Guarded(guard)
    requires var c := s.workers[w].command;
             && Proceeds(c, Look(s, Target(c)), now) && HeaderFor(s, c, guard, Look(s, Target(c)), now) == Some(header)
    ensures IsPath(states, events) && |states| == 3 && |events| == 2 && states[0] == s && AllAt(events, now)
    ensures var c := s.workers[w].command;
            var seen := Look(s, Target(c));
            states[2] == s.(workers := s.workers[w := Worker(c, Ready(guard, seen, Base(c, seen, now), header))],
                            overtaken := s.overtaken - {w}, disturbed := s.disturbed - {w})
  {
    hide Proceeds, HeaderFor, Base;
    var c := s.workers[w].command;
    var seen := Look(s, Target(c));
    var base := Base(c, seen, now);
    var s1 := At(s.(overtaken := s.overtaken - {w}, disturbed := s.disturbed - {w}), w, Decided(guard, seen, base));
    SameLeases(s, s1, c, guard, seen, now);
    states := [s, s1, At(s1, w, Ready(guard, seen, base, header))];
    events := [Event(ReadTarget, w, now), Event(ReadLease, w, now)];
  }

  /** The five steps that bring a command to its publication. */
  lemma GetsReady(s: State, w: nat, c: Command, now: real, header: Header)
    returns (states: seq<State>, events: seq<Event>)
    requires w !in s.workers && Proceeds(c, Look(s, Target(c)), now)
    requires HeaderFor(Stored(s, Guard, Mark, now), c, s.sequence + 1, Look(s, Target(c)), now) == Some(header)
    ensures IsPath(states, events) && |states| == 6 && |events| == 5 && states[0] == s && AllAt(events, now)
    ensures states[5] == ReadyState(s, w, c, now, header)
  {
    hide Proceeds, HeaderFor, Base, IsPath;
    var a, x := TakesGuard(s, w, c, now);
    assert Look(a[3], Target(c)) == Look(s, Target(c));
    SameLeases(Stored(s, Guard, Mark, now), a[3], c, s.sequence + 1, Look(s, Target(c)), now);
    var b, y := Validates(a[3], w, s.sequence + 1, now, header);
    JoinPaths(a, x, b, y);
    states, events := a + b[1..], x + y;
    assert b[2].workers == s.workers[w := b[2].workers[w]];
  }

  lemma SameLeases(s: State, s': State, c: Command, guard: nat, seen: Option<Record>, now: real)
    requires s'.last == s.last
    ensures HeaderFor(s', c, guard, seen, now) == HeaderFor(s, c, guard, seen, now)
  {}

  lemma OnePublication(s: State, w: nat, until: real)
    requires w in s.workers && s.workers[w].phase.Ready?
    ensures IsPath([s, Published(s, w, until)], [Event(Publish, w, until)])
  {
    hide Published;
  }

  /** A command carried out without interruption. */
  lemma Performed(s: State, w: nat, c: Command, now: real, header: Header, until: real)
    returns (states: seq<State>, events: seq<Event>)
    requires w !in s.workers && Proceeds(c, Look(s, Target(c)), now)
    requires HeaderFor(Stored(s, Guard, Mark, now), c, s.sequence + 1, Look(s, Target(c)), now) == Some(header)
    ensures IsPath(states, events) && |states| == 7 && |events| == 6 && states[0] == s
    ensures states[6] == Published(ReadyState(s, w, c, now, header), w, until)
    ensures until == now ==> AllAt(events, now)
  {
    hide Proceeds, HeaderFor, IsPath, Published;
    var a, x := GetsReady(s, w, c, now, header);
    OnePublication(a[5], w, until);
    JoinPaths(a, x, [a[5], Published(a[5], w, until)], [Event(Publish, w, until)]);
    states, events := a + [a[5], Published(a[5], w, until)][1..], x + [Event(Publish, w, until)];
    IsPathSizes(a, x);
    IsPathSizes(states, events);
  }

  lemma IsPathSizes(states: seq<State>, events: seq<Event>)
    requires IsPath(states, events)
    ensures |states| == |events| + 1
  {}

  /** A live lease and a live value to swap. */
  ghost predicate Prepared(s: State, key: string, p: Proof, now: real) {
    && ValueAt(key) in s.last && s.last[ValueAt(key)].data.Value? && s.last[ValueAt(key)].expiresAt > now
    && LeaseOn(p.resource) in s.last && LeaseLive(s.last[LeaseOn(p.resource)], now)
    && Proves(s.last[LeaseOn(p.resource)], p)
  }

  /** The last step stored the worker's swap over a revision it did not expect. */
  ghost predicate SwappedAnother(states: seq<State>, events: seq<Event>, key: string) {
    && |states| == |events| + 1 && events != []
    && var before, after, e := states[|events| - 1], states[|events|], events[|events| - 1];
       && Stores(before, e) && before.workers[e.worker].command.Swap? && before.workers[e.worker].command.proof.Some?
       && Target(before.workers[e.worker].command) == ValueAt(key)
       && ValueAt(key) in before.last && before.last[ValueAt(key)].sequence != before.workers[e.worker].command.expected
       && ValueAt(key) in after.last && after.last[ValueAt(key)].sequence == before.sequence + 1
  }

  function LeaseHeader(s: State, p: Proof): Header
    requires LeaseOn(p.resource) in s.last
  {
    OnLease(p.resource, s.last[LeaseOn(p.resource)].sequence)
  }

  lemma LeasedSwapProceeds(s: State, key: string, p: Proof, now: real, y: Bytes)
    requires Prepared(s, key, p, now)
    ensures var c := Swap(key, s.last[ValueAt(key)].sequence, y, 1.0, Some(p));
            && Proceeds(c, Look(s, Target(c)), now)
            && HeaderFor(Stored(s, Guard, Mark, now), c, s.sequence + 1, Look(s, Target(c)), now) ==
                Some(LeaseHeader(s, p))
  {}

  /** The value and the lease are as before once a worker has got ready. */
  lemma ReadyKeepsRecords(s: State, w: nat, c: Command, now: real, header: Header, subject: Subject)
    ensures subject != Guard ==> Look(ReadyState(s, w, c, now, header), subject) == Look(s, subject)
    ensures var s' := ReadyState(s, w, c, now, header);
            && s'.sequence == s.sequence + 1 && GuardSequence(s') == s.sequence + 1
            && s'.workers == s.workers[w := s'.workers[w]] && s'.workers[w].command == c
            && s'.workers[w].phase.Ready? && s'.workers[w].phase.header == header
  {}

  lemma PublishedRecords(s: State, u: nat, until: real, subject: Subject)
    requires u in s.workers && s.workers[u].phase.Ready? && HeaderHolds(s, s.workers[u].phase.header)
    ensures var s', target := Published(s, u, until), Target(s.workers[u].command);
            && s'.workers == s.workers - {u} && s'.sequence == s.sequence + 1
            && target in s'.last && s'.last[target].sequence == s.sequence + 1
            && s'.last[target].expiresAt == until + Lifetime(s.workers[u].command)
            && s'.last[target].data == NewData(s.workers[u].command, s.workers[u].phase.guard, s.workers[u].phase.base)
            && (subject != target ==> Look(s', subject) == Look(s, subject))
  {
    hide HeaderHolds, NewData, Onlookers;
  }

  /** A rival's unleased swap of the same revision goes through between the leased
      swap's read and its publication. */
  lemma RivalGoesFirst(s: State, s1: State, u: nat, w: nat, key: string, p: Proof, now: real, x: Bytes, c: Command)
    returns (states: seq<State>, events: seq<Event>)
    requires Bounded(s) && u !in s.workers && u != w && Prepared(s, key, p, now) && c.Swap?
    requires s1 == ReadyState(s, w, c, now, LeaseHeader(s, p))
    ensures IsPath(states, events) && states[0] == s1
    ensures var s2 := states[|events|];
            && w in s2.workers && s2.workers[w] == s1.workers[w] && HeaderHolds(s2, LeaseHeader(s, p))
            && ValueAt(key) in s2.last && s2.last[ValueAt(key)].sequence > s.last[ValueAt(key)].sequence
  {
    hide IsPath, Published, ReadyState;
    var e := s.last[ValueAt(key)].sequence;
    var rival, header := Swap(key, e, x, 1.0, None), OnGuard(s.sequence + 2);
    ReadyKeepsRecords(s, w, c, now, LeaseHeader(s, p), ValueAt(key));
    ReadyKeepsRecords(s, w, c, now, LeaseHeader(s, p), LeaseOn(p.resource));
    states, events := Performed(s1, u, rival, now, header, now);
    var r := ReadyState(s1, u, rival, now, header);
    ReadyKeepsRecords(s1, u, rival, now, header, LeaseOn(p.resource));
    PublishedRecords(r, u, now, LeaseOn(p.resource));
  }

  /** From any state that holds a live lease and a value, a path on which a swap under
      the lease is stored over a revision that it did not expect. */
  lemma LeasedSwapCanReplaceAnotherRevision(s: State, u: nat, w: nat, key: string, p: Proof, now: real, x: Bytes,
                                            y: Bytes)
    returns (states: seq<State>, events: seq<Event>)
    requires Bounded(s) && u !in s.workers && w !in s.workers && u != w && Prepared(s, key, p, now)
    ensures IsPath(states, events) && states[0] == s && SwappedAnother(states, events, key)
  {
    hide IsPath, Bounded, Published, ReadyState, Prepared, HeaderHolds, Proceeds, HeaderFor;
    assert ValueAt(key) in s.last && LeaseOn(p.resource) in s.last by { IsPrepared(s, key, p, now); }
    var c, header := Swap(key, s.last[ValueAt(key)].sequence, y, 1.0, Some(p)), LeaseHeader(s, p);
    LeasedSwapProceeds(s, key, p, now, y);
    var a, ea := GetsReady(s, w, c, now, header);
    var s1 := ReadyState(s, w, c, now, header);
    ReadyKeepsRecords(s, w, c, now, header, Guard);
    var b, eb := RivalGoesFirst(s, s1, u, w, key, p, now, x, c);
    IsPathSizes(a, ea);
    IsPathSizes(b, eb);
    JoinPaths(a, ea, b, eb);
    var ab, eab := a + b[1..], ea + eb;
    IsPathSizes(ab, eab);
    var s2 := b[|eb|];
    PublishedRecords(s2, w, now, Guard);
    OnePublication(s2, w, now);
    JoinPaths(ab, eab, [s2, Published(s2, w, now)], [Event(Publish, w, now)]);
    states, events := ab + [s2, Published(s2, w, now)][1..], eab + [Event(Publish, w, now)];
    assert states[|events| - 1] == ab[|eab|] == s2 && states[|events|] == Published(s2, w, now);
  }

  lemma IsPrepared(s: State, key: string, p: Proof, now: real)
    requires Prepared(s, key, p, now)
    ensures ValueAt(key) in s.last && LeaseOn(p.resource) in s.last
  {}

  /** From the empty stream: a lease is acquired and a value created. */
  lemma PreparedRun() returns (states: seq<State>, events: seq<Event>, s: State)
    ensures IsRun(states, events) && s == states[|events|] && s.workers == map[] && Bounded(s)
    ensures Prepared(s, "k", Proof("r", "h", "t", 1), 1.0)
  {
    hide IsPath, Published, ReadyState, Bounded;
    var s0 := Initial();
    var acquire, create := Acquire("r", "h", "t", 8.0), Create("k", [], 8.0, None);
    var a, ea := Performed(s0, 0, acquire, 1.0, OnGuard(1), 1.0);
    var r1 := ReadyState(s0, 0, acquire, 1.0, OnGuard(1));
    ReadyKeepsRecords(s0, 0, acquire, 1.0, OnGuard(1), ValueAt("k"));
    assert r1.workers[0].phase.guard == 1 by { GuardIsNext(s0, 0, acquire, 1.0, OnGuard(1)); }
    PublishedRecords(r1, 0, 1.0, ValueAt("k"));
    var s1 := a[6];
    assert s1.workers == map[];
    var b, eb := Performed(s1, 1, create, 1.0, OnGuard(3), 1.0);
    var r2 := ReadyState(s1, 1, create, 1.0, OnGuard(3));
    ReadyKeepsRecords(s1, 1, create, 1.0, OnGuard(3), LeaseOn("r"));
    PublishedRecords(r2, 1, 1.0, LeaseOn("r"));
    s := b[6];
    assert s.workers == map[];
    IsPathSizes(a, ea);
    IsPathSizes(b, eb);
    JoinPaths(a, ea, b, eb);
    states, events := a + b[1..], ea + eb;
    PathFromInitial(states, events);
    RunBounded(states, events, |events|);
  }

  lemma GuardIsNext(s: State, w: nat, c: Command, now: real, header: Header)
    ensures ReadyState(s, w, c, now, header).workers[w].phase.guard == s.sequence + 1
  {}

  lemma PathFromInitial(states: seq<State>, events: seq<Event>)
    requires IsPath(states, events) && states[0] == Initial()
    ensures IsRun(states, events)
  {
    hide Step;
  }

  lemma RunBounded(states: seq<State>, events: seq<Event>, n: nat)
    requires IsRun(states, events) && n < |states|
    ensures Bounded(states[n])
  {
    hide IsRun, Bounded, LeasesLatest, WorkersHonest, WritesFenced;
    RunKeepsInvariant(states, events, n);
  }

  /** A whole run, from the empty stream, that ends with a leased swap stored over a
      revision it did not expect. */
  lemma LeasedSwapRun() returns (states: seq<State>, events: seq<Event>)
    ensures IsRun(states, events) && SwappedAnother(states, events, "k")
  {
    hide IsPath, IsRun, Bounded, Prepared, SwappedAnother;
    var a, ea, s := PreparedRun();
    var b, eb := LeasedSwapCanReplaceAnotherRevision(s, 1, 2, "k", Proof("r", "h", "t", 1), 1.0, [], []);
    RunIsPath(a, ea);
    IsPathSizes(a, ea);
    IsPathSizes(b, eb);
    JoinPaths(a, ea, b, eb);
    states, events := a + b[1..], ea + eb;
    PathFromInitial(states, events);
    SameEnd(a, ea, b, eb, "k");
  }

  lemma RunIsPath(states: seq<State>, events: seq<Event>)
    requires IsRun(states, events)
    ensures IsPath(states, events) && states[0] == Initial()
  {
    hide Step;
  }

  lemma SameEnd(a: seq<State>, ea: seq<Event>, b: seq<State>, eb: seq<Event>, key: string)
    requires |a| == |ea| + 1 && |b| == |eb| + 1 && a[|ea|] == b[0] && SwappedAnother(b, eb, key)
    ensures SwappedAnother(a + b[1..], ea + eb, key)
  {
    hide Stores;
    var c, e := a + b[1..], ea + eb;
    assert c[|e|] == b[|eb|] && c[|e| - 1] == b[|eb| - 1] && e[|e| - 1] == eb[|eb| - 1];
  }
}
