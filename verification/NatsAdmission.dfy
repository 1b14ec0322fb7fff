/** What a coordinator's command may do to the state stream: every stored record against
    what was live when the command read its key. Overlapping coordinators, stalls, crashes
    and expiry included. */
module NatsAdmission {
  import opened Common
  import opened NatsFencing
  import opened NatsOverlap

  /** What a caller finds at this time: expired records and tombstones are not there. */
  function Visible(record: Option<Record>, now: real): (data: Option<Data>)
    ensures data.Some? ==> record.Some? && !data.value.Tombstone?
  {
    if record.None? || record.value.data.Tombstone? || record.value.expiresAt <= now then None
    else Some(record.value.data)
  }

  function LeaseData(p: Proof): Data { Lease(p.holder, p.token, p.fencing) }

  /** Whether a command may go on, given the record on its key and the time: leases and
      creations need a free key, everything else the very thing it names. */
  predicate MayProceed(c: Command, record: Option<Record>, now: real) {
    var live := Visible(record, now);
    match c
    case Acquire(_, _, _, _) => live.None?
    case Renew(p, _) => live == Some(LeaseData(p))
    case Release(p) => live == Some(LeaseData(p))
    case Create(_, _, _, _) => live.None?
    case Swap(_, expected, _, _, _) => live.Some? && live.value.Value? && record.value.sequence == expected
    case Delete(_, expected, _) => live.Some? && live.value.Value? && record.value.sequence == expected
    case Increment(_, operation, _, _) => live.None? || (live.value.Counter? && live.value.operation != operation)
  }

  /** What a stored command leaves on its key, given what it read and when. */
  ghost predicate Leaves(c: Command, guard: nat, record: Option<Record>, read: real, left: Record, stamp: real) {
    var live := Visible(record, read);
    match c
    case Acquire(_, holder, token, ttl) => left.data == Lease(holder, token, guard) && left.expiresAt == stamp + ttl
    case Renew(_, ttl) => live == Some(left.data) && left.expiresAt == stamp + ttl
    case Release(_) => left.data == Tombstone
    case Create(_, payload, ttl, _) => left.data == Value(payload) && left.expiresAt == stamp + ttl
    case Swap(_, _, payload, ttl, _) => left.data == Value(payload) && left.expiresAt == stamp + ttl
    case Delete(_, _, _) => left.data == Tombstone
    case Increment(_, operation, amount, ttl) =>
      && left.data == Counter(operation, (if live.Some? && live.value.Counter? then live.value.total else 0) + amount)
      && left.expiresAt == stamp + ttl
  }

  // ----- each key holds its kind of record -----

  predicate Fits(subject: Subject, data: Data) {
    match subject
    case Guard => data.Mark?
    case LeaseOn(_) => data.Lease? || data.Tombstone?
    case ValueAt(_) => data.Value? || data.Counter? || data.Tombstone?
  }

  ghost predicate Fitting(s: State) { forall x :: x in s.last ==> Fits(x, s.last[x].data) }

  lemma StepKeepsFitting(s: State, e: Event, s': State)
    requires Fitting(s) && Step(s, e.action, e.worker, e.now, s')
    ensures Fitting(s')
  {
    hide Proceeds, HeaderFor, HeaderHolds, Onlookers, Base, Lifetime;
  }

  lemma {:induction false} RunKeepsFitting(states: seq<State>, events: seq<Event>, n: nat)
    requires IsRun(states, events) && n < |states|
    ensures Fitting(states[n])
  {
    hide Step, Fitting;
    if n == 0 {
      NothingMisfits();
    } else {
      RunKeepsFitting(states, events, n - 1);
      RunStep(states, events, n - 1);
      StepKeepsFitting(states[n - 1], events[n - 1], states[n]);
    }
  }

  lemma NothingMisfits()
    ensures Fitting(Initial())
  {}

  lemma RunStep(states: seq<State>, events: seq<Event>, n: nat)
    requires IsRun(states, events) && n < |events|
    ensures Step(states[n], events[n].action, events[n].worker, events[n].now, states[n + 1])
  {}

  // ----- reading -----

  lemma ProceedsIffMay(s: State, c: Command, now: real)
    requires Fitting(s)
    ensures var seen := Look(s, Target(c)); Proceeds(c, seen, now) <==> MayProceed(c, seen, now)
  {
    if Target(c) in s.last { assert Fits(Target(c), s.last[Target(c)].data); }
  }

  /** A command goes on from its read if and only if the record it finds allows it. */
  lemma GoesOnIffAllowed(states: seq<State>, events: seq<Event>, n: nat)
    requires IsRun(states, events) && n < |events| && events[n].action.ReadTarget?
    ensures var s, w := states[n], events[n].worker;
            && w in s.workers
            && var c := s.workers[w].command;
               w in states[n + 1].workers <==> MayProceed(c, Look(s, Target(c)), events[n].now)
  {
    hide Fitting, MayProceed, Proceeds, Base;
    RunStep(states, events, n);
    RunKeepsFitting(states, events, n);
    ProceedsIffMay(states[n], states[n].workers[events[n].worker].command, events[n].now);
  }

  /** Event m is the read on which worker w acts in state n. */
  ghost predicate ReadAt(states: seq<State>, events: seq<Event>, n: nat, w: nat, m: nat) {
    && m < n < |states| == |events| + 1
    && events[m].action.ReadTarget? && events[m].worker == w && w in states[m].workers && w in states[n].workers
    && states[n].workers[w].command == states[m].workers[w].command
    && (forall k :: m < k <= n ==> w in states[k].workers && HasRead(states[k].workers[w].phase))
    && var c, p := states[m].workers[w].command, states[n].workers[w].phase;
       && p.seen == Look(states[m], Target(c)) && p.base == Base(c, p.seen, events[m].now)
       && GuardOf(p) == GuardOf(states[m].workers[w].phase)
       && MayProceed(c, p.seen, events[m].now)
  }

  lemma {:induction false} ReadBefore(states: seq<State>, events: seq<Event>, n: nat, w: nat) returns (m: nat)
    requires IsRun(states, events) && n < |states| && w in states[n].workers && HasRead(states[n].workers[w].phase)
    ensures ReadAt(states, events, n, w, m)
  {
    hide Step, Proceeds, Base, MayProceed, Fitting;
    m := 0;
    if n > 0 {
      var s, e, s' := states[n - 1], events[n - 1], states[n];
      RunStep(states, events, n - 1);
      if e.action.ReadTarget? && e.worker == w {
        m := n - 1;
        RunKeepsFitting(states, events, n - 1);
        JustDecided(s, e, s');
      } else {
        StillDecided(s, e, s', w);
        m := ReadBefore(states, events, n - 1, w);
      }
    }
  }

  lemma JustDecided(s: State, e: Event, s': State)
    requires Fitting(s) && Step(s, e.action, e.worker, e.now, s') && e.action.ReadTarget? && e.worker in s'.workers
    ensures var w := e.worker;
            && w in s.workers && s'.workers[w].command == s.workers[w].command
            && var c, p := s.workers[w].command, s'.workers[w].phase;
               && p.Decided? && p.seen == Look(s, Target(c)) && p.base == Base(c, p.seen, e.now)
               && GuardOf(p) == GuardOf(s.workers[w].phase)
               && MayProceed(c, p.seen, e.now)
  {
    hide Fitting, MayProceed, Proceeds, Base;
    ProceedsIffMay(s, s.workers[e.worker].command, e.now);
  }

  lemma StillDecided(s: State, e: Event, s': State, w: nat)
    requires Step(s, e.action, e.worker, e.now, s') && w in s'.workers && HasRead(s'.workers[w].phase)
    requires !(e.action.ReadTarget? && e.worker == w)
    ensures w in s.workers && s'.workers[w].command == s.workers[w].command && HasRead(s.workers[w].phase)
    ensures var p, p' := s.workers[w].phase, s'.workers[w].phase;
            p'.seen == p.seen && p'.base == p.base && GuardOf(p') == GuardOf(p)
  {
    hide Proceeds, HeaderFor, HeaderHolds, NewData, Base, Onlookers, Lifetime;
  }

  // ----- storing -----

  lemma StoredLeaves(c: Command, guard: nat, seen: Option<Record>, read: real, sequence: nat, stamp: real)
    requires MayProceed(c, seen, read)
    ensures var left := Record(sequence, NewData(c, guard, Base(c, seen, read)), stamp + Lifetime(c));
            Leaves(c, guard, seen, read, left, stamp)
  {}

  /** In every run a stored command was allowed by the record it read, and leaves on its
      key what the command asked for. */
  lemma StoredWasAllowed(states: seq<State>, events: seq<Event>, n: nat) returns (m: nat)
    requires IsRun(states, events) && n < |events| && Stores(states[n], events[n])
    ensures ReadAt(states, events, n, events[n].worker, m)
    ensures var s, w := states[n], events[n].worker;
            var c, p := s.workers[w].command, s.workers[w].phase;
            && MayProceed(c, Look(states[m], Target(c)), events[m].now)
            && Target(c) in states[n + 1].last && states[n + 1].last[Target(c)].sequence == s.sequence + 1
            && Leaves(c, p.guard, Look(states[m], Target(c)), events[m].now,
                      states[n + 1].last[Target(c)], events[n].now)
  {
    hide IsRun, MayProceed, Leaves, NewData, Base, Lifetime, HeaderHolds, Onlookers;
    RunSizes(states, events);
    var s, w := states[n], events[n].worker;
    var c, p := s.workers[w].command, s.workers[w].phase;
    m := ReadBefore(states, events, n, w);
    StoredLeaves(c, p.guard, p.seen, events[m].now, s.sequence + 1, events[n].now);
    RunStep(states, events, n);
  }

  lemma RunSizes(states: seq<State>, events: seq<Event>)
    requires IsRun(states, events)
    ensures |states| == |events| + 1
  {}

  // ----- what becomes of a lease -----

  /** The lease of r is gone, or another one is in its place. */
  ghost predicate LeaseEnds(s: State, s': State, r: string) {
    && LeaseOn(r) in s.last && s.last[LeaseOn(r)].data.Lease?
    && (LeaseOn(r) !in s'.last || s'.last[LeaseOn(r)].data != s.last[LeaseOn(r)].data)
  }

  lemma EndsByStoreOrExpiry(s: State, e: Event, s': State, r: string)
    requires Step(s, e.action, e.worker, e.now, s') && LeaseEnds(s, s', r)
    ensures (e.action == Expire(LeaseOn(r)) && s.last[LeaseOn(r)].expiresAt <= e.now)
            || (Stores(s, e) && Target(s.workers[e.worker].command) == LeaseOn(r)
                && LeaseOn(r) in s'.last
                && s'.last[LeaseOn(r)].data == NewData(s.workers[e.worker].command, s.workers[e.worker].phase.guard,
                                                       s.workers[e.worker].phase.base))
  {
    hide Proceeds, HeaderFor, HeaderHolds, NewData, Base, Onlookers, Lifetime;
  }

  /** A release or renewal that goes through finds the lease it presents. */
  lemma PresentedIsStored(s: State, e: Event)
    requires WorkersHonest(s) && Fitting(s) && Stores(s, e)
    ensures var c := s.workers[e.worker].command;
            c.Renew? || c.Release? ==> Target(c) in s.last && s.last[Target(c)].data == LeaseData(c.lease)
  {
    var c := s.workers[e.worker].command;
    assert Honest(s.last, s.workers[e.worker]);
  }

  /** A lease ends in three ways only: the stream drops it after its time, its holder
      releases it, or an acquisition replaces it that found it expired. The fourth way is an
      acquisition overtaken, between its read and its write, by another command on the lease. */
  lemma LeaseIsExclusive(states: seq<State>, events: seq<Event>, n: nat, r: string)
    requires IsRun(states, events) && n < |events| && LeaseEnds(states[n], states[n + 1], r)
    ensures var s, e := states[n], events[n];
            var lease := s.last[LeaseOn(r)];
            || (e.action == Expire(LeaseOn(r)) && lease.expiresAt <= e.now)
            || (Stores(s, e) && s.workers[e.worker].command == Release(Proof(r, lease.data.holder, lease.data.token,
                                                                              lease.data.fencing)))
            || (Stores(s, e) && s.workers[e.worker].command.Acquire?
                && exists m: nat ::
                     && ReadAt(states, events, n, e.worker, m)
                     && (lease.expiresAt <= events[m].now || StoredBetween(states, events, m, n, LeaseOn(r))))
  {
    hide Step, ReadAt, Bounded, WorkersHonest, LeasesLatest, WritesFenced, Fitting, Stores, StoredBetween;
    var s, e := states[n], events[n];
    RunStep(states, events, n);
    EndsByStoreOrExpiry(s, e, states[n + 1], r);
    if Stores(s, e) && Target(WorkerOf(s, e).command) == LeaseOn(r) {
      RunKeepsInvariant(states, events, n);
      RunKeepsFitting(states, events, n);
      PresentedIsStored(s, e);
      match WorkerOf(s, e).command
      case Acquire(_, _, _, _) => AcquireFoundItFree(states, events, n, r);
      case Renew(p, _) => assert s.last[LeaseOn(r)].data == LeaseData(p);
      case Release(p) => assert p == Proof(r, p.holder, p.token, p.fencing);
      case _ =>
    }
  }

  function WorkerOf(s: State, e: Event): Worker
    requires Stores(s, e)
  {
    s.workers[e.worker]
  }

  /** Some command on this key was stored after event m and before event n. */
  ghost predicate StoredBetween(states: seq<State>, events: seq<Event>, m: nat, n: nat, subject: Subject)
    requires |states| == |events| + 1 && n <= |events|
  {
    exists i :: m < i < n && Stores(states[i], events[i]) &&
                Target(states[i].workers[events[i].worker].command) == subject
  }

  lemma AcquireFoundItFree(states: seq<State>, events: seq<Event>, n: nat, r: string)
    requires IsRun(states, events) && n < |events| && Stores(states[n], events[n])
    requires WorkerOf(states[n], events[n]).command.Acquire? && WorkerOf(states[n], events[n]).command.resource == r
    requires LeaseOn(r) in states[n].last && states[n].last[LeaseOn(r)].data.Lease?
    ensures exists m: nat ::
              && ReadAt(states, events, n, events[n].worker, m)
              && (states[n].last[LeaseOn(r)].expiresAt <= events[m].now
                  || StoredBetween(states, events, m, n, LeaseOn(r)))
  {
    hide Step, HeaderHolds, Base;
    var w := events[n].worker;
    var m := ReadBefore(states, events, n, w);
    ReadEvent(states, events, n, w, m);
    DisturbedIffStoredBetween(states, events, m, n, w);
    WriteReplacesWhatItReadIffUndisturbed(states, events, n);
  }

  lemma ReadEvent(states: seq<State>, events: seq<Event>, n: nat, w: nat, m: nat)
    requires ReadAt(states, events, n, w, m)
    ensures events[m] == Event(ReadTarget, w, events[m].now)
  {}

  /** Two different leases of one resource: somewhere between them the first one ended, in
      one of those ways. */
  lemma {:induction false} LeasesFollowEachOther(states: seq<State>, n: nat, k: nat, r: string) returns (i: nat)
    requires n < k < |states|
    requires LeaseOn(r) in states[n].last && states[n].last[LeaseOn(r)].data.Lease?
    requires LeaseOn(r) in states[k].last && states[k].last[LeaseOn(r)].data != states[n].last[LeaseOn(r)].data
    ensures n <= i < k && LeaseEnds(states[i], states[i + 1], r)
    ensures states[i].last[LeaseOn(r)].data == states[n].last[LeaseOn(r)].data
    decreases k - n
  {
    i := n;
    if !LeaseEnds(states[n], states[n + 1], r) { i := LeasesFollowEachOther(states, n + 1, k, r); }
  }

  // ----- what a creation and an increment do to a value -----

  /** A creation that nothing overtook replaces nothing that was live when it read. */
  lemma CreateReplacesNothingLive(states: seq<State>, events: seq<Event>, n: nat) returns (m: nat)
    requires IsRun(states, events) && n < |events| && Stores(states[n], events[n])
    requires WorkerOf(states[n], events[n]).command.Create?
    ensures ReadAt(states, events, n, events[n].worker, m)
    ensures var c := WorkerOf(states[n], events[n]).command;
            && Target(c) in states[n + 1].last && states[n + 1].last[Target(c)].data == Value(c.payload)
            && states[n + 1].last[Target(c)].expiresAt == events[n].now + c.ttl
            && (StoredBetween(states, events, m, n, Target(c))
                || Visible(Look(states[n], Target(c)), events[m].now).None?)
  {
    hide Step, HeaderHolds, Base, ReadAt;
    var w := events[n].worker;
    m := StoredWasAllowed(states, events, n);
    ReplacesIffNotOvertaken(states, events, n, m);
  }

  /** A stored command that finds a record replaces the one it read if and only if no
      command on the key was stored in between. */
  lemma ReplacesIffNotOvertaken(states: seq<State>, events: seq<Event>, n: nat, m: nat)
    requires IsRun(states, events) && n < |events| && Stores(states[n], events[n])
    requires ReadAt(states, events, n, events[n].worker, m)
    ensures var subject := Target(WorkerOf(states[n], events[n]).command);
            Look(states[n], subject).Some? ==>
              (Look(states[n], subject) == Look(states[m], subject) <==> !StoredBetween(states, events, m, n, subject))
  {
    hide Step, HeaderHolds, Base, MayProceed;
    var w := events[n].worker;
    ReadEvent(states, events, n, w, m);
    DisturbedIffStoredBetween(states, events, m, n, w);
    WriteReplacesWhatItReadIffUndisturbed(states, events, n);
  }

  /** An increment moves a live counter by its amount and starts any other key at it. */
  lemma IncrementAddsItsAmount(states: seq<State>, events: seq<Event>, n: nat) returns (m: nat)
    requires IsRun(states, events) && n < |events| && Stores(states[n], events[n])
    requires WorkerOf(states[n], events[n]).command.Increment?
    ensures ReadAt(states, events, n, events[n].worker, m)
    ensures var c := WorkerOf(states[n], events[n]).command;
            var left := Look(states[n + 1], Target(c));
            var read := Visible(Look(states[m], Target(c)), events[m].now);
            && left.Some? && left.value.expiresAt == events[n].now + c.ttl
            && (read.None? || (read.value.Counter? && read.value.operation != c.operation))
            && left.value.data == Counter(c.operation, if read.None? then c.amount else read.value.total + c.amount)
            && (Look(states[n], Target(c)).Some? ==>
                  (Look(states[n], Target(c)) == Look(states[m], Target(c)) <==>
                   !StoredBetween(states, events, m, n, Target(c))))
  {
    hide Step, HeaderHolds, Base, ReadAt;
    m := StoredWasAllowed(states, events, n);
    ReplacesIffNotOvertaken(states, events, n, m);
  }

  // ----- mutations under a lease -----

  /** A sequence number stands for one record: as long as it is the last on its key, the
      record has been there ever since. */
  lemma {:induction false} SequenceIdentifies(states: seq<State>, events: seq<Event>, i: nat, j: nat, x: Subject)
    requires IsRun(states, events) && i <= j < |states|
    requires x in states[j].last && states[j].last[x].sequence <= states[i].sequence
    ensures x in states[i].last && states[i].last[x] == states[j].last[x]
    decreases j
  {
    hide Step;
    if i < j {
      RunStep(states, events, j - 1);
      RunGrows(states, events, i, j - 1);
      SameOrNewer(states[j - 1], events[j - 1], states[j], x);
      SequenceIdentifies(states, events, i, j - 1, x);
    }
  }

  lemma SameOrNewer(s: State, e: Event, s': State, x: Subject)
    requires Step(s, e.action, e.worker, e.now, s') && x in s'.last
    ensures (x in s.last && s'.last[x] == s.last[x]) || s'.last[x].sequence == s.sequence + 1
    ensures s.sequence <= s'.sequence
  {
    hide Proceeds, HeaderFor, HeaderHolds, NewData, Base, Onlookers, Lifetime;
  }

  lemma {:induction false} RunGrows(states: seq<State>, events: seq<Event>, i: nat, j: nat)
    requires IsRun(states, events) && i <= j < |states|
    ensures states[i].sequence <= states[j].sequence
    decreases j
  {
    hide Step;
    if i < j {
      RunGrows(states, events, i, j - 1);
      RunStep(states, events, j - 1);
      Grows(states[j - 1], events[j - 1], states[j]);
    }
  }

  lemma Grows(s: State, e: Event, s': State)
    requires Step(s, e.action, e.worker, e.now, s')
    ensures s.sequence <= s'.sequence
  {
    hide Proceeds, HeaderFor, HeaderHolds, NewData, Base, Onlookers, Lifetime;
  }

  /** Event m is the validation that gave worker w its lease header. */
  ghost predicate ValidatedAt(states: seq<State>, events: seq<Event>, w: nat, p: Proof, sequence: nat, m: nat) {
    && m < |events| < |states| && events[m].action.ReadLease? && events[m].worker == w
    && Visible(Look(states[m], LeaseOn(p.resource)), events[m].now) == Some(LeaseData(p))
    && states[m].last[LeaseOn(p.resource)].sequence == sequence
  }

  lemma {:induction false} ValidatedBefore(states: seq<State>, events: seq<Event>, n: nat, w: nat) returns (m: nat)
    requires IsRun(states, events) && n < |states| && w in states[n].workers && states[n].workers[w].phase.Ready?
    requires PresentedProof(states[n].workers[w].command).Some?
    ensures m < n && states[n].workers[w].phase.header.OnLease?
    ensures ValidatedAt(states, events, w, PresentedProof(states[n].workers[w].command).value,
                        states[n].workers[w].phase.header.sequence, m)
  {
    hide Step, PresentedProof, Visible;
    m := 0;
    if n > 0 {
      var s, e, s' := states[n - 1], events[n - 1], states[n];
      RunStep(states, events, n - 1);
      if e.action.ReadLease? && e.worker == w {
        m := n - 1;
        JustValidated(s, e, s');
      } else {
        StillReady(s, e, s', w);
        m := ValidatedBefore(states, events, n - 1, w);
      }
    }
  }

  lemma JustValidated(s: State, e: Event, s': State)
    requires Step(s, e.action, e.worker, e.now, s') && e.action.ReadLease? && e.worker in s'.workers
    requires PresentedProof(s'.workers[e.worker].command).Some?
    ensures var p, phase := PresentedProof(s'.workers[e.worker].command).value, s'.workers[e.worker].phase;
            && phase.Ready? && phase.header.OnLease?
            && Visible(Look(s, LeaseOn(p.resource)), e.now) == Some(LeaseData(p))
            && s.last[LeaseOn(p.resource)].sequence == phase.header.sequence
  {}

  lemma StillReady(s: State, e: Event, s': State, w: nat)
    requires Step(s, e.action, e.worker, e.now, s') && w in s'.workers && s'.workers[w].phase.Ready?
    requires !(e.action.ReadLease? && e.worker == w)
    ensures w in s.workers && s.workers[w] == s'.workers[w]
  {
    hide Proceeds, HeaderFor, HeaderHolds, NewData, Base, Onlookers, Lifetime;
  }

  /** A mutation under a lease is stored only over the very lease record that its
      coordinator found live and presented by the caller. */
  lemma LeaseWasLive(states: seq<State>, events: seq<Event>, n: nat) returns (m: nat)
    requires IsRun(states, events) && n < |events| && Stores(states[n], events[n])
    requires PresentedProof(WorkerOf(states[n], events[n]).command).Some?
    ensures m < n && events[m].action.ReadLease? && events[m].worker == events[n].worker
    ensures var p := PresentedProof(WorkerOf(states[n], events[n]).command).value;
            && Look(states[n], LeaseOn(p.resource)) == Look(states[m], LeaseOn(p.resource))
            && Visible(Look(states[n], LeaseOn(p.resource)), events[m].now) == Some(LeaseData(p))
  {
    hide Step, Visible, Bounded, LeasesLatest, WritesFenced, SeenStill;
    m := ValidatedBefore(states, events, n, events[n].worker);
    RunKeepsInvariant(states, events, n);
    RunKeepsInvariant(states, events, m);
    var p := PresentedProof(WorkerOf(states[n], events[n]).command).value;
    assert Honest(states[n].last, states[n].workers[events[n].worker]);
    LastIsBounded(states[m], LeaseOn(p.resource));
    SequenceIdentifies(states, events, m, n, LeaseOn(p.resource));
  }

  lemma LastIsBounded(s: State, x: Subject)
    requires Bounded(s)
    ensures x in s.last ==> s.last[x].sequence <= s.sequence
  {}

  // ----- a live lease taken over -----

  /** The clock never goes back. */
  ghost predicate InOrder(events: seq<Event>) {
    forall i, j :: 0 <= i < j < |events| ==> events[i].now <= events[j].now
  }

  lemma LaterInOrder(x: seq<Event>, y: seq<Event>, now: real)
    requires InOrder(x) && AllAt(y, now) && (x != [] ==> x[|x| - 1].now <= now)
    ensures InOrder(x + y) && (x + y != [] ==> (x + y)[|x + y| - 1].now <= now)
  {}

  /** The last step stores an acquisition over a lease that is live at that moment. */
  ghost predicate TakesLiveLease(states: seq<State>, events: seq<Event>, r: string) {
    && |states| == |events| + 1 && events != []
    && var before, after, e := states[|events| - 1], states[|events|], events[|events| - 1];
       && Stores(before, e) && before.workers[e.worker].command.Acquire? && LeaseEnds(before, after, r)
       && e.now < before.last[LeaseOn(r)].expiresAt
  }

  /** A lease is acquired; a renewal reads it while it is live. */
  lemma RenewalReads() returns (states: seq<State>, events: seq<Event>, s: State)
    ensures IsRun(states, events) && |events| == 11 && s == states[11] && InOrder(events) && events[10].now == 2.0
    ensures s.sequence == 3 && GuardSequence(s) == 3 && s.workers.Keys == {1}
    ensures s.workers[1].command == Renew(Proof("r", "h", "t", 1), 8.0)
    ensures s.workers[1].phase.Ready? && s.workers[1].phase.header == OnLease("r", 2)
    ensures Look(s, LeaseOn("r")) == Some(Record(2, Lease("h", "t", 1), 9.0))
  {
    hide IsPath, Published, ReadyState, InOrder, AllAt;
    var s0 := Initial();
    var acquire := Acquire("r", "h", "t", 8.0);
    var a, x := Performed(s0, 0, acquire, 1.0, OnGuard(1), 1.0);
    ReadyKeepsRecords(s0, 0, acquire, 1.0, OnGuard(1), Guard);
    GuardIsNext(s0, 0, acquire, 1.0, OnGuard(1));
    PublishedRecords(ReadyState(s0, 0, acquire, 1.0, OnGuard(1)), 0, 1.0, Guard);
    var s1, renew := a[6], Renew(Proof("r", "h", "t", 1), 8.0);
    var b, y := GetsReady(s1, 1, renew, 2.0, OnLease("r", 2));
    ReadyKeepsRecords(s1, 1, renew, 2.0, OnLease("r", 2), LeaseOn("r"));
    JoinPaths(a, x, b, y);
    states, events, s := a + b[1..], x + y, b[5];
    PathFromInitial(states, events);
    OneClock(x, 1.0);
    LaterInOrder(x, y, 2.0);
    LastClock(y, 2.0);
  }

  lemma OneClock(x: seq<Event>, now: real)
    requires AllAt(x, now)
    ensures InOrder(x) && (x != [] ==> x[|x| - 1].now == now)
  {}

  lemma LastClock(x: seq<Event>, now: real)
    requires AllAt(x, now) && x != []
    ensures x[|x| - 1].now == now
  {}

  /** The lease runs out and another coordinator, finding it expired, gets ready to acquire
      it. Then the renewal is stored, and after it the acquisition. */
  lemma AcquiresMeanwhile(s: State) returns (states: seq<State>, events: seq<Event>)
    requires s.sequence == 3 && GuardSequence(s) == 3 && s.workers.Keys == {1}
    requires s.workers[1].command == Renew(Proof("r", "h", "t", 1), 8.0)
    requires s.workers[1].phase.Ready? && s.workers[1].phase.header == OnLease("r", 2)
    requires Look(s, LeaseOn("r")) == Some(Record(2, Lease("h", "t", 1), 9.0))
    ensures IsPath(states, events) && states[0] == s && AllAt(events, 10.0) && TakesLiveLease(states, events, "r")
  {
    hide IsPath, Published, ReadyState, AllAt;
    var acquire := Acquire("r", "g", "u", 8.0);
    var a, x := GetsReady(s, 2, acquire, 10.0, OnGuard(4));
    ReadyKeepsRecords(s, 2, acquire, 10.0, OnGuard(4), LeaseOn("r"));
    GuardIsNext(s, 2, acquire, 10.0, OnGuard(4));
    var s1 := a[5];
    OnePublication(s1, 1, 10.0);
    PublishedRecords(s1, 1, 10.0, Guard);
    var s2 := Published(s1, 1, 10.0);
    OnePublication(s2, 2, 10.0);
    PublishedRecords(s2, 2, 10.0, Guard);
    var s3 := Published(s2, 2, 10.0);
    JoinPaths(a, x, [s1, s2], [Event(Publish, 1, 10.0)]);
    var b, y := a + [s1, s2][1..], x + [Event(Publish, 1, 10.0)];
    IsPathSizes(b, y);
    JoinPaths(b, y, [s2, s3], [Event(Publish, 2, 10.0)]);
    states, events := b + [s2, s3][1..], y + [Event(Publish, 2, 10.0)];
    assert states[7] == s3 && states[6] == s2 && events[6] == Event(Publish, 2, 10.0);
    TwoMore(x, 10.0);
  }

  lemma TwoMore(x: seq<Event>, now: real)
    requires AllAt(x, now)
    ensures AllAt(x + [Event(Publish, 1, now)] + [Event(Publish, 2, now)], now)
  {}

  /** A run from the empty stream, with a clock that never goes back, in which an
      acquisition is stored over a live lease: the lease was renewed in between. */
  lemma LiveLeaseRun() returns (states: seq<State>, events: seq<Event>)
    ensures IsRun(states, events) && InOrder(events) && TakesLiveLease(states, events, "r")
  {
    hide IsPath, IsRun, TakesLiveLease, InOrder, AllAt;
    var a, x, s := RenewalReads();
    var b, y := AcquiresMeanwhile(s);
    RunIsPath(a, x);
    IsPathSizes(a, x);
    IsPathSizes(b, y);
    JoinPaths(a, x, b, y);
    states, events := a + b[1..], x + y;
    PathFromInitial(states, events);
    LaterInOrder(x, y, 10.0);
    SameTaking(a, x, b, y, "r");
  }

  lemma SameTaking(a: seq<State>, x: seq<Event>, b: seq<State>, y: seq<Event>, r: string)
    requires |a| == |x| + 1 && |b| == |y| + 1 && a[|x|] == b[0] && TakesLiveLease(b, y, r)
    ensures TakesLiveLease(a + b[1..], x + y, r)
  {
    hide Stores, LeaseEnds;
    var c, e := a + b[1..], x + y;
    assert c[|e|] == b[|y|] && c[|e| - 1] == b[|y| - 1] && e[|e| - 1] == y[|y| - 1];
  }
}
