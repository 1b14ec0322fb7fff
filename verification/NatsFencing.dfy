/** The NATS coordinators, overlapping and stalling at will, over one state stream.

    A publication with an expected-last-sequence header is an atomic
    compare-and-set on the last record of the subject the header names. Sequences
    are assigned once and only grow. Records other than the guard may vanish when
    their time to live ends. Clock readings are arbitrary. */
module NatsFencing {
  import opened Common

  datatype Subject = Guard | LeaseOn(resource: string) | ValueAt(key: string)

  datatype Data =
    | Mark
    | Lease(holder: string, token: string, fencing: nat)
    | Value(payload: Bytes)
    | Counter(operation: string, total: int)
    | Tombstone

  datatype Record = Record(sequence: nat, data: Data, expiresAt: real)

  /** The lease a mutation presents. */
  datatype Proof = Proof(resource: string, holder: string, token: string, fencing: nat)

  datatype Command =
    | Acquire(resource: string, holder: string, token: string, ttl: real)
    | Renew(lease: Proof, ttl: real)
    | Release(lease: Proof)
    | Create(key: string, payload: Bytes, ttl: real, proof: Option<Proof>)
    | Swap(key: string, expected: nat, payload: Bytes, ttl: real, proof: Option<Proof>)
    | Delete(key: string, expected: nat, proof: Option<Proof>)
    | Increment(key: string, operation: string, amount: int, ttl: real)

  function Target(c: Command): Subject {
    match c
    case Acquire(r, _, _, _) => LeaseOn(r)
    case Renew(lease, _) => LeaseOn(lease.resource)
    case Release(lease) => LeaseOn(lease.resource)
    case Create(k, _, _, _) => ValueAt(k)
    case Swap(k, _, _, _, _) => ValueAt(k)
    case Delete(k, _, _) => ValueAt(k)
    case Increment(k, _, _, _) => ValueAt(k)
  }

  /** The header of a write: the guard's sequence, or that of the validated lease. */
  datatype Header = OnGuard(sequence: nat) | OnLease(resource: string, sequence: nat)

  datatype Phase =
    | Begun
    | SawGuard(expected: nat)
    | Guarded(guard: nat)
    | Decided(guard: nat, seen: Option<Record>, base: int)
    | Ready(guard: nat, seen: Option<Record>, base: int, header: Header)

  datatype Worker = Worker(command: Command, phase: Phase)

  datatype Write = Write(resource: string, fencing: nat)

  datatype State = State(
    last: map<Subject, Record>,
    sequence: nat,
    workers: map<nat, Worker>,
    grants: seq<Write>,    // every lease record ever stored, in order
    writes: seq<Write>,    // every mutation ever stored under a lease, in order
    overtaken: set<nat>,   // workers whose target was stored on a lease header since they read it
    disturbed: set<nat>)   // workers whose target was stored at all since they read it

  datatype Action =
    | Start(command: Command)
    | ReadGuard
    | PublishGuard
    | ReadTarget
    | ReadLease
    | Publish
    | Crash
    | Expire(subject: Subject)

  function Initial(): State { State(map[], 0, map[], [], [], {}, {}) }

  function GuardSequence(s: State): nat { if Guard in s.last then s.last[Guard].sequence else 0 }

  predicate LeaseLive(r: Record, now: real) { r.data.Lease? && r.expiresAt > now }

  predicate Expired(r: Record, now: real) { (r.data.Value? || r.data.Counter?) && r.expiresAt <= now }

  /** `_require_lease_state`. */
  predicate Proves(r: Record, p: Proof) {
    r.data.Lease? && r.data.holder == p.holder && r.data.token == p.token && r.data.fencing == p.fencing
  }

  function Look(s: State, subject: Subject): Option<Record> {
    if subject in s.last then Some(s.last[subject]) else None
  }

  /** Whether the command goes on after reading its target. */
  predicate Proceeds(c: Command, seen: Option<Record>, now: real) {
    match c
    case Acquire(_, _, _, _) => seen.None? || !LeaseLive(seen.value, now)
    case Renew(lease, _) => seen.Some? && LeaseLive(seen.value, now) && Proves(seen.value, lease)
    case Release(lease) => seen.Some? && LeaseLive(seen.value, now) && Proves(seen.value, lease)
    case Create(_, _, _, _) => seen.None? || Expired(seen.value, now) || seen.value.data.Tombstone?
    case Swap(_, expected, _, _, _) =>
      seen.Some? && !Expired(seen.value, now) && seen.value.data.Value? && seen.value.sequence == expected
    case Delete(_, expected, _) =>
      seen.Some? && !Expired(seen.value, now) && seen.value.data.Value? && seen.value.sequence == expected
    case Increment(_, operation, _, _) =>
      || seen.None? || Expired(seen.value, now) || seen.value.data.Tombstone?
      || (seen.value.data.Counter? && seen.value.data.operation != operation)
  }

  /** What an increment adds to: the live counter it read, or nothing. */
  function Base(c: Command, seen: Option<Record>, now: real): int {
    if c.Increment? && seen.Some? && seen.value.data.Counter? && !Expired(seen.value, now)
    then seen.value.data.total else 0
  }

  function PresentedProof(c: Command): Option<Proof> {
    if c.Create? || c.Swap? || c.Delete? then c.proof else None
  }

  /** The header the write will carry, or nothing when the lease does not validate. */
  function HeaderFor(s: State, c: Command, guard: nat, seen: Option<Record>, now: real): Option<Header> {
    if (c.Renew? || c.Release?) && seen.Some? then Some(OnLease(c.lease.resource, seen.value.sequence))
    else if PresentedProof(c).None? then Some(OnGuard(guard))
    else
      var p := PresentedProof(c).value;
      var lease := Look(s, LeaseOn(p.resource));
      if lease.Some? && LeaseLive(lease.value, now) && Proves(lease.value, p)
      then Some(OnLease(p.resource, lease.value.sequence))
      else None
  }

  predicate HeaderHolds(s: State, h: Header) {
    match h
    case OnGuard(n) => GuardSequence(s) == n
    case OnLease(r, n) => LeaseOn(r) in s.last && s.last[LeaseOn(r)].sequence == n
  }

  function NewData(c: Command, guard: nat, base: int): Data {
    match c
    case Acquire(_, holder, token, _) => Lease(holder, token, guard)
    case Renew(lease, _) => Lease(lease.holder, lease.token, lease.fencing)
    case Release(_) => Tombstone
    case Create(_, payload, _, _) => Value(payload)
    case Swap(_, _, payload, _, _) => Value(payload)
    case Delete(_, _, _) => Tombstone
    case Increment(_, operation, amount, _) => Counter(operation, base + amount)
  }

  /** How long the record of a command is asked to live. */
  function Lifetime(c: Command): real {
    match c
    case Acquire(_, _, _, ttl) => ttl
    case Renew(_, ttl) => ttl
    case Release(_) => 1.0
    case Create(_, _, ttl, _) => ttl
    case Swap(_, _, _, ttl, _) => ttl
    case Delete(_, _, _) => 1.0
    case Increment(_, _, _, ttl) => ttl
  }

  function Stored(s: State, subject: Subject, data: Data, expiresAt: real): State {
    s.(last := s.last[subject := Record(s.sequence + 1, data, expiresAt)], sequence := s.sequence + 1)
  }

  function At(s: State, w: nat, phase: Phase): State
    requires w in s.workers
  {
    s.(workers := s.workers[w := s.workers[w].(phase := phase)])
  }

  function Gone(s: State, w: nat): State { s.(workers := s.workers - {w}) }

  function GuardPublished(s: State, w: nat, expected: nat, now: real): State
    requires w in s.workers
  {
    if GuardSequence(s) == expected then At(Stored(s, Guard, Mark, now), w, Guarded(s.sequence + 1))
        else At(s, w, Begun)
  }

  function Onlookers(s: State, subject: Subject): set<nat> {
    set u | u in s.workers && Target(s.workers[u].command) == subject
  }

  /** `_write_state`: the publication and its place in the history. */
  function Published(s: State, w: nat, now: real): State
    requires w in s.workers && s.workers[w].phase.Ready?
  {
    var Worker(c, p) := s.workers[w];
    if !HeaderHolds(s, p.header) then Gone(s, w)
    else
      var data := NewData(c, p.guard, p.base);
      var s' := Gone(Stored(s, Target(c), data, now + Lifetime(c)), w);
      var grants := if data.Lease? && Target(c).LeaseOn? then s.grants + [Write(Target(c).resource, data.fencing)]
                    else s.grants;
      var writes := if PresentedProof(c).Some?
                    then s.writes + [Write(PresentedProof(c).value.resource, PresentedProof(c).value.fencing)]
                    else s.writes;
      s'.(grants := grants, writes := writes,
          overtaken := if p.header.OnLease? then s.overtaken + Onlookers(s, Target(c)) else s.overtaken,
          disturbed := s.disturbed + Onlookers(s, Target(c)))
  }

  /** One step of worker w. `now` is what a clock read in the step returns; for a
      publication it is the stream's time stamp, and for an expiry the stream's clock. */
  ghost predicate Step(s: State, a: Action, w: nat, now: real, s': State) {
    match a
    case Start(c) => w !in s.workers && s' == s.(workers := s.workers[w := Worker(c, Begun)])
    case Expire(subject) =>
      && subject != Guard && (subject in s.last ==> s.last[subject].expiresAt <= now)
      && s' == s.(last := s.last - {subject})
    case Crash => s' == Gone(s, w)
    case ReadGuard => w in s.workers && s.workers[w].phase.Begun? && s' == At(s, w, SawGuard(GuardSequence(s)))
    case PublishGuard =>
      w in s.workers && s.workers[w].phase.SawGuard? && s' == GuardPublished(s, w, s.workers[w].phase.expected, now)
    case ReadTarget =>
      && w in s.workers && s.workers[w].phase.Guarded?
      && var seen := Look(s, Target(s.workers[w].command));
         s' == if Proceeds(s.workers[w].command, seen, now)
               then At(s.(overtaken := s.overtaken - {w}, disturbed := s.disturbed - {w}), w,
                       Decided(s.workers[w].phase.guard, seen, Base(s.workers[w].command, seen, now)))
               else Gone(s, w)
    case ReadLease =>
      && w in s.workers && s.workers[w].phase.Decided?
      && var p := s.workers[w].phase;
         var header := HeaderFor(s, s.workers[w].command, p.guard, p.seen, now);
         s' == if header.Some? then At(s, w, Ready(p.guard, p.seen, p.base, header.value)) else Gone(s, w)
    case Publish =>
      && w in s.workers && s.workers[w].phase.Ready?
      && s' == Published(s, w, now)
  }

  // ----- what every step keeps -----

  /** No record and no worker is ahead of the stream. */
  ghost predicate Bounded(s: State) {
    && (forall x :: x in s.last ==> s.last[x].sequence <= s.sequence)
    && (forall w :: w in s.workers && s.workers[w].phase.Ready? && s.workers[w].phase.header.OnLease? ==>
          s.workers[w].phase.header.sequence <= s.sequence)
    && (forall w :: w in s.workers && s.workers[w].phase.Decided? && s.workers[w].phase.seen.Some? ==>
          s.workers[w].phase.seen.value.sequence <= s.sequence)
  }

  /** Lease subjects hold leases or tombstones, stored with the latest grant. */
  ghost predicate LeasesLatest(s: State) {
    && (forall i :: 0 <= i < |s.grants| ==> s.grants[i].fencing <= GuardSequence(s))
    && (forall i, j :: 0 <= i < j < |s.grants| && s.grants[i].resource == s.grants[j].resource ==>
          s.grants[i].fencing <= s.grants[j].fencing)
    && (forall r, i ::
          LeaseOn(r) in s.last && s.last[LeaseOn(r)].data.Lease? && 0 <= i < |s.grants| && s.grants[i].resource == r ==>
          s.grants[i].fencing <= s.last[LeaseOn(r)].data.fencing)
    && (forall r :: LeaseOn(r) in s.last && s.last[LeaseOn(r)].data.Lease? ==>
          s.last[LeaseOn(r)].data.fencing <= GuardSequence(s))
  }

  /** A worker about to renew, release or mutate under a lease has validated that
      lease on the very record its header names. */
  ghost predicate Validated(last: map<Subject, Record>, c: Command, h: Header) {
    h.OnLease? && LeaseOn(h.resource) in last && last[LeaseOn(h.resource)].sequence == h.sequence ==>
      && (c.Renew? || c.Release? ==> h.resource == c.lease.resource && Proves(last[LeaseOn(h.resource)], c.lease))
      && (PresentedProof(c).Some? ==> h.resource == PresentedProof(c).value.resource &&
                                      Proves(last[LeaseOn(h.resource)], PresentedProof(c).value))
  }

  /** Which header a command may carry at all. */
  predicate HeaderFits(c: Command, guard: nat, h: Header) {
    match h
    case OnGuard(n) => n == guard && !c.Renew? && !c.Release? && PresentedProof(c).None?
    case OnLease(r, _) => c.Renew? || c.Release? || PresentedProof(c).Some?
  }

  /** A record read is the record stored, as long as its sequence is still the last. */
  ghost predicate SeenStill(last: map<Subject, Record>, w: Worker) {
    w.phase.Decided? && w.phase.seen.Some? && Target(w.command) in last ==>
      last[Target(w.command)].sequence == w.phase.seen.value.sequence ==> last[Target(w.command)] == w.phase.seen.value
  }

  ghost predicate Honest(last: map<Subject, Record>, w: Worker) {
    && SeenStill(last, w)
    && (w.phase.Decided? && (w.command.Renew? || w.command.Release?) ==>
          w.phase.seen.Some? && Proves(w.phase.seen.value, w.command.lease))
    && (w.phase.Ready? ==>
          HeaderFits(w.command, w.phase.guard, w.phase.header) && Validated(last, w.command, w.phase.header))
  }

  ghost predicate WorkersHonest(s: State) {
    forall w :: w in s.workers ==> Honest(s.last, s.workers[w])
  }

  /** Mutations under a lease never carry a token above its subject's latest grant. */
  ghost predicate WritesFenced(s: State) {
    && (forall j :: 0 <= j < |s.writes| ==> s.writes[j].fencing <= GuardSequence(s))
    && (forall i, j :: 0 <= i < j < |s.writes| && s.writes[i].resource == s.writes[j].resource ==>
          s.writes[i].fencing <= s.writes[j].fencing)
    && (forall r, j ::
          LeaseOn(r) in s.last && s.last[LeaseOn(r)].data.Lease? && 0 <= j < |s.writes| && s.writes[j].resource == r ==>
          s.writes[j].fencing <= s.last[LeaseOn(r)].data.fencing)
  }

  ghost predicate Invariant(s: State) {
    Bounded(s) && LeasesLatest(s) && WorkersHonest(s) && WritesFenced(s)
  }

  lemma StepKeepsBounded(s: State, a: Action, w: nat, now: real, s': State)
    requires Bounded(s) && Step(s, a, w, now, s')
    ensures Bounded(s') && s.sequence <= s'.sequence && GuardSequence(s) <= GuardSequence(s')
  {
    hide Proceeds, Proves, LeaseLive, NewData;
  }

  lemma EarlyIsHonest(last: map<Subject, Record>, w: Worker)
    ensures !w.phase.Decided? && !w.phase.Ready? ==> Honest(last, w)
  {}

  lemma ReadTargetHonest(s: State, c: Command, guard: nat, now: real)
    requires Proceeds(c, Look(s, Target(c)), now)
    ensures forall base :: Honest(s.last, Worker(c, Decided(guard, Look(s, Target(c)), base)))
  {
    hide Proves, LeaseLive, Expired;
  }

  lemma ReadLeaseHonest(s: State, w: Worker, now: real)
    requires Honest(s.last, w) && w.phase.Decided? && HeaderFor(s, w.command, w.phase.guard, w.phase.seen, now).Some?
    ensures var header := HeaderFor(s, w.command, w.phase.guard, w.phase.seen, now).value;
            Honest(s.last, Worker(w.command, Ready(w.phase.guard, w.phase.seen, w.phase.base, header)))
  {
    hide Proves, LeaseLive;
  }

  /** New sequences are new: a record that someone has seen or validated cannot come
      back under its sequence with other contents. */
  lemma StoreKeepsWorkers(s: State, subject: Subject, data: Data, expiresAt: real)
    requires Bounded(s) && WorkersHonest(s)
    ensures WorkersHonest(Stored(s, subject, data, expiresAt))
  {
    hide Proves;
  }

  lemma LossKeepsWorkers(s: State, s': State)
    requires WorkersHonest(s) && s'.workers == s.workers && forall x :: x in s'.last ==>
              x in s.last && s'.last[x] == s.last[x]
    ensures WorkersHonest(s')
  {
    hide Proves;
  }

  lemma StepKeepsWorkers(s: State, a: Action, w: nat, now: real, s': State)
    requires Bounded(s) && WorkersHonest(s) && Step(s, a, w, now, s')
    ensures WorkersHonest(s')
  {
    hide Proves, LeaseLive, NewData, Expired, GuardSequence, Proceeds, HeaderFor, SeenStill, Validated, HeaderFits,
         HeaderHolds, Bounded;
    if a.Expire? { LossKeepsWorkers(s, s'); }
    if a.PublishGuard? { StoreKeepsWorkers(s, Guard, Mark, now); }
    if a.ReadTarget? && w in s'.workers { ReadTargetHonest(s, s.workers[w].command, s.workers[w].phase.guard, now); }
    if a.ReadLease? && w in s'.workers { ReadLeaseHonest(s, s.workers[w], now); }
    if a.Publish? {
      StoreKeepsWorkers(s, Target(s.workers[w].command),
          NewData(s.workers[w].command, s.workers[w].phase.guard, s.workers[w].phase.base),
          now + Lifetime(s.workers[w].command));
    }
    forall u | u in s'.workers ensures Honest(s'.last, s'.workers[u]) {
      if u in s.workers && s'.workers[u] == s.workers[u] { assert Honest(s.last, s.workers[u]); }
      EarlyIsHonest(s'.last, s'.workers[u]);
    }
  }

  /** What a publication that goes through stores on a lease subject. */
  lemma StoredLeaseIsLatest(s: State, w: nat)
    requires WorkersHonest(s) && LeasesLatest(s) && w in s.workers && s.workers[w].phase.Ready?
    requires HeaderHolds(s, s.workers[w].phase.header)
    ensures var c := s.workers[w].command;
            var data := NewData(c, s.workers[w].phase.guard, s.workers[w].phase.base);
            Target(c).LeaseOn? && data.Lease? ==>
              && data.fencing <= GuardSequence(s)
              && forall i :: 0 <= i < |s.grants| && s.grants[i].resource == Target(c).resource ==>
                  s.grants[i].fencing <= data.fencing
  {
    var c := s.workers[w].command;
    assert Honest(s.last, s.workers[w]);
  }

  lemma GrantsCarryOver(s: State, s': State)
    requires LeasesLatest(s) && s'.grants == s.grants && GuardSequence(s) <= GuardSequence(s')
    requires forall r :: LeaseOn(r) in s'.last && s'.last[LeaseOn(r)].data.Lease? ==>
               LeaseOn(r) in s.last && s'.last[LeaseOn(r)] == s.last[LeaseOn(r)]
    ensures LeasesLatest(s')
  {
    hide GuardSequence;
  }

  lemma GrantAdded(s: State, s': State, r: string, fencing: nat)
    requires LeasesLatest(s) && s'.grants == s.grants + [Write(r, fencing)] && GuardSequence(s) == GuardSequence(s')
    requires fencing <= GuardSequence(s)
    requires forall i :: 0 <= i < |s.grants| && s.grants[i].resource == r ==> s.grants[i].fencing <= fencing
    requires LeaseOn(r) in s'.last && s'.last[LeaseOn(r)].data.Lease? && s'.last[LeaseOn(r)].data.fencing == fencing
    requires forall x :: x in s'.last && x != LeaseOn(r) ==> x in s.last && s'.last[x] == s.last[x]
    ensures LeasesLatest(s')
  {
    hide GuardSequence;
  }

  lemma StepKeepsGrants(s: State, a: Action, w: nat, now: real, s': State)
    requires Bounded(s) && WorkersHonest(s) && LeasesLatest(s) && Step(s, a, w, now, s')
    ensures LeasesLatest(s')
  {
    hide Proves, LeaseLive, Expired, Proceeds, HeaderFor, LeasesLatest, Bounded, WorkersHonest, HeaderHolds;
    StepKeepsBounded(s, a, w, now, s');
    if a.Publish? && HeaderHolds(s, s.workers[w].phase.header) {
      var c := s.workers[w].command;
      var data := NewData(c, s.workers[w].phase.guard, s.workers[w].phase.base);
      StoredLeaseIsLatest(s, w);
      if Target(c).LeaseOn? && data.Lease? {
        GrantAdded(s, s', Target(c).resource, data.fencing);
      } else {
        GrantsCarryOver(s, s');
      }
    } else {
      GrantsCarryOver(s, s');
    }
  }

  // ----- fencing of mutations -----

  lemma WriteProven(s: State, w: nat)
    requires WorkersHonest(s) && w in s.workers && s.workers[w].phase.Ready? &&
              HeaderHolds(s, s.workers[w].phase.header)
    requires PresentedProof(s.workers[w].command).Some?
    ensures var p := PresentedProof(s.workers[w].command).value;
            s.workers[w].phase.header.OnLease? && LeaseOn(p.resource) in s.last &&
            s.last[LeaseOn(p.resource)].sequence == s.workers[w].phase.header.sequence &&
                Proves(s.last[LeaseOn(p.resource)], p)
  {
    assert Honest(s.last, s.workers[w]);
  }

  lemma WritesCarryOver(s: State, s': State)
    requires WritesFenced(s) && LeasesLatest(s') && GuardSequence(s) <= GuardSequence(s') && s'.writes == s.writes
    requires forall r :: LeaseOn(r) in s'.last && s'.last[LeaseOn(r)].data.Lease? ==>
               || (LeaseOn(r) in s.last && s.last[LeaseOn(r)].data.Lease? &&
                   s'.last[LeaseOn(r)].data.fencing >= s.last[LeaseOn(r)].data.fencing)
               || s'.last[LeaseOn(r)].data.fencing >= GuardSequence(s)
    ensures WritesFenced(s')
  {
    hide GuardSequence, LeasesLatest;
  }

  lemma WriteAdded(s: State, s': State, p: Proof)
    requires WritesFenced(s) && LeasesLatest(s) && GuardSequence(s) == GuardSequence(s')
    requires s'.writes == s.writes + [Write(p.resource, p.fencing)]
    requires LeaseOn(p.resource) in s.last && Proves(s.last[LeaseOn(p.resource)], p)
    requires forall r :: LeaseOn(r) in s'.last ==> LeaseOn(r) in s.last && s'.last[LeaseOn(r)] == s.last[LeaseOn(r)]
    ensures WritesFenced(s')
  {
    hide GuardSequence;
  }

  lemma StepKeepsWrites(s: State, a: Action, w: nat, now: real, s': State)
    requires Invariant(s) && Step(s, a, w, now, s') && LeasesLatest(s')
    ensures WritesFenced(s')
  {
    hide LeaseLive, Expired, Proceeds, HeaderFor, LeasesLatest, Bounded, WorkersHonest, WritesFenced;
    StepKeepsBounded(s, a, w, now, s');
    if a.Publish? && HeaderHolds(s, s.workers[w].phase.header) {
      var c := s.workers[w].command;
      if PresentedProof(c).Some? {
        WriteProven(s, w);
        WriteAdded(s, s', PresentedProof(c).value);
      } else {
        LeaseNotLowered(s, w);
        WritesCarryOver(s, s');
      }
    } else {
      WritesCarryOver(s, s');
    }
  }

  lemma LeaseNotLowered(s: State, w: nat)
    requires WorkersHonest(s) && w in s.workers && s.workers[w].phase.Ready? &&
              HeaderHolds(s, s.workers[w].phase.header)
    ensures var c := s.workers[w].command;
            && (c.Acquire? ==> s.workers[w].phase.guard == GuardSequence(s))
            && (c.Renew? ==> LeaseOn(c.lease.resource) in s.last && Proves(s.last[LeaseOn(c.lease.resource)], c.lease))
  {
    assert Honest(s.last, s.workers[w]);
  }

  // ----- every run -----

  datatype Event = Event(action: Action, worker: nat, now: real)

  ghost predicate IsRun(states: seq<State>, events: seq<Event>) {
    && |states| == |events| + 1 && states[0] == Initial()
    && forall i :: 0 <= i < |events| ==>
        Step(states[i], events[i].action, events[i].worker, events[i].now, states[i + 1])
  }

  lemma {:induction false} RunKeepsInvariant(states: seq<State>, events: seq<Event>, n: nat)
    requires IsRun(states, events) && n < |states|
    ensures Invariant(states[n])
  {
    hide Step, Bounded, LeasesLatest, WorkersHonest, WritesFenced;
    if n == 0 {
      InitialInvariant();
    } else {
      RunKeepsInvariant(states, events, n - 1);
      var e, s, s' := events[n - 1], states[n - 1], states[n];
      assert Step(s, e.action, e.worker, e.now, states[n - 1 + 1]);
      StepKeepsBounded(s, e.action, e.worker, e.now, s');
      StepKeepsWorkers(s, e.action, e.worker, e.now, s');
      StepKeepsGrants(s, e.action, e.worker, e.now, s');
      StepKeepsWrites(s, e.action, e.worker, e.now, s');
    }
  }

  lemma InitialInvariant()
    ensures Invariant(Initial())
  {}

  /** In every run, however coordinators overlap: the fencing tokens stored on one
      lease subject never step back, nor do those of the mutations made under it. */
  lemma FencingInEveryRun(states: seq<State>, events: seq<Event>, n: nat)
    requires IsRun(states, events) && n < |states|
    ensures forall i, j ::
              0 <= i < j < |states[n].grants| && states[n].grants[i].resource == states[n].grants[j].resource ==>
              states[n].grants[i].fencing <= states[n].grants[j].fencing
    ensures forall i, j ::
              0 <= i < j < |states[n].writes| && states[n].writes[i].resource == states[n].writes[j].resource ==>
              states[n].writes[i].fencing <= states[n].writes[j].fencing
  {
    hide IsRun, Bounded, WorkersHonest;
    RunKeepsInvariant(states, events, n);
  }

  /** A mutation under a lease is stored only while the very lease record it
      validated is the last on its subject and proves the presented lease. */
  lemma StoredOnlyUnderItsLease(states: seq<State>, events: seq<Event>, n: nat)
    requires IsRun(states, events) && n < |events| && states[n + 1].writes != states[n].writes
    ensures var s := states[n];
            var w := events[n].worker;
            && w in s.workers && s.workers[w].phase.Ready? && PresentedProof(s.workers[w].command).Some?
            && var p := PresentedProof(s.workers[w].command).value;
               && states[n + 1].writes == s.writes + [Write(p.resource, p.fencing)]
               && s.workers[w].phase.header.OnLease?
               && LeaseOn(p.resource) in s.last
               && s.last[LeaseOn(p.resource)].sequence == s.workers[w].phase.header.sequence
               && Proves(s.last[LeaseOn(p.resource)], p)
  {
    hide Bounded, WorkersHonest, WritesFenced, LeasesLatest, HeaderHolds, HeaderFor, Proceeds, Proves, NewData;
    RunKeepsInvariant(states, events, n);
    var e := events[n];
    assert Step(states[n], e.action, e.worker, e.now, states[n + 1]);
    WriteProven(states[n], e.worker);
  }
}
