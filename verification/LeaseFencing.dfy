/** The in-memory lease store as interleaved tasks.

    Every `await` is a step boundary. A task enters (one more user of the
    resource's lock object), takes the lock, runs its critical section, and, when
    it is a fenced mutation, validates its lease once more in the very step that
    commits; then it unlocks and leaves. The clock may return anything. */
module LeaseFencing {
  import opened Common

  datatype Resource = Resource(owner: string, name: string)

  datatype Lease = Lease(resource: Resource, holder: string, fencing: nat, token: string)

  datatype LeaseState = LeaseState(holder: string, fencing: nat, token: string, expiresAt: real)

  datatype Job =
    | Acquire(resource: Resource, holder: string, token: string, ttl: real)
    | Renew(lease: Lease, ttl: real)
    | Release(lease: Lease)
    | Mutate(lease: Lease)

  function On(job: Job): Resource {
    match job
    case Acquire(r, _, _, _) => r
    case Renew(lease, _) => lease.resource
    case Release(lease) => lease.resource
    case Mutate(lease) => lease.resource
  }

  datatype Place = Outside | Waiting | Critical | Fenced | Unlocking | Leaving | Finished

  datatype Task = Task(job: Job, place: Place, lock: nat)

  /** A task counts as a user from entering to leaving. */
  predicate Inside(t: Task) { !t.place.Outside? && !t.place.Finished? }

  predicate Locking(t: Task) { t.place.Critical? || t.place.Fenced? || t.place.Unlocking? }

  datatype Commit = Commit(resource: Resource, fencing: nat)

  datatype State = State(
    leases: map<Resource, LeaseState>,
    table: map<Resource, nat>,
    users: map<nat, nat>,
    held: set<nat>,
    tasks: map<nat, Task>,
    nextLock: nat,
    nextFencing: nat,
    commits: seq<Commit>)

  datatype Action =
    | Spawn(job: Job)
    | Enter
    | Lock
    | Body
    | CommitStep
    | Unlock
    | Leave

  // ----- the lease table -----

  predicate Live(leases: map<Resource, LeaseState>, r: Resource, now: real) {
    r in leases && leases[r].expiresAt > now
  }

  /** `_live_lease` drops the entry it finds expired. */
  function Pruned(leases: map<Resource, LeaseState>, r: Resource, now: real): map<Resource, LeaseState> {
    if r in leases && leases[r].expiresAt <= now then leases - {r} else leases
  }

  predicate Current(leases: map<Resource, LeaseState>, lease: Lease) {
    && lease.resource in leases
    && leases[lease.resource].token == lease.token
    && leases[lease.resource].fencing == lease.fencing
    && leases[lease.resource].holder == lease.holder
  }

  /** `_required_lease`. */
  predicate Required(leases: map<Resource, LeaseState>, lease: Lease, now: real) {
    Live(leases, lease.resource, now) && Current(leases, lease)
  }

  function Unexpired(leases: map<Resource, LeaseState>, now: real): map<Resource, LeaseState> {
    map r | r in leases && leases[r].expiresAt > now :: leases[r]
  }

  /** `_discard_idle_resource_lock` for every resource in `rs`. */
  predicate Idle(s: State, r: Resource) {
    r in s.table && s.table[r] in s.users && s.users[s.table[r]] == 0 && s.table[r] !in s.held
  }

  function Discarded(s: State, rs: set<Resource>, leases: map<Resource, LeaseState>): map<Resource, nat> {
    map r | r in s.table && !(r in rs && Idle(s, r) && r !in leases) :: s.table[r]
  }

  // ----- steps -----

  function Move(s: State, t: nat, place: Place): State
    requires t in s.tasks
  {
    s.(tasks := s.tasks[t := s.tasks[t].(place := place)])
  }

  /** `setdefault(key, _ResourceLock())`, then `users += 1`. */
  function Entered(s: State, t: nat): State
    requires t in s.tasks
  {
    var r := On(s.tasks[t].job);
    var known := r in s.table;
    var lock := if known then s.table[r] else s.nextLock;
    var count := if known && lock in s.users then s.users[lock] else 0;
    s.(table := s.table[r := lock],
       users := s.users[lock := count + 1],
       nextLock := if known then s.nextLock else s.nextLock + 1,
       tasks := s.tasks[t := s.tasks[t].(place := Waiting, lock := lock)])
  }

  function Acquired(s: State, t: nat, now: real, maximum: nat): State
    requires t in s.tasks && s.tasks[t].job.Acquire?
  {
    var job := s.tasks[t].job;
    var leases := Pruned(s.leases, job.resource, now);
    if job.resource in leases then Move(s.(leases := leases), t, Unlocking)
    else
      var kept := Unexpired(leases, now);
      var purged := s.(leases := kept, table := Discarded(s, leases.Keys - kept.Keys, kept));
      if |kept| >= maximum then Move(purged, t, Unlocking)
      else
        var fencing := s.nextFencing + 1;
        Move(purged.(
          leases := kept[job.resource := LeaseState(job.holder, fencing, job.token, now + job.ttl)],
          nextFencing := fencing), t, Unlocking)
  }

  /** The critical section under the resource lock and the table's own lock. */
  function BodyStep(s: State, t: nat, now: real, maximum: nat): State
    requires t in s.tasks
  {
    var job := s.tasks[t].job;
    var leases := Pruned(s.leases, On(job), now);
    match job
    case Acquire(_, _, _, _) => Acquired(s, t, now, maximum)
    case Renew(lease, ttl) =>
      if Required(s.leases, lease, now) then
        Move(s.(leases := s.leases[lease.resource := s.leases[lease.resource].(expiresAt := now + ttl)]), t, Unlocking)
      else Move(s.(leases := leases), t, Unlocking)
    case Release(lease) =>
      if Required(s.leases, lease, now) then Move(s.(leases := s.leases - {lease.resource}), t, Unlocking)
      else Move(s.(leases := leases), t, Unlocking)
    case Mutate(lease) =>
      Move(s.(leases := leases), t, if Required(s.leases, lease, now) then Fenced else Unlocking)
  }

  /** The second validation and the mutation, with no suspension between them. */
  function Committed(s: State, t: nat, now: real): State
    requires t in s.tasks && s.tasks[t].job.Mutate?
  {
    var lease := s.tasks[t].job.lease;
    var s' := Move(s.(leases := Pruned(s.leases, lease.resource, now)), t, Unlocking);
    if Required(s.leases, lease, now) then s'.(commits := s.commits + [Commit(lease.resource, lease.fencing)]) else s'
  }

  function Left(s: State, t: nat): State
    requires t in s.tasks
  {
    var r, lock := On(s.tasks[t].job), s.tasks[t].lock;
    var count := if lock in s.users && s.users[lock] > 0 then s.users[lock] - 1 else 0;
    var s' := Move(s.(users := s.users[lock := count]), t, Finished);
    s'.(table := Discarded(s', {r}, s'.leases))
  }

  ghost predicate Step(s: State, a: Action, t: nat, now: real, maximum: nat, s': State) {
    if a.Spawn? then t !in s.tasks && s' == s.(tasks := s.tasks[t := Task(a.job, Outside, 0)])
    else
      t in s.tasks && var task := s.tasks[t];
      match a
      case Enter => task.place.Outside? && s' == Entered(s, t)
      case Lock => task.place.Waiting? && task.lock !in s.held &&
          s' == Move(s.(held := s.held + {task.lock}), t, Critical)
      case Body => task.place.Critical? && s' == BodyStep(s, t, now, maximum)
      case CommitStep => task.place.Fenced? && task.job.Mutate? && s' == Committed(s, t, now)
      case Unlock => task.place.Unlocking? && s' == Move(s.(held := s.held - {task.lock}), t, Leaving)
      case Leave => task.place.Leaving? && s' == Left(s, t)
      case Spawn(_) => false
  }

  function Initial(): State { State(map[], map[], map[], {}, map[], 0, 0, []) }

  // ----- what every step keeps -----

  function UsersOf(tasks: map<nat, Task>, lock: nat): set<nat> {
    set t | t in tasks && Inside(tasks[t]) && tasks[t].lock == lock
  }

  /** A task's lock is the table's lock for its resource, and the locks of different
      resources are different objects. */
  ghost predicate OneLock(s: State) {
    && (forall t :: t in s.tasks && Inside(s.tasks[t]) ==>
          On(s.tasks[t].job) in s.table && s.table[On(s.tasks[t].job)] == s.tasks[t].lock)
    && (forall r :: r in s.table ==> s.table[r] < s.nextLock)
    && (forall r, q :: r in s.table && q in s.table && s.table[r] == s.table[q] ==> r == q)
  }

  /** The reference counts are exact. */
  ghost predicate Counted(s: State) {
    && (forall r :: r in s.table ==> s.table[r] in s.users && s.users[s.table[r]] == |UsersOf(s.tasks, s.table[r])|)
  }

  predicate BothLocking(a: Task, b: Task) { Locking(a) && Locking(b) && a.lock == b.lock }

  /** Whoever is past the lock holds it, alone. */
  ghost predicate Exclusive(s: State) {
    && (forall t :: t in s.tasks && Locking(s.tasks[t]) ==> s.tasks[t].lock in s.held)
    && (forall t, u :: t in s.tasks && u in s.tasks && BothLocking(s.tasks[t], s.tasks[u]) ==> t == u)
    && (forall l :: l in s.held ==> exists t :: t in s.tasks && Locking(s.tasks[t]) && s.tasks[t].lock == l)
  }

  /** A lock that nobody uses is kept only for a stored lease. */
  ghost predicate NoIdleLock(s: State) {
    forall r :: r in s.table && UsersOf(s.tasks, s.table[r]) == {} ==> r in s.leases
  }

  /** Inside the fence the lease is the current entry, or the entry was dropped as
      expired; nobody replaced it. */
  ghost predicate FenceHolds(s: State) {
    forall t :: t in s.tasks && s.tasks[t].place.Fenced? ==>
      s.tasks[t].job.Mutate? &&
      (s.tasks[t].job.lease.resource in s.leases ==> Current(s.leases, s.tasks[t].job.lease))
  }

  /** Tokens only grow: no stored lease and no commit is ahead of the counter, no
      commit is ahead of the stored lease of its resource, and the commits of one
      resource never step back. */
  ghost predicate TokensOrdered(s: State) {
    && (forall r :: r in s.leases ==> s.leases[r].fencing <= s.nextFencing)
    && (forall i :: 0 <= i < |s.commits| ==> s.commits[i].fencing <= s.nextFencing)
    && (forall i :: 0 <= i < |s.commits| && s.commits[i].resource in s.leases ==>
          s.commits[i].fencing <= s.leases[s.commits[i].resource].fencing)
    && (forall i, j :: 0 <= i < j < |s.commits| && s.commits[i].resource == s.commits[j].resource ==>
          s.commits[i].fencing <= s.commits[j].fencing)
  }

  ghost predicate Invariant(s: State) {
    OneLock(s) && Counted(s) && Exclusive(s) && NoIdleLock(s) && FenceHolds(s) && TokensOrdered(s)
  }

  lemma InitialInvariant()
    ensures Invariant(Initial())
  {}

  // ----- tokens -----

  /** Every lease that is not an old one carries a token above the counter. */
  ghost predicate FreshTokens(s: State, leases: map<Resource, LeaseState>, nextFencing: nat) {
    && s.nextFencing <= nextFencing
    && forall r :: r in leases ==>
         || (r in s.leases && leases[r].fencing == s.leases[r].fencing)
         || s.nextFencing < leases[r].fencing <= nextFencing
  }

  lemma AcquireTokens(s: State, t: nat, now: real, maximum: nat)
    requires t in s.tasks && s.tasks[t].job.Acquire?
    ensures var s' := Acquired(s, t, now, maximum); FreshTokens(s, s'.leases, s'.nextFencing) && s'.commits == s.commits
  {
    hide Discarded;
    var leases := Pruned(s.leases, s.tasks[t].job.resource, now);
    assert forall r :: r in leases ==> r in s.leases && leases[r] == s.leases[r];
    assert forall r :: r in Unexpired(leases, now) ==> r in leases && Unexpired(leases, now)[r] == leases[r];
  }

  lemma BodyTokens(s: State, t: nat, now: real, maximum: nat)
    requires t in s.tasks
    ensures var s' := BodyStep(s, t, now, maximum); FreshTokens(s, s'.leases, s'.nextFencing) && s'.commits == s.commits
  {
    hide Acquired;
    if s.tasks[t].job.Acquire? { AcquireTokens(s, t, now, maximum); }
  }

  lemma TokensFromFresh(s: State, s': State)
    requires TokensOrdered(s) && FreshTokens(s, s'.leases, s'.nextFencing) && s'.commits == s.commits
    ensures TokensOrdered(s')
  {}

  /** A commit takes the token of the stored lease, which is the latest for its
      resource: this is where fencing comes from. */
  lemma CommitTokens(s: State, t: nat, now: real)
    requires TokensOrdered(s) && t in s.tasks && s.tasks[t].job.Mutate?
    ensures TokensOrdered(Committed(s, t, now))
  {}

  lemma TokensKept(s: State, a: Action, t: nat, now: real, maximum: nat, s': State)
    requires TokensOrdered(s) && Step(s, a, t, now, maximum, s')
    ensures TokensOrdered(s')
  {
    hide Discarded, BodyStep, Committed, TokensOrdered;
    match a
    case Body =>
      BodyTokens(s, t, now, maximum);
      TokensFromFresh(s, s');
    case CommitStep => CommitTokens(s, t, now);
    case _ => TokensFromFresh(s, s');
  }

  /** Exclusion speaks only of who is past which lock. */
  lemma SameLockers(s: State, s': State)
    requires Exclusive(s) && s'.held == s.held
    requires forall u :: u in s'.tasks && Locking(s'.tasks[u]) ==>
               u in s.tasks && Locking(s.tasks[u]) && s'.tasks[u].lock == s.tasks[u].lock
    requires forall u :: u in s.tasks && Locking(s.tasks[u]) ==>
               u in s'.tasks && Locking(s'.tasks[u]) && s'.tasks[u].lock == s.tasks[u].lock
    ensures Exclusive(s')
  {
    forall l | l in s'.held ensures exists u :: u in s'.tasks && Locking(s'.tasks[u]) && s'.tasks[u].lock == l {
      var u :| u in s.tasks && Locking(s.tasks[u]) && s.tasks[u].lock == l;
      assert Locking(s'.tasks[u]);
    }
    forall t, u | t in s'.tasks && u in s'.tasks && BothLocking(s'.tasks[t], s'.tasks[u]) ensures t == u {
      assert BothLocking(s.tasks[t], s.tasks[u]);
    }
  }

  // ----- locks: entering and leaving -----

  lemma EnterUsers(s: State, t: nat, lock: nat)
    requires t in s.tasks && s.tasks[t].place.Outside?
    ensures var s' := Entered(s, t);
            && UsersOf(s'.tasks, lock) == UsersOf(s.tasks, lock) + (if lock == s'.tasks[t].lock then {t} else {})
            && |UsersOf(s'.tasks, lock)| == |UsersOf(s.tasks, lock)| + (if lock == s'.tasks[t].lock then 1 else 0)
  {}

  lemma MoveUsers(tasks: map<nat, Task>, t: nat, task: Task, lock: nat)
    requires t in tasks && task.lock == tasks[t].lock && Inside(task) == Inside(tasks[t])
    ensures UsersOf(tasks[t := task], lock) == UsersOf(tasks, lock)
  {}

  lemma LeaveUsers(tasks: map<nat, Task>, t: nat, lock: nat)
    requires t in tasks && Inside(tasks[t])
    ensures var users := UsersOf(tasks[t := tasks[t].(place := Finished)], lock);
            && users == UsersOf(tasks, lock) - {t}
            && |users| == |UsersOf(tasks, lock)| - (if lock == tasks[t].lock then 1 else 0)
  {
    var users := UsersOf(tasks[t := tasks[t].(place := Finished)], lock);
    assert users == UsersOf(tasks, lock) - {t};
    if lock == tasks[t].lock { assert t in UsersOf(tasks, lock); }
  }

  /** A fresh lock has no users yet. */
  lemma FreshLock(s: State, lock: nat)
    requires OneLock(s) && lock >= s.nextLock
    ensures UsersOf(s.tasks, lock) == {}
  {}

  lemma EnterKeepsLocks(s: State, t: nat)
    requires OneLock(s) && t in s.tasks && s.tasks[t].place.Outside?
    ensures OneLock(Entered(s, t))
  {}

  lemma EnterKeeps(s: State, t: nat)
    requires OneLock(s) && Counted(s) && t in s.tasks && s.tasks[t].place.Outside?
    ensures OneLock(Entered(s, t)) && Counted(Entered(s, t))
  {
    hide UsersOf, OneLock;
    EnterKeepsLocks(s, t);
    var s' := Entered(s, t);
    FreshLock(s, s.nextLock);
    forall r | r in s'.table
      ensures s'.table[r] in s'.users && s'.users[s'.table[r]] == |UsersOf(s'.tasks, s'.table[r])|
    {
      EnterUsers(s, t, s'.table[r]);
    }
  }

  // ----- locks: the sections run under a lock -----

  /** What a critical section or a commit may do: move its own task on, rewrite the
      lease of its own resource, drop leases of others with their idle locks. */
  ghost predicate SectionRan(s: State, t: nat, s': State) {
    && t in s.tasks && Locking(s.tasks[t]) && !s.tasks[t].place.Unlocking?
    && s'.users == s.users && s'.held == s.held && s'.nextLock == s.nextLock
    && t in s'.tasks && (s'.tasks[t].place.Fenced? || s'.tasks[t].place.Unlocking?)
    && s'.tasks == s.tasks[t := s.tasks[t].(place := s'.tasks[t].place)]
    && (s'.tasks[t].place.Fenced? ==> s.tasks[t].job.Mutate? && Current(s'.leases, s.tasks[t].job.lease))
    && OthersKept(s, On(s.tasks[t].job), s'.table, s'.leases)
  }

  ghost predicate OthersKept(s: State, own: Resource, table: map<Resource, nat>, leases: map<Resource, LeaseState>) {
    && (forall r :: r in table ==> r in s.table && table[r] == s.table[r])
    && (forall r :: r in s.table && r !in table ==> r != own && Idle(s, r) && r !in leases)
    && (forall r :: r != own && r in leases ==> r in s.leases && leases[r] == s.leases[r])
    && (forall r :: r != own && r in s.leases && r !in leases && Idle(s, r) ==> r !in table)
  }

  lemma OwnLeaseChanged(s: State, own: Resource, table: map<Resource, nat>, leases: map<Resource, LeaseState>,
                        lease: LeaseState)
    requires OthersKept(s, own, table, leases)
    ensures OthersKept(s, own, table, leases[own := lease])
    ensures OthersKept(s, own, table, leases - {own})
  {
    hide Idle;
  }

  lemma NothingChanged(s: State, own: Resource)
    ensures OthersKept(s, own, s.table, s.leases)
  {
    hide Idle;
  }

  lemma PrunedKeepsOthers(s: State, own: Resource, now: real)
    ensures OthersKept(s, own, s.table, Pruned(s.leases, own, now))
  {
    hide Idle, OthersKept;
    NothingChanged(s, own);
    if own in s.leases { OwnLeaseChanged(s, own, s.table, s.leases, s.leases[own]); }
  }

  lemma PurgeKeepsOthers(s: State, own: Resource, leases: map<Resource, LeaseState>, now: real)
    requires leases == Pruned(s.leases, own, now) && own !in leases && !Idle(s, own)
    ensures var kept := Unexpired(leases, now);
            OthersKept(s, own, Discarded(s, leases.Keys - kept.Keys, kept), kept)
  {
    hide Idle;
  }

  lemma AcquireRan(s: State, t: nat, now: real, maximum: nat)
    requires t in s.tasks && s.tasks[t].place.Critical? && s.tasks[t].job.Acquire? && !Idle(s, On(s.tasks[t].job))
    ensures SectionRan(s, t, Acquired(s, t, now, maximum))
  {
    hide Idle, OthersKept, Discarded, Unexpired, Pruned, Current;
    var r := s.tasks[t].job.resource;
    var leases := Pruned(s.leases, r, now);
    PrunedKeepsOthers(s, r, now);
    if r !in leases {
      PurgeKeepsOthers(s, r, leases, now);
      var kept := Unexpired(leases, now);
      var table := Discarded(s, leases.Keys - kept.Keys, kept);
      var s' := Acquired(s, t, now, maximum);
      if r in s'.leases { OwnLeaseChanged(s, r, table, kept, s'.leases[r]); }
    }
  }

  lemma BodyRan(s: State, t: nat, now: real, maximum: nat)
    requires t in s.tasks && s.tasks[t].place.Critical? && !Idle(s, On(s.tasks[t].job))
    ensures SectionRan(s, t, BodyStep(s, t, now, maximum))
  {
    hide Idle, Acquired, OthersKept;
    var own := On(s.tasks[t].job);
    NothingChanged(s, own);
    PrunedKeepsOthers(s, own, now);
    if s.tasks[t].job.Acquire? { AcquireRan(s, t, now, maximum); }
    else if own in s.leases {
      OwnLeaseChanged(s, own, s.table, s.leases,
                      s.leases[own].(expiresAt := if s.tasks[t].job.Renew? then now + s.tasks[t].job.ttl else 0.0));
    }
  }

  lemma CommitRan(s: State, t: nat, now: real)
    requires t in s.tasks && s.tasks[t].place.Fenced? && s.tasks[t].job.Mutate?
    ensures SectionRan(s, t, Committed(s, t, now))
  {
    hide Idle, OthersKept;
    PrunedKeepsOthers(s, On(s.tasks[t].job), now);
  }

  /** A task inside keeps its lock from being idle, by the count. */
  lemma NotIdle(s: State, t: nat)
    requires OneLock(s) && Counted(s) && t in s.tasks && Inside(s.tasks[t])
    ensures !Idle(s, On(s.tasks[t].job))
  {
    var r := On(s.tasks[t].job);
    assert t in UsersOf(s.tasks, s.table[r]);
  }

  lemma IdleUnused(s: State, r: Resource)
    requires Counted(s) && r in s.table
    ensures Idle(s, r) ==> UsersOf(s.tasks, s.table[r]) == {}
    ensures UsersOf(s.tasks, s.table[r]) == {} && s.table[r] !in s.held ==> Idle(s, r)
  {}

  lemma SectionKeepsLocks(s: State, t: nat, s': State)
    requires OneLock(s) && Counted(s) && SectionRan(s, t, s')
    ensures OneLock(s') && Counted(s')
  {
    hide Idle, Current;
    forall lock ensures UsersOf(s'.tasks, lock) == UsersOf(s.tasks, lock) { MoveUsers(s.tasks, t, s'.tasks[t], lock); }
    forall u | u in s'.tasks && Inside(s'.tasks[u])
      ensures On(s'.tasks[u].job) in s'.table && s'.table[On(s'.tasks[u].job)] == s'.tasks[u].lock
    {
      NotIdle(s, u);
    }
  }

  lemma SectionKeepsExclusive(s: State, t: nat, s': State)
    requires Exclusive(s) && SectionRan(s, t, s')
    ensures Exclusive(s')
  {
    hide Idle, Current, OthersKept, Exclusive;
    SameLockers(s, s');
  }

  lemma HeldIsUsed(s: State, r: Resource)
    requires Exclusive(s) && r in s.table
    ensures s.table[r] in s.held ==> UsersOf(s.tasks, s.table[r]) != {}
  {
    if s.table[r] in s.held {
      var t :| t in s.tasks && Locking(s.tasks[t]) && s.tasks[t].lock == s.table[r];
      assert t in UsersOf(s.tasks, s.table[r]);
    }
  }

  lemma SectionKeepsNoIdleLock(s: State, t: nat, s': State)
    requires OneLock(s) && Counted(s) && Exclusive(s) && NoIdleLock(s) && SectionRan(s, t, s')
    ensures NoIdleLock(s')
  {
    hide Idle, Current, Exclusive, Counted;
    forall r | r in s'.table && UsersOf(s'.tasks, s'.table[r]) == {} ensures r in s'.leases {
      MoveUsers(s.tasks, t, s'.tasks[t], s.table[r]);
      HeldIsUsed(s, r);
      IdleUnused(s, r);
      NotIdle(s, t);
    }
  }

  lemma SectionKeepsFence(s: State, t: nat, s': State)
    requires OneLock(s) && Exclusive(s) && FenceHolds(s) && SectionRan(s, t, s')
    ensures FenceHolds(s')
  {
    hide Idle;
    forall u | u in s'.tasks && s'.tasks[u].place.Fenced?
      ensures s'.tasks[u].job.Mutate? &&
                (s'.tasks[u].job.lease.resource in s'.leases ==> Current(s'.leases, s'.tasks[u].job.lease))
    {
      if u != t {
        assert !BothLocking(s.tasks[u], s.tasks[t]);
      }
    }
  }

  // ----- locks: the remaining steps -----

  lemma EnterKeepsRest(s: State, t: nat)
    requires OneLock(s) && Exclusive(s) && NoIdleLock(s) && FenceHolds(s) && t in s.tasks && s.tasks[t].place.Outside?
    ensures Exclusive(Entered(s, t)) && NoIdleLock(Entered(s, t)) && FenceHolds(Entered(s, t))
  {
    hide Exclusive, Current, OneLock;
    var s' := Entered(s, t);
    SameLockers(s, s');
    forall r | r in s'.table && UsersOf(s'.tasks, s'.table[r]) == {} ensures r in s'.leases {
      EnterUsers(s, t, s'.table[r]);
      assert t in UsersOf(s'.tasks, s'.tasks[t].lock);
    }
  }

  lemma SpawnKeeps(s: State, t: nat, job: Job)
    requires Invariant(s) && t !in s.tasks
    ensures Invariant(s.(tasks := s.tasks[t := Task(job, Outside, 0)]))
  {
    hide Current, TokensOrdered, Exclusive, OneLock, Counted, NoIdleLock, FenceHolds;
    var s' := s.(tasks := s.tasks[t := Task(job, Outside, 0)]);
    TokensFromFresh(s, s');
    SameLockers(s, s');
    SpawnKeepsLocks(s, t, job);
    SpawnKeepsCounts(s, t, job);
    SpawnKeepsFence(s, t, job);
  }

  lemma SpawnUsers(tasks: map<nat, Task>, t: nat, job: Job, lock: nat)
    requires t !in tasks
    ensures UsersOf(tasks[t := Task(job, Outside, 0)], lock) == UsersOf(tasks, lock)
  {}

  lemma SpawnKeepsLocks(s: State, t: nat, job: Job)
    requires OneLock(s) && t !in s.tasks
    ensures OneLock(s.(tasks := s.tasks[t := Task(job, Outside, 0)]))
  {}

  lemma SpawnKeepsCounts(s: State, t: nat, job: Job)
    requires Counted(s) && NoIdleLock(s) && t !in s.tasks
    ensures var s' := s.(tasks := s.tasks[t := Task(job, Outside, 0)]); Counted(s') && NoIdleLock(s')
  {
    hide UsersOf;
    forall r | r in s.table ensures UsersOf(s.tasks[t := Task(job, Outside, 0)], s.table[r]) ==
        UsersOf(s.tasks, s.table[r]) {
      SpawnUsers(s.tasks, t, job, s.table[r]);
    }
  }

  lemma SpawnKeepsFence(s: State, t: nat, job: Job)
    requires FenceHolds(s) && t !in s.tasks
    ensures FenceHolds(s.(tasks := s.tasks[t := Task(job, Outside, 0)]))
  {
    hide Current;
  }

  /** Moving one task between places inside leaves counts, table and leases alone. */
  lemma MoveKeeps(s: State, t: nat, place: Place, held: set<nat>)
    requires OneLock(s) && Counted(s) && NoIdleLock(s) && FenceHolds(s) && t in s.tasks && Inside(s.tasks[t])
    requires !place.Outside? && !place.Finished? && !place.Fenced?
    ensures var s' := Move(s.(held := held), t, place); OneLock(s') && Counted(s') && NoIdleLock(s') && FenceHolds(s')
  {
    hide Current;
    var s' := Move(s.(held := held), t, place);
    forall lock ensures UsersOf(s'.tasks, lock) == UsersOf(s.tasks, lock) { MoveUsers(s.tasks, t, s'.tasks[t], lock); }
  }

  lemma LockKeepsExclusive(s: State, t: nat)
    requires Exclusive(s) && t in s.tasks && s.tasks[t].place.Waiting? && s.tasks[t].lock !in s.held
    ensures Exclusive(Move(s.(held := s.held + {s.tasks[t].lock}), t, Critical))
  {
    var s' := Move(s.(held := s.held + {s.tasks[t].lock}), t, Critical);
    forall l | l in s'.held ensures exists u :: u in s'.tasks && Locking(s'.tasks[u]) && s'.tasks[u].lock == l {
      if l == s.tasks[t].lock {
        assert Locking(s'.tasks[t]);
      } else {
        var u :| u in s.tasks && Locking(s.tasks[u]) && s.tasks[u].lock == l;
        assert Locking(s'.tasks[u]);
      }
    }
  }

  lemma UnlockKeepsExclusive(s: State, t: nat)
    requires Exclusive(s) && t in s.tasks && s.tasks[t].place.Unlocking?
    ensures Exclusive(Move(s.(held := s.held - {s.tasks[t].lock}), t, Leaving))
  {
    var s' := Move(s.(held := s.held - {s.tasks[t].lock}), t, Leaving);
    forall l | l in s'.held ensures exists u :: u in s'.tasks && Locking(s'.tasks[u]) && s'.tasks[u].lock == l {
      var u :| u in s.tasks && Locking(s.tasks[u]) && s.tasks[u].lock == l;
      assert Locking(s'.tasks[u]);
    }
    forall u | u in s'.tasks && Locking(s'.tasks[u]) ensures s'.tasks[u].lock in s'.held {
      assert !BothLocking(s.tasks[u], s.tasks[t]);
    }
  }

  /** Leaving, before the idle lock is looked for. */
  function Departed(s: State, t: nat): State
    requires t in s.tasks
  {
    var lock := s.tasks[t].lock;
    var count := if lock in s.users && s.users[lock] > 0 then s.users[lock] - 1 else 0;
    Move(s.(users := s.users[lock := count]), t, Finished)
  }

  lemma DepartKeeps(s: State, t: nat)
    requires OneLock(s) && Counted(s) && Exclusive(s) && FenceHolds(s) && t in s.tasks && s.tasks[t].place.Leaving?
    ensures var s' := Departed(s, t); OneLock(s') && Counted(s') && FenceHolds(s')
  {
    hide Current, Exclusive, UsersOf;
    var s' := Departed(s, t);
    forall r | r in s'.table
      ensures s'.table[r] in s'.users && s'.users[s'.table[r]] == |UsersOf(s'.tasks, s'.table[r])|
    {
      LeaveUsers(s.tasks, t, s.table[r]);
      if s.table[r] == s.tasks[t].lock { UsesItsLock(s.tasks, t); }
    }
  }

  lemma UsesItsLock(tasks: map<nat, Task>, t: nat)
    requires t in tasks && Inside(tasks[t])
    ensures t in UsersOf(tasks, tasks[t].lock) && |UsersOf(tasks, tasks[t].lock)| > 0
  {
    assert t in UsersOf(tasks, tasks[t].lock);
  }

  lemma DepartKeepsExclusive(s: State, t: nat)
    requires Exclusive(s) && t in s.tasks && s.tasks[t].place.Leaving?
    ensures Exclusive(Departed(s, t))
  {
    hide Exclusive;
    SameLockers(s, Departed(s, t));
  }

  /** Dropping an idle lock of r whose lease is gone. */
  lemma DiscardKeeps(s: State, r: Resource)
    requires OneLock(s) && Counted(s)
    ensures var s' := s.(table := Discarded(s, {r}, s.leases)); OneLock(s') && Counted(s')
  {
    var s' := s.(table := Discarded(s, {r}, s.leases));
    forall u | u in s'.tasks && Inside(s'.tasks[u])
      ensures On(s'.tasks[u].job) in s'.table && s'.table[On(s'.tasks[u].job)] == s'.tasks[u].lock
    {
      NotIdle(s, u);
    }
  }

  lemma LeaveKeepsNoIdleLock(s: State, t: nat)
    requires OneLock(s) && Counted(s) && Exclusive(s) && NoIdleLock(s) && t in s.tasks && s.tasks[t].place.Leaving?
    requires Counted(Departed(s, t)) && Exclusive(Departed(s, t))
    ensures NoIdleLock(Left(s, t))
  {
    hide Exclusive, Counted;
    var s' := Departed(s, t);
    var r := On(s.tasks[t].job);
    forall q | q in Left(s, t).table && UsersOf(s'.tasks, s'.table[q]) == {} ensures q in s'.leases {
      LeaveUsers(s.tasks, t, s.table[q]);
      if q == r {
        HeldIsUsed(s', r);
        IdleUnused(s', r);
      } else {
        assert t !in UsersOf(s.tasks, s.table[q]);
      }
    }
  }

  lemma LeaveKeeps(s: State, t: nat)
    requires Invariant(s) && t in s.tasks && s.tasks[t].place.Leaving?
    ensures Invariant(Left(s, t))
  {
    hide OneLock, Counted, Exclusive, NoIdleLock, FenceHolds, TokensOrdered, Discarded;
    var s' := Departed(s, t);
    DepartKeeps(s, t);
    DepartKeepsExclusive(s, t);
    LeaveKeepsNoIdleLock(s, t);
    DiscardKeeps(s', On(s.tasks[t].job));
    TokensFromFresh(s, Left(s, t));
    assert Left(s, t) == s'.(table := Discarded(s', {On(s.tasks[t].job)}, s'.leases));
    SameTasks(s', Left(s, t));
  }

  lemma SameTasks(s: State, s': State)
    requires s' == s.(table := s'.table)
    ensures Exclusive(s) ==> Exclusive(s')
    ensures FenceHolds(s) ==> FenceHolds(s')
  {
    hide Current;
  }

  lemma SectionKeeps(s: State, t: nat, s': State)
    requires Invariant(s) && SectionRan(s, t, s')
    ensures OneLock(s') && Counted(s') && Exclusive(s') && NoIdleLock(s') && FenceHolds(s')
  {
    hide OneLock, Counted, Exclusive, NoIdleLock, FenceHolds, TokensOrdered, SectionRan;
    SectionKeepsLocks(s, t, s');
    SectionKeepsExclusive(s, t, s');
    SectionKeepsNoIdleLock(s, t, s');
    SectionKeepsFence(s, t, s');
  }

  lemma StepKeepsInvariant(s: State, a: Action, t: nat, now: real, maximum: nat, s': State)
    requires Invariant(s) && Step(s, a, t, now, maximum, s')
    ensures Invariant(s')
  {
    hide OneLock, Counted, Exclusive, NoIdleLock, FenceHolds, TokensOrdered, SectionRan, Entered, BodyStep, Committed,
         Left;
    TokensKept(s, a, t, now, maximum, s');
    match a
    case Spawn(job) => SpawnKeeps(s, t, job);
    case Enter =>
      EnterKeeps(s, t);
      EnterKeepsRest(s, t);
    case Lock =>
      MoveKeeps(s, t, Critical, s.held + {s.tasks[t].lock});
      LockKeepsExclusive(s, t);
    case Body =>
      NotIdle(s, t);
      BodyRan(s, t, now, maximum);
      SectionKeeps(s, t, s');
    case CommitStep =>
      CommitRan(s, t, now);
      SectionKeeps(s, t, s');
    case Unlock =>
      MoveKeeps(s, t, Leaving, s.held - {s.tasks[t].lock});
      UnlockKeepsExclusive(s, t);
    case Leave => LeaveKeeps(s, t);
  }

  // ----- every run -----

  datatype Event = Event(action: Action, task: nat, now: real)

  /** Any interleaving of any tasks, with any clock readings. */
  ghost predicate IsRun(states: seq<State>, events: seq<Event>, maximum: nat) {
    && |states| == |events| + 1 && states[0] == Initial()
    && forall i :: 0 <= i < |events| ==>
         Step(states[i], events[i].action, events[i].task, events[i].now, maximum, states[i + 1])
  }

  lemma {:induction false} RunKeepsInvariant(states: seq<State>, events: seq<Event>, maximum: nat, n: nat)
    requires IsRun(states, events, maximum) && n < |states|
    ensures Invariant(states[n])
  {
    hide Invariant, Step;
    if n == 0 {
      InitialInvariant();
    } else {
      RunKeepsInvariant(states, events, maximum, n - 1);
      var e := events[n - 1];
      assert Step(states[n - 1], e.action, e.task, e.now, maximum, states[n - 1 + 1]);
      StepKeepsInvariant(states[n - 1], e.action, e.task, e.now, maximum, states[n]);
    }
  }

  /** A fenced mutation commits only in a step in which its lease is the stored,
      unexpired entry of the resource. */
  lemma CommitsOnlyWithCurrentLease(s: State, a: Action, t: nat, now: real, maximum: nat, s': State)
    requires Step(s, a, t, now, maximum, s') && s'.commits != s.commits
    ensures a == CommitStep && s.tasks[t].job.Mutate?
    ensures var lease := s.tasks[t].job.lease;
            Required(s.leases, lease, now) && s'.commits == s.commits + [Commit(lease.resource, lease.fencing)]
  {
    hide Discarded, Pruned, Unexpired, Required;
  }

  /** In every run the tokens of the commits guarded by one resource never step
      back, two tasks inside share one lock object per resource, at most one task is
      past it, a fence is never overtaken, and no lock outlives its use and lease. */
  lemma FencingInEveryRun(states: seq<State>, events: seq<Event>, maximum: nat, n: nat)
    requires IsRun(states, events, maximum) && n < |states|
    ensures var s := states[n];
            && (forall i, j :: 0 <= i < j < |s.commits| && s.commits[i].resource == s.commits[j].resource ==>
                  s.commits[i].fencing <= s.commits[j].fencing)
            && (forall t, u :: t in s.tasks && u in s.tasks && Together(s.tasks[t], s.tasks[u]) ==>
                  s.tasks[t].lock == s.tasks[u].lock && (Locking(s.tasks[t]) && Locking(s.tasks[u]) ==> t == u))
            && FenceHolds(s) && NoIdleLock(s)
  {
    hide IsRun, Current;
    RunKeepsInvariant(states, events, maximum, n);
    var s := states[n];
    forall t, u | t in s.tasks && u in s.tasks && Together(s.tasks[t], s.tasks[u]) && Locking(s.tasks[t]) &&
        Locking(s.tasks[u])
      ensures t == u
    {
      assert BothLocking(s.tasks[t], s.tasks[u]);
    }
  }

  /** Two tasks using a lock for the same resource. */
  predicate Together(a: Task, b: Task) { Inside(a) && Inside(b) && On(a.job) == On(b.job) }
}
