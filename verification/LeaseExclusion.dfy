/** A live lease is exclusive: what may happen to the lease of a resource in one step, and
    what that means over every run. The statements look at the lease table, the clock and
    what the stepping task asked for. */
module LeaseExclusion {
  import opened Common
  import opened LeaseFencing

  /** The lease presented is the one stored for its resource. */
  predicate Matches(v: LeaseState, lease: Lease) {
    v.holder == lease.holder && v.fencing == lease.fencing && v.token == lease.token
  }

  function JobOf(s: State, t: nat): Option<Job> { if t in s.tasks then Some(s.tasks[t].job) else None }

  /** This step is the critical section of a release that presents the live lease of r. */
  predicate Releases(s: State, e: Event, r: Resource) {
    var job := JobOf(s, e.task);
    && e.action.Body? && job.Some? && job.value.Release? && job.value.lease.resource == r
    && r in s.leases && e.now < s.leases[r].expiresAt && Matches(s.leases[r], job.value.lease)
  }

  /** This step is the critical section of a renewal that presents the live lease of r. */
  predicate Renews(s: State, e: Event, r: Resource) {
    var job := JobOf(s, e.task);
    && e.action.Body? && job.Some? && job.value.Renew? && job.value.lease.resource == r
    && r in s.leases && e.now < s.leases[r].expiresAt && Matches(s.leases[r], job.value.lease)
  }

  /** This step is the critical section of an acquisition of r. */
  predicate Asks(s: State, e: Event, r: Resource) {
    var job := JobOf(s, e.task);
    e.action.Body? && job.Some? && job.value.Acquire? && job.value.resource == r
  }

  predicate Expired(s: State, e: Event, r: Resource) { r in s.leases && s.leases[r].expiresAt <= e.now }

  function LiveResources(s: State, now: real): set<Resource> {
    set r | r in s.leases && now < s.leases[r].expiresAt
  }

  /** An acquisition is granted when r has no live lease and fewer resources than the
      limit have one. */
  predicate Grants(s: State, e: Event, r: Resource, maximum: nat) {
    Asks(s, e, r) && r !in LiveResources(s, e.now) && |LiveResources(s, e.now)| < maximum
  }

  /** The stored lease of r after a step, from what was asked and when. */
  ghost predicate LeaseAfter(s: State, e: Event, maximum: nat, s': State, r: Resource) {
    if Grants(s, e, r, maximum) then
      && r in s'.leases && s.nextFencing < s'.leases[r].fencing
      && s'.leases[r].holder == s.tasks[e.task].job.holder && s'.leases[r].token == s.tasks[e.task].job.token
      && s'.leases[r].expiresAt == e.now + s.tasks[e.task].job.ttl
    else if Renews(s, e, r) then
      r in s'.leases && s'.leases[r] == s.leases[r].(expiresAt := e.now + s.tasks[e.task].job.ttl)
    else if Releases(s, e, r) then r !in s'.leases
    else if Expired(s, e, r) then r in s'.leases ==> s'.leases[r] == s.leases[r]
    else (r in s'.leases <==> r in s.leases) && (r in s.leases ==> s'.leases[r] == s.leases[r])
  }

  lemma UnexpiredIsLive(s: State, r: Resource, now: real)
    ensures Unexpired(Pruned(s.leases, r, now), now).Keys == LiveResources(s, now)
    ensures |Unexpired(Pruned(s.leases, r, now), now)| == |LiveResources(s, now)|
  {
    assert Unexpired(Pruned(s.leases, r, now), now).Keys == LiveResources(s, now);
  }

  lemma AcquireStep(s: State, t: nat, now: real, maximum: nat, r: Resource)
    requires t in s.tasks && s.tasks[t].job.Acquire?
    ensures LeaseAfter(s, Event(Body, t, now), maximum, Acquired(s, t, now, maximum), r)
  {
    hide Discarded, LiveResources, Pruned, Unexpired;
    var own := s.tasks[t].job.resource;
    UnexpiredIsLive(s, own, now);
    PrunedAndKept(s, own, now, r);
  }

  lemma PrunedAndKept(s: State, own: Resource, now: real, r: Resource)
    ensures var leases := Pruned(s.leases, own, now);
            var kept := Unexpired(leases, now);
            && (own in leases <==> own in LiveResources(s, now))
            && (r in leases ==> r in s.leases && leases[r] == s.leases[r])
            && (r in s.leases && now < s.leases[r].expiresAt ==> r in leases && r in kept)
            && (r in kept ==> r in leases && kept[r] == leases[r] && now < kept[r].expiresAt)
            && (r in LiveResources(s, now) <==> r in s.leases && now < s.leases[r].expiresAt)
  {}

  lemma BodyLease(s: State, t: nat, now: real, maximum: nat, r: Resource)
    requires t in s.tasks
    ensures LeaseAfter(s, Event(Body, t, now), maximum, BodyStep(s, t, now, maximum), r)
  {
    hide Acquired, LiveResources;
    if s.tasks[t].job.Acquire? { AcquireStep(s, t, now, maximum, r); }
  }

  /** Every step does this to the lease of every resource, and nothing else. */
  lemma StepLease(s: State, e: Event, maximum: nat, s': State, r: Resource)
    requires Step(s, e.action, e.task, e.now, maximum, s')
    ensures LeaseAfter(s, e, maximum, s', r)
  {
    hide Discarded, BodyStep, Grants, Renews, Releases, Entered, Left, Committed;
    if e.action.Body? {
      BodyLease(s, e.task, e.now, maximum, r);
      assert e == Event(Body, e.task, e.now);
    } else {
      OnlyInBody(s, e, maximum, r);
      OtherStepLeases(s, e, maximum, s', r);
    }
  }

  lemma OnlyInBody(s: State, e: Event, maximum: nat, r: Resource)
    requires !e.action.Body?
    ensures !Grants(s, e, r, maximum) && !Renews(s, e, r) && !Releases(s, e, r)
  {}

  lemma OtherStepLeases(s: State, e: Event, maximum: nat, s': State, r: Resource)
    requires Step(s, e.action, e.task, e.now, maximum, s') && !e.action.Body?
    ensures r in s'.leases ==> r in s.leases && s'.leases[r] == s.leases[r]
    ensures r in s.leases && r !in s'.leases ==> Expired(s, e, r)
  {
    hide Discarded, Required;
  }

  // ----- every run -----

  lemma RunStep(states: seq<State>, events: seq<Event>, maximum: nat, n: nat)
    requires IsRun(states, events, maximum) && n < |events|
    ensures Step(states[n], events[n].action, events[n].task, events[n].now, maximum, states[n + 1])
  {}

  /** A lease stays with its holder: it goes, or another one takes its place, only in a
      step that finds it expired or releases this very lease. */
  lemma LeaseIsExclusive(states: seq<State>, events: seq<Event>, maximum: nat, n: nat, r: Resource)
    requires IsRun(states, events, maximum) && n < |events| && r in states[n].leases
    requires r !in states[n + 1].leases || states[n + 1].leases[r].fencing != states[n].leases[r].fencing
    ensures Expired(states[n], events[n], r) || Releases(states[n], events[n], r)
  {
    hide Step;
    RunStep(states, events, maximum, n);
    StepLease(states[n], events[n], maximum, states[n + 1], r);
  }

  /** Two different leases of one resource: between them the first one expired or was
      released by its holder. */
  lemma {:induction false} LeasesFollowEachOther(
    states: seq<State>, events: seq<Event>, maximum: nat, n: nat, m: nat, r: Resource)
    requires IsRun(states, events, maximum) && n < m < |states| && r in states[n].leases && r in states[m].leases
    requires states[m].leases[r].fencing != states[n].leases[r].fencing
    ensures exists k :: n <= k < m && r in states[k].leases
                        && states[k].leases[r].fencing == states[n].leases[r].fencing
                        && (Expired(states[k], events[k], r) || Releases(states[k], events[k], r))
    decreases m - n
  {
    hide Step, Expired, Releases;
    if r in states[n + 1].leases && states[n + 1].leases[r].fencing == states[n].leases[r].fencing {
      LeasesFollowEachOther(states, events, maximum, n + 1, m, r);
      var k :| n + 1 <= k < m && r in states[k].leases && states[k].leases[r].fencing == states[n].leases[r].fencing
               && (Expired(states[k], events[k], r) || Releases(states[k], events[k], r));
    } else {
      LeaseIsExclusive(states, events, maximum, n, r);
    }
  }

  /** Every lease lasts as long as its holder last asked for: it goes back to a grant or a
      renewal, and has not been changed since. */
  lemma {:induction false} LeaseLastsAsAsked(states: seq<State>, events: seq<Event>, maximum: nat, n: nat, r: Resource)
    requires IsRun(states, events, maximum) && n < |states| && r in states[n].leases
    ensures exists i :: 0 <= i < n && AskedAt(states, events, maximum, n, r, i)
  {
    hide Step;
    if n > 0 {
      var s, e := states[n - 1], events[n - 1];
      RunStep(states, events, maximum, n - 1);
      StepLease(s, e, maximum, states[n], r);
      if Grants(s, e, r, maximum) || Renews(s, e, r) {
        assert AskedAt(states, events, maximum, n, r, n - 1);
      } else {
        LeaseLastsAsAsked(states, events, maximum, n - 1, r);
        var i :| 0 <= i < n - 1 && AskedAt(states, events, maximum, n - 1, r, i);
        assert AskedAt(states, events, maximum, n, r, i);
      }
    } else {
      NoLeaseAtFirst(states, events, maximum);
    }
  }

  ghost predicate AskedAt(states: seq<State>, events: seq<Event>, maximum: nat, n: nat, r: Resource, i: int)
    requires 0 <= i < n < |states| == |events| + 1
  {
    var s, e := states[i], events[i];
    && r in states[n].leases && (Grants(s, e, r, maximum) || Renews(s, e, r))
    && states[n].leases[r].expiresAt == e.now + s.tasks[e.task].job.ttl
    && forall k :: i < k <= n ==> r in states[k].leases && states[k].leases[r] == states[n].leases[r]
  }

  lemma NoLeaseAtFirst(states: seq<State>, events: seq<Event>, maximum: nat)
    requires IsRun(states, events, maximum)
    ensures states[0].leases == map[]
  {}

  // ----- the limit -----

  lemma {:induction false} LeasesWithinLimit(states: seq<State>, events: seq<Event>, maximum: nat, n: nat)
    requires IsRun(states, events, maximum) && n < |states|
    ensures |states[n].leases| <= maximum
  {
    hide Step;
    if n == 0 {
      NoLeaseAtFirst(states, events, maximum);
    } else {
      LeasesWithinLimit(states, events, maximum, n - 1);
      RunStep(states, events, maximum, n - 1);
      StepWithinLimit(states[n - 1], events[n - 1], maximum, states[n]);
    }
  }

  lemma StepWithinLimit(s: State, e: Event, maximum: nat, s': State)
    requires Step(s, e.action, e.task, e.now, maximum, s') && |s.leases| <= maximum
    ensures |s'.leases| <= maximum
  {
    hide Discarded, Acquired;
    if e.action.Body? && s.tasks[e.task].job.Acquire? {
      AcquireWithinLimit(s, e.task, e.now, maximum);
    } else {
      FewerLeases(s'.leases, s.leases);
    }
  }

  lemma FewerLeases(a: map<Resource, LeaseState>, b: map<Resource, LeaseState>)
    ensures a.Keys <= b.Keys ==> |a| <= |b|
  {
    if a.Keys <= b.Keys { assert b.Keys == a.Keys + (b.Keys - a.Keys); }
  }

  lemma AcquireWithinLimit(s: State, t: nat, now: real, maximum: nat)
    requires t in s.tasks && s.tasks[t].job.Acquire? && |s.leases| <= maximum
    ensures |Acquired(s, t, now, maximum).leases| <= maximum
  {
    hide Discarded;
    var r := s.tasks[t].job.resource;
    var leases := Pruned(s.leases, r, now);
    FewerLeases(leases, s.leases);
    FewerLeases(Unexpired(leases, now), s.leases);
    var kept := Unexpired(leases, now);
    assert kept[r := LeaseState("", 0, "", 0.0)].Keys == kept.Keys + {r};
  }

  // ----- fenced mutations -----

  /** A task is let into the fence if and only if it presents the live lease. */
  lemma FencedIffLive(s: State, t: nat, now: real, maximum: nat, s': State)
    requires Step(s, Body, t, now, maximum, s') && s.tasks[t].job.Mutate?
    ensures var lease := s.tasks[t].job.lease;
            s'.tasks[t].place.Fenced? <==>
            && lease.resource in s.leases && now < s.leases[lease.resource].expiresAt
            && Matches(s.leases[lease.resource], lease)
  {
    hide Pruned;
  }

  /** And its mutation is applied if and only if that is still so. */
  lemma CommittedIffLive(s: State, t: nat, now: real, maximum: nat, s': State)
    requires Step(s, CommitStep, t, now, maximum, s')
    ensures var lease := s.tasks[t].job.lease;
            var live := lease.resource in s.leases && now < s.leases[lease.resource].expiresAt
                        && Matches(s.leases[lease.resource], lease);
            s'.commits == if live then s.commits + [Commit(lease.resource, lease.fencing)] else s.commits
  {
    hide Pruned;
  }
}
