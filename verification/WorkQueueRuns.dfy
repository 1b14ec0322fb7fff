/** What holds over whole runs of the in-memory work queue. */
module WorkQueueRuns {
  import opened Common
  import opened WorkQueueModel
  import opened WorkQueueSteps

  ghost predicate Step(l: Limits, s: State, a: Action, s': State) { Enabled(l, s, a) && s' == Next(l, s, a) }

  ghost predicate IsRun(l: Limits, states: seq<State>, actions: seq<Action>) {
    && 0 < l.deadLetters && |states| == |actions| + 1 && states[0] == Initial()
    && forall i :: 0 <= i < |actions| ==> Step(l, states[i], actions[i], states[i + 1])
  }

  lemma InitialInvariant(l: Limits)
    ensures Invariant(l, Initial())
  {
    assert Known(Initial()) == {};
    forall q ensures ActiveCount(Initial(), q) == 0 {
      assert DelayedIn(map[], q) == {} && InflightIn(map[], q) == {};
    }
  }

  /** The invariant holds after every step of every run. */
  lemma {:induction false} RunKeepsInvariant(l: Limits, states: seq<State>, actions: seq<Action>, n: nat)
    requires IsRun(l, states, actions) && n < |states|
    ensures Invariant(l, states[n])
  {
    hide Invariant, Next, Enabled;
    if n == 0 {
      InitialInvariant(l);
    } else {
      RunKeepsInvariant(l, states, actions, n - 1);
      assert Step(l, states[n - 1], actions[n - 1], states[n - 1 + 1]);
      StepKeepsInvariant(l, states[n - 1], actions[n - 1]);
    }
  }

  /** In every run each published item is in exactly one place, and a container holds
      nothing that was not published. */
  lemma EveryItemInExactlyOnePlace(l: Limits, states: seq<State>, actions: seq<Action>, n: nat, id: string)
    requires IsRun(l, states, actions) && n < |states|
    ensures var s := states[n];
            && (id in s.place && !Terminal(s.place[id]) ==> id in Content(s, s.place[id]))
            && (forall p :: id in Content(s, p) ==> id in s.place && p == s.place[id])
            && (forall p :: NoRepeats(Content(s, p)))
  {
    hide Content, Bounded, Ordered, WithinLimits, IsRun, NoRepeats;
    RunKeepsInvariant(l, states, actions, n);
    var s := states[n];
    TerminalHoldNothing(s);
    forall p | id in Content(s, p) ensures id in s.place && p == s.place[id] {
      assert HoldsExactly(Content(s, p), s.place, p);
    }
    if id in s.place && !Terminal(s.place[id]) {
      assert HoldsExactly(Content(s, s.place[id]), s.place, s.place[id]);
      assert IsAt(s.place, id, s.place[id]);
    }
  }

  lemma TerminalHoldNothing(s: State)
    ensures forall p :: Terminal(p) ==> Content(s, p) == []
  {}

  /** Items published without delay get their first delivery in publish order. */
  lemma FirstDeliveriesInPublishOrder(l: Limits, states: seq<State>, actions: seq<Action>, n: nat, q: QueueKey)
    requires IsRun(l, states, actions) && n < |states|
    ensures Of(states[n].firsts, q) <= Of(states[n].direct, q)
  {
    hide Located, Bounded, WithinLimits, IsRun, UntouchedIn, Of;
    RunKeepsInvariant(l, states, actions, n);
    assert OrderedIn(states[n], q);
  }

  // ----- once settled, always settled -----

  predicate Uses(a: Action, receipt: string) {
    (a.Renew? || a.Acknowledge? || a.Retry? || a.Bury?) && a.receipt == receipt
  }

  predicate Settles(a: Action, receipt: string) { (a.Acknowledge? || a.Retry? || a.Bury?) && a.receipt == receipt }

  predicate Spent(s: State, receipt: string) { receipt in s.issued && receipt !in s.inflight }

  lemma EnqueuedFrame(s: State, q: QueueKey, item: Item, at: Option<real>)
    ensures var s' := Enqueued(s, q, item, at);
            s'.issued == s.issued && s'.inflight == s.inflight && s'.dead == s.dead
  {}

  lemma StepKeepsSpent(l: Limits, s: State, a: Action, s': State, receipt: string)
    requires Step(l, s, a, s') && Bounded(s)
    ensures Spent(s, receipt) || Settles(a, receipt) ==> Spent(s', receipt)
    ensures Spent(s, receipt) ==> !Uses(a, receipt)
  {
    hide Enqueued, Buried, Trimmed, Known, ActiveCount, ReadyBounded, DelayedBounded, InflightBounded, DeadBounded;
    match a
    case Publish(q, id, payload, max, at) =>
      EnqueuedFrame(Announced(s, q, id, Origin(q, payload, max, at.None?)), q, Item(id, payload, max, 0), at);
    case Promote(slot, _) =>
      EnqueuedFrame(s.(delayed := s.delayed - {slot}), s.delayed[slot].queue, s.delayed[slot].item, None);
    case Retry(r, at) => EnqueuedFrame(Taken(s, r), s.inflight[r].queue, s.inflight[r].item, at);
    case Bury(r) => BuriedFrame(l, Taken(s, r), s.inflight[r].queue, s.inflight[r].item);
    case _ =>
  }

  lemma {:induction false} SpentStaysSpent(
    l: Limits, states: seq<State>, actions: seq<Action>, i: nat, n: nat, receipt: string)
    requires IsRun(l, states, actions) && i <= n < |states| && Spent(states[i], receipt)
    ensures Spent(states[n], receipt)
    decreases n - i
  {
    hide Step, Spent, Settles, Uses, Located, Bounded, Ordered, WithinLimits;
    if i < n {
      SpentStaysSpent(l, states, actions, i, n - 1, receipt);
      RunKeepsInvariant(l, states, actions, n - 1);
      assert Step(l, states[n - 1], actions[n - 1], states[n - 1 + 1]);
      StepKeepsSpent(l, states[n - 1], actions[n - 1], states[n], receipt);
    }
  }

  /** A receipt settles at most once, and is of no use for anything afterwards. */
  lemma ReceiptSettlesOnce(l: Limits, states: seq<State>, actions: seq<Action>, i: nat, j: nat, receipt: string)
    requires IsRun(l, states, actions) && i < j < |actions| && Settles(actions[i], receipt)
    ensures !Uses(actions[j], receipt)
  {
    hide Step, Spent, Settles, Uses, Located, Bounded, Ordered, WithinLimits;
    RunKeepsInvariant(l, states, actions, i);
    RunKeepsInvariant(l, states, actions, j);
    assert Step(l, states[i], actions[i], states[i + 1]);
    assert Step(l, states[j], actions[j], states[j + 1]);
    StepKeepsSpent(l, states[i], actions[i], states[i + 1], receipt);
    SpentStaysSpent(l, states, actions, i + 1, j, receipt);
    StepKeepsSpent(l, states[j], actions[j], states[j + 1], receipt);
  }

  // ----- acknowledged and evicted items never come back -----

  /** Only an item held in a container can move. */
  ghost predicate PlacesKept(place: map<string, Place>, place': map<string, Place>) {
    forall id :: id in place ==> id in place' && (Terminal(place[id]) ==> place'[id] == place[id])
  }

  lemma OneMoved(place: map<string, Place>, id: string, p: Place)
    requires id in place ==> !Terminal(place[id])
    ensures PlacesKept(place, place[id := p])
  {}

  lemma NotTerminal(s: State, p: Place, id: string)
    requires Located(s) && id in Content(s, p)
    ensures IsAt(s.place, id, p) && !Terminal(p)
  {
    hide Content;
    TerminalHoldNothing(s);
    assert HoldsExactly(Content(s, p), s.place, p);
  }

  lemma HeldAreNotTerminal(s: State)
    requires Located(s)
    ensures forall k :: k in s.delayed ==> IsAt(s.place, s.delayed[k].item.identity, InDelayed(k))
    ensures forall r :: r in s.inflight ==> IsAt(s.place, s.inflight[r].item.identity, InFlight(r))
  {
    hide Located, Ids;
    forall k | k in s.delayed ensures IsAt(s.place, s.delayed[k].item.identity, InDelayed(k)) {
      NotTerminal(s, InDelayed(k), s.delayed[k].item.identity);
    }
    forall r | r in s.inflight ensures IsAt(s.place, s.inflight[r].item.identity, InFlight(r)) {
      NotTerminal(s, InFlight(r), s.inflight[r].item.identity);
    }
  }

  lemma HeadsAreNotTerminal(s: State, q: QueueKey)
    requires Located(s)
    ensures Of(s.ready, q) != [] ==> IsAt(s.place, s.ready[q][0].identity, InReady(q))
    ensures Of(s.dead, q) != [] ==> IsAt(s.place, s.dead[q][0].identity, InDead(q))
  {
    hide Located;
    if Of(s.ready, q) != [] {
      assert Ids(Of(s.ready, q))[0] == s.ready[q][0].identity;
      NotTerminal(s, InReady(q), s.ready[q][0].identity);
    }
    if Of(s.dead, q) != [] {
      assert Ids(Of(s.dead, q))[0] == s.dead[q][0].identity;
      NotTerminal(s, InDead(q), s.dead[q][0].identity);
    }
  }

  lemma BuryKeepsPlaces(l: Limits, s: State, r: string)
    requires Located(s) && Enabled(l, s, Bury(r))
    ensures PlacesKept(s.place, Next(l, s, Bury(r)).place)
  {
    hide Located, PlacesKept;
    var held := s.inflight[r];
    var b := Buried(Taken(s, r), held.queue, held.item);
    HeldAreNotTerminal(s);
    HeadsAreNotTerminal(s, held.queue);
    OneMoved(s.place, held.item.identity, InDead(held.queue));
    OneMoved(b.place, Of(b.dead, held.queue)[0].identity, Evicted);
    KeptTransitive(s.place, b.place, b.place[Of(b.dead, held.queue)[0].identity := Evicted]);
  }

  lemma KeptTransitive(a: map<string, Place>, b: map<string, Place>, c: map<string, Place>)
    requires PlacesKept(a, b) && PlacesKept(b, c)
    ensures PlacesKept(a, c)
  {}

  lemma EnqueuedMoves(s: State, q: QueueKey, item: Item, at: Option<real>)
    requires item.identity in s.place ==> !Terminal(s.place[item.identity])
    ensures PlacesKept(s.place, Enqueued(s, q, item, at).place)
  {
    hide PlacesKept;
    OneMoved(s.place, item.identity, Target(s, q, at));
  }

  lemma StepKeepsPlaces(l: Limits, s: State, a: Action, s': State)
    requires Step(l, s, a, s') && Located(s)
    ensures PlacesKept(s.place, s'.place)
  {
    hide Located, Known, ActiveCount, Trimmed, Untouched, Enqueued, PlacesKept;
    HeldAreNotTerminal(s);
    match a
    case Publish(q, id, payload, max, at) =>
      EnqueuedMoves(Announced(s, q, id, Origin(q, payload, max, at.None?)), q, Item(id, payload, max, 0), at);
    case Promote(slot, _) =>
      EnqueuedMoves(s.(delayed := s.delayed - {slot}), s.delayed[slot].queue, s.delayed[slot].item, None);
    case Reserve(q, r, _) =>
      HeadsAreNotTerminal(s, q);
      OneMoved(s.place, s.ready[q][0].identity, InFlight(r));
    case Acknowledge(r) => OneMoved(s.place, s.inflight[r].item.identity, Acknowledged);
    case Retry(r, at) => EnqueuedMoves(Taken(s, r), s.inflight[r].queue, s.inflight[r].item, at);
    case Bury(r) => BuryKeepsPlaces(l, s, r);
    case Renew(_, _) => NoneMoved(s.place);
    case Prune(_) => NoneMoved(s.place);
  }

  lemma NoneMoved(place: map<string, Place>)
    ensures PlacesKept(place, place)
  {}

  lemma {:induction false} SettledItemStaysSettled(
    l: Limits, states: seq<State>, actions: seq<Action>, i: nat, n: nat, id: string)
    requires IsRun(l, states, actions) && i <= n < |states| && id in states[i].place
    ensures id in states[n].place
    ensures Terminal(states[i].place[id]) ==> states[n].place[id] == states[i].place[id]
    decreases n - i
  {
    hide Step, Terminal, Located, Bounded, Ordered, WithinLimits;
    if i < n {
      SettledItemStaysSettled(l, states, actions, i, n - 1, id);
      RunKeepsInvariant(l, states, actions, n - 1);
      assert Step(l, states[n - 1], actions[n - 1], states[n - 1 + 1]);
      StepKeepsPlaces(l, states[n - 1], actions[n - 1], states[n]);
    }
  }

  // ----- waking up -----

  predicate Due(d: Delayed, q: QueueKey, now: real) { d.queue == q && d.availableAt <= now }

  predicate Recoverable(v: Reservation, q: QueueKey, now: real) {
    v.queue == q && v.visibleUntil <= now && v.item.attempt < v.item.maxAttempts
  }

  predicate OutOfAttempts(v: Reservation, q: QueueKey, now: real) {
    v.queue == q && v.visibleUntil <= now && v.item.attempt >= v.item.maxAttempts
  }

  /** A reserve at this time would get an item of this queue. */
  ghost predicate Deliverable(s: State, q: QueueKey, now: real) {
    || Of(s.ready, q) != []
    || (exists k :: k in s.delayed && Due(s.delayed[k], q, now))
    || (exists r :: r in s.inflight && Recoverable(s.inflight[r], q, now))
  }

  ghost predicate IsWakeUp(s: State, q: QueueKey, wake: Option<real>) {
    && (forall k :: k in s.delayed && s.delayed[k].queue == q ==> wake.Some? && wake.value <= s.delayed[k].availableAt)
    && (forall r :: r in s.inflight && s.inflight[r].queue == q ==>
        wake.Some? && wake.value <= s.inflight[r].visibleUntil)
    && (wake.Some? ==>
          || (exists k :: k in s.delayed && s.delayed[k].queue == q && s.delayed[k].availableAt == wake.value)
          || (exists r :: r in s.inflight && s.inflight[r].queue == q && s.inflight[r].visibleUntil == wake.value))
  }

  /** When nothing is ready, nothing becomes deliverable before the wake-up time; at the
      wake-up time something does, unless all it brings is items out of attempts. */
  lemma NothingBeforeWakeUp(s: State, q: QueueKey, wake: Option<real>, later: real)
    requires IsWakeUp(s, q, wake) && Of(s.ready, q) == []
    ensures wake.None? || later < wake.value ==> !Deliverable(s, q, later)
    ensures wake.Some? && wake.value <= later ==>
              || Deliverable(s, q, later)
              || exists r :: r in s.inflight && OutOfAttempts(s.inflight[r], q, later)
  {
    if wake.Some? && wake.value <= later {
      if k :| k in s.delayed && s.delayed[k].queue == q && s.delayed[k].availableAt == wake.value {
        assert Due(s.delayed[k], q, later);
      } else {
        var r :| r in s.inflight && s.inflight[r].queue == q && s.inflight[r].visibleUntil == wake.value;
        assert Recoverable(s.inflight[r], q, later) || OutOfAttempts(s.inflight[r], q, later);
      }
    }
  }

  /** Promoting what is due, or recovering what has expired, changes nothing about what
      can be delivered. */
  lemma PromoteKeepsDeliverable(l: Limits, s: State, slot: nat, at: real, now: real, q: QueueKey)
    requires Enabled(l, s, Promote(slot, at)) && at <= now
    ensures Deliverable(Next(l, s, Promote(slot, at)), q, now) == Deliverable(s, q, now)
  {
    var s' := Next(l, s, Promote(slot, at));
    assert forall k :: k in s'.delayed <==> k in s.delayed && k != slot;
    if s.delayed[slot].queue == q {
      assert Due(s.delayed[slot], q, now);
    }
  }

  lemma RetryKeepsDeliverable(l: Limits, s: State, r: string, now: real, q: QueueKey)
    requires Enabled(l, s, Retry(r, None)) && s.inflight[r].visibleUntil <= now
    ensures Deliverable(Next(l, s, Retry(r, None)), q, now) == Deliverable(s, q, now)
  {
    var s' := Next(l, s, Retry(r, None));
    assert forall x :: x in s'.inflight <==> x in s.inflight && x != r;
    if s.inflight[r].queue == q {
      assert Recoverable(s.inflight[r], q, now);
    }
  }

  lemma BuryKeepsDeliverable(l: Limits, s: State, r: string, now: real, q: QueueKey)
    requires Enabled(l, s, Bury(r)) && s.inflight[r].item.attempt >= s.inflight[r].item.maxAttempts
    ensures Deliverable(Next(l, s, Bury(r)), q, now) == Deliverable(s, q, now)
  {
    hide Buried, Trimmed;
    var s' := Next(l, s, Bury(r));
    BuriedFrame(l, Taken(s, r), s.inflight[r].queue, s.inflight[r].item);
    assert forall x :: x in s'.inflight <==> x in s.inflight && x != r;
  }

  lemma PruneKeepsDeliverable(l: Limits, s: State, x: QueueKey, now: real, q: QueueKey)
    ensures Deliverable(Next(l, s, Prune(x)), q, now) == Deliverable(s, q, now)
  {}
}
