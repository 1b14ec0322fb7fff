/** Delays of the in-memory queue: what a delayed publish or retry means for what can be
    delivered, and that no run delivers an item before the time asked for it. */
module WorkQueueTimes {
  import opened Common
  import opened WorkQueueModel
  import opened WorkQueueSteps
  import opened WorkQueueRuns

  // ----- what becomes deliverable -----

  /** From this time on the queue has one more item to deliver; before it, and for other
      queues, nothing has changed. */
  ghost predicate OneMoreFrom(s: State, s': State, q: QueueKey, at: real) {
    forall x, t :: Deliverable(s', x, t) <==> Deliverable(s, x, t) || (x == q && at <= t)
  }

  /** The queue has an item to deliver at once. */
  ghost predicate OneMoreNow(s: State, s': State, q: QueueKey) {
    forall x, t :: Deliverable(s', x, t) <==> Deliverable(s, x, t) || x == q
  }

  ghost predicate SameDeliverable(s: State, s': State) {
    forall x, t :: Deliverable(s', x, t) <==> Deliverable(s, x, t)
  }

  /** One more entry in the heap, behind all entries of the same time. */
  ghost predicate PutAside(delayed: map<nat, Delayed>, delayed': map<nat, Delayed>, d: Delayed) {
    exists slot: nat :: BehindAll(delayed, slot) && delayed' == delayed[slot := d]
  }

  ghost predicate BehindAll(delayed: map<nat, Delayed>, slot: nat) { forall k :: k in delayed ==> k < slot }

  /** One more item at the back of one queue. */
  ghost predicate Appended(ready: map<QueueKey, seq<Item>>, ready': map<QueueKey, seq<Item>>, q: QueueKey, item: Item) {
    forall x :: Of(ready', x) == if x == q then Of(ready, x) + [item] else Of(ready, x)
  }

  /** Where an item goes: to the back of its queue, or aside until its time. */
  ghost predicate GoesTo(s: State, s': State, q: QueueKey, item: Item, at: Option<real>) {
    match at
    case None => s'.delayed == s.delayed && Appended(s.ready, s'.ready, q, item) && OneMoreNow(s, s', q)
    case Some(time) =>
      s'.ready == s.ready && PutAside(s.delayed, s'.delayed, Delayed(time, q, item)) && OneMoreFrom(s, s', q, time)
  }

  lemma AsideFromItsTime(s: State, s': State, q: QueueKey, slot: nat, d: Delayed, x: QueueKey, t: real)
    requires s'.ready == s.ready && s'.inflight == s.inflight
    requires slot !in s.delayed && s'.delayed == s.delayed[slot := d] && d.queue == q
    ensures Deliverable(s', x, t) <==> Deliverable(s, x, t) || (x == q && d.availableAt <= t)
  {
    if k :| k in s.delayed && Due(s.delayed[k], x, t) { assert Due(s'.delayed[k], x, t); }
    if x == q && d.availableAt <= t { assert Due(s'.delayed[slot], x, t); }
    if k :| k in s'.delayed && Due(s'.delayed[k], x, t) { assert k == slot || Due(s.delayed[k], x, t); }
  }

  lemma ReadyAtOnce(s: State, s': State, q: QueueKey, item: Item, x: QueueKey, t: real)
    requires s'.delayed == s.delayed && s'.inflight == s.inflight && Appended(s.ready, s'.ready, q, item)
    ensures Deliverable(s', x, t) <==> Deliverable(s, x, t) || x == q
  {
    hide Due, Recoverable;
    assert Of(s'.ready, x) == if x == q then Of(s.ready, x) + [item] else Of(s.ready, x);
  }

  /** `_enqueue` does that. */
  lemma EnqueuedGoes(s: State, q: QueueKey, item: Item, at: Option<real>)
    requires forall k :: k in s.delayed ==> k <= s.sequence
    ensures GoesTo(s, Enqueued(s, q, item, at), q, item, at)
  {
    hide Deliverable, Of;
    var s' := Enqueued(s, q, item, at);
    if at.None? {
      forall x ensures Of(s'.ready, x) == if x == q then Of(s.ready, x) + [item] else Of(s.ready, x) {
        OfPut(s.ready, q, Of(s.ready, q) + [item], x);
      }
      forall x, t ensures Deliverable(s', x, t) <==> Deliverable(s, x, t) || x == q {
        ReadyAtOnce(s, s', q, item, x, t);
      }
    } else {
      var slot, d := s.sequence + 1, Delayed(at.value, q, item);
      forall x, t ensures Deliverable(s', x, t) <==> Deliverable(s, x, t) || (x == q && at.value <= t) {
        AsideFromItsTime(s, s', q, slot, d, x, t);
      }
      assert BehindAll(s.delayed, slot);
    }
  }

  /** Announcing a publication changes only the history. */
  lemma AnnouncedGoes(s: State, q: QueueKey, id: string, o: Origin, item: Item, at: Option<real>)
    requires forall k :: k in s.delayed ==> k <= s.sequence
    ensures GoesTo(s, Enqueued(Announced(s, q, id, o), q, item, at), q, item, at)
  {
    hide Deliverable, Enqueued, Appended, PutAside;
    var m := Announced(s, q, id, o);
    EnqueuedGoes(m, q, item, at);
    forall x, t ensures Deliverable(m, x, t) <==> Deliverable(s, x, t) { SameContainers(s, m, x, t); }
  }

  lemma SameContainers(s: State, s': State, x: QueueKey, t: real)
    requires Of(s'.ready, x) == Of(s.ready, x) && s'.delayed == s.delayed && s'.inflight == s.inflight
    ensures Deliverable(s', x, t) <==> Deliverable(s, x, t)
  {}

  // ----- no delivery before its time -----

  /** A publish or a retry that asks for this item at this time. */
  predicate AsksFor(s: State, a: Action, id: string, at: real) {
    || (a.Publish? && a.identity == id && a.at == Some(at))
    || (a.Retry? && a.receipt in s.inflight && s.inflight[a.receipt].item.identity == id && a.at == Some(at))
  }

  predicate Delivers(s: State, a: Action, id: string) {
    a.Reserve? && Of(s.ready, a.queue) != [] && Of(s.ready, a.queue)[0].identity == id
  }

  predicate Promotes(s: State, a: Action, id: string, at: real) {
    a.Promote? && a.slot in s.delayed && s.delayed[a.slot].item.identity == id && at <= a.now
  }

  predicate Aside(s: State, slot: nat, id: string, at: real) {
    slot in s.delayed && s.delayed[slot].item.identity == id && s.delayed[slot].availableAt == at
  }

  lemma AskedGoesAside(l: Limits, s: State, a: Action, id: string, at: real)
    requires Enabled(l, s, a) && AsksFor(s, a, id, at)
    ensures Aside(Next(l, s, a), s.sequence + 1, id, at)
  {
    hide Known, ActiveCount;
  }

  lemma EnqueuedKeepsAside(s: State, q: QueueKey, item: Item, when: Option<real>, slot: nat, id: string, at: real)
    requires Aside(s, slot, id, at) && slot <= s.sequence
    ensures Aside(Enqueued(s, q, item, when), slot, id, at)
  {
    hide Of;
  }

  lemma SlotIsOld(l: Limits, s: State, slot: nat)
    requires Invariant(l, s) && slot in s.delayed
    ensures slot <= s.sequence
  {
    hide Located, Ordered, WithinLimits, ReadyBounded, InflightBounded, DeadBounded, Waiting, Untouched;
  }

  lemma StaysAside(l: Limits, s: State, a: Action, slot: nat, id: string, at: real)
    requires Invariant(l, s) && Enabled(l, s, a) && Aside(s, slot, id, at)
    ensures Aside(Next(l, s, a), slot, id, at) || Promotes(s, a, id, at)
  {
    hide Known, ActiveCount, Invariant, Buried, Trimmed, Untouched, Enqueued;
    SlotIsOld(l, s, slot);
    match a
    case Publish(q, i, payload, max, when) =>
      EnqueuedKeepsAside(Announced(s, q, i, Origin(q, payload, max, when.None?)), q, Item(i, payload, max, 0), when,
                         slot, id, at);
    case Promote(x, _) =>
      if x != slot {
        EnqueuedKeepsAside(s.(delayed := s.delayed - {x}), s.delayed[x].queue, s.delayed[x].item, None, slot, id, at);
      }
    case Retry(receipt, when) =>
      EnqueuedKeepsAside(Taken(s, receipt), s.inflight[receipt].queue, s.inflight[receipt].item, when, slot, id, at);
    case Bury(receipt) =>
      BuriedFrame(l, Taken(s, receipt), s.inflight[receipt].queue, s.inflight[receipt].item);
    case _ =>
  }

  lemma HeadIsReady(s: State, q: QueueKey)
    requires Located(s) && Of(s.ready, q) != []
    ensures IsAt(s.place, Of(s.ready, q)[0].identity, InReady(q))
  {
    assert Content(s, InReady(q))[0] == Of(s.ready, q)[0].identity;
    assert HoldsExactly(Content(s, InReady(q)), s.place, InReady(q));
  }

  lemma AsideIsDelayed(s: State, slot: nat, id: string, at: real)
    requires Located(s) && Aside(s, slot, id, at)
    ensures IsAt(s.place, id, InDelayed(slot))
  {
    assert Content(s, InDelayed(slot))[0] == id;
    assert HoldsExactly(Content(s, InDelayed(slot)), s.place, InDelayed(slot));
  }

  lemma AsideIsNotReady(l: Limits, s: State, a: Action, slot: nat, id: string, at: real)
    requires Invariant(l, s) && Aside(s, slot, id, at)
    ensures !Delivers(s, a, id)
  {
    hide Bounded, Ordered, WithinLimits, Located;
    AsideIsDelayed(s, slot, id, at);
    if Delivers(s, a, id) { HeadIsReady(s, a.queue); }
  }

  /** While nothing promotes it, the item stays aside. */
  lemma {:induction false} AsideTillPromoted(
    l: Limits, states: seq<State>, actions: seq<Action>, n: nat, j: nat, slot: nat, id: string, at: real)
    requires IsRun(l, states, actions) && n <= j < |states| && Aside(states[n], slot, id, at)
    requires forall m :: n <= m < j ==> !Promotes(states[m], actions[m], id, at)
    ensures Aside(states[j], slot, id, at)
    decreases j - n
  {
    hide Invariant, Enabled, Next, Aside, Promotes;
    if n < j {
      AsideTillPromoted(l, states, actions, n, j - 1, slot, id, at);
      RunKeepsInvariant(l, states, actions, j - 1);
      assert Step(l, states[j - 1], actions[j - 1], states[j - 1 + 1]);
      StaysAside(l, states[j - 1], actions[j - 1], slot, id, at);
    }
  }

  /** An item published or retried with a delay is not delivered before its time: between
      the request and the next delivery of the item, the clock was read at or after the time
      asked for. */
  lemma NeverBeforeItsTime(
    l: Limits, states: seq<State>, actions: seq<Action>, i: nat, j: nat, id: string, at: real)
    requires IsRun(l, states, actions) && i < j < |actions|
    requires AsksFor(states[i], actions[i], id, at) && Delivers(states[j], actions[j], id)
    ensures exists m :: i < m < j && Promotes(states[m], actions[m], id, at)
  {
    hide Invariant, Enabled, Next, Aside, Promotes, AsksFor, Delivers;
    assert Step(l, states[i], actions[i], states[i + 1]);
    AskedGoesAside(l, states[i], actions[i], id, at);
    if forall m :: i < m < j ==> !Promotes(states[m], actions[m], id, at) {
      var slot := states[i].sequence + 1;
      AsideTillPromoted(l, states, actions, i + 1, j, slot, id, at);
      RunKeepsInvariant(l, states, actions, j);
      AsideIsNotReady(l, states[j], actions[j], slot, id, at);
    }
  }
}
