/** The in-memory work queue. Every operation is a sequence of the model's steps, so
    the object's whole life is one of its runs. */
module MemoryQueue {
  import opened Common
  import opened WorkQueueModel
  import opened WorkQueueSteps
  import opened WorkQueueRuns
  import opened WorkQueueTimes

  datatype Delivery = Delivery(
    queue: string, identity: string, payload: Bytes, attempt: nat, visibleUntil: real, receipt: string)

  datatype PublishResult = Published | QueueFull | TooManyQueues | PublishClosed
  datatype ReserveResult = Reserved(delivery: Delivery) | NothingReady | ReserveClosed

  ghost predicate Traced(l: Limits, states: seq<State>, actions: seq<Action>, s: State) {
    IsRun(l, states, actions) && states[|states| - 1] == s
  }

  lemma TracedOneMore(l: Limits, states: seq<State>, actions: seq<Action>, s: State, a: Action)
    requires Traced(l, states, actions, s) && Enabled(l, s, a)
    ensures Traced(l, states + [Next(l, s, a)], actions + [a], Next(l, s, a))
  {
    hide Enabled, Next;
    var states' := states + [Next(l, s, a)];
    var actions' := actions + [a];
    forall i | 0 <= i < |actions'| ensures Step(l, states'[i], actions'[i], states'[i + 1]) {
      if i < |actions| { assert Step(l, states[i], actions[i], states[i + 1]); }
    }
  }

  /** More actions, whose promotions were due by a clock reading no later than `now`. */
  ghost predicate Clocked(actions: seq<Action>, actions': seq<Action>, now: real) {
    && actions <= actions'
    && forall i :: |actions| <= i < |actions'| && actions'[i].Promote? ==> actions'[i].now <= now
  }

  lemma ClockedMore(actions: seq<Action>, actions': seq<Action>, a: Action, now: real)
    requires Clocked(actions, actions', now) && (a.Promote? ==> a.now <= now)
    ensures Clocked(actions, actions' + [a], now)
  {}

  lemma ClockedTwice(a: seq<Action>, b: seq<Action>, c: seq<Action>, now: real, later: real)
    requires Clocked(a, b, now) && Clocked(b, c, later) && now <= later
    ensures Clocked(a, c, later)
  {
    assert forall i :: |a| <= i < |b| ==> c[i] == b[i];
  }

  lemma ClockedNot(actions: seq<Action>, now: real)
    ensures Clocked(actions, actions, now)
  {}

  lemma TracedInvariant(l: Limits, states: seq<State>, actions: seq<Action>, s: State)
    requires Traced(l, states, actions, s)
    ensures Invariant(l, s)
  {
    hide Invariant, Step;
    RunKeepsInvariant(l, states, actions, |states| - 1);
  }

  /** What is left of the heap at this time. */
  function Later(delayed: map<nat, Delayed>, now: real): map<nat, Delayed> {
    map k | k in delayed && delayed[k].availableAt > now :: delayed[k]
  }

  /** Nothing but the heap and the queues changed, and the queues only grew at the back. */
  ghost predicate Promoting(s: State, s': State) {
    && s'.inflight == s.inflight && s'.dead == s.dead && s'.sequence == s.sequence
    && s'.issued == s.issued && s'.origin == s.origin && s'.direct == s.direct && s'.firsts == s.firsts
    && s'.place.Keys == s.place.Keys
    && Known(s') == Known(s)
    && forall q :: Of(s.ready, q) <= Of(s'.ready, q) && ActiveCount(s', q) == ActiveCount(s, q)
  }

  /** Only entries that were due have left the heap. */
  ghost predicate LeftWhenDue(delayed: map<nat, Delayed>, rest: map<nat, Delayed>, now: real) {
    && (forall k :: k in rest ==> k in delayed && rest[k] == delayed[k])
    && (forall k :: k in delayed && k !in rest ==> delayed[k].availableAt <= now)
  }

  /** Everything due went to the back of its queue; nothing else changed. */
  ghost predicate PromotedTo(s: State, s': State, now: real) {
    Promoting(s, s') && s'.delayed == Later(s.delayed, now)
  }

  lemma PromoteIsPromoting(l: Limits, s: State, slot: nat, now: real)
    requires Enabled(l, s, Promote(slot, now)) && Invariant(l, s)
    ensures Promoting(s, Next(l, s, Promote(slot, now)))
  {
    hide Known, DelayedIn, InflightIn, Ordered, WithinLimits, ReadyBounded, InflightBounded, DeadBounded, Located;
    var d := s.delayed[slot];
    var m := s.(delayed := s.delayed - {slot});
    EnqueuedKnown(m, d.queue, d.item, None);
    WithoutSlotKnown(s, slot);
    HeldAreNotTerminal(s);
    forall q ensures ActiveCount(Next(l, s, Promote(slot, now)), q) == ActiveCount(s, q) {
      EnqueuedCounts(m, d.queue, d.item, None, q);
      FewerDelayed(s.delayed, slot, q);
    }
  }

  lemma WithoutSlotKnown(s: State, slot: nat)
    requires slot in s.delayed
    ensures Known(s.(delayed := s.delayed - {slot})) + {s.delayed[slot].queue} == Known(s)
  {
    var m := s.(delayed := s.delayed - {slot});
    forall q ensures q in Known(m) + {s.delayed[slot].queue} <==> q in Known(s) {
      if k :| k in s.delayed && s.delayed[k].queue == q { assert k == slot || k in m.delayed; }
    }
  }

  lemma PromotingTransitive(a: State, b: State, c: State)
    requires Promoting(a, b) && Promoting(b, c)
    ensures Promoting(a, c)
  {
    hide Known, ActiveCount, Of;
    forall q ensures Of(a.ready, q) <= Of(c.ready, q) && ActiveCount(c, q) == ActiveCount(a, q) {
      assert Of(a.ready, q) <= Of(b.ready, q) <= Of(c.ready, q);
      assert ActiveCount(c, q) == ActiveCount(b, q);
    }
  }

  lemma OneLeft(delayed: map<nat, Delayed>, rest: map<nat, Delayed>, slot: nat, now: real)
    requires LeftWhenDue(delayed, rest, now) && slot in rest && rest[slot].availableAt <= now
    ensures LeftWhenDue(delayed, rest - {slot}, now) && |rest - {slot}| < |rest|
  {
    assert (rest - {slot}).Keys == rest.Keys - {slot};
  }

  lemma AllLeft(delayed: map<nat, Delayed>, rest: map<nat, Delayed>, now: real)
    requires LeftWhenDue(delayed, rest, now) && forall k :: k in rest ==> rest[k].availableAt > now
    ensures rest == Later(delayed, now)
  {}

  /** The same can be delivered from then on. */
  ghost predicate SameLater(s: State, s': State, now: real) {
    forall q, t :: now <= t ==> Deliverable(s', q, t) == Deliverable(s, q, t)
  }

  // ----- the order of the reservations -----

  /** The order in which these receipts were handed out. */
  ghost predicate Lists(arrival: seq<string>, receipts: set<string>) {
    && NoRepeats(arrival) && forall r :: r in arrival <==> r in receipts
  }

  function Kept(arrival: seq<string>, gone: set<string>): seq<string> {
    if arrival == [] then []
    else Kept(arrival[..|arrival| - 1], gone) +
         (if arrival[|arrival| - 1] in gone then [] else [arrival[|arrival| - 1]])
  }

  lemma {:induction false} KeptLists(arrival: seq<string>, gone: set<string>, receipts: set<string>)
    requires Lists(arrival, receipts)
    ensures Lists(Kept(arrival, gone), receipts - gone)
  {
    if arrival != [] {
      var front, last := arrival[..|arrival| - 1], arrival[|arrival| - 1];
      assert arrival == front + [last];
      assert forall r :: r in front <==> r in receipts - {last};
      KeptLists(front, gone, receipts - {last});
      var kept := Kept(front, gone);
      assert last in arrival;
      assert forall r :: r in kept <==> r in receipts - {last} - gone;
      if last !in gone {
        assert last !in kept;
        forall i, j | 0 <= i < j < |kept + [last]| ensures (kept + [last])[i] != (kept + [last])[j] {
          assert kept[i] in kept;
        }
        assert forall r :: r in kept + [last] <==> r in receipts - gone;
      } else {
        assert Kept(arrival, gone) == kept;
        assert receipts - {last} - gone == receipts - gone;
      }
    }
  }

  lemma {:induction false} KeptTwice(arrival: seq<string>, gone: set<string>, more: set<string>)
    ensures Kept(Kept(arrival, gone), more) == Kept(arrival, gone + more)
  {
    if arrival != [] {
      var front, last := arrival[..|arrival| - 1], arrival[|arrival| - 1];
      KeptTwice(front, gone, more);
      var kept := Kept(front, gone);
      if last !in gone { assert (kept + [last])[..|kept|] == kept; } else { assert kept + [] == kept; }
    }
  }

  lemma {:induction false} KeptAll(arrival: seq<string>)
    ensures Kept(arrival, {}) == arrival
  {
    if arrival != [] {
      KeptAll(arrival[..|arrival| - 1]);
      assert arrival == arrival[..|arrival| - 1] + [arrival[|arrival| - 1]];
    }
  }

  /** The expired reservations, the oldest first. */
  function ExpiredIn(arrival: seq<string>, inflight: map<string, Reservation>, now: real): seq<string> {
    Kept(arrival, Unexpired(inflight, now).Keys)
  }

  function Elements(receipts: seq<string>): set<string> { set r | r in receipts }

  /** What one reservation gives back to a queue when it expires. */
  function Back(v: Reservation, q: QueueKey): seq<Item> {
    if v.queue == q && v.item.attempt < v.item.maxAttempts then [v.item] else []
  }

  /** What it adds to the queue's dead letters. */
  function Spent(v: Reservation, q: QueueKey): seq<Item> {
    if v.queue == q && v.item.attempt >= v.item.maxAttempts then [v.item] else []
  }

  function AllBack(inflight: map<string, Reservation>, receipts: seq<string>, q: QueueKey): seq<Item> {
    if receipts == [] then []
    else AllBack(inflight, receipts[..|receipts| - 1], q) +
         (var r := receipts[|receipts| - 1]; if r in inflight then Back(inflight[r], q) else [])
  }

  function AllSpent(inflight: map<string, Reservation>, receipts: seq<string>, q: QueueKey): seq<Item> {
    if receipts == [] then []
    else AllSpent(inflight, receipts[..|receipts| - 1], q) +
         (var r := receipts[|receipts| - 1]; if r in inflight then Spent(inflight[r], q) else [])
  }

  /** The newest of them, as many as are kept. */
  function Newest(items: seq<Item>, limit: nat): seq<Item> {
    if |items| <= limit then items else items[|items| - limit..]
  }

  lemma NewestAgain(a: seq<Item>, b: seq<Item>, limit: nat)
    ensures Newest(Newest(a, limit) + b, limit) == Newest(a + b, limit)
  {
    if |a| > limit {
      var cut := a[|a| - limit..];
      assert |cut + b| <= limit ==> b == [];
      assert a + b == a[..|a| - limit] + (cut + b);
    }
  }

  /** The queues after some expired reservations were given back in this order. */
  ghost predicate GivenBack(s: State, s': State, receipts: seq<string>, limit: nat) {
    forall q ::
      && Of(s'.ready, q) == Of(s.ready, q) + AllBack(s.inflight, receipts, q)
      && Of(s'.dead, q) == Newest(Of(s.dead, q) + AllSpent(s.inflight, receipts, q), limit)
  }

  ghost predicate OneBack(s: State, s': State, v: Reservation, limit: nat) {
    forall q ::
      && Of(s'.ready, q) == Of(s.ready, q) + Back(v, q)
      && Of(s'.dead, q) == Newest(Of(s.dead, q) + Spent(v, q), limit)
  }

  lemma GivenBackOneMore(a: State, b: State, c: State, receipts: seq<string>, r: string, limit: nat)
    requires GivenBack(a, b, receipts, limit) && r in a.inflight && OneBack(b, c, a.inflight[r], limit)
    ensures GivenBack(a, c, receipts + [r], limit)
  {
    hide Of, Newest, Back, Spent;
    var more := receipts + [r];
    assert more[..|receipts|] == receipts;
    var v := a.inflight[r];
    forall q ensures && Of(c.ready, q) == Of(a.ready, q) + AllBack(a.inflight, more, q)
                     && Of(c.dead, q) == Newest(Of(a.dead, q) + AllSpent(a.inflight, more, q), limit) {
      assert Of(b.ready, q) == Of(a.ready, q) + AllBack(a.inflight, receipts, q);
      ItemsJoin(Of(a.ready, q), AllBack(a.inflight, receipts, q), Back(v, q));
      NewestAgain(Of(a.dead, q) + AllSpent(a.inflight, receipts, q), Spent(v, q), limit);
      ItemsJoin(Of(a.dead, q), AllSpent(a.inflight, receipts, q), Spent(v, q));
    }
  }

  lemma ItemsJoin(a: seq<Item>, b: seq<Item>, c: seq<Item>)
    ensures a + (b + c) == (a + b) + c
  {}

  lemma NothingGivenBack(l: Limits, s: State)
    requires Invariant(l, s)
    ensures GivenBack(s, s, [], l.deadLetters)
  {
    hide Located, Bounded, Ordered, Known, ActiveCount;
  }

  lemma RetriedIsOneBack(s: State, receipt: string, limit: nat)
    requires receipt in s.inflight && s.inflight[receipt].item.attempt < s.inflight[receipt].item.maxAttempts
    requires forall q :: |Of(s.dead, q)| <= limit
    ensures var held := s.inflight[receipt];
            OneBack(s, Enqueued(Taken(s, receipt), held.queue, held.item, None), held, limit)
  {
    hide Of;
    var held := s.inflight[receipt];
    forall q ensures Of(s.ready[held.queue := Of(s.ready, held.queue) + [held.item]], q) ==
        Of(s.ready, q) + Back(held, q) {
      OfPut(s.ready, held.queue, Of(s.ready, held.queue) + [held.item], q);
      assert Of(s.ready, q) + [] == Of(s.ready, q);
    }
    forall q ensures Newest(Of(s.dead, q) + Spent(held, q), limit) == Of(s.dead, q) {
      assert Of(s.dead, q) + [] == Of(s.dead, q);
    }
  }

  lemma AllKept(items: seq<Item>, limit: nat)
    requires |items| <= limit
    ensures Newest(items + [], limit) == items
  {
    assert items + [] == items;
  }

  lemma TrimmedLetters(l: Limits, s: State, x: QueueKey, item: Item, q: QueueKey)
    requires |Of(s.dead, x)| <= l.deadLetters
    ensures var s' := Trimmed(l, Buried(s, x, item), x);
            && s'.ready == s.ready
            && Of(s'.dead, q) == if q == x then Newest(Of(s.dead, q) + [item], l.deadLetters) else Of(s.dead, q)
  {
    hide Of;
    var letters := Of(s.dead, x) + [item];
    var b := s.dead[x := letters];
    OfPut(s.dead, x, letters, x);
    OfPut(s.dead, x, letters, q);
    OfPut(b, x, letters[1..], q);
  }

  lemma BuriedIsOneBack(l: Limits, s: State, receipt: string)
    requires receipt in s.inflight && s.inflight[receipt].item.attempt >= s.inflight[receipt].item.maxAttempts
    requires forall q :: |Of(s.dead, q)| <= l.deadLetters
    ensures var held := s.inflight[receipt];
            OneBack(s, Trimmed(l, Buried(Taken(s, receipt), held.queue, held.item), held.queue), held, l.deadLetters)
  {
    hide Of, Newest, Buried, Trimmed;
    var held := s.inflight[receipt];
    var s' := Trimmed(l, Buried(Taken(s, receipt), held.queue, held.item), held.queue);
    forall q ensures Of(s'.ready, q) == Of(s.ready, q) + Back(held, q)
                     && Of(s'.dead, q) == Newest(Of(s.dead, q) + Spent(held, q), l.deadLetters) {
      TrimmedLetters(l, Taken(s, receipt), held.queue, held.item, q);
      AllKept(Of(s.dead, q), l.deadLetters);
      assert Of(s.ready, q) + [] == Of(s.ready, q);
    }
  }

  /** Settling one reservation puts its item at the back of its queue or of its dead
      letters. */
  lemma SettledIsOneBack(l: Limits, s: State, receipt: string)
    requires Invariant(l, s) && receipt in s.inflight && Enabled(l, s, SettleAction(s, receipt, None))
    ensures OneBack(s, Next(l, s, SettleAction(s, receipt, None)), s.inflight[receipt], l.deadLetters)
  {
    hide Located, Bounded, Ordered, Known, ActiveCount, OneBack, Enqueued, Trimmed, Buried, Taken, Of, Next, Enabled;
    SettleStep(l, s, receipt, None);
    var held := s.inflight[receipt];
    if held.item.attempt < held.item.maxAttempts {
      RetriedIsOneBack(s, receipt, l.deadLetters);
    } else {
      BuriedIsOneBack(l, s, receipt);
    }
  }

  lemma ExpiredListed(arrival: seq<string>, inflight: map<string, Reservation>, now: real)
    requires Lists(arrival, inflight.Keys)
    ensures Lists(ExpiredIn(arrival, inflight, now), inflight.Keys - Unexpired(inflight, now).Keys)
  {
    hide Lists, Kept, Unexpired;
    KeptLists(arrival, Unexpired(inflight, now).Keys, inflight.Keys);
  }

  lemma NoneGone(inflight: map<string, Reservation>, arrival: seq<string>)
    ensures inflight == inflight - Elements([]) && arrival == Kept(arrival, Elements([]))
  {
    KeptAll(arrival);
    assert Elements([]) == {};
  }

  /** The next expired reservation is still there; taking it out moves both on. */
  lemma OneMoreGone(inflight: map<string, Reservation>, arrival: seq<string>, expired: seq<string>, i: nat, now: real)
    requires i < |expired| && Lists(expired, inflight.Keys - Unexpired(inflight, now).Keys)
    ensures expired[i] in inflight && inflight[expired[i]].visibleUntil <= now
    ensures expired[i] !in Elements(expired[..i])
    ensures inflight - Elements(expired[..i]) - {expired[i]} == inflight - Elements(expired[..i + 1])
    ensures Kept(Kept(arrival, Elements(expired[..i])), {expired[i]}) == Kept(arrival, Elements(expired[..i + 1]))
  {
    hide Kept;
    assert expired[i] in expired;
    assert Elements(expired[..i + 1]) == Elements(expired[..i]) + {expired[i]};
    KeptTwice(arrival, Elements(expired[..i]), {expired[i]});
  }

  lemma AllGone(inflight: map<string, Reservation>, expired: seq<string>, now: real)
    requires Lists(expired, inflight.Keys - Unexpired(inflight, now).Keys)
    ensures inflight - Elements(expired) == Unexpired(inflight, now)
  {}

  lemma NewcomerLast(l: Limits, s: State, arrival: seq<string>, receipt: string)
    requires Invariant(l, s) && Lists(arrival, s.inflight.Keys) && receipt !in s.issued
    ensures receipt !in s.inflight && Lists(arrival + [receipt], s.inflight.Keys + {receipt})
  {
    hide Located, Ordered, WithinLimits, ReadyBounded, DelayedBounded, InflightBounded, DeadBounded;
  }

  predicate Matches(v: Reservation, d: Delivery) {
    v.item.identity == d.identity && v.queue.1 == d.queue && v.item.attempt == d.attempt
  }

  class InMemoryWorkQueue {
    const limits: Limits
    var ready: map<QueueKey, seq<Item>>
    var delayed: map<nat, Delayed>
    var inflight: map<string, Reservation>
    var arrival: seq<string>                // the receipts of `inflight` in the order they were added
    var dead: map<QueueKey, seq<Item>>
    var sequence: nat
    var closed: bool
    ghost var model: State
    ghost var states: seq<State>
    ghost var actions: seq<Action>

    /** The containers are those of this model state. */
    ghost predicate Synced(s: State)
      reads this
    {
      && ready == s.ready && delayed == s.delayed && inflight == s.inflight && dead == s.dead && sequence == s.sequence
      && Lists(arrival, s.inflight.Keys)
    }

    /** The object is in step with the last state of a run of the model. */
    ghost predicate Valid()
      reads this
    {
      Synced(model) && Traced(limits, states, actions, model)
    }

    constructor (limits: Limits)
      requires 0 < limits.items && 0 < limits.deadLetters && 0 < limits.queues
      ensures Valid() && model == Initial() && actions == [] && !closed && this.limits == limits
    {
      this.limits := limits;
      ready, delayed, inflight, arrival, dead, sequence, closed := map[], map[], map[], [], map[], 0, false;
      model, states, actions := Initial(), [Initial()], [];
    }

    ghost method Record(a: Action)
      requires Traced(limits, states, actions, model) && Enabled(limits, model, a)
      requires Synced(Next(limits, model, a))
      modifies this`model, this`states, this`actions
      ensures Valid() && actions == old(actions) + [a] && model == Next(limits, old(model), a)
    {
      hide Traced, Enabled, Next;
      TracedOneMore(limits, states, actions, model, a);
      model := Next(limits, model, a);
      states, actions := states + [model], actions + [a];
    }

    method Enqueue(ghost s: State, q: QueueKey, item: Item, at: Option<real>)
      requires Synced(s)
      modifies this`ready, this`delayed, this`sequence
      ensures Synced(Enqueued(s, q, item, at))
    {
      if at.None? {
        ready := ready[q := Of(ready, q) + [item]];
      } else {
        sequence := sequence + 1;
        delayed := delayed[sequence := Delayed(at.value, q, item)];
      }
    }

    method AppendDeadLetter(ghost s: State, q: QueueKey, item: Item)
      requires Synced(s) && |Of(dead, q)| <= limits.deadLetters
      modifies this`dead
      ensures Synced(Trimmed(limits, Buried(s, q, item), q))
    {
      dead := dead[q := Of(dead, q) + [item]];
      ghost var b := Buried(s, q, item);
      while |dead[q]| > limits.deadLetters
        invariant q in dead && (Synced(b) || (Synced(Trimmed(limits, b, q)) && |dead[q]| <= limits.deadLetters))
        invariant |Of(b.dead, q)| > limits.deadLetters || Synced(b)
        decreases |dead[q]|
      {
        dead := dead[q := dead[q][1..]];
      }
    }

    method RetryOrDeadLetter(ghost s: State, q: QueueKey, item: Item, at: Option<real>)
      requires Synced(s) && |Of(dead, q)| <= limits.deadLetters
      modifies this`ready, this`delayed, this`sequence, this`dead
      ensures Synced(if item.attempt >= item.maxAttempts then Trimmed(limits, Buried(s, q, item), q)
                     else Enqueued(s, q, item, at))
    {
      hide Trimmed, Buried, Enqueued;
      if item.attempt >= item.maxAttempts {
        AppendDeadLetter(s, q, item);
      } else {
        Enqueue(s, q, item, at);
      }
    }

    /** A reservation is taken out of the dictionary. */
    method Pop(receipt: string)
      requires Lists(arrival, inflight.Keys)
      modifies this`inflight, this`arrival
      ensures inflight == old(inflight) - {receipt} && arrival == Kept(old(arrival), {receipt})
      ensures Lists(arrival, inflight.Keys)
    {
      hide Lists, Kept;
      KeptLists(arrival, {receipt}, inflight.Keys);
      inflight := inflight - {receipt};
      assert inflight.Keys == old(inflight).Keys - {receipt};
      arrival := Kept(arrival, {receipt});
    }

    method PruneQueue(q: QueueKey)
      requires Valid()
      modifies this`ready, this`dead, this`model, this`states, this`actions
      ensures Valid() && model == Next(limits, old(model), Prune(q)) && actions == old(actions) + [Prune(q)]
    {
      hide Traced;
      if q in ready && ready[q] == [] { ready := ready - {q}; }
      if q in dead && dead[q] == [] { dead := dead - {q}; }
      Record(Prune(q));
    }

    /** The top of the heap. */
    method Top() returns (slot: nat)
      requires delayed != map[]
      ensures Least(delayed, slot)
    {
      slot :| slot in delayed;
      var rest := delayed.Keys - {slot};
      while rest != {}
        invariant slot in delayed && rest <= delayed.Keys
        invariant forall k :: k in delayed && k !in rest ==> AtOrAfter(delayed[slot], slot, delayed[k], k)
        decreases |rest|
      {
        var k :| k in rest;
        if delayed[k].availableAt < delayed[slot].availableAt
           || (delayed[k].availableAt == delayed[slot].availableAt && k < slot) {
          slot := k;
        }
        rest := rest - {k};
      }
      assert forall k :: k in delayed ==> AtOrAfter(delayed[slot], slot, delayed[k], k);
    }

    method PromoteTop(slot: nat, now: real)
      requires Valid() && Least(delayed, slot) && delayed[slot].availableAt <= now
      modifies this`ready, this`delayed, this`sequence, this`model, this`states, this`actions
      ensures Valid() && actions == old(actions) + [Promote(slot, now)]
      ensures Promoting(old(model), model) && delayed == old(delayed) - {slot}
      ensures SameLater(old(model), model, now)
    {
      hide Traced, Promoting, Deliverable, Invariant;
      ghost var before := model;
      assert Enabled(limits, before, Promote(slot, now));
      TracedInvariant(limits, states, actions, before);
      PromoteIsPromoting(limits, before, slot, now);
      forall q, t | now <= t ensures Deliverable(Next(limits, before, Promote(slot, now)), q, t) ==
          Deliverable(before, q, t) {
        PromoteKeepsDeliverable(limits, before, slot, now, t, q);
      }
      var d := delayed[slot];
      delayed := delayed - {slot};
      Enqueue(before.(delayed := delayed), d.queue, d.item, None);
      Record(Promote(slot, now));
    }

    method PromoteDelayed(now: real)
      requires Valid()
      modifies this`ready, this`delayed, this`sequence, this`model, this`states, this`actions
      ensures Valid() && old(actions) <= actions
      ensures forall i :: |old(actions)| <= i < |actions| ==> actions[i].Promote? && actions[i].now == now
      ensures PromotedTo(old(model), model, now) && Clocked(old(actions), actions, now)
      ensures SameLater(old(model), model, now)
    {
      hide Traced, Promoting, Deliverable, LeftWhenDue, Later;
      PromotingNothing(model, now);
      var more := true;
      while delayed != map[] && more
        invariant Valid() && old(actions) <= actions
        invariant forall i :: |old(actions)| <= i < |actions| ==> actions[i].Promote? && actions[i].now == now
        invariant Promoting(old(model), model) && LeftWhenDue(old(delayed), delayed, now)
        invariant SameLater(old(model), model, now)
        invariant more || forall k :: k in delayed ==> delayed[k].availableAt > now
        decreases |delayed|, more
      {
        var slot := Top();
        if delayed[slot].availableAt <= now {
          ghost var before := model;
          OneLeft(old(delayed), delayed, slot, now);
          PromoteTop(slot, now);
          PromotingTransitive(old(model), before, model);
        } else {
          more := false;
        }
      }
      AllLeft(old(delayed), delayed, now);
    }

    method RecoverOne(receipt: string, now: real)
      requires Valid() && receipt in inflight && inflight[receipt].visibleUntil <= now
      modifies this`ready, this`delayed, this`sequence, this`dead, this`inflight, this`arrival,
               this`model, this`states, this`actions
      ensures Valid() && Clocked(old(actions), actions, now)
      ensures inflight == old(inflight) - {receipt} && delayed == old(delayed) &&
                arrival == Kept(old(arrival), {receipt})
      ensures Recovering(old(model), model) && OneBack(old(model), model, old(inflight)[receipt], limits.deadLetters)
      ensures SameLater(old(model), model, now)
    {
      hide Traced, Deliverable, Invariant, Buried, Trimmed, Enqueued, Next, Enabled, Of, Lists, Kept, Newest, Clocked;
      ghost var before := model;
      TracedInvariant(limits, states, actions, before);
      var held := inflight[receipt];
      DeadWithinLimit(limits, before, held.queue);
      ghost var a := SettleAction(before, receipt, None);
      SettleStep(limits, before, receipt, None);
      RecoverStep(limits, before, a, now);
      SettledIsOneBack(limits, before, receipt);
      Pop(receipt);
      RetryOrDeadLetter(Taken(before, receipt), held.queue, held.item, None);
      ClockedNot(actions, now);
      ClockedMore(actions, actions, a, now);
      Record(a);
      ClockedMore(old(actions), actions, Prune(held.queue), now);
      ghost var mid := model;
      PruneIsEnabled(limits, held.queue);
      PruneStep(limits, mid, held.queue, now);
      PruneQueue(held.queue);
    }

    /** Everything whose visibility has run out goes back in the order it was reserved:
        to the end of its queue, or of the dead letters once its attempts are used up. */
    method RecoverExpired(now: real)
      requires Valid()
      modifies this`ready, this`delayed, this`sequence, this`dead, this`inflight, this`arrival,
               this`model, this`states, this`actions
      ensures Valid() && Clocked(old(actions), actions, now)
      ensures inflight == Unexpired(old(inflight), now) && delayed == old(delayed)
      ensures var expired := ExpiredIn(old(arrival), old(inflight), now);
              && arrival == Kept(old(arrival), Elements(expired))
              && GivenBack(old(model), model, expired, limits.deadLetters)
      ensures Recovering(old(model), model) && SameLater(old(model), model, now)
    {
      hide Traced, Deliverable, Invariant, Lists, Kept, Elements, GivenBack, OneBack, Unexpired, ExpiredIn, Clocked;
      var expired := ExpiredIn(arrival, inflight, now);
      TracedInvariant(limits, states, actions, model);
      ExpiredListed(arrival, inflight, now);
      NothingGivenBack(limits, model);
      NoneGone(inflight, arrival);
      ClockedNot(actions, now);
      var i := 0;
      while i < |expired|
        invariant 0 <= i <= |expired| && Valid() && Clocked(old(actions), actions, now)
        invariant inflight == old(inflight) - Elements(expired[..i]) && delayed == old(delayed)
        invariant arrival == Kept(old(arrival), Elements(expired[..i]))
        invariant GivenBack(old(model), model, expired[..i], limits.deadLetters)
        invariant Recovering(old(model), model) && SameLater(old(model), model, now)
      {
        ghost var before, log := model, actions;
        OneMoreGone(old(inflight), old(arrival), expired, i, now);
        RecoverOne(expired[i], now);
        ClockedTwice(old(actions), log, actions, now, now);
        assert expired[..i + 1] == expired[..i] + [expired[i]];
        GivenBackOneMore(old(model), before, model, expired[..i], expired[i], limits.deadLetters);
        i := i + 1;
      }
      assert expired[..i] == expired;
      AllGone(old(inflight), expired, now);
    }

    method HandOut(q: QueueKey, receipt: string, until: real) returns (d: Delivery)
      requires Valid() && Of(ready, q) != [] && receipt !in model.issued
      modifies this
      ensures Valid() && closed == old(closed)
      ensures actions == old(actions) + [Action.Reserve(q, receipt, until)] + [Prune(q)]
      ensures Handed(limits, old(model), q, receipt, until, model, d) && arrival == old(arrival) + [receipt]
    {
      hide Traced, Untouched, Next, Enabled, Invariant, Lists, HandedOver;
      ghost var before := model;
      TracedInvariant(limits, states, actions, before);
      ReserveStep(limits, before, q, receipt, until);
      PruneIsEnabled(limits, q);
      HandsOver(limits, before, q, receipt, until);
      var item := ready[q][0];
      item := item.(attempt := item.attempt + 1);
      ready := ready[q := ready[q][1..]];
      NewcomerLast(limits, before, arrival, receipt);
      inflight := inflight[receipt := Reservation(q, item, until)];
      arrival := arrival + [receipt];
      assert inflight.Keys == old(inflight).Keys + {receipt};
      Record(Action.Reserve(q, receipt, until));
      d := Delivery(q.1, item.identity, item.payload, item.attempt, until, receipt);
      PruneQueue(q);
    }

    /** One pass of the reserving loop: nothing is delivered exactly when nothing could be. */
    method TryReserve(q: QueueKey, receipt: string, now: real, timeout: real)
      returns (r: ReserveResult, ghost settled: State)
      requires Valid() && receipt !in model.issued && 0.0 < timeout
      modifies this
      ensures Valid() && Clocked(old(actions), actions, now) && closed == old(closed)
      ensures old(closed) ==> r == ReserveClosed && model == old(model)
      ensures !old(closed) ==> r.Reserved? == Deliverable(old(model), q, now) && r.Reserved? == !r.NothingReady?
      ensures r.Reserved? ==> Handed(limits, settled, q, receipt, now + timeout, model, r.delivery)
      ensures r.NothingReady? ==> Of(ready, q) == [] && model == settled && receipt !in model.issued
      ensures !old(closed) ==> Settled(old(delayed), old(inflight), settled, now) && SameLater(old(model), settled, now)
    {
      hide Traced, Deliverable, Promoting, Later, Unexpired, Known, ActiveCount, Handed, Next, Enabled, GivenBack,
           Lists, Clocked;
      settled := model;
      ClockedNot(actions, now);
      if closed { return ReserveClosed, settled; }
      PromoteDelayed(now);
      PromotingKeepsIssued(old(model), model);
      ghost var log := actions;
      RecoverExpired(now);
      ClockedTwice(old(actions), log, actions, now, now);
      settled := model;
      NothingLeft(settled, old(delayed), old(inflight), q, now);
      if Of(ready, q) == [] { return NothingReady, settled; }
      ClockedMore(old(actions), actions, Action.Reserve(q, receipt, now + timeout), now);
      ClockedMore(old(actions), actions + [Action.Reserve(q, receipt, now + timeout)], Prune(q), now);
      var delivery := HandOut(q, receipt, now + timeout);
      r := Reserved(delivery);
    }

    /** The whole reserving loop on a queue nobody else uses meanwhile: it sleeps from
        wake-up to wake-up and hands out an item at the first moment one is deliverable.
        It comes back empty exactly when there is no such moment before the wait is over. */
    method Reserve(q: QueueKey, receipt: string, start: real, timeout: real, wait: real)
      returns (r: ReserveResult, at: real, ghost settled: State)
      requires Valid() && receipt !in model.issued && 0.0 < timeout && 0.0 <= wait
      modifies this
      ensures Valid() && Clocked(old(actions), actions, at) && closed == old(closed)
      ensures old(closed) ==> r == ReserveClosed && model == old(model)
      ensures !old(closed) ==>
                (r.Reserved? <==> exists t :: InWait(start, wait, t) && Deliverable(old(model), q, t))
      ensures r.Reserved? ==>
                && InWait(start, wait, at) && FirstMoment(old(model), q, start, at)
                && Handed(limits, settled, q, receipt, at + timeout, model, r.delivery)
                && Settled(old(delayed), old(inflight), settled, at)
    {
      hide Traced, Deliverable, Settled, SameLater, Handed, Lists, IsWakeUp, Clocked, FirstMoment, NothingTill;
      at := start;
      var deadline := start + wait;
      r, settled := TryReserve(q, receipt, at, timeout);
      FirstLook(old(model), q, start);
      while r.NothingReady? && at < deadline
        invariant Valid() && Clocked(old(actions), actions, at) && closed == old(closed) && start <= at
        invariant at == start || at < deadline
        invariant old(closed) ==> r == ReserveClosed && model == old(model)
        invariant !old(closed) ==> r.NothingReady? || r.Reserved?
        invariant r.NothingReady? ==>
          && Of(ready, q) == [] && model == settled && receipt !in model.issued && SameLater(old(model), model, at)
          && NothingTill(old(model), q, start, at)
          && Settled(old(delayed), old(inflight), model, at)
        invariant r.Reserved? ==>
          && FirstMoment(old(model), q, start, at)
          && Handed(limits, settled, q, receipt, at + timeout, model, r.delivery)
          && Settled(old(delayed), old(inflight), settled, at)
        decreases r.NothingReady?, |delayed| + |inflight|
      {
        var wake := NextWakeUp(q);
        StillNothing(old(model), model, q, wake, start, at);
        if wake.None? || deadline <= wake.value { return; }
        ghost var before, earlier, log := model, at, actions;
        WakeUpAhead(old(delayed), old(inflight), before, q, wake.value, at);
        at := wake.value;
        r, settled := TryReserve(q, receipt, at, timeout);
        ClockedTwice(old(actions), log, actions, earlier, at);
        NextMoment(old(model), q, start, at);
        SettledTwice(old(delayed), old(inflight), before, earlier, settled, at);
        SameLaterTwice(old(model), before, settled, earlier, at);
        FewerLeft(before, settled, q, at);
      }
      if r.Reserved? {
        ReservedInWait(old(model), q, start, wait, at);
      } else if r.NothingReady? {
        NothingInWait(old(model), q, start, wait, at);
      }
    }

    method Publish(q: QueueKey, identity: string, payload: Bytes, maxAttempts: nat, delay: real, now: real)
      returns (r: PublishResult, ghost settled: State)
      requires Valid() && identity !in model.place && 0 < maxAttempts && 0.0 <= delay
      modifies this
      ensures Valid() && Clocked(old(actions), actions, now) && closed == old(closed)
      ensures r == if old(closed) then PublishClosed
                   else if q !in Known(old(model)) && |Known(old(model))| >= limits.queues then TooManyQueues
                   else if ActiveCount(old(model), q) >= limits.items then QueueFull
                   else Published
      ensures r != PublishClosed ==> PromotedTo(old(model), settled, now)
      ensures var at := if delay == 0.0 then None else Some(now + delay);
              if r == Published
              then && Enabled(limits, settled, Action.Publish(q, identity, payload, maxAttempts, at))
                   && model == Next(limits, settled, Action.Publish(q, identity, payload, maxAttempts, at))
              else model == settled && (r == PublishClosed ==> settled == old(model))
      ensures r == Published ==>
                GoesTo(settled, model, q, Item(identity, payload, maxAttempts, 0),
                       if delay == 0.0 then None else Some(now + delay))
    {
      hide Traced, Deliverable, Later, Known, ActiveCount, Enqueued, Next, Enabled, Promoting, GoesTo, Invariant,
           Clocked;
      settled := model;
      ClockedNot(actions, now);
      if closed { return PublishClosed, settled; }
      PromoteDelayed(now);
      settled := model;
      PromotingKeepsCounts(old(model), settled, q);
      var known := KnownQueues();
      if q !in known && |known| >= limits.queues { return TooManyQueues, settled; }
      var active := Active(q);
      if active >= limits.items { return QueueFull, settled; }
      var at := if delay == 0.0 then None else Some(now + delay);
      ghost var announced := Announced(settled, q, identity, Origin(q, payload, maxAttempts, at.None?));
      PublishStep(limits, settled, q, identity, payload, maxAttempts, at);
      TracedInvariant(limits, states, actions, settled);
      SlotsBounded(limits, settled);
      AnnouncedGoes(settled, q, identity, Origin(q, payload, maxAttempts, at.None?),
                    Item(identity, payload, maxAttempts, 0), at);
      Enqueue(announced, q, Item(identity, payload, maxAttempts, 0), at);
      ClockedMore(old(actions), actions, Action.Publish(q, identity, payload, maxAttempts, at), now);
      Record(Action.Publish(q, identity, payload, maxAttempts, at));
      r := Published;
    }

    method KnownQueues() returns (known: set<QueueKey>)
      requires Synced(model)
      ensures known == Known(model)
    {
      known := (set q | q in ready && ready[q] != []) + (set q | q in dead && dead[q] != [])
      + (set k | k in delayed :: delayed[k].queue) + (set r | r in inflight :: inflight[r].queue);
    }

    method Active(q: QueueKey) returns (count: nat)
      requires Synced(model)
      ensures count == ActiveCount(model, q)
    {
      count := |Of(ready, q)| + |DelayedIn(delayed, q)| + |InflightIn(inflight, q)|;
    }

    /** `_required_reservation`: a stale delivery finds nothing. */
    method Required(d: Delivery) returns (found: bool)
      ensures found == (d.receipt in inflight && Matches(inflight[d.receipt], d))
    {
      found := d.receipt in inflight && Matches(inflight[d.receipt], d);
    }

    method Acknowledge(d: Delivery, now: real) returns (ok: bool, ghost settled: State)
      requires Valid()
      modifies this
      ensures Valid() && Clocked(old(actions), actions, now) && closed == old(closed)
      ensures PromotedTo(old(model), settled, now)
      ensures ok == (d.receipt in old(inflight) && Matches(old(inflight)[d.receipt], d))
      ensures ok ==> Done(limits, settled, Action.Acknowledge(d.receipt), model)
      ensures ok ==>
                && inflight == settled.inflight - {d.receipt} && delayed == settled.delayed
                && forall q :: Of(ready, q) == Of(settled.ready, q) && Of(dead, q) == Of(settled.dead, q)
      ensures !ok ==> model == settled
    {
      hide Traced, Deliverable, Later, Known, ActiveCount, Clocked, Next, Enabled, Promoting, Lists;
      PromoteDelayed(now);
      settled := model;
      ok := Required(d);
      if ok {
        var held := inflight[d.receipt];
        AcknowledgeStep(limits, settled, d.receipt);
        Pop(d.receipt);
        ClockedMore(old(actions), actions, Action.Acknowledge(d.receipt), now);
        Record(Action.Acknowledge(d.receipt));
        ClockedMore(old(actions), actions, Prune(held.queue), now);
        PruneQueue(held.queue);
      }
    }

    method Renew(d: Delivery, now: real, timeout: real) returns (renewed: Option<Delivery>, ghost settled: State)
      requires Valid() && 0.0 < timeout
      modifies this
      ensures Valid() && Clocked(old(actions), actions, now) && closed == old(closed)
      ensures PromotedTo(old(model), settled, now)
      ensures renewed.Some? == (d.receipt in old(inflight) && Matches(old(inflight)[d.receipt], d))
      ensures renewed.Some? ==>
                var held := settled.inflight[d.receipt];
                && model == settled.(inflight := settled.inflight[d.receipt := held.(visibleUntil := now + timeout)])
                && renewed.value == d.(payload := held.item.payload, visibleUntil := now + timeout)
      ensures renewed.None? ==> model == settled
    {
      hide Traced, Deliverable, Later, Known, ActiveCount, Clocked;
      PromoteDelayed(now);
      settled := model;
      var ok := Required(d);
      renewed := None;
      if ok {
        inflight := inflight[d.receipt := inflight[d.receipt].(visibleUntil := now + timeout)];
        ClockedMore(old(actions), actions, Action.Renew(d.receipt, now + timeout), now);
        Record(Action.Renew(d.receipt, now + timeout));
        var item := inflight[d.receipt].item;
        renewed := Some(Delivery(inflight[d.receipt].queue.1, item.identity, item.payload, item.attempt,
                                 now + timeout, d.receipt));
      }
    }

    method Reject(d: Delivery, now: real, delay: real) returns (ok: bool, ghost settled: State)
      requires Valid() && 0.0 <= delay
      modifies this
      ensures Valid() && Clocked(old(actions), actions, now) && closed == old(closed)
      ensures PromotedTo(old(model), settled, now)
      ensures ok == (d.receipt in old(inflight) && Matches(old(inflight)[d.receipt], d))
      ensures ok ==>
                && d.receipt in settled.inflight
                && var a := SettleAction(settled, d.receipt, if delay == 0.0 then None else Some(now + delay));
                   Enabled(limits, settled, a) && model == Next(limits, settled, a)
      ensures ok ==>
                && d.receipt in settled.inflight
                && Settling(limits, settled, model, d.receipt, if delay == 0.0 then None else Some(now + delay))
      ensures !ok ==> model == settled
    {
      hide Traced, Deliverable, Later, Invariant, Enqueued, Buried, Trimmed, Next, Enabled, Promoting, Of, Settling,
           Clocked;
      PromoteDelayed(now);
      settled := model;
      PromotingKeepsIssued(old(model), settled);
      ok := Required(d);
      if ok {
        TracedInvariant(limits, states, actions, settled);
        var held := inflight[d.receipt];
        DeadWithinLimit(limits, settled, held.queue);
        var at := if delay == 0.0 then None else Some(now + delay);
        Pop(d.receipt);
        RetryOrDeadLetter(Taken(settled, d.receipt), held.queue, held.item, at);
        SettleStep(limits, settled, d.receipt, at);
        SettlingStep(limits, settled, d.receipt, at);
        ClockedMore(old(actions), actions, SettleAction(settled, d.receipt, at), now);
        Record(SettleAction(settled, d.receipt, at));
      }
    }

    method DeadLetter(d: Delivery, now: real) returns (ok: bool, ghost settled: State)
      requires Valid()
      modifies this
      ensures Valid() && Clocked(old(actions), actions, now) && closed == old(closed)
      ensures PromotedTo(old(model), settled, now)
      ensures ok == (d.receipt in old(inflight) && Matches(old(inflight)[d.receipt], d))
      ensures ok ==> Enabled(limits, settled, Bury(d.receipt)) && model == Next(limits, settled, Bury(d.receipt))
      ensures ok ==> d.receipt in settled.inflight && Burying(limits, settled, model, d.receipt)
      ensures !ok ==> model == settled
    {
      hide Traced, Deliverable, Later, Invariant, Buried, Trimmed, Promoting, Of, Burying, Clocked;
      PromoteDelayed(now);
      settled := model;
      PromotingKeepsIssued(old(model), settled);
      ok := Required(d);
      if ok {
        TracedInvariant(limits, states, actions, settled);
        var held := inflight[d.receipt];
        DeadWithinLimit(limits, settled, held.queue);
        Pop(d.receipt);
        AppendDeadLetter(Taken(settled, d.receipt), held.queue, held.item);
        BuryingStep(limits, settled, d.receipt);
        ClockedMore(old(actions), actions, Bury(d.receipt), now);
        Record(Bury(d.receipt));
      }
    }

    /** The oldest dead letters of a queue, each reported with its attempts. */
    method DeadLetters(q: QueueKey, limit: nat, now: real) returns (letters: seq<Delivery>)
      requires Valid()
      modifies this
      ensures Valid() && Clocked(old(actions), actions, now) && closed == old(closed)
      ensures PromotedTo(old(model), model, now)
      ensures |letters| == if limit < |Of(dead, q)| then limit else |Of(dead, q)|
      ensures forall i :: 0 <= i < |letters| ==> letters[i] == DeadDelivery(q, Of(dead, q)[i])
    {
      hide Traced, Deliverable, Later, Known, ActiveCount, Clocked;
      PromoteDelayed(now);
      var all := Of(dead, q);
      letters := [];
      while |letters| < limit && |letters| < |all|
        invariant |letters| <= limit && |letters| <= |all|
        invariant forall i :: 0 <= i < |letters| ==> letters[i] == DeadDelivery(q, all[i])
      {
        letters := letters + [DeadDelivery(q, all[|letters|])];
      }
    }

    /** The earliest time at which waiting for this queue can pay off. */
    method NextWakeUp(q: QueueKey) returns (wake: Option<real>)
      requires Synced(model)
      ensures IsWakeUp(model, q, wake)
    {
      wake := None;
      var slots := delayed.Keys;
      while slots != {}
        invariant slots <= delayed.Keys
        invariant forall k :: k in delayed && k !in slots && delayed[k].queue == q ==>
          wake.Some? && wake.value <= delayed[k].availableAt
        invariant wake.Some? ==>
          exists k :: k in delayed && delayed[k].queue == q && delayed[k].availableAt == wake.value
        decreases slots
      {
        var k :| k in slots;
        slots := slots - {k};
        if delayed[k].queue == q && (wake.None? || delayed[k].availableAt < wake.value) {
          wake := Some(delayed[k].availableAt);
        }
      }
      var receipts := inflight.Keys;
      while receipts != {}
        invariant receipts <= inflight.Keys
        invariant forall k :: k in delayed && delayed[k].queue == q ==>
          wake.Some? && wake.value <= delayed[k].availableAt
        invariant forall r :: r in inflight && r !in receipts && inflight[r].queue == q ==>
          wake.Some? && wake.value <= inflight[r].visibleUntil
        invariant wake.Some? ==>
          || (exists k :: k in delayed && delayed[k].queue == q && delayed[k].availableAt == wake.value)
          || (exists r :: r in inflight && inflight[r].queue == q && inflight[r].visibleUntil == wake.value)
        decreases receipts
      {
        var r :| r in receipts;
        receipts := receipts - {r};
        if inflight[r].queue == q && (wake.None? || inflight[r].visibleUntil < wake.value) {
          wake := Some(inflight[r].visibleUntil);
        }
      }
    }

    method Close()
      requires Valid()
      modifies this`closed
      ensures Valid() && closed
    {
      closed := true;
    }
  }

  function DeadDelivery(q: QueueKey, item: Item): Delivery {
    Delivery(q.1, item.identity, item.payload, item.attempt, 0.0, "dead-" + item.identity)
  }

  /** A settling step, and then the queue's empty containers removed. */
  ghost predicate Done(l: Limits, s: State, a: Action, s': State)
  {
    a.Acknowledge? && Enabled(l, s, a) && s' == Next(l, Next(l, s, a), Prune(s.inflight[a.receipt].queue))
  }

  /** Back to its queue with its delay while it has attempts left, dead otherwise. */
  function SettleAction(s: State, receipt: string, at: Option<real>): Action
    requires receipt in s.inflight
  {
    if s.inflight[receipt].item.attempt >= s.inflight[receipt].item.maxAttempts then Bury(receipt)
    else Retry(receipt, at)
  }

  lemma AcknowledgeStep(l: Limits, s: State, receipt: string)
    requires receipt in s.inflight
    ensures var a := Action.Acknowledge(receipt);
            && Enabled(l, s, a)
            && var m := Next(l, s, a);
               && m.ready == s.ready && m.delayed == s.delayed && m.dead == s.dead && m.sequence == s.sequence
               && m.inflight == s.inflight - {receipt}
               && Enabled(l, m, Prune(s.inflight[receipt].queue))
               && var s' := Next(l, m, Prune(s.inflight[receipt].queue));
                  && s'.inflight == m.inflight && s'.delayed == m.delayed
                  && forall q :: Of(s'.ready, q) == Of(s.ready, q) && Of(s'.dead, q) == Of(s.dead, q)
  {}

  lemma SettleStep(l: Limits, s: State, receipt: string, at: Option<real>)
    requires receipt in s.inflight
    ensures var held := s.inflight[receipt];
            && Enabled(l, s, SettleAction(s, receipt, at))
            && Next(l, s, SettleAction(s, receipt, at)) ==
               if held.item.attempt >= held.item.maxAttempts
               then Trimmed(l, Buried(Taken(s, receipt), held.queue, held.item), held.queue)
               else Enqueued(Taken(s, receipt), held.queue, held.item, at)
  {
    hide Trimmed, Buried, Enqueued;
  }

  lemma ReserveStep(l: Limits, s: State, q: QueueKey, receipt: string, until: real)
    requires Of(s.ready, q) != [] && receipt !in s.issued
    ensures var a := Action.Reserve(q, receipt, until);
            Enabled(l, s, a) && Next(l, s, a) == Delivered(s, q, receipt, until)
  {
    hide Untouched;
  }

  lemma PublishStep(l: Limits, s: State, q: QueueKey, id: string, payload: Bytes, max: nat, at: Option<real>)
    requires id !in s.place && 0 < max && ActiveCount(s, q) < l.items && (q in Known(s) || |Known(s)| < l.queues)
    ensures var a := Action.Publish(q, id, payload, max, at);
            && Enabled(l, s, a)
            && Next(l, s, a) ==
               Enqueued(Announced(s, q, id, Origin(q, payload, max, at.None?)), q, Item(id, payload, max, 0), at)
  {
    hide Known, ActiveCount, Enqueued, Announced;
  }

  lemma PruneIsEnabled(l: Limits, q: QueueKey)
    ensures forall s :: Enabled(l, s, Prune(q))
  {}

  lemma DeadWithinLimit(l: Limits, s: State, q: QueueKey)
    requires Invariant(l, s)
    ensures |Of(s.dead, q)| <= l.deadLetters
  {
    hide Located, Bounded, Ordered, ActiveCount, Known;
  }

  lemma PromotingKeepsCounts(s: State, s': State, q: QueueKey)
    requires Promoting(s, s')
    ensures Known(s') == Known(s) && ActiveCount(s', q) == ActiveCount(s, q) && s'.place.Keys == s.place.Keys
  {
    hide Known, ActiveCount;
  }

  /** The first item of the queue, on its next attempt, under the new receipt. */
  ghost predicate Handed(l: Limits, s: State, q: QueueKey, receipt: string, until: real, s': State, d: Delivery) {
    && Enabled(l, s, Action.Reserve(q, receipt, until))
    && s' == Next(l, Next(l, s, Action.Reserve(q, receipt, until)), Prune(q))
    && var item := s.ready[q][0];
       && d == Delivery(q.1, item.identity, item.payload, item.attempt + 1, until, receipt)
       && HandedOver(s, s', q, receipt, item, until)
  }

  /** The item has left the front of its queue and is reserved until then; nothing else
      has moved. */
  ghost predicate HandedOver(s: State, s': State, q: QueueKey, receipt: string, item: Item, until: real) {
    && s'.inflight == s.inflight[receipt := Reservation(q, item.(attempt := item.attempt + 1), until)]
    && s'.delayed == s.delayed
    && (forall x :: Of(s.ready, x) == (if x == q then [item] else []) + Of(s'.ready, x))
    && (forall x :: Of(s'.dead, x) == Of(s.dead, x))
  }

  lemma HandsOver(l: Limits, s: State, q: QueueKey, receipt: string, until: real)
    requires Enabled(l, s, Action.Reserve(q, receipt, until)) && Of(s.ready, q) != []
    ensures var s' := Next(l, Next(l, s, Action.Reserve(q, receipt, until)), Prune(q));
            HandedOver(s, s', q, receipt, s.ready[q][0], until)
  {
    hide Untouched;
    var m := Next(l, s, Action.Reserve(q, receipt, until));
    var s' := Next(l, m, Prune(q));
    var item := s.ready[q][0];
    forall x ensures Of(s.ready, x) == (if x == q then [item] else []) + Of(s'.ready, x) {
      assert s.ready[q] == [item] + s.ready[q][1..];
      assert [] + Of(s.ready, x) == Of(s.ready, x);
    }
  }

  /** A rejected item goes on: to the dead letters without attempts left, else back to its
      queue, at once or after its delay. */
  ghost predicate Settling(l: Limits, s: State, s': State, receipt: string, at: Option<real>)
    requires receipt in s.inflight
  {
    var held, rest := s.inflight[receipt], s.(inflight := s.inflight - {receipt});
    && s'.inflight == rest.inflight
    && if held.item.attempt < held.item.maxAttempts
       then GoesTo(rest, s', held.queue, held.item, at) && s'.dead == s.dead
       else Burying(l, s, s', receipt)
  }

  /** The item becomes the newest dead letter of its queue; nothing else is deliverable. */
  ghost predicate Burying(l: Limits, s: State, s': State, receipt: string)
    requires receipt in s.inflight
  {
    var held, rest := s.inflight[receipt], s.(inflight := s.inflight - {receipt});
    && s'.inflight == rest.inflight && s'.ready == s.ready && s'.delayed == s.delayed
    && (forall q :: Of(s'.dead, q) ==
                    if q == held.queue then Newest(Of(s.dead, q) + [held.item], l.deadLetters) else Of(s.dead, q))
  }

  lemma SlotsBounded(l: Limits, s: State)
    requires Invariant(l, s)
    ensures forall k :: k in s.delayed ==> k <= s.sequence
  {
    hide Located, Ordered, WithinLimits, ReadyBounded, InflightBounded, DeadBounded;
  }

  lemma BuryingStep(l: Limits, s: State, receipt: string)
    requires Invariant(l, s) && receipt in s.inflight
    ensures var held := s.inflight[receipt];
            Burying(l, s, Trimmed(l, Buried(Taken(s, receipt), held.queue, held.item), held.queue), receipt)
  {
    hide Of, Newest, Buried, Trimmed, Invariant;
    var held := s.inflight[receipt];
    DeadWithinLimit(l, s, held.queue);
    var s' := Trimmed(l, Buried(Taken(s, receipt), held.queue, held.item), held.queue);
    BuriedFrame(l, Taken(s, receipt), held.queue, held.item);
    forall q ensures Of(s'.dead, q) ==
      if q == held.queue then Newest(Of(s.dead, q) + [held.item], l.deadLetters) else Of(s.dead, q)
    {
      TrimmedLetters(l, Taken(s, receipt), held.queue, held.item, q);
    }
  }

  lemma SettlingStep(l: Limits, s: State, receipt: string, at: Option<real>)
    requires Invariant(l, s) && receipt in s.inflight
    ensures Enabled(l, s, SettleAction(s, receipt, at))
    ensures Settling(l, s, Next(l, s, SettleAction(s, receipt, at)), receipt, at)
  {
    hide Buried, Trimmed, Invariant, Burying, GoesTo, Next, Enabled, Enqueued;
    var held := s.inflight[receipt];
    SettleStep(l, s, receipt, at);
    if held.item.attempt < held.item.maxAttempts {
      SlotsBounded(l, s);
      EnqueuedGoes(Taken(s, receipt), held.queue, held.item, at);
      EnqueuedRest(Taken(s, receipt), held.queue, held.item, at);
    } else {
      BuryingStep(l, s, receipt);
      BuryingInflight(l, s, receipt);
    }
  }

  lemma EnqueuedRest(s: State, q: QueueKey, item: Item, at: Option<real>)
    ensures Enqueued(s, q, item, at).inflight == s.inflight && Enqueued(s, q, item, at).dead == s.dead
  {}

  lemma BuryingInflight(l: Limits, s: State, receipt: string)
    requires receipt in s.inflight
    ensures var held := s.inflight[receipt];
            Trimmed(l, Buried(Taken(s, receipt), held.queue, held.item), held.queue).inflight == s.inflight - {receipt}
  {}

  /** Everything due by then has left the heap, and everything expired its reservation. */
  ghost predicate Settled(delayed: map<nat, Delayed>, inflight: map<string, Reservation>, s: State, now: real) {
    s.delayed == Later(delayed, now) && s.inflight == Unexpired(inflight, now)
  }

  /** The moments a waiting reserve looks at: the first one, and then up to its deadline. */
  predicate InWait(start: real, wait: real, t: real) { t == start || start <= t < start + wait }

  ghost predicate FirstMoment(s: State, q: QueueKey, start: real, at: real) {
    start <= at && Deliverable(s, q, at) && forall t :: start <= t < at ==> !Deliverable(s, q, t)
  }

  ghost predicate NothingTill(s: State, q: QueueKey, start: real, at: real) {
    forall t :: start <= t <= at ==> !Deliverable(s, q, t)
  }

  lemma FirstLook(s: State, q: QueueKey, start: real)
    ensures if Deliverable(s, q, start) then FirstMoment(s, q, start, start) else NothingTill(s, q, start, start)
  {
    hide Deliverable;
  }

  lemma NextMoment(s: State, q: QueueKey, start: real, at: real)
    requires start <= at && forall t :: start <= t < at ==> !Deliverable(s, q, t)
    ensures if Deliverable(s, q, at) then FirstMoment(s, q, start, at) else NothingTill(s, q, start, at)
  {
    hide Deliverable;
  }

  lemma ReservedInWait(s: State, q: QueueKey, start: real, wait: real, at: real)
    requires FirstMoment(s, q, start, at) && InWait(start, wait, at)
    ensures exists t :: InWait(start, wait, t) && Deliverable(s, q, t)
  {
    hide Deliverable;
  }

  lemma NothingInWait(s: State, q: QueueKey, start: real, wait: real, at: real)
    requires NothingTill(s, q, start, at) && start <= at && start + wait <= at
    ensures !exists t :: InWait(start, wait, t) && Deliverable(s, q, t)
  {
    hide Deliverable;
  }

  lemma StillNothing(s0: State, s: State, q: QueueKey, wake: Option<real>, start: real, at: real)
    requires SameLater(s0, s, at) && NothingTill(s0, q, start, at) && IsWakeUp(s, q, wake) && Of(s.ready, q) == []
    ensures forall t :: start <= t && (wake.None? || t < wake.value) ==> !Deliverable(s0, q, t)
  {
    hide Deliverable, IsWakeUp;
    forall t | at < t && (wake.None? || t < wake.value) ensures !Deliverable(s0, q, t) {
      NothingBeforeWakeUp(s, q, wake, t);
    }
  }

  lemma SameLaterTwice(a: State, b: State, c: State, now: real, later: real)
    requires SameLater(a, b, now) && SameLater(b, c, later) && now <= later
    ensures SameLater(a, c, later) && forall q :: Deliverable(b, q, later) == Deliverable(a, q, later)
  {
    hide Deliverable;
    forall q, t | later <= t ensures Deliverable(c, q, t) == Deliverable(a, q, t) {
      assert Deliverable(b, q, t) == Deliverable(a, q, t);
    }
  }

  /** After a pass the next wake-up lies ahead: the loop never spins. */
  lemma WakeUpAhead(delayed: map<nat, Delayed>, inflight: map<string, Reservation>, s: State, q: QueueKey,
                    wake: real, now: real)
    requires Settled(delayed, inflight, s, now) && IsWakeUp(s, q, Some(wake))
    ensures now < wake
  {}

  lemma SettledTwice(delayed: map<nat, Delayed>, inflight: map<string, Reservation>, s: State, now: real,
                     s': State, later: real)
    requires Settled(delayed, inflight, s, now) && Settled(s.delayed, s.inflight, s', later) && now <= later
    ensures Settled(delayed, inflight, s', later)
  {}

  /** The wake-up takes at least one entry away. */
  lemma FewerLeft(s: State, s': State, q: QueueKey, wake: real)
    requires IsWakeUp(s, q, Some(wake)) && Settled(s.delayed, s.inflight, s', wake)
    ensures |s'.delayed| + |s'.inflight| < |s.delayed| + |s.inflight|
  {
    assert s'.delayed.Keys <= s.delayed.Keys && s'.inflight.Keys <= s.inflight.Keys;
    SmallerSet(s'.delayed.Keys, s.delayed.Keys);
    SmallerSet(s'.inflight.Keys, s.inflight.Keys);
    if k :| k in s.delayed && s.delayed[k].queue == q && s.delayed[k].availableAt == wake {
      assert k in s.delayed.Keys && k !in s'.delayed.Keys;
    } else {
      var r :| r in s.inflight && s.inflight[r].queue == q && s.inflight[r].visibleUntil == wake;
      assert r in s.inflight.Keys && r !in s'.inflight.Keys;
    }
  }

  lemma SmallerSet<T>(a: set<T>, b: set<T>)
    requires a <= b
    ensures |a| <= |b| && (a != b ==> |a| < |b|)
  {
    assert b == a + (b - a) && a !! (b - a);
    if a != b {
      var x :| x in b && x !in a;
      assert |b - a| > 0;
    }
  }

  function Unexpired(inflight: map<string, Reservation>, now: real): map<string, Reservation> {
    map r | r in inflight && inflight[r].visibleUntil > now :: inflight[r]
  }

  lemma PromotingKeepsIssued(s: State, s': State)
    requires Promoting(s, s')
    ensures s'.issued == s.issued && s'.inflight == s.inflight
  {}

  /** Once everything due and expired is back, only what is ready can be delivered. */
  lemma NothingLeft(s: State, delayed: map<nat, Delayed>, inflight: map<string, Reservation>, q: QueueKey, now: real)
    requires s.delayed == Later(delayed, now) && s.inflight == Unexpired(inflight, now)
    ensures Deliverable(s, q, now) == (Of(s.ready, q) != [])
  {}

  /** What recovery leaves alone. */
  ghost predicate Recovering(s: State, s': State) {
    s'.sequence == s.sequence && s'.issued == s.issued && s'.origin == s.origin && s'.place.Keys == s.place.Keys
  }

  lemma RecoverStep(l: Limits, s: State, a: Action, now: real)
    requires Invariant(l, s) && (a.Bury? || (a.Retry? && a.at.None?)) && Enabled(l, s, a)
    requires s.inflight[a.receipt].visibleUntil <= now
    requires a.Bury? ==> s.inflight[a.receipt].item.attempt >= s.inflight[a.receipt].item.maxAttempts
    ensures var s' := Next(l, s, a);
            && s'.inflight == s.inflight - {a.receipt} && s'.delayed == s.delayed && Recovering(s, s')
            && SameLater(s, s', now)
  {
    hide Deliverable, Located, Ordered, WithinLimits, ReadyBounded, DelayedBounded, InflightBounded, DeadBounded,
         Trimmed, Buried;
    var held := s.inflight[a.receipt];
    var s' := Next(l, s, a);
    forall q, t | now <= t ensures Deliverable(s', q, t) == Deliverable(s, q, t) {
      if a.Retry? {
        RetryKeepsDeliverable(l, s, a.receipt, t, q);
      } else {
        BuryKeepsDeliverable(l, s, a.receipt, t, q);
      }
    }
    StepKeepsBounded(l, s, a);
    if a.Bury? {
      BuriedFrame(l, Taken(s, a.receipt), held.queue, held.item);
    }
  }

  lemma PruneStep(l: Limits, s: State, x: QueueKey, now: real)
    ensures var s' := Next(l, s, Prune(x));
            && s'.inflight == s.inflight && s'.delayed == s.delayed && Recovering(s, s')
            && SameLater(s, s', now)
            && (forall q :: Of(s'.ready, q) == Of(s.ready, q) && Of(s'.dead, q) == Of(s.dead, q))
  {
    hide Deliverable;
    forall q, t ensures Deliverable(Next(l, s, Prune(x)), q, t) == Deliverable(s, q, t) {
      PruneKeepsDeliverable(l, s, x, t, q);
    }
  }

  predicate AtOrAfter(d: Delayed, slot: nat, e: Delayed, k: nat) {
    d.availableAt < e.availableAt || (d.availableAt == e.availableAt && slot <= k)
  }

  lemma PromotingNothing(s: State, now: real)
    ensures Promoting(s, s) && LeftWhenDue(s.delayed, s.delayed, now)
  {}
}
