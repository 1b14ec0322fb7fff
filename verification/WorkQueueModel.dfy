/** The in-memory work queue as a machine: its containers, a history of where every
    published item went, and the small steps its operations are made of. */
module WorkQueueModel {
  import opened Common

  type QueueKey = (string, string)

  datatype Item = Item(identity: string, payload: Bytes, maxAttempts: nat, attempt: nat)
  datatype Delayed = Delayed(availableAt: real, queue: QueueKey, item: Item)
  datatype Reservation = Reservation(queue: QueueKey, item: Item, visibleUntil: real)
  datatype Limits = Limits(items: nat, deadLetters: nat, queues: nat)

  datatype Place =
    | InReady(queue: QueueKey)
    | InDelayed(slot: nat)
    | InFlight(receipt: string)
    | InDead(queue: QueueKey)
    | Acknowledged
    | Evicted

  /** What was published, and how. */
  datatype Origin = Origin(queue: QueueKey, payload: Bytes, maxAttempts: nat, direct: bool)

  datatype State = State(
    ready: map<QueueKey, seq<Item>>,
    delayed: map<nat, Delayed>,            // the heap; a slot is the entry's sequence number
    inflight: map<string, Reservation>,
    dead: map<QueueKey, seq<Item>>,
    sequence: nat,
    // history
    place: map<string, Place>,
    origin: map<string, Origin>,
    issued: set<string>,                   // every receipt handed out
    direct: map<QueueKey, seq<string>>,    // items published without delay, in order
    firsts: map<QueueKey, seq<string>>)    // first deliveries of those, in order

  datatype Action =
    | Publish(queue: QueueKey, identity: string, payload: Bytes, maxAttempts: nat, at: Option<real>)
    | Promote(slot: nat, now: real)     // `now` is the clock reading that found the entry due
    | Reserve(queue: QueueKey, receipt: string, until: real)
    | Renew(receipt: string, until: real)
    | Acknowledge(receipt: string)
    | Retry(receipt: string, at: Option<real>)
    | Bury(receipt: string)
    | Prune(queue: QueueKey)

  function Of<T>(m: map<QueueKey, seq<T>>, q: QueueKey): seq<T> { if q in m then m[q] else [] }

  function Initial(): State { State(map[], map[], map[], map[], 0, map[], map[], {}, map[], map[]) }

  function Known(s: State): set<QueueKey> {
    (set q | q in s.ready && s.ready[q] != []) + (set q | q in s.dead && s.dead[q] != [])
    + (set k | k in s.delayed :: s.delayed[k].queue) + (set r | r in s.inflight :: s.inflight[r].queue)
  }

  function DelayedIn(delayed: map<nat, Delayed>, q: QueueKey): set<nat> {
    set k | k in delayed && delayed[k].queue == q
  }

  function InflightIn(inflight: map<string, Reservation>, q: QueueKey): set<string> {
    set r | r in inflight && inflight[r].queue == q
  }

  function ActiveCount(s: State, q: QueueKey): nat {
    |Of(s.ready, q)| + |DelayedIn(s.delayed, q)| + |InflightIn(s.inflight, q)|
  }

  /** The top of the heap: entries compare by time, then by sequence number. */
  ghost predicate Least(delayed: map<nat, Delayed>, slot: nat) {
    && slot in delayed
    && forall k :: k in delayed ==>
         delayed[slot].availableAt < delayed[k].availableAt
         || (delayed[slot].availableAt == delayed[k].availableAt && slot <= k)
  }

  ghost predicate Enabled(l: Limits, s: State, a: Action) {
    match a
    case Publish(q, id, _, max, _) =>
      && id !in s.place && 0 < max && ActiveCount(s, q) < l.items
      && (q in Known(s) || |Known(s)| < l.queues)
    case Promote(slot, now) => Least(s.delayed, slot) && s.delayed[slot].availableAt <= now
    case Reserve(q, receipt, _) => Of(s.ready, q) != [] && receipt !in s.issued
    case Renew(receipt, _) => receipt in s.inflight
    case Acknowledge(receipt) => receipt in s.inflight
    case Retry(receipt, _) =>
      receipt in s.inflight && s.inflight[receipt].item.attempt < s.inflight[receipt].item.maxAttempts
    case Bury(receipt) => receipt in s.inflight
    case Prune(_) => true
  }

  // ----- the steps -----

  /** `_enqueue`: to the back of the queue, or into the heap. */
  function Enqueued(s: State, q: QueueKey, item: Item, at: Option<real>): State {
    match at
    case None => s.(ready := s.ready[q := Of(s.ready, q) + [item]], place := s.place[item.identity := InReady(q)])
    case Some(time) =>
      var slot := s.sequence + 1;
      s.(sequence := slot, delayed := s.delayed[slot := Delayed(time, q, item)],
         place := s.place[item.identity := InDelayed(slot)])
  }

  function Buried(s: State, q: QueueKey, item: Item): State {
    s.(dead := s.dead[q := Of(s.dead, q) + [item]], place := s.place[item.identity := InDead(q)])
  }

  /** The oldest dead letter goes when there are too many. */
  function Trimmed(l: Limits, s: State, q: QueueKey): State {
    var letters := Of(s.dead, q);
    if |letters| <= l.deadLetters then s
    else s.(dead := s.dead[q := letters[1..]], place := s.place[letters[0].identity := Evicted])
  }

  function Announced(s: State, q: QueueKey, id: string, origin: Origin): State {
    s.(origin := s.origin[id := origin],
       direct := if origin.direct then s.direct[q := Of(s.direct, q) + [id]] else s.direct)
  }

  function Taken(s: State, receipt: string): State { s.(inflight := s.inflight - {receipt}) }

  function Delivered(s: State, q: QueueKey, receipt: string, until: real): State
    requires Of(s.ready, q) != []
  {
    var item := s.ready[q][0];
    var id := item.identity;
    s.(ready := s.ready[q := s.ready[q][1..]],
       inflight := s.inflight[receipt := Reservation(q, item.(attempt := item.attempt + 1), until)],
       place := s.place[id := InFlight(receipt)],
       issued := s.issued + {receipt},
       firsts := if Untouched(s.origin, item) then s.firsts[q := Of(s.firsts, q) + [id]] else s.firsts)
  }

  function Pruned<T>(m: map<QueueKey, seq<T>>, q: QueueKey): map<QueueKey, seq<T>> {
    if Of(m, q) == [] then m - {q} else m
  }

  function Next(l: Limits, s: State, a: Action): State
    requires Enabled(l, s, a)
  {
    match a
    case Publish(q, id, payload, max, at) =>
      Enqueued(Announced(s, q, id, Origin(q, payload, max, at.None?)), q, Item(id, payload, max, 0), at)
    case Promote(slot, _) =>
      Enqueued(s.(delayed := s.delayed - {slot}), s.delayed[slot].queue, s.delayed[slot].item, None)
    case Reserve(q, receipt, until) => Delivered(s, q, receipt, until)
    case Renew(receipt, until) =>
      s.(inflight := s.inflight[receipt := s.inflight[receipt].(visibleUntil := until)])
    case Acknowledge(receipt) =>
      Taken(s, receipt).(place := s.place[s.inflight[receipt].item.identity := Acknowledged])
    case Retry(receipt, at) => Enqueued(Taken(s, receipt), s.inflight[receipt].queue, s.inflight[receipt].item, at)
    case Bury(receipt) =>
      var held := s.inflight[receipt];
      Trimmed(l, Buried(Taken(s, receipt), held.queue, held.item), held.queue)
    case Prune(q) => s.(ready := Pruned(s.ready, q), dead := Pruned(s.dead, q))
  }

  // ----- the invariant -----

  function Ids(items: seq<Item>): seq<string> { seq(|items|, i requires 0 <= i < |items| => items[i].identity) }

  /** The identities a container holds. */
  function Content(s: State, p: Place): seq<string> {
    match p
    case InReady(q) => Ids(Of(s.ready, q))
    case InDelayed(slot) => if slot in s.delayed then [s.delayed[slot].item.identity] else []
    case InFlight(r) => if r in s.inflight then [s.inflight[r].item.identity] else []
    case InDead(q) => Ids(Of(s.dead, q))
    case Acknowledged => []
    case Evicted => []
  }

  predicate Terminal(p: Place) { p.Acknowledged? || p.Evicted? }

  predicate IsAt(place: map<string, Place>, id: string, p: Place) { id in place && place[id] == p }

  ghost predicate NoRepeats(ids: seq<string>) { forall i, j :: 0 <= i < j < |ids| ==> ids[i] != ids[j] }

  /** Every published item is in exactly one place: a container holds an identity once,
      exactly when the history says so. */
  ghost predicate Located(s: State) {
    forall p :: NoRepeats(Content(s, p)) && (!Terminal(p) ==> HoldsExactly(Content(s, p), s.place, p))
  }

  ghost predicate HoldsExactly(ids: seq<string>, place: map<string, Place>, p: Place) {
    forall id :: id in ids <==> IsAt(place, id, p)
  }

  predicate Genuine(origin: map<string, Origin>, q: QueueKey, item: Item) {
    && item.identity in origin
    && origin[item.identity].queue == q
    && origin[item.identity].payload == item.payload
    && origin[item.identity].maxAttempts == item.maxAttempts
  }

  predicate Waiting(origin: map<string, Origin>, q: QueueKey, item: Item) {
    Genuine(origin, q, item) && item.attempt < item.maxAttempts
  }

  predicate Tried(origin: map<string, Origin>, q: QueueKey, item: Item) {
    Genuine(origin, q, item) && 1 <= item.attempt <= item.maxAttempts
  }

  ghost predicate ReadyBounded(ready: map<QueueKey, seq<Item>>, origin: map<string, Origin>) {
    forall q, i :: q in ready && 0 <= i < |ready[q]| ==> Waiting(origin, q, ready[q][i])
  }

  ghost predicate DelayedBounded(delayed: map<nat, Delayed>, origin: map<string, Origin>, sequence: nat) {
    forall k :: k in delayed ==>
      k <= sequence && Waiting(origin, delayed[k].queue, delayed[k].item) && !Untouched(origin, delayed[k].item)
  }

  ghost predicate InflightBounded(inflight: map<string, Reservation>, origin: map<string, Origin>) {
    forall r :: r in inflight ==> Tried(origin, inflight[r].queue, inflight[r].item)
  }

  ghost predicate DeadBounded(dead: map<QueueKey, seq<Item>>, origin: map<string, Origin>) {
    forall q, i :: q in dead && 0 <= i < |dead[q]| ==> Tried(origin, q, dead[q][i])
  }

  /** Items keep what was published; attempts stay within their bounds. */
  ghost predicate Bounded(s: State) {
    && ReadyBounded(s.ready, s.origin) && DelayedBounded(s.delayed, s.origin, s.sequence)
    && InflightBounded(s.inflight, s.origin) && DeadBounded(s.dead, s.origin)
    && s.origin.Keys == s.place.Keys && s.inflight.Keys <= s.issued
  }

  /** Published without delay and never delivered. */
  predicate Untouched(origin: map<string, Origin>, item: Item) {
    item.attempt == 0 && item.identity in origin && origin[item.identity].direct
  }

  function UntouchedIn(origin: map<string, Origin>, items: seq<Item>): seq<string> {
    if items == [] then []
    else UntouchedIn(origin, items[..|items| - 1]) +
         (if Untouched(origin, items[|items| - 1]) then [items[|items| - 1].identity] else [])
  }

  ghost predicate OrderedIn(s: State, q: QueueKey) {
    Of(s.firsts, q) + UntouchedIn(s.origin, Of(s.ready, q)) == Of(s.direct, q)
  }

  /** First deliveries so far, followed by the untouched items still waiting, are the
      items published without delay in publish order. */
  ghost predicate Ordered(s: State) { forall q :: OrderedIn(s, q) }

  ghost predicate WithinLimits(l: Limits, s: State) {
    && (forall q :: ActiveCount(s, q) <= l.items)
    && (forall q :: |Of(s.dead, q)| <= l.deadLetters)
    && |Known(s)| <= l.queues
  }

  ghost predicate Invariant(l: Limits, s: State) { Located(s) && Bounded(s) && Ordered(s) && WithinLimits(l, s) }
}
