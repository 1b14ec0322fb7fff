/** Atomic values as a store that forgets an entry the instant it expires. */
module AtomicModel {
  import opened Common

  type StorageKey = (string, string)

  datatype Value = ByteString(bytes: Bytes) | Number(number: int)
  datatype Entry = Entry(value: Value, revision: nat, expiresAt: real)
  datatype Store = Store(entries: map<StorageKey, Entry>, lastRevision: nat)

  datatype Op =
    | Get(key: StorageKey)
    | Create(key: StorageKey, bytes: Bytes, ttl: real)
    | CompareAndSwap(key: StorageKey, expected: nat, bytes: Bytes, ttl: real)
    | CompareAndDelete(key: StorageKey, expected: nat)
    | Increment(key: StorageKey, amount: int, ttl: real)

  datatype Outcome =
    | Found(value: Value, revision: nat)
    | Written(value: Value, revision: nat)
    | Deleted
    | Nothing          // no live entry, or not the expected revision
    | WrongKind        // a counter where bytes were wanted, or the other way round
    | Full

  /** What is left of a store at a time. */
  function Alive(entries: map<StorageKey, Entry>, now: real): map<StorageKey, Entry> {
    map k | k in entries && entries[k].expiresAt > now :: entries[k]
  }

  function Put(s: Store, k: StorageKey, value: Value, expiresAt: real): (Store, Outcome) {
    var revision := s.lastRevision + 1;
    (Store(s.entries[k := Entry(value, revision, expiresAt)], revision), Written(value, revision))
  }

  /** One operation on a store whose entries are all alive. */
  function Apply(s: Store, op: Op, now: real, capacity: nat): (Store, Outcome) {
    var k := op.key;
    match op
    case Get(_) =>
      if k !in s.entries then (s, Nothing)
      else if !s.entries[k].value.ByteString? then (s, WrongKind)
      else (s, Found(s.entries[k].value, s.entries[k].revision))
    case Create(_, bytes, ttl) =>
      if k in s.entries then (s, Nothing)
      else if |s.entries| >= capacity then (s, Full)
      else Put(s, k, ByteString(bytes), now + ttl)
    case CompareAndSwap(_, expected, bytes, ttl) =>
      if k !in s.entries || s.entries[k].revision != expected then (s, Nothing)
      else if !s.entries[k].value.ByteString? then (s, WrongKind)
      else Put(s, k, ByteString(bytes), now + ttl)
    case CompareAndDelete(_, expected) =>
      if k !in s.entries || s.entries[k].revision != expected then (s, Nothing)
      else if !s.entries[k].value.ByteString? then (s, WrongKind)
      else (s.(entries := s.entries - {k}), Deleted)
    case Increment(_, amount, ttl) =>
      if k !in s.entries then
        if |s.entries| >= capacity then (s, Full) else Put(s, k, Number(amount), now + ttl)
      else if s.entries[k].value.Number? then Put(s, k, Number(s.entries[k].value.number + amount), now + ttl)
      else (s, WrongKind)
  }

  /** Expiry first, then the operation. */
  function Eager(s: Store, op: Op, now: real, capacity: nat): (Store, Outcome) {
    Apply(s.(entries := Alive(s.entries, now)), op, now, capacity)
  }

  // ----- runs -----

  datatype Event = Event(op: Op, now: real, outcome: Outcome)

  ghost predicate IsRun(capacity: nat, stores: seq<Store>, events: seq<Event>) {
    && |stores| == |events| + 1 && stores[0] == Store(map[], 0)
    && forall i :: 0 <= i < |events| ==>
         Eager(stores[i], events[i].op, events[i].now, capacity) == (stores[i + 1], events[i].outcome)
  }

  /** A step that gave the key a new revision, or took the key away. */
  predicate Writes(e: Event, k: StorageKey) { e.op.key == k && (e.outcome.Written? || e.outcome.Deleted?) }

  ghost predicate Bounded(s: Store) {
    forall k :: k in s.entries ==> 1 <= s.entries[k].revision <= s.lastRevision
  }

  predicate HasRevision(s: Store, k: StorageKey, revision: nat) {
    k in s.entries && s.entries[k].revision == revision
  }

  /** Revisions only grow; a key keeps its revision, loses it for ever, or gets a new one. */
  lemma StepRevisions(s: Store, e: Event, capacity: nat, s': Store, k: StorageKey, revision: nat)
    requires Bounded(s) && Eager(s, e.op, e.now, capacity) == (s', e.outcome)
    ensures Bounded(s') && s.lastRevision <= s'.lastRevision
    ensures e.outcome.Written? ==>
              e.outcome.revision == s'.lastRevision == s.lastRevision + 1 &&
                  HasRevision(s', e.op.key, e.outcome.revision)
    ensures !e.outcome.Written? ==> s'.lastRevision == s.lastRevision
    ensures revision <= s.lastRevision && HasRevision(s', k, revision) ==> HasRevision(s, k, revision) && !Writes(e, k)
  {}

  lemma {:induction false} RunBounded(capacity: nat, stores: seq<Store>, events: seq<Event>, n: nat)
    requires IsRun(capacity, stores, events) && n < |stores|
    ensures Bounded(stores[n])
  {
    hide Eager;
    if n > 0 {
      RunBounded(capacity, stores, events, n - 1);
      var k: StorageKey := ("", "");
      StepRevisions(stores[n - 1], events[n - 1], capacity, stores[n - 1 + 1], k, 0);
    }
  }

  lemma {:induction false} RevisionsGrow(capacity: nat, stores: seq<Store>, events: seq<Event>, i: nat, n: nat)
    requires IsRun(capacity, stores, events) && i <= n < |stores|
    ensures stores[i].lastRevision <= stores[n].lastRevision
    decreases n - i
  {
    hide Eager;
    if i < n {
      RevisionsGrow(capacity, stores, events, i, n - 1);
      RunBounded(capacity, stores, events, n - 1);
      var k: StorageKey := ("", "");
      StepRevisions(stores[n - 1], events[n - 1], capacity, stores[n - 1 + 1], k, 0);
    }
  }

  /** No two writes of a run get the same revision, on whatever keys, across deletion,
      expiry and re-creation. */
  lemma RevisionsAreNeverReused(capacity: nat, stores: seq<Store>, events: seq<Event>, i: nat, j: nat)
    requires IsRun(capacity, stores, events) && i < j < |events|
    requires events[i].outcome.Written? && events[j].outcome.Written?
    ensures events[i].outcome.revision < events[j].outcome.revision
  {
    hide Eager;
    RunBounded(capacity, stores, events, i);
    RunBounded(capacity, stores, events, j);
    StepRevisions(stores[i], events[i], capacity, stores[i + 1], events[i].op.key, 0);
    StepRevisions(stores[j], events[j], capacity, stores[j + 1], events[j].op.key, 0);
    RevisionsGrow(capacity, stores, events, i + 1, j);
  }

  /** Where a key has an old revision, nothing wrote it in between. */
  lemma {:induction false} NoWriteBetween(
    capacity: nat, stores: seq<Store>, events: seq<Event>, i: nat, n: nat, k: StorageKey, revision: nat)
    requires IsRun(capacity, stores, events) && i <= n < |stores|
    requires revision <= stores[i].lastRevision && HasRevision(stores[n], k, revision)
    ensures HasRevision(stores[i], k, revision)
    ensures forall m :: i <= m < n ==> !Writes(events[m], k)
    decreases n - i
  {
    hide Eager, Writes, HasRevision;
    if i < n {
      RunBounded(capacity, stores, events, n - 1);
      RevisionsGrow(capacity, stores, events, i, n - 1);
      StepRevisions(stores[n - 1], events[n - 1], capacity, stores[n - 1 + 1], k, revision);
      NoWriteBetween(capacity, stores, events, i, n - 1, k, revision);
    }
  }

  /** A swap or deletion that succeeds against the revision of an earlier write found
      the key exactly as that write left it: no write to the key came in between. */
  lemma SuccessMeansUntouched(capacity: nat, stores: seq<Store>, events: seq<Event>, i: nat, j: nat)
    requires IsRun(capacity, stores, events) && i < j < |events|
    requires events[i].outcome.Written? && Succeeds(events[j], events[i].outcome.revision)
    ensures events[i].op.key == events[j].op.key
    ensures forall m :: i < m < j ==> !Writes(events[m], events[j].op.key)
  {
    hide Apply;
    var k, revision := events[j].op.key, events[i].outcome.revision;
    RunBounded(capacity, stores, events, i);
    RunBounded(capacity, stores, events, j);
    StepRevisions(stores[i], events[i], capacity, stores[i + 1], k, 0);
    SuccessMatched(stores[j], events[j], capacity, stores[j + 1]);
    NoWriteBetween(capacity, stores, events, i + 1, j, k, revision);
    OneKey(stores[i], events[i], capacity, stores[i + 1], k);
  }

  predicate Succeeds(e: Event, expected: nat) {
    || (e.op.CompareAndSwap? && e.op.expected == expected && e.outcome.Written?)
    || (e.op.CompareAndDelete? && e.op.expected == expected && e.outcome.Deleted?)
  }

  lemma SuccessMatched(s: Store, e: Event, capacity: nat, s': Store)
    requires Eager(s, e.op, e.now, capacity) == (s', e.outcome)
    requires (e.op.CompareAndSwap? && e.outcome.Written?) || (e.op.CompareAndDelete? && e.outcome.Deleted?)
    ensures HasRevision(s, e.op.key, e.op.expected)
  {}

  /** The revision of a write belongs to its own key only. */
  lemma OneKey(s: Store, e: Event, capacity: nat, s': Store, k: StorageKey)
    requires Bounded(s) && Eager(s, e.op, e.now, capacity) == (s', e.outcome) && e.outcome.Written?
    ensures HasRevision(s', k, e.outcome.revision) ==> k == e.op.key
  {}
}
