/** The in-memory atomic cache, which drops expired entries only when it meets them. */
module MemoryAtomic {
  import opened Common
  import opened AtomicModel

  class InMemoryAtomicCache {
    const maxEntries: nat
    var entries: map<StorageKey, Entry>
    var nextRevision: nat

    /** The store as its callers see it at a time. */
    ghost function Seen(now: real): Store
      reads this
    {
      Store(Alive(entries, now), nextRevision)
    }

    constructor (maxEntries: nat)
      requires 0 < maxEntries
      ensures this.maxEntries == maxEntries && entries == map[] && nextRevision == 0
    {
      this.maxEntries := maxEntries;
      entries, nextRevision := map[], 0;
    }

    method LiveEntry(k: StorageKey, now: real) returns (entry: Option<Entry>)
      modifies this`entries
      ensures Seen(now) == old(Seen(now))
      ensures entry == if k in Seen(now).entries then Some(Seen(now).entries[k]) else None
      ensures entry.None? ==> k !in entries
    {
      if k !in entries { return None; }
      if entries[k].expiresAt <= now {
        entries := entries - {k};
        return None;
      }
      return Some(entries[k]);
    }

    /** Room is made by removing expired entries, and only then is the store full. */
    method EnsureCapacity(k: StorageKey, now: real) returns (ok: bool)
      modifies this`entries
      ensures Seen(now) == old(Seen(now)) && (k in entries) == (k in old(entries))
      ensures ok == (k in entries || |Seen(now).entries| < maxEntries)
    {
      if k in entries { return true; }
      var expired := set x | x in entries && entries[x].expiresAt <= now;
      while expired != {}
        invariant Seen(now) == old(Seen(now)) && k !in entries
        invariant expired == set x | x in entries && entries[x].expiresAt <= now
        decreases expired
      {
        var x :| x in expired;
        entries := entries - {x};
        expired := expired - {x};
      }
      assert forall x :: x in entries && entries[x].expiresAt <= now ==> x in expired;
      assert entries == Alive(entries, now);
      ok := |entries| < maxEntries;
    }

    method Revision() returns (revision: nat)
      modifies this`nextRevision
      ensures revision == nextRevision == old(nextRevision) + 1
    {
      nextRevision := nextRevision + 1;
      revision := nextRevision;
    }

    method Write(k: StorageKey, value: Value, expiresAt: real, now: real) returns (out: Outcome)
      requires now < expiresAt
      modifies this
      ensures (Seen(now), out) == Put(old(Seen(now)), k, value, expiresAt)
    {
      var revision := Revision();
      entries := entries[k := Entry(value, revision, expiresAt)];
      assert Alive(entries, now) == Alive(old(entries), now)[k := Entry(value, revision, expiresAt)];
      out := Written(value, revision);
    }

    method Get(k: StorageKey, now: real) returns (out: Outcome)
      modifies this
      ensures (Seen(now), out) == Apply(old(Seen(now)), Op.Get(k), now, maxEntries)
    {
      hide Alive;
      var entry := LiveEntry(k, now);
      if entry.None? { return Nothing; }
      if !entry.value.value.ByteString? { return WrongKind; }
      out := Found(entry.value.value, entry.value.revision);
    }

    method Create(k: StorageKey, bytes: Bytes, ttl: real, now: real) returns (out: Outcome)
      requires 0.0 < ttl
      modifies this
      ensures (Seen(now), out) == Apply(old(Seen(now)), Op.Create(k, bytes, ttl), now, maxEntries)
    {
      hide Alive;
      var entry := LiveEntry(k, now);
      if entry.Some? { return Nothing; }
      var room := EnsureCapacity(k, now);
      if !room { return Full; }
      out := Write(k, ByteString(bytes), now + ttl, now);
    }

    method CompareAndSwap(k: StorageKey, expected: nat, bytes: Bytes, ttl: real, now: real) returns (out: Outcome)
      requires 0.0 < ttl
      modifies this
      ensures (Seen(now), out) == Apply(old(Seen(now)), Op.CompareAndSwap(k, expected, bytes, ttl), now, maxEntries)
    {
      hide Alive;
      var entry := LiveEntry(k, now);
      if entry.None? || entry.value.revision != expected { return Nothing; }
      if !entry.value.value.ByteString? { return WrongKind; }
      out := Write(k, ByteString(bytes), now + ttl, now);
    }

    method CompareAndDelete(k: StorageKey, expected: nat, now: real) returns (out: Outcome)
      modifies this
      ensures (Seen(now), out) == Apply(old(Seen(now)), Op.CompareAndDelete(k, expected), now, maxEntries)
    {
      var entry := LiveEntry(k, now);
      if entry.None? || entry.value.revision != expected { return Nothing; }
      if !entry.value.value.ByteString? { return WrongKind; }
      entries := entries - {k};
      out := Deleted;
      assert Alive(entries, now) == old(Seen(now)).entries - {k};
    }

    method Increment(k: StorageKey, amount: int, ttl: real, now: real) returns (out: Outcome)
      requires 0.0 < ttl
      modifies this
      ensures (Seen(now), out) == Apply(old(Seen(now)), Op.Increment(k, amount, ttl), now, maxEntries)
    {
      hide Alive;
      var entry := LiveEntry(k, now);
      if entry.None? {
        var room := EnsureCapacity(k, now);
        if !room { return Full; }
        out := Write(k, Number(amount), now + ttl, now);
      } else if entry.value.value.Number? {
        out := Write(k, Number(entry.value.value.number + amount), now + ttl, now);
      } else {
        out := WrongKind;
      }
    }

    method Perform(op: Op, now: real) returns (out: Outcome)
      requires Proper(op)
      modifies this
      ensures (Seen(now), out) == Apply(old(Seen(now)), op, now, maxEntries)
    {
      hide Apply, Alive;
      match op
      case Get(k) => out := Get(k, now);
      case Create(k, bytes, ttl) => out := Create(k, bytes, ttl, now);
      case CompareAndSwap(k, expected, bytes, ttl) => out := CompareAndSwap(k, expected, bytes, ttl, now);
      case CompareAndDelete(k, expected) => out := CompareAndDelete(k, expected, now);
      case Increment(k, amount, ttl) => out := Increment(k, amount, ttl, now);
    }
  }

  /** Times to live are positive. */
  predicate Proper(op: Op) { op.Create? || op.CompareAndSwap? || op.Increment? ==> 0.0 < op.ttl }

  /** An expired entry stays expired while the clock does not go back. */
  lemma AliveLater(entries: map<StorageKey, Entry>, now: real, later: real)
    requires now <= later
    ensures Alive(Alive(entries, now), later) == Alive(entries, later)
  {}

  datatype Request = Request(op: Op, now: real)

  ghost predicate Timely(requests: seq<Request>) {
    && (forall i :: 0 <= i < |requests| ==> Proper(requests[i].op))
    && (forall i, j :: 0 <= i < j < |requests| ==> requests[i].now <= requests[j].now)
  }

  function EagerStore(requests: seq<Request>, capacity: nat): Store {
    if requests == [] then Store(map[], 0)
    else var last := requests[|requests| - 1];
         Eager(EagerStore(requests[..|requests| - 1], capacity), last.op, last.now, capacity).0
  }

  /** What the store that forgets at once answers to the last request. */
  function EagerOutcome(requests: seq<Request>, capacity: nat): Outcome
    requires requests != []
  {
    var last := requests[|requests| - 1];
    Eager(EagerStore(requests[..|requests| - 1], capacity), last.op, last.now, capacity).1
  }

  /** The lazy cache answers every request of every timely run as the eager store does,
      full or not. */
  method RunLazily(requests: seq<Request>, capacity: nat) returns (outcomes: seq<Outcome>)
    requires 0 < capacity && Timely(requests)
    ensures |outcomes| == |requests|
    ensures forall i :: 0 <= i < |requests| ==> outcomes[i] == EagerOutcome(requests[..i + 1], capacity)
  {
    hide Eager, Alive;
    var cache := new InMemoryAtomicCache(capacity);
    outcomes := [];
    ghost var now := 0.0;
    ghost var store := Store(map[], 0);
    while |outcomes| < |requests|
      invariant |outcomes| <= |requests| && cache.maxEntries == capacity && fresh(cache)
      invariant store == EagerStore(requests[..|outcomes|], capacity)
      invariant 0 < |outcomes| ==> now == requests[|outcomes| - 1].now && cache.Seen(now) == store
      invariant |outcomes| == 0 ==> cache.entries == map[] && cache.nextRevision == 0 && store == Store(map[], 0)
      invariant forall i :: 0 <= i < |outcomes| ==> outcomes[i] == EagerOutcome(requests[..i + 1], capacity)
    {
      var k := |outcomes|;
      var Request(op, at) := requests[k];
      SeenLater(cache.entries, cache.nextRevision, store, k == 0, now, at);
      EagerIsApply(store, op, at, capacity);
      assert requests[..k + 1][..k] == requests[..k];
      var out := cache.Perform(op, at);
      outcomes := outcomes + [out];
      store := cache.Seen(at);
      now := at;
    }
  }

  lemma SeenLater(entries: map<StorageKey, Entry>, revision: nat, s: Store, start: bool, now: real, at: real)
    requires start ==> entries == map[] && revision == 0 && s == Store(map[], 0)
    requires !start ==> now <= at && Store(Alive(entries, now), revision) == s
    ensures Store(Alive(entries, at), revision) == s.(entries := Alive(s.entries, at))
  {
    if !start { AliveLater(entries, now, at); }
  }

  lemma EagerIsApply(s: Store, op: Op, at: real, capacity: nat)
    ensures Eager(s, op, at, capacity) == Apply(s.(entries := Alive(s.entries, at)), op, at, capacity)
  {
    hide Apply;
  }
}
