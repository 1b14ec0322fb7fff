/** What an atomic store has answered decides what it answers next: a key holds what its
    last write put there, until that is deleted or its time is up. Nothing here looks at
    the store's state. */
module AtomicHistory {
  import opened Common
  import opened AtomicModel
  import opened MemoryAtomic

  // ----- reading the past -----

  function Ttl(op: Op): real {
    match op
    case Create(_, _, ttl) => ttl
    case CompareAndSwap(_, _, _, ttl) => ttl
    case Increment(_, _, ttl) => ttl
    case _ => 0.0
  }

  function Ending(e: Event): real { e.now + Ttl(e.op) }

  /** A write of this key that nothing has replaced or deleted, and no operation has seen
      expired. */
  ghost predicate Standing(past: seq<Event>, k: StorageKey, i: nat): (standing: bool)
    ensures standing ==> i < |past| && past[i].outcome.Written?
  {
    && i < |past| && past[i].op.key == k && past[i].outcome.Written?
    && forall m :: i < m < |past| ==> !Writes(past[m], k) && past[m].now < Ending(past[i])
  }

  ghost predicate Holds(past: seq<Event>, k: StorageKey, now: real, i: nat): (holds: bool)
    ensures holds ==> i < |past| && past[i].outcome.Written?
  {
    Standing(past, k, i) && now < Ending(past[i])
  }

  ghost predicate Has(past: seq<Event>, k: StorageKey, now: real) { exists i: nat :: Holds(past, k, now, i) }

  /** The answer of the write the key holds. */
  ghost function Held(past: seq<Event>, k: StorageKey, now: real): (out: Outcome)
    requires Has(past, k, now)
    ensures out.Written?
  {
    var i: nat :| Holds(past, k, now, i);
    past[i].outcome
  }

  ghost predicate Counts(past: seq<Event>, now: real, i: nat) {
    i < |past| && Holds(past, past[i].op.key, now, i)
  }

  /** How many keys hold something. */
  ghost function Size(past: seq<Event>, now: real): nat { |set i: nat | i < |past| && Counts(past, now, i)| }

  /** Written with a revision larger than any before. */
  ghost predicate WrittenAnew(past: seq<Event>, out: Outcome, value: Value) {
    && out.Written? && out.value == value
    && forall i :: 0 <= i < |past| && past[i].outcome.Written? ==> past[i].outcome.revision < out.revision
  }

  /** The answer that the past allows. */
  ghost predicate Lawful(past: seq<Event>, e: Event, capacity: nat) {
    var k := e.op.key;
    match e.op
    case Get(_) =>
      if !Has(past, k, e.now) then e.outcome == Nothing
      else
        var held := Held(past, k, e.now);
        e.outcome == if held.value.ByteString? then Found(held.value, held.revision) else WrongKind
    case Create(_, bytes, _) =>
      if Has(past, k, e.now) then e.outcome == Nothing
      else if Size(past, e.now) >= capacity then e.outcome == Full
      else WrittenAnew(past, e.outcome, ByteString(bytes))
    case CompareAndSwap(_, expected, bytes, _) =>
      if !Has(past, k, e.now) || Held(past, k, e.now).revision != expected then e.outcome == Nothing
      else if !Held(past, k, e.now).value.ByteString? then e.outcome == WrongKind
      else WrittenAnew(past, e.outcome, ByteString(bytes))
    case CompareAndDelete(_, expected) =>
      if !Has(past, k, e.now) || Held(past, k, e.now).revision != expected then e.outcome == Nothing
      else e.outcome == if Held(past, k, e.now).value.ByteString? then Deleted else WrongKind
    case Increment(_, amount, _) =>
      if !Has(past, k, e.now) then
        if Size(past, e.now) >= capacity then e.outcome == Full else WrittenAnew(past, e.outcome, Number(amount))
      else
        var held := Held(past, k, e.now);
        if held.value.Number? then WrittenAnew(past, e.outcome, Number(held.value.number + amount))
        else e.outcome == WrongKind
  }

  // ----- the store is what the past says -----

  ghost predicate Told(entries: map<StorageKey, Entry>, past: seq<Event>, k: StorageKey) {
    && (k in entries ==> exists i: nat :: Standing(past, k, i))
    && (forall i: nat :: Standing(past, k, i) ==>
          k in entries && entries[k] == Entry(past[i].outcome.value, past[i].outcome.revision, Ending(past[i])))
  }

  ghost predicate AllTold(s: Store, past: seq<Event>) {
    && (forall k :: Told(s.entries, past, k))
    && (forall i :: 0 <= i < |past| && past[i].outcome.Written? ==> past[i].outcome.revision <= s.lastRevision)
  }

  lemma StandingSnoc(past: seq<Event>, e: Event, k: StorageKey, i: nat)
    ensures Standing(past + [e], k, i) <==>
            if i == |past| then e.op.key == k && e.outcome.Written?
            else Standing(past, k, i) && !Writes(e, k) && e.now < Ending(past[i])
  {
    hide Writes, Ending;
    var more := past + [e];
    assert forall m :: 0 <= m < |past| ==> more[m] == past[m];
    if i < |past| && Standing(more, k, i) { assert more[|past|] == e; }
  }

  /** What a step does to one key shows in its answer. */
  lemma StepShows(s: Store, e: Event, capacity: nat, s': Store, k: StorageKey)
    requires Eager(s, e.op, e.now, capacity) == (s', e.outcome)
    ensures if e.op.key == k && e.outcome.Written? then
              k in s'.entries && s'.entries[k] == Entry(e.outcome.value, e.outcome.revision, Ending(e))
            else if e.op.key == k && e.outcome.Deleted? then k !in s'.entries
            else
              && (k in s'.entries <==> k in s.entries && e.now < s.entries[k].expiresAt)
              && (k in s'.entries ==> s'.entries[k] == s.entries[k])
    ensures s.lastRevision <= s'.lastRevision
    ensures e.outcome.Written? ==> s.lastRevision < e.outcome.revision <= s'.lastRevision
  {}

  lemma ToldNext(s: Store, past: seq<Event>, e: Event, capacity: nat, s': Store, k: StorageKey)
    requires Told(s.entries, past, k) && Eager(s, e.op, e.now, capacity) == (s', e.outcome)
    ensures Told(s'.entries, past + [e], k)
  {
    hide Eager, Standing, Ending;
    StepShows(s, e, capacity, s', k);
    forall i: nat ensures i == |past| || !Standing(past, k, i) || i < |past|
      ensures Standing(past + [e], k, i) ==>
                i == |past| || (Standing(past, k, i) && !Writes(e, k) && e.now < Ending(past[i]))
      ensures Standing(past, k, i) && !Writes(e, k) && e.now < Ending(past[i]) ==> Standing(past + [e], k, i)
      ensures i == |past| ==> (Standing(past + [e], k, i) <==> e.op.key == k && e.outcome.Written?)
    {
      StandingSnoc(past, e, k, i);
    }
    if e.op.key == k && e.outcome.Written? {
      assert Standing(past + [e], k, |past|);
    } else if k in s'.entries {
      var i: nat :| Standing(past, k, i);
      assert Standing(past + [e], k, i);
    }
  }

  lemma AllToldNext(s: Store, past: seq<Event>, e: Event, capacity: nat, s': Store)
    requires AllTold(s, past) && Eager(s, e.op, e.now, capacity) == (s', e.outcome)
    ensures AllTold(s', past + [e])
  {
    hide Eager, Told;
    forall k ensures Told(s'.entries, past + [e], k) { ToldNext(s, past, e, capacity, s', k); }
    StepShows(s, e, capacity, s', e.op.key);
  }

  lemma {:induction false} RunTold(capacity: nat, stores: seq<Store>, events: seq<Event>, n: nat)
    requires IsRun(capacity, stores, events) && n < |stores|
    ensures AllTold(stores[n], events[..n])
  {
    hide Eager, AllTold;
    if n == 0 {
      NothingTold();
    } else {
      RunTold(capacity, stores, events, n - 1);
      assert events[..n] == events[..n - 1] + [events[n - 1]];
      AllToldNext(stores[n - 1], events[..n - 1], events[n - 1], capacity, stores[n - 1 + 1]);
    }
  }

  lemma NothingTold()
    ensures AllTold(Store(map[], 0), [])
  {}

  // ----- the answer is lawful -----

  lemma Known(s: Store, past: seq<Event>, k: StorageKey, now: real)
    requires AllTold(s, past)
    ensures k in Alive(s.entries, now) <==> Has(past, k, now)
    ensures k in Alive(s.entries, now) ==>
              Held(past, k, now) == Written(s.entries[k].value, s.entries[k].revision)
  {
    hide Standing, Ending;
    assert Told(s.entries, past, k);
    if k in Alive(s.entries, now) {
      var i: nat :| Standing(past, k, i);
      assert Holds(past, k, now, i);
    }
  }

  lemma OneEach(past: seq<Event>, k: StorageKey, i: nat, j: nat)
    requires Standing(past, k, i) && Standing(past, k, j)
    ensures i == j
  {}

  lemma SizeKnown(s: Store, past: seq<Event>, now: real)
    requires AllTold(s, past)
    ensures |Alive(s.entries, now)| == Size(past, now)
  {
    hide AllTold, Standing, Ending, Alive;
    var live := Alive(s.entries, now);
    var writes := set i: nat | i < |past| && Counts(past, now, i);
    forall k ensures k in live <==> Has(past, k, now) { Known(s, past, k, now); }
    var at := map k | k in live :: var i: nat :| Holds(past, k, now, i); i;
    forall k | k in live ensures at[k] in writes {
      assert Holds(past, k, now, at[k]);
      KeyOfHeld(past, k, now, at[k]);
    }
    forall i | i in writes ensures exists k :: k in live && at[k] == i {
      var k := past[i].op.key;
      assert Holds(past, k, now, i);
      assert Has(past, k, now);
      OneEach(past, k, i, at[k]);
    }
    forall k, l | k in live.Keys && l in live.Keys && k != l ensures at[k] != at[l] {
      assert Holds(past, k, now, at[k]) && Holds(past, l, now, at[l]);
      KeyOfHeld(past, k, now, at[k]);
      KeyOfHeld(past, l, now, at[l]);
    }
    NoMoreValues(live.Keys, writes, at);
    NoFewerValues(live.Keys, writes, at);
  }

  lemma KeyOfHeld(past: seq<Event>, k: StorageKey, now: real, i: nat)
    requires Holds(past, k, now, i)
    ensures past[i].op.key == k && Counts(past, now, i)
  {}

  lemma AnswerLawful(s: Store, past: seq<Event>, e: Event, capacity: nat, s': Store)
    requires AllTold(s, past) && Eager(s, e.op, e.now, capacity) == (s', e.outcome)
    ensures Lawful(past, e, capacity)
  {
    hide AllTold, Has, Held, Size, Alive;
    Known(s, past, e.op.key, e.now);
    SizeKnown(s, past, e.now);
    AliveKeeps(s.entries, e.op.key, e.now);
    Revisions(s, past);
  }

  lemma AliveKeeps(entries: map<StorageKey, Entry>, k: StorageKey, now: real)
    ensures k in Alive(entries, now) ==> k in entries && Alive(entries, now)[k] == entries[k]
  {}

  lemma Revisions(s: Store, past: seq<Event>)
    requires AllTold(s, past)
    ensures forall i :: 0 <= i < |past| && past[i].outcome.Written? ==> past[i].outcome.revision <= s.lastRevision
  {}

  /** In every run every answer is the one the earlier answers allow: reads give what the
      last write put there, increments add to it, and nothing outlives its time. */
  lemma EveryAnswerIsLawful(capacity: nat, stores: seq<Store>, events: seq<Event>, n: nat)
    requires IsRun(capacity, stores, events) && n < |events|
    ensures Lawful(events[..n], events[n], capacity)
  {
    hide Eager, AllTold, Lawful;
    RunTold(capacity, stores, events, n);
    assert Eager(stores[n], events[n].op, events[n].now, capacity) == (stores[n + 1], events[n].outcome);
    AnswerLawful(stores[n], events[..n], events[n], capacity, stores[n + 1]);
  }

  function Logged(requests: seq<Request>, outcomes: seq<Outcome>): (log: seq<Event>)
    requires |requests| == |outcomes|
    ensures |log| == |requests|
  {
    seq(|requests|, i requires 0 <= i < |requests| => Event(requests[i].op, requests[i].now, outcomes[i]))
  }

  /** The same of the lazy cache itself, in every timely run. */
  method RunLawfully(requests: seq<Request>, capacity: nat) returns (outcomes: seq<Outcome>)
    requires 0 < capacity && Timely(requests)
    ensures |outcomes| == |requests|
    ensures var log := Logged(requests, outcomes); forall n :: 0 <= n < |log| ==> Lawful(log[..n], log[n], capacity)
  {
    hide Eager, Lawful;
    outcomes := RunLazily(requests, capacity);
    ghost var log := Logged(requests, outcomes);
    ghost var stores := seq(|requests| + 1, i requires 0 <= i <= |requests| => EagerStore(requests[..i], capacity));
    forall i | 0 <= i < |log|
      ensures Eager(stores[i], log[i].op, log[i].now, capacity) == (stores[i + 1], log[i].outcome)
    {
      assert requests[..i + 1][..i] == requests[..i];
    }
    forall n | 0 <= n < |log| ensures Lawful(log[..n], log[n], capacity) {
      EveryAnswerIsLawful(capacity, stores, log, n);
    }
  }
}
