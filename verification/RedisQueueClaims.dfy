/** The Redis queue's recovery: the claim script with its resumable scan. */
module RedisQueueClaims {
  import opened Common
  import opened RedisQueueModel
  import opened RedisQueueSteps

  const SCAN_LIMIT: nat := 100

  /** Redis's view of how long each pending entry has been idle, and of how long each
      consumer may hold one. */
  datatype Idleness = Idleness(idle: map<nat, int>, timeouts: map<string, int>, standard: int)

  predicate DueEntry(db: Keys, entry: nat, now: int) { entry in db.visible && db.visible[entry] <= now }

  /** Read, never issued, and held for longer than its reader said it would. */
  predicate IdleEntry(db: Keys, i: Idleness, entry: nat) {
    && entry in db.pending && entry !in db.visible && entry in i.idle
    && i.idle[entry] >= if db.pending[entry] in i.timeouts then i.timeouts[db.pending[entry]] else i.standard
  }

  predicate After(cursor: Option<nat>, entry: nat) { cursor.None? || entry > cursor.value }

  datatype Outcome =
    | ScanMore
    | NoClaim
    | Got(entry: nat, identity: string, attempt: nat, payload: Bytes, maximum: nat, deadline: int, previous: string)

  /** `xpending` over a range: the first pending entries from a point, in order. */
  method Window(pending: map<nat, string>, from: nat, limit: nat) returns (w: seq<nat>)
    ensures |w| <= limit
    ensures forall k :: 0 <= k < |w| ==> w[k] in pending && from <= w[k]
    ensures forall j, k :: 0 <= j < k < |w| ==> w[j] < w[k]
    ensures forall e :: e in pending && from <= e && e !in w ==> |w| == limit && forall k :: 0 <= k < |w| ==> w[k] < e
  {
    w := [];
    var rest := set e | e in pending && from <= e;
    while |w| < limit && rest != {}
      invariant |w| <= limit
      invariant forall e :: e in rest <==> e in pending && from <= e && e !in w
      invariant forall k :: 0 <= k < |w| ==> w[k] in pending && from <= w[k]
      invariant forall j, k :: 0 <= j < k < |w| ==> w[j] < w[k]
      invariant forall e, k :: e in rest && 0 <= k < |w| ==> w[k] < e
    {
      var least := First(rest);
      w := w + [least];
      rest := rest - {least};
    }
  }

  method First(entries: set<nat>) returns (least: nat)
    requires entries != {}
    ensures least in entries && forall e :: e in entries ==> least <= e
  {
    least :| least in entries;
    var rest := entries - {least};
    while rest != {}
      invariant least in entries && rest <= entries
      invariant forall e :: e in entries && e !in rest ==> least <= e
      decreases rest
    {
      var e :| e in rest;
      if e < least { least := e; }
      rest := rest - {e};
    }
  }

  /** The earliest deadline that has passed, if any. */
  method FirstDue(db: Keys, now: int) returns (entry: Option<nat>)
    ensures entry.Some? ==> DueEntry(db, entry.value, now)
    ensures entry.Some? ==> forall e :: e in db.visible ==> db.visible[entry.value] <= db.visible[e]
    ensures entry.None? ==> forall e :: !DueEntry(db, e, now)
  {
    entry := None;
    var rest := db.visible.Keys;
    while rest != {}
      invariant rest <= db.visible.Keys
      invariant entry.Some? ==> DueEntry(db, entry.value, now)
      invariant forall e :: e in db.visible && e !in rest ==>
        if entry.Some? then db.visible[entry.value] <= db.visible[e] else db.visible[e] > now
      invariant entry.Some? ==> forall e :: e in db.visible && e !in rest ==> db.visible[entry.value] <= db.visible[e]
      decreases rest
    {
      var e :| e in rest;
      if db.visible[e] <= now && (entry.None? || db.visible[e] < db.visible[entry.value]) { entry := Some(e); }
      rest := rest - {e};
    }
    assert entry.None? ==> forall e :: e in db.visible ==> db.visible[e] > now;
  }

  /** Nothing idle after the cursor, up to a bound. */
  ghost predicate NothingIdle(db: Keys, i: Idleness, cursor: Option<nat>, upTo: Option<nat>) {
    forall e: nat :: After(cursor, e) && (upTo.None? || e <= upTo.value) ==> !IdleEntry(db, i, e)
  }

  /** One stretch of the scan for entries that were read and never issued. */
  method Scan(db: Keys, i: Idleness, cursor: Option<nat>) returns (entry: Option<nat>, next: Option<nat>)
    ensures entry.Some? ==> IdleEntry(db, i, entry.value) && next.None?
    ensures entry.None? && next.None? ==> NothingIdle(db, i, cursor, None)
    ensures next.Some? ==> next.value in db.pending && After(cursor, next.value) && NothingIdle(db, i, cursor, next)
  {
    var window := Window(db.pending, if cursor.Some? then cursor.value else 0, SCAN_LIMIT);
    var k := if cursor.Some? && |window| > 0 && window[0] == cursor.value then 1 else 0;
    entry, next := None, None;
    while k < |window|
      invariant 0 <= k <= |window|
      invariant forall j :: 0 <= j < k ==> !After(cursor, window[j]) || !IdleEntry(db, i, window[j])
    {
      if IdleEntry(db, i, window[k]) { return Some(window[k]), None; }
      k := k + 1;
    }
    if |window| == SCAN_LIMIT {
      next := Some(window[|window| - 1]);
      assert window[0] < window[|window| - 1];
    }
    forall e: nat | After(cursor, e) && (next.None? || e <= next.value) ensures !IdleEntry(db, i, e) {
      if e in db.pending { assert e in window; }
    }
  }

  method Claim(db0: Keys, ghost sent: map<string, Sent>, ghost fate: map<string, Fate>,
               i: Idleness, cursor0: Option<nat>, consumer: string, token: string, now: int, timeout: nat)
    returns (db: Keys, cursor: Option<nat>, out: Outcome, ghost taken: Option<nat>)
    requires Coherent(db0, sent, fate)
    ensures taken.Some? ==> DueEntry(db0, taken.value, now) || IdleEntry(db0, i, taken.value)
    ensures taken.Some? ==>
              && taken.value in db0.pending && taken.value in db0.stream && db0.stream[taken.value] in db0.payloads
              && db == Claimed(db0, taken.value, consumer, token, now + timeout)
              && out.Got? == !Exhausted(db0, db0.stream[taken.value])
              && (out.Got? ==> Coherent(db, sent, fate))
              && (!out.Got? ==> out.NoClaim? && Coherent(db, sent, fate[db0.stream[taken.value] :=
                                                   DeadLettered(AttemptsOf(db0, db0.stream[taken.value]))]))
    ensures out.Got? ==>
              && taken == Some(out.entry) && out.identity == db0.stream[out.entry] && out.identity in sent
              && out.attempt == AttemptsOf(db0, out.identity) + 1 <= out.maximum == sent[out.identity].maximum
              && out.payload == sent[out.identity].payload && out.previous == db0.pending[out.entry]
              && out.deadline == now + timeout && db.pending == db0.pending[out.entry := consumer]
              && InForce(db0, db, out.entry, Receipt(token, out.identity), out.attempt, now + timeout)
    ensures taken.Some? && !out.Got? ==> OneLetterMore(db0, db, taken.value, db0.stream[taken.value])
    ensures taken.None? ==> db == db0 && !out.Got? && forall e :: !DueEntry(db0, e, now)
    ensures taken.None? && out.NoClaim? ==> NothingIdle(db0, i, cursor0, None)
    ensures out.ScanMore? ==> cursor.Some? && cursor.value in db0.pending && After(cursor0, cursor.value)
    ensures out.ScanMore? ==> NothingIdle(db0, i, cursor0, cursor) && taken.None?
  {
    hide Coherent, NothingIdle, IdleEntry, Claimed;
    var entry := FirstDue(db0, now);
    db, cursor, taken := db0, cursor0, None;
    if entry.None? {
      entry, cursor := Scan(db0, i, cursor0);
      if entry.None? {
        return db0, cursor, if cursor.Some? then ScanMore else NoClaim, None;
      }
      IdleIsPending(db0, i, entry.value);
    } else {
      DueIsPending(db0, sent, fate, entry.value);
    }
    taken := entry;
    db, out := Take(db0, sent, fate, entry.value, consumer, token, now, timeout);
  }

  lemma IdleIsPending(db: Keys, i: Idleness, entry: nat)
    requires IdleEntry(db, i, entry)
    ensures entry in db.pending
  {}

  lemma DueIsPending(db: Keys, sent: map<string, Sent>, fate: map<string, Fate>, entry: nat)
    requires Coherent(db, sent, fate) && entry in db.visible
    ensures entry in db.pending
  {
    hide OnePlace, Kept, Attempted, LettersRight;
    assert entry in db.visible.Keys;
  }

  /** The claim script from `xclaim` on: the branches for an entry that is gone, or has
      lost its payload, are never taken. */
  method Take(db0: Keys, ghost sent: map<string, Sent>, ghost fate: map<string, Fate>,
              entry: nat, consumer: string, token: string, now: int, timeout: nat)
    returns (db: Keys, out: Outcome)
    requires Coherent(db0, sent, fate) && entry in db0.pending
    ensures entry in db0.stream && db0.stream[entry] in db0.payloads
    ensures db == Claimed(db0, entry, consumer, token, now + timeout)
    ensures !out.ScanMore? && out.Got? == !Exhausted(db0, db0.stream[entry])
    ensures out.Got? ==>
              && out.entry == entry && out.identity == db0.stream[entry] && out.identity in sent
              && out.attempt == AttemptsOf(db0, out.identity) + 1 <= out.maximum == sent[out.identity].maximum
              && out.payload == sent[out.identity].payload && out.previous == db0.pending[entry]
              && Coherent(db, sent, fate)
              && out.deadline == now + timeout && db.pending == db0.pending[entry := consumer]
              && InForce(db0, db, entry, Receipt(token, out.identity), out.attempt, now + timeout)
    ensures !out.Got? ==>
              && Coherent(db, sent, fate[db0.stream[entry] := DeadLettered(AttemptsOf(db0, db0.stream[entry]))])
              && OneLetterMore(db0, db, entry, db0.stream[entry])
  {
    hide Coherent;
    PendingInStream(db0, sent, fate, entry);
    OwnIdentity(db0, sent, fate, entry);
    KeptKeys(db0, sent, fate);
    var previous := db0.pending[entry];
    var identity := db0.stream[entry];
    var payload, maximum := db0.payloads[identity], db0.maximums[identity];
    var attempt := db0.attempts[identity];
    if attempt >= maximum {
      BuriedCoherent(db0, sent, fate, entry);
      db := db0.(pending := db0.pending - {entry}, stream := db0.stream - {entry});
      db := db.(receipts := db.receipts - {entry}, visible := db.visible - {entry});
      db := db.(dead := db.dead + [Letter(identity, payload, attempt)]);
      db := db.(payloads := db.payloads - {identity}, maximums := db.maximums - {identity},
                attempts := db.attempts - {identity});
      return db, NoClaim;
    }
    HandedCoherent(db0, sent, fate, entry, consumer, token, now + timeout);
    db := db0.(pending := db0.pending[entry := consumer]);
    db := db.(attempts := db.attempts[identity := attempt + 1]);
    db := db.(receipts := db.receipts[entry := Receipt(token, identity)],
        visible := db.visible[entry := now + timeout]);
    out := Got(entry, identity, attempt + 1, payload, maximum, now + timeout, previous);
  }

  /** The client repeats the script until the scan ends. From the start of the pending
      entries it ends without a claim only when nothing can be claimed. */
  method ClaimExpired(db0: Keys, ghost sent: map<string, Sent>, ghost fate: map<string, Fate>,
                      i: Idleness, cursor0: Option<nat>, consumer: string, token: string, now: int, timeout: nat)
    returns (db: Keys, cursor: Option<nat>, out: Outcome, ghost taken: Option<nat>)
    requires Coherent(db0, sent, fate)
    ensures !out.ScanMore?
    ensures taken.Some? ==>
              && taken.value in db0.pending && taken.value in db0.stream && db0.stream[taken.value] in db0.payloads
              && (DueEntry(db0, taken.value, now) || IdleEntry(db0, i, taken.value))
              && db == Claimed(db0, taken.value, consumer, token, now + timeout)
    ensures taken.None? ==> db == db0 && (forall e :: !DueEntry(db0, e, now)) && NothingIdle(db0, i, cursor0, None)
  {
    hide Coherent, IdleEntry, Claimed;
    db, cursor, out, taken := Claim(db0, sent, fate, i, cursor0, consumer, token, now, timeout);
    while out.ScanMore?
      invariant out.ScanMore? ==> db == db0 && taken.None? && cursor.Some? && NothingIdle(db0, i, cursor0, cursor)
      invariant taken.Some? ==>
        && taken.value in db0.pending && taken.value in db0.stream && db0.stream[taken.value] in db0.payloads
        && (DueEntry(db0, taken.value, now) || IdleEntry(db0, i, taken.value))
        && db == Claimed(db0, taken.value, consumer, token, now + timeout)
      invariant taken.None? && !out.ScanMore? ==>
        db == db0 && (forall e :: !DueEntry(db0, e, now)) && NothingIdle(db0, i, cursor0, None)
      decreases Ahead(db0.pending, cursor), out.ScanMore?
    {
      ghost var before := cursor;
      db, cursor, out, taken := Claim(db0, sent, fate, i, cursor, consumer, token, now, timeout);
      if out.ScanMore? { FewerAhead(db0.pending, before, cursor); }
      else { cursor := None; }
    }
  }

  function Ahead(pending: map<nat, string>, cursor: Option<nat>): set<nat> {
    set e | e in pending && cursor.Some? && e > cursor.value
  }

  lemma FewerAhead(pending: map<nat, string>, before: Option<nat>, cursor: Option<nat>)
    requires before.Some? && cursor.Some? && cursor.value in pending && cursor.value > before.value
    ensures Ahead(pending, cursor) < Ahead(pending, before)
  {
    assert cursor.value in Ahead(pending, before);
  }
}
