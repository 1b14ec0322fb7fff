/** The Redis schedule scripts over their nine keys: one hash a record, a score
    index and a lexicographic index of the records that may be listed, a claim
    hash with an expiry, a sorted set of claims awaiting recovery, an index of
    identities, and three counters. A script is one atomic step: it takes the
    keys, changes them command by command, and hands them back.

    The per-owner keys are merged: `due`, `lex`, `claims` and `index` hold every
    owner's entries, and a script reads its owner's slice. */
module RedisSchedules {
  import opened Common
  import opened Recurrence
  import opened ScheduleModel

  /** A member of the lexicographic index, known by what it was encoded from. */
  datatype Member = Member(due: real, identity: string)

  datatype Hash = Hash(record: Record, member: Member)

  datatype Slot = Slot(owner: string, member: Member)

  datatype Keys = Keys(
    records: map<Key, Hash>,
    due: map<Key, real>,
    lex: set<Slot>,
    claimHashes: map<Key, ClaimState>,
    claims: map<Key, real>,
    index: map<Key, Key>,
    revision: nat,
    fencing: nat,
    count: nat)

  function Empty(): Keys { Keys(map[], map[], {}, map[], map[], map[], 0, 0, 0) }

  // ----- coherence -----

  ghost predicate Own(k: Key, h: Hash) {
    h.record.identity == k.identity && h.member == Member(h.record.due, k.identity)
  }

  /** The identity index and the counter match the records exactly. */
  ghost predicate RecordsCoherent(records: map<Key, Hash>, index: map<Key, Key>, count: nat) {
    && index.Keys == records.Keys
    && (forall k :: k in index ==> index[k] == k)
    && count == |records|
    && (forall k :: k in records ==> Own(k, records[k]))
  }

  function SlotKey(s: Slot): Key { Key(s.owner, s.member.identity) }

  function SlotOf(k: Key, h: Hash): Slot { Slot(k.owner, h.member) }

  /** The two indexes list the same records, each under its own member only. */
  ghost predicate IndexesCoherent(records: map<Key, Hash>, due: map<Key, real>, lex: set<Slot>) {
    && (forall k :: k in due ==> DueListed(records, due, lex, k))
    && (forall s :: s in lex ==> SlotListed(records, due, s))
  }

  predicate DueListed(records: map<Key, Hash>, due: map<Key, real>, lex: set<Slot>, k: Key) {
    k in due && k in records && due[k] == records[k].record.due && SlotOf(k, records[k]) in lex
  }

  predicate SlotListed(records: map<Key, Hash>, due: map<Key, real>, s: Slot) {
    SlotKey(s) in due && SlotKey(s) in records && records[SlotKey(s)].member == s.member
  }

  /** A claim hash exists until its expiry. */
  predicate Exists(hashes: map<Key, ClaimState>, k: Key, now: real) {
    k in hashes && hashes[k].expiresAt > now
  }

  /** Every record outside the indexes awaits recovery, its claim expiring no later;
      a live claim keeps its record outside them and fixes its revision. */
  ghost predicate ClaimsCoherent(records: map<Key, Hash>, due: map<Key, real>, claims: map<Key, real>,
                                 hashes: map<Key, ClaimState>, now: real) {
    && claims.Keys <= records.Keys && hashes.Keys <= records.Keys
    && (forall k :: k in records && k !in due ==> k in claims && k in hashes && hashes[k].expiresAt <= claims[k])
    && (forall k :: Exists(hashes, k, now) && k in records ==>
          k !in due && hashes[k].revision == records[k].record.revision)
  }

  ghost predicate Coherent(db: Keys, now: real) {
    && RecordsCoherent(db.records, db.index, db.count)
    && IndexesCoherent(db.records, db.due, db.lex)
    && ClaimsCoherent(db.records, db.due, db.claims, db.claimHashes, now)
  }

  function Plain(hashes: map<Key, Hash>): map<Key, Record> {
    map k | k in hashes :: hashes[k].record
  }

  /** What an observer sees: a record is claimed while its claim hash exists. */
  function Seen(db: Keys, now: real): View {
    View(Plain(db.records), Alive(db.claimHashes, now), db.revision, db.fencing)
  }

  /** What no observer sees: the recovery entries with their scores, and the records
      that are outside the indexes. */
  datatype Waiting = Waiting(scores: map<Key, real>, unlisted: set<Key>)

  function Waits(db: Keys): Waiting { Waiting(db.claims, db.records.Keys - db.due.Keys) }

  function Indexed(w: Waiting, k: Key): Waiting { w.(unlisted := w.unlisted - {k}) }

  function Freed(w: Waiting, k: Key): Waiting { Waiting(w.scores - {k}, w.unlisted - {k}) }

  function Withdrawn(w: Waiting, k: Key, score: real): Waiting { Waiting(w.scores[k := score], w.unlisted + {k}) }

  /** Time alone never breaks coherence: it only lets claims expire. */
  lemma CoherentLater(db: Keys, now: real, later: real)
    requires Coherent(db, now) && now <= later
    ensures Coherent(db, later) && Seen(db, later) == At(Seen(db, now), later)
  {
    hide ClaimsCoherent, Alive, Plain;
    hide RecordsCoherent, IndexesCoherent;
    AliveLater(db.claimHashes, now, later);
    ClaimsLater(db.records, db.due, db.claims, db.claimHashes, now, later);
  }

  lemma ClaimsLater(records: map<Key, Hash>, due: map<Key, real>, claims: map<Key, real>,
                    hashes: map<Key, ClaimState>, now: real, later: real)
    requires ClaimsCoherent(records, due, claims, hashes, now) && now <= later
    ensures ClaimsCoherent(records, due, claims, hashes, later)
  {}

  lemma LookedRecords(records: map<Key, Hash>, index: map<Key, Key>, count: nat, k: Key)
    requires RecordsCoherent(records, index, count)
    ensures k in Plain(records) <==> k in records
    ensures k in records ==> Plain(records)[k] == records[k].record && Own(k, records[k])
    ensures k in records ==> k in index && index[k] == k && index[k := k] == index
    ensures |Plain(records)| == count
  {
    assert Plain(records).Keys == records.Keys;
  }

  lemma LookedClaims(db: Keys, k: Key, now: real)
    requires IndexesCoherent(db.records, db.due, db.lex)
    requires ClaimsCoherent(db.records, db.due, db.claims, db.claimHashes, now)
    ensures k in Alive(db.claimHashes, now) <==> Exists(db.claimHashes, k, now)
    ensures k !in db.records ==> !Exists(db.claimHashes, k, now) && k !in db.due && k !in db.claims
    ensures Exists(db.claimHashes, k, now) ==> k !in db.due
  {}

  /** How the view's two maps answer what a script asks of its keys. */
  lemma Looked(db: Keys, k: Key, now: real)
    requires Coherent(db, now)
    ensures var v := Seen(db, now);
            && (k in v.records <==> k in db.records) && (k in db.records ==> v.records[k] == db.records[k].record)
            && (k in v.claims <==> Exists(db.claimHashes, k, now))
            && |v.records| == db.count
            && (k in db.records ==>
                  Own(k, db.records[k]) && k in db.index && db.index[k] == k && db.index[k := k] == db.index)
            && (k !in db.records ==> !Exists(db.claimHashes, k, now) && k !in db.due && k !in db.claims)
            && (Exists(db.claimHashes, k, now) ==> k !in db.due)
  {
    hide RecordsCoherent, IndexesCoherent, ClaimsCoherent, Plain, Alive;
    LookedRecords(db.records, db.index, db.count, k);
    LookedClaims(db, k, now);
  }

  // ----- what one command sequence does to each part -----

  lemma PutRecord(records: map<Key, Hash>, index: map<Key, Key>, count: nat, k: Key, h: Hash)
    requires RecordsCoherent(records, index, count) && Own(k, h)
    ensures RecordsCoherent(records[k := h], index[k := k], if k in records then count else count + 1)
    ensures Plain(records[k := h]) == Plain(records)[k := h.record]
  {}

  lemma DropRecord(records: map<Key, Hash>, index: map<Key, Key>, count: nat, k: Key)
    requires RecordsCoherent(records, index, count) && k in records
    ensures count > 0 && RecordsCoherent(records - {k}, index - {k}, count - 1)
    ensures Plain(records - {k}) == Plain(records) - {k}
  {
    assert records.Keys == (records - {k}).Keys + {k};
  }

  lemma PutIndexed(db: Keys, k: Key, h: Hash)
    requires RecordsCoherent(db.records, db.index, db.count) && IndexesCoherent(db.records, db.due, db.lex) && Own(k, h)
    ensures k in db.records ==>
              IndexesCoherent(db.records[k := h], db.due[k := h.record.due],
                  db.lex - {SlotOf(k, db.records[k])} + {SlotOf(k, h)})
    ensures k !in db.due ==> IndexesCoherent(db.records[k := h], db.due[k := h.record.due], db.lex + {SlotOf(k, h)})
  {
    hide RecordsCoherent, IndexesCoherent;
    if k in db.records { ReplaceIndexed(db, k, h); }
    if k !in db.due { AddIndexed(db, k, h); }
  }

  /** A slot of the index belongs to the record with its identity, and to no other. */
  lemma SlotsApart(db: Keys, k: Key, s: Slot)
    requires RecordsCoherent(db.records, db.index, db.count) && IndexesCoherent(db.records, db.due, db.lex) &&
              s in db.lex
    ensures SlotListed(db.records, db.due, s) &&
              (k in db.records ==> (SlotKey(s) == k <==> s == SlotOf(k, db.records[k])))
  {
    assert SlotListed(db.records, db.due, s);
    assert Own(SlotKey(s), db.records[SlotKey(s)]);
    if k in db.records { assert Own(k, db.records[k]); }
  }

  lemma DueSlotsApart(db: Keys, k: Key, j: Key)
    requires RecordsCoherent(db.records, db.index, db.count) && IndexesCoherent(db.records, db.due, db.lex)
    requires j in db.due && j != k
    ensures DueListed(db.records, db.due, db.lex, j)
    ensures k in db.records ==> SlotOf(j, db.records[j]) != SlotOf(k, db.records[k])
  {
    assert Own(j, db.records[j]);
    if k in db.records { assert Own(k, db.records[k]); }
  }

  lemma ReplaceIndexed(db: Keys, k: Key, h: Hash)
    requires RecordsCoherent(db.records, db.index, db.count) && IndexesCoherent(db.records, db.due, db.lex) && Own(k, h)
    requires k in db.records
    ensures IndexesCoherent(db.records[k := h], db.due[k := h.record.due],
                            db.lex - {SlotOf(k, db.records[k])} + {SlotOf(k, h)})
  {
    var lex := db.lex - {SlotOf(k, db.records[k])} + {SlotOf(k, h)};
    var records, due := db.records[k := h], db.due[k := h.record.due];
    forall s | s in lex ensures SlotListed(records, due, s) { if s in db.lex { SlotsApart(db, k, s); } }
    forall j | j in due ensures DueListed(records, due, lex, j) { if j != k { DueSlotsApart(db, k, j); } }
  }

  lemma AddIndexed(db: Keys, k: Key, h: Hash)
    requires RecordsCoherent(db.records, db.index, db.count) && IndexesCoherent(db.records, db.due, db.lex) && Own(k, h)
    requires k !in db.due
    ensures IndexesCoherent(db.records[k := h], db.due[k := h.record.due], db.lex + {SlotOf(k, h)})
  {
    var lex := db.lex + {SlotOf(k, h)};
    var records, due := db.records[k := h], db.due[k := h.record.due];
    forall s | s in lex ensures SlotListed(records, due, s) { if s in db.lex { SlotsApart(db, k, s); } }
    forall j | j in due ensures DueListed(records, due, lex, j) { if j != k { DueSlotsApart(db, k, j); } }
  }

  lemma DropIndexed(db: Keys, k: Key)
    requires RecordsCoherent(db.records, db.index, db.count) && IndexesCoherent(db.records, db.due, db.lex) &&
              k in db.records
    ensures IndexesCoherent(db.records, db.due - {k}, db.lex - {SlotOf(k, db.records[k])})
    ensures IndexesCoherent(db.records - {k}, db.due - {k}, db.lex - {SlotOf(k, db.records[k])})
  {
    var lex := db.lex - {SlotOf(k, db.records[k])};
    forall s | s in lex
      ensures SlotListed(db.records, db.due - {k}, s) && SlotListed(db.records - {k}, db.due - {k}, s)
    {
      SlotsApart(db, k, s);
    }
    forall j | j in db.due - {k}
      ensures DueListed(db.records, db.due - {k}, lex, j) && DueListed(db.records - {k}, db.due - {k}, lex, j)
    {
      DueSlotsApart(db, k, j);
    }
  }

  lemma PutClaimed(records: map<Key, Hash>, due: map<Key, real>, claims: map<Key, real>,
                   hashes: map<Key, ClaimState>, now: real, k: Key, h: Hash, at: real)
    requires ClaimsCoherent(records, due, claims, hashes, now)
    ensures !Exists(hashes, k, now) ==> ClaimsCoherent(records[k := h], due[k := at], claims, hashes, now)
    ensures !Exists(hashes, k, now) ==> ClaimsCoherent(records[k := h], due[k := at], claims - {k}, hashes, now)
    ensures ClaimsCoherent(records[k := h], due[k := at], claims - {k}, hashes - {k}, now)
  {}

  lemma DropClaimed(records: map<Key, Hash>, due: map<Key, real>, claims: map<Key, real>,
                    hashes: map<Key, ClaimState>, now: real, k: Key)
    requires ClaimsCoherent(records, due, claims, hashes, now)
    ensures ClaimsCoherent(records - {k}, due - {k}, claims - {k}, hashes - {k}, now)
  {}

  lemma AliveDrop(hashes: map<Key, ClaimState>, k: Key, now: real)
    ensures Alive(hashes - {k}, now) == Alive(hashes, now) - {k}
  {}

  lemma AlivePut(hashes: map<Key, ClaimState>, k: Key, c: ClaimState, now: real)
    requires c.expiresAt > now
    ensures Alive(hashes[k := c], now) == Alive(hashes, now)[k := c]
  {}

  // ----- scripts -----

  method Create(db0: Keys, key: Key, payload: Bytes, at: real, interval: Option<Interval>, now: real, maximum: nat)
    returns (db: Keys, out: Outcome)
    requires Coherent(db0, now)
    ensures Coherent(db, now)
    ensures (Seen(db, now), out) == ScheduleModel.Create(Seen(db0, now), key, payload, at, interval, maximum)
    ensures Waits(db) == if out.Stored? then Indexed(Waits(db0), key) else Waits(db0)
  {
    hide RecordsCoherent, IndexesCoherent, ClaimsCoherent, Plain, Alive;
    Looked(db0, key, now);
    if key in db0.records { return db0, Refused; }
    if db0.count >= maximum { return db0, Full; }
    var revision := db0.revision + 1;
    var h := Hash(Record(key.identity, revision, payload, at, interval), Member(at, key.identity));
    var records := db0.records[key := h];
    var index := db0.index[key := key];
    var due := db0.due[key := at];
    var lex := db0.lex + {SlotOf(key, h)};
    var count := db0.count + 1;
    db := db0.(revision := revision, records := records, index := index, due := due, lex := lex, count := count);
    out := Stored(h.record);
    PutRecord(db0.records, db0.index, db0.count, key, h);
    PutIndexed(db0, key, h);
    PutClaimed(db0.records, db0.due, db0.claims, db0.claimHashes, now, key, h, at);
  }

  method Update(db0: Keys, key: Key, expected: nat, payload: Bytes, at: real, interval: Option<Interval>, now: real)
    returns (db: Keys, out: Outcome)
    requires Coherent(db0, now)
    ensures Coherent(db, now)
    ensures (Seen(db, now), out) == ScheduleModel.Update(Seen(db0, now), key, expected, payload, at, interval)
    ensures Waits(db) == if out.Stored? then Indexed(Waits(db0), key) else Waits(db0)
  {
    hide RecordsCoherent, IndexesCoherent, ClaimsCoherent, Plain, Alive;
    Looked(db0, key, now);
    if Exists(db0.claimHashes, key, now) { return db0, Refused; }
    if key !in db0.records || db0.records[key].record.revision != expected { return db0, Refused; }
    var previous := db0.records[key];
    var revision := db0.revision + 1;
    var h := Hash(Record(previous.record.identity, revision, payload, at, interval), Member(at, key.identity));
    var records := db0.records[key := h];
    var due := db0.due[key := at];
    var lex := db0.lex - {SlotOf(key, previous)} + {SlotOf(key, h)};
    db := db0.(revision := revision, records := records, due := due, lex := lex);
    out := Stored(h.record);
    PutRecord(db0.records, db0.index, db0.count, key, h);
    PutIndexed(db0, key, h);
    PutClaimed(db0.records, db0.due, db0.claims, db0.claimHashes, now, key, h, at);
  }

  lemma FreedKeys(db: Keys, k: Key)
    ensures Waiting(db.claims - {k}, (db.records - {k}).Keys - (db.due - {k}).Keys) == Freed(Waits(db), k)
  {}

  method Delete(db0: Keys, key: Key, now: real) returns (db: Keys, out: Outcome)
    requires Coherent(db0, now)
    ensures Coherent(db, now)
    ensures (Seen(db, now), out) == ScheduleModel.Delete(Seen(db0, now), key)
    ensures Waits(db) == if out.Done? then Freed(Waits(db0), key) else Waits(db0)
  {
    hide Freed, RecordsCoherent, IndexesCoherent, ClaimsCoherent, Plain, Alive;
    Looked(db0, key, now);
    if key !in db0.records { return db0, Refused; }
    FreedKeys(db0, key);
    DropRecord(db0.records, db0.index, db0.count, key);
    DropIndexed(db0, key);
    DropClaimed(db0.records, db0.due, db0.claims, db0.claimHashes, now, key);
    AliveDrop(db0.claimHashes, key, now);
    var member := db0.records[key];
    var records, claimHashes := db0.records - {key}, db0.claimHashes - {key};
    var due := db0.due - {key};
    var lex := db0.lex - {SlotOf(key, member)};
    var claims := db0.claims - {key};
    var index := db0.index - {key};
    db := Keys(records, due, lex, claimHashes, claims, index, db0.revision, db0.fencing, db0.count - 1);
    out := Done;
  }

  lemma TakenClaims(db: Keys, k: Key, c: ClaimState, score: real, now: real)
    requires ClaimsCoherent(db.records, db.due, db.claims, db.claimHashes, now) && k in db.records
    requires c.revision == db.records[k].record.revision && c.expiresAt <= score
    ensures ClaimsCoherent(db.records, db.due - {k}, db.claims[k := score], db.claimHashes[k := c], now)
  {}

  /** The claim hash expires by the score of its recovery entry: the server rounds
      the former down to its millisecond clock. */
  method Take(db0: Keys, key: Key, claimant: string, token: string, ttl: real, keyExpiry: real, now: real)
    returns (db: Keys, out: Outcome)
    requires Coherent(db0, now) && now < keyExpiry <= now + ttl
    ensures Coherent(db, now)
    ensures (Seen(db, now), out) == ScheduleModel.Take(Seen(db0, now), key, claimant, token, keyExpiry, now)
    ensures var v := Seen(db0, now);
            out.Claimed? <==> key in v.records && v.records[key].due <= now && key !in v.claims
    ensures Waits(db) == if out.Claimed? then Withdrawn(Waits(db0), key, now + ttl) else Waits(db0)
  {
    hide RecordsCoherent, IndexesCoherent, ClaimsCoherent, Plain, Alive;
    Looked(db0, key, now);
    if Exists(db0.claimHashes, key, now) { return db0, Refused; }
    if key !in db0.records { return db0, Refused; }
    var h := db0.records[key];
    if h.record.due > now { return db0, Refused; }
    var fencing := db0.fencing + 1;
    var claim := ClaimState(claimant, fencing, token, h.record.revision, keyExpiry);
    var claimHashes := db0.claimHashes[key := claim];
    var due := db0.due - {key};
    var lex := db0.lex - {SlotOf(key, h)};
    var claims := db0.claims[key := now + ttl];
    db := db0.(fencing := fencing, claimHashes := claimHashes, due := due, lex := lex, claims := claims);
    out := Claimed(h.record, fencing);
    DropIndexed(db0, key);
    TakenClaims(db0, key, claim, now + ttl, now);
    AlivePut(db0.claimHashes, key, claim, now);
  }

  /** The five comparisons with which every claim-bearing script starts. */
  predicate Matches(db: Keys, claim: Claim, now: real) {
    && claim.key in db.records && db.records[claim.key].record.revision == claim.revision
    && Exists(db.claimHashes, claim.key, now)
    && db.claimHashes[claim.key].claimant == claim.claimant
    && db.claimHashes[claim.key].token == claim.token
    && db.claimHashes[claim.key].fencing == claim.fencing
    && db.claimHashes[claim.key].revision == claim.revision
  }

  lemma MatchesIsHolds(db: Keys, claim: Claim, now: real)
    ensures Matches(db, claim, now) <==> Holds(Seen(db, now), claim)
  {}

  /** The tail shared by completion, advance and release: the record listed, the
      claim and its recovery entry gone. */
  lemma Relisted(db: Keys, k: Key, h: Hash, now: real)
    requires Coherent(db, now) && Own(k, h) && Exists(db.claimHashes, k, now) && k in db.records
    ensures RecordsCoherent(db.records[k := h], db.index, db.count)
    ensures IndexesCoherent(db.records[k := h], db.due[k := h.record.due], db.lex + {SlotOf(k, h)})
    ensures ClaimsCoherent(db.records[k := h], db.due[k := h.record.due], db.claims - {k}, db.claimHashes - {k}, now)
    ensures Plain(db.records[k := h]) == Plain(db.records)[k := h.record]
    ensures Alive(db.claimHashes - {k}, now) == Alive(db.claimHashes, now) - {k}
  {
    hide RecordsCoherent, IndexesCoherent, ClaimsCoherent, Plain, Alive;
    Looked(db, k, now);
    PutRecord(db.records, db.index, db.count, k, h);
    PutIndexed(db, k, h);
    PutClaimed(db.records, db.due, db.claims, db.claimHashes, now, k, h, h.record.due);
    AliveDrop(db.claimHashes, k, now);
  }

  method Release(db0: Keys, claim: Claim, now: real) returns (db: Keys, out: Outcome)
    requires Coherent(db0, now)
    ensures Coherent(db, now)
    ensures (Seen(db, now), out) == ScheduleModel.Release(Seen(db0, now), claim)
    ensures Waits(db) == if out.Refused? then Waits(db0) else Freed(Waits(db0), claim.key)
  {
    hide RecordsCoherent, IndexesCoherent, ClaimsCoherent, Plain, Alive, Holds;
    var key := claim.key;
    Looked(db0, key, now);
    MatchesIsHolds(db0, claim, now);
    if !Matches(db0, claim, now) { return db0, Refused; }
    var h := db0.records[key];
    var claimHashes := db0.claimHashes - {key};
    var claims := db0.claims - {key};
    var due := db0.due[key := h.record.due];
    var lex := db0.lex + {SlotOf(key, h)};
    db := db0.(claimHashes := claimHashes, claims := claims, due := due, lex := lex);
    out := Done;
    Relisted(db0, key, h, now);
    assert db0.records[key := h] == db0.records;
  }

  method Complete(db0: Keys, claim: Claim, now: real, round: Rounding) returns (db: Keys, out: Outcome)
    requires Coherent(db0, now)
    ensures Coherent(db, now)
    ensures (Seen(db, now), out) == ScheduleModel.Complete(Seen(db0, now), claim, now, round)
    ensures Waits(db) == if out.Refused? then Waits(db0) else Freed(Waits(db0), claim.key)
  {
    hide RecordsCoherent, IndexesCoherent, ClaimsCoherent, Plain, Alive, Holds, RedisNextDue, MemoryNextDue;
    var key := claim.key;
    Looked(db0, key, now);
    MatchesIsHolds(db0, claim, now);
    if !Matches(db0, claim, now) { return db0, Refused; }
    var record := db0.records[key].record;
    if record.interval.None? {
      db, out := Delete(db0, key, now);
      return;
    }
    var next := round(RedisNextDue(record.due, record.interval.value, now));
    NextDueIsFirstOccurrenceAfterNow(record.due, record.interval.value, now);
    var revision := db0.revision + 1;
    var h := Hash(record.(revision := revision, due := next), Member(next, record.identity));
    var records := db0.records[key := h];
    var due := db0.due[key := next];
    var lex := db0.lex + {SlotOf(key, h)};
    var claims := db0.claims - {key};
    var claimHashes := db0.claimHashes - {key};
    db := db0.(revision := revision, records := records, due := due, lex := lex, claims := claims,
        claimHashes := claimHashes);
    out := Stored(h.record);
    Relisted(db0, key, h, now);
  }

  method Discard(db0: Keys, claim: Claim, now: real) returns (db: Keys, out: Outcome)
    requires Coherent(db0, now)
    ensures Coherent(db, now)
    ensures (Seen(db, now), out) == ScheduleModel.Discard(Seen(db0, now), claim)
    ensures Waits(db) == if out.Refused? then Waits(db0) else Freed(Waits(db0), claim.key)
  {
    MatchesIsHolds(db0, claim, now);
    if !Matches(db0, claim, now) { return db0, Refused; }
    db, out := Delete(db0, claim.key, now);
  }

  method Advance(db0: Keys, claim: Claim, payload: Bytes, at: real, now: real) returns (db: Keys, out: Outcome)
    requires Coherent(db0, now)
    ensures Coherent(db, now)
    ensures (Seen(db, now), out) == ScheduleModel.Advance(Seen(db0, now), claim, payload, at)
    ensures Waits(db) == if out.Refused? then Waits(db0) else Freed(Waits(db0), claim.key)
  {
    hide RecordsCoherent, IndexesCoherent, ClaimsCoherent, Plain, Alive, Holds;
    var key := claim.key;
    Looked(db0, key, now);
    MatchesIsHolds(db0, claim, now);
    if !Matches(db0, claim, now) { return db0, Refused; }
    var revision := db0.revision + 1;
    var h := Hash(db0.records[key].record.(payload := payload, revision := revision, due := at),
        Member(at, key.identity));
    var records := db0.records[key := h];
    var due := db0.due[key := at];
    var claims := db0.claims - {key};
    var lex := db0.lex + {SlotOf(key, h)};
    var claimHashes := db0.claimHashes - {key};
    db := db0.(revision := revision, records := records, due := due, lex := lex, claims := claims,
        claimHashes := claimHashes);
    out := Stored(h.record);
    Relisted(db0, key, h, now);
  }

  method Held(db: Keys, claim: Claim, now: real) returns (out: Outcome)
    requires Coherent(db, now)
    ensures (Seen(db, now), out) == ScheduleModel.Held(Seen(db, now), claim)
  {
    MatchesIsHolds(db, claim, now);
    out := if Matches(db, claim, now) then Done else Refused;
  }
}
