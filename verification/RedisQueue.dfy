/** The Redis queue's scripts, branch for branch. On coherent keys each does what the
    model's step says, so its repair branches are never taken. */
module RedisQueue {
  import opened Common
  import opened RedisQueueModel
  import opened RedisQueueSteps

  method Publish(db0: Keys, ghost sent: map<string, Sent>, ghost fate: map<string, Fate>,
                 identity: string, payload: Bytes, maximum: nat, delay: nat, now: int)
    returns (db: Keys)
    requires Coherent(db0, sent, fate) && identity !in sent && 0 < maximum
    ensures db == Published(db0, identity, payload, maximum, if delay == 0 then None else Some(now + delay))
    ensures Coherent(db, sent[identity := Sent(payload, maximum)], fate[identity := Live])
    ensures Waits(db0.stream, db0.lastId, db0.delayed, db, identity, delay, now)
    ensures db.payloads == db0.payloads[identity := payload] && db.maximums == db0.maximums[identity := maximum]
  {
    hide Coherent;
    StreamEnds(db0, sent, fate);
    db := db0.(payloads := db0.payloads[identity := payload], maximums := db0.maximums[identity := maximum]);
    db := db.(attempts := db.attempts[identity := 0]);
    if delay == 0 {
      db := db.(stream := db.stream[db.lastId + 1 := identity], lastId := db.lastId + 1);
    } else {
      db := db.(delayed := db.delayed[identity := now + delay]);
    }
    PublishedCoherent(db0, sent, fate, identity, Sent(payload, maximum), if delay == 0 then None
        else Some(now + delay));
  }

  lemma StreamEnds(db: Keys, sent: map<string, Sent>, fate: map<string, Fate>)
    requires Coherent(db, sent, fate)
    ensures forall e :: e in db.stream || e in db.pending || e in db.receipts || e in db.visible ==> e <= db.lastId
  {
    hide OnePlace, Kept, Attempted, LettersRight;
    forall e | e in db.visible || e in db.receipts ensures e <= db.lastId {
      assert e in db.visible.Keys || e in db.receipts.Keys;
    }
  }

  /** The identities due at this time, earliest first, up to a limit. */
  method DueIdentities(delayed: map<string, int>, now: int, limit: nat) returns (due: seq<string>)
    ensures |due| <= limit
    ensures forall k :: 0 <= k < |due| ==> due[k] in delayed && delayed[due[k]] <= now
    ensures forall j, k :: 0 <= j < k < |due| ==> due[j] != due[k] && delayed[due[j]] <= delayed[due[k]]
    ensures forall i :: i in delayed && delayed[i] <= now && i !in due ==>
              |due| == limit && forall k :: 0 <= k < |due| ==> delayed[due[k]] <= delayed[i]
  {
    due := [];
    var rest := set i | i in delayed && delayed[i] <= now;
    while |due| < limit && rest != {}
      invariant |due| <= limit
      invariant forall i :: i in rest <==> i in delayed && delayed[i] <= now && i !in due
      invariant forall k :: 0 <= k < |due| ==> due[k] in delayed && delayed[due[k]] <= now
      invariant forall j, k :: 0 <= j < k < |due| ==> due[j] != due[k] && delayed[due[j]] <= delayed[due[k]]
      invariant forall i, k :: i in rest && 0 <= k < |due| ==> delayed[due[k]] <= delayed[i]
    {
      var least := Earliest(delayed, rest);
      due := due + [least];
      rest := rest - {least};
    }
  }

  method Earliest(delayed: map<string, int>, among: set<string>) returns (least: string)
    requires among != {} && among <= delayed.Keys
    ensures least in among && forall i :: i in among ==> delayed[least] <= delayed[i]
  {
    least :| least in among;
    var rest := among - {least};
    while rest != {}
      invariant least in among && rest <= among
      invariant forall i :: i in among && i !in rest ==> delayed[least] <= delayed[i]
      decreases rest
    {
      var i :| i in rest;
      if delayed[i] < delayed[least] { least := i; }
      rest := rest - {i};
    }
  }

  function PromotedAll(db: Keys, due: seq<string>): Keys {
    if due == [] then db else Promoted(PromotedAll(db, due[..|due| - 1]), due[|due| - 1])
  }

  method Promote(db0: Keys, ghost sent: map<string, Sent>, ghost fate: map<string, Fate>, now: int, limit: nat)
    returns (db: Keys, due: seq<string>)
    requires Coherent(db0, sent, fate)
    ensures Coherent(db, sent, fate) && db == PromotedAll(db0, due) && db.delayed == db0.delayed - Members(due)
    ensures forall k :: 0 <= k < |due| ==> due[k] in db0.delayed && db0.delayed[due[k]] <= now
    ensures |due| < limit ==> forall i :: i in db.delayed ==> db.delayed[i] > now
  {
    hide Coherent, Members;
    due := DueIdentities(db0.delayed, now, limit);
    db := db0;
    var k := 0;
    NoMembers(db0.delayed);
    while k < |due|
      invariant 0 <= k <= |due| && due[..0] == []
      invariant Coherent(db, sent, fate) && db == PromotedAll(db0, due[..k])
      invariant db.delayed == db0.delayed - Members(due[..k])
    {
      OneMember(db0.delayed, due, k);
      PromotedCoherent(db, sent, fate, due[k]);
      db := db.(stream := db.stream[db.lastId + 1 := due[k]], lastId := db.lastId + 1);
      db := db.(delayed := db.delayed - {due[k]});
      assert due[..k + 1][..k] == due[..k];
      k := k + 1;
    }
    assert due[..|due|] == due;
    NoneLeft(db0.delayed, due, now);
  }

  lemma NoMembers(delayed: map<string, int>)
    ensures delayed - Members([]) == delayed
  {}

  lemma OneMember(delayed: map<string, int>, due: seq<string>, k: nat)
    requires k < |due| && due[k] in delayed && forall j :: 0 <= j < k ==> due[j] != due[k]
    ensures due[k] in delayed - Members(due[..k])
    ensures delayed - Members(due[..k]) - {due[k]} == delayed - Members(due[..k + 1])
  {}

  lemma NoneLeft(delayed: map<string, int>, due: seq<string>, now: int)
    ensures (forall i :: i in delayed && delayed[i] <= now ==> i in due) ==>
              forall i :: i in delayed - Members(due) ==> delayed[i] > now
  {}

  function Members(s: seq<string>): set<string> { set x | x in s }

  datatype Issuance = NotIssued | Issued(attempt: nat, payload: Bytes, maximum: nat, deadline: int)

  /** A reader's entry gets its receipt only while it is still the reader's, and the
      attempt it is given never exceeds the maximum. */
  method Issue(db0: Keys, ghost sent: map<string, Sent>, ghost fate: map<string, Fate>,
               entry: nat, consumer: string, identity: string, token: string, now: int, timeout: nat)
    returns (db: Keys, out: Issuance)
    requires Coherent(db0, sent, fate)
    requires entry in db0.stream ==> db0.stream[entry] == identity
    requires entry in db0.pending && db0.pending[entry] == consumer ==> entry !in db0.receipts
    ensures var mine := entry in db0.pending && db0.pending[entry] == consumer;
            && out.Issued? == mine
            && db == if mine then Handed(db0, entry, identity, token, now + timeout) else db0
    ensures out.Issued? ==>
              && identity in sent && 1 <= out.attempt <= out.maximum == sent[identity].maximum
              && out.payload == sent[identity].payload
              && out.deadline == now + timeout && out.attempt == AttemptsOf(db0, identity) + 1
              && InForce(db0, db, entry, Receipt(token, identity), out.attempt, now + timeout)
    ensures Coherent(db, sent, fate)
  {
    hide Coherent, Exhausted;
    if entry !in db0.pending || db0.pending[entry] != consumer { return db0, NotIssued; }
    PendingInStream(db0, sent, fate, entry);
    OwnIdentity(db0, sent, fate, entry);
    KeptKeys(db0, sent, fate);
    UnissuedHasAttempts(db0, sent, fate, entry);
    HandedCoherent(db0, sent, fate, entry, consumer, token, now + timeout);
    assert db0.pending[entry := consumer] == db0.pending;
    if identity !in db0.payloads || identity !in db0.maximums {
      assert false;
    }
    var attempt := AttemptsOf(db0, identity) + 1;
    db := db0.(attempts := db0.attempts[identity := attempt]);
    db := db.(receipts := db.receipts[entry := Receipt(token, identity)]);
    db := db.(visible := db.visible[entry := now + timeout]);
    out := Issued(attempt, db0.payloads[identity], db0.maximums[identity], now + timeout);
  }

  method Acknowledge(db0: Keys, ghost sent: map<string, Sent>, ghost fate: map<string, Fate>, entry: nat,
                     receipt: Receipt)
    returns (db: Keys, done: bool)
    requires Coherent(db0, sent, fate)
    ensures done == Holds(db0, entry, receipt)
    ensures db == if done then Forgotten(Dropped(db0, entry), receipt.identity) else db0
    ensures done ==> Coherent(db, sent, fate[receipt.identity := Acknowledged])
    ensures done ==>
              && EntryGone(db, entry) && db.stream == db0.stream - {entry} && db.delayed == db0.delayed
              && db.dead == db0.dead && receipt.identity !in db.payloads && receipt.identity !in db.attempts
  {
    hide Coherent;
    if entry !in db0.receipts || db0.receipts[entry] != receipt { return db0, false; }
    HolderInStream(db0, sent, fate, entry, receipt);
    AcknowledgedCoherent(db0, sent, fate, entry);
    db := db0.(pending := db0.pending - {entry}, stream := db0.stream - {entry});
    db := db.(payloads := db.payloads - {receipt.identity}, maximums := db.maximums - {receipt.identity},
              attempts := db.attempts - {receipt.identity});
    db := db.(receipts := db.receipts - {entry}, visible := db.visible - {entry});
    done := true;
  }

  method Renew(db0: Keys, ghost sent: map<string, Sent>, ghost fate: map<string, Fate>,
               entry: nat, receipt: Receipt, now: int, timeout: nat)
    returns (db: Keys, deadline: Option<int>)
    requires Coherent(db0, sent, fate)
    ensures deadline == if Holds(db0, entry, receipt) then Some(now + timeout) else None
    ensures db == if deadline.Some? then db0.(visible := db0.visible[entry := now + timeout]) else db0
    ensures Coherent(db, sent, fate)
  {
    hide Coherent;
    if entry !in db0.receipts || db0.receipts[entry] != receipt { return db0, None; }
    RenewedCoherent(db0, sent, fate, entry, now + timeout);
    db := db0.(visible := db0.visible[entry := now + timeout]);
    deadline := Some(now + timeout);
  }

  datatype Rejection = Stale | Requeued | OutOfAttempts

  method Reject(db0: Keys, ghost sent: map<string, Sent>, ghost fate: map<string, Fate>,
                entry: nat, receipt: Receipt, delay: nat, now: int)
    returns (db: Keys, out: Rejection)
    requires Coherent(db0, sent, fate)
    ensures out.Stale? == !Holds(db0, entry, receipt)
    ensures out.Stale? ==> db == db0
    ensures !out.Stale? ==>
              && receipt.identity in db0.payloads && receipt.identity in db0.maximums
              && (out == OutOfAttempts <==> AttemptsOf(db0, receipt.identity) >= db0.maximums[receipt.identity])
              && db == Rejected(db0, entry, receipt.identity, if delay == 0 then None else Some(now + delay))
    ensures out == Requeued ==> Coherent(db, sent, fate)
    ensures out == Requeued ==>
              && Waits(db0.stream - {entry}, db0.lastId, db0.delayed, db, receipt.identity, delay, now)
              && EntryGone(db, entry) && db.dead == db0.dead && db.attempts == db0.attempts
    ensures out == OutOfAttempts ==>
              receipt.identity in db0.payloads && OneLetterMore(db0, db, entry, receipt.identity)
    ensures out == OutOfAttempts ==>
              Coherent(db, sent, fate[receipt.identity := DeadLettered(AttemptsOf(db0, receipt.identity))])
  {
    hide Coherent;
    if entry !in db0.receipts || db0.receipts[entry] != receipt { return db0, Stale; }
    var i := receipt.identity;
    HolderInStream(db0, sent, fate, entry, receipt);
    OwnIdentity(db0, sent, fate, entry);
    KeptKeys(db0, sent, fate);
    StreamEnds(db0, sent, fate);
    var attempt := db0.attempts[i];
    var maximum := db0.maximums[i];
    var payload := db0.payloads[i];
    db := db0.(pending := db0.pending - {entry}, stream := db0.stream - {entry});
    db := db.(receipts := db.receipts - {entry}, visible := db.visible - {entry});
    if attempt >= maximum {
      BuriedCoherent(db0, sent, fate, entry);
      db := db.(dead := db.dead + [Letter(i, payload, attempt)]);
      db := db.(payloads := db.payloads - {i}, maximums := db.maximums - {i}, attempts := db.attempts - {i});
      return db, OutOfAttempts;
    }
    RequeuedCoherent(db0, sent, fate, entry, if delay == 0 then None else Some(now + delay));
    if delay == 0 {
      db := db.(stream := db.stream[db.lastId + 1 := i], lastId := db.lastId + 1);
    } else {
      db := db.(delayed := db.delayed[i := now + delay]);
    }
    out := Requeued;
  }

  method DeadLetter(db0: Keys, ghost sent: map<string, Sent>, ghost fate: map<string, Fate>, entry: nat,
                    receipt: Receipt)
    returns (db: Keys, done: bool)
    requires Coherent(db0, sent, fate)
    ensures done == Holds(db0, entry, receipt)
    ensures done ==>
              && receipt.identity in db0.payloads && db == Buried(db0, entry, receipt.identity)
              && OneLetterMore(db0, db, entry, receipt.identity)
              && Coherent(db, sent, fate[receipt.identity := DeadLettered(AttemptsOf(db0, receipt.identity))])
    ensures !done ==> db == db0
  {
    hide Coherent;
    if entry !in db0.receipts || db0.receipts[entry] != receipt { return db0, false; }
    var i := receipt.identity;
    HolderInStream(db0, sent, fate, entry, receipt);
    OwnIdentity(db0, sent, fate, entry);
    KeptKeys(db0, sent, fate);
    BuriedCoherent(db0, sent, fate, entry);
    var payload, attempt := db0.payloads[i], db0.attempts[i];
    db := db0.(pending := db0.pending - {entry}, stream := db0.stream - {entry});
    db := db.(receipts := db.receipts - {entry}, visible := db.visible - {entry});
    db := db.(dead := db.dead + [Letter(i, payload, attempt)]);
    db := db.(payloads := db.payloads - {i}, maximums := db.maximums - {i}, attempts := db.attempts - {i});
    done := true;
  }
}
