/** Every careful step of the Redis queue keeps its invariant. */
module RedisQueueSteps {
  import opened Common
  import opened RedisQueueModel

  // ----- one place -----

  lemma EnteredStream(stream: map<nat, string>, delayed: map<string, int>, fate: map<string, Fate>, i: string, e: nat)
    requires OnePlace(stream, delayed, fate) && !IsLive(fate, i) && e !in stream
    ensures OnePlace(stream[e := i], delayed, fate[i := Live])
  {
    var stream', fate' := stream[e := i], fate[i := Live];
    forall x | IsLive(fate', x) ensures x in delayed || exists f :: f in stream' && stream'[f] == x {
      if x == i {
        assert stream'[e] == i;
      } else {
        assert IsLive(fate, x);
        if f :| f in stream && stream[f] == x { assert stream'[f] == x; }
      }
    }
  }

  lemma EnteredDelayed(stream: map<nat, string>, delayed: map<string, int>, fate: map<string, Fate>, i: string,
                       due: int)
    requires OnePlace(stream, delayed, fate) && !IsLive(fate, i)
    ensures OnePlace(stream, delayed[i := due], fate[i := Live])
  {
    var fate' := fate[i := Live];
    forall x | IsLive(fate', x) && x != i ensures x in delayed || exists f :: f in stream && stream[f] == x {
      assert IsLive(fate, x);
    }
  }

  lemma LeftStream(stream: map<nat, string>, delayed: map<string, int>, fate: map<string, Fate>, e: nat, f: Fate)
    requires OnePlace(stream, delayed, fate) && e in stream && !f.Live?
    ensures OnePlace(stream - {e}, delayed, fate[stream[e] := f])
  {
    var i := stream[e];
    var stream', fate' := stream - {e}, fate[i := f];
    forall x | IsLive(fate', x) ensures x in delayed || exists g :: g in stream' && stream'[g] == x {
      assert IsLive(fate, x);
      if g :| g in stream && stream[g] == x { assert g in stream'; }
    }
  }

  lemma LeftDelayed(stream: map<nat, string>, delayed: map<string, int>, fate: map<string, Fate>, i: string)
    requires OnePlace(stream, delayed, fate) && i in delayed
    ensures OnePlace(stream, delayed - {i}, fate[i := Acknowledged])
  {
    var fate' := fate[i := Acknowledged];
    forall x | IsLive(fate', x) ensures x in delayed - {i} || exists e :: e in stream && stream[e] == x {
      assert IsLive(fate, x);
    }
  }

  /** A move within the queue: out of one place and into the other. */
  lemma MovedIn(db: Keys, i: string, due: Option<int>, fate: map<string, Fate>)
    requires OnePlace(db.stream, db.delayed, fate) && !IsLive(fate, i) && db.lastId + 1 !in db.stream
    ensures var db' := Placed(db, i, due); OnePlace(db'.stream, db'.delayed, fate[i := Live])
  {
    hide OnePlace;
    if due.None? {
      EnteredStream(db.stream, db.delayed, fate, i, db.lastId + 1);
    } else {
      EnteredDelayed(db.stream, db.delayed, fate, i, due.value);
    }
  }

  /** Different entries carry different identities. */
  lemma OwnIdentity(db: Keys, sent: map<string, Sent>, fate: map<string, Fate>, entry: nat)
    requires Coherent(db, sent, fate) && entry in db.stream
    ensures db.stream[entry] in db.payloads && db.stream[entry] in sent && db.stream[entry] !in db.delayed
    ensures IsLive(fate, db.stream[entry])
    ensures forall e :: e in db.stream && db.stream[e] == db.stream[entry] ==> e == entry
  {
    hide LettersRight, Attempted, Covered;
  }

  /** An item never published appears nowhere. */
  lemma NoTrace(db: Keys, sent: map<string, Sent>, fate: map<string, Fate>, i: string)
    requires Coherent(db, sent, fate) && i !in sent
    ensures i !in fate && !IsLive(fate, i) && i !in db.payloads && i !in db.delayed
    ensures forall e :: e in db.stream ==> db.stream[e] != i
  {
    hide LettersRight, Attempted, Covered;
  }

  // ----- what is stored for each item -----

  lemma KeptWithNew(payloads: map<string, Bytes>, maximums: map<string, nat>, attempts: map<string, nat>,
                    sent: map<string, Sent>, fate: map<string, Fate>, i: string, v: Sent)
    requires Kept(payloads, maximums, attempts, sent, fate) && 0 < v.maximum
    ensures Kept(payloads[i := v.payload], maximums[i := v.maximum], attempts[i := 0], sent[i := v], fate[i := Live])
  {
    var fate' := fate[i := Live];
    assert forall x :: IsLive(fate', x) <==> x == i || IsLive(fate, x);
  }

  lemma KeptWithout(payloads: map<string, Bytes>, maximums: map<string, nat>, attempts: map<string, nat>,
                    sent: map<string, Sent>, fate: map<string, Fate>, i: string, f: Fate)
    requires Kept(payloads, maximums, attempts, sent, fate) && i in fate && !f.Live?
    ensures Kept(payloads - {i}, maximums - {i}, attempts - {i}, sent, fate[i := f])
  {
    var fate' := fate[i := f];
    assert forall x :: IsLive(fate', x) <==> x != i && IsLive(fate, x);
  }

  lemma KeptCounting(payloads: map<string, Bytes>, maximums: map<string, nat>, attempts: map<string, nat>,
                     sent: map<string, Sent>, fate: map<string, Fate>, i: string, n: nat)
    requires Kept(payloads, maximums, attempts, sent, fate) && i in payloads
    ensures Kept(payloads, maximums, attempts[i := n], sent, fate)
  {}

  // ----- attempts -----

  lemma AttemptedWithNew(stream: map<nat, string>, delayed: map<string, int>, receipts: map<nat, Receipt>,
                         attempts: map<string, nat>, maximums: map<string, nat>, i: string, maximum: nat)
    requires Attempted(stream, delayed, receipts, attempts, maximums)
    requires i !in delayed && forall e :: e in stream ==> stream[e] != i
    ensures Attempted(stream, delayed, receipts, attempts[i := 0], maximums[i := maximum])
  {}

  lemma AttemptedPlaced(db: Keys, i: string, due: Option<int>)
    requires Attempted(db.stream, db.delayed, db.receipts, db.attempts, db.maximums)
    requires MoreLeft(db.attempts, db.maximums, i) && db.lastId + 1 !in db.receipts
    ensures var db' := Placed(db, i, due);
            Attempted(db'.stream, db'.delayed, db'.receipts, db'.attempts, db'.maximums)
  {}

  lemma AttemptedDropped(stream: map<nat, string>, delayed: map<string, int>, receipts: map<nat, Receipt>,
                         attempts: map<string, nat>, maximums: map<string, nat>, e: nat)
    requires Attempted(stream, delayed, receipts, attempts, maximums)
    ensures Attempted(stream - {e}, delayed, receipts - {e}, attempts, maximums)
  {}

  lemma AttemptedWithout(stream: map<nat, string>, delayed: map<string, int>, receipts: map<nat, Receipt>,
                         attempts: map<string, nat>, maximums: map<string, nat>, i: string)
    requires Attempted(stream, delayed, receipts, attempts, maximums)
    requires i !in delayed && forall e :: e in stream ==> stream[e] != i
    ensures Attempted(stream, delayed, receipts, attempts - {i}, maximums - {i})
  {}

  lemma AttemptedHanded(stream: map<nat, string>, delayed: map<string, int>, receipts: map<nat, Receipt>,
                        attempts: map<string, nat>, maximums: map<string, nat>, e: nat, r: Receipt)
    requires Attempted(stream, delayed, receipts, attempts, maximums)
    requires e in stream && stream[e] !in delayed && forall f :: f in stream && stream[f] == stream[e] ==> f == e
    requires MoreLeft(attempts, maximums, stream[e])
    ensures Attempted(stream, delayed, receipts[e := r], attempts[stream[e] := attempts[stream[e]] + 1], maximums)
  {}

  // ----- coverage -----

  lemma CoveredPlaced(db: Keys, i: string, due: Option<int>)
    requires Covered(db.stream, db.pending, db.receipts, db.visible, db.lastRead, db.lastId)
    ensures var db' := Placed(db, i, due);
            Covered(db'.stream, db'.pending, db'.receipts, db'.visible, db'.lastRead, db'.lastId)
  {}

  lemma CoveredDropped(db: Keys, e: nat)
    requires Covered(db.stream, db.pending, db.receipts, db.visible, db.lastRead, db.lastId)
    ensures Covered(db.stream - {e}, db.pending - {e}, db.receipts - {e}, db.visible - {e}, db.lastRead, db.lastId)
  {}

  lemma CoveredHanded(db: Keys, e: nat, consumer: string, token: string, deadline: int)
    requires Covered(db.stream, db.pending, db.receipts, db.visible, db.lastRead, db.lastId) && e in db.pending
    ensures Covered(db.stream, db.pending[e := consumer], db.receipts[e := Receipt(token, db.stream[e])],
                    db.visible[e := deadline], db.lastRead, db.lastId)
  {}

  lemma CoveredRead(db: Keys, e: nat, consumer: string)
    requires Covered(db.stream, db.pending, db.receipts, db.visible, db.lastRead, db.lastId) && IsNext(db, e)
    ensures Covered(db.stream, db.pending[e := consumer], db.receipts, db.visible, e, db.lastId)
  {}

  lemma Numbers(db: Keys)
    requires Covered(db.stream, db.pending, db.receipts, db.visible, db.lastRead, db.lastId)
    ensures db.lastId + 1 !in db.stream && db.lastId + 1 !in db.receipts
  {}

  // ----- dead letters -----

  lemma OneMoreLetter(dead: seq<Letter>, sent: map<string, Sent>, fate: map<string, Fate>, i: string, attempt: nat)
    requires LettersRight(dead, sent, fate) && IsLive(fate, i) && i in sent && attempt <= sent[i].maximum
    ensures LettersRight(dead + [Letter(i, sent[i].payload, attempt)], sent, fate[i := DeadLettered(attempt)])
  {
    var dead' := dead + [Letter(i, sent[i].payload, attempt)];
    var fate' := fate[i := DeadLettered(attempt)];
    forall x | x in fate' && fate'[x].DeadLettered? ensures exists k :: 0 <= k < |dead'| && dead'[k].identity == x {
      if x == i {
        assert dead'[|dead|].identity == i;
      } else {
        var k :| 0 <= k < |dead| && dead[k].identity == x;
        assert dead'[k].identity == x;
      }
    }
  }

  lemma LettersOfFresh(dead: seq<Letter>, sent: map<string, Sent>, fate: map<string, Fate>, i: string, v: Sent)
    requires LettersRight(dead, sent, fate) && i !in fate && sent.Keys == fate.Keys
    ensures LettersRight(dead, sent[i := v], fate[i := Live])
  {}

  lemma LettersOfOther(dead: seq<Letter>, sent: map<string, Sent>, fate: map<string, Fate>, i: string)
    requires LettersRight(dead, sent, fate) && IsLive(fate, i)
    ensures LettersRight(dead, sent, fate[i := Acknowledged])
  {}

  // ----- the scripts keep the keys coherent -----

  lemma PublishedCoherent(db: Keys, sent: map<string, Sent>, fate: map<string, Fate>, i: string, v: Sent,
                          due: Option<int>)
    requires Coherent(db, sent, fate) && i !in sent && 0 < v.maximum
    ensures Coherent(Published(db, i, v.payload, v.maximum, due), sent[i := v], fate[i := Live])
  {
    hide OnePlace, Kept, Covered, Attempted, LettersRight;
    KeptKeys(db, sent, fate);
    NoTrace(db, sent, fate, i);
    Numbers(db);
    var m := db.(payloads := db.payloads[i := v.payload], maximums := db.maximums[i := v.maximum],
                 attempts := db.attempts[i := 0]);
    KeptWithNew(db.payloads, db.maximums, db.attempts, sent, fate, i, v);
    AttemptedWithNew(db.stream, db.delayed, db.receipts, db.attempts, db.maximums, i, v.maximum);
    AttemptedPlaced(m, i, due);
    CoveredPlaced(m, i, due);
    MovedIn(m, i, due, fate);
    LettersOfFresh(db.dead, sent, fate, i, v);
  }

  lemma KeptKeys(db: Keys, sent: map<string, Sent>, fate: map<string, Fate>)
    requires Coherent(db, sent, fate)
    ensures sent.Keys == fate.Keys && db.attempts.Keys == db.payloads.Keys && db.maximums.Keys == db.payloads.Keys
    ensures forall i :: i in db.payloads ==> i in sent && sent[i] == Sent(db.payloads[i], db.maximums[i])
  {
    hide OnePlace, Covered, Attempted, LettersRight;
  }

  lemma RelabelLive(fate: map<string, Fate>, i: string)
    requires IsLive(fate, i)
    ensures fate[i := Acknowledged][i := Live] == fate && !IsLive(fate[i := Acknowledged], i)
  {}

  lemma PromotedCoherent(db: Keys, sent: map<string, Sent>, fate: map<string, Fate>, i: string)
    requires Coherent(db, sent, fate) && i in db.delayed
    ensures Coherent(Promoted(db, i), sent, fate)
  {
    hide OnePlace, Kept, Covered, LettersRight;
    Numbers(db);
    DelayedIsLive(db, sent, fate, i);
    var m := db.(delayed := db.delayed - {i});
    LeftDelayed(db.stream, db.delayed, fate, i);
    RelabelLive(fate, i);
    MovedIn(m, i, None, fate[i := Acknowledged]);
    AttemptedPlaced(m, i, None);
    CoveredPlaced(m, i, None);
  }

  lemma DelayedIsLive(db: Keys, sent: map<string, Sent>, fate: map<string, Fate>, i: string)
    requires Coherent(db, sent, fate) && i in db.delayed
    ensures IsLive(fate, i)
  {
    hide Kept, Covered, Attempted, LettersRight;
  }

  lemma HandedCoherent(db: Keys, sent: map<string, Sent>, fate: map<string, Fate>,
                       entry: nat, consumer: string, token: string, deadline: int)
    requires Coherent(db, sent, fate) && entry in db.pending && entry in db.stream
    requires !Exhausted(db, db.stream[entry])
    ensures var m := db.(pending := db.pending[entry := consumer]);
            Coherent(Handed(m, entry, db.stream[entry], token, deadline), sent, fate)
  {
    hide OnePlace, Kept, Covered, Attempted, LettersRight;
    var i := db.stream[entry];
    KeptKeys(db, sent, fate);
    OwnIdentity(db, sent, fate, entry);
    CoveredHanded(db, entry, consumer, token, deadline);
    KeptCounting(db.payloads, db.maximums, db.attempts, sent, fate, i, db.attempts[i] + 1);
    AttemptedHanded(db.stream, db.delayed, db.receipts, db.attempts, db.maximums, entry, Receipt(token, i));
  }

  lemma BuriedCoherent(db: Keys, sent: map<string, Sent>, fate: map<string, Fate>, entry: nat)
    requires Coherent(db, sent, fate) && entry in db.stream && db.stream[entry] in db.payloads
    ensures var i := db.stream[entry];
            Coherent(Buried(db, entry, i), sent, fate[i := DeadLettered(AttemptsOf(db, i))])
  {
    hide OnePlace, Kept, Covered, Attempted, LettersRight;
    var i := db.stream[entry];
    var f := DeadLettered(AttemptsOf(db, i));
    KeptKeys(db, sent, fate);
    OwnIdentity(db, sent, fate, entry);
    WithinMaximum(db, sent, fate, entry);
    CoveredDropped(db, entry);
    LeftStream(db.stream, db.delayed, fate, entry, f);
    KeptWithout(db.payloads, db.maximums, db.attempts, sent, fate, i, f);
    AttemptedDropped(db.stream, db.delayed, db.receipts, db.attempts, db.maximums, entry);
    AttemptedWithout(db.stream - {entry}, db.delayed, db.receipts - {entry}, db.attempts, db.maximums, i);
    OneMoreLetter(db.dead, sent, fate, i, AttemptsOf(db, i));
  }

  lemma WithinMaximum(db: Keys, sent: map<string, Sent>, fate: map<string, Fate>, entry: nat)
    requires Coherent(db, sent, fate) && entry in db.stream
    ensures db.stream[entry] in db.attempts && db.stream[entry] in db.maximums
    ensures db.attempts[db.stream[entry]] <= db.maximums[db.stream[entry]]
  {
    hide OnePlace, Kept, Covered, LettersRight;
    assert entry in db.receipts ==> Tried(db.attempts, db.maximums, db.stream[entry]);
  }

  lemma AcknowledgedCoherent(db: Keys, sent: map<string, Sent>, fate: map<string, Fate>, entry: nat)
    requires Coherent(db, sent, fate) && entry in db.stream
    ensures Coherent(Forgotten(Dropped(db, entry), db.stream[entry]), sent, fate[db.stream[entry] := Acknowledged])
  {
    hide OnePlace, Kept, Covered, Attempted, LettersRight;
    var i := db.stream[entry];
    KeptKeys(db, sent, fate);
    OwnIdentity(db, sent, fate, entry);
    CoveredDropped(db, entry);
    LeftStream(db.stream, db.delayed, fate, entry, Acknowledged);
    KeptWithout(db.payloads, db.maximums, db.attempts, sent, fate, i, Acknowledged);
    AttemptedDropped(db.stream, db.delayed, db.receipts, db.attempts, db.maximums, entry);
    AttemptedWithout(db.stream - {entry}, db.delayed, db.receipts - {entry}, db.attempts, db.maximums, i);
    LettersOfOther(db.dead, sent, fate, i);
  }

  lemma RequeuedCoherent(db: Keys, sent: map<string, Sent>, fate: map<string, Fate>, entry: nat, due: Option<int>)
    requires Coherent(db, sent, fate) && entry in db.stream && !Exhausted(db, db.stream[entry])
    ensures Coherent(Placed(Dropped(db, entry), db.stream[entry], due), sent, fate)
  {
    hide OnePlace, Kept, Covered, Attempted, LettersRight;
    var i := db.stream[entry];
    KeptKeys(db, sent, fate);
    Numbers(db);
    OwnIdentity(db, sent, fate, entry);
    CoveredDropped(db, entry);
    CoveredPlaced(Dropped(db, entry), i, due);
    LeftStream(db.stream, db.delayed, fate, entry, Acknowledged);
    RelabelLive(fate, i);
    MovedIn(Dropped(db, entry), i, due, fate[i := Acknowledged]);
    AttemptedDropped(db.stream, db.delayed, db.receipts, db.attempts, db.maximums, entry);
    AttemptedPlaced(Dropped(db, entry), i, due);
  }

  lemma ReadCoherent(db: Keys, sent: map<string, Sent>, fate: map<string, Fate>, entry: nat, consumer: string)
    requires Coherent(db, sent, fate) && IsNext(db, entry)
    ensures Coherent(ReadBy(db, consumer, entry), sent, fate)
  {
    hide OnePlace, Kept, Covered, Attempted, LettersRight;
    CoveredRead(db, entry, consumer);
  }

  lemma RenewedCoherent(db: Keys, sent: map<string, Sent>, fate: map<string, Fate>, entry: nat, deadline: int)
    requires Coherent(db, sent, fate) && entry in db.receipts
    ensures Coherent(db.(visible := db.visible[entry := deadline]), sent, fate)
  {
    hide OnePlace, Kept, Attempted, LettersRight;
  }

  lemma HolderInStream(db: Keys, sent: map<string, Sent>, fate: map<string, Fate>, entry: nat, receipt: Receipt)
    requires Coherent(db, sent, fate) && Holds(db, entry, receipt)
    ensures entry in db.pending && entry in db.stream && db.stream[entry] == receipt.identity
  {
    hide OnePlace, Kept, Attempted, LettersRight;
  }

  lemma PendingInStream(db: Keys, sent: map<string, Sent>, fate: map<string, Fate>, entry: nat)
    requires Coherent(db, sent, fate) && entry in db.pending
    ensures entry in db.stream && entry <= db.lastRead
  {
    hide OnePlace, Kept, Attempted, LettersRight;
  }

  // ----- readers and tokens -----

  lemma UnissuedLess(db: Keys, entry: nat, reading: map<string, nat>)
    requires Unissued(db.pending, db.receipts, db.lastRead, reading)
    ensures Unissued(db.pending - {entry}, db.receipts - {entry}, db.lastRead, reading)
  {}

  lemma UnissuedRead(db: Keys, sent: map<string, Sent>, fate: map<string, Fate>, reading: map<string, nat>,
                     entry: nat, consumer: string)
    requires Unissued(db.pending, db.receipts, db.lastRead, reading) && IsNext(db, entry)
    requires Coherent(db, sent, fate) && consumer !in reading
    ensures Unissued(db.pending[entry := consumer], db.receipts, entry, reading[consumer := entry])
  {
    hide OnePlace, Kept, Attempted, LettersRight;
  }

  lemma UnissuedHanded(db: Keys, reading: map<string, nat>, entry: nat, consumer: string, r: Receipt)
    requires Unissued(db.pending, db.receipts, db.lastRead, reading)
    ensures Unissued(db.pending[entry := consumer], db.receipts[entry := r], db.lastRead, reading - {consumer})
  {}

  lemma TokensHanded(receipts: map<nat, Receipt>, used: set<string>, entry: nat, r: Receipt)
    requires TokensNew(receipts, used) && r.token !in used
    ensures TokensNew(receipts[entry := r], used + {r.token})
  {}

  lemma TokensLess(receipts: map<nat, Receipt>, used: set<string>, entry: nat)
    requires TokensNew(receipts, used)
    ensures TokensNew(receipts - {entry}, used)
  {}

  // ----- every step -----

  lemma HandedKeeps(s: State, entry: nat, consumer: string, token: string, deadline: int, s': State)
    requires Invariant(s) && entry in s.db.pending && entry in s.db.stream && token !in s.used
    requires !Exhausted(s.db, s.db.stream[entry])
    requires s'.db == Handed(s.db.(pending := s.db.pending[entry := consumer]), entry, s.db.stream[entry], token,
              deadline)
    requires s' == s.(db := s'.db, reading := s.reading - {consumer}, used := s.used + {token})
    ensures Invariant(s')
  {
    hide Coherent, Unissued, TokensNew, Exhausted;
    var r := Receipt(token, s.db.stream[entry]);
    HandedCoherent(s.db, s.sent, s.fate, entry, consumer, token, deadline);
    UnissuedHanded(s.db, s.reading, entry, consumer, r);
    TokensHanded(s.db.receipts, s.used, entry, r);
  }

  lemma IssueKeeps(s: State, a: Action, s': State)
    requires Invariant(s) && Step(s, a, s') && a.Issue?
    ensures Invariant(s')
  {
    hide Coherent, Exhausted;
    var entry := s.reading[a.consumer];
    if StillMine(s, a.consumer) {
      UnissuedHasAttempts(s.db, s.sent, s.fate, entry);
      assert s.db.pending[entry := a.consumer] == s.db.pending;
      HandedKeeps(s, entry, a.consumer, a.token, a.deadline, s');
    }
  }

  /** Without a receipt there is an attempt left, so issuing cannot go over the maximum. */
  lemma UnissuedHasAttempts(db: Keys, sent: map<string, Sent>, fate: map<string, Fate>, entry: nat)
    requires Coherent(db, sent, fate) && entry in db.stream && entry !in db.receipts
    ensures !Exhausted(db, db.stream[entry]) && db.stream[entry] in db.maximums
    ensures AttemptsOf(db, db.stream[entry]) < db.maximums[db.stream[entry]]
  {
    hide OnePlace, Kept, Covered, LettersRight;
    assert MoreLeft(db.attempts, db.maximums, db.stream[entry]);
  }

  lemma ClaimKeeps(s: State, a: Action, s': State)
    requires Invariant(s) && Step(s, a, s') && a.Claim?
    ensures Invariant(s')
  {
    hide Coherent, Unissued, TokensNew, Handed;
    if Exhausted(s.db, s.db.stream[a.entry]) {
      BuriedCoherent(s.db, s.sent, s.fate, a.entry);
      UnissuedLess(s.db, a.entry, s.reading);
      TokensLess(s.db.receipts, s.used, a.entry);
      TokensGrow(s.db.receipts - {a.entry}, s.used, a.token);
    } else {
      assert s.reading - {a.consumer} == s.reading;
      HandedKeeps(s, a.entry, a.consumer, a.token, a.deadline, s');
    }
  }

  lemma TokensGrow(receipts: map<nat, Receipt>, used: set<string>, token: string)
    requires TokensNew(receipts, used)
    ensures TokensNew(receipts, used + {token})
  {}

  lemma SettleKeeps(s: State, a: Action, s': State)
    requires Invariant(s) && Step(s, a, s') && (a.Acknowledge? || a.Reject? || a.DeadLetter?)
    ensures Invariant(s')
  {
    hide Coherent, Unissued, TokensNew, Exhausted;
    HolderInStream(s.db, s.sent, s.fate, a.entry, a.receipt);
    UnissuedLess(s.db, a.entry, s.reading);
    TokensLess(s.db.receipts, s.used, a.entry);
    if a.Acknowledge? {
      AcknowledgedCoherent(s.db, s.sent, s.fate, a.entry);
    } else if a.DeadLetter? || Exhausted(s.db, a.receipt.identity) {
      BuriedCoherent(s.db, s.sent, s.fate, a.entry);
    } else {
      RequeuedCoherent(s.db, s.sent, s.fate, a.entry, a.due);
    }
  }

  lemma QueueKeeps(s: State, a: Action, s': State)
    requires Invariant(s) && Step(s, a, s') && (a.Publish? || a.Promote? || a.Renew?)
    ensures Invariant(s')
  {
    hide Coherent, Unissued, TokensNew;
    match a
    case Publish(i, payload, maximum, due) => PublishedCoherent(s.db, s.sent, s.fate, i, Sent(payload, maximum), due);
    case Promote(i) => PromotedCoherent(s.db, s.sent, s.fate, i);
    case Renew(entry, _, deadline) => RenewedCoherent(s.db, s.sent, s.fate, entry, deadline);
  }

  lemma ReadKeeps(s: State, a: Action, s': State)
    requires Invariant(s) && Step(s, a, s') && (a.Read? || a.Abandon?)
    ensures Invariant(s')
  {
    hide Coherent, TokensNew;
    if a.Read? {
      ReadCoherent(s.db, s.sent, s.fate, a.entry, a.consumer);
      UnissuedRead(s.db, s.sent, s.fate, s.reading, a.entry, a.consumer);
    }
  }

  lemma RemoveKeeps(s: State, a: Action, s': State)
    requires Invariant(s) && Step(s, a, s') && Careful(s, a) && a.RemoveConsumer?
    ensures Invariant(s')
  {
    hide Coherent, TokensNew, Unissued;
    assert Lost(s.db.pending, a.consumer) == s.db.pending;
    assert s' == s;
  }

  /** A claim never finds its entry gone. */
  lemma NothingToRepair(s: State, entry: nat)
    requires Invariant(s)
    ensures !Enabled(s, Repair(entry))
  {
    hide OnePlace, Kept, Attempted, LettersRight, TokensNew, Unissued;
  }

  /** Every careful step keeps the invariant. */
  lemma StepKeepsInvariant(s: State, a: Action, s': State)
    requires Invariant(s) && Step(s, a, s') && Careful(s, a)
    ensures Invariant(s')
  {
    hide Invariant, Step;
    match a
    case Publish(_, _, _, _) => QueueKeeps(s, a, s');
    case Promote(_) => QueueKeeps(s, a, s');
    case Read(_, _) => ReadKeeps(s, a, s');
    case Issue(_, _, _) => IssueKeeps(s, a, s');
    case Abandon(_) => ReadKeeps(s, a, s');
    case Claim(_, _, _, _) => ClaimKeeps(s, a, s');
    case Renew(_, _, _) => QueueKeeps(s, a, s');
    case Acknowledge(_, _) => SettleKeeps(s, a, s');
    case Reject(_, _, _) => SettleKeeps(s, a, s');
    case DeadLetter(_, _) => SettleKeeps(s, a, s');
    case RemoveConsumer(_) => RemoveKeeps(s, a, s');
    case Repair(entry) => NothingToRepair(s, entry); StepIsEnabled(s, a, s'); assert false;
  }

  lemma StepIsEnabled(s: State, a: Action, s': State)
    requires Step(s, a, s')
    ensures Enabled(s, a)
  {
    hide Enabled;
  }
}
