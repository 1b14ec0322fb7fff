/** One Redis work queue: the keys its scripts share, and the steps that scripts and
    readers take on them. */
module RedisQueueModel {
  import opened Common

  datatype Receipt = Receipt(token: string, identity: string)
  datatype Letter = Letter(identity: string, payload: Bytes, attempt: nat)

  datatype Keys = Keys(
    stream: map<nat, string>,      // entry to identity
    lastId: nat,                   // last entry number the stream gave out
    lastRead: nat,                 // last entry the consumer group delivered
    pending: map<nat, string>,     // entry to the consumer it was delivered to
    delayed: map<string, int>,     // identity to due time
    payloads: map<string, Bytes>,
    maximums: map<string, nat>,
    attempts: map<string, nat>,
    receipts: map<nat, Receipt>,
    visible: map<nat, int>,        // entry to visibility deadline
    dead: seq<Letter>)

  datatype Fate = Live | Acknowledged | DeadLettered(attempt: nat)
  datatype Sent = Sent(payload: Bytes, maximum: nat)

  /** The keys, the readers that hold an entry without a receipt, and the history. */
  datatype State = State(
    db: Keys,
    reading: map<string, nat>,
    used: set<string>,             // every receipt token drawn
    sent: map<string, Sent>,
    fate: map<string, Fate>)

  datatype Action =
    | Publish(identity: string, payload: Bytes, maximum: nat, due: Option<int>)
    | Promote(identity: string)
    | Read(consumer: string, entry: nat)
    | Issue(consumer: string, token: string, deadline: int)
    | Abandon(consumer: string)
    | Claim(entry: nat, consumer: string, token: string, deadline: int)
    | Renew(entry: nat, receipt: Receipt, deadline: int)
    | Acknowledge(entry: nat, receipt: Receipt)
    | Reject(entry: nat, receipt: Receipt, due: Option<int>)
    | DeadLetter(entry: nat, receipt: Receipt)
    | RemoveConsumer(consumer: string)
    | Repair(entry: nat)           // a claim that finds its entry no longer pending

  // ----- what the scripts do to the keys -----

  /** The stream or the delayed set takes an identity. */
  function Placed(db: Keys, identity: string, due: Option<int>): Keys {
    match due
    case None => db.(stream := db.stream[db.lastId + 1 := identity], lastId := db.lastId + 1)
    case Some(time) => db.(delayed := db.delayed[identity := time])
  }

  function Published(db: Keys, identity: string, payload: Bytes, maximum: nat, due: Option<int>): Keys {
    Placed(db.(payloads := db.payloads[identity := payload], maximums := db.maximums[identity := maximum],
               attempts := db.attempts[identity := 0]), identity, due)
  }

  function Promoted(db: Keys, identity: string): Keys {
    Placed(db, identity, None).(delayed := db.delayed - {identity})
  }

  /** The oldest entry the group has not delivered. */
  ghost predicate IsNext(db: Keys, entry: nat) {
    entry in db.stream && entry > db.lastRead && forall e :: e in db.stream && e > db.lastRead ==> entry <= e
  }

  function ReadBy(db: Keys, consumer: string, entry: nat): Keys {
    db.(lastRead := entry, pending := db.pending[entry := consumer])
  }

  function AttemptsOf(db: Keys, identity: string): nat { if identity in db.attempts then db.attempts[identity] else 0 }

  /** One more attempt, under a new receipt. */
  function Handed(db: Keys, entry: nat, identity: string, token: string, deadline: int): Keys {
    db.(attempts := db.attempts[identity := AttemptsOf(db, identity) + 1],
        receipts := db.receipts[entry := Receipt(token, identity)],
        visible := db.visible[entry := deadline])
  }

  function Dropped(db: Keys, entry: nat): Keys {
    db.(stream := db.stream - {entry}, pending := db.pending - {entry},
        receipts := db.receipts - {entry}, visible := db.visible - {entry})
  }

  function Forgotten(db: Keys, identity: string): Keys {
    db.(payloads := db.payloads - {identity}, maximums := db.maximums - {identity},
        attempts := db.attempts - {identity})
  }

  function Buried(db: Keys, entry: nat, identity: string): Keys
    requires identity in db.payloads
  {
    Forgotten(Dropped(db, entry).(dead := db.dead + [Letter(identity, db.payloads[identity],
        AttemptsOf(db, identity))]),
              identity)
  }

  /** No attempt is left. */
  predicate Exhausted(db: Keys, identity: string) {
    identity in db.maximums && AttemptsOf(db, identity) >= db.maximums[identity]
  }

  predicate Holds(db: Keys, entry: nat, receipt: Receipt) { entry in db.receipts && db.receipts[entry] == receipt }

  function Claimed(db: Keys, entry: nat, consumer: string, token: string, deadline: int): Keys
    requires entry in db.stream && db.stream[entry] in db.payloads
  {
    var identity := db.stream[entry];
    if Exhausted(db, identity) then Buried(db, entry, identity)
    else Handed(db.(pending := db.pending[entry := consumer]), entry, identity, token, deadline)
  }

  function Rejected(db: Keys, entry: nat, identity: string, due: Option<int>): Keys
    requires identity in db.payloads
  {
    if Exhausted(db, identity) then Buried(db, entry, identity) else Placed(Dropped(db, entry), identity, due)
  }

  // ----- what the keys say afterwards -----

  /** The identity waits for its time, or is at the end of the stream. */
  ghost predicate Waits(stream: map<nat, string>, lastId: nat, delayed: map<string, int>, db: Keys,
                        identity: string, delay: nat, now: int) {
    if delay == 0 then
      && db.delayed == delayed && db.lastId > lastId && db.lastId in db.stream && db.stream[db.lastId] == identity
      && db.stream - {db.lastId} == stream
    else db.stream == stream && db.delayed == delayed[identity := now + delay]
  }

  /** The entry is delivered under this receipt until that time. */
  ghost predicate InForce(db0: Keys, db: Keys, entry: nat, receipt: Receipt, attempt: nat, deadline: int) {
    && db.receipts == db0.receipts[entry := receipt] && db.visible == db0.visible[entry := deadline]
    && db.attempts == db0.attempts[receipt.identity := attempt]
    && db.stream == db0.stream && db.delayed == db0.delayed && db.dead == db0.dead
  }

  /** The entry is gone from all keys that know entries. */
  predicate EntryGone(db: Keys, entry: nat) {
    entry !in db.stream && entry !in db.pending && entry !in db.receipts && entry !in db.visible
  }

  /** The item is one more dead letter, and gone from everywhere else. */
  ghost predicate OneLetterMore(db0: Keys, db: Keys, entry: nat, identity: string)
    requires identity in db0.payloads
  {
    && db.dead == db0.dead + [Letter(identity, db0.payloads[identity], AttemptsOf(db0, identity))]
    && EntryGone(db, entry) && db.stream == db0.stream - {entry} && db.delayed == db0.delayed
    && identity !in db.payloads && identity !in db.attempts && identity !in db.maximums
  }

  // ----- steps -----

  /** A reader's entry, while it is still the reader's. */
  predicate StillMine(s: State, consumer: string)
    requires consumer in s.reading
  {
    s.reading[consumer] in s.db.pending && s.db.pending[s.reading[consumer]] == consumer
  }

  ghost predicate Enabled(s: State, a: Action) {
    match a
    case Publish(identity, _, maximum, _) => identity !in s.sent && 0 < maximum
    case Promote(identity) => identity in s.db.delayed
    case Read(consumer, entry) => consumer !in s.reading && IsNext(s.db, entry)
    case Issue(consumer, token, _) => consumer in s.reading && token !in s.used
    case Abandon(_) => true
    case Claim(entry, consumer, token, _) => entry in s.db.pending && consumer !in s.reading && token !in s.used
    case Renew(entry, receipt, _) => Holds(s.db, entry, receipt)
    case Acknowledge(entry, receipt) => Holds(s.db, entry, receipt)
    case Reject(entry, receipt, _) => Holds(s.db, entry, receipt)
    case DeadLetter(entry, receipt) => Holds(s.db, entry, receipt)
    case RemoveConsumer(_) => true
    case Repair(entry) => entry in s.db.visible && entry !in s.db.pending
  }

  function Lost(pending: map<nat, string>, consumer: string): map<nat, string> {
    map e | e in pending && pending[e] != consumer :: pending[e]
  }

  /** What happened to the item when its entry is buried. */
  function BuriedFate(s: State, identity: string): map<string, Fate> {
    s.fate[identity := DeadLettered(AttemptsOf(s.db, identity))]
  }

  ghost predicate Step(s: State, a: Action, s': State) {
    && Enabled(s, a)
    && match a
       case Publish(identity, payload, maximum, due) =>
         s' == s.(db := Published(s.db, identity, payload, maximum, due),
                  sent := s.sent[identity := Sent(payload, maximum)], fate := s.fate[identity := Live])
       case Promote(identity) => s' == s.(db := Promoted(s.db, identity))
       case Read(consumer, entry) =>
         s' == s.(db := ReadBy(s.db, consumer, entry), reading := s.reading[consumer := entry])
       case Issue(consumer, token, deadline) =>
         var entry := s.reading[consumer];
         && (StillMine(s, consumer) ==> entry in s.db.stream)
         && s' == s.(db := if StillMine(s, consumer) then Handed(s.db, entry, s.db.stream[entry], token,
             deadline) else s.db,
                     reading := s.reading - {consumer}, used := s.used + {token})
       case Abandon(consumer) => s' == s.(reading := s.reading - {consumer})
       case Claim(entry, consumer, token, deadline) =>
         && entry in s.db.stream && s.db.stream[entry] in s.db.payloads
         && s' == s.(db := Claimed(s.db, entry, consumer, token, deadline), used := s.used + {token},
                     fate := if Exhausted(s.db, s.db.stream[entry]) then BuriedFate(s, s.db.stream[entry]) else s.fate)
       case Renew(entry, _, deadline) => s' == s.(db := s.db.(visible := s.db.visible[entry := deadline]))
       case Acknowledge(entry, receipt) =>
         s' == s.(db := Forgotten(Dropped(s.db, entry), receipt.identity),
                  fate := s.fate[receipt.identity := Acknowledged])
       case Reject(entry, receipt, due) =>
         && receipt.identity in s.db.payloads
         && s' == s.(db := Rejected(s.db, entry, receipt.identity, due),
                     fate := if Exhausted(s.db, receipt.identity) then BuriedFate(s, receipt.identity) else s.fate)
       case DeadLetter(entry, receipt) =>
         && receipt.identity in s.db.payloads
         && s' == s.(db := Buried(s.db, entry, receipt.identity), fate := BuriedFate(s, receipt.identity))
       case RemoveConsumer(consumer) => s' == s.(db := s.db.(pending := Lost(s.db.pending, consumer)))
       case Repair(entry) =>
         s' == s.(db := s.db.(receipts := s.db.receipts - {entry}, visible := s.db.visible - {entry}))
  }

  /** A consumer is removed only when nothing is pending for it. */
  ghost predicate Careful(s: State, a: Action) {
    a.RemoveConsumer? ==> forall e :: e in s.db.pending ==> s.db.pending[e] != a.consumer
  }

  function Initial(): State {
    State(Keys(map[], 0, 0, map[], map[], map[], map[], map[], map[], map[], []), map[], {}, map[], map[])
  }

  // ----- the invariant -----

  predicate IsLive(fate: map<string, Fate>, identity: string) { identity in fate && fate[identity].Live? }

  /** The stream and the delayed set share out the live items: each is in exactly one of
      them, once. */
  ghost predicate OnePlace(stream: map<nat, string>, delayed: map<string, int>, fate: map<string, Fate>) {
    && (forall e, f :: e in stream && f in stream && stream[e] == stream[f] ==> e == f)
    && (forall e :: e in stream ==> stream[e] !in delayed && IsLive(fate, stream[e]))
    && (forall i :: i in delayed ==> IsLive(fate, i))
    && (forall i :: IsLive(fate, i) ==> i in delayed || exists e :: e in stream && stream[e] == i)
  }

  ghost predicate Kept(
    payloads: map<string, Bytes>, maximums: map<string, nat>, attempts: map<string, nat>,
    sent: map<string, Sent>, fate: map<string, Fate>)
  {
    && sent.Keys == fate.Keys
    && (forall i :: i in sent ==> 0 < sent[i].maximum)
    && (forall i :: IsLive(fate, i) <==> i in payloads)
    && maximums.Keys == payloads.Keys && attempts.Keys == payloads.Keys
    && (forall i :: i in payloads ==> i in sent && sent[i] == Sent(payloads[i], maximums[i]))
  }

  /** Receipts and deadlines belong to the same entries, all of them pending; every
      entry the group has delivered is pending. */
  ghost predicate Covered(
    stream: map<nat, string>, pending: map<nat, string>, receipts: map<nat, Receipt>, visible: map<nat, int>,
    lastRead: nat, lastId: nat)
  {
    && receipts.Keys == visible.Keys
    && (forall e :: e in receipts ==> e in pending && e in stream && receipts[e].identity == stream[e])
    && (forall e :: e in pending <==> e in stream && e <= lastRead)
    && (forall e :: e in stream ==> e <= lastId)
    && lastRead <= lastId
  }

  predicate MoreLeft(attempts: map<string, nat>, maximums: map<string, nat>, i: string) {
    i in attempts && i in maximums && attempts[i] < maximums[i]
  }

  predicate Tried(attempts: map<string, nat>, maximums: map<string, nat>, i: string) {
    i in attempts && i in maximums && 1 <= attempts[i] <= maximums[i]
  }

  /** Items waiting have an attempt left; items under a receipt have used one to all. */
  ghost predicate Attempted(
    stream: map<nat, string>, delayed: map<string, int>, receipts: map<nat, Receipt>,
    attempts: map<string, nat>, maximums: map<string, nat>)
  {
    && (forall i :: i in delayed ==> MoreLeft(attempts, maximums, i))
    && (forall e :: e in stream && e !in receipts ==> MoreLeft(attempts, maximums, stream[e]))
    && (forall e :: e in stream && e in receipts ==> Tried(attempts, maximums, stream[e]))
  }

  /** A reader whose entry is still its own has no receipt for it yet. */
  ghost predicate Unissued(
    pending: map<nat, string>, receipts: map<nat, Receipt>, lastRead: nat, reading: map<string, nat>)
  {
    forall c :: c in reading ==>
      && reading[c] <= lastRead
      && (reading[c] in pending && pending[reading[c]] == c ==> reading[c] !in receipts)
  }

  ghost predicate TokensNew(receipts: map<nat, Receipt>, used: set<string>) {
    && (forall e :: e in receipts ==> receipts[e].token in used)
    && (forall e, f :: e in receipts && f in receipts && receipts[e].token == receipts[f].token ==> e == f)
  }

  /** The dead letters are those the history knows, with their payloads. */
  ghost predicate LettersRight(dead: seq<Letter>, sent: map<string, Sent>, fate: map<string, Fate>) {
    && (forall k :: 0 <= k < |dead| ==>
          && dead[k].identity in sent && dead[k].payload == sent[dead[k].identity].payload
          && dead[k].identity in fate && fate[dead[k].identity] == DeadLettered(dead[k].attempt)
          && dead[k].attempt <= sent[dead[k].identity].maximum)
    && (forall j, k :: 0 <= j < k < |dead| ==> dead[j].identity != dead[k].identity)
    && (forall i :: i in fate && fate[i].DeadLettered? ==> exists k :: 0 <= k < |dead| && dead[k].identity == i)
  }

  ghost predicate Invariant(s: State) {
    && Coherent(s.db, s.sent, s.fate)
    && Unissued(s.db.pending, s.db.receipts, s.db.lastRead, s.reading)
    && TokensNew(s.db.receipts, s.used)
  }

  /** What the scripts rely on and keep. */
  ghost predicate Coherent(db: Keys, sent: map<string, Sent>, fate: map<string, Fate>) {
    && OnePlace(db.stream, db.delayed, fate)
    && Kept(db.payloads, db.maximums, db.attempts, sent, fate)
    && Covered(db.stream, db.pending, db.receipts, db.visible, db.lastRead, db.lastId)
    && Attempted(db.stream, db.delayed, db.receipts, db.attempts, db.maximums)
    && LettersRight(db.dead, sent, fate)
  }
}
