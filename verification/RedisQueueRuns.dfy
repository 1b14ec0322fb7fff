/** What holds over whole runs of the Redis queue, with any number of clients. */
module RedisQueueRuns {
  import opened Common
  import opened RedisQueueModel
  import opened RedisQueueSteps

  ghost predicate IsRun(states: seq<State>, actions: seq<Action>) {
    && |states| == |actions| + 1 && states[0] == Initial()
    && forall i :: 0 <= i < |actions| ==> Step(states[i], actions[i], states[i + 1])
  }

  ghost predicate AllCareful(states: seq<State>, actions: seq<Action>)
    requires |states| == |actions| + 1
  {
    forall i :: 0 <= i < |actions| ==> Careful(states[i], actions[i])
  }

  lemma InitialInvariant()
    ensures Invariant(Initial())
  {}

  lemma {:induction false} RunKeepsInvariant(states: seq<State>, actions: seq<Action>, n: nat)
    requires IsRun(states, actions) && AllCareful(states, actions) && n < |states|
    ensures Invariant(states[n])
  {
    hide Invariant, Step, Careful;
    if n == 0 {
      InitialInvariant();
    } else {
      RunKeepsInvariant(states, actions, n - 1);
      assert Step(states[n - 1], actions[n - 1], states[n - 1 + 1]);
      assert Careful(states[n - 1], actions[n - 1]);
      StepKeepsInvariant(states[n - 1], actions[n - 1], states[n]);
    }
  }

  /** Every published item is acknowledged, dead-lettered, or live and then in exactly
      one of the stream and the delayed set; receipts and deadlines cover the same
      pending entries; attempts stay within the maximum. */
  lemma EveryItemAccountedFor(states: seq<State>, actions: seq<Action>, n: nat, i: string)
    requires IsRun(states, actions) && AllCareful(states, actions) && n < |states| && i in states[n].sent
    ensures var s := states[n];
            && i in s.fate
            && (s.fate[i].Live? <==> i in s.db.delayed || exists e :: e in s.db.stream && s.db.stream[e] == i)
            && !(i in s.db.delayed && exists e :: e in s.db.stream && s.db.stream[e] == i)
            && (forall e, f :: e in s.db.stream && f in s.db.stream && s.db.stream[e] == i && s.db.stream[f] == i ==>
                e == f)
            && (s.fate[i].Live? ==> i in s.db.attempts && s.db.attempts[i] <= s.sent[i].maximum)
            && (s.fate[i].DeadLettered? ==> exists k :: 0 <= k < |s.db.dead| && s.db.dead[k].identity == i)
  {
    hide IsRun, AllCareful, Unissued, TokensNew, Covered;
    RunKeepsInvariant(states, actions, n);
    var s := states[n];
    if IsLive(s.fate, i) { LiveWithinMaximum(s, i); }
    assert IsLive(s.fate, i) == s.fate[i].Live?;
  }

  lemma LiveWithinMaximum(s: State, i: string)
    requires Invariant(s) && IsLive(s.fate, i)
    ensures i in s.sent && i in s.db.attempts && s.db.attempts[i] <= s.sent[i].maximum
  {
    hide Unissued, TokensNew, Covered, LettersRight;
    if i !in s.db.delayed {
      var e :| e in s.db.stream && s.db.stream[e] == i;
      WithinMaximum(s.db, s.sent, s.fate, e);
    } else {
      assert MoreLeft(s.db.attempts, s.db.maximums, i);
    }
  }

  lemma ReceiptsCoverPending(states: seq<State>, actions: seq<Action>, n: nat)
    requires IsRun(states, actions) && AllCareful(states, actions) && n < |states|
    ensures var db := states[n].db;
            && db.receipts.Keys == db.visible.Keys && db.receipts.Keys <= db.pending.Keys
            && (forall e :: e in db.pending <==> e in db.stream && e <= db.lastRead)
  {
    hide IsRun, AllCareful, Unissued, TokensNew, OnePlace, Kept, Attempted, LettersRight;
    RunKeepsInvariant(states, actions, n);
  }

  // ----- replaced receipts -----

  ghost predicate Gone(s: State, token: string) {
    token in s.used && forall e :: e in s.db.receipts ==> s.db.receipts[e].token != token
  }

  predicate ActsFor(a: Action, token: string) {
    (a.Renew? || a.Acknowledge? || a.Reject? || a.DeadLetter?) && a.receipt.token == token
  }

  /** A step leaves a receipt as it was, removes it, or puts a newly drawn one. */
  ghost predicate Receipted(s: State, a: Action, s': State) {
    && s.used <= s'.used
    && forall e :: e in s'.db.receipts ==>
         || (e in s.db.receipts && s'.db.receipts[e] == s.db.receipts[e])
         || ((a.Issue? || a.Claim?) && s'.db.receipts[e].token == a.token)
  }

  lemma StepReceipts(s: State, a: Action, s': State)
    requires Step(s, a, s')
    ensures Receipted(s, a, s')
  {
    hide AttemptsOf, Exhausted, IsNext, Buried, Forgotten, Placed, Published, Promoted, Rejected;
    match a
    case Publish(i, payload, maximum, due) => PlacedReceipts(s.db, i, payload, maximum, due);
    case Promote(i) => PlacedReceipts(s.db, i, [], 0, None);
    case Claim(e, _, _, _) => BuriedReceipts(s.db, e, s.db.stream[e], None);
    case Acknowledge(e, receipt) => ForgottenReceipts(Dropped(s.db, e), receipt.identity);
    case Reject(e, receipt, due) => BuriedReceipts(s.db, e, receipt.identity, due);
    case DeadLetter(e, receipt) => BuriedReceipts(s.db, e, receipt.identity, None);
    case _ =>
  }

  lemma PlacedReceipts(db: Keys, i: string, payload: Bytes, maximum: nat, due: Option<int>)
    ensures Published(db, i, payload, maximum, due).receipts == db.receipts && Promoted(db, i).receipts == db.receipts
  {}

  lemma ForgottenReceipts(db: Keys, i: string)
    ensures Forgotten(db, i).receipts == db.receipts
  {}

  lemma BuriedReceipts(db: Keys, e: nat, i: string, due: Option<int>)
    requires i in db.payloads
    ensures Buried(db, e, i).receipts == db.receipts - {e} && Rejected(db, e, i, due).receipts == db.receipts - {e}
  {
    hide AttemptsOf, Exhausted;
  }

  lemma StepKeepsGone(s: State, a: Action, s': State, token: string)
    requires Step(s, a, s') && Gone(s, token)
    ensures Gone(s', token) && !ActsFor(a, token)
  {
    hide Published, Promoted, ReadBy, Handed, Dropped, Forgotten, Buried, Claimed, Rejected, Lost, Exhausted, IsNext;
    StepReceipts(s, a, s');
  }

  lemma {:induction false} GoneStaysGone(states: seq<State>, actions: seq<Action>, i: nat, n: nat, token: string)
    requires IsRun(states, actions) && i <= n < |states| && Gone(states[i], token)
    ensures Gone(states[n], token)
    decreases n - i
  {
    hide Step, Gone;
    if i < n {
      GoneStaysGone(states, actions, i, n - 1, token);
      assert Step(states[n - 1], actions[n - 1], states[n - 1 + 1]);
      StepKeepsGone(states[n - 1], actions[n - 1], states[n], token);
    }
  }

  /** A receipt that was replaced or settled never settles or renews anything again. */
  lemma ReplacedReceiptIsUseless(
    states: seq<State>, actions: seq<Action>, i: nat, n: nat, entry: nat, token: string)
    requires IsRun(states, actions) && AllCareful(states, actions) && i < n < |actions|
    requires entry in states[i].db.receipts && states[i].db.receipts[entry].token == token
    requires entry in states[i + 1].db.receipts ==> states[i + 1].db.receipts[entry].token != token
    ensures !ActsFor(actions[n], token)
  {
    hide Step, Coherent, Unissued;
    RunKeepsInvariant(states, actions, i);
    assert Step(states[i], actions[i], states[i + 1]);
    assert Step(states[n], actions[n], states[n + 1]);
    ReplacedIsGone(states[i], actions[i], states[i + 1], entry, token);
    GoneStaysGone(states, actions, i + 1, n, token);
    StepKeepsGone(states[n], actions[n], states[n + 1], token);
  }

  lemma ReplacedIsGone(s: State, a: Action, s': State, entry: nat, token: string)
    requires Step(s, a, s') && TokensNew(s.db.receipts, s.used)
    requires entry in s.db.receipts && s.db.receipts[entry].token == token
    requires entry in s'.db.receipts ==> s'.db.receipts[entry].token != token
    ensures Gone(s', token)
  {
    hide Published, Promoted, ReadBy, Handed, Dropped, Forgotten, Buried, Claimed, Rejected, Lost, Exhausted, IsNext;
    StepReceipts(s, a, s');
  }

  // ----- removing a consumer that still has work -----

  /** In the stream, already delivered, pending for nobody and under no receipt. */
  predicate Stranded(db: Keys, entry: nat, identity: string) {
    && entry in db.stream && db.stream[entry] == identity && entry <= db.lastRead <= db.lastId
    && entry !in db.pending && entry !in db.receipts
  }

  /** Stranded, in a stream that numbers its entries upwards. */
  ghost predicate Stuck(db: Keys, entry: nat, identity: string) {
    Stranded(db, entry, identity) && forall e :: e in db.stream ==> e <= db.lastId
  }

  /** Taking away the consumer of an entry that has no receipt yet strands the entry. */
  lemma CarelessRemovalStrands(s: State, consumer: string, s': State, entry: nat)
    requires Invariant(s) && Step(s, RemoveConsumer(consumer), s')
    requires entry in s.db.pending && s.db.pending[entry] == consumer && entry !in s.db.receipts
    ensures entry in s.db.stream && Stuck(s'.db, entry, s.db.stream[entry])
  {
    hide OnePlace, Kept, Attempted, LettersRight, Unissued, TokensNew;
  }

  lemma StuckThroughScripts(db: Keys, entry: nat, identity: string, other: nat)
    requires Stuck(db, entry, identity) && other != entry
    ensures Stuck(Dropped(db, other), entry, identity)
    ensures forall i :: Stuck(Forgotten(db, i), entry, identity)
    ensures forall i, token, deadline :: Stuck(Handed(db, other, i, token, deadline), entry, identity)
  {}

  lemma StuckThroughClaim(db: Keys, entry: nat, identity: string, other: nat, consumer: string)
    requires Stuck(db, entry, identity) && other != entry
    ensures Stuck(db.(pending := db.pending[other := consumer]), entry, identity)
  {}

  lemma StuckThroughPlacing(db: Keys, entry: nat, identity: string, i: string, due: Option<int>)
    requires Stuck(db, entry, identity)
    ensures Stuck(Placed(db, i, due), entry, identity)
  {}

  lemma StuckBuried(db: Keys, entry: nat, identity: string, other: nat, i: string)
    requires Stuck(db, entry, identity) && other != entry && i in db.payloads
    ensures Stuck(Buried(db, other, i), entry, identity)
  {}

  lemma StepKeepsStuck(s: State, a: Action, s': State, entry: nat, identity: string)
    requires Step(s, a, s') && Stuck(s.db, entry, identity)
    ensures Stuck(s'.db, entry, identity)
  {
    hide Placed, Handed, Dropped, Buried, Forgotten, AttemptsOf;
    match a
    case Publish(i, payload, maximum, due) =>
      var m := s.db.(payloads := s.db.payloads[i := payload], maximums := s.db.maximums[i := maximum],
                     attempts := s.db.attempts[i := 0]);
      StuckThroughPlacing(m, entry, identity, i, due);
    case Promote(i) => StuckThroughPlacing(s.db, entry, identity, i, None);
    case Issue(consumer, token, deadline) =>
      if StillMine(s, consumer) { StuckThroughScripts(s.db, entry, identity, s.reading[consumer]); }
    case Claim(e, consumer, token, deadline) =>
      StuckThroughClaim(s.db, entry, identity, e, consumer);
      StuckThroughScripts(s.db.(pending := s.db.pending[e := consumer]), entry, identity, e);
      StuckBuried(s.db, entry, identity, e, s.db.stream[e]);
    case Acknowledge(e, receipt) =>
      StuckThroughScripts(s.db, entry, identity, e);
      StuckThroughScripts(Dropped(s.db, e), entry, identity, e);
    case Reject(e, receipt, due) =>
      StuckThroughScripts(s.db, entry, identity, e);
      StuckThroughPlacing(Dropped(s.db, e), entry, identity, receipt.identity, due);
      StuckBuried(s.db, entry, identity, e, receipt.identity);
    case DeadLetter(e, receipt) => StuckBuried(s.db, entry, identity, e, receipt.identity);
    case _ =>
  }

  /** A stranded entry stays stranded whatever happens next: its item is never
      delivered again, never acknowledged and never dead-lettered through it. */
  lemma {:induction false} StrandedForEver(
    states: seq<State>, actions: seq<Action>, n: nat, entry: nat, identity: string)
    requires |states| == |actions| + 1 && n < |states|
    requires forall i :: 0 <= i < |actions| ==> Step(states[i], actions[i], states[i + 1])
    requires Stuck(states[0].db, entry, identity)
    ensures Stuck(states[n].db, entry, identity)
  {
    hide Step, Stuck;
    if n > 0 {
      StrandedForEver(states, actions, n - 1, entry, identity);
      assert Step(states[n - 1], actions[n - 1], states[n - 1 + 1]);
      StepKeepsStuck(states[n - 1], actions[n - 1], states[n], entry, identity);
    }
  }

  /** Removing a consumer keeps the invariant if and only if nothing is pending for it. */
  lemma RemovalKeepsInvariantIffCareful(s: State, consumer: string, s': State)
    requires Invariant(s) && Step(s, RemoveConsumer(consumer), s')
    ensures Invariant(s') <==> Careful(s, RemoveConsumer(consumer))
  {
    hide OnePlace, Kept, Attempted, LettersRight, Unissued, TokensNew;
    if Careful(s, RemoveConsumer(consumer)) {
      RemoveKeeps(s, RemoveConsumer(consumer), s');
    } else {
      var e: nat :| e in s.db.pending && s.db.pending[e] == consumer;
      assert e in s'.db.stream && e <= s'.db.lastRead && e !in s'.db.pending;
    }
  }

  /** In the stream, pending for nobody, but still under a receipt. */
  ghost predicate Loose(db: Keys, entry: nat, identity: string) {
    && entry in db.stream && db.stream[entry] == identity && entry <= db.lastRead <= db.lastId
    && entry !in db.pending && entry in db.receipts && entry in db.visible
    && forall e :: e in db.stream ==> e <= db.lastId
  }

  /** If the entry has its receipt already, the removal leaves it loose. */
  lemma CarelessRemovalLoosens(s: State, consumer: string, s': State, entry: nat)
    requires Invariant(s) && Step(s, RemoveConsumer(consumer), s')
    requires entry in s.db.pending && s.db.pending[entry] == consumer && entry in s.db.receipts
    ensures entry in s.db.stream && Loose(s'.db, entry, s.db.stream[entry])
  {
    hide OnePlace, Kept, Attempted, LettersRight, Unissued, TokensNew;
    assert entry in s.db.receipts.Keys;
  }

  predicate Settles(a: Action, entry: nat) { (a.Acknowledge? || a.Reject? || a.DeadLetter?) && a.entry == entry }

  lemma LooseThroughScripts(db: Keys, entry: nat, identity: string, other: nat)
    requires Loose(db, entry, identity) && other != entry
    ensures Loose(Dropped(db, other), entry, identity)
    ensures forall i :: Loose(Forgotten(db, i), entry, identity)
    ensures forall i, token, deadline :: Loose(Handed(db, other, i, token, deadline), entry, identity)
  {}

  lemma LooseThroughClaim(db: Keys, entry: nat, identity: string, other: nat, consumer: string)
    requires Loose(db, entry, identity) && other != entry
    ensures Loose(db.(pending := db.pending[other := consumer]), entry, identity)
  {}

  lemma LooseThroughPlacing(db: Keys, entry: nat, identity: string, i: string, due: Option<int>)
    requires Loose(db, entry, identity)
    ensures Loose(Placed(db, i, due), entry, identity)
  {}

  lemma LooseBuried(db: Keys, entry: nat, identity: string, other: nat, i: string)
    requires Loose(db, entry, identity) && other != entry && i in db.payloads
    ensures Loose(Buried(db, other, i), entry, identity)
  {}

  /** A loose entry has two ways out: the holder of its receipt settles it, or a claim
      that finds it due takes its receipt away and strands it. */
  lemma LooseIsSettledOrStranded(s: State, a: Action, s': State, entry: nat, identity: string)
    requires Step(s, a, s') && Loose(s.db, entry, identity)
    ensures if a == Repair(entry) then Stuck(s'.db, entry, identity)
            else Settles(a, entry) || Loose(s'.db, entry, identity)
  {
    hide Placed, Handed, Dropped, Buried, Forgotten, AttemptsOf;
    match a
    case Publish(i, payload, maximum, due) =>
      var m := s.db.(payloads := s.db.payloads[i := payload], maximums := s.db.maximums[i := maximum],
                     attempts := s.db.attempts[i := 0]);
      LooseThroughPlacing(m, entry, identity, i, due);
    case Promote(i) => LooseThroughPlacing(s.db, entry, identity, i, None);
    case Issue(consumer, token, deadline) =>
      if StillMine(s, consumer) { LooseThroughScripts(s.db, entry, identity, s.reading[consumer]); }
    case Claim(e, consumer, token, deadline) =>
      LooseThroughClaim(s.db, entry, identity, e, consumer);
      LooseThroughScripts(s.db.(pending := s.db.pending[e := consumer]), entry, identity, e);
      LooseBuried(s.db, entry, identity, e, s.db.stream[e]);
    case Acknowledge(e, receipt) =>
      if e != entry {
        LooseThroughScripts(s.db, entry, identity, e);
        LooseThroughScripts(Dropped(s.db, e), entry, identity, e);
      }
    case Reject(e, receipt, due) =>
      if e != entry {
        LooseThroughScripts(s.db, entry, identity, e);
        LooseThroughPlacing(Dropped(s.db, e), entry, identity, receipt.identity, due);
        LooseBuried(s.db, entry, identity, e, receipt.identity);
      }
    case DeadLetter(e, receipt) => if e != entry { LooseBuried(s.db, entry, identity, e, receipt.identity); }
    case _ =>
  }

  /** A run from the empty queue: an item is published and read, its reader is removed
      before it could issue a receipt, and the item is stranded. */
  lemma StrandingRun() returns (states: seq<State>, actions: seq<Action>)
    ensures IsRun(states, actions) && Stuck(states[|actions|].db, 1, "i")
  {
    hide IsRun;
    var s0 := Initial();
    var s1 := s0.(db := Published(s0.db, "i", [], 1, None), sent := map["i" := Sent([], 1)], fate := map["i" := Live]);
    assert IsNext(s1.db, 1);
    var s2 := s1.(db := ReadBy(s1.db, "c", 1), reading := map["c" := 1]);
    var s3 := s2.(db := s2.db.(pending := Lost(s2.db.pending, "c")));
    var publish, read, remove := Publish("i", [], 1, None), Read("c", 1), RemoveConsumer("c");
    assert Step(s0, publish, s1) && Step(s1, read, s2) && Step(s2, remove, s3);
    states, actions := [s0, s1, s2, s3], [publish, read, remove];
    ThreeSteps(s0, publish, s1, read, s2, remove, s3);
  }

  lemma ThreeSteps(s0: State, a: Action, s1: State, b: Action, s2: State, c: Action, s3: State)
    requires s0 == Initial() && Step(s0, a, s1) && Step(s1, b, s2) && Step(s2, c, s3)
    ensures IsRun([s0, s1, s2, s3], [a, b, c])
  {
    hide Step;
  }
}
