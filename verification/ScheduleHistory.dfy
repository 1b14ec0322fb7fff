/** What a schedule store has answered decides what it answers next. Nothing here looks at
    a store's state: the record of a key is what was last stored under it, and a claim is
    live from the answer that granted it until it expires or an answer ended it. Both
    stores are held to this in every run. */
module ScheduleHistory {
  import opened Common
  import opened Recurrence
  import opened SortedSets
  import opened ScheduleModel
  import opened ScheduleRuns

  datatype Answered = Answered(op: Op, now: real, out: Outcome)

  function KeyOf(op: Op): Option<Key> {
    match op
    case CreateOp(k, _, _, _) => Some(k)
    case UpdateOp(k, _, _, _, _) => Some(k)
    case DeleteOp(k) => Some(k)
    case TakeOp(k, _, _, _, _) => Some(k)
    case CompleteOp(c) => Some(c.key)
    case DiscardOp(c) => Some(c.key)
    case AdvanceOp(c, _, _) => Some(c.key)
    case HeldOp(c) => Some(c.key)
    case ReleaseOp(c) => Some(c.key)
    case DueOp(_, _, _, _) => None
  }

  // ----- what an answer means -----

  predicate Writes(a: Answered, k: Key) { a.out.Stored? && KeyOf(a.op) == Some(k) }

  predicate Removes(a: Answered, k: Key) {
    a.out.Done? && KeyOf(a.op) == Some(k) && (a.op.DeleteOp? || a.op.CompleteOp? || a.op.DiscardOp?)
  }

  predicate Grants(a: Answered, k: Key) { a.out.Claimed? && a.op.TakeOp? && a.op.key == k }

  /** An accepted complete, discard, advance or release. */
  predicate Settles(a: Answered, k: Key) {
    && (a.op.CompleteOp? || a.op.DiscardOp? || a.op.AdvanceOp? || a.op.ReleaseOp?)
    && a.op.claim.key == k && !a.out.Refused?
  }

  predicate Ends(a: Answered, k: Key) {
    Settles(a, k) || (a.op.DeleteOp? && a.op.key == k && a.out.Done?)
  }

  /** The claim a grant hands out. */
  function ClaimOf(a: Answered): Claim
    requires a.op.TakeOp? && a.out.Claimed?
  {
    Claim(a.op.key, a.op.claimant, a.out.fencing, a.op.token, a.out.record.revision)
  }

  function StateOf(a: Answered): ClaimState
    requires a.op.TakeOp? && a.out.Claimed?
  {
    ClaimState(a.op.claimant, a.out.fencing, a.op.token, a.out.record.revision, a.op.expiresAt)
  }

  // ----- reading the past -----

  /** The last write of a key that still has its record. */
  ghost predicate LastWrite(past: seq<Answered>, k: Key, i: nat): (last: bool)
    ensures last ==> i < |past| && Writes(past[i], k)
  {
    && i < |past| && Writes(past[i], k)
    && forall m :: i < m < |past| ==> !Writes(past[m], k) && !Removes(past[m], k)
  }

  ghost predicate Has(past: seq<Answered>, k: Key) { exists i: nat :: LastWrite(past, k, i) }

  ghost function RecordOf(past: seq<Answered>, k: Key): Record
    requires Has(past, k)
  {
    var i: nat :| LastWrite(past, k, i);
    past[i].out.record
  }

  /** A grant that nothing has ended and no operation has seen expired. */
  ghost predicate Standing(past: seq<Answered>, k: Key, i: nat): (standing: bool)
    ensures standing ==> i < |past| && Grants(past[i], k)
  {
    && i < |past| && Grants(past[i], k)
    && forall m :: i < m < |past| ==> !Ends(past[m], k) && past[m].now < past[i].op.expiresAt
  }

  ghost predicate LiveGrant(past: seq<Answered>, k: Key, now: real, i: nat) {
    Standing(past, k, i) && now < past[i].op.expiresAt
  }

  ghost predicate Busy(past: seq<Answered>, k: Key, now: real) { exists i: nat :: LiveGrant(past, k, now, i) }

  /** The claim is the live one of its key. */
  ghost predicate Owns(past: seq<Answered>, c: Claim, now: real) {
    exists i: nat :: LiveGrant(past, c.key, now, i) && ClaimOf(past[i]) == c
  }

  ghost predicate KeepsRecord(past: seq<Answered>, i: nat) {
    i < |past| && KeyOf(past[i].op).Some? && LastWrite(past, KeyOf(past[i].op).value, i)
  }

  /** How many records there are. */
  ghost function Count(past: seq<Answered>): nat { |set i: nat | i < |past| && KeepsRecord(past, i)| }

  ghost predicate NewRevision(past: seq<Answered>, revision: nat) {
    forall i :: 0 <= i < |past| && past[i].out.Stored? ==> past[i].out.record.revision < revision
  }

  ghost predicate NewFencing(past: seq<Answered>, fencing: nat) {
    forall i :: 0 <= i < |past| && past[i].out.Claimed? ==> past[i].out.fencing < fencing
  }

  /** Stored with a revision larger than any before. */
  ghost predicate StoredAnew(past: seq<Answered>, out: Outcome, r: Record) {
    out.Stored? && out.record == r.(revision := out.record.revision) && NewRevision(past, out.record.revision)
  }

  ghost predicate ToList(past: seq<Answered>, k: Key, op: Op, now: real, e: Entry)
    requires op.DueOp?
  {
    && k.owner == op.owner && Has(past, k) && !Busy(past, k, now)
    && EntryOf(RecordOf(past, k)) == e && e.score <= op.before && PastCursor(op.cursor, e)
  }

  ghost predicate ListsExactly(past: seq<Answered>, op: Op, now: real, X: set<Entry>, page: seq<Record>)
    requires op.DueOp?
  {
    && IsPage(Entries(page), X, op.limit)
    && (forall e :: e in X <==> exists k :: ToList(past, k, op, now, e))
    && (forall r :: r in page ==>
          Has(past, Key(op.owner, r.identity)) && RecordOf(past, Key(op.owner, r.identity)) == r)
  }

  /** The answer that the past allows. */
  ghost predicate Lawful(past: seq<Answered>, a: Answered, maximum: nat, round: Rounding) {
    match a.op
    case CreateOp(k, payload, due, interval) =>
      if Has(past, k) then a.out == Refused
      else if Count(past) >= maximum then a.out == Full
      else StoredAnew(past, a.out, Record(k.identity, 0, payload, due, interval))
    case UpdateOp(k, expected, payload, due, interval) =>
      if Has(past, k) && RecordOf(past, k).revision == expected && !Busy(past, k, a.now)
      then StoredAnew(past, a.out, Record(k.identity, 0, payload, due, interval))
      else a.out == Refused
    case DeleteOp(k) => a.out == if Has(past, k) then Done else Refused
    case TakeOp(k, _, _, _, _) =>
      if Has(past, k) && RecordOf(past, k).due <= a.now && !Busy(past, k, a.now)
      then a.out.Claimed? && a.out.record == RecordOf(past, k) && NewFencing(past, a.out.fencing)
      else a.out == Refused
    case CompleteOp(c) =>
      if !Owns(past, c, a.now) then a.out == Refused
      else
        && Has(past, c.key)
        && var r := RecordOf(past, c.key);
           if r.interval.None? then a.out == Done
           else StoredAnew(past, a.out, r.(due := round(MemoryNextDue(r.due, r.interval.value, a.now))))
    case DiscardOp(c) => a.out == if Owns(past, c, a.now) then Done else Refused
    case AdvanceOp(c, payload, due) =>
      if !Owns(past, c, a.now) then a.out == Refused
      else Has(past, c.key) && StoredAnew(past, a.out, RecordOf(past, c.key).(payload := payload, due := due))
    case HeldOp(c) => a.out == if Owns(past, c, a.now) then Done else Refused
    case ReleaseOp(c) => a.out == if Owns(past, c, a.now) then Done else Refused
    case DueOp(_, _, _, _) => a.out.Page? && exists X :: ListsExactly(past, a.op, a.now, X, a.out.records)
  }

  // ----- a step and what it answers -----

  ghost predicate RecordShown(records: map<Key, Record>, records': map<Key, Record>, a: Answered, k: Key) {
    if Writes(a, k) then k in records' && records'[k] == a.out.record
    else if Removes(a, k) then k !in records'
    else (k in records' <==> k in records) && (k in records ==> records'[k] == records[k])
  }

  ghost predicate ClaimShown(claims: map<Key, ClaimState>, claims': map<Key, ClaimState>, a: Answered, k: Key) {
    if Grants(a, k) then k !in claims && k in claims' && claims'[k] == StateOf(a)
    else if Ends(a, k) then k !in claims'
    else (k in claims' <==> k in claims) && (k in claims ==> claims'[k] == claims[k])
  }

  /** What a step does to one key shows in its answer. */
  lemma StepRecord(v: View, op: Op, now: real, maximum: nat, round: Rounding, k: Key)
    ensures var (v', out) := Step(v, op, now, maximum, round);
            RecordShown(v.records, v'.records, Answered(op, now, out), k)
  {
    hide MemoryNextDue, PageOf, DueEntries, Holds;
    match op
    case CreateOp(_, _, _, _) =>
    case UpdateOp(_, _, _, _, _) =>
    case DeleteOp(_) =>
    case TakeOp(_, _, _, _, _) =>
    case CompleteOp(_) =>
    case DiscardOp(_) =>
    case AdvanceOp(_, _, _) =>
    case HeldOp(_) =>
    case ReleaseOp(_) =>
    case DueOp(_, _, _, _) =>
  }

  lemma StepClaim(v: View, op: Op, now: real, maximum: nat, round: Rounding, k: Key)
    ensures var (v', out) := Step(v, op, now, maximum, round);
            ClaimShown(v.claims, v'.claims, Answered(op, now, out), k)
  {
    hide MemoryNextDue, PageOf, DueEntries, Holds;
  }

  lemma StepCounters(v: View, op: Op, now: real, maximum: nat, round: Rounding)
    ensures var (v', out) := Step(v, op, now, maximum, round);
            && v.revision <= v'.revision && v.fencing <= v'.fencing
            && (out.Stored? ==> v.revision < out.record.revision <= v'.revision)
            && (out.Claimed? ==> v.fencing < out.fencing <= v'.fencing)
  {
    hide MemoryNextDue, PageOf, DueEntries, Holds;
  }

  // ----- the state is what the past says -----

  ghost predicate RecordTold(records: map<Key, Record>, past: seq<Answered>, k: Key) {
    && (k in records ==> exists i: nat :: LastWrite(past, k, i) && past[i].out.record == records[k])
    && (Has(past, k) ==> k in records)
  }

  ghost predicate ClaimTold(claims: map<Key, ClaimState>, past: seq<Answered>, k: Key) {
    && (k in claims ==> exists i: nat :: Standing(past, k, i))
    && (forall i: nat :: Standing(past, k, i) ==> k in claims && claims[k] == StateOf(past[i]))
  }

  ghost predicate CountersTold(v: View, past: seq<Answered>) {
    forall i :: 0 <= i < |past| ==>
      && (past[i].out.Stored? ==> past[i].out.record.revision <= v.revision)
      && (past[i].out.Claimed? ==> past[i].out.fencing <= v.fencing)
  }

  ghost predicate Told(v: View, past: seq<Answered>) {
    && (forall k :: RecordTold(v.records, past, k)) && (forall k :: ClaimTold(v.claims, past, k))
    && CountersTold(v, past)
  }

  lemma LastWriteSnoc(past: seq<Answered>, a: Answered, k: Key, i: nat)
    ensures LastWrite(past + [a], k, i) <==>
            if i == |past| then Writes(a, k) else LastWrite(past, k, i) && !Writes(a, k) && !Removes(a, k)
  {
    hide Writes, Removes;
    var more := past + [a];
    assert forall m :: 0 <= m < |past| ==> more[m] == past[m];
    if i < |past| && LastWrite(more, k, i) { assert more[|past|] == a; }
  }

  lemma StandingSnoc(past: seq<Answered>, a: Answered, k: Key, i: nat)
    ensures Standing(past + [a], k, i) <==>
            if i == |past| then Grants(a, k)
            else Standing(past, k, i) && !Ends(a, k) && a.now < past[i].op.expiresAt
  {
    hide Grants, Ends;
    var more := past + [a];
    assert forall m :: 0 <= m < |past| ==> more[m] == past[m];
    if i < |past| && Standing(more, k, i) { assert more[|past|] == a; }
  }

  lemma RecordToldNext(records: map<Key, Record>, records': map<Key, Record>, past: seq<Answered>, a: Answered, k: Key)
    requires RecordTold(records, past, k)
    requires RecordShown(records, records', a, k)
    ensures RecordTold(records', past + [a], k)
  {
    hide LastWrite, Removes;
    forall i: nat ensures LastWrite(past + [a], k, i) <==>
      if i == |past| then Writes(a, k) else LastWrite(past, k, i) && !Writes(a, k) && !Removes(a, k)
    {
      LastWriteSnoc(past, a, k, i);
    }
    if Writes(a, k) {
      assert LastWrite(past + [a], k, |past|);
    } else if k in records' {
      var i: nat :| LastWrite(past, k, i) && past[i].out.record == records[k];
      assert LastWrite(past + [a], k, i) && (past + [a])[i] == past[i];
    }
  }

  /** Taking over a live claim would break this: the older grant would still stand. */
  lemma ClaimToldNext(claims: map<Key, ClaimState>, claims': map<Key, ClaimState>, past: seq<Answered>, a: Answered,
                      k: Key)
    requires ClaimTold(claims, past, k)
    requires ClaimShown(Alive(claims, a.now), claims', a, k)
    ensures ClaimTold(claims', past + [a], k)
  {
    hide Standing, Ends;
    forall i: nat ensures Standing(past + [a], k, i) <==>
      if i == |past| then Grants(a, k) else Standing(past, k, i) && !Ends(a, k) && a.now < past[i].op.expiresAt
    {
      StandingSnoc(past, a, k, i);
    }
    forall i: nat | Standing(past + [a], k, i) ensures k in claims' && claims'[k] == StateOf((past + [a])[i]) {
      if i < |past| {
        assert k in Alive(claims, a.now);
        assert (past + [a])[i] == past[i];
      }
    }
    if Grants(a, k) {
      assert Standing(past + [a], k, |past|);
    } else if k in claims' {
      var i: nat :| Standing(past, k, i);
      assert Standing(past + [a], k, i);
    }
  }

  /** The same answer, except that a due page may list other records. */
  predicate Alike(op: Op, out: Outcome, other: Outcome) { other == out || (op.DueOp? && out.Page? && other.Page?) }

  lemma AlikeShows(v: View, v': View, op: Op, now: real, out: Outcome, other: Outcome, k: Key)
    requires Alike(op, out, other)
    ensures RecordShown(v.records, v'.records, Answered(op, now, out), k) ==>
              RecordShown(v.records, v'.records, Answered(op, now, other), k)
    ensures ClaimShown(v.claims, v'.claims, Answered(op, now, out), k) ==>
              ClaimShown(v.claims, v'.claims, Answered(op, now, other), k)
  {}

  lemma ToldNext(v: View, past: seq<Answered>, op: Op, now: real, other: Outcome, maximum: nat, round: Rounding)
    requires Told(v, past) && Alike(op, Step(At(v, now), op, now, maximum, round).1, other)
    ensures Told(Step(At(v, now), op, now, maximum, round).0, past + [Answered(op, now, other)])
  {
    hide Step, RecordTold, ClaimTold, RecordShown, ClaimShown, Alive;
    var w := At(v, now);
    var (v', out) := Step(w, op, now, maximum, round);
    var a := Answered(op, now, other);
    forall k ensures RecordTold(v'.records, past + [a], k) {
      StepRecord(w, op, now, maximum, round, k);
      AlikeShows(w, v', op, now, out, other, k);
      RecordToldNext(v.records, v'.records, past, a, k);
    }
    forall k ensures ClaimTold(v'.claims, past + [a], k) {
      StepClaim(w, op, now, maximum, round, k);
      AlikeShows(w, v', op, now, out, other, k);
      ClaimToldNext(v.claims, v'.claims, past, a, k);
    }
    StepCounters(w, op, now, maximum, round);
  }

  // ----- the answer is lawful -----

  lemma LastWriteUnique(past: seq<Answered>, k: Key, i: nat, j: nat)
    requires LastWrite(past, k, i) && LastWrite(past, k, j)
    ensures i == j
  {}

  lemma RecordKnown(v: View, past: seq<Answered>, k: Key)
    requires Told(v, past)
    ensures k in v.records <==> Has(past, k)
    ensures k in v.records ==> RecordOf(past, k) == v.records[k]
  {
    hide LastWrite, ClaimTold, CountersTold;
    assert RecordTold(v.records, past, k);
    if k in v.records {
      var i: nat :| LastWrite(past, k, i) && past[i].out.record == v.records[k];
      forall j: nat | LastWrite(past, k, j) ensures j == i { LastWriteUnique(past, k, i, j); }
    }
  }

  lemma BusyKnown(v: View, past: seq<Answered>, k: Key, now: real)
    requires Told(v, past)
    ensures k in At(v, now).claims <==> Busy(past, k, now)
  {
    hide Standing, RecordTold, CountersTold;
    assert ClaimTold(v.claims, past, k);
    if k in At(v, now).claims {
      var i: nat :| Standing(past, k, i);
      assert LiveGrant(past, k, now, i);
    }
    if Busy(past, k, now) {
      var i: nat :| LiveGrant(past, k, now, i);
    }
  }

  lemma OwnsKnown(v: View, past: seq<Answered>, c: Claim, now: real)
    requires Told(v, past) && Sound(v)
    ensures Holds(At(v, now), c) <==> Owns(past, c, now)
  {
    hide Standing, RecordTold, CountersTold;
    assert ClaimTold(v.claims, past, c.key);
    if Holds(At(v, now), c) {
      var i: nat :| Standing(past, c.key, i);
      assert LiveGrant(past, c.key, now, i);
    }
    if Owns(past, c, now) {
      var i: nat :| LiveGrant(past, c.key, now, i) && ClaimOf(past[i]) == c;
    }
  }

  lemma CountersKnown(v: View, past: seq<Answered>, revision: nat, fencing: nat)
    requires CountersTold(v, past)
    ensures v.revision < revision ==> NewRevision(past, revision)
    ensures v.fencing < fencing ==> NewFencing(past, fencing)
  {}

  // ----- as many records as last writes -----

  lemma OneKeyEach(past: seq<Answered>, k: Key, l: Key, i: nat, j: nat)
    requires LastWrite(past, k, i) && LastWrite(past, l, j) && k != l
    ensures i != j
  {}

  lemma CountKnown(v: View, past: seq<Answered>)
    requires Told(v, past)
    ensures |v.records| == Count(past)
  {
    hide ClaimTold, CountersTold, LastWrite, RecordTold;
    var writes := set i: nat | i < |past| && KeepsRecord(past, i);
    forall k ensures k in v.records <==> Has(past, k) { RecordKnown(v, past, k); }
    var at := map k | k in v.records :: var i: nat :| LastWrite(past, k, i); i;
    forall k | k in v.records.Keys ensures at[k] in writes {
      assert LastWrite(past, k, at[k]);
      assert KeepsRecord(past, at[k]);
    }
    forall i | i in writes ensures exists k :: k in v.records.Keys && at[k] == i {
      var k := KeyOf(past[i].op).value;
      assert LastWrite(past, k, i);
      assert Has(past, k);
      LastWriteUnique(past, k, i, at[k]);
    }
    forall k, l | k in v.records.Keys && l in v.records.Keys && k != l ensures at[k] != at[l] {
      assert LastWrite(past, k, at[k]) && LastWrite(past, l, at[l]);
      OneKeyEach(past, k, l, at[k], at[l]);
    }
    NoMoreValues(v.records.Keys, writes, at);
    NoFewerValues(v.records.Keys, writes, at);
  }

  lemma PageLawful(v: View, past: seq<Answered>, op: Op, now: real)
    requires Told(v, past) && Sound(v) && op.DueOp?
    ensures var w := At(v, now);
            var X := DueEntries(w, op.owner, op.before, op.cursor);
            ListsExactly(past, op, now, X, PageOf(w, op.owner, X, op.limit))
  {
    hide Told, Has, RecordOf, Busy, IsPage, PastCursor;
    var w := At(v, now);
    var X := DueEntries(w, op.owner, op.before, op.cursor);
    forall k ensures && (k in v.records <==> Has(past, k)) && (k in v.records ==> RecordOf(past, k) == v.records[k])
                     && (k in w.claims <==> Busy(past, k, now)) {
      RecordKnown(v, past, k);
      BusyKnown(v, past, k, now);
    }
    forall e ensures e in X <==> exists k :: ToList(past, k, op, now, e) {
      if e in X {
        var k :| k in w.records && Listed(w, k, op.owner, op.before, op.cursor) && EntryOf(w.records[k]) == e;
        assert ToList(past, k, op, now, e);
      }
      if k :| ToList(past, k, op, now, e) { assert Listed(w, k, op.owner, op.before, op.cursor); }
    }
    forall e | e in X ensures Key(op.owner, e.member) in w.records && EntryOf(w.records[Key(op.owner, e.member)]) == e {
      var k :| k in w.records && Listed(w, k, op.owner, op.before, op.cursor) && EntryOf(w.records[k]) == e;
      assert k == Key(op.owner, e.member);
    }
    PageOfListed(w, op.owner, X, op.limit);
  }

  lemma AnswerLawful(v: View, past: seq<Answered>, op: Op, now: real, maximum: nat, round: Rounding)
    requires Told(v, past) && Sound(v)
    ensures Lawful(past, Answered(op, now, Step(At(v, now), op, now, maximum, round).1), maximum, round)
  {
    hide Told, Sound, Has, RecordOf, Busy, Owns, Count, NewRevision, NewFencing, MemoryNextDue, PageOf, DueEntries,
         ListsExactly, Holds, CountersTold;
    var w := At(v, now);
    CountKnown(v, past);
    Counters(v, past);
    CountersKnown(v, past, v.revision + 1, v.fencing + 1);
    if op.DueOp? {
      PageLawful(v, past, op, now);
    } else {
      var k := KeyOf(op).value;
      RecordKnown(v, past, k);
      BusyKnown(v, past, k, now);
      if KeyedByClaim(op) {
        OwnsKnown(v, past, op.claim, now);
        HeldRecord(w, op.claim);
      }
      Named(v, k);
    }
  }

  predicate KeyedByClaim(op: Op) { op.CompleteOp? || op.DiscardOp? || op.AdvanceOp? || op.HeldOp? || op.ReleaseOp? }

  lemma Counters(v: View, past: seq<Answered>)
    requires Told(v, past)
    ensures CountersTold(v, past)
  {}

  lemma HeldRecord(v: View, c: Claim)
    ensures Holds(v, c) ==> c.key in v.records
  {}

  lemma Named(v: View, k: Key)
    requires Sound(v)
    ensures k in v.records ==> v.records[k].identity == k.identity
  {}

  // ----- every run -----

  function Logged(events: seq<Event>, outs: seq<Outcome>): (log: seq<Answered>)
    requires |events| == |outs|
    ensures |log| == |events|
  {
    seq(|events|, i requires 0 <= i < |events| => Answered(events[i].op, events[i].now, outs[i]))
  }

  /** Answers of the store, other due pages allowed. */
  ghost predicate AllAlike(events: seq<Event>, outs: seq<Outcome>, others: seq<Outcome>) {
    |events| == |outs| == |others| && forall i :: 0 <= i < |events| ==> Alike(events[i].op, outs[i], others[i])
  }

  lemma {:induction false} RunTold(events: seq<Event>, outs: seq<Outcome>, maximum: nat, round: Rounding)
    requires AllAlike(events, Outcomes(Fresh(), events, maximum, round), outs)
    ensures Told(Run(Fresh(), events, maximum, round), Logged(events, outs))
  {
    hide Told, At, Step, Alike;
    if events == [] {
      NothingTold();
    } else {
      var n := |events| - 1;
      var front, e := events[..n], events[n];
      assert front + [e] == events && outs[..n] + [outs[n]] == outs;
      OutcomesSnoc(Fresh(), front, e, maximum, round);
      RunTold(front, outs[..n], maximum, round);
      assert Alike(e.op, Outcomes(Fresh(), events, maximum, round)[n], outs[n]);
      ToldNext(Run(Fresh(), front, maximum, round), Logged(front, outs[..n]), e.op, e.now, outs[n], maximum, round);
      LoggedSnoc(front, outs[..n], e, outs[n]);
    }
  }

  lemma NothingTold()
    ensures Told(Fresh(), Logged([], []))
  {}

  lemma LoggedSnoc(events: seq<Event>, outs: seq<Outcome>, e: Event, out: Outcome)
    requires |events| == |outs|
    ensures Logged(events + [e], outs + [out]) == Logged(events, outs) + [Answered(e.op, e.now, out)]
  {}

  lemma {:induction false} OutcomesOfPrefix(v: View, events: seq<Event>, n: nat, maximum: nat, round: Rounding)
    requires n <= |events|
    ensures Outcomes(v, events[..n], maximum, round) == Outcomes(v, events, maximum, round)[..n]
    decreases |events|
  {
    hide Step, At;
    if n > 0 {
      var next := Step(At(v, events[0].now), events[0].op, events[0].now, maximum, round).0;
      assert events[..n][1..] == events[1..][..n - 1];
      OutcomesOfPrefix(next, events[1..], n - 1, maximum, round);
    }
  }

  lemma AlikeIsLawful(events: seq<Event>, outs: seq<Outcome>, n: nat, maximum: nat, round: Rounding)
    requires n < |events| && AllAlike(events, Outcomes(Fresh(), events, maximum, round), outs)
    requires outs[n] == Outcomes(Fresh(), events, maximum, round)[n]
    ensures Lawful(Logged(events, outs)[..n], Logged(events, outs)[n], maximum, round)
  {
    hide Told, Sound, At, Step, Lawful, Run, Alike;
    var front, e := events[..n], events[n];
    OutcomesOfPrefix(Fresh(), events, n, maximum, round);
    RunTold(front, outs[..n], maximum, round);
    RunKeyed(front, maximum, round);
    AnswerLawful(Run(Fresh(), front, maximum, round), Logged(front, outs[..n]), e.op, e.now, maximum, round);
    OutcomesAt(Fresh(), events, n, maximum, round);
    assert Logged(events, outs)[..n] == Logged(front, outs[..n]);
  }

  /** Every answer, due pages aside, is lawful. */
  ghost predicate AllLawful(log: seq<Answered>, maximum: nat, round: Rounding) {
    forall n :: 0 <= n < |log| && !log[n].op.DueOp? ==> Lawful(log[..n], log[n], maximum, round)
  }

  /** In every run from the empty store every answer of the in-memory store, due pages
      included, is the one its earlier answers allow. */
  lemma MemoryIsLawful(events: seq<Event>, maximum: nat, round: Rounding)
    ensures var log := Logged(events, Outcomes(Fresh(), events, maximum, round));
            forall n :: 0 <= n < |log| ==> Lawful(log[..n], log[n], maximum, round)
  {
    hide Lawful, Outcomes;
    var outs := Outcomes(Fresh(), events, maximum, round);
    forall n | 0 <= n < |events| ensures Lawful(Logged(events, outs)[..n], Logged(events, outs)[n], maximum, round) {
      AlikeIsLawful(events, outs, n, maximum, round);
    }
  }

  /** So is every answer of the scripts; their due pages are as `StoresAgree` says. */
  lemma RedisIsLawful(events: seq<Event>, maximum: nat, round: Rounding)
    ensures AllLawful(Logged(events, ScriptOutcomes(events, maximum, round)), maximum, round)
  {
    hide Lawful, Outcomes, ScriptOutcomes, RedisSchedulePages.Overlooked, ScriptRun;
    var memory, redis := Outcomes(Fresh(), events, maximum, round), ScriptOutcomes(events, maximum, round);
    forall i | 0 <= i < |events| ensures Alike(events[i].op, memory[i], redis[i]) {
      StoresAgree(events, i, maximum, round);
    }
    forall n | 0 <= n < |events| && !events[n].op.DueOp?
      ensures Lawful(Logged(events, redis)[..n], Logged(events, redis)[n], maximum, round)
    {
      assert Alike(events[n].op, memory[n], redis[n]);
      AlikeIsLawful(events, redis, n, maximum, round);
    }
  }

  // ----- what follows for claims -----

  /** Two grants of a key are never live together. */
  lemma OneLiveGrant(log: seq<Answered>, k: Key, n: nat, i: nat, j: nat, maximum: nat, round: Rounding)
    requires AllLawful(log, maximum, round) && n <= |log|
    requires Standing(log[..n], k, i) && Standing(log[..n], k, j)
    ensures i == j
  {
    hide AllLawful, Standing, LiveGrant;
    if i < j {
      OlderStillLive(log, k, n, i, j);
      GrantsOnlyIdle(log, k, j, maximum, round);
    } else if j < i {
      OlderStillLive(log, k, n, j, i);
      GrantsOnlyIdle(log, k, i, maximum, round);
    }
  }

  lemma OlderStillLive(log: seq<Answered>, k: Key, n: nat, i: nat, j: nat)
    requires i < j && n <= |log| && Standing(log[..n], k, i) && Standing(log[..n], k, j)
    ensures j < |log| && Grants(log[j], k) && LiveGrant(log[..j], k, log[j].now, i)
  {
    assert log[..n][j] == log[j] && log[..n][i] == log[i];
    assert forall m :: 0 <= m < j ==> log[..j][m] == log[..n][m];
  }

  /** The claim of a grant ends with this answer: its key is deleted, or this very claim is
      completed, discarded, advanced or released. */
  predicate EndsClaim(a: Answered, grant: Answered)
    requires grant.op.TakeOp? && grant.out.Claimed?
  {
    && Ends(a, grant.op.key)
    && (a.op.DeleteOp? || (KeyedByClaim(a.op) && a.op.claim == ClaimOf(grant)))
  }

  /** A claim excludes every other: between two grants of a key the first one has expired,
      or its record was deleted, or its own holder settled it. */
  lemma {:induction false} ClaimExcludes(log: seq<Answered>, k: Key, i: nat, j: nat, maximum: nat, round: Rounding)
    requires AllLawful(log, maximum, round)
    requires i < j < |log| && Grants(log[i], k) && Grants(log[j], k)
    ensures exists m :: i < m <= j && (log[m].now >= log[i].op.expiresAt || EndsClaim(log[m], log[i]))
  {
    hide Lawful;
    var m := FirstEnd(log, k, i, j, maximum, round);
  }

  /** With a clock that never goes back: the first claim has expired by the second grant. */
  lemma ClaimExcludesInTime(log: seq<Answered>, k: Key, i: nat, j: nat, maximum: nat, round: Rounding)
    requires AllLawful(log, maximum, round)
    requires i < j < |log| && Grants(log[i], k) && Grants(log[j], k)
    requires forall a, b :: 0 <= a < b < |log| ==> log[a].now <= log[b].now
    ensures log[j].now >= log[i].op.expiresAt || exists m :: i < m < j && EndsClaim(log[m], log[i])
  {
    hide AllLawful;
    ClaimExcludes(log, k, i, j, maximum, round);
    var m :| i < m <= j && (log[m].now >= log[i].op.expiresAt || EndsClaim(log[m], log[i]));
  }

  lemma FirstEnd(log: seq<Answered>, k: Key, i: nat, j: nat, maximum: nat, round: Rounding) returns (m: nat)
    requires AllLawful(log, maximum, round)
    requires i < j < |log| && Grants(log[i], k) && Grants(log[j], k)
    ensures i < m <= j && (log[m].now >= log[i].op.expiresAt || EndsClaim(log[m], log[i]))
  {
    hide AllLawful, Lawful;
    m := i + 1;
    while m < j && !Ends(log[m], k) && log[m].now < log[i].op.expiresAt
      invariant i < m <= j
      invariant forall x :: i < x < m ==> !Ends(log[x], k) && log[x].now < log[i].op.expiresAt
      decreases j - m
    {
      m := m + 1;
    }
    if log[m].now < log[i].op.expiresAt {
      assert log[..m][i] == log[i];
      assert LiveGrant(log[..m], k, log[m].now, i);
      if m == j {
        GrantsOnlyIdle(log, k, j, maximum, round);
        assert false;
      }
      EndedByItself(log, k, i, m, maximum, round);
    }
  }

  lemma GrantsOnlyIdle(log: seq<Answered>, k: Key, j: nat, maximum: nat, round: Rounding)
    requires AllLawful(log, maximum, round) && j < |log| && Grants(log[j], k)
    ensures !Busy(log[..j], k, log[j].now)
  {
    hide Has, RecordOf, Owns, Count, StoredAnew, NewFencing, MemoryNextDue, ListsExactly, Busy;
    assert Lawful(log[..j], log[j], maximum, round);
  }

  lemma EndedByItself(log: seq<Answered>, k: Key, i: nat, m: nat, maximum: nat, round: Rounding)
    requires AllLawful(log, maximum, round) && m < |log| && Ends(log[m], k)
    requires LiveGrant(log[..m], k, log[m].now, i)
    ensures EndsClaim(log[m], log[..m][i])
  {
    hide Has, RecordOf, Count, StoredAnew, NewFencing, MemoryNextDue, ListsExactly, Busy, Standing;
    if !log[m].op.DeleteOp? {
      assert Lawful(log[..m], log[m], maximum, round);
      var c := log[m].op.claim;
      assert Owns(log[..m], c, log[m].now);
      var other: nat :| LiveGrant(log[..m], c.key, log[m].now, other) && ClaimOf(log[..m][other]) == c;
      OneLiveGrant(log, k, m, i, other, maximum, round);
    }
  }

  /** What is granted is the record last stored, once it is due, and it is granted to
      whoever asks while nobody has it. */
  lemma GrantedIffDueAndIdle(log: seq<Answered>, n: nat, maximum: nat, round: Rounding)
    requires AllLawful(log, maximum, round) && n < |log| && log[n].op.TakeOp?
    ensures var past, a := log[..n], log[n];
            && (a.out.Claimed? <==>
                && !Busy(past, a.op.key, a.now)
                && exists i: nat :: LastWrite(past, a.op.key, i) && past[i].out.record.due <= a.now)
            && (a.out.Claimed? ==> exists i: nat :: LastWrite(past, a.op.key, i) && past[i].out == Stored(a.out.record))
  {
    hide LastWrite, Busy, Owns, Count, StoredAnew, NewFencing, MemoryNextDue, ListsExactly;
    assert Lawful(log[..n], log[n], maximum, round);
    var past, k := log[..n], log[n].op.key;
    if Has(past, k) {
      var i: nat :| LastWrite(past, k, i) && RecordOf(past, k) == past[i].out.record;
      forall j: nat | LastWrite(past, k, j) ensures j == i { LastWriteUnique(past, k, i, j); }
    }
  }

  /** Both stores, run side by side: the answers they really give are lawful. */
  method RunLawfully(events: seq<Event>, maximum: nat, round: Rounding, show: Printer, ghost D: iset<real>)
    returns (memory: seq<Outcome>, redis: seq<Outcome>)
    requires Timely(events, D) && Storable(D, round, show)
    ensures |memory| == |redis| == |events|
    ensures AllLawful(Logged(events, memory), maximum, round) && AllLawful(Logged(events, redis), maximum, round)
  {
    hide Timely, Storable, Outcomes, ScriptOutcomes, Lawful;
    var repaired;
    memory, redis, repaired := RunSideBySide(events, maximum, round, show, D);
    MemoryIsLawful(events, maximum, round);
    RedisIsLawful(events, maximum, round);
  }
}
