/** Whole runs of the two stores, due pages included. The Redis scripts answer every
    operation as the in-memory store does, and the due page exactly when no record on
    it is overlooked. */
module ScheduleRuns {
  import opened Common
  import opened ScheduleModel
  import opened MemorySchedules
  import opened RedisSchedulePages
  import RedisSchedules

  type Printer = RedisSchedulePages.Printer

  // ----- what each store answers, operation after operation -----

  ghost function Outcomes(v: View, events: seq<Event>, maximum: nat, round: Rounding): (outs: seq<Outcome>)
    ensures |outs| == |events|
    decreases |events|
  {
    if events == [] then []
    else
      var (next, out) := Step(At(v, events[0].now), events[0].op, events[0].now, maximum, round);
      [out] + Outcomes(next, events[1..], maximum, round)
  }

  /** What the keys hold: the observer's view, and what waits for recovery. */
  datatype Holding = Holding(view: View, waiting: RedisSchedules.Waiting)

  function Waited(w: RedisSchedules.Waiting, op: Op, out: Outcome): RedisSchedules.Waiting {
    match op
    case CreateOp(k, _, _, _) => if out.Stored? then RedisSchedules.Indexed(w, k) else w
    case UpdateOp(k, _, _, _, _) => if out.Stored? then RedisSchedules.Indexed(w, k) else w
    case DeleteOp(k) => if out.Done? then RedisSchedules.Freed(w, k) else w
    case TakeOp(k, _, _, _, score) => if out.Claimed? then RedisSchedules.Withdrawn(w, k, score) else w
    case CompleteOp(c) => if out.Refused? then w else RedisSchedules.Freed(w, c.key)
    case DiscardOp(c) => if out.Refused? then w else RedisSchedules.Freed(w, c.key)
    case AdvanceOp(c, _, _) => if out.Refused? then w else RedisSchedules.Freed(w, c.key)
    case HeldOp(_) => w
    case ReleaseOp(c) => if out.Refused? then w else RedisSchedules.Freed(w, c.key)
    case DueOp(_, _, _, _) => w
  }

  /** One script on keys whose view is taken at `now`. */
  ghost function ScriptStep(s: Holding, op: Op, now: real, maximum: nat, round: Rounding): (Holding, Outcome) {
    if op.DueOp? then
      (s.(waiting := AfterRecovery(s.waiting, op.owner, now)),
       Page(ScriptPage(s.view, s.waiting, op.owner, op.before, op.limit, op.cursor, now)))
    else
      var (view, out) := Step(s.view, op, now, maximum, round);
      (Holding(view, Waited(s.waiting, op, out)), out)
  }

  function Fresh(): View { View(map[], map[], 0, 0) }

  function FreshKeys(): Holding { Holding(Fresh(), RedisSchedules.Waiting(map[], {})) }

  ghost function Aged(s: Holding, now: real): Holding { s.(view := At(s.view, now)) }

  ghost function ScriptRun(events: seq<Event>, maximum: nat, round: Rounding): Holding {
    if events == [] then FreshKeys()
    else
      var e := events[|events| - 1];
      ScriptStep(Aged(ScriptRun(events[..|events| - 1], maximum, round), e.now), e.op, e.now, maximum, round).0
  }

  ghost function ScriptOutcomes(events: seq<Event>, maximum: nat, round: Rounding): (outs: seq<Outcome>)
    ensures |outs| == |events|
  {
    if events == [] then []
    else
      var e, front := events[|events| - 1], events[..|events| - 1];
      ScriptOutcomes(front, maximum, round) +
      [ScriptStep(Aged(ScriptRun(front, maximum, round), e.now), e.op, e.now, maximum, round).1]
  }

  // ----- the two compared -----

  lemma {:induction false} OutcomesSnoc(v: View, events: seq<Event>, e: Event, maximum: nat, round: Rounding)
    ensures var (next, out) := Step(At(Run(v, events, maximum, round), e.now), e.op, e.now, maximum, round);
            && Outcomes(v, events + [e], maximum, round) == Outcomes(v, events, maximum, round) + [out]
            && Run(v, events + [e], maximum, round) == next
    decreases |events|
  {
    hide Step, At;
    if events == [] {
      assert [e][1..] == [];
      assert events + [e] == [e];
    } else {
      assert (events + [e])[1..] == events[1..] + [e];
      var next := Step(At(v, events[0].now), events[0].op, events[0].now, maximum, round).0;
      OutcomesSnoc(next, events[1..], e, maximum, round);
    }
  }

  /** Both stores show the same view after every run. */
  lemma {:induction false} SameViews(events: seq<Event>, maximum: nat, round: Rounding)
    ensures ScriptRun(events, maximum, round).view == Run(Fresh(), events, maximum, round)
  {
    hide At, ScriptPage, AfterRecovery, Waited, PageOf;
    if events != [] {
      var front, e := events[..|events| - 1], events[|events| - 1];
      SameViews(front, maximum, round);
      assert front + [e] == events;
      OutcomesSnoc(Fresh(), front, e, maximum, round);
      DueKeepsView(At(Run(Fresh(), front, maximum, round), e.now), e.op, e.now, maximum, round);
    }
  }

  lemma DueKeepsView(v: View, op: Op, now: real, maximum: nat, round: Rounding)
    ensures op.DueOp? ==> Step(v, op, now, maximum, round).0 == v
  {}

  lemma {:induction false} OutcomesAt(v: View, events: seq<Event>, i: nat, maximum: nat, round: Rounding)
    requires i < |events|
    ensures var e := events[i];
            Outcomes(v, events, maximum, round)[i] ==
            Step(At(Run(v, events[..i], maximum, round), e.now), e.op, e.now, maximum, round).1
    decreases |events|
  {
    hide Step, At;
    var n := |events| - 1;
    assert events == events[..n] + [events[n]];
    OutcomesSnoc(v, events[..n], events[n], maximum, round);
    if i < n {
      OutcomesAt(v, events[..n], i, maximum, round);
      assert events[..n][..i] == events[..i];
    }
  }

  lemma {:induction false} ScriptOutcomesAt(events: seq<Event>, i: nat, maximum: nat, round: Rounding)
    requires i < |events|
    ensures var e := events[i];
            ScriptOutcomes(events, maximum, round)[i] ==
            ScriptStep(Aged(ScriptRun(events[..i], maximum, round), e.now), e.op, e.now, maximum, round).1
    decreases |events|
  {
    hide ScriptStep, Aged, ScriptRun;
    var n := |events| - 1;
    if i < n {
      ScriptOutcomesAt(events[..n], i, maximum, round);
      assert events[..n][..i] == events[..i];
    }
  }

  lemma {:induction false} RunKeyed(events: seq<Event>, maximum: nat, round: Rounding)
    ensures Sound(Run(Fresh(), events, maximum, round))
  {
    hide At, Step;
    if events != [] {
      var front, e := events[..|events| - 1], events[|events| - 1];
      RunKeyed(front, maximum, round);
      assert front + [e] == events;
      OutcomesSnoc(Fresh(), front, e, maximum, round);
      AgeKeepsSound(Run(Fresh(), front, maximum, round), e.now);
      StepKeepsSound(At(Run(Fresh(), front, maximum, round), e.now), e.op, e.now, maximum, round);
    }
  }

  lemma AgeKeepsSound(v: View, now: real)
    requires Sound(v)
    ensures Sound(At(v, now)) && Keyed(At(v, now))
  {}

  /** Over every run from the empty stores: every operation but a due page has the same
      outcome in both, and a due page is the same if and only if no record on the
      in-memory page is overlooked by the recovery of that call. */
  lemma StoresAgree(events: seq<Event>, i: nat, maximum: nat, round: Rounding)
    requires i < |events|
    ensures var memory, redis := Outcomes(Fresh(), events, maximum, round), ScriptOutcomes(events, maximum, round);
            var op, before := events[i].op, ScriptRun(events[..i], maximum, round);
            && (!op.DueOp? ==> redis[i] == memory[i])
            && (op.DueOp? ==>
                  && memory[i].Page? && redis[i].Page?
                  && (redis[i] == memory[i] <==>
                      forall r :: r in memory[i].records ==>
                        !Overlooked(before.waiting, Key(op.owner, r.identity), events[i].now)))
  {
    hide At, ScriptRun, Run, Overlooked, ScriptPage, PageOf, Outcomes, ScriptOutcomes, AfterRecovery;
    var e := events[i];
    OutcomesAt(Fresh(), events, i, maximum, round);
    ScriptOutcomesAt(events, i, maximum, round);
    SameViews(events[..i], maximum, round);
    RunKeyed(events[..i], maximum, round);
    AgeKeepsSound(Run(Fresh(), events[..i], maximum, round), e.now);
    if e.op.DueOp? {
      var s := Aged(ScriptRun(events[..i], maximum, round), e.now);
      PagesAgreeIffNoneOverlooked(s.view, s.waiting, e.op.owner, e.op.before, e.op.limit, e.op.cursor, e.now);
    }
  }

  // ----- a run in which the pages differ -----

  /** A record is created and claimed; its claim key ends half a millisecond before its
      score, and a page is asked for in between. */
  function GapEvents(): seq<Event> {
    var k := Key("owner", "a");
    [Event(CreateOp(k, [], 0.0, None), 1.0), Event(TakeOp(k, "c", "t", 10.0, 10.0005), 2.0),
     Event(DueOp("owner", 5.0, 10, Start), 10.0)]
  }

  lemma GapRun(round: Rounding)
    ensures var k := Key("owner", "a");
            var claim := ClaimState("c", 1, "t", 1, 10.0);
            var record := Record("a", 1, [], 0.0, None);
            && GapEvents()[..2] == [GapEvents()[0]] + [GapEvents()[1]]
            && ScriptRun(GapEvents()[..2], 10, round) ==
               Holding(View(map[k := record], map[k := claim], 1, 1), RedisSchedules.Waiting(map[k := 10.0005], {k}))
  {
    hide PageOf, ScriptPage, AfterRecovery;
    var events := GapEvents();
    var first := [events[0]];
    assert events[..2] == first + [events[1]];
    assert (first + [events[1]])[..1] == first && first[..0] == [];
    assert ScriptRun([], 10, round) == FreshKeys();
    assert Aged(FreshKeys(), 1.0) == FreshKeys();
    var k := Key("owner", "a");
    var record := Record("a", 1, [], 0.0, None);
    assert ScriptRun(first, 10, round) ==
           Holding(View(map[k := record], map[], 1, 0), RedisSchedules.Waiting(map[], {}));
    assert Aged(ScriptRun(first, 10, round), 2.0) == ScriptRun(first, 10, round);
  }

  /** In that run the in-memory store lists the record and the script does not, although
      nothing has a claim on it. */
  lemma GapHidesARecord(round: Rounding)
    ensures var memory, redis := Outcomes(Fresh(), GapEvents(), 10, round), ScriptOutcomes(GapEvents(), 10, round);
            && memory[2] == Page([Record("a", 1, [], 0.0, None)])
            && redis[2] != memory[2]
  {
    hide ScriptOutcomes, Outcomes, ScriptRun, Run, PageOf, ScriptPage;
    var events := GapEvents();
    var k, record := Key("owner", "a"), Record("a", 1, [], 0.0, None);
    GapRun(round);
    SameViews(events[..2], 10, round);
    OutcomesAt(Fresh(), events, 2, 10, round);
    StoresAgree(events, 2, 10, round);
    var v := At(Run(Fresh(), events[..2], 10, round), 10.0);
    assert v == View(map[k := record], map[], 1, 1);
    OneRecordPage(v, k, record);
    assert [record][0] in [record];
  }

  lemma OneRecordPage(v: View, k: Key, record: Record)
    requires v == View(map[k := record], map[], 1, 1) && k == Key("owner", "a") &&
              record == Record("a", 1, [], 0.0, None)
    ensures PageOf(v, "owner", DueEntries(v, "owner", 5.0, Start), 10) == [record]
  {
    hide PageOf;
    assert Listed(v, k, "owner", 5.0, Start);
    assert DueEntries(v, "owner", 5.0, Start) == {EntryOf(record)};
    assert Entries([record]) == [EntryOf(record)];
    PageOfIs(v, "owner", {EntryOf(record)}, 10, [record]);
  }

  // ----- the stores do answer so -----

  /** What an operation may ask: a claim for a positive time, its key expiring no later
      than its score; a page of at least one record; times that can be stored. */
  ghost predicate Proper(e: Event, D: iset<real>) {
    match e.op
    case TakeOp(_, _, _, expiresAt, score) => e.now < expiresAt <= score
    case CreateOp(_, _, due, _) => due in D
    case UpdateOp(_, _, _, due, _) => due in D
    case AdvanceOp(_, _, due) => due in D
    case DueOp(_, before, limit, cursor) => 0 < limit && before in D && (cursor.From? ==> cursor.due in D)
    case _ => true
  }

  /** Clocks do not run back. */
  ghost predicate Timely(events: seq<Event>, D: iset<real>) {
    && (forall i, j :: 0 <= i < j < |events| ==> events[i].now <= events[j].now)
    && (forall i :: 0 <= i < |events| ==> Proper(events[i], D))
  }

  /** The times that can be stored: rounding gives one, and printing keeps their order. */
  ghost predicate Storable(D: iset<real>, round: Rounding, show: Printer) {
    Monotone(show, D) && forall x :: round(x) in D
  }

  ghost predicate DuesStorable(v: View, D: iset<real>) { forall k :: k in v.records ==> v.records[k].due in D }

  lemma StepKeepsDues(v: View, e: Event, maximum: nat, round: Rounding, D: iset<real>)
    requires DuesStorable(v, D) && Proper(e, D) && forall x :: round(x) in D
    ensures DuesStorable(Step(v, e.op, e.now, maximum, round).0, D)
  {
    hide Holds, PageOf;
  }

  method MemoryStep(store: InMemoryScheduleCache, e: Event, ghost D: iset<real>) returns (out: Outcome)
    requires store.Valid() && Proper(e, D)
    modifies store
    ensures store.Valid()
    ensures (store.Seen(e.now), out) == Step(old(store.Seen(e.now)), e.op, e.now, store.maxRecords, store.round)
  {
    hide PageOf, DueEntries, IsDuePage;
    var now := e.now;
    match e.op
    case CreateOp(k, payload, due, interval) => out := store.Create(k, payload, due, interval, now);
    case UpdateOp(k, expected, payload, due, interval) => out := store.Update(k, expected, payload, due, interval, now);
    case DeleteOp(k) => out := store.Delete(k, now);
    case TakeOp(k, claimant, token, expiresAt, _) => out := store.Take(k, claimant, token, expiresAt - now, now);
    case CompleteOp(c) => out := store.Complete(c, now);
    case DiscardOp(c) => out := store.Discard(c, now);
    case AdvanceOp(c, payload, due) => out := store.Advance(c, payload, due, now);
    case HeldOp(c) => out := store.Held(c, now);
    case ReleaseOp(c) => out := store.Release(c, now);
    case DueOp(owner, before, limit, cursor) =>
      var page := store.Due(owner, before, limit, cursor, now);
      PageOfIs(store.Seen(now), owner, DueEntries(store.Seen(now), owner, before, cursor), limit, page);
      out := Page(page);
  }

  ghost function Shown(db: RedisSchedules.Keys, now: real): Holding {
    Holding(RedisSchedules.Seen(db, now), RedisSchedules.Waits(db))
  }

  method RedisStep(db0: RedisSchedules.Keys, e: Event, maximum: nat, round: Rounding, show: Printer,
                   ghost D: iset<real>)
    returns (db: RedisSchedules.Keys, out: Outcome, repaired: bool)
    requires RedisSchedules.Coherent(db0, e.now) && Proper(e, D) && Storable(D, round, show)
    requires DuesStorable(RedisSchedules.Seen(db0, e.now), D)
    ensures RedisSchedules.Coherent(db, e.now) && !repaired
    ensures (Shown(db, e.now), out) == ScriptStep(Shown(db0, e.now), e.op, e.now, maximum, round)
  {
    hide RedisSchedules.Coherent, RedisSchedules.Seen, RedisSchedules.Waits, RedisSchedules.Freed,
         RedisSchedules.Indexed, RedisSchedules.Withdrawn, ScriptPage, AfterRecovery, PageOf, Monotone,
         Create, Update, Delete, Take, Complete, Discard, Advance, Held, Release;
    var now := e.now;
    repaired := false;
    match e.op
    case CreateOp(k, payload, due, interval) =>
      db, out := RedisSchedules.Create(db0, k, payload, due, interval, now, maximum);
    case UpdateOp(k, expected, payload, due, interval) =>
      db, out := RedisSchedules.Update(db0, k, expected, payload, due, interval, now);
    case DeleteOp(k) => db, out := RedisSchedules.Delete(db0, k, now);
    case TakeOp(k, claimant, token, expiresAt, score) =>
      db, out := RedisSchedules.Take(db0, k, claimant, token, score - now, expiresAt, now);
    case CompleteOp(c) => db, out := RedisSchedules.Complete(db0, c, now, round);
    case DiscardOp(c) => db, out := RedisSchedules.Discard(db0, c, now);
    case AdvanceOp(c, payload, due) => db, out := RedisSchedules.Advance(db0, c, payload, due, now);
    case HeldOp(c) =>
      db := db0;
      out := RedisSchedules.Held(db0, c, now);
    case ReleaseOp(c) => db, out := RedisSchedules.Release(db0, c, now);
    case DueOp(owner, before, limit, cursor) =>
      var page;
      ghost var expired;
      DuesOfHashes(db0, now, D);
      db, page, repaired, expired := RedisSchedulePages.Due(db0, owner, before, limit, cursor, now, show, D);
      out := Page(page);
  }

  lemma DuesOfHashes(db: RedisSchedules.Keys, now: real, D: iset<real>)
    requires RedisSchedules.Coherent(db, now) && DuesStorable(RedisSchedules.Seen(db, now), D)
    ensures DuesIn(db.records, D)
  {
    hide RedisSchedules.Coherent, RedisSchedules.Seen;
    forall k | k in db.records ensures db.records[k].record.due in D { RedisSchedules.Looked(db, k, now); }
  }

  lemma EmptyKeysCoherent(now: real)
    ensures RedisSchedules.Coherent(RedisSchedules.Empty(), now)
    ensures Shown(RedisSchedules.Empty(), now) == FreshKeys() == Aged(FreshKeys(), now)
  {}

  lemma SeenLater(store: InMemoryScheduleCache, now: real, later: real)
    requires now <= later
    ensures store.Seen(later) == At(store.Seen(now), later)
  {
    AliveLater(store.claims, now, later);
  }

  /** From the empty stores, one operation after another: the in-memory store gives the
      model's outcomes, the scripts give theirs, and no repair branch is ever taken. */
  method RunSideBySide(events: seq<Event>, maximum: nat, round: Rounding, show: Printer, ghost D: iset<real>)
    returns (memory: seq<Outcome>, redis: seq<Outcome>, repaired: bool)
    requires Timely(events, D) && Storable(D, round, show)
    ensures memory == Outcomes(Fresh(), events, maximum, round)
    ensures redis == ScriptOutcomes(events, maximum, round)
    ensures !repaired
  {
    hide RedisSchedules.Coherent, Shown, Step, ScriptStep, At, Aged, Run, InMemoryScheduleCache.Seen, Monotone,
         Storable, Proper, DuesStorable;
    var store := new InMemoryScheduleCache(maximum, round);
    var db := RedisSchedules.Empty();
    memory, redis, repaired := [], [], false;
    ghost var clock := 0.0;
    assert events[..0] == [];
    NoEvents(maximum, round, D);
    for i := 0 to |events|
      invariant store.Valid() && fresh(store) && store.maxRecords == maximum && store.round == round && !repaired
      invariant i == 0 ==> db == RedisSchedules.Empty() && forall t :: store.Seen(t) == Fresh()
      invariant i > 0 ==> clock == events[i - 1].now && RedisSchedules.Coherent(db, clock)
      invariant i > 0 ==> store.Seen(clock) == Run(Fresh(), events[..i], maximum, round)
      invariant i > 0 ==> Shown(db, clock) == ScriptRun(events[..i], maximum, round)
      invariant DuesStorable(Run(Fresh(), events[..i], maximum, round), D)
      invariant memory == Outcomes(Fresh(), events[..i], maximum, round)
      invariant redis == ScriptOutcomes(events[..i], maximum, round)
    {
      var e := events[i];
      Later(store, db, events, i, clock, maximum, round, D);
      assert Proper(e, D);
      ghost var front := events[..i];
      assert events[..i + 1] == front + [e];
      assert (front + [e])[..i] == front;
      OutcomesSnoc(Fresh(), front, e, maximum, round);
      StorableRounds(D, round, show);
      StepKeepsDues(At(Run(Fresh(), front, maximum, round), e.now), e, maximum, round, D);
      var m := MemoryStep(store, e, D);
      var r, broken;
      db, r, broken := RedisStep(db, e, maximum, round, show, D);
      memory, redis, repaired := memory + [m], redis + [r], repaired || broken;
      clock := e.now;
    }
    assert events[..|events|] == events;
  }

  lemma NoEvents(maximum: nat, round: Rounding, D: iset<real>)
    ensures Run(Fresh(), [], maximum, round) == Fresh() && DuesStorable(Fresh(), D)
  {}

  lemma StorableRounds(D: iset<real>, round: Rounding, show: Printer)
    requires Storable(D, round, show)
    ensures forall x :: round(x) in D
  {}

  /** Between two operations only the clock moves. */
  lemma Later(store: InMemoryScheduleCache, db: RedisSchedules.Keys, events: seq<Event>, i: nat, clock: real,
              maximum: nat, round: Rounding, D: iset<real>)
    requires Timely(events, D) && i < |events|
    requires i == 0 ==> db == RedisSchedules.Empty() && forall t :: store.Seen(t) == Fresh()
    requires i > 0 ==> clock == events[i - 1].now && RedisSchedules.Coherent(db, clock)
    requires i > 0 ==> store.Seen(clock) == Run(Fresh(), events[..i], maximum, round)
    requires i > 0 ==> Shown(db, clock) == ScriptRun(events[..i], maximum, round)
    requires DuesStorable(Run(Fresh(), events[..i], maximum, round), D)
    ensures var now := events[i].now;
            && RedisSchedules.Coherent(db, now)
            && store.Seen(now) == At(Run(Fresh(), events[..i], maximum, round), now)
            && Shown(db, now) == Aged(ScriptRun(events[..i], maximum, round), now)
            && RedisSchedules.Seen(db, now) == store.Seen(now) && DuesStorable(store.Seen(now), D)
  {
    hide RedisSchedules.Coherent, RedisSchedules.Seen, RedisSchedules.Waits, ScriptStep, InMemoryScheduleCache.Seen,
         Proper;
    var now := events[i].now;
    SameViews(events[..i], maximum, round);
    if i == 0 {
      EmptyKeysCoherent(now);
      assert events[..0] == [];
      assert At(Fresh(), now) == Fresh();
    } else {
      RedisSchedules.CoherentLater(db, clock, now);
      SeenLater(store, clock, now);
    }
  }
}
