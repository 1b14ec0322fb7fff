/** What a schedule store promises, on the state an observer at one moment can
    see: its records and the claims that have not expired. The in-memory store
    and the Redis scripts are both proved against `Step`. */
module ScheduleModel {
  import opened Common
  import opened Recurrence
  import opened SortedSets

  datatype Key = Key(owner: string, identity: string)

  datatype Record = Record(identity: string, revision: nat, payload: Bytes, due: real, interval: Option<Interval>)

  datatype ClaimState = ClaimState(claimant: string, fencing: nat, token: string, revision: nat, expiresAt: real)

  /** The claim a caller holds and hands back. */
  datatype Claim = Claim(key: Key, claimant: string, fencing: nat, token: string, revision: nat)

  /** How a computed due time is rounded before it is stored: any function. */
  type Rounding = real -> real

  datatype View = View(records: map<Key, Record>, claims: map<Key, ClaimState>, revision: nat, fencing: nat)

  datatype Op =
    | CreateOp(key: Key, payload: Bytes, due: real, interval: Option<Interval>)
    | UpdateOp(key: Key, expected: nat, payload: Bytes, due: real, interval: Option<Interval>)
    | DeleteOp(key: Key)
    | TakeOp(key: Key, claimant: string, token: string, expiresAt: real, score: real)
    | CompleteOp(claim: Claim)
    | DiscardOp(claim: Claim)
    | AdvanceOp(claim: Claim, payload: Bytes, due: real)
    | HeldOp(claim: Claim)
    | ReleaseOp(claim: Claim)
    | DueOp(owner: string, before: real, limit: nat, cursor: Cursor)

  datatype Outcome =
    | Refused
    | Full
    | Stored(record: Record)
    | Claimed(record: Record, fencing: nat)
    | Done
    | Page(records: seq<Record>)

  /** The claims still alive at a moment. */
  function Alive(claims: map<Key, ClaimState>, now: real): map<Key, ClaimState> {
    map k | k in claims && claims[k].expiresAt > now :: claims[k]
  }

  function At(v: View, now: real): View { v.(claims := Alive(v.claims, now)) }

  lemma AliveLater(claims: map<Key, ClaimState>, now: real, later: real)
    requires now <= later
    ensures Alive(Alive(claims, now), later) == Alive(claims, later)
  {}

  predicate Holds(v: View, c: Claim) {
    && c.key in v.claims && c.key in v.records
    && v.claims[c.key].token == c.token
    && v.claims[c.key].claimant == c.claimant
    && v.claims[c.key].fencing == c.fencing
    && v.claims[c.key].revision == c.revision
    && v.records[c.key].revision == c.revision
  }

  function NextRecord(r: Record, revision: nat, now: real, round: Rounding): Record
    requires r.interval.Some?
  {
    r.(revision := revision, due := round(MemoryNextDue(r.due, r.interval.value, now)))
  }

  // One operation each, on a view whose claims are all alive at `now`.

  function Create(v: View, k: Key, payload: Bytes, due: real, interval: Option<Interval>, maximum: nat)
    : (View, Outcome)
  {
    if k in v.records then (v, Refused)
    else if |v.records| >= maximum then (v, Full)
    else Written(v, k, Record(k.identity, v.revision + 1, payload, due, interval))
  }

  function Update(v: View, k: Key, expected: nat, payload: Bytes, due: real, interval: Option<Interval>)
    : (View, Outcome)
  {
    if k !in v.records || v.records[k].revision != expected || k in v.claims then (v, Refused)
    else Written(v, k, Record(k.identity, v.revision + 1, payload, due, interval))
  }

  function Delete(v: View, k: Key): (View, Outcome) {
    if k !in v.records then (v, Refused) else (Without(v, k), Done)
  }

  function Take(v: View, k: Key, claimant: string, token: string, expiresAt: real, now: real): (View, Outcome) {
    if k !in v.records || v.records[k].due > now || k in v.claims then (v, Refused)
    else
      var state := ClaimState(claimant, v.fencing + 1, token, v.records[k].revision, expiresAt);
      (v.(claims := v.claims[k := state], fencing := v.fencing + 1), Claimed(v.records[k], v.fencing + 1))
  }

  function Complete(v: View, c: Claim, now: real, round: Rounding): (View, Outcome) {
    if !Holds(v, c) then (v, Refused)
    else if v.records[c.key].interval.None? then (Without(v, c.key), Done)
    else Settled(v, c.key, NextRecord(v.records[c.key], v.revision + 1, now, round))
  }

  function Discard(v: View, c: Claim): (View, Outcome) {
    if !Holds(v, c) then (v, Refused) else (Without(v, c.key), Done)
  }

  function Advance(v: View, c: Claim, payload: Bytes, due: real): (View, Outcome) {
    if !Holds(v, c) then (v, Refused)
    else Settled(v, c.key, v.records[c.key].(revision := v.revision + 1, payload := payload, due := due))
  }

  function Held(v: View, c: Claim): (View, Outcome) {
    (v, if Holds(v, c) then Done else Refused)
  }

  function Release(v: View, c: Claim): (View, Outcome) {
    if !Holds(v, c) then (v, Refused) else (v.(claims := v.claims - {c.key}), Done)
  }

  ghost function Step(v: View, op: Op, now: real, maximum: nat, round: Rounding): (View, Outcome) {
    match op
    case CreateOp(k, payload, due, interval) => Create(v, k, payload, due, interval, maximum)
    case UpdateOp(k, expected, payload, due, interval) => Update(v, k, expected, payload, due, interval)
    case DeleteOp(k) => Delete(v, k)
    case TakeOp(k, claimant, token, expiresAt, _) => Take(v, k, claimant, token, expiresAt, now)
    case CompleteOp(c) => Complete(v, c, now, round)
    case DiscardOp(c) => Discard(v, c)
    case AdvanceOp(c, payload, due) => Advance(v, c, payload, due)
    case HeldOp(c) => Held(v, c)
    case ReleaseOp(c) => Release(v, c)
    case DueOp(owner, before, limit, cursor) =>
      (v, Page(PageOf(v, owner, DueEntries(v, owner, before, cursor), limit)))
  }

  function Written(v: View, k: Key, r: Record): (View, Outcome) {
    (v.(records := v.records[k := r], revision := v.revision + 1), Stored(r))
  }

  function Without(v: View, k: Key): View {
    v.(records := v.records - {k}, claims := v.claims - {k})
  }

  /** A claimed record replaced by its next revision, and the claim given up. */
  function Settled(v: View, k: Key, r: Record): (View, Outcome) {
    (v.(records := v.records[k := r], claims := v.claims - {k}, revision := v.revision + 1), Stored(r))
  }

  // ----- due pages -----

  datatype Cursor = Start | From(due: real, identity: string)

  predicate PastCursor(cursor: Cursor, e: Entry) {
    cursor.Start? || Before(Entry(cursor.due, cursor.identity), e)
  }

  function EntryOf(r: Record): Entry { Entry(r.due, r.identity) }

  /** The records of one owner that may be listed: due by the boundary, not
      claimed, beyond the cursor. */
  function DueEntries(v: View, owner: string, before: real, cursor: Cursor): (X: set<Entry>) {
    set k | k in v.records && Listed(v, k, owner, before, cursor) :: EntryOf(v.records[k])
  }

  predicate Listed(v: View, k: Key, owner: string, before: real, cursor: Cursor)
    requires k in v.records
  {
    && k.owner == owner && k !in v.claims
    && v.records[k].due <= before
    && PastCursor(cursor, EntryOf(v.records[k]))
  }

  function Entries(rs: seq<Record>): (es: seq<Entry>)
    ensures |es| == |rs| && forall i :: 0 <= i < |rs| ==> es[i] == EntryOf(rs[i])
  {
    seq(|rs|, i requires 0 <= i < |rs| => EntryOf(rs[i]))
  }

  /** rs is the page of stored records that lists the given entries in order. */
  ghost predicate IsDuePage(v: View, rs: seq<Record>, owner: string, X: set<Entry>, limit: nat) {
    && IsPage(Entries(rs), X, limit)
    && forall r :: r in rs ==> Key(owner, r.identity) in v.records && v.records[Key(owner, r.identity)] == r
  }

  /** The page of stored records for the given entries. */
  ghost function PageOf(v: View, owner: string, X: set<Entry>, limit: nat): seq<Record> {
    if exists rs :: IsDuePage(v, rs, owner, X, limit) then var rs :| IsDuePage(v, rs, owner, X, limit); rs else []
  }

  lemma DuePageUnique(v: View, owner: string, X: set<Entry>, limit: nat, p: seq<Record>, q: seq<Record>)
    requires IsDuePage(v, p, owner, X, limit) && IsDuePage(v, q, owner, X, limit)
    ensures p == q
  {
    hide IsPage;
    PageUnique(Entries(p), Entries(q), X, limit);
    SameEntries(v, owner, p, q);
  }

  lemma SameEntries(v: View, owner: string, p: seq<Record>, q: seq<Record>)
    requires Entries(p) == Entries(q)
    requires forall r :: r in p ==> Key(owner, r.identity) in v.records && v.records[Key(owner, r.identity)] == r
    requires forall r :: r in q ==> Key(owner, r.identity) in v.records && v.records[Key(owner, r.identity)] == r
    ensures p == q
  {
    assert |p| == |Entries(p)| == |q|;
    forall i | 0 <= i < |p| ensures q[i] == p[i] {
      assert q[i] in q && p[i] in p;
      assert Entries(p)[i] == Entries(q)[i];
    }
  }

  lemma PageOfIs(v: View, owner: string, X: set<Entry>, limit: nat, rs: seq<Record>)
    requires IsDuePage(v, rs, owner, X, limit)
    ensures PageOf(v, owner, X, limit) == rs
  {
    hide IsDuePage;
    DuePageUnique(v, owner, X, limit, rs, PageOf(v, owner, X, limit));
  }

  /** Entries of stored records have a page. */
  lemma PageOfListed(v: View, owner: string, X: set<Entry>, limit: nat)
    requires forall e :: e in X ==> Key(owner, e.member) in v.records && EntryOf(v.records[Key(owner, e.member)]) == e
    ensures IsDuePage(v, PageOf(v, owner, X, limit), owner, X, limit)
  {
    hide Before;
    var p := PageExists(X, limit);
    assert forall i :: 0 <= i < |p| ==> p[i] in p;
    var rs := seq(|p|, i requires 0 <= i < |p| => v.records[Key(owner, p[i].member)]);
    assert Entries(rs) == p;
    assert IsDuePage(v, rs, owner, X, limit);
  }

  function CursorAfter(page: seq<Record>): Cursor {
    if page == [] then Start else From(page[|page| - 1].due, page[|page| - 1].identity)
  }

  ghost predicate IsNextDuePage(v: View, owner: string, before: real, H: set<Entry>,
                                previous: seq<Record>, page: seq<Record>, limit: nat) {
    IsDuePage(v, page, owner, DueEntries(v, owner, before, CursorAfter(previous)) - H, limit)
  }

  lemma CursorCuts(v: View, owner: string, before: real, cursor: Cursor)
    requires cursor.From?
    ensures DueEntries(v, owner, before, cursor) ==
            Beyond(DueEntries(v, owner, before, Start), Entry(cursor.due, cursor.identity))
  {
    hide Before;
    var c := Entry(cursor.due, cursor.identity);
    forall e | e in Beyond(DueEntries(v, owner, before, Start), c) ensures e in DueEntries(v, owner, before, cursor) {
      var k :| k in v.records && Listed(v, k, owner, before, Start) && e == EntryOf(v.records[k]);
      assert Listed(v, k, owner, before, cursor);
    }
  }

  /** Reading on from the last record of each page until one comes back short lists
      every record that is to be listed, H apart, exactly once, in order. */
  lemma DuePagingIsExact(v: View, owner: string, before: real, H: set<Entry>, pages: seq<seq<Record>>, limit: nat)
    requires limit > 0 && pages != []
    requires IsDuePage(v, pages[0], owner, DueEntries(v, owner, before, Start) - H, limit)
    requires forall i :: 0 < i < |pages| ==> IsNextDuePage(v, owner, before, H, pages[i - 1], pages[i], limit)
    requires forall i :: 0 <= i < |pages| - 1 ==> |pages[i]| == limit
    requires |pages[|pages| - 1]| < limit
    ensures var all := Concat(seq(|pages|, i requires 0 <= i < |pages| => Entries(pages[i])));
            Ascending(all) && forall e :: e in all <==> e in DueEntries(v, owner, before, Start) - H
  {
    hide IsPage, DueEntries, Concat, Before;
    var X := DueEntries(v, owner, before, Start) - H;
    var entries := seq(|pages|, i requires 0 <= i < |pages| => Entries(pages[i]));
    forall i | 0 < i < |pages| ensures Follows(entries[i - 1], entries[i], X, limit) {
      assert IsNextDuePage(v, owner, before, H, pages[i - 1], pages[i], limit);
      var last := pages[i - 1][limit - 1];
      CursorCuts(v, owner, before, CursorAfter(pages[i - 1]));
      assert Beyond(X, EntryOf(last)) == Beyond(DueEntries(v, owner, before, Start), EntryOf(last)) - H;
    }
    PagingIsExact(entries, X, limit);
  }

  // ----- safety over every run of the store -----

  datatype Event = Event(op: Op, now: real)

  /** What every reachable view keeps. */
  ghost predicate Sound(v: View) {
    && (forall k :: k in v.records ==> 1 <= v.records[k].revision <= v.revision && v.records[k].identity == k.identity)
    && (forall k :: k in v.claims ==>
          k in v.records && 1 <= v.claims[k].fencing <= v.fencing && v.claims[k].revision == v.records[k].revision)
  }

  lemma StepKeepsSound(v: View, op: Op, now: real, maximum: nat, round: Rounding)
    requires Sound(v)
    ensures Sound(Step(v, op, now, maximum, round).0)
  {
    hide MemoryNextDue, PageOf, DueEntries, Sound, Written, Settled, Without;
    match op
    case CreateOp(k, payload, due, interval) =>
      WrittenKeepsSound(v, k, Record(k.identity, v.revision + 1, payload, due, interval));
    case UpdateOp(k, _, payload, due, interval) =>
      WrittenKeepsSound(v, k, Record(k.identity, v.revision + 1, payload, due, interval));
    case DeleteOp(k) => WithoutKeepsSound(v, k);
    case TakeOp(k, claimant, token, expiresAt, _) => ClaimKeepsSound(v, k, claimant, token, expiresAt);
    case CompleteOp(c) =>
      WithoutKeepsSound(v, c.key);
      if Holds(v, c) && v.records[c.key].interval.Some? {
        SettledKeepsSound(v, c.key, NextRecord(v.records[c.key], v.revision + 1, now, round));
      }
    case DiscardOp(c) => WithoutKeepsSound(v, c.key);
    case AdvanceOp(c, payload, due) =>
      if Holds(v, c) {
        SettledKeepsSound(v, c.key, v.records[c.key].(revision := v.revision + 1, payload := payload, due := due));
      }
    case HeldOp(_) =>
    case ReleaseOp(c) => UnclaimedKeepsSound(v, c.key);
    case DueOp(_, _, _, _) =>
  }

  lemma WrittenKeepsSound(v: View, k: Key, r: Record)
    requires Sound(v) && r.revision == v.revision + 1 && r.identity == k.identity
    ensures k !in v.records || k !in v.claims ==> Sound(Written(v, k, r).0)
  {}

  lemma WithoutKeepsSound(v: View, k: Key)
    requires Sound(v)
    ensures Sound(Without(v, k))
  {}

  lemma SettledKeepsSound(v: View, k: Key, r: Record)
    requires Sound(v) && k in v.records && r.revision == v.revision + 1 && r.identity == v.records[k].identity
    ensures Sound(Settled(v, k, r).0)
  {}

  lemma UnclaimedKeepsSound(v: View, k: Key)
    requires Sound(v)
    ensures Sound(v.(claims := v.claims - {k}))
  {}

  lemma ClaimKeepsSound(v: View, k: Key, claimant: string, token: string, expiresAt: real)
    requires Sound(v)
    ensures k in v.records ==>
              Sound(v.(claims := v.claims[k := ClaimState(claimant, v.fencing + 1, token, v.records[k].revision,
                  expiresAt)],
                       fencing := v.fencing + 1))
  {}

  lemma StepRevisions(v: View, op: Op, now: real, maximum: nat, round: Rounding)
    requires Sound(v)
    ensures var v' := Step(v, op, now, maximum, round).0;
            && v.revision <= v'.revision
            && (forall k :: k in v'.records && (k !in v.records || v'.records[k] != v.records[k]) ==>
                  v'.records[k].revision > v.revision)
  {
    hide MemoryNextDue;
  }

  lemma StepFencing(v: View, op: Op, now: real, maximum: nat, round: Rounding)
    requires Sound(v)
    ensures var v' := Step(v, op, now, maximum, round).0;
            && v.fencing <= v'.fencing
            && (forall k :: k in v'.claims && (k !in v.claims || v'.claims[k] != v.claims[k]) ==>
                  v'.claims[k].fencing > v.fencing)
  {
    hide MemoryNextDue;
  }

  ghost function Run(v: View, events: seq<Event>, maximum: nat, round: Rounding): View
    decreases |events|
  {
    if events == [] then v
    else Run(Step(At(v, events[0].now), events[0].op, events[0].now, maximum, round).0, events[1..], maximum, round)
  }

  /** Whatever happens in between, a claim that is no longer held is never held
      again: its fencing token is spent. */
  lemma {:induction false} SpentClaimStaysSpent(v: View, c: Claim, events: seq<Event>, maximum: nat, round: Rounding)
    requires Sound(v) && c.fencing <= v.fencing && !(c.key in v.claims && v.claims[c.key].fencing == c.fencing)
    ensures !Holds(Run(v, events, maximum, round), c)
    decreases |events|
  {
    if events != [] {
      var w := At(v, events[0].now);
      StepKeepsSound(w, events[0].op, events[0].now, maximum, round);
      StepFencing(w, events[0].op, events[0].now, maximum, round);
      SpentClaimStaysSpent(Step(w, events[0].op, events[0].now, maximum, round).0, c, events[1..], maximum, round);
    }
  }

  /** A claim that settles a record is spent by doing so. */
  lemma SettlingSpends(v: View, op: Op, now: real, events: seq<Event>, maximum: nat, round: Rounding)
    requires Sound(v) && (op.CompleteOp? || op.DiscardOp? || op.AdvanceOp? || op.ReleaseOp?) && Holds(v, op.claim)
    ensures !Holds(Run(Step(v, op, now, maximum, round).0, events, maximum, round), op.claim)
  {
    StepKeepsSound(v, op, now, maximum, round);
    SpentClaimStaysSpent(Step(v, op, now, maximum, round).0, op.claim, events, maximum, round);
  }
}
