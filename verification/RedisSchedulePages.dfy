/** The due script: recovery of expired claims, then one page from the score
    index or, past a cursor, from the lexicographic index. Members of the latter
    are text here, compared and taken apart as the script does it. */
module RedisSchedulePages {
  import opened Common
  import opened TextOrder
  import opened DueOrder
  import opened SortedSets
  import opened ScheduleModel
  import opened RedisSchedules

  const RECOVERY_LIMIT := 100

  /** How a due time is printed with eighteen significant digits. */
  type Printer = real -> Decimal

  /** Printing keeps the order of the numbers in D (the doubles: eighteen digits tell
      any two of them apart). */
  ghost predicate Monotone(show: Printer, D: iset<real>) {
    forall x, y :: x in D && y in D && x < y ==> Value(show(x)) < Value(show(y))
  }

  ghost predicate DuesIn(records: map<Key, Hash>, D: iset<real>) {
    forall k :: k in records ==> records[k].record.due in D
  }

  function TextOf(m: Member, show: Printer): string { DueMember(show(m.due), m.identity) }

  lemma TextIdentity(m: Member, show: Printer)
    ensures MemberIdentity(TextOf(m, show)) == m.identity
  {
    hide DueMember, MemberIdentity;
    MemberRoundTrip(show(m.due), m.identity);
  }

  /** Text order is the order of the score index. */
  lemma TextInOrder(m: Member, n: Member, show: Printer, D: iset<real>)
    requires Monotone(show, D) && m.due in D && n.due in D
    ensures Less(TextOf(m, show), TextOf(n, show)) <==> Before(Entry(m.due, m.identity), Entry(n.due, n.identity))
  {
    hide DueMember, Value, Less;
    MemberOrder(show(m.due), m.identity, show(n.due), n.identity);
  }

  /** The half-open range of a later page: past the cursor, up to the boundary. */
  predicate InRange(text: string, from: string, boundary: string) {
    Less(from, text) && !Less(boundary, text)
  }

  lemma RangeIsExact(m: Member, from: Member, before: real, show: Printer, D: iset<real>)
    requires Monotone(show, D) && m.due in D && from.due in D && before in D
    ensures InRange(TextOf(m, show), TextOf(from, show), BoundaryMember(show(before))) <==>
            Before(Entry(from.due, from.identity), Entry(m.due, m.identity)) && m.due <= before
  {
    hide DueMember, BoundaryMember, Value, Less;
    TextInOrder(from, m, show, D);
    BoundaryAdmits(show(m.due), m.identity, show(before));
    Total(TextOf(m, show), BoundaryMember(show(before)));
    if Less(TextOf(m, show), BoundaryMember(show(before))) {
      Asymmetric(TextOf(m, show), BoundaryMember(show(before)));
    }
  }

  function LexEntries(X: set<Member>, show: Printer): set<Entry> {
    set m | m in X :: Entry(0.0, TextOf(m, show))
  }

  function ScoreEntries(X: set<Member>): set<Entry> {
    set m | m in X :: Entry(m.due, m.identity)
  }

  lemma Decode(X: set<Member>, e: Entry, show: Printer) returns (m: Member)
    requires e in LexEntries(X, show)
    ensures m in X && e == Entry(0.0, TextOf(m, show)) && MemberIdentity(e.member) == m.identity
  {
    hide TextOf, MemberIdentity;
    m :| m in X && e == Entry(0.0, TextOf(m, show));
    TextIdentity(m, show);
  }

  /** What a lexicographic range returns, read back as identities with their due
      times, is the same page of the score order. */
  lemma LexPageIsScorePage(X: set<Member>, q: seq<Entry>, ms: seq<Member>, p: seq<Entry>, limit: nat,
                           show: Printer, D: iset<real>)
    requires IsPage(q, LexEntries(X, show), limit) && |p| == |q| == |ms|
    requires Monotone(show, D) && forall m :: m in X ==> m.due in D
    requires forall i :: 0 <= i < |q| ==> ms[i] in X && q[i] == Entry(0.0, TextOf(ms[i], show))
    requires forall i :: 0 <= i < |q| ==> p[i] == Entry(ms[i].due, ms[i].identity)
    ensures IsPage(p, ScoreEntries(X), limit)
  {
    hide TextOf, Less, Monotone;
    forall i, j | 0 <= i < j < |p| ensures Before(p[i], p[j]) {
      TextInOrder(ms[i], ms[j], show, D);
      assert Before(q[i], q[j]);
    }
    forall x | x in ScoreEntries(X) && x !in p
      ensures |p| == limit && forall i :: 0 <= i < |p| ==> Before(p[i], x)
    {
      LeftOut(X, q, ms, p, limit, show, D, x);
    }
  }

  lemma LeftOut(X: set<Member>, q: seq<Entry>, ms: seq<Member>, p: seq<Entry>, limit: nat,
                show: Printer, D: iset<real>, x: Entry)
    requires IsPage(q, LexEntries(X, show), limit) && |p| == |q| == |ms|
    requires Monotone(show, D) && forall m :: m in X ==> m.due in D
    requires forall i :: 0 <= i < |q| ==> ms[i] in X && q[i] == Entry(0.0, TextOf(ms[i], show))
    requires forall i :: 0 <= i < |q| ==> p[i] == Entry(ms[i].due, ms[i].identity)
    requires x in ScoreEntries(X) && x !in p
    ensures |p| == limit && forall i :: 0 <= i < |p| ==> Before(p[i], x)
  {
    hide TextOf, Less, Monotone;
    var m :| m in X && x == Entry(m.due, m.identity);
    var y := Entry(0.0, TextOf(m, show));
    assert y in LexEntries(X, show);
    forall i | 0 <= i < |p| ensures q[i] != y {
      if q[i] == y {
        SameText(m, ms[i], show, D);
        assert false;
      }
    }
    assert y !in q;
    forall i | 0 <= i < |p| ensures Before(p[i], x) {
      TextInOrder(ms[i], m, show, D);
      assert Before(q[i], y);
    }
  }

  lemma SameText(m: Member, n: Member, show: Printer, D: iset<real>)
    requires TextOf(m, show) == TextOf(n, show) && Monotone(show, D) && m.due in D && n.due in D
    ensures m == n
  {
    hide TextOf, Less;
    Irreflexive(TextOf(m, show));
    TextInOrder(m, n, show, D);
    TextInOrder(n, m, show, D);
    TextIdentity(m, show);
    TextIdentity(n, show);
  }

  // ----- recovery -----

  function Expired(claims: map<Key, real>, owner: string, now: real): set<Entry> {
    set k | k in claims && k.owner == owner && claims[k] <= now :: Entry(claims[k], k.identity)
  }

  /** The records that recovery puts back: the first hundred expired entries. */
  ghost predicate Recovered(p: seq<Entry>, claims: map<Key, real>, owner: string, k: Key) {
    k in claims && k.owner == owner && Entry(claims[k], k.identity) in p
  }

  /** Among the first hundred recovery entries of its owner that have reached their
      score. */
  ghost predicate UpForRecovery(scores: map<Key, real>, k: Key, now: real) {
    k in scores && scores[k] <= now &&
    |Ahead(Expired(scores, k.owner, now), Entry(scores[k], k.identity))| < RECOVERY_LIMIT
  }

  ghost function RecoveredKeys(scores: map<Key, real>, owner: string, now: real): set<Key> {
    set k | k in scores && k.owner == owner && UpForRecovery(scores, k, now)
  }

  /** What is left waiting once the due script has recovered what it recovers. */
  ghost function AfterRecovery(w: Waiting, owner: string, now: real): Waiting {
    Waiting(w.scores - RecoveredKeys(w.scores, owner, now), w.unlisted - RecoveredKeys(w.scores, owner, now))
  }

  lemma RecoveredIsUp(p: seq<Entry>, scores: map<Key, real>, owner: string, now: real, k: Key)
    requires IsPage(p, Expired(scores, owner, now), RECOVERY_LIMIT)
    ensures Recovered(p, scores, owner, k) <==> k in RecoveredKeys(scores, owner, now)
  {
    hide Ahead;
    if k in scores && k.owner == owner {
      var x := Entry(scores[k], k.identity);
      if x in p { assert x in Expired(scores, owner, now); }
      if scores[k] <= now { OnPageIffFewAhead(p, Expired(scores, owner, now), RECOVERY_LIMIT, x); }
    }
  }

  lemma WaitsAfter(db0: Keys, db: Keys, owner: string, now: real, p: seq<Entry>)
    requires IsPage(p, Expired(db0.claims, owner, now), RECOVERY_LIMIT) && db.records == db0.records
    requires forall k :: k in db.due <==> k in db0.due || Recovered(p, db0.claims, owner, k)
    requires forall k :: k in db.claims <==> k in db0.claims && !Recovered(p, db0.claims, owner, k)
    requires forall k :: k in db.claims ==> db.claims[k] == db0.claims[k]
    ensures Waits(db) == AfterRecovery(Waits(db0), owner, now)
  {
    hide IsPage, Recovered, RecoveredKeys, Expired;
    forall k ensures Recovered(p, db0.claims, owner, k) <==> k in RecoveredKeys(db0.claims, owner, now) {
      RecoveredIsUp(p, db0.claims, owner, now, k);
    }
  }

  lemma RelistOne(db: Keys, k: Key, now: real)
    requires Coherent(db, now) && k in db.records && !Exists(db.claimHashes, k, now)
    ensures var h := db.records[k];
            Coherent(db.(due := db.due[k := h.record.due], lex := db.lex + {SlotOf(k, h)}, claims := db.claims - {k}),
                now)
  {
    hide RecordsCoherent, IndexesCoherent, ClaimsCoherent;
    Looked(db, k, now);
    var h := db.records[k];
    assert db.records[k := h] == db.records;
    PutClaimed(db.records, db.due, db.claims, db.claimHashes, now, k, h, h.record.due);
    RelistIndexes(db, k);
  }

  lemma RelistIndexes(db: Keys, k: Key)
    requires RecordsCoherent(db.records, db.index, db.count) && IndexesCoherent(db.records, db.due, db.lex) &&
              k in db.records
    ensures IndexesCoherent(db.records, db.due[k := db.records[k].record.due], db.lex + {SlotOf(k, db.records[k])})
  {
    var h := db.records[k];
    var due, lex := db.due[k := h.record.due], db.lex + {SlotOf(k, h)};
    assert Own(k, h);
    forall s | s in lex ensures SlotListed(db.records, due, s) { if s in db.lex { SlotsApart(db, k, s); } }
    forall j | j in due ensures DueListed(db.records, due, lex, j) { if j != k { DueSlotsApart(db, k, j); } }
  }

  lemma NoLiveClaimIsExpired(db: Keys, k: Key, now: real)
    requires Coherent(db, now) && k in db.claims && db.claims[k] <= now
    ensures !Exists(db.claimHashes, k, now) && k in db.records && k in db.index && db.index[k] == k
  {}

  method Recover(db0: Keys, owner: string, now: real) returns (db: Keys, ghost expired: seq<Entry>)
    requires Coherent(db0, now)
    ensures Coherent(db, now) && Seen(db, now) == Seen(db0, now)
    ensures db == db0.(due := db.due, lex := db.lex, claims := db.claims)
    ensures IsPage(expired, Expired(db0.claims, owner, now), RECOVERY_LIMIT)
    ensures forall k :: k in db.due <==> k in db0.due || Recovered(expired, db0.claims, owner, k)
    ensures Waits(db) == AfterRecovery(Waits(db0), owner, now)
  {
    hide Coherent, IsPage, Seen, Waits, AfterRecovery;
    var entries := Smallest(Expired(db0.claims, owner, now), RECOVERY_LIMIT);
    expired := entries;
    Distinct(entries, Expired(db0.claims, owner, now), RECOVERY_LIMIT);
    db := db0;
    for i := 0 to |entries|
      invariant Coherent(db, now)
      invariant db == db0.(due := db.due, lex := db.lex, claims := db.claims)
      invariant forall k :: k in db.due <==> k in db0.due || Recovered(entries[..i], db0.claims, owner, k)
      invariant forall k :: k in db.claims <==> k in db0.claims && !Recovered(entries[..i], db0.claims, owner, k)
      invariant forall k :: k in db.claims ==> db.claims[k] == db0.claims[k]
    {
      ghost var before := db;
      var k := Key(owner, entries[i].member);
      ExpiredKey(entries, i, db0.claims, owner, now);
      NoLiveClaimIsExpired(db, k, now);
      RelistOne(db, k, now);
      if k in db.index && db.index[k] in db.records {
        var h := db.records[db.index[k]];
        db := db.(due := db.due[k := h.record.due]);
        db := db.(lex := db.lex + {SlotOf(k, h)});
      }
      db := db.(claims := db.claims - {k});
      RecoveredNext(entries, i, db0.claims, owner);
    }
    assert entries[..|entries|] == entries;
    SameView(db0, db, now);
    WaitsAfter(db0, db, owner, now, entries);
  }

  lemma SameView(db0: Keys, db: Keys, now: real)
    requires db == db0.(due := db.due, lex := db.lex, claims := db.claims)
    ensures Seen(db, now) == Seen(db0, now)
  {}

  lemma Distinct(p: seq<Entry>, X: set<Entry>, limit: nat)
    requires IsPage(p, X, limit)
    ensures forall i :: 0 <= i < |p| ==> p[i] in X
    ensures forall i, j :: 0 <= i < j < |p| ==> p[i] != p[j]
  {
    forall i, j | 0 <= i < j < |p| ensures p[i] != p[j] { BeforeIrreflexive(p[i]); }
  }

  lemma ExpiredKey(p: seq<Entry>, i: nat, claims: map<Key, real>, owner: string, now: real)
    requires i < |p| && p[i] in Expired(claims, owner, now)
    requires forall i, j :: 0 <= i < j < |p| ==> p[i] != p[j]
    ensures var k := Key(owner, p[i].member);
            k in claims && claims[k] == p[i].score <= now && !Recovered(p[..i], claims, owner, k)
  {}

  lemma RecoveredNext(p: seq<Entry>, i: nat, claims: map<Key, real>, owner: string)
    requires i < |p| && Key(owner, p[i].member) in claims && claims[Key(owner, p[i].member)] == p[i].score
    ensures forall k :: Recovered(p[..i + 1], claims, owner, k) <==>
              Recovered(p[..i], claims, owner, k) || k == Key(owner, p[i].member)
  {
    assert p[..i + 1] == p[..i] + [p[i]];
    var last := Key(owner, p[i].member);
    assert Entry(claims[last], last.identity) == p[i];
    forall k
      ensures Recovered(p[..i + 1], claims, owner, k) <==> Recovered(p[..i], claims, owner, k) || k == last
    {}
  }

  // ----- what the indexes hold -----

  /** The members of the owner's lexicographic index. */
  function Members(db: Keys, owner: string): set<Member> {
    set s | s in db.lex && s.owner == owner :: s.member
  }

  predicate Wanted(m: Member, before: real, cursor: Cursor) {
    m.due <= before && PastCursor(cursor, Entry(m.due, m.identity))
  }

  function WantedMembers(db: Keys, owner: string, before: real, cursor: Cursor): set<Member> {
    set m | m in Members(db, owner) && Wanted(m, before, cursor)
  }

  /** Records that are neither listed nor held: their claim has expired and they
      still wait for recovery. */
  ghost predicate Hidden(db: Keys, k: Key, now: real) {
    k in db.records && k !in db.due && !Exists(db.claimHashes, k, now)
  }

  ghost function HiddenEntries(db: Keys, owner: string, now: real): set<Entry> {
    set k | k in db.records && k.owner == owner && Hidden(db, k, now) :: EntryOf(db.records[k].record)
  }

  /** The same, told from what an observer sees and what waits. */
  ghost function HiddenBy(v: View, w: Waiting, owner: string): set<Entry> {
    set k | k in v.records && k.owner == owner && k in w.unlisted && k !in v.claims :: EntryOf(v.records[k])
  }

  lemma HiddenIsUnlisted(db: Keys, owner: string, now: real)
    requires Coherent(db, now)
    ensures HiddenEntries(db, owner, now) == HiddenBy(Seen(db, now), Waits(db), owner)
  {
    hide Coherent, Seen;
    var v := Seen(db, now);
    forall e ensures e in HiddenEntries(db, owner, now) <==> e in HiddenBy(v, Waits(db), owner) {
      if e in HiddenEntries(db, owner, now) {
        var k :| k in db.records && k.owner == owner && Hidden(db, k, now) && e == EntryOf(db.records[k].record);
        Looked(db, k, now);
        assert k in Waits(db).unlisted;
      }
      if e in HiddenBy(v, Waits(db), owner) {
        var k :| k in v.records && k.owner == owner && k in Waits(db).unlisted && k !in v.claims &&
            e == EntryOf(v.records[k]);
        Looked(db, k, now);
        assert Hidden(db, k, now);
      }
    }
  }

  /** The owner's two indexes hold one and the same set: what an observer expects
      to be listed, less the hidden records. */
  lemma IndexedIsExpected(db: Keys, owner: string, before: real, cursor: Cursor, now: real)
    requires Coherent(db, now)
    ensures ScoreEntries(WantedMembers(db, owner, before, cursor)) ==
            DueEntries(Seen(db, now), owner, before, cursor) - HiddenEntries(db, owner, now)
  {
    hide Coherent, Seen, ScoreEntries, WantedMembers, DueEntries, HiddenEntries, Before;
    var X := ScoreEntries(WantedMembers(db, owner, before, cursor));
    var Y := DueEntries(Seen(db, now), owner, before, cursor);
    var H := HiddenEntries(db, owner, now);
    forall e ensures e in X <==> e in Y && e !in H {
      var k := Key(owner, e.member);
      Looked(db, k, now);
      if k in db.due { DueSlot(db, k, now); }
      ListedEntry(db, owner, before, cursor, now, e);
      ExpectedEntry(db, owner, before, cursor, now, e);
    }
  }

  lemma DueSlot(db: Keys, k: Key, now: real)
    requires Coherent(db, now) && k in db.due
    ensures k in db.records && db.records[k].member == Member(db.due[k], k.identity)
    ensures Slot(k.owner, Member(db.due[k], k.identity)) in db.lex
  {
    hide ClaimsCoherent;
    assert Own(k, db.records[k]);
  }

  lemma SlotDue(db: Keys, s: Slot, now: real)
    requires Coherent(db, now) && s in db.lex
    ensures var k := Key(s.owner, s.member.identity);
            && k in db.due && db.due[k] == s.member.due
            && k in db.records && db.records[k].member == s.member
            && EntryOf(db.records[k].record) == Entry(s.member.due, s.member.identity)
            && k in db.index && db.index[k] == k
  {
    hide ClaimsCoherent;
    assert Own(SlotKey(s), db.records[SlotKey(s)]);
  }

  lemma ListedEntry(db: Keys, owner: string, before: real, cursor: Cursor, now: real, e: Entry)
    requires Coherent(db, now)
    ensures e in ScoreEntries(WantedMembers(db, owner, before, cursor)) <==>
            var k := Key(owner, e.member);
            k in db.due && db.due[k] == e.score <= before && PastCursor(cursor, e)
  {
    hide Coherent, Before;
    var k := Key(owner, e.member);
    if k in db.due && db.due[k] == e.score <= before && PastCursor(cursor, e) {
      DueSlot(db, k, now);
      var m := Member(db.due[k], k.identity);
      assert Slot(owner, m) in db.lex && m in WantedMembers(db, owner, before, cursor);
    }
    if e in ScoreEntries(WantedMembers(db, owner, before, cursor)) {
      var m :| m in WantedMembers(db, owner, before, cursor) && e == Entry(m.due, m.identity);
      SlotDue(db, Slot(owner, m), now);
    }
  }

  lemma ExpectedEntry(db: Keys, owner: string, before: real, cursor: Cursor, now: real, e: Entry)
    requires Coherent(db, now)
    ensures var k := Key(owner, e.member);
            && (e in DueEntries(Seen(db, now), owner, before, cursor) <==>
                  k in db.records && EntryOf(db.records[k].record) == e && !Exists(db.claimHashes, k, now) &&
                  e.score <= before && PastCursor(cursor, e))
            && (e in HiddenEntries(db, owner, now) <==>
                  k in db.records && EntryOf(db.records[k].record) == e && Hidden(db, k, now))
  {
    hide Coherent, Before, Seen, Hidden;
    var k := Key(owner, e.member);
    var v := Seen(db, now);
    Looked(db, k, now);
    if e in DueEntries(v, owner, before, cursor) {
      var j :| j in v.records && Listed(v, j, owner, before, cursor) && EntryOf(v.records[j]) == e;
      Looked(db, j, now);
    }
    if e in HiddenEntries(db, owner, now) {
      var j :| j in db.records && j.owner == owner && Hidden(db, j, now) && EntryOf(db.records[j].record) == e;
      Looked(db, j, now);
    }
    if k in db.records && EntryOf(db.records[k].record) == e && !Exists(db.claimHashes, k, now) &&
        e.score <= before && PastCursor(cursor, e) {
      assert Listed(v, k, owner, before, cursor);
    }
  }

  // ----- the page -----

  function IdentityIn(entry: string, lexical: bool): string {
    if lexical then MemberIdentity(entry) else entry
  }

  /** The entry leads through the identity index to a record that lists it. */
  ghost predicate Resolves(db: Keys, owner: string, entry: string, lexical: bool, show: Printer) {
    var k := Key(owner, IdentityIn(entry, lexical));
    && k in db.index && db.index[k] == k && k in db.records
    && (lexical ==> IndexOf(':', entry) < |entry| && TextOf(db.records[k].member, show) == entry)
  }

  function Unlisted(lex: set<Slot>, owner: string, text: string, show: Printer): set<Slot> {
    set s | s in lex && !(s.owner == owner && TextOf(s.member, show) == text)
  }

  /** The script's last loop, with the branches that drop an entry it cannot
      resolve. `repaired` says whether one of them ran. */
  method ReadEntries(db0: Keys, owner: string, entries: seq<string>, lexical: bool, show: Printer)
    returns (db: Keys, page: seq<Record>, repaired: bool)
    requires forall i :: 0 <= i < |entries| ==> Resolves(db0, owner, entries[i], lexical, show)
    ensures db == db0 && !repaired && |page| == |entries|
    ensures forall i :: 0 <= i < |entries| ==>
              var k := Key(owner, IdentityIn(entries[i], lexical)); k in db.records && page[i] == db.records[k].record
  {
    hide TextOf, MemberIdentity, IndexOf;
    db, page, repaired := db0, [], false;
    for i := 0 to |entries|
      invariant db == db0 && !repaired && |page| == i
      invariant forall j :: 0 <= j < i ==>
                  var k := Key(owner, IdentityIn(entries[j], lexical));
                  k in db.records && page[j] == db.records[k].record
    {
      var entry := entries[i];
      assert Resolves(db0, owner, entry, lexical, show);
      if lexical && IndexOf(':', entry) == |entry| {
        repaired := true;
        db := db.(lex := Unlisted(db.lex, owner, entry, show));
      } else {
        var k := Key(owner, IdentityIn(entry, lexical));
        if k in db.index && db.index[k] in db.records &&
            (!lexical || TextOf(db.records[db.index[k]].member, show) == entry) {
          page := page + [db.records[db.index[k]].record];
        } else {
          repaired := true;
          db := db.(due := db.due - {k});
          if lexical { db := db.(lex := Unlisted(db.lex, owner, entry, show)); }
        }
      }
    }
  }

  function Names(es: seq<Entry>): (ns: seq<string>)
    ensures |ns| == |es| && forall i :: 0 <= i < |es| ==> ns[i] == es[i].member
  {
    seq(|es|, i requires 0 <= i < |es| => es[i].member)
  }

  function Scored(db: Keys, owner: string, before: real): set<Entry> {
    set k | k in db.due && k.owner == owner && db.due[k] <= before :: Entry(db.due[k], k.identity)
  }

  function Ranged(db: Keys, owner: string, from: string, boundary: string, show: Printer): set<Entry> {
    set s | s in db.lex && s.owner == owner && InRange(TextOf(s.member, show), from, boundary) ::
      Entry(0.0, TextOf(s.member, show))
  }

  lemma ScoredIsWanted(db: Keys, owner: string, before: real, now: real)
    requires Coherent(db, now)
    ensures Scored(db, owner, before) == ScoreEntries(WantedMembers(db, owner, before, Start))
  {
    hide RecordsCoherent, IndexesCoherent, ClaimsCoherent, ScoreEntries, WantedMembers;
    forall e ensures e in Scored(db, owner, before) <==> e in ScoreEntries(WantedMembers(db, owner, before, Start)) {
      ListedEntry(db, owner, before, Start, now, e);
      var k := Key(owner, e.member);
      if k in db.due && db.due[k] == e.score <= before { assert e == Entry(db.due[k], k.identity); }
    }
  }

  lemma SlotWanted(db: Keys, s: Slot, before: real, from: Member, show: Printer, D: iset<real>, now: real)
    requires Coherent(db, now) && Monotone(show, D) && DuesIn(db.records, D) && before in D && from.due in D
    requires s in db.lex
    ensures InRange(TextOf(s.member, show), TextOf(from, show), BoundaryMember(show(before))) <==>
            Wanted(s.member, before, From(from.due, from.identity))
    ensures s.member.due in D
  {
    hide TextOf, BoundaryMember, InRange, Coherent;
    SlotDue(db, s, now);
    RangeIsExact(s.member, from, before, show, D);
  }

  lemma RangedIsWanted(db: Keys, owner: string, before: real, from: Member, show: Printer, D: iset<real>, now: real)
    requires Coherent(db, now) && Monotone(show, D) && DuesIn(db.records, D) && before in D && from.due in D
    ensures Ranged(db, owner, TextOf(from, show), BoundaryMember(show(before)), show) ==
            LexEntries(WantedMembers(db, owner, before, From(from.due, from.identity)), show)
    ensures forall m :: m in WantedMembers(db, owner, before, From(from.due, from.identity)) ==> m.due in D
  {
    hide TextOf, BoundaryMember, InRange, Coherent, Wanted;
    forall s | s in db.lex
      ensures InRange(TextOf(s.member, show), TextOf(from, show), BoundaryMember(show(before))) <==>
              Wanted(s.member, before, From(from.due, from.identity))
      ensures s.member.due in D
    {
      SlotWanted(db, s, before, from, show, D, now);
    }
  }

  lemma WantedResolve(db: Keys, owner: string, before: real, cursor: Cursor, m: Member, show: Printer, now: real)
    requires Coherent(db, now) && m in WantedMembers(db, owner, before, cursor)
    ensures var k := Key(owner, m.identity);
            k in db.records && db.records[k].member == m && EntryOf(db.records[k].record) == Entry(m.due, m.identity)
    ensures Resolves(db, owner, m.identity, false, show) && Resolves(db, owner, TextOf(m, show), true, show)
  {
    hide TextOf, MemberIdentity, IndexOf, Coherent, Wanted;
    TextIdentity(m, show);
    TextHasColon(m, show);
    SlotDue(db, Slot(owner, m), now);
  }

  lemma TextHasColon(m: Member, show: Printer)
    ensures IndexOf(':', TextOf(m, show)) < |TextOf(m, show)|
  {
    hide PythonEncode, IndexOf;
    MemberRoundTrip(show(m.due), m.identity);
    assert ':' in TextOf(m, show);
  }

  lemma StartPage(db: Keys, owner: string, before: real, q: seq<Entry>, limit: nat, show: Printer, now: real)
    requires Coherent(db, now) && IsPage(q, Scored(db, owner, before), limit)
    ensures forall i :: 0 <= i < |q| ==>
              && Resolves(db, owner, q[i].member, false, show)
              && EntryOf(db.records[Key(owner, q[i].member)].record) == q[i]
  {
    hide Coherent, Scored, WantedMembers, TextOf, IsPage, Resolves;
    ScoredIsWanted(db, owner, before, now);
    Distinct(q, Scored(db, owner, before), limit);
    forall i | 0 <= i < |q|
      ensures Resolves(db, owner, q[i].member, false, show) && Key(owner, q[i].member) in db.records &&
              EntryOf(db.records[Key(owner, q[i].member)].record) == q[i]
    {
      assert q[i] in ScoreEntries(WantedMembers(db, owner, before, Start));
      var m :| m in WantedMembers(db, owner, before, Start) && q[i] == Entry(m.due, m.identity);
      WantedResolve(db, owner, before, Start, m, show, now);
    }
  }

  lemma LaterPage(db: Keys, owner: string, before: real, from: Member, q: seq<Entry>, limit: nat,
                  show: Printer, D: iset<real>, now: real)
    returns (ms: seq<Member>, p: seq<Entry>)
    requires Coherent(db, now) && Monotone(show, D) && DuesIn(db.records, D) && before in D && from.due in D
    requires IsPage(q, Ranged(db, owner, TextOf(from, show), BoundaryMember(show(before)), show), limit)
    ensures |p| == |ms| == |q|
    ensures forall i :: 0 <= i < |q| ==>
              && Resolves(db, owner, q[i].member, true, show) && MemberIdentity(q[i].member) == ms[i].identity
              && Key(owner, ms[i].identity) in db.records
              && EntryOf(db.records[Key(owner, ms[i].identity)].record) == p[i] == Entry(ms[i].due, ms[i].identity)
    ensures IsPage(p, ScoreEntries(WantedMembers(db, owner, before, From(from.due, from.identity))), limit)
  {
    hide Coherent, WantedMembers, TextOf, IsPage, Resolves, MemberIdentity, Ranged, BoundaryMember,
         ScoreEntries, LexEntries;
    var cursor := From(from.due, from.identity);
    var X := WantedMembers(db, owner, before, cursor);
    RangedIsWanted(db, owner, before, from, show, D, now);
    Distinct(q, LexEntries(X, show), limit);
    ms := [];
    while |ms| < |q|
      invariant |ms| <= |q|
      invariant forall i :: 0 <= i < |ms| ==>
                  ms[i] in X && q[i] == Entry(0.0, TextOf(ms[i], show)) && MemberIdentity(q[i].member) == ms[i].identity
    {
      var m := Decode(X, q[|ms|], show);
      ms := ms + [m];
    }
    forall i | 0 <= i < |q|
      ensures Resolves(db, owner, q[i].member, true, show) && Key(owner, ms[i].identity) in db.records &&
              EntryOf(db.records[Key(owner, ms[i].identity)].record) == Entry(ms[i].due, ms[i].identity)
    {
      WantedResolve(db, owner, before, cursor, ms[i], show, now);
    }
    p := seq(|ms|, i requires 0 <= i < |ms| => Entry(ms[i].due, ms[i].identity));
    LexPageIsScorePage(X, q, ms, p, limit, show, D);
  }

  /** The due script. The page lists what an observer expects, less the records
      still hidden after recovery, and no entry ever needed repair. */
  method Due(db0: Keys, owner: string, before: real, limit: nat, cursor: Cursor, now: real,
             show: Printer, ghost D: iset<real>)
    returns (db: Keys, page: seq<Record>, repaired: bool, ghost expired: seq<Entry>)
    requires Coherent(db0, now) && Monotone(show, D) && DuesIn(db0.records, D) && limit > 0
    requires before in D && (cursor.From? ==> cursor.due in D)
    ensures Coherent(db, now) && Seen(db, now) == Seen(db0, now) && !repaired
    ensures IsPage(expired, Expired(db0.claims, owner, now), RECOVERY_LIMIT)
    ensures forall k :: Hidden(db, k, now) <==> Hidden(db0, k, now) && !Recovered(expired, db0.claims, owner, k)
    ensures IsDuePage(Seen(db, now), page, owner,
                      DueEntries(Seen(db, now), owner, before, cursor) - HiddenEntries(db, owner, now), limit)
    ensures Waits(db) == AfterRecovery(Waits(db0), owner, now)
    ensures page == ScriptPage(Seen(db0, now), Waits(db0), owner, before, limit, cursor, now)
  {
    hide Coherent, PageOf, HiddenBy, AfterRecovery, Waits, IsPage, TextOf, BoundaryMember, Resolves, MemberIdentity,
         Seen, Ranged, Scored, ScoreEntries,
         WantedMembers, DueEntries, HiddenEntries;
    db, expired := Recover(db0, owner, now);
    IndexedIsExpected(db, owner, before, cursor, now);
    if cursor.Start? {
      var entries := Smallest(Scored(db, owner, before), limit);
      ScoredIsWanted(db, owner, before, now);
      StartPage(db, owner, before, entries, limit, show, now);
      db, page, repaired := ReadEntries(db, owner, Names(entries), false, show);
      assert Entries(page) == entries;
    } else {
      var from := Member(cursor.due, cursor.identity);
      var entries := Smallest(Ranged(db, owner, TextOf(from, show), BoundaryMember(show(before)), show), limit);
      ghost var ms, p := LaterPage(db, owner, before, from, entries, limit, show, D, now);
      db, page, repaired := ReadEntries(db, owner, Names(entries), true, show);
      assert Entries(page) == p;
    }
    forall r | r in page
      ensures Key(owner, r.identity) in Seen(db, now).records && Seen(db, now).records[Key(owner, r.identity)] == r
    {
      var i :| 0 <= i < |page| && page[i] == r;
      Looked(db, Key(owner, r.identity), now);
    }
    HiddenIsUnlisted(db, owner, now);
    PageOfIs(Seen(db, now), owner, DueEntries(Seen(db, now), owner, before, cursor) - HiddenEntries(db, owner, now),
        limit, page);
  }

  /** The page the due script gives, from what an observer sees and what waits. */
  ghost function ScriptPage(v: View, w: Waiting, owner: string, before: real, limit: nat, cursor: Cursor, now: real)
    : seq<Record>
  {
    PageOf(v, owner, DueEntries(v, owner, before, cursor) - HiddenBy(v, AfterRecovery(w, owner, now), owner), limit)
  }

  // ----- how the page compares with the in-memory one -----

  /** The script's page is the in-memory page if and only if no record that still
      waits for recovery is on the latter. */
  lemma PageAgreesUnlessHidden(v: View, owner: string, X: set<Entry>, H: set<Entry>,
                               memory: seq<Record>, redis: seq<Record>, limit: nat)
    requires IsDuePage(v, memory, owner, X, limit) && IsDuePage(v, redis, owner, X - H, limit)
    ensures redis == memory <==> forall r :: r in memory ==> EntryOf(r) !in H
  {
    hide IsPage;
    PageWithout(Entries(memory), Entries(redis), X, H, limit);
    assert (forall e :: e in Entries(memory) ==> e !in H) <==> (forall r :: r in memory ==> EntryOf(r) !in H) by {
      forall r | r in memory ensures EntryOf(r) in Entries(memory) {
        var i :| 0 <= i < |memory| && memory[i] == r;
        assert Entries(memory)[i] == EntryOf(r);
      }
    }
    if Entries(memory) == Entries(redis) { SameEntries(v, owner, memory, redis); }
  }

  ghost predicate Keyed(v: View) { forall k :: k in v.records ==> v.records[k].identity == k.identity }

  /** A record outside the indexes that this call of the due script does not recover:
      its score is not reached, or a hundred expired entries come before it. */
  ghost predicate Overlooked(w: Waiting, k: Key, now: real) { k in w.unlisted && !UpForRecovery(w.scores, k, now) }

  lemma DueRecord(v: View, owner: string, before: real, cursor: Cursor, e: Entry)
    requires Keyed(v) && e in DueEntries(v, owner, before, cursor)
    ensures var k := Key(owner, e.member);
            k in v.records && EntryOf(v.records[k]) == e && k !in v.claims && Listed(v, k, owner, before, cursor)
  {
    hide Before;
    var k :| k in v.records && Listed(v, k, owner, before, cursor) && e == EntryOf(v.records[k]);
  }

  lemma HiddenIsOverlooked(v: View, w: Waiting, owner: string, before: real, cursor: Cursor, now: real, e: Entry)
    requires Keyed(v) && e in DueEntries(v, owner, before, cursor)
    ensures e in HiddenBy(v, AfterRecovery(w, owner, now), owner) <==> Overlooked(w, Key(owner, e.member), now)
  {
    hide DueEntries, Ahead, Expired;
    DueRecord(v, owner, before, cursor, e);
    var H := HiddenBy(v, AfterRecovery(w, owner, now), owner);
    var k := Key(owner, e.member);
    if e in H {
      var j :| j in v.records && j.owner == owner && j in AfterRecovery(w, owner, now).unlisted && j !in v.claims &&
               e == EntryOf(v.records[j]);
      assert j == k;
    }
    if Overlooked(w, k, now) { assert k in AfterRecovery(w, owner, now).unlisted; }
  }

  /** The due pages of the two stores are equal if and only if no record on the
      in-memory page is overlooked, which the keys show before the call. */
  lemma PagesAgreeIffNoneOverlooked(
    v: View, w: Waiting, owner: string, before: real, limit: nat, cursor: Cursor, now: real)
    requires Keyed(v)
    ensures var memory := PageOf(v, owner, DueEntries(v, owner, before, cursor), limit);
            ScriptPage(v, w, owner, before, limit, cursor, now) == memory <==>
            forall r :: r in memory ==> !Overlooked(w, Key(owner, r.identity), now)
  {
    hide DueEntries, HiddenBy, AfterRecovery, Overlooked, PageOf;
    var X, H := DueEntries(v, owner, before, cursor), HiddenBy(v, AfterRecovery(w, owner, now), owner);
    forall e | e in X ensures Key(owner, e.member) in v.records && EntryOf(v.records[Key(owner, e.member)]) == e {
      DueRecord(v, owner, before, cursor, e);
    }
    PageOfListed(v, owner, X, limit);
    PageOfListed(v, owner, X - H, limit);
    var memory := PageOf(v, owner, X, limit);
    PageAgreesUnlessHidden(v, owner, X, H, memory, PageOf(v, owner, X - H, limit), limit);
    forall r | r in memory ensures EntryOf(r) in H <==> Overlooked(w, Key(owner, r.identity), now) {
      OnPageIsDue(v, owner, X, limit, memory, r);
      HiddenIsOverlooked(v, w, owner, before, cursor, now, EntryOf(r));
    }
  }

  lemma OnPageIsDue(v: View, owner: string, X: set<Entry>, limit: nat, page: seq<Record>, r: Record)
    requires IsDuePage(v, page, owner, X, limit) && r in page
    ensures EntryOf(r) in X
  {
    hide Before;
    var i :| 0 <= i < |page| && page[i] == r;
    assert Entries(page)[i] in Entries(page);
  }

  /** At most a hundred expired entries, and every dead claim at its score: the pages
      are equal, whatever the boundary, limit and cursor. */
  lemma PagesAgreeUpToAHundred(
    v: View, w: Waiting, owner: string, before: real, limit: nat, cursor: Cursor, now: real)
    requires Keyed(v) && |Expired(w.scores, owner, now)| <= RECOVERY_LIMIT
    requires forall k :: k in w.unlisted && k.owner == owner && k in v.records && k !in v.claims ==>
               k in w.scores && w.scores[k] <= now
    ensures ScriptPage(v, w, owner, before, limit, cursor, now) ==
            PageOf(v, owner, DueEntries(v, owner, before, cursor), limit)
  {
    hide DueEntries, ScriptPage, PageOf, Before;
    var X := DueEntries(v, owner, before, cursor);
    PagesAgreeIffNoneOverlooked(v, w, owner, before, limit, cursor, now);
    forall e | e in X ensures Key(owner, e.member) in v.records && EntryOf(v.records[Key(owner, e.member)]) == e {
      DueRecord(v, owner, before, cursor, e);
    }
    PageOfListed(v, owner, X, limit);
    forall r | r in PageOf(v, owner, X, limit) ensures !Overlooked(w, Key(owner, r.identity), now) {
      OnPageIsDue(v, owner, X, limit, PageOf(v, owner, X, limit), r);
      DueRecord(v, owner, before, cursor, EntryOf(r));
      var k := Key(owner, r.identity);
      if k in w.unlisted { FewAhead(w.scores, owner, now, k); }
    }
  }

  lemma FewAhead(scores: map<Key, real>, owner: string, now: real, k: Key)
    requires k in scores && k.owner == owner && scores[k] <= now && |Expired(scores, owner, now)| <= RECOVERY_LIMIT
    ensures UpForRecovery(scores, k, now)
  {
    var X, x := Expired(scores, owner, now), Entry(scores[k], k.identity);
    BeforeIrreflexive(x);
    assert x in X && x !in Ahead(X, x);
    assert Ahead(X, x) <= X - {x};
    SubsetIsSmaller(Ahead(X, x), X - {x});
  }

  lemma AllOfIt(p: seq<Entry>, X: set<Entry>, limit: nat)
    requires IsPage(p, X, limit) && |X| <= limit
    ensures forall x :: x in X ==> x in p
  {
    hide Before;
    MembersOfPage(p, X, limit);
    var S := set e | e in p;
    if x :| x in X && x !in p {
      assert S + {x} <= X;
      SubsetIsSmaller(S + {x}, X);
    }
  }

  /** The hundred is exact: when more claims than that have expired, none of them
      recovered yet, the in-memory store lists a record that the script leaves out. */
  lemma MoreThanAHundredDiffer(v: View, w: Waiting, owner: string, before: real, limit: nat, now: real)
    requires Keyed(v) && |Expired(w.scores, owner, now)| > RECOVERY_LIMIT && |v.records| <= limit
    requires forall k :: k in w.scores && k.owner == owner && w.scores[k] <= now ==>
               k in w.unlisted && k in v.records && k !in v.claims && v.records[k].due <= before
    ensures ScriptPage(v, w, owner, before, limit, Start, now) !=
            PageOf(v, owner, DueEntries(v, owner, before, Start), limit)
  {
    hide ScriptPage, PageOf, Before, Ahead;
    var X := DueEntries(v, owner, before, Start);
    var k := OneTooMany(w.scores, owner, now);
    assert Listed(v, k, owner, before, Start);
    assert EntryOf(v.records[k]) in X;
    forall e | e in X ensures Key(owner, e.member) in v.records && EntryOf(v.records[Key(owner, e.member)]) == e {
      DueRecord(v, owner, before, Start, e);
    }
    PageOfListed(v, owner, X, limit);
    var memory := PageOf(v, owner, X, limit);
    NoMoreThanRecords(v, owner, X);
    AllOfIt(Entries(memory), X, limit);
    var i :| 0 <= i < |memory| && Entries(memory)[i] == EntryOf(v.records[k]);
    assert memory[i] in memory && Key(owner, memory[i].identity) == k;
    PagesAgreeIffNoneOverlooked(v, w, owner, before, limit, Start, now);
  }

  lemma OneTooMany(scores: map<Key, real>, owner: string, now: real) returns (k: Key)
    requires |Expired(scores, owner, now)| > RECOVERY_LIMIT
    ensures k in scores && k.owner == owner && scores[k] <= now && !UpForRecovery(scores, k, now)
  {
    hide Before, Ahead;
    var X := Expired(scores, owner, now);
    var p := PageExists(X, RECOVERY_LIMIT);
    MembersOf(p);
    var S := set e | e in p;
    if X <= S {
      SubsetIsSmaller(X, S);
      assert false;
    }
    var x :| x in X && x !in S;
    OnPageIffFewAhead(p, X, RECOVERY_LIMIT, x);
    k :| k in scores && k.owner == owner && scores[k] <= now && x == Entry(scores[k], k.identity);
  }

  lemma NoMoreThanRecords(v: View, owner: string, X: set<Entry>)
    requires forall e :: e in X ==> Key(owner, e.member) in v.records && EntryOf(v.records[Key(owner, e.member)]) == e
    ensures |X| <= |v.records|
  {
    AsManyKeys(owner, X, v.records);
  }

  lemma {:induction false} AsManyKeys(owner: string, X: set<Entry>, records: map<Key, Record>)
    requires forall e :: e in X ==> Key(owner, e.member) in records && EntryOf(records[Key(owner, e.member)]) == e
    ensures |X| <= |records|
  {
    if X != {} {
      var e :| e in X;
      var k := Key(owner, e.member);
      AsManyKeys(owner, X - {e}, records - {k});
      assert (records - {k}).Keys == records.Keys - {k};
    }
  }
}
