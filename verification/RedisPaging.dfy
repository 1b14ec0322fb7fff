/** Reading all due records of an owner through the due script, page after page. Every
    call recovers up to a hundred more claims, so a record can come back behind the
    cursor. */
module RedisPaging {
  import opened Common
  import opened DueOrder
  import opened SortedSets
  import opened ScheduleModel
  import opened RedisSchedules
  import opened RedisSchedulePages

  /** What waits after a number of due calls at one moment. */
  ghost function Recoveries(w: Waiting, owner: string, now: real, calls: nat): Waiting {
    if calls == 0 then w else AfterRecovery(Recoveries(w, owner, now, calls - 1), owner, now)
  }

  ghost function CursorOf(pages: seq<seq<Record>>, i: nat): Cursor
    requires i <= |pages|
  {
    if i == 0 then Start else CursorAfter(pages[i - 1])
  }

  /** The call whose page goes past this entry: it starts before it, and the page is
      short or ends at or after it. */
  ghost predicate Passes(pages: seq<seq<Record>>, i: nat, limit: nat, e: Entry)
    requires i < |pages|
  {
    PastCursor(CursorOf(pages, i), e) && (|pages[i]| < limit || !PastCursor(CursorAfter(pages[i]), e))
  }

  /** Hidden when its turn came: still unrecovered after the call that went past it. */
  ghost predicate Skipped(v: View, w: Waiting, owner: string, now: real, pages: seq<seq<Record>>, limit: nat,
                          e: Entry) {
    exists i: nat :: i < |pages| && Passes(pages, i, limit, e) &&
        e in HiddenBy(v, Recoveries(w, owner, now, i + 1), owner)
  }

  ghost function Joined(pages: seq<seq<Record>>): seq<Record> {
    if pages == [] then [] else Joined(pages[..|pages| - 1]) + pages[|pages| - 1]
  }

  // ----- one page -----

  lemma PastIsDue(v: View, owner: string, before: real, cursor: Cursor, e: Entry)
    ensures e in DueEntries(v, owner, before, cursor) <==>
            e in DueEntries(v, owner, before, Start) && PastCursor(cursor, e)
  {
    hide Before;
    if cursor.From? { CursorCuts(v, owner, before, cursor); }
  }

  /** The page settles what it passes: an entry it passes is on it exactly when it is not
      hidden, and an entry it does not pass is not on it. */
  lemma PageSettles(v: View, owner: string, before: real, cursor: Cursor, H: set<Entry>, page: seq<Record>,
                    limit: nat, e: Entry)
    requires IsDuePage(v, page, owner, DueEntries(v, owner, before, cursor) - H, limit) && 0 < limit
    requires e in DueEntries(v, owner, before, Start) && PastCursor(cursor, e)
    ensures var passed := |page| < limit || !PastCursor(CursorAfter(page), e);
            if passed then e in Entries(page) <==> e !in H else e !in Entries(page)
  {
    hide Before, DueEntries;
    PastIsDue(v, owner, before, cursor, e);
    var p := Entries(page);
    if |page| == limit {
      var last := p[limit - 1];
      assert EntryOf(page[limit - 1]) == last;
      assert PastCursor(CursorAfter(page), e) <==> Before(last, e);
      if e in p {
        var i :| 0 <= i < |p| && p[i] == e;
        if Before(last, e) {
          if i < limit - 1 { BeforeTransitive(e, last, e); }
          BeforeIrreflexive(e);
        }
      }
    }
  }

  /** What is behind the cursor stays behind it, and the page lies beyond it. */
  lemma PageGoesOn(v: View, owner: string, before: real, cursor: Cursor, H: set<Entry>, page: seq<Record>, limit: nat)
    requires IsDuePage(v, page, owner, DueEntries(v, owner, before, cursor) - H, limit) && 0 < limit
    ensures forall e :: e in Entries(page) ==> e in DueEntries(v, owner, before, Start) && PastCursor(cursor, e)
    ensures |page| == limit ==> forall e :: PastCursor(CursorAfter(page), e) ==> PastCursor(cursor, e)
    ensures |page| == limit ==> DueEntries(v, owner, before, CursorAfter(page)) < DueEntries(v, owner, before, cursor)
  {
    hide Before, DueEntries;
    forall e ensures e in DueEntries(v, owner, before, cursor) <==>
                     e in DueEntries(v, owner, before, Start) && PastCursor(cursor, e) {
      PastIsDue(v, owner, before, cursor, e);
    }
    if |page| == limit {
      var last := Entries(page)[limit - 1];
      assert last in Entries(page) && EntryOf(page[limit - 1]) == last;
      forall e | PastCursor(CursorAfter(page), e) ensures PastCursor(cursor, e) {
        if cursor.From? { BeforeTransitive(Entry(cursor.due, cursor.identity), last, e); }
      }
      forall e ensures e in DueEntries(v, owner, before, CursorAfter(page)) <==>
                       e in DueEntries(v, owner, before, Start) && PastCursor(CursorAfter(page), e) {
        PastIsDue(v, owner, before, CursorAfter(page), e);
      }
      BeforeIrreflexive(last);
      assert last !in DueEntries(v, owner, before, CursorAfter(page));
    }
  }

  lemma JoinedAscends(all: seq<Record>, page: seq<Record>, cursor: Cursor)
    requires Ascending(Entries(all)) && Ascending(Entries(page))
    requires all == [] || (cursor.From? && EntryOf(all[|all| - 1]) == Entry(cursor.due, cursor.identity))
    requires forall e :: e in Entries(page) ==> PastCursor(cursor, e)
    ensures Ascending(Entries(all + page)) && Entries(all + page) == Entries(all) + Entries(page)
  {
    hide Before;
    var a, p := Entries(all), Entries(page);
    forall i, j | 0 <= i < j < |a + p| ensures Before((a + p)[i], (a + p)[j]) {
      if i < |a| <= j {
        assert p[j - |a|] in p;
        if i < |a| - 1 { BeforeTransitive(a[i], a[|a| - 1], p[j - |a|]); }
      }
    }
    assert Entries(all + page) == a + p;
  }

  lemma SkippedMore(v: View, w: Waiting, owner: string, now: real, pages: seq<seq<Record>>, page: seq<Record>,
                    limit: nat, e: Entry)
    ensures Skipped(v, w, owner, now, pages + [page], limit, e) <==>
            || Skipped(v, w, owner, now, pages, limit, e)
            || (Passes(pages + [page], |pages|, limit, e) &&
                e in HiddenBy(v, Recoveries(w, owner, now, |pages| + 1), owner))
  {
    hide Recoveries, HiddenBy, Before;
    var more := pages + [page];
    forall i: nat | i < |pages| ensures Passes(more, i, limit, e) == Passes(pages, i, limit, e) {}
    if Skipped(v, w, owner, now, pages, limit, e) {
      var i: nat :| i < |pages| && Passes(pages, i, limit, e) &&
          e in HiddenBy(v, Recoveries(w, owner, now, i + 1), owner);
      assert Passes(more, i, limit, e);
    }
  }

  /** Where the reading stands: everything behind the cursor is settled, nothing beyond. */
  ghost predicate Standing(v: View, w: Waiting, owner: string, before: real, now: real, limit: nat,
                           pages: seq<seq<Record>>, all: seq<Record>, cursor: Cursor, done: bool) {
    forall e :: e in DueEntries(v, owner, before, Start) ==>
      if done || !PastCursor(cursor, e)
      then e in Entries(all) <==> !Skipped(v, w, owner, now, pages, limit, e)
      else e !in Entries(all) && !Skipped(v, w, owner, now, pages, limit, e)
  }

  lemma StandingNext(v: View, w: Waiting, owner: string, before: real, now: real, limit: nat,
                     pages: seq<seq<Record>>, all: seq<Record>, cursor: Cursor, page: seq<Record>)
    requires Standing(v, w, owner, before, now, limit, pages, all, cursor, false) && 0 < limit
    requires cursor == CursorOf(pages, |pages|)
    requires var H := HiddenBy(v, Recoveries(w, owner, now, |pages| + 1), owner);
             IsDuePage(v, page, owner, DueEntries(v, owner, before, cursor) - H, limit)
    requires Entries(all + page) == Entries(all) + Entries(page)
    ensures Standing(v, w, owner, before, now, limit, pages + [page], all + page, CursorAfter(page), |page| < limit)
  {
    hide Skipped, HiddenBy, Recoveries, DueEntries, IsDuePage, Before, Ascending;
    var H := HiddenBy(v, Recoveries(w, owner, now, |pages| + 1), owner);
    PageGoesOn(v, owner, before, cursor, H, page, limit);
    PageAscends(v, owner, DueEntries(v, owner, before, cursor) - H, page, limit);
    forall e | e in DueEntries(v, owner, before, Start)
      ensures if |page| < limit || !PastCursor(CursorAfter(page), e)
              then e in Entries(all + page) <==> !Skipped(v, w, owner, now, pages + [page], limit, e)
              else e !in Entries(all + page) && !Skipped(v, w, owner, now, pages + [page], limit, e)
    {
      SkippedMore(v, w, owner, now, pages, page, limit, e);
      if PastCursor(cursor, e) { PageSettles(v, owner, before, cursor, H, page, limit, e); }
    }
  }

  // ----- what is skipped -----

  /** A reading that ended with a short page has passed every entry. */
  lemma {:induction false} PassedSomewhere(pages: seq<seq<Record>>, limit: nat, e: Entry, from: nat) returns (i: nat)
    requires from < |pages| && |pages[|pages| - 1]| < limit && PastCursor(CursorOf(pages, from), e)
    ensures i < |pages| && Passes(pages, i, limit, e)
    decreases |pages| - from
  {
    hide Before;
    i := from;
    if !Passes(pages, from, limit, e) {
      i := PassedSomewhere(pages, limit, e, from + 1);
    }
  }

  /** Recovery only ever takes records off the waiting list. */
  lemma {:induction false} FewerWait(w: Waiting, owner: string, now: real, calls: nat)
    requires 0 < calls
    ensures Recoveries(w, owner, now, calls).unlisted <= AfterRecovery(w, owner, now).unlisted
  {
    hide RecoveredKeys;
    if calls > 1 { FewerWait(w, owner, now, calls - 1); }
  }

  /** Up to a hundred expired entries, the first call recovers all it ever will. */
  lemma {:induction false} RecoveredAtOnce(w: Waiting, owner: string, now: real, calls: nat)
    requires 0 < calls && |Expired(w.scores, owner, now)| <= RECOVERY_LIMIT
    ensures Recoveries(w, owner, now, calls) == AfterRecovery(w, owner, now)
  {
    hide Expired, UpForRecovery;
    if calls > 1 {
      RecoveredAtOnce(w, owner, now, calls - 1);
      NoneUp(w, owner, now);
    }
  }

  lemma NoneUp(w: Waiting, owner: string, now: real)
    requires |Expired(w.scores, owner, now)| <= RECOVERY_LIMIT
    ensures RecoveredKeys(AfterRecovery(w, owner, now).scores, owner, now) == {}
  {
    hide Ahead;
    var rest := AfterRecovery(w, owner, now).scores;
    forall k | k in rest && k.owner == owner ensures rest[k] > now {
      if w.scores[k] <= now {
        FewAhead(w.scores, owner, now, k);
      }
    }
  }

  /** Whatever is skipped was waiting beyond the first call's recovery. */
  lemma SkippedWasWaiting(v: View, w: Waiting, owner: string, now: real, pages: seq<seq<Record>>, limit: nat, e: Entry)
    requires Skipped(v, w, owner, now, pages, limit, e)
    ensures e in HiddenBy(v, AfterRecovery(w, owner, now), owner)
  {
    hide Recoveries, AfterRecovery, Passes;
    var i: nat :| i < |pages| && Passes(pages, i, limit, e) &&
        e in HiddenBy(v, Recoveries(w, owner, now, i + 1), owner);
    FewerWait(w, owner, now, i + 1);
  }

  /** With at most a hundred expired entries, skipped is the same as hidden after the
      first call. */
  lemma SkippedIffHidden(v: View, w: Waiting, owner: string, now: real, pages: seq<seq<Record>>, limit: nat, e: Entry)
    requires |Expired(w.scores, owner, now)| <= RECOVERY_LIMIT && pages != [] && |pages[|pages| - 1]| < limit
    ensures Skipped(v, w, owner, now, pages, limit, e) <==> e in HiddenBy(v, AfterRecovery(w, owner, now), owner)
  {
    hide Recoveries, AfterRecovery, HiddenBy, Passes, Expired;
    if Skipped(v, w, owner, now, pages, limit, e) { SkippedWasWaiting(v, w, owner, now, pages, limit, e); }
    if e in HiddenBy(v, AfterRecovery(w, owner, now), owner) {
      var i := PassedSomewhere(pages, limit, e, 0);
      RecoveredAtOnce(w, owner, now, i + 1);
    }
  }

  /** Every dead claim of the owner has reached its score. */
  ghost predicate ScoresReached(v: View, w: Waiting, owner: string, now: real) {
    forall k :: k in w.unlisted && k.owner == owner && k in v.records && k !in v.claims ==>
      k in w.scores && w.scores[k] <= now
  }

  lemma NothingHidden(v: View, w: Waiting, owner: string, now: real)
    requires |Expired(w.scores, owner, now)| <= RECOVERY_LIMIT && ScoresReached(v, w, owner, now)
    ensures HiddenBy(v, AfterRecovery(w, owner, now), owner) == {}
  {
    hide UpForRecovery, Expired;
    forall k | k in v.records && k.owner == owner && k in w.unlisted && k !in v.claims
      ensures k in RecoveredKeys(w.scores, owner, now)
    {
      FewAhead(w.scores, owner, now, k);
    }
  }

  // ----- the whole reading -----

  lemma SameDues(db0: Keys, db: Keys, now: real, D: iset<real>)
    requires Coherent(db0, now) && Coherent(db, now) && Seen(db, now) == Seen(db0, now) && DuesIn(db0.records, D)
    ensures DuesIn(db.records, D)
  {
    hide Coherent, Seen;
    forall k | k in db.records ensures db.records[k].record.due in D {
      Looked(db, k, now);
      Looked(db0, k, now);
    }
  }

  lemma CursorStorable(db: Keys, owner: string, now: real, D: iset<real>, page: seq<Record>, X: set<Entry>, limit: nat)
    requires Coherent(db, now) && DuesIn(db.records, D) && IsDuePage(Seen(db, now), page, owner, X, limit) && page != []
    ensures CursorAfter(page).From? && CursorAfter(page).due in D
  {
    hide Coherent, Seen, IsPage;
    var r := page[|page| - 1];
    assert r in page;
    Looked(db, Key(owner, r.identity), now);
  }

  /** Where the reading stands, with what has been collected. */
  ghost predicate Reading(v: View, w: Waiting, owner: string, before: real, now: real, limit: nat,
                          pages: seq<seq<Record>>, all: seq<Record>, cursor: Cursor, done: bool) {
    && all == Joined(pages) && Ascending(Entries(all))
    && (!done ==> cursor == CursorOf(pages, |pages|))
    && (done ==> pages != [] && |pages[|pages| - 1]| < limit)
    && (all == [] || done || (cursor.From? && EntryOf(all[|all| - 1]) == Entry(cursor.due, cursor.identity)))
    && (forall r :: r in all ==> EntryOf(r) in DueEntries(v, owner, before, Start))
    && Standing(v, w, owner, before, now, limit, pages, all, cursor, done)
  }

  lemma NextReading(v: View, w: Waiting, owner: string, before: real, now: real, limit: nat,
                    pages: seq<seq<Record>>, all: seq<Record>, cursor: Cursor, page: seq<Record>)
    requires Reading(v, w, owner, before, now, limit, pages, all, cursor, false) && 0 < limit
    requires var H := HiddenBy(v, Recoveries(w, owner, now, |pages| + 1), owner);
             IsDuePage(v, page, owner, DueEntries(v, owner, before, cursor) - H, limit)
    ensures Reading(v, w, owner, before, now, limit, pages + [page], all + page, CursorAfter(page), |page| < limit)
    ensures |page| == limit ==> DueEntries(v, owner, before, CursorAfter(page)) < DueEntries(v, owner, before, cursor)
    ensures |page| <= limit
  {
    hide Standing, DueEntries, HiddenBy, Recoveries, IsDuePage, Ascending, Before;
    var H := HiddenBy(v, Recoveries(w, owner, now, |pages| + 1), owner);
    PageGoesOn(v, owner, before, cursor, H, page, limit);
    PageAscends(v, owner, DueEntries(v, owner, before, cursor) - H, page, limit);
    JoinedAscends(all, page, cursor);
    StandingNext(v, w, owner, before, now, limit, pages, all, cursor, page);
    RecordsDue(v, owner, before, all, page);
    assert (pages + [page])[..|pages|] == pages;
  }

  /** One call of the due script, with the cursor that follows it. */
  method NextPage(db0: Keys, owner: string, before: real, limit: nat, cursor: Cursor, now: real, show: Printer,
                  ghost D: iset<real>)
    returns (db: Keys, page: seq<Record>, broken: bool)
    requires Coherent(db0, now) && Monotone(show, D) && DuesIn(db0.records, D) && before in D && 0 < limit
    requires cursor.From? ==> cursor.due in D
    ensures Coherent(db, now) && Seen(db, now) == Seen(db0, now) && DuesIn(db.records, D) && !broken
    ensures Waits(db) == AfterRecovery(Waits(db0), owner, now)
    ensures var v := Seen(db0, now);
            IsDuePage(v, page, owner, DueEntries(v, owner, before, cursor) - HiddenBy(v, Waits(db), owner), limit)
    ensures page != [] ==> CursorAfter(page).From? && CursorAfter(page).due in D
  {
    hide Coherent, Seen, Waits, DueEntries, HiddenEntries, HiddenBy, AfterRecovery, IsDuePage, ScriptPage, PageOf,
         Monotone, DuesIn, Recovered, Expired, Hidden;
    ghost var expired;
    db, page, broken, expired := Due(db0, owner, before, limit, cursor, now, show, D);
    SameDues(db0, db, now, D);
    HiddenIsUnlisted(db, owner, now);
    if page != [] {
      ghost var v := Seen(db0, now);
      CursorStorable(db, owner, now, D, page, DueEntries(v, owner, before, cursor) - HiddenBy(v, Waits(db), owner),
          limit);
    }
  }

  /** All due records of an owner, read with the last record of each page as the next
      cursor. The list is in order and without repetition. A due record is missing from
      it if and only if it was hidden after the call that went past it. */
  method ListDue(db0: Keys, owner: string, before: real, limit: nat, now: real, show: Printer, ghost D: iset<real>)
    returns (db: Keys, all: seq<Record>, repaired: bool, ghost pages: seq<seq<Record>>)
    requires Coherent(db0, now) && Monotone(show, D) && DuesIn(db0.records, D) && before in D && 0 < limit
    ensures Coherent(db, now) && Seen(db, now) == Seen(db0, now) && !repaired
    ensures Ascending(Entries(all)) && all == Joined(pages)
    ensures forall r :: r in all ==> EntryOf(r) in DueEntries(Seen(db0, now), owner, before, Start)
    ensures forall e :: e in DueEntries(Seen(db0, now), owner, before, Start) ==>
              (e in Entries(all) <==> !Skipped(Seen(db0, now), Waits(db0), owner, now, pages, limit, e))
    ensures Waits(db) == Recoveries(Waits(db0), owner, now, |pages|)
    ensures pages != [] && |pages[|pages| - 1]| < limit
  {
    hide Coherent, Seen, Waits, DueEntries, HiddenBy, Skipped, AfterRecovery, IsDuePage, Monotone, DuesIn, Ascending,
         Reading;
    ghost var v, w := Seen(db0, now), Waits(db0);
    db, all, repaired, pages := db0, [], false, [];
    var cursor, done := Start, false;
    NothingYet(v, w, owner, before, now, limit);
    while !done
      invariant Coherent(db, now) && Seen(db, now) == v && !repaired && DuesIn(db.records, D)
      invariant Waits(db) == Recoveries(w, owner, now, |pages|)
      invariant cursor.From? ==> cursor.due in D
      invariant Reading(v, w, owner, before, now, limit, pages, all, cursor, done)
      decreases !done, DueEntries(v, owner, before, cursor)
    {
      var page, broken;
      db, page, broken := NextPage(db, owner, before, limit, cursor, now, show, D);
      NextReading(v, w, owner, before, now, limit, pages, all, cursor, page);
      all, pages, repaired := all + page, pages + [page], repaired || broken;
      done := |page| < limit;
      cursor := CursorAfter(page);
    }
    AllRead(v, w, owner, before, now, limit, pages, all, cursor);
  }

  lemma AllRead(v: View, w: Waiting, owner: string, before: real, now: real, limit: nat,
                pages: seq<seq<Record>>, all: seq<Record>, cursor: Cursor)
    requires Reading(v, w, owner, before, now, limit, pages, all, cursor, true)
    ensures Ascending(Entries(all)) && all == Joined(pages)
    ensures forall r :: r in all ==> EntryOf(r) in DueEntries(v, owner, before, Start)
    ensures forall e :: e in DueEntries(v, owner, before, Start) ==>
              (e in Entries(all) <==> !Skipped(v, w, owner, now, pages, limit, e))
    ensures pages != [] && |pages[|pages| - 1]| < limit
  {
    hide DueEntries, Skipped, Ascending;
  }

  lemma NothingYet(v: View, w: Waiting, owner: string, before: real, now: real, limit: nat)
    ensures Reading(v, w, owner, before, now, limit, [], [], Start, false)
  {}

  lemma PageAscends(v: View, owner: string, X: set<Entry>, page: seq<Record>, limit: nat)
    requires IsDuePage(v, page, owner, X, limit)
    ensures Ascending(Entries(page)) && |page| <= limit
  {
    hide Before;
  }

  lemma RecordsDue(v: View, owner: string, before: real, all: seq<Record>, page: seq<Record>)
    requires forall r :: r in all ==> EntryOf(r) in DueEntries(v, owner, before, Start)
    requires forall e :: e in Entries(page) ==> e in DueEntries(v, owner, before, Start)
    ensures forall r :: r in all + page ==> EntryOf(r) in DueEntries(v, owner, before, Start)
  {
    hide DueEntries;
    forall r | r in page ensures EntryOf(r) in DueEntries(v, owner, before, Start) {
      var i :| 0 <= i < |page| && page[i] == r;
      assert Entries(page)[i] in Entries(page);
    }
  }

  /** With at most a hundred expired claims, every due record is listed exactly once but
      those whose claim has not reached its score; with none of those, every one. */
  method ListDueUpToAHundred(db0: Keys, owner: string, before: real, limit: nat, now: real, show: Printer,
                             ghost D: iset<real>)
    returns (db: Keys, all: seq<Record>)
    requires Coherent(db0, now) && Monotone(show, D) && DuesIn(db0.records, D) && before in D && 0 < limit
    requires |Expired(db0.claims, owner, now)| <= RECOVERY_LIMIT
    ensures Coherent(db, now) && Seen(db, now) == Seen(db0, now) && Ascending(Entries(all))
    ensures var v, w := Seen(db0, now), Waits(db0);
            && (forall e :: e in Entries(all) <==>
                  e in DueEntries(v, owner, before, Start) - HiddenBy(v, AfterRecovery(w, owner, now), owner))
            && (ScoresReached(v, w, owner, now) ==>
                  forall e :: e in Entries(all) <==> e in DueEntries(v, owner, before, Start))
  {
    hide Coherent, Seen, DueEntries, HiddenBy, Skipped, AfterRecovery, Monotone, DuesIn, Ascending, ScoresReached,
         Expired,
         Recoveries, Joined;
    var repaired;
    ghost var pages;
    db, all, repaired, pages := ListDue(db0, owner, before, limit, now, show, D);
    ghost var v, w := Seen(db0, now), Waits(db0);
    forall e ensures Skipped(v, w, owner, now, pages, limit, e) <==>
        e in HiddenBy(v, AfterRecovery(w, owner, now), owner) {
      SkippedIffHidden(v, w, owner, now, pages, limit, e);
    }
    forall e | e in Entries(all) ensures e in DueEntries(v, owner, before, Start) {
      var i :| 0 <= i < |all| && Entries(all)[i] == e;
      assert all[i] in all;
    }
    if ScoresReached(v, w, owner, now) { NothingHidden(v, w, owner, now); }
  }
}
