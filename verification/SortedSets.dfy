/** Sorted sets: entries ordered by score, then by member, and the pages that
    `ZRANGEBYSCORE`, `ZRANGEBYLEX` and a sorted, sliced list take from them. */
module SortedSets {
  import opened TextOrder

  datatype Entry = Entry(score: real, member: string)

  predicate Before(a: Entry, b: Entry) {
    a.score < b.score || (a.score == b.score && Less(a.member, b.member))
  }

  lemma BeforeTotal(a: Entry, b: Entry)
    ensures a == b || Before(a, b) || Before(b, a)
  {
    Total(a.member, b.member);
  }

  lemma BeforeTransitive(a: Entry, b: Entry, c: Entry)
    requires Before(a, b) && Before(b, c)
    ensures Before(a, c)
  {
    if a.score == b.score == c.score { Transitive(a.member, b.member, c.member); }
  }

  lemma BeforeIrreflexive(a: Entry)
    ensures !Before(a, a)
  {
    Irreflexive(a.member);
  }

  ghost predicate Ascending(p: seq<Entry>) {
    forall i, j :: 0 <= i < j < |p| ==> Before(p[i], p[j])
  }

  /** p is the first `limit` entries of X in order: whatever it leaves out comes
      after everything on it, and it leaves something out only when full. */
  ghost predicate IsPage(p: seq<Entry>, X: set<Entry>, limit: nat) {
    && Ascending(p)
    && |p| <= limit
    && (forall e :: e in p ==> e in X)
    && (forall x :: x in X && x !in p ==> |p| == limit)
    && (forall x, i :: x in X && x !in p && 0 <= i < |p| ==> Before(p[i], x))
  }

  lemma PageHead(p: seq<Entry>, X: set<Entry>, limit: nat)
    requires IsPage(p, X, limit) && p != []
    ensures p[0] in X && forall x :: x in X && x != p[0] ==> Before(p[0], x)
  {
    assert p[0] in p;
    forall x | x in X && x != p[0] ensures Before(p[0], x) {
      if x in p {
        var i :| 0 <= i < |p| && p[i] == x;
      }
    }
  }

  lemma PageTail(p: seq<Entry>, X: set<Entry>, limit: nat)
    requires IsPage(p, X, limit) && p != []
    ensures IsPage(p[1..], X - {p[0]}, limit - 1)
  {
    BeforeIrreflexive(p[0]);
    forall e | e in p[1..] ensures e in X - {p[0]} {
      var i :| 0 <= i < |p[1..]| && p[1..][i] == e;
      assert p[i + 1] in p && Before(p[0], p[i + 1]);
    }
    assert forall x :: x in p <==> x == p[0] || x in p[1..];
  }

  lemma EmptyPage(p: seq<Entry>, X: set<Entry>, limit: nat)
    requires IsPage(p, X, limit)
    ensures p == [] <==> X == {} || limit == 0
  {
    assert p != [] ==> p[0] in p;
  }

  lemma {:induction false} PageUnique(p: seq<Entry>, q: seq<Entry>, X: set<Entry>, limit: nat)
    requires IsPage(p, X, limit) && IsPage(q, X, limit)
    ensures p == q
  {
    EmptyPage(p, X, limit);
    EmptyPage(q, X, limit);
    if p != [] {
      PageHead(p, X, limit);
      PageHead(q, X, limit);
      if p[0] != q[0] {
        BeforeTransitive(p[0], q[0], p[0]);
        BeforeIrreflexive(p[0]);
      }
      PageTail(p, X, limit);
      PageTail(q, X, limit);
      PageUnique(p[1..], q[1..], X - {p[0]}, limit - 1);
    }
  }

  /** Taking a set H away changes the page if and only if H meets the page. */
  lemma PageWithout(p: seq<Entry>, q: seq<Entry>, X: set<Entry>, H: set<Entry>, limit: nat)
    requires IsPage(p, X, limit) && IsPage(q, X - H, limit)
    ensures p == q <==> forall e :: e in p ==> e !in H
  {
    if forall e :: e in p ==> e !in H {
      PageUnique(p, q, X - H, limit);
    }
  }

  lemma {:induction false} LeastExists(X: set<Entry>) returns (m: Entry)
    requires X != {}
    ensures m in X && forall x :: x in X && x != m ==> Before(m, x)
  {
    m :| m in X;
    if X != {m} {
      var n := LeastExists(X - {m});
      BeforeTotal(m, n);
      if Before(m, n) {
        forall x | x in X && x != m ensures Before(m, x) { if x != n { BeforeTransitive(m, n, x); } }
      } else {
        m := n;
      }
    }
  }

  /** Every set has a page. */
  lemma {:induction false} PageExists(X: set<Entry>, limit: nat) returns (p: seq<Entry>)
    ensures IsPage(p, X, limit)
    decreases limit
  {
    p := [];
    if X != {} && limit > 0 {
      var m := LeastExists(X);
      var q := PageExists(X - {m}, limit - 1);
      p := [m] + q;
      assert forall i :: 0 < i < |p| ==> p[i] == q[i - 1] && p[i] in q;
    }
  }

  ghost function Ahead(X: set<Entry>, x: Entry): set<Entry> { set e | e in X && Before(e, x) }

  /** An entry is on the page if and only if fewer than `limit` entries come before it. */
  lemma OnPageIffFewAhead(p: seq<Entry>, X: set<Entry>, limit: nat, x: Entry)
    requires IsPage(p, X, limit) && x in X
    ensures x in p <==> |Ahead(X, x)| < limit
  {
    hide Before;
    if x in p {
      var i :| 0 <= i < |p| && p[i] == x;
      FrontIsAhead(p, X, limit, i);
      MembersOf(p[..i]);
      SubsetIsSmaller(Ahead(X, x), set e | e in p[..i]);
    } else {
      var S := set e | e in p;
      assert S <= Ahead(X, x) by {
        forall e | e in p ensures e in Ahead(X, x) { var i :| 0 <= i < |p| && p[i] == e; }
      }
      MembersOfPage(p, X, limit);
      SubsetIsSmaller(S, Ahead(X, x));
    }
  }

  lemma FrontIsAhead(p: seq<Entry>, X: set<Entry>, limit: nat, i: nat)
    requires IsPage(p, X, limit) && i < |p|
    ensures Ahead(X, p[i]) <= set e | e in p[..i]
  {
    hide Before;
    forall e | e in Ahead(X, p[i]) ensures e in p[..i] {
      if e !in p[..i] {
        if e in p {
          var j :| 0 <= j < |p| && p[j] == e;
          assert p[j] in p[..i] || i <= j;
          if i < j { BeforeTransitive(e, p[i], e); }
        } else {
          BeforeTransitive(e, p[i], e);
        }
        BeforeIrreflexive(e);
        assert false;
      }
    }
  }

  lemma {:induction false} MembersOf(p: seq<Entry>)
    ensures |set e | e in p| <= |p|
  {
    if p != [] {
      var q := p[..|p| - 1];
      MembersOf(q);
      assert (set e | e in p) == (set e | e in q) + {p[|p| - 1]};
    }
  }

  lemma MembersOfPage(p: seq<Entry>, X: set<Entry>, limit: nat)
    requires IsPage(p, X, limit)
    ensures |set e | e in p| == |p|
  {
    hide Before;
    forall i, j | 0 <= i < j < |p| ensures p[i] != p[j] { BeforeIrreflexive(p[i]); }
    DistinctMembers(p);
  }

  lemma {:induction false} DistinctMembers(p: seq<Entry>)
    requires forall i, j :: 0 <= i < j < |p| ==> p[i] != p[j]
    ensures |set e | e in p| == |p|
  {
    if p != [] {
      var q := p[..|p| - 1];
      DistinctMembers(q);
      assert (set e | e in p) == (set e | e in q) + {p[|p| - 1]};
    }
  }

  lemma SubsetIsSmaller(a: set<Entry>, b: set<Entry>)
    requires a <= b
    ensures |a| <= |b|
  {
    assert b == a + (b - a);
  }

  method Least(X: set<Entry>) returns (m: Entry)
    requires X != {}
    ensures m in X && forall x :: x in X && x != m ==> Before(m, x)
  {
    var rest := X;
    m :| m in rest;
    rest := rest - {m};
    while rest != {}
      invariant rest <= X && m in X
      invariant forall x :: x in X && x !in rest && x != m ==> Before(m, x)
      decreases |rest|
    {
      var y :| y in rest;
      BeforeTotal(m, y);
      if Before(y, m) {
        forall x | x in X && x !in rest && x != m ensures Before(y, x) { BeforeTransitive(y, m, x); }
        m := y;
      }
      rest := rest - {y};
    }
  }

  /** The range commands with `LIMIT 0 limit`. */
  method Smallest(X: set<Entry>, limit: nat) returns (p: seq<Entry>)
    ensures IsPage(p, X, limit)
  {
    p := [];
    var rest := X;
    while rest != {} && |p| < limit
      invariant |p| <= limit && Ascending(p)
      invariant forall e :: e in X <==> e in rest || e in p
      invariant forall e :: e in p ==> e !in rest
      invariant forall x, i :: x in rest && 0 <= i < |p| ==> Before(p[i], x)
      decreases |rest|
    {
      var m := Least(rest);
      rest := rest - {m};
      p := p + [m];
    }
  }

  // ----- reading on from the last entry -----

  ghost function Beyond(X: set<Entry>, cursor: Entry): set<Entry> {
    set x | x in X && Before(cursor, x)
  }

  /** Pages read one after another, each from the last entry of the one before. */
  ghost predicate Paged(pages: seq<seq<Entry>>, X: set<Entry>, limit: nat) {
    && (pages != [] ==> IsPage(pages[0], X, limit))
    && forall i :: 0 < i < |pages| ==> Follows(pages[i - 1], pages[i], X, limit)
  }

  ghost predicate Follows(p: seq<Entry>, q: seq<Entry>, X: set<Entry>, limit: nat) {
    p != [] && IsPage(q, Beyond(X, p[|p| - 1]), limit)
  }

  ghost function Concat(pages: seq<seq<Entry>>): seq<Entry> {
    if pages == [] then [] else Concat(pages[..|pages| - 1]) + pages[|pages| - 1]
  }

  /** A page and the next one together are one larger page. */
  lemma JoinPages(p: seq<Entry>, q: seq<Entry>, X: set<Entry>, m: nat, n: nat)
    requires IsPage(p, X, m) && |p| == m > 0 && IsPage(q, Beyond(X, p[m - 1]), n)
    ensures IsPage(p + q, X, m + n)
  {
    var last := p[m - 1];
    forall i, j | 0 <= i < j < |p + q| ensures Before((p + q)[i], (p + q)[j]) {
      if i < m <= j {
        assert q[j - m] in q;
        if i < m - 1 { BeforeTransitive(p[i], last, q[j - m]); }
      }
    }
    forall x | x in X && x !in p + q
      ensures |p + q| == m + n && forall i :: 0 <= i < |p + q| ==> Before((p + q)[i], x)
    {
      assert x in Beyond(X, last);
    }
  }

  ghost predicate FullButLast(pages: seq<seq<Entry>>, limit: nat) {
    forall i :: 0 <= i < |pages| - 1 ==> |pages[i]| == limit
  }

  /** Full pages and the one after them are one page; its last entry is the cursor
      from which the next page is read. */
  lemma {:induction false} PagesJoin(pages: seq<seq<Entry>>, X: set<Entry>, limit: nat)
    requires limit > 0 && pages != [] && Paged(pages, X, limit) && FullButLast(pages, limit)
    ensures var last, all := pages[|pages| - 1], Concat(pages);
            && |last| <= |all|
            && IsPage(all, X, |all| - |last| + limit)
            && (last != [] ==> all[|all| - 1] == last[|last| - 1])
  {
    var n := |pages| - 1;
    var front := pages[..n];
    if n == 0 {
      assert Concat(pages) == pages[0] && IsPage(pages[0], X, limit);
    } else {
      assert front[n - 1] == pages[n - 1];
      assert forall i :: 0 <= i < n ==> front[i] == pages[i];
      PagesJoin(front, X, limit);
      JoinPages(Concat(front), pages[n], X, |Concat(front)|, limit);
    }
  }

  /** Reading page after page until one comes back short lists every entry of the
      set exactly once, in order. */
  lemma PagingIsExact(pages: seq<seq<Entry>>, X: set<Entry>, limit: nat)
    requires limit > 0 && pages != [] && Paged(pages, X, limit) && FullButLast(pages, limit)
    requires |pages[|pages| - 1]| < limit
    ensures Ascending(Concat(pages)) && forall x :: x in Concat(pages) <==> x in X
  {
    PagesJoin(pages, X, limit);
  }
}
