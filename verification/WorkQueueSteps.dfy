/** Every step of the work queue keeps every part of its invariant. */
module WorkQueueSteps {
  import opened Common
  import opened WorkQueueModel

  // ----- exactly one place -----

  ghost predicate Same(s: State, s': State) { forall p :: Content(s', p) == Content(s, p) }

  ghost predicate Gained(s: State, s': State, p: Place, id: string) {
    && Content(s', p) == Content(s, p) + [id]
    && forall x :: x != p ==> Content(s', x) == Content(s, x)
  }

  ghost predicate Lost(s: State, s': State, p: Place, id: string) {
    && Content(s, p) == [id] + Content(s', p)
    && forall x :: x != p ==> Content(s', x) == Content(s, x)
  }

  lemma SameKeeps(s: State, s': State)
    requires Located(s) && Same(s, s') && s'.place == s.place
    ensures Located(s')
  {
    hide Content, NoRepeats, HoldsExactly;
    forall p ensures NoRepeats(Content(s', p)) && (!Terminal(p) ==> HoldsExactly(Content(s', p), s'.place, p)) {
      assert Content(s', p) == Content(s, p);
    }
  }

  lemma EntryKeeps(s: State, s': State, p: Place, id: string)
    requires Located(s) && Gained(s, s', p, id) && !Terminal(p)
    requires id !in s.place && s'.place == s.place[id := p]
    ensures Located(s')
  {
    hide Content;
    forall x ensures NoRepeats(Content(s', x)) && (!Terminal(x) ==> HoldsExactly(Content(s', x), s'.place, x)) {
      assert NoRepeats(Content(s, x));
      assert !Terminal(x) ==> HoldsExactly(Content(s, x), s.place, x);
      if x == p { GainedOne(Content(s, p), s.place, p, id); } else { Unmoved(Content(s, x), s.place, x, id, p); }
    }
  }

  lemma GainedOne(ids: seq<string>, place: map<string, Place>, p: Place, id: string)
    requires NoRepeats(ids) && HoldsExactly(ids, place, p) && !IsAt(place, id, p)
    ensures NoRepeats(ids + [id]) && HoldsExactly(ids + [id], place[id := p], p)
  {
    assert id !in ids;
    forall x ensures x in ids + [id] <==> IsAt(place[id := p], x, p) {
      assert x in ids <==> IsAt(place, x, p);
    }
  }

  lemma LostOne(ids: seq<string>, place: map<string, Place>, p: Place, id: string, p': Place)
    requires NoRepeats([id] + ids) && HoldsExactly([id] + ids, place, p) && p' != p
    ensures NoRepeats(ids) && HoldsExactly(ids, place[id := p'], p)
  {
    forall i, j | 0 <= i < j < |ids| ensures ids[i] != ids[j] {
      assert ([id] + ids)[i + 1] != ([id] + ids)[j + 1];
    }
    forall x ensures x in ids <==> IsAt(place[id := p'], x, p) {
      assert x in [id] + ids <==> IsAt(place, x, p);
      assert x in ids ==> x != id by {
        if x in ids {
          var k :| 0 <= k < |ids| && ids[k] == x;
          assert ([id] + ids)[0] != ([id] + ids)[k + 1];
        }
      }
    }
  }

  /** A container that neither loses nor gains the identity. */
  lemma Unmoved(ids: seq<string>, place: map<string, Place>, x: Place, id: string, p': Place)
    requires Terminal(x) || HoldsExactly(ids, place, x)
    requires x != p' && !IsAt(place, id, x)
    ensures Terminal(x) || HoldsExactly(ids, place[id := p'], x)
  {
    if !Terminal(x) {
      forall y ensures y in ids <==> IsAt(place[id := p'], y, x) {
        assert y in ids <==> IsAt(place, y, x);
      }
    }
  }

  lemma MoveKeeps(s: State, m: State, s': State, id: string, p: Place, p': Place)
    requires Located(s) && Lost(s, m, p, id) && !Terminal(p) && p != p'
    requires if Terminal(p') then Same(m, s') else Gained(m, s', p', id)
    requires s'.place == s.place[id := p']
    ensures Located(s')
  {
    hide Content;
    assert IsAt(s.place, id, p) by {
      assert HoldsExactly(Content(s, p), s.place, p);
      assert Content(s, p)[0] == id;
    }
    forall x ensures NoRepeats(Content(s', x)) && (!Terminal(x) ==> HoldsExactly(Content(s', x), s'.place, x)) {
      assert NoRepeats(Content(s, x));
      assert !Terminal(x) ==> HoldsExactly(Content(s, x), s.place, x);
      assert Terminal(p') ==> Content(s', x) == Content(m, x);
      if x == p {
        LostOne(Content(m, p), s.place, p, id, p');
      } else if x != p' {
        Unmoved(Content(s, x), s.place, x, id, p');
      } else if !Terminal(p') {
        GainedOne(Content(s, p'), s.place, p', id);
      }
    }
  }

  lemma IdsSnoc(items: seq<Item>, item: Item)
    ensures Ids(items + [item]) == Ids(items) + [item.identity]
  {}

  lemma IdsHead(items: seq<Item>)
    requires items != []
    ensures Ids(items) == [items[0].identity] + Ids(items[1..])
  {}

  function Target(s: State, q: QueueKey, at: Option<real>): Place {
    if at.None? then InReady(q) else InDelayed(s.sequence + 1)
  }

  lemma EnqueuedGains(s: State, q: QueueKey, item: Item, at: Option<real>)
    requires s.sequence + 1 !in s.delayed
    ensures Gained(s, Enqueued(s, q, item, at), Target(s, q, at), item.identity)
    ensures Enqueued(s, q, item, at).place == s.place[item.identity := Target(s, q, at)]
  {
    hide Ids;
    IdsSnoc(Of(s.ready, q), item);
  }

  lemma TakenLoses(s: State, r: string)
    requires r in s.inflight
    ensures Lost(s, Taken(s, r), InFlight(r), s.inflight[r].item.identity)
  {
    hide Ids;
  }

  lemma BuriedGains(s: State, q: QueueKey, item: Item)
    ensures Gained(s, Buried(s, q, item), InDead(q), item.identity)
  {
    hide Ids;
    IdsSnoc(Of(s.dead, q), item);
  }

  lemma TrimmedKeeps(l: Limits, s: State, q: QueueKey)
    requires Located(s)
    ensures Located(Trimmed(l, s, q))
  {
    hide Ids, Located;
    var letters := Of(s.dead, q);
    if |letters| > l.deadLetters {
      IdsHead(letters);
      MoveKeeps(s, Trimmed(l, s, q), Trimmed(l, s, q), letters[0].identity, InDead(q), Evicted);
    }
  }

  lemma PublishKeepsLocated(l: Limits, s: State, a: Action)
    requires Located(s) && Bounded(s) && a.Publish? && Enabled(l, s, a)
    ensures Located(Next(l, s, a))
  {
    hide Ids, Located, Known, ActiveCount, ReadyBounded, InflightBounded, DeadBounded;
    var m := Announced(s, a.queue, a.identity, Origin(a.queue, a.payload, a.maxAttempts, a.at.None?));
    assert Same(s, m);
    SameKeeps(s, m);
    var item := Item(a.identity, a.payload, a.maxAttempts, 0);
    EnqueuedGains(m, a.queue, item, a.at);
    EntryKeeps(m, Next(l, s, a), Target(m, a.queue, a.at), a.identity);
  }

  lemma PromoteKeepsLocated(l: Limits, s: State, a: Action)
    requires Located(s) && Bounded(s) && a.Promote? && Enabled(l, s, a)
    ensures Located(Next(l, s, a))
  {
    hide Ids, Located, ReadyBounded, InflightBounded, DeadBounded;
    var m := s.(delayed := s.delayed - {a.slot});
    var d := s.delayed[a.slot];
    assert Lost(s, m, InDelayed(a.slot), d.item.identity);
    EnqueuedGains(m, d.queue, d.item, None);
    MoveKeeps(s, m, Next(l, s, a), d.item.identity, InDelayed(a.slot), InReady(d.queue));
  }

  lemma ReserveKeepsLocated(l: Limits, s: State, a: Action)
    requires Located(s) && Bounded(s) && a.Reserve? && Enabled(l, s, a)
    ensures Located(Next(l, s, a))
  {
    hide Ids, Located, ReadyBounded, InflightBounded, DeadBounded, DelayedBounded;
    var q := a.queue;
    var id := s.ready[q][0].identity;
    var m := s.(ready := s.ready[q := s.ready[q][1..]]);
    IdsHead(s.ready[q]);
    assert Lost(s, m, InReady(q), id);
    assert Gained(m, Next(l, s, a), InFlight(a.receipt), id);
    MoveKeeps(s, m, Next(l, s, a), id, InReady(q), InFlight(a.receipt));
  }

  lemma AcknowledgeKeepsLocated(l: Limits, s: State, a: Action)
    requires Located(s) && Enabled(l, s, a) && a.Acknowledge?
    ensures Located(Next(l, s, a))
  {
    hide Ids, Located, Content;
    var m := Taken(s, a.receipt);
    TakenLoses(s, a.receipt);
    SameHistory(m, Next(l, s, a));
    MoveKeeps(s, m, Next(l, s, a), s.inflight[a.receipt].item.identity, InFlight(a.receipt), Acknowledged);
  }

  lemma FreeSlot(s: State)
    requires Bounded(s)
    ensures s.sequence + 1 !in s.delayed
  {}

  lemma TargetIsNew(s: State, r: string, q: QueueKey, at: Option<real>)
    ensures Target(Taken(s, r), q, at) != InFlight(r) && !Terminal(Target(Taken(s, r), q, at))
  {}

  lemma RetryKeepsLocated(l: Limits, s: State, a: Action)
    requires Located(s) && Bounded(s) && Enabled(l, s, a) && a.Retry?
    ensures Located(Next(l, s, a))
  {
    hide Ids, Located, Content, Bounded, Gained, Lost, Enqueued, Target;
    FreeSlot(s);
    TargetIsNew(s, a.receipt, s.inflight[a.receipt].queue, a.at);
    var held := s.inflight[a.receipt];
    var m := Taken(s, a.receipt);
    TakenLoses(s, a.receipt);
    EnqueuedGains(m, held.queue, held.item, a.at);
    MoveKeeps(s, m, Next(l, s, a), held.item.identity, InFlight(a.receipt), Target(m, held.queue, a.at));
  }

  lemma BuryKeepsLocated(l: Limits, s: State, a: Action)
    requires Located(s) && Enabled(l, s, a) && a.Bury?
    ensures Located(Next(l, s, a))
  {
    hide Ids, Located, Content, Trimmed, Gained, Lost;
    var held := s.inflight[a.receipt];
    var m := Taken(s, a.receipt);
    var b := Buried(m, held.queue, held.item);
    TakenLoses(s, a.receipt);
    BuriedGains(m, held.queue, held.item);
    MoveKeeps(s, m, b, held.item.identity, InFlight(a.receipt), InDead(held.queue));
    TrimmedKeeps(l, b, held.queue);
  }

  /** Containers alone decide what they hold. */
  lemma SameHistory(s: State, s': State)
    requires s'.ready == s.ready && s'.delayed == s.delayed && s'.inflight == s.inflight && s'.dead == s.dead
    ensures Same(s, s')
  {}

  lemma RestKeepsLocated(l: Limits, s: State, a: Action)
    requires Located(s) && Enabled(l, s, a) && (a.Renew? || a.Prune?)
    ensures Located(Next(l, s, a))
  {
    hide Ids, Located;
    IdsOfNone();
    assert Same(s, Next(l, s, a));
    SameKeeps(s, Next(l, s, a));
  }

  lemma IdsOfNone()
    ensures Ids([]) == []
  {}

  lemma StepKeepsLocated(l: Limits, s: State, a: Action)
    requires Located(s) && Bounded(s) && Enabled(l, s, a)
    ensures Located(Next(l, s, a))
  {
    hide Located, Bounded, Next;
    match a
    case Publish(_, _, _, _, _) => PublishKeepsLocated(l, s, a);
    case Promote(_, _) => PromoteKeepsLocated(l, s, a);
    case Reserve(_, _, _) => ReserveKeepsLocated(l, s, a);
    case Renew(_, _) => RestKeepsLocated(l, s, a);
    case Acknowledge(_) => AcknowledgeKeepsLocated(l, s, a);
    case Retry(_, _) => RetryKeepsLocated(l, s, a);
    case Bury(_) => BuryKeepsLocated(l, s, a);
    case Prune(_) => RestKeepsLocated(l, s, a);
  }

  // ----- attempts and contents -----

  lemma OriginGrows(s: State, id: string, o: Origin)
    requires Bounded(s) && id !in s.origin
    ensures var origin := s.origin[id := o];
            && ReadyBounded(s.ready, origin) && DelayedBounded(s.delayed, origin, s.sequence)
            && InflightBounded(s.inflight, origin) && DeadBounded(s.dead, origin)
  {}

  lemma EnqueuedBounded(s: State, q: QueueKey, item: Item, at: Option<real>)
    requires ReadyBounded(s.ready, s.origin) && DelayedBounded(s.delayed, s.origin, s.sequence)
    requires Waiting(s.origin, q, item) && (at.Some? ==> !Untouched(s.origin, item))
    ensures var s' := Enqueued(s, q, item, at);
            ReadyBounded(s'.ready, s'.origin) && DelayedBounded(s'.delayed, s'.origin, s'.sequence)
  {}

  lemma TrimmedBounded(l: Limits, s: State, q: QueueKey)
    requires DeadBounded(s.dead, s.origin)
    requires forall i :: 0 <= i < |Of(s.dead, q)| ==> Of(s.dead, q)[i].identity in s.place
    ensures var s' := Trimmed(l, s, q);
            && DeadBounded(s'.dead, s.origin) && s'.place.Keys == s.place.Keys
            && s' == s.(dead := s'.dead, place := s'.place)
  {}

  lemma BuriedBounded(s: State, q: QueueKey, item: Item)
    requires DeadBounded(s.dead, s.origin) && Tried(s.origin, q, item)
    ensures DeadBounded(Buried(s, q, item).dead, s.origin)
  {}

  lemma PublishKeepsBounded(l: Limits, s: State, a: Action)
    requires Bounded(s) && Enabled(l, s, a) && a.Publish?
    ensures Bounded(Next(l, s, a))
  {
    hide Known, ActiveCount, ReadyBounded, DelayedBounded, InflightBounded, DeadBounded;
    var o := Origin(a.queue, a.payload, a.maxAttempts, a.at.None?);
    OriginGrows(s, a.identity, o);
    EnqueuedBounded(Announced(s, a.queue, a.identity, o), a.queue, Item(a.identity, a.payload, a.maxAttempts, 0), a.at);
  }

  lemma PromoteKeepsBounded(l: Limits, s: State, a: Action)
    requires Located(s) && Bounded(s) && Enabled(l, s, a) && a.Promote?
    ensures Bounded(Next(l, s, a))
  {
    hide Located, ReadyBounded, InflightBounded, DeadBounded;
    EnqueuedBounded(s.(delayed := s.delayed - {a.slot}), s.delayed[a.slot].queue, s.delayed[a.slot].item, None);
    KeysKept(s, InDelayed(a.slot), s.delayed[a.slot].item.identity);
  }

  /** What a container holds was published. */
  lemma KeysKept(s: State, p: Place, id: string)
    requires Located(s) && id in Content(s, p) && !Terminal(p)
    ensures id in s.place
  {
    hide Content;
    assert HoldsExactly(Content(s, p), s.place, p);
  }

  lemma ReserveKeepsBounded(l: Limits, s: State, a: Action)
    requires Located(s) && Bounded(s) && Enabled(l, s, a) && a.Reserve?
    ensures Bounded(Next(l, s, a))
  {
    hide Located, DelayedBounded, DeadBounded;
    assert Ids(Of(s.ready, a.queue))[0] == s.ready[a.queue][0].identity;
    KeysKept(s, InReady(a.queue), s.ready[a.queue][0].identity);
  }

  lemma SettleKeepsBounded(l: Limits, s: State, a: Action)
    requires Located(s) && Bounded(s) && Enabled(l, s, a) && (a.Acknowledge? || a.Retry?)
    ensures Bounded(Next(l, s, a))
  {
    hide Located, ReadyBounded, DelayedBounded, DeadBounded;
    var held := s.inflight[a.receipt];
    InflightKnown(s, a.receipt);
    if a.Retry? { EnqueuedBounded(Taken(s, a.receipt), held.queue, held.item, a.at); }
  }

  lemma InflightKnown(s: State, r: string)
    requires Located(s) && r in s.inflight
    ensures s.inflight[r].item.identity in s.place
  {
    hide Located;
    KeysKept(s, InFlight(r), s.inflight[r].item.identity);
  }

  lemma BuryKeepsBounded(l: Limits, s: State, a: Action)
    requires Located(s) && Bounded(s) && Enabled(l, s, a) && a.Bury?
    ensures Bounded(Next(l, s, a))
  {
    hide Located, ReadyBounded, DelayedBounded, DeadBounded, Trimmed;
    var held := s.inflight[a.receipt];
    var b := Buried(Taken(s, a.receipt), held.queue, held.item);
    InflightKnown(s, a.receipt);
    BuriedBounded(Taken(s, a.receipt), held.queue, held.item);
    DeadKnown(s, held.queue);
    TrimmedBounded(l, b, held.queue);
  }

  lemma DeadKnown(s: State, q: QueueKey)
    requires Located(s)
    ensures forall i :: 0 <= i < |Of(s.dead, q)| ==> Of(s.dead, q)[i].identity in s.place
  {
    hide Located;
    forall i | 0 <= i < |Of(s.dead, q)| ensures Of(s.dead, q)[i].identity in s.place {
      assert Ids(Of(s.dead, q))[i] == Of(s.dead, q)[i].identity;
      KeysKept(s, InDead(q), Of(s.dead, q)[i].identity);
    }
  }

  lemma RestKeepsBounded(l: Limits, s: State, a: Action)
    requires Bounded(s) && Enabled(l, s, a) && (a.Renew? || a.Prune?)
    ensures Bounded(Next(l, s, a))
  {
    hide DelayedBounded;
  }

  lemma StepKeepsBounded(l: Limits, s: State, a: Action)
    requires Located(s) && Bounded(s) && Enabled(l, s, a)
    ensures Bounded(Next(l, s, a))
  {
    hide Located, Bounded, Next;
    match a
    case Publish(_, _, _, _, _) => PublishKeepsBounded(l, s, a);
    case Promote(_, _) => PromoteKeepsBounded(l, s, a);
    case Reserve(_, _, _) => ReserveKeepsBounded(l, s, a);
    case Renew(_, _) => RestKeepsBounded(l, s, a);
    case Acknowledge(_) => SettleKeepsBounded(l, s, a);
    case Retry(_, _) => SettleKeepsBounded(l, s, a);
    case Bury(_) => BuryKeepsBounded(l, s, a);
    case Prune(_) => RestKeepsBounded(l, s, a);
  }

  // ----- publish order -----

  lemma UntouchedSnoc(origin: map<string, Origin>, items: seq<Item>, item: Item)
    ensures UntouchedIn(origin, items + [item]) ==
            UntouchedIn(origin, items) + (if Untouched(origin, item) then [item.identity] else [])
  {
    assert (items + [item])[..|items|] == items;
  }

  lemma {:induction false} UntouchedHead(origin: map<string, Origin>, items: seq<Item>)
    requires items != []
    ensures UntouchedIn(origin, items) ==
            (if Untouched(origin, items[0]) then [items[0].identity] else []) + UntouchedIn(origin, items[1..])
  {
    if |items| > 1 {
      var front := items[..|items| - 1];
      UntouchedHead(origin, front);
      assert items[1..][..|items| - 2] == front[1..];
    }
  }

  lemma {:induction false} UntouchedByNews(origin: map<string, Origin>, id: string, o: Origin, items: seq<Item>)
    requires forall i :: 0 <= i < |items| ==> items[i].identity in origin
    requires id !in origin
    ensures UntouchedIn(origin[id := o], items) == UntouchedIn(origin, items)
  {
    if items != [] { UntouchedByNews(origin, id, o, items[..|items| - 1]); }
  }

  lemma EnqueuedKeepsOrder(s: State, q: QueueKey, item: Item, at: Option<real>)
    requires Ordered(s) && !Untouched(s.origin, item)
    ensures Ordered(Enqueued(s, q, item, at))
  {
    hide UntouchedIn, Untouched;
    UntouchedSnoc(s.origin, Of(s.ready, q), item);
    forall x ensures OrderedIn(Enqueued(s, q, item, at), x) { assert OrderedIn(s, x); }
  }

  lemma ReadyPublished(s: State)
    requires Bounded(s)
    ensures forall q, i :: 0 <= i < |Of(s.ready, q)| ==> Of(s.ready, q)[i].identity in s.origin
    ensures s.origin.Keys == s.place.Keys
  {
    hide DelayedBounded, InflightBounded, DeadBounded;
    assert forall q, i :: q in s.ready && 0 <= i < |s.ready[q]| ==> Waiting(s.origin, q, s.ready[q][i]);
  }

  lemma OfPut<T>(m: map<QueueKey, seq<T>>, q: QueueKey, v: seq<T>, x: QueueKey)
    ensures Of(m[q := v], x) == if x == q then v else Of(m, x)
  {}

  /** What a publication does to one queue's ready items and direct history. */
  lemma PublishedQueue(l: Limits, s: State, a: Action, x: QueueKey)
    requires Enabled(l, s, a) && a.Publish?
    ensures var s' := Next(l, s, a);
            var mine := x == a.queue && a.at.None?;
            && Of(s'.ready, x) == (if mine then Of(s.ready, x) + [Item(a.identity, a.payload, a.maxAttempts, 0)]
                else Of(s.ready, x))
            && Of(s'.direct, x) == (if mine then Of(s.direct, x) + [a.identity] else Of(s.direct, x))
  {
    hide Known, ActiveCount, Of;
    OfPut(s.ready, a.queue, Of(s.ready, a.queue) + [Item(a.identity, a.payload, a.maxAttempts, 0)], x);
    OfPut(s.direct, a.queue, Of(s.direct, a.queue) + [a.identity], x);
  }

  lemma PublishedHistory(l: Limits, s: State, a: Action)
    requires Enabled(l, s, a) && a.Publish?
    ensures var s' := Next(l, s, a);
            && s'.firsts == s.firsts
            && s'.origin == s.origin[a.identity := Origin(a.queue, a.payload, a.maxAttempts, a.at.None?)]
  {
    hide Known, ActiveCount, Of;
  }

  lemma PublishKeepsOrder(l: Limits, s: State, a: Action)
    requires Ordered(s) && Bounded(s) && Enabled(l, s, a) && a.Publish?
    ensures Ordered(Next(l, s, a))
  {
    hide UntouchedIn, Known, ActiveCount, Bounded, Next, Of;
    var o := Origin(a.queue, a.payload, a.maxAttempts, a.at.None?);
    ReadyPublished(s);
    var item := Item(a.identity, a.payload, a.maxAttempts, 0);
    var s' := Next(l, s, a);
    PublishedHistory(l, s, a);
    forall x ensures OrderedIn(s', x) {
      assert OrderedIn(s, x);
      UntouchedByNews(s.origin, a.identity, o, Of(s.ready, x));
      PublishedQueue(l, s, a, x);
      if x == a.queue && a.at.None? {
        UntouchedSnoc(s'.origin, Of(s.ready, x), item);
        Joined(Of(s.firsts, x), UntouchedIn(s.origin, Of(s.ready, x)), [a.identity]);
      }
    }
  }

  lemma Joined(a: seq<string>, b: seq<string>, c: seq<string>)
    ensures a + (b + c) == (a + b) + c
  {}

  lemma ReservedQueue(l: Limits, s: State, a: Action, x: QueueKey)
    requires Enabled(l, s, a) && a.Reserve?
    ensures var s', item := Next(l, s, a), s.ready[a.queue][0];
            && s'.origin == s.origin && s'.direct == s.direct
            && Of(s'.ready, x) == (if x == a.queue then Of(s.ready, x)[1..] else Of(s.ready, x))
            && Of(s'.firsts, x) ==
               (if x == a.queue && Untouched(s.origin, item) then Of(s.firsts, x) + [item.identity]
                   else Of(s.firsts, x))
  {
    hide Untouched;
    OfPut(s.firsts, a.queue, Of(s.firsts, a.queue) + [s.ready[a.queue][0].identity], x);
  }

  lemma ReserveKeepsOrder(l: Limits, s: State, a: Action)
    requires Ordered(s) && Enabled(l, s, a) && a.Reserve?
    ensures Ordered(Next(l, s, a))
  {
    hide UntouchedIn, Untouched, Next;
    var items := Of(s.ready, a.queue);
    UntouchedHead(s.origin, items);
    forall x ensures OrderedIn(Next(l, s, a), x) {
      assert OrderedIn(s, x);
      ReservedQueue(l, s, a, x);
      if x == a.queue && Untouched(s.origin, items[0]) {
        Joined(Of(s.firsts, x), [items[0].identity], UntouchedIn(s.origin, items[1..]));
      } else if x == a.queue {
        assert [] + UntouchedIn(s.origin, items[1..]) == UntouchedIn(s.origin, items[1..]);
      }
    }
  }

  lemma SameReadyKeepsOrder(s: State, s': State)
    requires Ordered(s) && s'.origin == s.origin && s'.firsts == s.firsts && s'.direct == s.direct
    requires forall q :: Of(s'.ready, q) == Of(s.ready, q)
    ensures Ordered(s')
  {
    hide UntouchedIn, Of;
    forall x ensures OrderedIn(s', x) { assert OrderedIn(s, x); assert Of(s'.ready, x) == Of(s.ready, x); }
  }

  lemma MoveKeepsOrder(l: Limits, s: State, a: Action)
    requires Ordered(s) && Bounded(s) && Enabled(l, s, a) && (a.Promote? || a.Retry?)
    ensures Ordered(Next(l, s, a))
  {
    hide Ordered, ReadyBounded, DeadBounded;
    var m := if a.Promote? then s.(delayed := s.delayed - {a.slot}) else Taken(s, a.receipt);
    SameReadyKeepsOrder(s, m);
    if a.Promote? {
      EnqueuedKeepsOrder(m, s.delayed[a.slot].queue, s.delayed[a.slot].item, None);
    } else {
      EnqueuedKeepsOrder(m, s.inflight[a.receipt].queue, s.inflight[a.receipt].item, a.at);
    }
  }

  lemma RestKeepsOrder(l: Limits, s: State, a: Action)
    requires Ordered(s) && Enabled(l, s, a) && (a.Renew? || a.Acknowledge? || a.Bury? || a.Prune?)
    ensures Ordered(Next(l, s, a))
  {
    hide Ordered, Next;
    RestKeepsReady(l, s, a);
    SameReadyKeepsOrder(s, Next(l, s, a));
  }

  lemma RestKeepsReady(l: Limits, s: State, a: Action)
    requires Enabled(l, s, a) && (a.Renew? || a.Acknowledge? || a.Bury? || a.Prune?)
    ensures var s' := Next(l, s, a);
            && s'.origin == s.origin && s'.firsts == s.firsts && s'.direct == s.direct
            && forall q :: Of(s'.ready, q) == Of(s.ready, q)
  {
    hide Trimmed, Buried;
    if a.Bury? { BuriedFrame(l, Taken(s, a.receipt), s.inflight[a.receipt].queue, s.inflight[a.receipt].item); }
  }

  /** What burying leaves alone. */
  lemma BuriedFrame(l: Limits, s: State, q: QueueKey, item: Item)
    ensures var s' := Trimmed(l, Buried(s, q, item), q);
            && s'.issued == s.issued && s'.inflight == s.inflight && s'.ready == s.ready && s'.delayed == s.delayed
            && s'.origin == s.origin && s'.firsts == s.firsts && s'.direct == s.direct && s'.sequence == s.sequence
  {}

  lemma StepKeepsOrder(l: Limits, s: State, a: Action)
    requires Ordered(s) && Bounded(s) && Enabled(l, s, a)
    ensures Ordered(Next(l, s, a))
  {
    hide Ordered, Bounded, Next;
    match a
    case Publish(_, _, _, _, _) => PublishKeepsOrder(l, s, a);
    case Promote(_, _) => MoveKeepsOrder(l, s, a);
    case Reserve(_, _, _) => ReserveKeepsOrder(l, s, a);
    case Retry(_, _) => MoveKeepsOrder(l, s, a);
    case _ => RestKeepsOrder(l, s, a);
  }

  // ----- limits -----

  lemma {:induction false} SubsetIsNoLarger<T>(a: set<T>, b: set<T>)
    requires a <= b
    ensures |a| <= |b|
  {
    assert b == a + (b - a);
    assert |b| == |a| + |b - a|;
  }

  /** Moving an item within its queue, or out of it, adds no queue and no active item. */
  ghost predicate NoMore(s: State, s': State) {
    Known(s') <= Known(s) && forall q :: ActiveCount(s', q) <= ActiveCount(s, q)
  }

  lemma NoMoreKeeps(l: Limits, s: State, s': State)
    requires WithinLimits(l, s) && NoMore(s, s')
    requires forall q :: |Of(s'.dead, q)| <= l.deadLetters
    ensures WithinLimits(l, s')
  {
    hide Known, ActiveCount, Of;
    SubsetIsNoLarger(Known(s'), Known(s));
    forall q ensures ActiveCount(s', q) <= l.items {
      assert ActiveCount(s', q) <= ActiveCount(s, q) <= l.items;
    }
  }

  lemma FewerDelayed(delayed: map<nat, Delayed>, slot: nat, q: QueueKey)
    requires slot in delayed
    ensures |DelayedIn(delayed - {slot}, q)| == |DelayedIn(delayed, q)| - (if delayed[slot].queue == q then 1 else 0)
  {
    assert DelayedIn(delayed - {slot}, q) == DelayedIn(delayed, q) - {slot};
  }

  lemma MoreDelayed(delayed: map<nat, Delayed>, slot: nat, d: Delayed, q: QueueKey)
    requires slot !in delayed
    ensures |DelayedIn(delayed[slot := d], q)| == |DelayedIn(delayed, q)| + (if d.queue == q then 1 else 0)
  {
    assert DelayedIn(delayed[slot := d], q) == DelayedIn(delayed, q) + (if d.queue == q then {slot} else {});
  }

  lemma FewerInflight(inflight: map<string, Reservation>, r: string, q: QueueKey)
    requires r in inflight
    ensures |InflightIn(inflight - {r}, q)| == |InflightIn(inflight, q)| - (if inflight[r].queue == q then 1 else 0)
  {
    assert InflightIn(inflight - {r}, q) == InflightIn(inflight, q) - {r};
  }

  lemma MoreInflight(inflight: map<string, Reservation>, r: string, v: Reservation, q: QueueKey)
    requires r !in inflight
    ensures |InflightIn(inflight[r := v], q)| == |InflightIn(inflight, q)| + (if v.queue == q then 1 else 0)
  {
    assert InflightIn(inflight[r := v], q) == InflightIn(inflight, q) + (if v.queue == q then {r} else {});
  }

  lemma SameInflight(inflight: map<string, Reservation>, r: string, until: real, q: QueueKey)
    requires r in inflight
    ensures InflightIn(inflight[r := inflight[r].(visibleUntil := until)], q) == InflightIn(inflight, q)
  {}

  /** `_enqueue` makes one more active item, in its own queue. */
  lemma EnqueuedCounts(s: State, q: QueueKey, item: Item, at: Option<real>, x: QueueKey)
    requires s.sequence + 1 !in s.delayed
    ensures ActiveCount(Enqueued(s, q, item, at), x) == ActiveCount(s, x) + (if x == q then 1 else 0)
  {
    hide DelayedIn, InflightIn;
    if at.Some? { MoreDelayed(s.delayed, s.sequence + 1, Delayed(at.value, q, item), x); }
  }

  lemma EnqueuedKnown(s: State, q: QueueKey, item: Item, at: Option<real>)
    requires s.sequence + 1 !in s.delayed
    ensures Known(Enqueued(s, q, item, at)) == Known(s) + {q}
  {
    var s' := Enqueued(s, q, item, at);
    forall x ensures x in Known(s') <==> x in Known(s) + {q} {
      if at.Some? {
        assert s'.delayed[s.sequence + 1].queue == q;
        assert forall k :: k in s.delayed ==> k in s'.delayed && s'.delayed[k] == s.delayed[k];
      } else {
        assert s'.ready[q] != [];
      }
    }
  }

  lemma PublishKeepsLimits(l: Limits, s: State, a: Action)
    requires WithinLimits(l, s) && Bounded(s) && Enabled(l, s, a) && a.Publish?
    ensures WithinLimits(l, Next(l, s, a))
  {
    hide Known, ActiveCount, ReadyBounded, InflightBounded, DeadBounded;
    var m := Announced(s, a.queue, a.identity, Origin(a.queue, a.payload, a.maxAttempts, a.at.None?));
    var item := Item(a.identity, a.payload, a.maxAttempts, 0);
    SameCounts(s, m);
    EnqueuedKnown(m, a.queue, item, a.at);
    if a.queue in Known(s) { assert Known(m) + {a.queue} == Known(m); }
    forall q ensures ActiveCount(Next(l, s, a), q) <= l.items {
      EnqueuedCounts(m, a.queue, item, a.at, q);
      assert ActiveCount(s, q) <= l.items;
    }
  }

  lemma SameCounts(s: State, m: State)
    requires m.ready == s.ready && m.delayed == s.delayed && m.inflight == s.inflight && m.dead == s.dead
    ensures Known(m) == Known(s) && forall q :: ActiveCount(m, q) == ActiveCount(s, q)
  {}

  lemma PromoteAddsNone(l: Limits, s: State, a: Action)
    requires Bounded(s) && Enabled(l, s, a) && a.Promote?
    ensures NoMore(s, Next(l, s, a))
  {
    hide DelayedIn, InflightIn, ReadyBounded, InflightBounded, DeadBounded, Known;
    var d := s.delayed[a.slot];
    var m := s.(delayed := s.delayed - {a.slot});
    EnqueuedKnown(m, d.queue, d.item, None);
    DelayedTakenKnown(s, a.slot);
    forall q ensures ActiveCount(Next(l, s, a), q) <= ActiveCount(s, q) {
      EnqueuedCounts(m, d.queue, d.item, None, q);
      FewerDelayed(s.delayed, a.slot, q);
    }
  }

  lemma DelayedTakenKnown(s: State, slot: nat)
    requires slot in s.delayed
    ensures Known(s.(delayed := s.delayed - {slot})) <= Known(s) && s.delayed[slot].queue in Known(s)
  {}

  lemma TakenKnown(s: State, r: string)
    requires r in s.inflight
    ensures Known(Taken(s, r)) <= Known(s) && s.inflight[r].queue in Known(s)
  {}

  lemma TakenCounts(s: State, r: string, q: QueueKey)
    requires r in s.inflight
    ensures ActiveCount(Taken(s, r), q) == ActiveCount(s, q) - (if s.inflight[r].queue == q then 1 else 0)
  {
    hide DelayedIn, InflightIn;
    FewerInflight(s.inflight, r, q);
  }

  lemma RetryAddsNone(l: Limits, s: State, a: Action)
    requires Bounded(s) && Enabled(l, s, a) && a.Retry?
    ensures NoMore(s, Next(l, s, a))
  {
    hide ActiveCount, ReadyBounded, InflightBounded, DeadBounded, Known, Enqueued;
    var held := s.inflight[a.receipt];
    var m := Taken(s, a.receipt);
    TakenKnown(s, a.receipt);
    EnqueuedKnown(m, held.queue, held.item, a.at);
    forall q ensures ActiveCount(Next(l, s, a), q) <= ActiveCount(s, q) {
      EnqueuedCounts(m, held.queue, held.item, a.at, q);
      TakenCounts(s, a.receipt, q);
    }
  }

  lemma BuriedKnown(l: Limits, s: State, q: QueueKey, item: Item)
    ensures Known(Trimmed(l, Buried(s, q, item), q)) <= Known(s) + {q}
    ensures forall x :: ActiveCount(Trimmed(l, Buried(s, q, item), q), x) == ActiveCount(s, x)
  {}

  lemma BuryAddsNone(l: Limits, s: State, a: Action)
    requires WithinLimits(l, s) && Enabled(l, s, a) && a.Bury? && 0 < l.deadLetters
    ensures NoMore(s, Next(l, s, a))
    ensures forall q :: |Of(Next(l, s, a).dead, q)| <= l.deadLetters
  {
    hide ActiveCount, Known;
    var held := s.inflight[a.receipt];
    var m := Taken(s, a.receipt);
    TakenKnown(s, a.receipt);
    BuriedKnown(l, m, held.queue, held.item);
    forall q ensures ActiveCount(Next(l, s, a), q) <= ActiveCount(s, q) {
      TakenCounts(s, a.receipt, q);
    }
    forall q ensures |Of(Next(l, s, a).dead, q)| <= l.deadLetters {
      assert |Of(s.dead, q)| <= l.deadLetters;
    }
  }

  lemma ReserveAddsNone(l: Limits, s: State, a: Action)
    requires Bounded(s) && Enabled(l, s, a) && a.Reserve?
    ensures NoMore(s, Next(l, s, a))
  {
    hide DelayedIn, InflightIn, ReadyBounded, DelayedBounded, DeadBounded, InflightBounded, Untouched;
    var s' := Next(l, s, a);
    forall q ensures ActiveCount(s', q) <= ActiveCount(s, q) {
      MoreInflight(s.inflight, a.receipt, s'.inflight[a.receipt], q);
    }
  }

  lemma AcknowledgeAddsNone(l: Limits, s: State, a: Action)
    requires Enabled(l, s, a) && a.Acknowledge?
    ensures NoMore(s, Next(l, s, a))
  {
    hide ActiveCount, Known;
    TakenKnown(s, a.receipt);
    SameCounts(Taken(s, a.receipt), Next(l, s, a));
    forall q ensures ActiveCount(Next(l, s, a), q) <= ActiveCount(s, q) { TakenCounts(s, a.receipt, q); }
  }

  lemma RestAddsNone(l: Limits, s: State, a: Action)
    requires Enabled(l, s, a) && (a.Renew? || a.Prune?)
    ensures NoMore(s, Next(l, s, a))
  {
    hide InflightIn;
    var s' := Next(l, s, a);
    forall q ensures ActiveCount(s', q) <= ActiveCount(s, q) {
      if a.Renew? { SameInflight(s.inflight, a.receipt, a.until, q); }
    }
  }

  lemma StepKeepsLimits(l: Limits, s: State, a: Action)
    requires WithinLimits(l, s) && Bounded(s) && Enabled(l, s, a) && 0 < l.deadLetters
    ensures WithinLimits(l, Next(l, s, a))
  {
    hide Bounded, NoMore, Known, ActiveCount, Delivered, Trimmed, Buried, Announced;
    if a.Publish? {
      PublishKeepsLimits(l, s, a);
    } else {
      match a {
        case Promote(_, _) => PromoteAddsNone(l, s, a);
        case Reserve(_, _, _) => ReserveAddsNone(l, s, a); SameDead(l, s, a);
        case Acknowledge(_) => AcknowledgeAddsNone(l, s, a);
        case Retry(_, _) => RetryAddsNone(l, s, a);
        case Bury(_) => BuryAddsNone(l, s, a);
        case _ => RestAddsNone(l, s, a);
      }
      forall q ensures |Of(Next(l, s, a).dead, q)| <= l.deadLetters { assert |Of(s.dead, q)| <= l.deadLetters; }
      NoMoreKeeps(l, s, Next(l, s, a));
    }
  }

  lemma SameDead(l: Limits, s: State, a: Action)
    requires Enabled(l, s, a) && a.Reserve?
    ensures Next(l, s, a).dead == s.dead
  {}

  /** Every step keeps the whole invariant. */
  lemma StepKeepsInvariant(l: Limits, s: State, a: Action)
    requires Invariant(l, s) && Enabled(l, s, a) && 0 < l.deadLetters
    ensures Invariant(l, Next(l, s, a))
  {
    hide Located, Bounded, Ordered, WithinLimits, Enabled, Next;
    StepKeepsLocated(l, s, a);
    StepKeepsBounded(l, s, a);
    StepKeepsOrder(l, s, a);
    StepKeepsLimits(l, s, a);
  }
}
