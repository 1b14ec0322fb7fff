/** The in-memory schedule store. Claims expire lazily: an operation first drops
    the expired ones from its dictionary. Every method is proved against
    `ScheduleModel.Step` on the claims alive at the call. */
module MemorySchedules {
  import opened Common
  import opened Recurrence
  import opened SortedSets
  import opened ScheduleModel

  class InMemoryScheduleCache {
    const maxRecords: nat
    const round: Rounding
    var records: map<Key, Record>
    var claims: map<Key, ClaimState>
    var nextFencing: nat
    var nextRevision: nat

    ghost predicate Valid()
      reads this
    {
      && claims.Keys <= records.Keys
      && forall k :: k in records ==> records[k].identity == k.identity
    }

    ghost function Seen(now: real): View
      reads this
    {
      View(records, Alive(claims, now), nextRevision, nextFencing)
    }

    constructor (maxRecords: nat, round: Rounding)
      ensures Valid() && this.maxRecords == maxRecords && this.round == round
      ensures forall now :: Seen(now) == View(map[], map[], 0, 0)
    {
      this.maxRecords, this.round := maxRecords, round;
      records, claims, nextFencing, nextRevision := map[], map[], 0, 0;
    }

    /** Drops the expired claims, which no observer can tell. */
    method RecoverClaims(now: real)
      requires Valid()
      modifies this`claims
      ensures Valid() && claims == Alive(old(claims), now)
      ensures forall t :: t >= now ==> Seen(t) == old(Seen(t))
    {
      var expired := set k | k in claims && claims[k].expiresAt <= now;
      while expired != {}
        invariant expired <= claims.Keys <= old(claims).Keys
        invariant forall k :: k in claims ==> claims[k] == old(claims)[k]
        invariant forall k :: k in old(claims) && k !in claims ==> old(claims)[k].expiresAt <= now
        invariant forall k :: k in claims ==> (claims[k].expiresAt <= now <==> k in expired)
        decreases |expired|
      {
        var k :| k in expired;
        claims := claims - {k};
        expired := expired - {k};
      }
      assert claims == Alive(old(claims), now);
      forall t | t >= now ensures Alive(claims, t) == Alive(old(claims), t) { AliveLater(old(claims), now, t); }
    }

    method Create(key: Key, payload: Bytes, due: real, interval: Option<Interval>, now: real) returns (out: Outcome)
      requires Valid()
      modifies this
      ensures Valid()
      ensures (Seen(now), out) == ScheduleModel.Create(old(Seen(now)), key, payload, due, interval, maxRecords)
    {
      if key in records { return Refused; }
      if |records| >= maxRecords { return Full; }
      nextRevision := nextRevision + 1;
      var record := Record(key.identity, nextRevision, payload, due, interval);
      records := records[key := record];
      return Stored(record);
    }

    method Update(key: Key, expected: nat, payload: Bytes, due: real, interval: Option<Interval>, now: real)
      returns (out: Outcome)
      requires Valid()
      modifies this
      ensures Valid()
      ensures (Seen(now), out) ==
              ScheduleModel.Update(old(Seen(now)), key, expected, payload, due, interval)
    {
      RecoverClaims(now);
      if key !in records || records[key].revision != expected || key in claims { return Refused; }
      nextRevision := nextRevision + 1;
      var record := Record(key.identity, nextRevision, payload, due, interval);
      records := records[key := record];
      return Stored(record);
    }

    method Delete(key: Key, now: real) returns (out: Outcome)
      requires Valid()
      modifies this
      ensures Valid()
      ensures (Seen(now), out) == ScheduleModel.Delete(old(Seen(now)), key)
    {
      ghost var before := Seen(now);
      claims := claims - {key};
      out := if key in records then Done else Refused;
      records := records - {key};
      if out == Done {
        assert Alive(claims, now) == before.claims - {key};
      } else {
        assert Alive(claims, now) == before.claims && records == before.records;
      }
    }

    method Take(key: Key, claimant: string, token: string, ttl: real, now: real) returns (out: Outcome)
      requires Valid() && ttl > 0.0
      modifies this
      ensures Valid()
      ensures (Seen(now), out) == ScheduleModel.Take(old(Seen(now)), key, claimant, token, now + ttl, now)
      ensures var v := old(Seen(now));
              && (out.Claimed? <==> key in v.records && v.records[key].due <= now && key !in v.claims)
              && (out.Claimed? ==> key in Seen(now).claims && Seen(now).claims[key].expiresAt == now + ttl)
    {
      RecoverClaims(now);
      if key !in records || records[key].due > now || key in claims { return Refused; }
      nextFencing := nextFencing + 1;
      claims := claims[key := ClaimState(claimant, nextFencing, token, records[key].revision, now + ttl)];
      out := Claimed(records[key], nextFencing);
      assert Alive(claims, now) == Alive(old(claims), now)[key := claims[key]];
    }

    /** The check every claim-bearing operation starts with. */
    method RequiredClaim(claim: Claim, now: real) returns (held: bool)
      requires Valid()
      modifies this`claims
      ensures Valid() && claims == Alive(old(claims), now) && Seen(now) == old(Seen(now))
      ensures held <==> Holds(old(Seen(now)), claim)
    {
      RecoverClaims(now);
      if claim.key !in claims || claims[claim.key].token != claim.token { return false; }
      if claim.key !in records { return false; }
      var state, record := claims[claim.key], records[claim.key];
      held := state.claimant == claim.claimant && state.fencing == claim.fencing &&
              state.revision == claim.revision && record.revision == claim.revision;
    }

    method Complete(claim: Claim, now: real) returns (out: Outcome)
      requires Valid()
      modifies this
      ensures Valid()
      ensures (Seen(now), out) == ScheduleModel.Complete(old(Seen(now)), claim, now, round)
    {
      var held := RequiredClaim(claim, now);
      if !held { return Refused; }
      var record := records[claim.key];
      if record.interval.None? {
        claims := claims - {claim.key};
        assert Alive(claims, now) == claims;
        records := records - {claim.key};
        return Done;
      }
      var next := round(MemoryNextDue(record.due, record.interval.value, now));
      nextRevision := nextRevision + 1;
      var updated := Record(record.identity, nextRevision, record.payload, next, record.interval);
      claims := claims - {claim.key};
      assert Alive(claims, now) == claims;
      records := records[claim.key := updated];
      return Stored(updated);
    }

    method Discard(claim: Claim, now: real) returns (out: Outcome)
      requires Valid()
      modifies this
      ensures Valid()
      ensures (Seen(now), out) == ScheduleModel.Discard(old(Seen(now)), claim)
    {
      var held := RequiredClaim(claim, now);
      if !held { return Refused; }
      claims := claims - {claim.key};
      assert Alive(claims, now) == claims;
      records := records - {claim.key};
      return Done;
    }

    method Advance(claim: Claim, payload: Bytes, due: real, now: real) returns (out: Outcome)
      requires Valid()
      modifies this
      ensures Valid()
      ensures (Seen(now), out) == ScheduleModel.Advance(old(Seen(now)), claim, payload, due)
    {
      var held := RequiredClaim(claim, now);
      if !held { return Refused; }
      var record := records[claim.key];
      nextRevision := nextRevision + 1;
      var updated := Record(record.identity, nextRevision, payload, due, record.interval);
      claims := claims - {claim.key};
      assert Alive(claims, now) == claims;
      records := records[claim.key := updated];
      return Stored(updated);
    }

    method Held(claim: Claim, now: real) returns (out: Outcome)
      requires Valid()
      modifies this
      ensures Valid()
      ensures (Seen(now), out) == ScheduleModel.Held(old(Seen(now)), claim)
    {
      var held := RequiredClaim(claim, now);
      return if held then Done else Refused;
    }

    method Release(claim: Claim, now: real) returns (out: Outcome)
      requires Valid()
      modifies this
      ensures Valid()
      ensures (Seen(now), out) == ScheduleModel.Release(old(Seen(now)), claim)
    {
      var held := RequiredClaim(claim, now);
      if !held { return Refused; }
      claims := claims - {claim.key};
      assert Alive(claims, now) == claims;
      return Done;
    }

    method Due(owner: string, before: real, limit: nat, cursor: Cursor, now: real) returns (page: seq<Record>)
      requires Valid() && limit > 0
      modifies this`claims
      ensures Valid() && Seen(now) == old(Seen(now))
      ensures IsDuePage(Seen(now), page, owner, DueEntries(Seen(now), owner, before, cursor), limit)
    {
      RecoverClaims(now);
      var listed := set k | k in records && k.owner == owner && records[k].due <= before &&
                            k !in claims && PastCursor(cursor, EntryOf(records[k]));
      var entries := set k | k in listed :: EntryOf(records[k]);
      assert entries == DueEntries(Seen(now), owner, before, cursor);
      var ordered := Smallest(entries, limit);
      var stored := records;
      assert forall e :: e in ordered ==> Key(owner, e.member) in stored && EntryOf(stored[Key(owner, e.member)]) == e;
      page := seq(|ordered|, i requires 0 <= i < |ordered| =>
        assert ordered[i] in ordered; stored[Key(owner, ordered[i].member)]);
      assert forall i :: 0 <= i < |ordered| ==> ordered[i] in ordered;
      assert Entries(page) == ordered;
    }
  }
}
