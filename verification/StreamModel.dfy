/** Replayable streams: everything appended so far, and the part that is retained. */
module StreamModel {
  import opened Common

  const MAX_STREAM_POSITION: nat := 0x7FFF_FFFF_FFFF_FFFF

  datatype Record = Record(position: nat, payload: Bytes)

  datatype ReadOutcome = Records(records: seq<Record>) | Expired

  datatype AckOutcome = Moved | NoSuchPosition | Backwards | TooManyConsumers

  /** The records at positions after `from` up to `to`. */
  function Slice(log: seq<Bytes>, from: nat, to: nat): (records: seq<Record>)
    requires from <= to <= |log|
    ensures |records| == to - from
  {
    seq(to - from, i requires 0 <= i < to - from => Record(from + i + 1, log[from + i]))
  }

  function Dropped(log: seq<Bytes>, retention: nat): nat { if |log| <= retention then 0 else |log| - retention }

  function Retained(log: seq<Bytes>, retention: nat): seq<Record> { Slice(log, Dropped(log, retention), |log|) }

  function Min(a: nat, b: nat): nat { if a < b then a else b }

  /** A read: expired when something after the cursor is already gone, otherwise the
      next records without a gap. */
  function Read(log: seq<Bytes>, retention: nat, after: Option<nat>, limit: nat): ReadOutcome {
    var first := Dropped(log, retention);
    if log != [] && after.Some? && after.value < first then Expired
    else
      var from := if after.Some? then after.value else first;
      if |log| <= from then Records([]) else Records(Slice(log, from, Min(from + limit, |log|)))
  }

  function Acknowledge(latest: nat, current: Option<nat>, position: nat, consumers: nat,
                       maxConsumers: nat): AckOutcome {
    if position > latest then NoSuchPosition
    else if current.Some? && position < current.value then Backwards
    else if current.None? && consumers >= maxConsumers then TooManyConsumers
    else Moved
  }

  lemma SliceAt(log: seq<Bytes>, from: nat, to: nat, i: nat)
    requires from <= to <= |log| && i < to - from
    ensures Slice(log, from, to)[i] == Record(from + i + 1, log[from + i])
  {}

  lemma SliceJoins(log: seq<Bytes>, from: nat, mid: nat, to: nat)
    requires from <= mid <= to <= |log|
    ensures Slice(log, from, mid) + Slice(log, mid, to) == Slice(log, from, to)
  {}

  lemma SliceOfLonger(log: seq<Bytes>, from: nat, to: nat, more: seq<Bytes>)
    requires from <= to <= |log|
    ensures Slice(log + more, from, to) == Slice(log, from, to)
  {}

  // ----- a consumer that reads, acknowledges and repeats -----

  datatype Loop = Loop(log: seq<Bytes>, checkpoint: Option<nat>, received: seq<Record>)

  datatype Event = Append(payload: Bytes) | Poll(limit: nat)

  /** Others append; the consumer polls from its checkpoint, keeps what it got and
      acknowledges the last of it. An expired cursor gives it nothing. */
  function Next(l: Loop, e: Event, retention: nat): Loop {
    match e
    case Append(payload) => l.(log := l.log + [payload])
    case Poll(limit) =>
      match Read(l.log, retention, l.checkpoint, limit)
      case Expired => l
      case Records(records) =>
        if records == [] then l
        else l.(received := l.received + records, checkpoint := Some(records[|records| - 1].position))
  }

  ghost predicate IsRun(loops: seq<Loop>, events: seq<Event>, retention: nat) {
    && |loops| == |events| + 1
    && forall i :: 0 <= i < |events| ==> loops[i + 1] == Next(loops[i], events[i], retention)
  }

  /** What the consumer has received is everything from where it started. */
  ghost predicate Gapless(l: Loop, start: nat) {
    && l.checkpoint.Some? && start <= l.checkpoint.value <= |l.log|
    && l.received == Slice(l.log, start, l.checkpoint.value)
  }

  lemma PollKeepsGapless(l: Loop, limit: nat, retention: nat, start: nat)
    requires Gapless(l, start)
    ensures Gapless(Next(l, Poll(limit), retention), start)
  {
    hide Slice;
    var c := l.checkpoint.value;
    if c < |l.log| && !(c < Dropped(l.log, retention)) {
      var to := Min(c + limit, |l.log|);
      if c < to { SliceAt(l.log, c, to, to - c - 1); }
      SliceJoins(l.log, start, c, to);
    }
  }

  lemma FirstPollIsGapless(l: Loop, limit: nat, retention: nat)
    requires l.checkpoint.None? && l.received == []
    ensures var l' := Next(l, Poll(limit), retention);
            l' == l || Gapless(l', Dropped(l.log, retention))
  {
    hide Slice;
    var first := Dropped(l.log, retention);
    var to := Min(first + limit, |l.log|);
    if first < to { SliceAt(l.log, first, to, to - first - 1); }
  }

  /** A consumer with a checkpoint receives every later position exactly once and in
      order, whatever is appended and dropped meanwhile; what it can no longer get it
      is told is expired, never skipped. */
  lemma {:induction false} ConsumerSeesNoGap(loops: seq<Loop>, events: seq<Event>, retention: nat, start: nat, n: nat)
    requires IsRun(loops, events, retention) && n < |loops| && Gapless(loops[0], start)
    ensures Gapless(loops[n], start)
  {
    hide Slice, Read, Next;
    if n > 0 {
      ConsumerSeesNoGap(loops, events, retention, start, n - 1);
      assert loops[n - 1 + 1] == Next(loops[n - 1], events[n - 1], retention);
      match events[n - 1]
      case Append(payload) => AppendKeepsGapless(loops[n - 1], payload, retention, start);
      case Poll(limit) => PollKeepsGapless(loops[n - 1], limit, retention, start);
    }
  }

  lemma AppendKeepsGapless(l: Loop, payload: Bytes, retention: nat, start: nat)
    requires Gapless(l, start)
    ensures Gapless(Next(l, Append(payload), retention), start)
  {
    hide Slice;
    SliceOfLonger(l.log, start, l.checkpoint.value, [payload]);
  }

  /** A poll is told of expiry exactly when the next position is no longer retained. */
  lemma ExpiredIffDropped(log: seq<Bytes>, retention: nat, after: nat, limit: nat)
    requires after <= |log|
    ensures Read(log, retention, Some(after), limit) == Expired <==> after + 1 <= Dropped(log, retention)
  {}

  /** A read that is not expired lists a retained position if and only if it is after the
      cursor and fewer than `limit` such positions come before it; records come in order,
      each with the payload appended at its position. */
  lemma ReadListsNextPositions(log: seq<Bytes>, retention: nat, after: Option<nat>, limit: nat)
    requires Read(log, retention, after, limit).Records?
    ensures var records := Read(log, retention, after, limit).records;
            var cursor := if after.Some? then after.value else 0;
            && (forall i :: 0 <= i < |records| ==> IsRecord(log, records[i]))
            && (forall i, j :: 0 <= i < j < |records| ==> records[i].position < records[j].position)
            && (forall p: nat :: Dropped(log, retention) < p <= |log| ==>
                  (RecordAt(log, p) in records <==> cursor < p <= BeforeFirst(log, retention, cursor) + limit))
  {
    var records := Read(log, retention, after, limit).records;
    var cursor := if after.Some? then after.value else 0;
    var first := BeforeFirst(log, retention, cursor);
    forall p: nat | Dropped(log, retention) < p <= |log| && cursor < p <= first + limit
      ensures RecordAt(log, p) in records
    {
      assert records[p - first - 1] == RecordAt(log, p);
    }
  }

  function RecordAt(log: seq<Bytes>, p: nat): Record
    requires 1 <= p <= |log|
  {
    Record(p, log[p - 1])
  }

  predicate IsRecord(log: seq<Bytes>, r: Record) { 1 <= r.position <= |log| && r.payload == log[r.position - 1] }

  /** The last position that a reader at this cursor is not to get. */
  function BeforeFirst(log: seq<Bytes>, retention: nat, cursor: nat): nat {
    if cursor < Dropped(log, retention) then Dropped(log, retention) else cursor
  }
}
