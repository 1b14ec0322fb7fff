/** The in-memory stream cache. */
module MemoryStreams {
  import opened Common
  import opened StreamModel

  type StreamKey = (string, string)

  datatype AppendOutcome = Appended(position: nat) | TooManyStreams | PositionTooLarge

  ghost predicate StreamsValid(
    records: map<StreamKey, seq<Record>>, nextPositions: map<StreamKey, nat>, logs: map<StreamKey, seq<Bytes>>,
    maxRecords: nat, maxStreams: nat)
  {
    && 0 < maxRecords
    && records.Keys == logs.Keys == nextPositions.Keys && |records| <= maxStreams
    && (forall k :: k in logs ==>
          && logs[k] != [] && records[k] == Retained(logs[k], maxRecords)
          && nextPositions[k] == |logs[k]| <= MAX_STREAM_POSITION)
  }

  ghost predicate ConsumersValid(
    positions: map<(StreamKey, string), nat>, logs: map<StreamKey, seq<Bytes>>, maxConsumers: nat)
  {
    && (forall c :: c in positions ==> c.0 in logs && 1 <= positions[c] <= |logs[c.0]|)
    && (forall k :: |ConsumersOf(positions, k)| <= maxConsumers)
  }

  lemma StreamsGrown(
    records: map<StreamKey, seq<Record>>, nextPositions: map<StreamKey, nat>, logs: map<StreamKey, seq<Bytes>>,
    maxRecords: nat, maxStreams: nat, k: StreamKey, log: seq<Bytes>)
    requires StreamsValid(records, nextPositions, logs, maxRecords, maxStreams)
    requires k in records || |records| < maxStreams
    requires log != [] && |log| <= MAX_STREAM_POSITION
    ensures StreamsValid(records[k := Retained(log, maxRecords)], nextPositions[k := |log|], logs[k := log],
                         maxRecords, maxStreams)
  {
    hide Retained;
    GrownSize(records, k, Retained(log, maxRecords));
  }

  lemma LatestIsLength(
    records: map<StreamKey, seq<Record>>, nextPositions: map<StreamKey, nat>, logs: map<StreamKey, seq<Bytes>>,
    maxRecords: nat, maxStreams: nat)
    requires StreamsValid(records, nextPositions, logs, maxRecords, maxStreams)
    ensures nextPositions.Keys == logs.Keys && forall k :: k in logs ==> nextPositions[k] == |logs[k]|
  {
    hide Retained;
  }

  lemma ConsumersOfGrown(
    positions: map<(StreamKey, string), nat>, logs: map<StreamKey, seq<Bytes>>, maxConsumers: nat,
    k: StreamKey, log: seq<Bytes>)
    requires ConsumersValid(positions, logs, maxConsumers) && (k in logs ==> |logs[k]| <= |log|)
    ensures ConsumersValid(positions, logs[k := log], maxConsumers)
  {
    hide ConsumersOf;
  }

  class InMemoryStreamCache {
    const maxRecords: nat
    const maxStreams: nat
    const maxConsumers: nat
    var records: map<StreamKey, seq<Record>>
    var nextPositions: map<StreamKey, nat>
    var positions: map<(StreamKey, string), nat>
    ghost var logs: map<StreamKey, seq<Bytes>>

    ghost function Log(k: StreamKey): seq<Bytes>
      reads this
    {
      if k in logs then logs[k] else []
    }

    /** Each stream retains exactly the last records of its log as a contiguous run, and
        no checkpoint is past the newest position. */
    ghost predicate Valid()
      reads this
    {
      && StreamsValid(records, nextPositions, logs, maxRecords, maxStreams)
      && ConsumersValid(positions, logs, maxConsumers)
    }

    constructor (maxRecords: nat, maxStreams: nat, maxConsumers: nat)
      requires 0 < maxRecords && 0 < maxStreams && 0 < maxConsumers
      ensures Valid() && logs == map[] && positions == map[]
    {
      this.maxRecords, this.maxStreams, this.maxConsumers := maxRecords, maxStreams, maxConsumers;
      records, nextPositions, positions, logs := map[], map[], map[], map[];
      new;
      forall k ensures |ConsumersOf(positions, k)| == 0 { assert ConsumersOf(positions, k) == {}; }
    }

    method Append(k: StreamKey, payload: Bytes) returns (out: AppendOutcome)
      requires Valid()
      modifies this`records, this`nextPositions, this`logs
      ensures Valid()
      ensures out == if k !in old(logs) && |old(logs)| >= maxStreams then TooManyStreams
                     else if |old(Log(k))| >= MAX_STREAM_POSITION then PositionTooLarge
                     else Appended(|old(Log(k))| + 1)
      ensures logs == if out.Appended? then old(logs)[k := old(Log(k)) + [payload]] else old(logs)
    {
      hide Retained, ConsumersValid;
      SameSize(records, logs);
      if k !in records && |records| >= maxStreams { return TooManyStreams; }
      var position := (if k in nextPositions then nextPositions[k] else 0) + 1;
      if position > MAX_STREAM_POSITION { return PositionTooLarge; }
      ghost var log := Log(k);
      var mine := (if k in records then records[k] else []) + [Record(position, payload)];
      assert mine == WithLast(log, payload, maxRecords) by { NothingRetained(maxRecords); }
      mine := Trim(log, payload, maxRecords, mine);
      StreamsGrown(records, nextPositions, logs, maxRecords, maxStreams, k, log + [payload]);
      ConsumersOfGrown(positions, logs, maxConsumers, k, log + [payload]);
      records := records[k := mine];
      nextPositions := nextPositions[k := position];
      logs := logs[k := log + [payload]];
      out := Appended(position);
    }

    /** `_read`. */
    method ReadAfter(k: StreamKey, after: Option<nat>, limit: nat) returns (out: ReadOutcome)
      requires Valid() && (after.Some? ==> 1 <= after.value) && 0 < limit
      ensures out == Read(Log(k), maxRecords, after, limit)
    {
      hide Slice, ConsumersOf;
      if k !in records || records[k] == [] { return Records([]); }
      var mine := records[k];
      ghost var log := logs[k];
      SliceAt(log, Dropped(log, maxRecords), |log|, 0);
      var earliest := mine[0].position;
      if after.Some? && after.value < earliest - 1 { return Expired; }
      var afterValue := if after.Some? then after.value else 0;
      RetainedAscends(log, maxRecords);
      var later, skipped := Later(mine, afterValue);
      out := Records(if |later| <= limit then later else later[..limit]);
      LaterIsSlice(log, maxRecords, afterValue, skipped, later, limit);
    }

    method ReadStream(k: StreamKey, after: Option<nat>, limit: nat) returns (out: ReadOutcome)
      requires Valid() && (after.Some? ==> 1 <= after.value) && 0 < limit
      ensures out == Read(Log(k), maxRecords, after, limit)
    {
      out := ReadAfter(k, after, limit);
    }

    method ReadConsumer(k: StreamKey, consumer: string, limit: nat) returns (out: ReadOutcome)
      requires Valid() && 0 < limit
      ensures out == Read(Log(k), maxRecords, Checkpoint(positions, k, consumer), limit)
    {
      out := ReadAfter(k, Checkpoint(positions, k, consumer), limit);
    }

    /** A checkpoint moves forward, to a position that exists, or not at all. */
    method AcknowledgeUpTo(k: StreamKey, consumer: string, position: nat) returns (out: AckOutcome)
      requires Valid() && 1 <= position
      modifies this`positions
      ensures Valid()
      ensures out == Acknowledge(|Log(k)|, Checkpoint(old(positions), k, consumer), position,
                                 |ConsumersOf(old(positions), k)|, maxConsumers)
      ensures positions == if out == Moved then old(positions)[(k, consumer) := position] else old(positions)
    {
      hide Retained, ConsumersOf, StreamsValid;
      LatestIsLength(records, nextPositions, logs, maxRecords, maxStreams);
      var latest := if k in nextPositions then nextPositions[k] else 0;
      if position > latest { return NoSuchPosition; }
      var current := Checkpoint(positions, k, consumer);
      if current.Some? && position < current.value { return Backwards; }
      if current.None? && |ConsumersOf(positions, k)| >= maxConsumers { return TooManyConsumers; }
      positions := positions[(k, consumer) := position];
      forall x ensures |ConsumersOf(positions, x)| <= maxConsumers {
        OneMoreConsumer(old(positions), k, consumer, position, x);
      }
      out := Moved;
    }

    method ForgetConsumer(k: StreamKey, consumer: string) returns (known: bool)
      requires Valid()
      modifies this`positions
      ensures Valid()
      ensures known == Checkpoint(old(positions), k, consumer).Some? && positions == old(positions) - {(k, consumer)}
    {
      hide Retained, ConsumersOf, StreamsValid;
      known := (k, consumer) in positions;
      positions := positions - {(k, consumer)};
      forall x ensures |ConsumersOf(positions, x)| <= maxConsumers {
        FewerConsumers(old(positions), k, consumer, x);
      }
    }
  }

  function Checkpoint(positions: map<(StreamKey, string), nat>, k: StreamKey, consumer: string): Option<nat> {
    if (k, consumer) in positions then Some(positions[(k, consumer)]) else None
  }

  function ConsumersOf(positions: map<(StreamKey, string), nat>, k: StreamKey): set<(StreamKey, string)> {
    set c | c in positions && c.0 == k
  }

  lemma OneMoreConsumer(positions: map<(StreamKey, string), nat>, k: StreamKey, consumer: string, position: nat,
                        x: StreamKey)
    ensures var more := positions[(k, consumer) := position];
            |ConsumersOf(more, x)| ==
            |ConsumersOf(positions, x)| + (if x == k && (k, consumer) !in positions then 1 else 0)
  {
    var more := positions[(k, consumer) := position];
    if x == k {
      assert ConsumersOf(more, x) == ConsumersOf(positions, x) + {(k, consumer)};
    } else {
      assert ConsumersOf(more, x) == ConsumersOf(positions, x);
    }
  }

  lemma FewerConsumers(positions: map<(StreamKey, string), nat>, k: StreamKey, consumer: string, x: StreamKey)
    ensures |ConsumersOf(positions - {(k, consumer)}, x)| <= |ConsumersOf(positions, x)|
  {
    assert ConsumersOf(positions - {(k, consumer)}, x) == ConsumersOf(positions, x) - {(k, consumer)};
  }

  lemma SameSize(records: map<StreamKey, seq<Record>>, logs: map<StreamKey, seq<Bytes>>)
    requires records.Keys == logs.Keys
    ensures |records| == |logs|
  {
    assert |records| == |records.Keys| && |logs| == |logs.Keys|;
  }

  lemma GrownSize(records: map<StreamKey, seq<Record>>, k: StreamKey, mine: seq<Record>)
    ensures |records[k := mine]| == |records| + (if k in records then 0 else 1)
  {
    assert records[k := mine].Keys == records.Keys + {k};
  }

  ghost predicate Ascending(records: seq<Record>) {
    forall i, j :: 0 <= i < j < |records| ==> records[i].position < records[j].position
  }

  lemma RetainedAscends(log: seq<Bytes>, retention: nat)
    ensures Ascending(Retained(log, retention))
  {}

  lemma NothingRetained(retention: nat)
    ensures Retained([], retention) == []
  {}

  /** The records after a position. */
  method Later(records: seq<Record>, after: nat) returns (later: seq<Record>, ghost skipped: nat)
    requires Ascending(records)
    ensures skipped <= |records| && later == records[skipped..]
    ensures forall j :: 0 <= j < skipped ==> records[j].position <= after
    ensures forall j :: skipped <= j < |records| ==> records[j].position > after
  {
    later, skipped := [], 0;
    var i := 0;
    while i < |records|
      invariant 0 <= skipped <= i <= |records| && later == records[skipped..i]
      invariant forall j :: 0 <= j < skipped ==> records[j].position <= after
      invariant forall j :: skipped <= j < i ==> records[j].position > after
    {
      assert skipped < i ==> records[skipped].position < records[i].position;
      if records[i].position > after {
        later := later + [records[i]];
      } else {
        skipped := i + 1;
      }
      i := i + 1;
    }
  }

  /** Records beyond the retention are dropped from the front. */
  method Trim(ghost log: seq<Bytes>, ghost payload: Bytes, retention: nat, grown: seq<Record>)
    returns (mine: seq<Record>)
    requires 0 < retention && grown == WithLast(log, payload, retention)
    ensures mine == Retained(log + [payload], retention)
  {
    hide Slice;
    mine := grown;
    AppendedRetained(log, payload, retention);
    while |mine| > retention
      invariant |mine| <= retention + 1
      invariant mine == grown || mine == Retained(log + [payload], retention)
      decreases |mine|
    {
      mine := mine[1..];
    }
  }

  /** What was retained, with the new record behind it. */
  function WithLast(log: seq<Bytes>, payload: Bytes, retention: nat): seq<Record> {
    Retained(log, retention) + [Record(|log| + 1, payload)]
  }

  /** Appending and dropping the oldest keeps exactly the last records. */
  lemma AppendedRetained(log: seq<Bytes>, payload: Bytes, retention: nat)
    requires 0 < retention
    ensures var grown := WithLast(log, payload, retention);
            Retained(log + [payload], retention) == if |grown| > retention then grown[1..] else grown
  {}

  lemma LaterIsSlice(log: seq<Bytes>, retention: nat, after: nat, skipped: nat, later: seq<Record>, limit: nat)
    requires log != [] && 0 < retention && 0 < limit
    requires var mine := Retained(log, retention);
             && skipped <= |mine| && later == mine[skipped..]
             && (forall j :: 0 <= j < skipped ==> mine[j].position <= after)
             && (forall j :: skipped <= j < |mine| ==> mine[j].position > after)
    requires after == 0 || Dropped(log, retention) <= after
    ensures var cut := Records(if |later| <= limit then later else later[..limit]);
            && (after > 0 ==> cut == Read(log, retention, Some(after), limit))
            && (after == 0 ==> cut == Read(log, retention, None, limit))
  {
    var first := Dropped(log, retention);
    var mine := Retained(log, retention);
    forall j | 0 <= j < |mine| ensures mine[j].position == first + j + 1 {}
    var from := if after == 0 then first else after;
    assert skipped == Min(from, |log|) - first by {
      if skipped < |mine| { assert mine[skipped].position == first + skipped + 1; }
      if skipped > 0 { assert mine[skipped - 1].position == first + skipped; }
    }
  }

  /** A consumer with a checkpoint that reads, acknowledges the last record it got and
      repeats, while others append: it receives every later position once, in order. */
  method Consume(cache: InMemoryStreamCache, k: StreamKey, consumer: string, events: seq<Event>)
    returns (received: seq<Record>)
    requires cache.Valid() && Checkpoint(cache.positions, k, consumer).Some?
    requires forall i :: 0 <= i < |events| && events[i].Poll? ==> 0 < events[i].limit
    modifies cache
    ensures cache.Valid()
    ensures var start, end := Checkpoint(old(cache.positions), k, consumer), Checkpoint(cache.positions, k, consumer);
            && end.Some? && Gapless(Loop(cache.Log(k), end, received), start.value)
  {
    hide Slice, Read, StreamsValid, ConsumersValid, Retained;
    ghost var start := Checkpoint(cache.positions, k, consumer).value;
    received := [];
    CheckpointExists(cache, k, consumer);
    NothingReceived(cache.Log(k), start);
    for i := 0 to |events|
      invariant cache.Valid() && Checkpoint(cache.positions, k, consumer).Some?
      invariant Gapless(Loop(cache.Log(k), Checkpoint(cache.positions, k, consumer), received), start)
    {
      ghost var l := Loop(cache.Log(k), Checkpoint(cache.positions, k, consumer), received);
      match events[i] {
        case Append(payload) =>
          var out := cache.Append(k, payload);
          if out.Appended? { AppendKeepsGapless(l, payload, cache.maxRecords, start); }
        case Poll(limit) =>
          PollKeepsGapless(l, limit, cache.maxRecords, start);
          NextPositions(l, limit, cache.maxRecords, start);
          var out := cache.ReadConsumer(k, consumer, limit);
          if out.Records? && out.records != [] {
            var last := out.records[|out.records| - 1].position;
            var moved := cache.AcknowledgeUpTo(k, consumer, last);
            received := received + out.records;
          }
      }
    }
  }

  lemma CheckpointExists(cache: InMemoryStreamCache, k: StreamKey, consumer: string)
    requires cache.Valid() && Checkpoint(cache.positions, k, consumer).Some?
    ensures Checkpoint(cache.positions, k, consumer).value <= |cache.Log(k)|
  {
    hide StreamsValid, ConsumersOf;
  }

  lemma NothingReceived(log: seq<Bytes>, start: nat)
    requires start <= |log|
    ensures Gapless(Loop(log, Some(start), []), start)
  {}

  /** The last record of a poll is past the checkpoint and within the log. */
  lemma NextPositions(l: Loop, limit: nat, retention: nat, start: nat)
    requires Gapless(l, start)
    ensures var out := Read(l.log, retention, l.checkpoint, limit);
            out.Records? && out.records != [] ==>
              l.checkpoint.value < out.records[|out.records| - 1].position <= |l.log|
  {
    hide Slice;
    var c := l.checkpoint.value;
    var to := Min(c + limit, |l.log|);
    if c < to { SliceAt(l.log, c, to, to - c - 1); }
  }
}
