/** The Redis stream scripts, which see positions as text, against the stream model. */
module RedisStreams {
  import opened Common
  import opened DecimalText
  import opened StreamModel

  /** A stored entry: its identifier is its position, which it also carries as a field. */
  datatype Entry = Entry(position: string, payload: Bytes)

  /** The keys hold this log: its retained records as text, and its length. */
  ghost predicate Stored(entries: seq<Entry>, log: seq<Bytes>, retention: nat) {
    && |entries| == |Retained(log, retention)|
    && forall i :: 0 <= i < |entries| ==> Same(entries[i], Retained(log, retention)[i])
  }

  ghost predicate Same(e: Entry, r: Record) {
    Canonical(e.position) && Value(e.position) == r.position && e.payload == r.payload
  }

  /** The script sees no cursor as empty text. */
  ghost predicate Cursor(text: string, after: Option<nat>) {
    if after.None? then text == "" else Canonical(text) && Value(text) == after.value && 1 <= after.value
  }

  /** `XRANGE` from an identifier: entries are in the order of their identifiers. */
  function From(entries: seq<Entry>, start: string): seq<Entry> {
    if entries == [] || Compare(entries[0].position, start) >= 0 then entries else From(entries[1..], start)
  }

  function Cut<T>(s: seq<T>, n: nat): seq<T> { if |s| <= n then s else s[..n] }

  datatype ScriptRead = NoEntries | Gone | Listed(entries: seq<Entry>)

  /** The read script. */
  method ReadScript(entries: seq<Entry>, after: string, limit: nat) returns (out: ScriptRead)
    requires after == "" || Canonical(after)
    ensures entries == [] <==> out == NoEntries
    ensures entries != [] && after != "" && Canonical(entries[0].position) ==>
              (out == Gone <==> Value(after) + 1 < Value(entries[0].position))
    ensures entries != [] && after == "" ==> out == Listed(Cut(entries, limit))
    ensures out.Listed? && after != "" ==> out.entries == Following(entries, after, limit)
  {
    if entries == [] { return NoEntries; }
    if after != "" {
      var next := Increment(after);
      if Canonical(entries[0].position) { CompareIsNumeric(next, entries[0].position); }
      if Compare(next, entries[0].position) < 0 { return Gone; }
    }
    var records := if after == "" then Cut(entries, limit) else Cut(From(entries, after), limit + 1);
    if after != "" && |records| > 0 && records[0].position == after { records := records[1..]; }
    out := Listed(records);
  }

  /** One entry too many is fetched, in case the first is the cursor itself. */
  function Following(entries: seq<Entry>, after: string, limit: nat): seq<Entry> {
    var records := Cut(From(entries, after), limit + 1);
    if records != [] && records[0].position == after then records[1..] else records
  }

  /** Where the retained entries reach the cursor. */
  function Reached(first: nat, n: nat, after: nat): nat
    requires first <= n
  {
    if after <= first + 1 then 0 else if after > n then n - first else after - first - 1
  }

  lemma {:induction false} FromReached(entries: seq<Entry>, log: seq<Bytes>, first: nat, start: string)
    requires first <= |log| && |entries| == |log| - first && Canonical(start)
    requires forall i :: 0 <= i < |entries| ==> Same(entries[i], Record(first + i + 1, log[first + i]))
    ensures From(entries, start) == entries[Reached(first, |log|, Value(start))..]
    decreases |entries|
  {
    hide Value, Compare, IsDigits;
    if entries != [] {
      assert Same(entries[0], Record(first + 0 + 1, log[first + 0]));
      CompareIsNumeric(entries[0].position, start);
      if Value(entries[0].position) < Value(start) {
        var rest := entries[1..];
        forall i | 0 <= i < |rest| ensures Same(rest[i], Record(first + 1 + i + 1, log[first + 1 + i])) {
          assert Same(entries[i + 1], Record(first + (i + 1) + 1, log[first + (i + 1)]));
        }
        FromReached(rest, log, first + 1, start);
      }
    }
  }

  lemma StoredAt(entries: seq<Entry>, log: seq<Bytes>, retention: nat)
    requires Stored(entries, log, retention)
    ensures var first := Dropped(log, retention);
            && |entries| == |log| - first
            && forall i :: 0 <= i < |entries| ==> Same(entries[i], Record(first + i + 1, log[first + i]))
  {
    hide Same;
  }

  /** What the script lists after a cursor that is still readable, and how much. */
  lemma FollowingIsNext(entries: seq<Entry>, log: seq<Bytes>, retention: nat, text: string, after: nat, limit: nat)
    requires Stored(entries, log, retention) && Cursor(text, Some(after)) && 0 < limit
    requires Dropped(log, retention) <= after && log != []
    ensures var first := Dropped(log, retention);
            var from := Min(after, |log|) - first;
            && from <= |entries|
            && Following(entries, text, limit) ==
               Cut(entries[from..], if after == first then limit + 1 else limit)
  {
    hide Value, Canonical, From;
    var first := Dropped(log, retention);
    StoredAt(entries, log, retention);
    FromReached(entries, log, first, text);
    var k := Reached(first, |log|, after);
    if k < |entries| {
      assert Same(entries[k], Record(first + k + 1, log[first + k]));
      CompareIsNumeric(entries[k].position, text);
    }
    if after > first {
      if after <= |log| { assert entries[k..][1..] == entries[k + 1..]; }
    }
  }

  ghost predicate SameAll(entries: seq<Entry>, records: seq<Record>) {
    |entries| == |records| && forall i :: 0 <= i < |entries| ==> Same(entries[i], records[i])
  }

  /** Cut to the limit, the Redis read is the in-memory read. */
  method ReadStream(entries: seq<Entry>, ghost log: seq<Bytes>, ghost retention: nat,
                    text: string, ghost after: Option<nat>, limit: nat)
    returns (out: ScriptRead)
    requires Stored(entries, log, retention) && Cursor(text, after) && 0 < limit && 0 < retention
    ensures match Read(log, retention, after, limit)
            case Expired => out == Gone
            case Records(records) =>
              (out == NoEntries && records == []) || (out.Listed? && SameAll(Cut(out.entries, limit), records))
    ensures out.Listed? && |out.entries| > limit <==> Extra(log, retention, after, limit)
    ensures out.Listed? ==> |out.entries| <= limit + 1
  {
    hide Value, IsDigits, Same, From, Slice, Following;
    out := ReadScript(entries, text, limit);
    StoredAt(entries, log, retention);
    if entries != [] { FirstIs(entries, log, retention); }
    if out.Listed? {
      ghost var from := if after.Some? then Min(after.value, |log|) - Dropped(log, retention) else 0;
      if after.Some? { FollowingIsNext(entries, log, retention, text, after.value, limit); }
      assert entries[0..] == entries;
      CutTwice(entries[from..], limit);
      ListedIsNext(entries, log, retention, after, limit);
    }
  }

  lemma CutTwice<T>(s: seq<T>, n: nat)
    ensures Cut(Cut(s, n + 1), n) == Cut(s, n) == Cut(Cut(s, n), n)
  {}

  lemma FirstIs(entries: seq<Entry>, log: seq<Bytes>, retention: nat)
    requires Stored(entries, log, retention) && entries != []
    ensures Canonical(entries[0].position) && Value(entries[0].position) == Dropped(log, retention) + 1
  {
    StoredAt(entries, log, retention);
    assert Same(entries[0], Record(Dropped(log, retention) + 0 + 1, log[Dropped(log, retention) + 0]));
  }

  /** More than the limit comes back exactly when the cursor is just before the oldest
      retained record and more than the limit is retained. */
  predicate Extra(log: seq<Bytes>, retention: nat, after: Option<nat>, limit: nat) {
    after.Some? && log != [] && after.value == Dropped(log, retention) && |log| - Dropped(log, retention) > limit
  }

  lemma ListedIsNext(entries: seq<Entry>, log: seq<Bytes>, retention: nat, after: Option<nat>, limit: nat)
    requires Stored(entries, log, retention) && entries != [] && 0 < limit
    requires after.Some? ==> Dropped(log, retention) <= after.value
    ensures var first := Dropped(log, retention);
            var from := if after.Some? then Min(after.value, |log|) - first else 0;
            && from <= |entries|
            && Read(log, retention, after, limit).Records?
            && SameAll(Cut(entries[from..], limit), Read(log, retention, after, limit).records)
  {
    hide Same;
    StoredAt(entries, log, retention);
  }

  /** A stream of two records with one dropped, read one record at a time from the
      dropped position: both retained records come back. */
  lemma ExtraRecord(a: Bytes, b: Bytes, c: Bytes)
    ensures Extra([a, b, c], 2, Some(1), 1)
    ensures Read([a, b, c], 2, Some(1), 1) == Records([Record(2, b)])
  {
    assert Slice([a, b, c], 1, 2) == [Record(2, b)];
  }

  /** The acknowledge script decides as the in-memory store does. */
  method AcknowledgeScript(latest: Option<string>, current: Option<string>, position: string,
                           consumers: nat, maxConsumers: nat)
    returns (out: AckOutcome)
    requires Canonical(position) && (latest.Some? ==> Canonical(latest.value)) &&
              (current.Some? ==> Canonical(current.value))
    ensures out == Acknowledge(if latest.Some? then Value(latest.value) else 0,
                               if current.Some? then Some(Value(current.value)) else None,
                               Value(position), consumers, maxConsumers)
  {
    hide Compare, IsDigits, DecimalText.Pow;
    var newest := if latest.Some? then latest.value else "0";
    ZeroText();
    CompareIsNumeric(position, newest);
    if Compare(position, newest) > 0 { return NoSuchPosition; }
    if current.Some? { CompareIsNumeric(position, current.value); }
    if current.Some? && Compare(position, current.value) < 0 { return Backwards; }
    if current.None? && consumers >= maxConsumers { return TooManyConsumers; }
    out := Moved;
  }

  lemma ZeroText()
    ensures Canonical("0") && Value("0") == 0
  {
    assert "0"[..0] == "";
  }

  /** The lease a caller presents and the one stored, field by field. */
  datatype LeaseFields = LeaseFields(holder: string, token: string, fencing: string)

  /** The append script: under a lease only while exactly that lease is stored; the next
      position (what `INCR` gives as text), one more entry, trimmed to the retention, and
      a new expiry for the keys when one is asked for. */
  method AppendScript(entries0: seq<Entry>, sequence0: string, ghost log: seq<Bytes>, payload: Bytes, retention: nat,
                      presented: Option<LeaseFields>, stored: Option<LeaseFields>,
                      ttl: Option<nat>, expiry0: Option<int>, now: int)
    returns (position: Option<string>, entries: seq<Entry>, sequence: string, expiry: Option<int>)
    requires Stored(entries0, log, retention) && Canonical(sequence0) && Value(sequence0) == |log| && 0 < retention
    ensures position.Some? <==> presented.None? || stored == presented
    ensures position.None? ==> entries == entries0 && sequence == sequence0 && expiry == expiry0
    ensures position.Some? ==>
              && position.value == sequence && Canonical(sequence) && Value(sequence) == |log| + 1
              && Stored(entries, log + [payload], retention)
              && expiry == if ttl.Some? then Some(now + ttl.value) else expiry0
  {
    hide Value, Canonical;
    if presented.Some? && (stored.None? || stored.value.holder != presented.value.holder
                           || stored.value.token != presented.value.token
                           || stored.value.fencing != presented.value.fencing) {
      return None, entries0, sequence0, expiry0;
    }
    sequence := Increment(sequence0);
    entries := entries0 + [Entry(sequence, payload)];
    StoredAt(entries0, log, retention);
    if |entries| > retention { entries := entries[|entries| - retention..]; }
    expiry := if ttl.Some? then Some(now + ttl.value) else expiry0;
    position := Some(sequence);
  }
}
