/**
 The client's file outbox: `enqueue` and `replay` of `LocalOutbox`, for one project
 directory.  Times are whole seconds.
 */
module ClientOutbox {
  import opened Prelude

  /** A queued event; `content` stands for its payload with credentials removed. */
  datatype Record = Record(key: string, content: string, attempts: nat, nextAttempt: Option<int>)

  /** What `send` does: returns, or raises a retryable or a permanent error. */
  datatype Seen = Accepted | Unavailable | Refused

  /** `retry_delay_seconds`. */
  function RetryDelay(attempts: int): nat {
    var a := if attempts < 0 then 0 else attempts;
    var exponent := if a < 11 then a else 11;
    if 3600 < Power2(exponent) then 3600 else Power2(exponent)
  }

  predicate IsDue(record: Record, now: int) {
    record.nextAttempt.None? || record.nextAttempt.value <= now
  }

  function RetryRecord(record: Record, now: int): Record {
    record.(attempts := record.attempts + 1, nextAttempt := Some(now + RetryDelay(record.attempts + 1)))
  }

  /** The lists and counters of a replay after its first records. */
  datatype Progress = Progress(remaining: seq<Record>, dead: seq<Record>, delivered: nat)

  const START := Progress([], [], 0)

  /** One turn of the replay loop. */
  function Handle(p: Progress, record: Record, seen: Seen, now: int): Progress {
    if !IsDue(record, now) then p.(remaining := p.remaining + [record])
    else
      match seen
      case Accepted => p.(delivered := p.delivered + 1)
      case Unavailable => p.(remaining := p.remaining + [RetryRecord(record, now)])
      case Refused => p.(dead := p.dead + [record])
  }

  function HandleAll(records: seq<Record>, replies: seq<Seen>, now: int, n: nat): Progress
    requires n <= |records| == |replies|
  {
    if n == 0 then START
    else Handle(HandleAll(records, replies, now, n - 1), records[n - 1], replies[n - 1], now)
  }

  // ---------- record by record ----------

  datatype Fate = Remains(record: Record) | Goes | Dies(record: Record)

  /**
   What a replay does to one record: before its time nothing, whatever the reply; from then
   on it is delivered, dead-lettered as it is, or put off with one more attempt to its name.
   */
  function FateOf(record: Record, reply: Seen, now: int): Fate {
    if record.nextAttempt.Some? && now < record.nextAttempt.value then Remains(record)
    else if reply == Accepted then Goes
    else if reply == Refused then Dies(record)
    else Remains(Record(record.key, record.content, record.attempts + 1, Some(now + RetryDelay(record.attempts + 1))))
  }

  /** The first n records that remain, as they then are, in order. */
  function Remaining(records: seq<Record>, replies: seq<Seen>, now: int, n: nat): seq<Record>
    requires n <= |records| == |replies|
  {
    if n == 0 then []
    else
      var fate := FateOf(records[n - 1], replies[n - 1], now);
      Remaining(records, replies, now, n - 1) + if fate.Remains? then [fate.record] else []
  }

  /** Those that are dead-lettered, in order. */
  function Dying(records: seq<Record>, replies: seq<Seen>, now: int, n: nat): seq<Record>
    requires n <= |records| == |replies|
  {
    if n == 0 then []
    else
      var fate := FateOf(records[n - 1], replies[n - 1], now);
      Dying(records, replies, now, n - 1) + if fate.Dies? then [fate.record] else []
  }

  /** How many are delivered. */
  function Delivered(records: seq<Record>, replies: seq<Seen>, now: int, n: nat): nat
    requires n <= |records| == |replies|
  {
    if n == 0 then 0
    else Delivered(records, replies, now, n - 1) + if FateOf(records[n - 1], replies[n - 1], now).Goes? then 1 else 0
  }

  /** The replay loop settles every record by its own fate and keeps the order. */
  lemma {:induction false} ReplayExact(records: seq<Record>, replies: seq<Seen>, now: int, n: nat)
    requires n <= |records| == |replies|
    ensures var p := HandleAll(records, replies, now, n);
      && p.remaining == Remaining(records, replies, now, n)
      && p.dead == Dying(records, replies, now, n)
      && p.delivered == Delivered(records, replies, now, n)
  {
    if n != 0 {
      ReplayExact(records, replies, now, n - 1);
    }
  }

  /** Each record by itself: what remains of it, or that it is among the dead. */
  lemma {:induction false} FateIsSealed(records: seq<Record>, replies: seq<Seen>, now: int, n: nat, i: nat)
    requires i < n <= |records| == |replies|
    ensures FateOf(records[i], replies[i], now).Remains? ==>
      FateOf(records[i], replies[i], now).record in Remaining(records, replies, now, n)
    ensures FateOf(records[i], replies[i], now).Dies? ==> records[i] in Dying(records, replies, now, n)
    ensures FateOf(records[i], replies[i], now).Goes? ==> Delivered(records, replies, now, n) > 0
  {
    if i < n - 1 {
      FateIsSealed(records, replies, now, n - 1, i);
    }
  }

  datatype Report = Report(delivered: nat, remaining: nat, deadLettered: nat)

  class LocalOutbox {
    var pending: seq<Record>
    var dead: seq<Record>

    constructor ()
      ensures pending == [] && dead == []
    {
      pending, dead := [], [];
    }

    /** False where the source raises `ValueError`. */
    method Enqueue(key: string, content: string) returns (ok: bool)
      modifies this`pending
      ensures ok <==> key != ""
      ensures pending == old(pending) + if ok then [Record(key, content, 0, None)] else []
    {
      if key == "" {
        return false;
      }
      pending := pending + [Record(key, content, 0, None)];
      return true;
    }

    /** A replay that is not interrupted; `replies[k]` is what sending record k would see. */
    method Replay(replies: seq<Seen>, now: int) returns (report: Report)
      requires |replies| == |pending|
      modifies this
      ensures pending == Remaining(old(pending), replies, now, |replies|)
      ensures dead == old(dead) + Dying(old(pending), replies, now, |replies|)
      ensures report == Report(Delivered(old(pending), replies, now, |replies|), |pending|, |dead| - |old(dead)|)
      ensures report.delivered + report.remaining + report.deadLettered == |old(pending)|
    {
      var remaining: seq<Record>, deadRecords: seq<Record>, delivered, deadLettered := [], [], 0, 0;
      for i := 0 to |pending|
        invariant pending == old(pending) && dead == old(dead)
        invariant Progress(remaining, deadRecords, delivered) == HandleAll(pending, replies, now, i)
        invariant deadLettered == |deadRecords|
        invariant delivered + |remaining| + deadLettered == i
      {
        var record := pending[i];
        if !IsDue(record, now) {
          remaining := remaining + [record];
        } else if replies[i] == Refused {
          deadRecords := deadRecords + [record];
          deadLettered := deadLettered + 1;
        } else if replies[i] == Unavailable {
          remaining := remaining + [RetryRecord(record, now)];
        } else {
          delivered := delivered + 1;
        }
      }
      for k := 0 to |deadRecords|
        invariant pending == old(pending) && dead == old(dead) + deadRecords[..k]
      {
        dead := dead + [deadRecords[k]];
      }
      assert deadRecords[..|deadRecords|] == deadRecords;
      ReplayExact(pending, replies, now, |pending|);
      pending := remaining;
      return Report(delivered, |remaining|, deadLettered);
    }
  }

  lemma {:induction false} Power2Grows(m: nat, n: nat)
    requires m <= n
    ensures 1 <= Power2(m) <= Power2(n)
  {
    if n == 0 {
    } else if m < n {
      Power2Grows(m, n - 1);
    } else {
      Power2Grows(m - 1, n - 1);
    }
  }

  /** The delay doubles with each failure up to 2048 seconds; the cap of 3600 is never reached. */
  lemma RetryDelayShape(attempts: int)
    ensures 1 <= RetryDelay(attempts) <= 2048
    ensures 0 <= attempts < 11 ==> RetryDelay(attempts + 1) == 2 * RetryDelay(attempts)
    ensures attempts >= 11 ==> RetryDelay(attempts) == 2048
  {
    assert Power2(11) == 2048 by {
      assert Power2(5) == 32;
      assert Power2(8) == 8 * Power2(5);
      assert Power2(11) == 8 * Power2(8);
    }
    var a := if attempts < 0 then 0 else attempts;
    Power2Grows(if a < 11 then a else 11, 11);
    if 0 <= attempts < 11 {
      Power2Grows(attempts + 1, 11);
    }
  }
}
