/** The buffered request log of internal/observability/buffer.go: request goroutines put records on a
    bounded channel, one flusher takes them off and persists them in batches.

    The request goroutines are a finite script of calls, part of which runs before every channel
    operation of the flusher, so that the script ranges over all interleavings. The database and the
    contexts answer through oracles indexed by the number of write attempts made so far. */
module LogBuffer {
  import opened Basics

  /** A call from another goroutine. */
  datatype Call<T> = Record(record: T) | Stop

  /** What the flusher's select picks next. */
  datatype Wake = Received | Timer | Force | Signal

  datatype Answer = Queued | Dropped | Refused

  function Concat<T>(batches: seq<seq<T>>): seq<T> {
    if batches == [] then [] else Concat(batches[..|batches| - 1]) + batches[|batches| - 1]
  }

  lemma ConcatSnoc<T>(batches: seq<seq<T>>, batch: seq<T>)
    ensures Concat(batches + [batch]) == Concat(batches) + batch
  {
    assert (batches + [batch])[..|batches|] == batches;
  }

  lemma Moved<T>(stored: seq<T>, records: seq<T>, start: nat, end: nat, queued: seq<T>)
    requires start <= end <= |records|
    ensures stored + records[start..] + queued == stored + records[start..end] + records[end..] + queued
  {
    assert records[start..] == records[start..end] + records[end..];
    assert stored + (records[start..end] + records[end..]) == stored + records[start..end] + records[end..];
  }

  /** How many of the first `n` write attempts the database rejected. */
  function Rejected(accepts: nat -> bool, n: nat): (r: nat)
    ensures r <= n
  {
    if n == 0 then 0 else Rejected(accepts, n - 1) + if accepts(n - 1) then 0 else 1
  }

  function Least(a: nat, b: nat): nat {
    if a < b then a else b
  }

  function Count(wakes: seq<Wake>, wake: Wake): nat {
    if wakes == [] then 0
    else Count(wakes[..|wakes| - 1], wake) + if wakes[|wakes| - 1] == wake then 1 else 0
  }

  /** What is taken off a queue that only grows at its end is taken in order. */
  lemma TakenInOrder<T>(stored: seq<T>, queued: seq<T>, all: seq<T>, later: seq<T>, left: seq<T>, more: seq<T>, n: nat)
    requires stored + queued == all && later + left == more && all <= more
    requires n <= |queued| && |stored| + n <= |later|
    ensures stored + queued[..n] <= later
  {
    var before := stored + queued[..n];
    assert before + queued[n..] == all;
    assert before == more[..|before|] && later == more[..|later|];
  }

  class Recorder<T> {
    const capacity: nat
    const batchSize: nat
    const retries: nat
    /** The database accepts the n-th write; a rejected write leaves it unchanged. */
    const accepts: nat -> bool
    /** The context ends the wait after the n-th rejected write. */
    const expires: nat -> bool

    var channel: seq<T>
    var persisted: seq<seq<T>>
    var stopping: bool
    var dropped: nat
    var flushFailed: nat
    var writes: nat
    var script: seq<seq<Call<T>>>
    /** Every record that the channel took, in order. */
    ghost var accepted: seq<T>

    ghost predicate Valid()
      reads this
    {
      && batchSize > 0 && |channel| <= capacity
      && flushFailed == Rejected(accepts, writes)
      && forall i :: 0 <= i < |persisted| ==> 0 < |persisted[i]| <= batchSize
    }

    /** Exact conservation: what is persisted, then what the flusher holds, then what is queued. */
    ghost predicate Conserves(pending: seq<T>)
      reads this
    {
      Concat(persisted) + pending + channel == accepted
    }

    /** The database rejected the last write. */
    ghost predicate LastRejected()
      reads this
    {
      writes > 0 && !accepts(writes - 1)
    }

    /** How many records have been taken off the channel. */
    ghost function Taken(): int
      reads this
    {
      |accepted| - |channel|
    }

    /** The first `n` records of the channel have been taken, in order, and are persisted or held. */
    twostate predicate Advances(new held: seq<T>, new pending: seq<T>, n: nat)
      reads this
    {
      n <= |old(channel)| && Concat(old(persisted)) + held + old(channel)[..n] <= Concat(persisted) + pending
    }

    /** What any stretch of execution keeps: nothing accepted or persisted is ever taken back, and
        nothing is accepted once stopping. */
    twostate predicate Since()
      reads this
    {
      && old(accepted) <= accepted && old(persisted) <= persisted
      && (old(stopping) ==> stopping && accepted == old(accepted))
      && old(dropped) <= dropped && old(writes) <= writes
    }

    constructor (capacity: int, batchSize: int, retries: int, accepts: nat -> bool, expires: nat -> bool,
                 script: seq<seq<Call<T>>>)
      ensures Valid() && Conserves([]) && !stopping && accepted == [] && persisted == [] && dropped == 0
              && this.script == script
      ensures this.capacity == if capacity <= 0 then 4096 else capacity
      ensures this.batchSize == if batchSize <= 0 then 512 else batchSize
      ensures this.retries == if retries <= 0 then 3 else retries
      ensures this.accepts == accepts && this.expires == expires
    {
      this.capacity := if capacity <= 0 then 4096 else capacity;
      this.batchSize := if batchSize <= 0 then 512 else batchSize;
      this.retries := if retries <= 0 then 3 else retries;
      this.accepts, this.expires, this.script := accepts, expires, script;
      channel, persisted, stopping, dropped, flushFailed, writes := [], [], false, 0, 0, 0;
      accepted := [];
    }

    // -------------------------------------------------------------- request goroutines

    /** Never blocks: the record is queued, or dropped when the channel is full, or refused when stopping. */
    method Record(record: T) returns (answer: Answer)
      requires Valid()
      modifies this`channel, this`dropped, this`accepted
      ensures Valid()
      ensures answer == if stopping then Refused else if |old(channel)| < capacity then Queued else Dropped
      ensures channel == if answer.Queued? then old(channel) + [record] else old(channel)
      ensures accepted == if answer.Queued? then old(accepted) + [record] else old(accepted)
      ensures dropped == old(dropped) + if answer.Dropped? then 1 else 0
    {
      if stopping { return Refused; }
      if |channel| < capacity {
        channel := channel + [record];
        accepted := accepted + [record];
        return Queued;
      }
      dropped := dropped + 1;
      return Dropped;
    }

    method MarkStopping()
      requires Valid()
      modifies this`stopping
      ensures Valid() && stopping
    {
      stopping := true;
    }

    method Perform(call: Call<T>, ghost pending: seq<T>)
      requires Valid() && Conserves(pending)
      modifies this`channel, this`dropped, this`accepted, this`stopping
      ensures Valid() && Conserves(pending) && Since()
      ensures old(stopping) ==> channel == old(channel)
      ensures old(channel) <= channel && Taken() == old(Taken())
    {
      match call
      case Record(record) =>
        var answer := Record(record);
        assert Concat(persisted) + pending + (old(channel) + [record])
          == (Concat(persisted) + pending + old(channel)) + [record];
      case Stop => MarkStopping();
    }

    /** Other goroutines run for a while. */
    method Others(ghost pending: seq<T>)
      requires Valid() && Conserves(pending)
      modifies this`channel, this`dropped, this`accepted, this`stopping, this`script
      ensures Valid() && Conserves(pending) && Since()
      ensures old(stopping) ==> channel == old(channel)
      ensures if old(script) == [] then script == [] && channel == old(channel) else script == old(script)[1..]
      ensures old(channel) <= channel && Taken() == old(Taken())
    {
      if script == [] { return; }
      var calls := script[0];
      script := script[1..];
      for i := 0 to |calls|
        invariant Valid() && Conserves(pending) && Since()
        invariant old(stopping) ==> channel == old(channel)
        invariant old(channel) <= channel && Taken() == old(Taken())
        invariant script == old(script)[1..]
      {
        Perform(calls[i], pending);
      }
    }

    // -------------------------------------------------------------- taking records off the channel

    /** A non-blocking receive. */
    method Receive(ghost pending: seq<T>) returns (got: Option<T>)
      requires Valid() && Conserves(pending)
      modifies this`channel, this`dropped, this`accepted, this`stopping, this`script
      ensures Valid() && Since()
      ensures Conserves(if got.Some? then pending + [got.value] else pending)
      ensures got.None? ==> channel == [] && old(channel) == []
      ensures Taken() == old(Taken()) + if got.Some? then 1 else 0
      ensures old(stopping) && got.Some? ==> |channel| < |old(channel)|
      ensures old(stopping) && got.None? ==> channel == old(channel)
      ensures |script| < |old(script)| || (script == old(script) && (got.Some? ==> |channel| < |old(channel)|))
    {
      Others(pending);
      if channel == [] { return None; }
      got := Some(channel[0]);
      assert Concat(persisted) + pending + channel == Concat(persisted) + (pending + [channel[0]]) + channel[1..];
      channel := channel[1..];
    }

    method Slurp(held: seq<T>) returns (pending: seq<T>)
      requires Valid() && Conserves(held)
      modifies this`channel, this`dropped, this`accepted, this`stopping, this`script
      ensures Valid() && Conserves(pending) && Since() && held <= pending
      ensures |pending| >= batchSize || channel == []
      ensures |pending| <= |held| || |pending| <= batchSize
      ensures Taken() == old(Taken()) + (|pending| - |held|)
    {
      pending := held;
      while |pending| < batchSize
        invariant Valid() && Conserves(pending) && Since() && held <= pending
        invariant |pending| <= |held| || |pending| <= batchSize
        invariant Taken() == old(Taken()) + (|pending| - |held|)
        decreases batchSize - |pending|
      {
        var got := Receive(pending);
        if got.None? { return; }
        pending := pending + [got.value];
      }
    }

    /** Empties the channel, however much other goroutines add meanwhile. */
    method DrainChannel(ghost pending: seq<T>) returns (out: seq<T>)
      requires Valid() && Conserves(pending)
      modifies this`channel, this`dropped, this`accepted, this`stopping, this`script
      ensures Valid() && Conserves(pending + out) && Since() && channel == []
    {
      out := [];
      while true
        invariant Valid() && Conserves(pending + out) && Since()
        decreases |script|, |channel|
      {
        var got := Receive(pending + out);
        if got.None? { return; }
        assert pending + out + [got.value] == pending + (out + [got.value]);
        out := out + [got.value];
      }
    }

    // -------------------------------------------------------------- persisting

    /** One batch, retried after each failure; it is persisted whole and once, or not at all. */
    method RecordBatchWithRetry(batch: seq<T>) returns (ok: bool)
      requires Valid() && 0 < |batch| <= batchSize
      modifies this`persisted, this`flushFailed, this`writes
      ensures Valid()
      ensures persisted == if ok then old(persisted) + [batch] else old(persisted)
      ensures old(writes) < writes <= old(writes) + retries + 1
      ensures ok <==> accepts(writes - 1)
      ensures forall n :: old(writes) <= n < writes - 1 ==> !accepts(n) && !expires(n)
      ensures !ok ==> writes == old(writes) + retries + 1 || expires(writes - 1)
      ensures flushFailed == old(flushFailed) + (writes - old(writes)) - if ok then 1 else 0
    {
      var attempt := 0;
      while attempt <= retries
        invariant 0 <= attempt <= retries && writes == old(writes) + attempt
        invariant Valid() && persisted == old(persisted) && flushFailed == old(flushFailed) + attempt
        invariant forall n :: old(writes) <= n < writes ==> !accepts(n) && !expires(n)
        decreases retries - attempt
      {
        writes := writes + 1;
        if accepts(writes - 1) {
          persisted := persisted + [batch];
          return true;
        }
        flushFailed := flushFailed + 1;
        if attempt == retries { break; }
        if expires(writes - 1) { return false; }
        attempt := attempt + 1;
      }
      ok := false;
    }

    /** What a flush comes to: `remaining` is the end of the records that was not persisted, and when there is any
        the database has just rejected it. */
    twostate predicate Flushed(new records: seq<T>, new remaining: seq<T>, ok: bool)
      reads this
    {
      && Valid() && Conserves(remaining) && old(persisted) <= persisted && old(writes) <= writes
      && (ok <==> remaining == [])
      && |remaining| <= |records| && remaining == records[|records| - |remaining|..]
      && old(flushFailed) <= flushFailed && (!ok ==> LastRejected() && old(flushFailed) < flushFailed)
    }

    /** Batches in order up to the first failure; what is returned is exactly what was not persisted. */
    method FlushPending(records: seq<T>) returns (remaining: seq<T>, ok: bool)
      requires Valid() && Conserves(records)
      modifies this`persisted, this`flushFailed, this`writes
      ensures Flushed(records, remaining, ok)
    {
      var start := 0;
      while start < |records|
        invariant 0 <= start <= |records|
        invariant Valid() && Conserves(records[start..]) && old(persisted) <= persisted && old(writes) <= writes
        invariant old(flushFailed) <= flushFailed
      {
        var end := if start + batchSize > |records| then |records| else start + batchSize;
        ghost var before := persisted;
        var done := RecordBatchWithRetry(records[start..end]);
        if !done {
          return records[start..], false;
        }
        ConcatSnoc(before, records[start..end]);
        Moved(Concat(before), records, start, end, channel);
        start := end;
      }
      return [], true;
    }

    method FlushRecords(records: seq<T>) returns (remaining: seq<T>, ok: bool)
      requires Valid() && Conserves(records)
      modifies this`persisted, this`flushFailed, this`writes
      ensures Flushed(records, remaining, ok)
    {
      if |records| == 0 { return [], true; }
      remaining, ok := FlushPending(records);
    }

    method Flush(records: seq<T>) returns (remaining: seq<T>)
      requires Valid() && Conserves(records)
      modifies this`persisted, this`flushFailed, this`writes
      ensures Valid() && Conserves(remaining) && old(persisted) <= persisted && old(writes) <= writes
      ensures remaining == [] || LastRejected()
    {
      var ok;
      remaining, ok := FlushRecords(records);
    }

    // -------------------------------------------------------------- the flusher

    /** A forced flush: on success everything accepted before the request is persisted. */
    method ForceFlush(held: seq<T>) returns (pending: seq<T>, ok: bool)
      requires Valid() && Conserves(held)
      modifies this
      ensures Valid() && Conserves(pending) && Since()
      ensures ok ==> pending == [] && old(accepted) <= Concat(persisted)
      ensures !ok ==> LastRejected()
      ensures Taken() >= old(Taken()) + |old(channel)|
    {
      var channelled := DrainChannel(held);
      pending, ok := FlushRecords(held + channelled);
      assert ok ==> Concat(persisted) == accepted;
    }

    /** How many records of the channel a turn takes at least: the first one when it receives with room for it; as
        many as fit when the timer finds records held; all of them when it is forced. */
    function Due(wake: Wake, held: seq<T>, queued: nat): (n: nat)
      ensures n <= queued
    {
      match wake
      case Received => if |held| < batchSize then Least(1, queued) else 0
      case Timer => if 0 < |held| < batchSize then Least(batchSize - |held|, queued) else 0
      case Force => queued
      case Signal => 0
    }

    /** One turn of the select. What is still pending after a timer, a forced flush or a full batch, the database has
        just rejected. */
    method Turn(wake: Wake, held: seq<T>) returns (pending: seq<T>)
      requires Valid() && Conserves(held)
      modifies this
      ensures Valid() && Conserves(pending) && Since()
      ensures Taken() >= old(Taken()) + Due(wake, held, |old(channel)|)
      ensures Advances(held, pending, Due(wake, held, |old(channel)|))
      ensures wake.Timer? || wake.Force? ==> pending == [] || LastRejected()
      ensures wake.Received? ==> |pending| < batchSize || LastRejected() || (pending == held && |held| >= batchSize)
      ensures wake.Signal? ==> pending == held
    {
      pending := held;
      match wake {
        case Received => pending := TakeOne(pending);
        case Timer => pending := FlushHeld(pending);
        case Force =>
          var ok;
          pending, ok := ForceFlush(pending);
        case Signal =>
      }
      TakenInOrder(Concat(old(persisted)) + held, old(channel), old(accepted), Concat(persisted) + pending, channel,
        accepted, Due(wake, held, |old(channel)|));
    }

    /** A record arrives; a batch that is full is flushed. A full batch is not received into. */
    method TakeOne(held: seq<T>) returns (pending: seq<T>)
      requires Valid() && Conserves(held)
      modifies this
      ensures Valid() && Conserves(pending) && Since()
      ensures Taken() >= old(Taken()) + Due(Received, held, |old(channel)|)
      ensures |pending| < batchSize || LastRejected() || (pending == held && |held| >= batchSize)
    {
      pending := held;
      if |pending| < batchSize {
        var got := Receive(pending);
        if got.Some? {
          pending := pending + [got.value];
          if |pending| >= batchSize {
            pending := Slurp(pending);
            pending := Flush(pending);
          }
        }
      }
    }

    /** The timer fires: what is held is flushed, with what fits into the batch. */
    method FlushHeld(held: seq<T>) returns (pending: seq<T>)
      requires Valid() && Conserves(held)
      modifies this
      ensures Valid() && Conserves(pending) && Since()
      ensures Taken() >= old(Taken()) + Due(Timer, held, |old(channel)|)
      ensures pending == [] || LastRejected()
    {
      pending := held;
      if |pending| > 0 {
        pending := Slurp(pending);
        pending := Flush(pending);
      }
    }

    /** The flusher up to its stop signal, or as far as `wakes` goes. While the database accepts every write, each
        receiving turn takes one more record off the channel, in order, and a last turn by the timer or by force leaves
        nothing that was taken unpersisted. */
    method Turns(wakes: seq<Wake>, held: seq<T>) returns (pending: seq<T>, ended: bool)
      requires Valid() && Conserves(held)
      modifies this
      ensures Valid() && Conserves(pending) && Since()
      ensures Healthy() && |held| < batchSize && !ended ==>
                && |pending| < batchSize
                && Advances(held, pending, Least(Count(wakes, Received), |old(channel)|))
                && (wakes != [] && (wakes[|wakes| - 1].Timer? || wakes[|wakes| - 1].Force?) ==> pending == [])
      ensures !ended ==> forall i :: 0 <= i < |wakes| ==> !wakes[i].Signal?
    {
      pending, ended := held, false;
      assert wakes[..0] == [];
      for i := 0 to |wakes|
        invariant Valid() && Conserves(pending) && Since()
        invariant forall j :: 0 <= j < i ==> !wakes[j].Signal?
        invariant Healthy() && |held| < batchSize ==>
                    && |pending| < batchSize
                    && Taken() >= old(Taken()) + Least(Count(wakes[..i], Received), |old(channel)|)
                    && (i > 0 && (wakes[i - 1].Timer? || wakes[i - 1].Force?) ==> pending == [])
      {
        if wakes[i].Signal? { return pending, true; }
        assert wakes[..i + 1][..i] == wakes[..i];
        pending := Turn(wakes[i], pending);
      }
      assert wakes[..|wakes|] == wakes;
      if Healthy() && |held| < batchSize {
        TakenInOrder(Concat(old(persisted)) + held, old(channel), old(accepted), Concat(persisted) + pending, channel,
          accepted, Least(Count(wakes, Received), |old(channel)|));
      }
    }

    /** The database accepts every write. */
    ghost predicate Healthy() {
      forall n :: accepts(n)
    }

    /** The loop starts with nothing held. With a healthy database every record that is in the channel is persisted
        after as many receiving turns as there are records, however they are mixed with others, and one more turn by
        the timer or by force. */
    method Loop(wakes: seq<Wake>) returns (pending: seq<T>, ended: bool)
      requires Valid() && Conserves([])
      modifies this
      ensures Valid() && Conserves(pending) && Since()
      ensures Healthy() && !ended && wakes != [] && (wakes[|wakes| - 1].Timer? || wakes[|wakes| - 1].Force?) &&
              Count(wakes, Received) >= |old(channel)| ==>
                pending == [] && old(accepted) <= Concat(persisted)
    {
      pending, ended := Turns(wakes, []);
      assert Concat(old(persisted)) + [] + old(channel) == old(accepted);
      assert old(channel)[..|old(channel)|] == old(channel) && Concat(persisted) + [] == Concat(persisted);
    }

    /** Fills up to one batch from the channel; leaves the channel empty or the batch full. */
    method Refill(held: seq<T>) returns (pending: seq<T>)
      requires Valid() && Conserves(held) && stopping
      modifies this`channel, this`dropped, this`accepted, this`stopping, this`script
      ensures Valid() && Conserves(pending) && Since()
      ensures |pending| >= batchSize || channel == []
      ensures |pending| + |channel| == |held| + |old(channel)|
    {
      pending := held;
      while |pending| < batchSize
        invariant Valid() && Conserves(pending) && Since()
        invariant |pending| + |channel| == |held| + |old(channel)|
        decreases |channel|
      {
        var got := Receive(pending);
        if got.Some? { pending := pending + [got.value]; }
        if |pending| >= batchSize { break; }
        if |channel| == 0 { break; }
      }
    }

    /** The final drain; `patience` is how many failed flushes the drain timeout leaves room for. */
    method Drain(held: seq<T>, patience: nat) returns (pending: seq<T>)
      requires Valid() && Conserves(held) && stopping
      modifies this
      ensures Valid() && Conserves(pending) && Since()
      ensures pending == [] ==> channel == [] && Concat(persisted) == accepted
      ensures pending != [] ==> LastRejected() && flushFailed > old(flushFailed) + patience
    {
      var left := patience;
      pending := held;
      while true
        invariant Valid() && Conserves(pending) && Since() && stopping
        invariant 0 <= left <= patience && flushFailed >= old(flushFailed) + (patience - left)
        decreases left, |pending| + |channel|
      {
        pending := Refill(pending);
        if |pending| == 0 { return; }
        var ok;
        pending, ok := FlushRecords(pending);
        if !ok {
          if left == 0 { return; }
          left := left - 1;
        }
      }
    }

    /** A whole life of the flusher. Everything accepted is accounted for, in order; nothing is accepted
        after the end; and a drain that is not cut short has persisted exactly the accepted records. */
    method Run(wakes: seq<Wake>, patience: nat) returns (pending: seq<T>, ended: bool)
      requires Valid() && Conserves([])
      modifies this
      ensures Valid() && Conserves(pending) && Since()
      ensures ended ==> stopping
      ensures ended && pending == [] ==> channel == [] && Concat(persisted) == accepted
      ensures ended && pending != [] ==> LastRejected()
    {
      pending, ended := Loop(wakes);
      if ended {
        MarkStopping();
        pending := Drain(pending, patience);
      }
    }
  }
}
