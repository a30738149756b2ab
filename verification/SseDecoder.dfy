/** The decoder object of internal/sse/decoder.go over its buffered reader, and PrimeUntil of prime.go.
    Each method is proved to do what the definitions of SseReader and SsePrime say. */
module SseDecoder {
  import opened Basics
  import opened SseCodec
  import opened SseReader
  import opened SsePrime

  /** Reading on from here gives `goal`. The definition is unfolded only where the proof asks for it. */
  ghost predicate LineIs(io: Io, r: Reader, acc: Bytes, used: nat, goal: (LineResult, Reader)) {
    forall u {:trigger Unseal(u)} :: Unseal(u) ==> NextLine(Steps(io), r, acc, used) == goal
  }

  lemma LineFrom(io: Io, r: Reader, used: nat) returns (goal: (LineResult, Reader))
    ensures LineIs(io, r, [], used, goal)
    ensures goal.0.Line? ==> Size(goal.1) < Size(r)
  {
    goal := Lines(io)(r, used);
    LinesTake(io, r, used);
  }

  lemma LineFill(io: Io, r: Reader, acc: Bytes, used: nat, goal: (LineResult, Reader))
    requires LineIs(io, r, acc, used, goal) && Find(r.buf, LF) == |r.buf| && r.fault.Clear? && |r.buf| < BUFFER
    ensures LineIs(io, Fill(r, io), acc, used, goal)
  {
    assert Unseal(0);
    assert Steps(io)(r, acc, used) == More(Fill(r, io), acc, used);
  }

  lemma LineFull(io: Io, r: Reader, acc: Bytes, used: nat, goal: (LineResult, Reader))
    requires LineIs(io, r, acc, used, goal) && Find(r.buf, LF) == |r.buf| && r.fault.Clear? && |r.buf| >= BUFFER
    ensures if used + |r.buf| > MAX_EVENT_SIZE then goal == (Oversize, r)
            else LineIs(io, r.(buf := []), acc + r.buf, used + |r.buf|, goal)
  {
    assert Unseal(0);
    assert Steps(io)(r, acc, used) == Attempt(r, io, acc, used);
  }

  /** `parse` and `lines` are those of the decoder; the loop itself reasons about any. */
  ghost predicate Reads(io: Io, parse: Parser, lines: LineReader) {
    forall u {:trigger Unseal(u)} :: Unseal(u) ==> parse == ParseLine && lines == Lines(io)
  }

  lemma LineRead(io: Io, parse: Parser, lines: LineReader, r: Reader, used: nat, next: (LineResult, Reader))
    requires Reads(io, parse, lines) && LineIs(io, r, [], used, next)
    ensures lines(r, used) == next
  {
    assert Unseal(0);
  }

  lemma LineParsed(io: Io, parse: Parser, lines: LineReader, current: Event, text: Bytes, updated: Event)
    requires Reads(io, parse, lines) && updated == ParseLine(current, text)
    ensures parse(current, text) == updated
  {
    assert Unseal(0);
  }

  lemma Turn(parse: Parser, lines: LineReader, r: Reader, current: Event, used: nat)
    ensures var (line, next) := lines(r, used);
            DecodeNext(parse, lines, r, current, used) ==
            if line.Line? && Size(next) < Size(r) then
              var text := Trim(line.raw);
              if text != [] then DecodeNext(parse, lines, next, parse(current, text), used + |line.raw|)
              else if current.IsEmpty() then DecodeNext(parse, lines, next, current, used + |line.raw|)
              else (Decoded(current), next)
            else if line.NoMore? && !current.IsEmpty() then (Decoded(current), next)
            else (Stopped(line), next)
  {}

  /** Without a capture limit, `es` are the events that this reader still has to give, and `stop` is how
      the stream stops. */
  ghost predicate Streams(io: Io, r: Reader, es: seq<Event>, stop: Step) {
    forall u {:trigger Unseal(u)} :: Unseal(u) ==>
      io.limit.None? && Consistent(r) && !r.over && DecodeAll(RawLines(Ahead(r)), io.ending) == (es, stop)
  }

  lemma StreamsFrom(io: Io, original: Bytes)
    requires io.limit.None?
    ensures Streams(io, Start(original), DecodeAll(RawLines(original), io.ending).0,
            DecodeAll(RawLines(original), io.ending).1)
  {
    assert Ahead(Start(original)) == original;
  }

  lemma NextAgrees(io: Io, r: Reader, es: seq<Event>, stop: Step, outcome: Outcome, next: Reader)
    returns (more: seq<Event>)
    requires Streams(io, r, es, stop) && (outcome, next) == Events(io)(r)
    ensures outcome.Decoded? ==> es == [outcome.event] + more && Streams(io, next, more, stop)
    ensures outcome.Stopped? ==> es == [] && stop == Reason(outcome.why) && !outcome.why.Line?
  {
    assert Unseal(0);
    var original := r.captured + r.rest;
    assert original[|r.captured|..] == r.rest && original[..|r.captured|] == r.captured;
    EventsFaithful(io, r, original);
    DecodeRefines(r, io);
    more := DecodeAll(RawLines(Ahead(next)), io.ending).0;
  }

  class Decoder {
    const io: Io
    // The buffered reader and the capturing reader under it.
    var buf: Bytes
    var fault: Fault
    var rest: Bytes
    var calls: nat
    var captured: Bytes
    var over: bool
    // The decoder.
    var current: Event
    var buffer: Bytes
    var bytesRead: nat

    function State(): Reader
      reads this`buf, this`fault, this`rest, this`calls, this`captured, this`over
    {
      Reader(buf, fault, rest, calls, captured, over)
    }

    constructor (io: Io, stream: Bytes)
      ensures this.io == io && State() == Start(stream)
    {
      this.io := io;
      buf, fault, rest, calls, captured, over := [], Clear, stream, 0, [], false;
      current, buffer, bytesRead := NOTHING, [], 0;
    }

    /** One read into the free part of the buffer, captured on the way. */
    method FillBuffer()
      requires |buf| < BUFFER && fault.Clear?
      modifies this`buf, this`fault, this`rest, this`calls, this`captured, this`over
      ensures State() == Fill(old(State()), io)
    {
      if rest == [] {
        fault, calls := Ended, calls + 1;
        return;
      }
      var n := Amount(State(), io);
      var got := rest[..n];
      buf, rest, calls := buf + got, rest[n..], calls + 1;
      if io.limit.Some? && |captured| + n > io.limit.value {
        fault, over := Overflow, true;
        return;
      }
      captured := captured + got;
    }

    /** The buffer holds the end of the line. */
    method TakeDelimited(i: nat, ghost goal: (LineResult, Reader)) returns (line: LineResult)
      requires i == Find(buf, LF) < |buf| && LineIs(io, State(), buffer, bytesRead, goal)
      modifies this`buf, this`buffer, this`bytesRead
      ensures (line, State()) == goal
      ensures line.Line? ==> bytesRead + |old(buffer)| == old(bytesRead) + |line.raw|
    {
      assert Unseal(0);
      if bytesRead + i + 1 > MAX_EVENT_SIZE { return Oversize; }
      bytesRead := bytesRead + i + 1;
      buffer := buffer + buf[..i + 1];
      buf := buf[i + 1..];
      line := Line(buffer);
    }

    /** The reader has an error to report and no end of line. */
    method TakeLast(ghost goal: (LineResult, Reader)) returns (line: LineResult)
      requires Find(buf, LF) == |buf| && !fault.Clear? && LineIs(io, State(), buffer, bytesRead, goal)
      modifies this`buf, this`fault, this`buffer, this`bytesRead
      ensures (line, State()) == goal
      ensures line.Line? ==> bytesRead + |old(buffer)| == old(bytesRead) + |line.raw|
    {
      assert Unseal(0);
      var failure, fragment := fault, buf;
      buf, fault := [], Clear;
      if bytesRead + |fragment| > MAX_EVENT_SIZE || failure.Overflow? { return Oversize; }
      bytesRead := bytesRead + |fragment|;
      buffer := buffer + fragment;
      if io.ending.Broken? { return ReadFailed; }
      if buffer == [] { return NoMore; }
      line := Line(buffer);
    }

    /** A full buffer is moved to the line. */
    method MoveBuffer()
      modifies this`buf, this`buffer, this`bytesRead
      ensures State() == old(State()).(buf := []) && buffer == old(buffer) + old(buf)
      ensures bytesRead == old(bytesRead) + |old(buf)|
    {
      bytesRead := bytesRead + |buf|;
      buffer := buffer + buf;
      buf := [];
    }

    /** A read when the buffer has room and no end of line. */
    method TakeMore(ghost goal: (LineResult, Reader))
      requires Find(buf, LF) == |buf| && fault.Clear? && |buf| < BUFFER && LineIs(io, State(), buffer, bytesRead, goal)
      modifies this`buf, this`fault, this`rest, this`calls, this`captured, this`over
      ensures LineIs(io, State(), buffer, bytesRead, goal)
      ensures |rest| < |old(rest)| || (rest == old(rest) && buf == old(buf) && !fault.Clear?)
    {
      LineFill(io, State(), buffer, bytesRead, goal);
      FillBuffer();
    }

    method ReadLine(ghost goal: (LineResult, Reader)) returns (line: LineResult)
      requires LineIs(io, State(), [], bytesRead, goal)
      modifies this`buf, this`fault, this`rest, this`calls, this`captured, this`over, this`buffer, this`bytesRead
      ensures (line, State()) == goal
      ensures line.Line? ==> bytesRead == old(bytesRead) + |line.raw|
    {
      buffer := [];
      while true
        invariant bytesRead - |buffer| == old(bytesRead) && LineIs(io, State(), buffer, bytesRead, goal)
        decreases |rest|, |buf|, if fault.Clear? then 1 else 0
      {
        var i := Find(buf, LF);
        if i < |buf| {
          line := TakeDelimited(i, goal);
          return;
        }
        if !fault.Clear? {
          line := TakeLast(goal);
          return;
        }
        if |buf| >= BUFFER {
          LineFull(io, State(), buffer, bytesRead, goal);
          if bytesRead + |buf| > MAX_EVENT_SIZE { return Oversize; }
          MoveBuffer();
        } else {
          TakeMore(goal);
        }
      }
    }

    method Decode() returns (outcome: Outcome)
      modifies this
      ensures (outcome, State()) == Events(io)(old(State()))
    {
      current, buffer, bytesRead := NOTHING, [], 0;
      outcome := DecodeLoop(ParseLine, Lines(io));
    }

    method ParseInto(text: Bytes, ghost parse: Parser, ghost lines: LineReader)
      requires Reads(io, parse, lines)
      modifies this`current
      ensures current == parse(old(current), text)
    {
      var updated := ParseLine(current, text);
      LineParsed(io, parse, lines, current, text, updated);
      current := updated;
    }

    method NextRaw(ghost parse: Parser, ghost lines: LineReader) returns (line: LineResult)
      requires Reads(io, parse, lines)
      modifies this`buf, this`fault, this`rest, this`calls, this`captured, this`over, this`buffer, this`bytesRead
      ensures (line, State()) == lines(old(State()), old(bytesRead))
      ensures line.Line? ==> bytesRead == old(bytesRead) + |line.raw| && Size(State()) < Size(old(State()))
    {
      ghost var next := LineFrom(io, State(), bytesRead);
      LineRead(io, parse, lines, State(), bytesRead, next);
      line := ReadLine(next);
    }

    method DecodeLoop(ghost parse: Parser, ghost lines: LineReader) returns (outcome: Outcome)
      requires Reads(io, parse, lines)
      modifies this
      ensures (outcome, State()) == DecodeNext(parse, lines, old(State()), old(current), old(bytesRead))
    {
      ghost var goal := DecodeNext(parse, lines, State(), current, bytesRead);
      while true
        invariant DecodeNext(parse, lines, State(), current, bytesRead) == goal
        decreases Size(State())
      {
        ghost var r, used := State(), bytesRead;
        var line := NextRaw(parse, lines);
        Turn(parse, lines, r, current, used);
        if !line.Line? {
          if line.NoMore? && !current.IsEmpty() { return Decoded(current); }
          return Stopped(line);
        }
        var text := Trim(line.raw);
        if text == [] {
          if !current.IsEmpty() { return Decoded(current); }
        } else {
          ParseInto(text, parse, lines);
        }
      }
    }

    /** The next event of the stream, or its end. */
    method Next(ghost es: seq<Event>, ghost stop: Step) returns (outcome: Outcome, ghost more: seq<Event>)
      requires Streams(io, State(), es, stop)
      modifies this
      ensures outcome.Decoded? ==> es == [outcome.event] + more && Streams(io, State(), more, stop)
      ensures outcome.Stopped? ==> es == [] && stop == Reason(outcome.why) && !outcome.why.Line?
    {
      ghost var r := State();
      outcome := Decode();
      more := NextAgrees(io, r, es, stop, outcome, State());
    }

    /** Decodes until an event is accepted; the body is then the captured bytes and what is still to come. */
    method PrimeUntil(accept: Event -> Verdict) returns (result: Primed, body: Bytes)
      modifies this
      ensures (result, State()) == Prime(accept, Events(io), old(State()))
      ensures body == if result.Accepted? then Replay(State()) else rest
    {
      while true
        invariant Prime(accept, Events(io), State()) == Prime(accept, Events(io), old(State()))
        decreases Size(State())
      {
        ghost var before := State();
        var outcome := Decode();
        if outcome.Stopped? { return Failure(outcome.why), rest; }
        match accept(outcome.event)
        case Accept => return Accepted(outcome.event), captured + rest;
        case Refuse => return Refused, rest;
        case Skip => EventsShrink(io, before);
      }
    }
  }
}
