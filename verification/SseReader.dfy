/** The buffered decoder of internal/sse/decoder.go over a capturing reader as in prime.go.

    Bytes arrive in reads of any size into a buffer of 4096 bytes; a capturing reader keeps what was
    read so that it can be replayed. The decoder is proved to decode the stream as if it were given
    whole. */
module SseReader {
  import opened Basics
  import opened SseCodec

  const BUFFER: nat := 4096
  const MAX_CAPTURE_BYTES: nat := MAX_EVENT_SIZE

  /** What a run is given: how many bytes each read delivers, how the stream ends, and the capture limit. */
  datatype Io = Io(sizes: nat -> nat, ending: Ending, limit: Option<nat>)

  /** The error that the buffered reader still has to report. */
  datatype Fault = Clear | Ended | Overflow

  datatype Reader = Reader(buf: Bytes, fault: Fault, rest: Bytes, calls: nat, captured: Bytes, over: bool)

  /** What is still to be decoded. */
  function Ahead(r: Reader): Bytes {
    r.buf + r.rest
  }

  function Size(r: Reader): nat {
    |r.buf| + |r.rest|
  }

  function Min(a: nat, b: nat): nat {
    if a < b then a else b
  }

  /** Bytes delivered by the next read: some, and no more than there is room for. */
  function Amount(r: Reader, io: Io): (n: nat)
    requires r.rest != [] && |r.buf| < BUFFER
    ensures 0 < n <= |r.rest| && |r.buf| + n <= BUFFER
  {
    var most := Min(|r.rest|, BUFFER - |r.buf|);
    var wanted := io.sizes(r.calls);
    if wanted == 0 then 1 else Min(wanted, most)
  }

  /** One read through the capturing reader. Past the limit the bytes are delivered and not kept. */
  function Fill(r: Reader, io: Io): (f: Reader)
    requires |r.buf| < BUFFER && r.fault.Clear?
    ensures |f.buf| <= BUFFER && Size(f) == Size(r)
    ensures r.rest == [] ==> f.rest == [] && f.fault.Ended?
    ensures r.rest != [] ==> |f.rest| < |r.rest|
  {
    if r.rest == [] then r.(fault := Ended, calls := r.calls + 1)
    else
      var n := Amount(r, io);
      var f := r.(buf := r.buf + r.rest[..n], rest := r.rest[n..], calls := r.calls + 1);
      if io.limit.Some? && |r.captured| + n > io.limit.value then f.(fault := Overflow, over := true)
      else f.(captured := r.captured + r.rest[..n])
  }

  datatype LineResult = Line(raw: Bytes) | Oversize | NoMore | ReadFailed

  /** One look at the buffer: the line is settled, or there is more to collect. */
  datatype Progress = Done(line: LineResult, next: Reader) | More(next: Reader, acc: Bytes, used: nat)

  /** Takes the line from the buffer, reports the pending error, moves a full buffer to the line, or reads. */
  function Attempt(r: Reader, io: Io, acc: Bytes, used: nat): Progress {
    var i := Find(r.buf, LF);
    if i < |r.buf| then
      if used + i + 1 > MAX_EVENT_SIZE then Done(Oversize, r)
      else Done(Line(acc + r.buf[..i + 1]), r.(buf := r.buf[i + 1..]))
    else if !r.fault.Clear? then
      var emptied := r.(buf := [], fault := Clear);
      if used + |r.buf| > MAX_EVENT_SIZE || r.fault.Overflow? then Done(Oversize, emptied)
      else if io.ending.Broken? then Done(ReadFailed, emptied)
      else if acc + r.buf == [] then Done(NoMore, emptied)
      else Done(Line(acc + r.buf), emptied)
    else if |r.buf| >= BUFFER then
      if used + |r.buf| > MAX_EVENT_SIZE then Done(Oversize, r)
      else More(r.(buf := []), acc + r.buf, used + |r.buf|)
    else More(Fill(r, io), acc, used)
  }

  type Stepper = (Reader, Bytes, nat) -> Progress

  function Steps(io: Io): Stepper {
    (r: Reader, acc: Bytes, used: nat) => Attempt(r, io, acc, used)
  }

  function Work(r: Reader): nat {
    2 * |r.rest| + |r.buf| + if r.fault.Clear? then 1 else 0
  }

  /** The next line, collected in fragments of at most the buffer size; `acc` is collected and `used`
      counted. Every step reduces the work left, so the test never fails. */
  function NextLine(step: Stepper, r: Reader, acc: Bytes, used: nat): (LineResult, Reader)
    decreases Work(r)
  {
    match step(r, acc, used)
    case Done(line, next) => (line, next)
    case More(next, more, counted) => if Work(next) < Work(r) then NextLine(step, next, more, counted)
      else (ReadFailed, next)
  }

  datatype Outcome = Decoded(event: Event) | Stopped(why: LineResult)

  /** Reads a line with `used` bytes of the event already counted. */
  type LineReader = (Reader, nat) -> (LineResult, Reader)

  function Lines(io: Io): LineReader {
    (r: Reader, used: nat) => NextLine(Steps(io), r, [], used)
  }

  /** The next event. A line reader always consumes what it returns, so the size test never fails. */
  function DecodeNext(parse: Parser, lines: LineReader, r: Reader, current: Event, used: nat): (Outcome, Reader)
    decreases Size(r)
  {
    var (line, next) := lines(r, used);
    if line.Line? && Size(next) < Size(r) then
      var text := Trim(line.raw);
      if text != [] then DecodeNext(parse, lines, next, parse(current, text), used + |line.raw|)
      else if current.IsEmpty() then DecodeNext(parse, lines, next, current, used + |line.raw|)
      else (Decoded(current), next)
    else if line.NoMore? && !current.IsEmpty() then (Decoded(current), next)
    else (Stopped(line), next)
  }

  // ---------------------------------------------------------------- the buffer is transparent

  /** A reader whose pending error is about the stream that it still holds. */
  predicate Consistent(r: Reader) {
    |r.buf| <= BUFFER && (r.fault.Ended? ==> r.rest == []) && (r.fault.Overflow? <==> r.over)
  }

  /** The definition of the next line on the whole stream. */
  function TakeLine(raws: seq<Bytes>, ending: Ending, used: nat): LineResult {
    if raws == [] then if ending.Broken? then ReadFailed else NoMore
    else if used + |raws[0]| > MAX_EVENT_SIZE then Oversize
    else if !Terminated(raws[0]) && ending.Broken? then ReadFailed
    else Line(raws[0])
  }

  lemma FillKeeps(r: Reader, io: Io)
    requires Consistent(r) && r.fault.Clear? && |r.buf| < BUFFER
    ensures Consistent(Fill(r, io)) && Ahead(Fill(r, io)) == Ahead(r)
  {
    if r.rest != [] {
      var n := Amount(r, io);
      assert r.rest == r.rest[..n] + r.rest[n..];
    }
  }

  lemma FirstRaw(acc: Bytes, buf: Bytes, rest: Bytes)
    requires LF !in acc && Find(buf, LF) < |buf|
    ensures var i := Find(buf, LF);
            RawLines(acc + (buf + rest)) == [acc + buf[..i + 1]] + RawLines(buf[i + 1..] + rest)
              && Terminated(acc + buf[..i + 1])
  {
    var i := Find(buf, LF);
    CutAt(buf, i);
    Regroup(acc, buf[..i], [LF], buf[i + 1..], rest);
    FirstLine(acc + buf[..i], buf[i + 1..] + rest);
    assert acc + buf[..i] + [LF] == acc + buf[..i + 1];
  }

  lemma Regroup(acc: Bytes, a: Bytes, x: Bytes, b: Bytes, rest: Bytes)
    ensures acc + (a + x + b + rest) == acc + a + x + (b + rest)
  {}

  lemma LastRaw(s: Bytes)
    requires s != [] && LF !in s
    ensures RawLines(s) == [s] && !Terminated(s)
  {
    NotFound(s);
    assert s[..|s|] == s && RawLines(s[|s|..]) == [];
  }

  lemma NotFound(s: Bytes)
    requires LF !in s
    ensures Find(s, LF) == |s|
  {
    var i := Find(s, LF);
    assert i < |s| ==> LF in s;
  }

  lemma NoneFound(buf: Bytes)
    requires Find(buf, LF) == |buf|
    ensures LF !in buf
  {
    assert buf[..|buf|] == buf;
  }

  /** The lines that a reader still has to deliver. */
  type View = Reader -> seq<Bytes>

  /** A line read is the first line of the whole stream, unless a read passed the limit. */
  ghost predicate LineMatches(view: View, line: LineResult, next: Reader, raws: seq<Bytes>, ending: Ending,
                              used: nat) {
    && (line.Line? || !next.over ==> Consistent(next) && line == TakeLine(raws, ending, used))
    && (line.Line? ==> raws == [line.raw] + view(next))
    && (line.NoMore? ==> !next.over && view(next) == [])
    && (next.over ==> line.Line? || line.Oversize?)
  }

  predicate Collecting(r: Reader, acc: Bytes, used: nat) {
    Consistent(r) && LF !in acc && |acc| <= used <= MAX_EVENT_SIZE
  }

  /** The lines of a stream of which `acc` has been collected already. */
  type Whole = (Reader, Bytes) -> seq<Bytes>

  function StreamWhole(): Whole {
    (r: Reader, acc: Bytes) => RawLines(acc + Ahead(r))
  }

  function StreamLines(): View {
    (r: Reader) => RawLines(Ahead(r))
  }

  ghost predicate StepMatches(view: View, whole: Whole, ending: Ending, r: Reader, acc: Bytes, used: nat,
                              out: Progress) {
    match out
    case Done(line, next) => |acc| <= used && LineMatches(view, line, next, whole(r, acc), ending, used - |acc|)
    case More(next, more, counted) =>
      Collecting(next, more, counted) && whole(next, more) == whole(r, acc) && counted - |more| == used - |acc|
        && Work(next) < Work(r)
  }

  lemma AttemptAtEnd(r: Reader, io: Io, acc: Bytes, used: nat)
    requires Collecting(r, acc, used) && LF !in r.buf && Find(r.buf, LF) == |r.buf| && !r.fault.Clear?
    ensures StepMatches(StreamLines(), StreamWhole(), io.ending, r, acc, used, Attempt(r, io, acc, used))
  {
    if r.fault.Ended? {
      assert acc + Ahead(r) == acc + r.buf;
      if acc + r.buf != [] {
        LastRaw(acc + r.buf);
      }
    }
  }

  lemma AttemptFull(r: Reader, io: Io, acc: Bytes, used: nat)
    requires Collecting(r, acc, used) && LF !in r.buf && Find(r.buf, LF) == |r.buf| && r.fault.Clear?
            && |r.buf| >= BUFFER
    ensures StepMatches(StreamLines(), StreamWhole(), io.ending, r, acc, used, Attempt(r, io, acc, used))
  {
    if used + |r.buf| > MAX_EVENT_SIZE {
      LongLine(acc, r.buf, r.rest);
    } else {
      assert acc + Ahead(r) == acc + r.buf + Ahead(r.(buf := []));
    }
  }

  lemma AttemptMatches(r: Reader, io: Io, acc: Bytes, used: nat)
    requires Collecting(r, acc, used)
    ensures StepMatches(StreamLines(), StreamWhole(), io.ending, r, acc, used, Attempt(r, io, acc, used))
  {
    if Find(r.buf, LF) < |r.buf| {
      FirstRaw(acc, r.buf, r.rest);
    } else {
      NoneFound(r.buf);
      if !r.fault.Clear? {
        AttemptAtEnd(r, io, acc, used);
      } else if |r.buf| >= BUFFER {
        AttemptFull(r, io, acc, used);
      } else {
        FillKeeps(r, io);
      }
    }
  }

  lemma {:induction false} StepsMatch(step: Stepper, view: View, whole: Whole, ending: Ending, r: Reader, acc: Bytes,
                                      used: nat)
    requires Collecting(r, acc, used)
    requires forall q: Reader, a: Bytes, u: nat :: Collecting(q, a, u) ==>
            StepMatches(view, whole, ending, q, a, u, step(q, a, u))
    ensures var (line, next) := NextLine(step, r, acc, used);
            LineMatches(view, line, next, whole(r, acc), ending, used - |acc|)
    decreases Work(r)
  {
    var out := step(r, acc, used);
    assert StepMatches(view, whole, ending, r, acc, used, step(r, acc, used));
    if out.More? {
      StepsMatch(step, view, whole, ending, out.next, out.acc, out.used);
    }
  }

  /** Lines cut from the buffer are the lines of the stream, however it arrives. */
  lemma LineRefines(r: Reader, io: Io, used: nat)
    requires Consistent(r) && used <= MAX_EVENT_SIZE
    ensures var (line, next) := Lines(io)(r, used);
            LineMatches(StreamLines(), line, next, StreamWhole()(r, []), io.ending, used)
  {
    forall q: Reader, a: Bytes, u: nat | Collecting(q, a, u)
      ensures StepMatches(StreamLines(), StreamWhole(), io.ending, q, a, u, Steps(io)(q, a, u))
    {
      AttemptMatches(q, io, a, u);
    }
    StepsMatch(Steps(io), StreamLines(), StreamWhole(), io.ending, r, [], used);
  }

  // How much a line takes.

  predicate StepTakes(r: Reader, acc: Bytes, out: Progress) {
    match out
    case Done(line, next) => Size(next) <= Size(r)
      && (line.Line? ==> line.raw != [] && Size(next) + |line.raw| == Size(r) + |acc|)
    case More(next, more, _) => Size(next) + |more| == Size(r) + |acc| && Size(next) <= Size(r)
  }

  lemma {:induction false} LineTakes(step: Stepper, r: Reader, acc: Bytes, used: nat)
    requires forall q: Reader, a: Bytes, u: nat :: StepTakes(q, a, step(q, a, u))
    ensures var (line, next) := NextLine(step, r, acc, used);
            Size(next) <= Size(r) && (line.Line? ==> line.raw != [] && Size(next) + |line.raw| == Size(r) + |acc|)
    decreases Work(r)
  {
    var out := step(r, acc, used);
    assert StepTakes(r, acc, step(r, acc, used));
    if out.More? && Work(out.next) < Work(r) {
      LineTakes(step, out.next, out.acc, out.used);
    }
  }

  lemma AttemptTakes(r: Reader, io: Io, acc: Bytes, used: nat)
    ensures StepTakes(r, acc, Attempt(r, io, acc, used))
  {}

  /** A line takes its own bytes from the stream. */
  lemma LinesTake(io: Io, r: Reader, used: nat)
    ensures var (line, next) := Lines(io)(r, used);
            Size(next) <= Size(r) && (line.Line? ==> line.raw != [] && Size(next) + |line.raw| == Size(r))
  {
    forall q: Reader, a: Bytes, u: nat ensures StepTakes(q, a, Steps(io)(q, a, u)) { AttemptTakes(q, io, a, u); }
    LineTakes(Steps(io), r, [], used);
  }

  /** A line that starts with these bytes is at least as long. */
  lemma LongLine(acc: Bytes, buf: Bytes, rest: Bytes)
    requires LF !in acc && LF !in buf && buf != []
    ensures var raws := RawLines(acc + (buf + rest)); raws != [] && |raws[0]| >= |acc| + |buf|
  {
    var s := acc + (buf + rest);
    var known := acc + buf;
    assert forall k :: 0 <= k < |known| ==> s[k] == known[k];
  }

  function Reason(why: LineResult): Step {
    match why case NoMore => AtEnd case Oversize => TooLarge case _ => Failed
  }

  /** What the decoder does with each kind of line. */
  lemma DecodeByLine(parse: Parser, raws: seq<Bytes>, ending: Ending, current: Event, used: nat)
    ensures Decode(parse, raws, ending, current, used) ==
            match TakeLine(raws, ending, used)
            case NoMore => if current.IsEmpty() then AtEnd else Got(current, [])
            case Oversize => TooLarge
            case ReadFailed => Failed
            case Line(raw) =>
              if Trim(raw) != [] then Decode(parse, raws[1..], ending, parse(current, Trim(raw)), used + |raw|)
              else if current.IsEmpty() then Decode(parse, raws[1..], ending, current, used + |raw|)
              else Got(current, raws[1..])
  {}

  /** One line read through the buffer agrees with the one of the whole stream. */
  ghost predicate LineAgrees(view: View, ending: Ending, r: Reader, used: nat, out: (LineResult, Reader)) {
    var (line, next) := out;
    && (line.Line? || !next.over ==> Consistent(next) && line == TakeLine(view(r), ending, used))
    && (line.Line? ==> view(next) == view(r)[1..] && Size(next) < Size(r) && used + |line.raw| <= MAX_EVENT_SIZE)
    && (line.NoMore? ==> !next.over && view(next) == [])
    && (next.over ==> line.Line? || line.Oversize?)
  }

  /** The outcome through the buffer agrees with the one on the whole stream. */
  ghost predicate Agrees(view: View, out: (Outcome, Reader), whole: Step) {
    match out.0
    case Decoded(event) => Consistent(out.1) && whole == Got(event, view(out.1))
    case Stopped(why) => !why.Line? && if out.1.over then why.Oversize? else whole == Reason(why)
  }

  lemma {:induction false} DecodeAgrees(parse: Parser, lines: LineReader, view: View, ending: Ending, r: Reader,
                                        current: Event, used: nat)
    requires Consistent(r) && used <= MAX_EVENT_SIZE
    requires forall q: Reader, n: nat :: Consistent(q) && n <= MAX_EVENT_SIZE ==>
            LineAgrees(view, ending, q, n, lines(q, n))
    ensures Agrees(view, DecodeNext(parse, lines, r, current, used), Decode(parse, view(r), ending, current, used))
    decreases Size(r)
  {
    var (line, next) := lines(r, used);
    assert LineAgrees(view, ending, r, used, lines(r, used));
    DecodeByLine(parse, view(r), ending, current, used);
    if line.Line? {
      var text := Trim(line.raw);
      if text != [] {
        DecodeAgrees(parse, lines, view, ending, next, parse(current, text), used + |line.raw|);
      } else if current.IsEmpty() {
        DecodeAgrees(parse, lines, view, ending, next, current, used + |line.raw|);
      }
    }
  }

  lemma LinesAgree(r: Reader, io: Io, used: nat)
    requires Consistent(r) && used <= MAX_EVENT_SIZE
    ensures LineAgrees(StreamLines(), io.ending, r, used, Lines(io)(r, used))
  {
    LineRefines(r, io, used);
    LinesTake(io, r, used);
    assert [] + Ahead(r) == Ahead(r);
  }

  /** Events decoded through the buffer are the events of the stream, however it arrives; only a read
      past the capture limit can make the decoder stop where the whole stream would go on. */
  lemma DecodeRefines(r: Reader, io: Io)
    requires Consistent(r)
    ensures Agrees(StreamLines(), DecodeNext(ParseLine, Lines(io), r, NOTHING, 0),
            Decode(ParseLine, RawLines(Ahead(r)), io.ending, NOTHING, 0))
  {
    forall q: Reader, n: nat | Consistent(q)
      && n <= MAX_EVENT_SIZE ensures LineAgrees(StreamLines(), io.ending, q, n, Lines(io)(q, n)) {
      LinesAgree(q, io, n);
    }
    DecodeAgrees(ParseLine, Lines(io), StreamLines(), io.ending, r, NOTHING, 0);
  }

  // ---------------------------------------------------------------- what the capture holds

  /** Bytes taken from the stream so far. */
  function Taken(r: Reader, original: Bytes): int {
    |original| - |r.rest|
  }

  /** Up to the limit the capture is exactly what was taken; after a read past it, the capture is short. */
  predicate Faithful(r: Reader, original: Bytes, limit: Option<nat>) {
    && |r.rest| <= |original| && r.rest == original[Taken(r, original)..]
    && (!r.over ==> r.captured == original[..Taken(r, original)])
    && (r.over ==> |r.captured| < Taken(r, original))
    && (limit.Some? ==> |r.captured| <= limit.value && (r.over ==> limit.value < Taken(r, original)))
    && (limit.None? ==> !r.over)
  }

  lemma FillFaithful(r: Reader, io: Io, original: Bytes)
    requires |r.buf| < BUFFER && r.fault.Clear? && Faithful(r, original, io.limit)
    ensures Faithful(Fill(r, io), original, io.limit)
  {
    if r.rest != [] {
      var n, t := Amount(r, io), Taken(r, original);
      assert r.rest[..n] == original[t..t + n];
      assert original[..t] + original[t..t + n] == original[..t + n];
    }
  }

  lemma AttemptFaithful(r: Reader, io: Io, acc: Bytes, used: nat, original: Bytes)
    requires Faithful(r, original, io.limit)
    ensures Faithful(Attempt(r, io, acc, used).next, original, io.limit)
  {
    if Find(r.buf, LF) == |r.buf| && r.fault.Clear? && |r.buf| < BUFFER {
      FillFaithful(r, io, original);
    }
  }

  /** What every step keeps, a line keeps. */
  lemma {:induction false} LineKeeps(step: Stepper, keeps: Reader -> bool, r: Reader, acc: Bytes, used: nat)
    requires keeps(r)
    requires forall q: Reader, a: Bytes, u: nat :: keeps(q) ==> keeps(step(q, a, u).next)
    ensures keeps(NextLine(step, r, acc, used).1)
    decreases Work(r)
  {
    var out := step(r, acc, used);
    assert keeps(step(r, acc, used).next);
    if out.More? && Work(out.next) < Work(r) {
      LineKeeps(step, keeps, out.next, out.acc, out.used);
    }
  }

  /** What every line keeps, decoding keeps. */
  lemma {:induction false} DecodeKeeps(parse: Parser, lines: LineReader, keeps: Reader -> bool, r: Reader,
                                       current: Event, used: nat)
    requires keeps(r) && forall q: Reader, n: nat :: keeps(q) ==> keeps(lines(q, n).1)
    ensures keeps(DecodeNext(parse, lines, r, current, used).1)
    decreases Size(r)
  {
    var (line, next) := lines(r, used);
    assert keeps(lines(r, used).1);
    if line.Line? && Size(next) < Size(r) {
      var text := Trim(line.raw);
      if text != [] {
        DecodeKeeps(parse, lines, keeps, next, parse(current, text), used + |line.raw|);
      } else if current.IsEmpty() {
        DecodeKeeps(parse, lines, keeps, next, current, used + |line.raw|);
      }
    }
  }
}
