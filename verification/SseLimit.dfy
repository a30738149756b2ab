/** When the replay of internal/sse/prime.go is exact however the bytes arrive: a condition on the stream alone. */
module SseLimit {
  import opened Basics
  import opened SseCodec
  import opened SseReader
  import opened SsePrime

  // ---------------------------------------------------------------- where the accepted event closes

  /** The blank line that ends the first event of these lines; empty when the end of the stream ends it. */
  function Closing(parse: Parser, raws: seq<Bytes>, current: Event): Bytes
    decreases |raws|
  {
    if raws == [] then []
    else
      var line := Trim(raws[0]);
      if line != [] then Closing(parse, raws[1..], parse(current, line))
      else if current.IsEmpty() then Closing(parse, raws[1..], current)
      else raws[0]
  }

  /** The blank line that ends the event at which priming decides. */
  function LastClosing(accept: Event -> Verdict, raws: seq<Bytes>, ending: Ending): Bytes
    decreases |raws|
  {
    match Decode(ParseLine, raws, ending, NOTHING, 0)
    case Got(event, rest) => if accept(event).Skip? then LastClosing(accept, rest, ending)
      else Closing(ParseLine, raws, NOTHING)
    case _ => []
  }

  /** What an event leaves of the lines: `rest`, right behind `closing` unless the stream ends there. */
  ghost predicate ClosedBy(raws: seq<Bytes>, closing: Bytes, rest: seq<Bytes>) {
    && |rest| <= |raws| && rest == raws[|raws| - |rest|..]
    && |closing| <= 2
    && (if closing == [] then rest == [] else |rest| < |raws| && raws[|raws| - |rest| - 1] == closing)
  }

  lemma ClosedLater(raws: seq<Bytes>, closing: Bytes, rest: seq<Bytes>)
    requires raws != [] && ClosedBy(raws[1..], closing, rest)
    ensures ClosedBy(raws, closing, rest)
  {
    var tail := raws[1..];
    assert raws[|raws| - |rest|..] == tail[|tail| - |rest|..];
  }

  lemma {:induction false} DecodeCloses(parse: Parser, raws: seq<Bytes>, ending: Ending, current: Event, used: nat)
    requires AreLines(raws)
    ensures var step := Decode(parse, raws, ending, current, used);
            step.Got? ==> ClosedBy(raws, Closing(parse, raws, current), step.rest)
    decreases |raws|
  {
    DecodeByLine(parse, raws, ending, current, used);
    if TakeLine(raws, ending, used).Line? {
      var line := Trim(raws[0]);
      if line != [] || current.IsEmpty() {
        var grown := if line != [] then parse(current, line) else current;
        DecodeCloses(parse, raws[1..], ending, grown, used + |raws[0]|);
        var step := Decode(parse, raws[1..], ending, grown, used + |raws[0]|);
        if step.Got? {
          ClosedLater(raws, Closing(parse, raws[1..], grown), step.rest);
        }
      } else {
        assert raws[1..] == raws[|raws| - |raws[1..]|..];
      }
    }
  }

  lemma ClosedThrough(raws: seq<Bytes>, mid: seq<Bytes>, closing: Bytes, rest: seq<Bytes>)
    requires |mid| <= |raws| && mid == raws[|raws| - |mid|..] && ClosedBy(mid, closing, rest)
    ensures ClosedBy(raws, closing, rest)
  {
    assert raws[|raws| - |rest|..] == mid[|mid| - |rest|..];
  }

  lemma {:induction false} AcceptedCloses(accept: Event -> Verdict, raws: seq<Bytes>, ending: Ending)
    requires AreLines(raws)
    ensures var (result, rest) := PrimeWhole(accept, raws, ending);
            result.Accepted? ==> ClosedBy(raws, LastClosing(accept, raws, ending), rest)
    decreases |raws|
  {
    var step := Decode(ParseLine, raws, ending, NOTHING, 0);
    if step.Got? {
      DecodeCloses(ParseLine, raws, ending, NOTHING, 0);
      if accept(step.event).Skip? {
        AcceptedCloses(accept, step.rest, ending);
        if PrimeWhole(accept, step.rest, ending).0.Accepted? {
          ClosedThrough(raws, step.rest, LastClosing(accept, step.rest, ending),
            PrimeWhole(accept, step.rest, ending).1);
        }
      }
    }
  }

  lemma {:induction false} TotalSplit(raws: seq<Bytes>, k: nat)
    requires k <= |raws|
    ensures Total(raws) == Total(raws[..k]) + Total(raws[k..])
  {
    if k > 0 {
      TotalSplit(raws[1..], k - 1);
      assert raws[..k][1..] == raws[1..][..k - 1] && raws[1..][k - 1..] == raws[k..];
    } else {
      assert raws[0..] == raws;
    }
  }

  lemma RawTail(s: Bytes, k: nat)
    requires s != [] && 0 < k <= |RawLines(s)|
    ensures RawLines(s)[k..] == RawLines(s[LineEnd(s)..])[k - 1..] && |RawLines(s[LineEnd(s)..])| == |RawLines(s)| - 1
  {}

  lemma TailTotal(s: Bytes, k: nat)
    requires k <= |RawLines(s)|
    ensures Total(RawLines(s)[k..]) <= |s|
    ensures k == 0 ==> Total(RawLines(s)[k..]) == |s|
  {
    RawLinesTotal(s);
    TotalSplit(RawLines(s), k);
    assert RawLines(s)[0..] == RawLines(s);
  }

  /** A line begins at the start of the stream or behind a LF. */
  lemma {:induction false} LineStarts(s: Bytes, k: nat)
    requires k < |RawLines(s)|
    ensures var p := |s| - Total(RawLines(s)[k..]); 0 <= p <= |s| && (p == 0 || s[p - 1] == LF)
    decreases |s|
  {
    TailTotal(s, k);
    if k > 0 {
      var n := LineEnd(s);
      var after := s[n..];
      RawTail(s, k);
      LineStarts(after, k - 1);
      var p := |after| - Total(RawLines(after)[k - 1..]);
      assert if p > 0 then after[p - 1] == s[n + p - 1] else s[n - 1] == LF;
    }
  }

  /** Where the blank line begins that ends the accepted event, or the end of the stream when that ends it. */
  function Far(accept: Event -> Verdict, original: Bytes, ending: Ending): int {
    var raws := RawLines(original);
    |original| - Total(PrimeWhole(accept, raws, ending).1) - |LastClosing(accept, raws, ending)|
  }

  lemma FarStartsLine(accept: Event -> Verdict, original: Bytes, ending: Ending) returns (far: nat, closing: Bytes)
    requires PrimeWhole(accept, RawLines(original), ending).0.Accepted?
    ensures far == Far(accept, original, ending) <= |original|
            && closing == LastClosing(accept, RawLines(original), ending)
    ensures if closing != [] then far == 0 || original[far - 1] == LF else far == |original|
  {
    var rest := PrimeWhole(accept, RawLines(original), ending).1;
    closing := LastClosing(accept, RawLines(original), ending);
    RawLinesAreLines(original);
    AcceptedCloses(accept, RawLines(original), ending);
    far := ClosingStarts(original, closing, rest);
  }

  lemma ClosingTotal(raws: seq<Bytes>, closing: Bytes, rest: seq<Bytes>)
    requires ClosedBy(raws, closing, rest) && closing != []
    ensures Total(raws[|raws| - |rest| - 1..]) == |closing| + Total(rest)
  {
    var tail := raws[|raws| - |rest| - 1..];
    assert tail[0] == closing && tail[1..] == rest;
  }

  lemma ClosingStarts(original: Bytes, closing: Bytes, rest: seq<Bytes>) returns (far: nat)
    requires ClosedBy(RawLines(original), closing, rest)
    ensures far == |original| - Total(rest) - |closing| <= |original|
    ensures if closing != [] then far == 0 || original[far - 1] == LF else far == |original|
  {
    var raws := RawLines(original);
    if closing == [] {
      far := |original|;
    } else {
      ClosingTotal(raws, closing, rest);
      LineStarts(original, |raws| - |rest| - 1);
      far := |original| - Total(rest) - |closing|;
    }
  }

  // ---------------------------------------------------------------- arrivals that take as much as possible

  /** Byte by byte up to `far`, and then as much as the buffer holds. */
  function SlowThenGreedy(far: nat): nat -> nat {
    (n: nat) => if n < far then 1 else BUFFER
  }

  /** The reader is somewhere in the stream. */
  predicate Follows(q: Reader, original: Bytes) {
    Size(q) <= |original| && Ahead(q) == original[|original| - Size(q)..]
  }

  function Smaller(a: int, b: int): int {
    if a < b then a else b
  }

  /** Either still reading byte by byte, or past the greedy read. */
  predicate Crossing(q: Reader, original: Bytes, far: nat) {
    && Follows(q, original)
    && (|| (q.calls == Taken(q, original) <= far && (q.buf == [] || LF !in q.buf[..|q.buf| - 1]))
        || Taken(q, original) >= Smaller(|original|, far + BUFFER))
  }

  lemma FollowsTail(q: Reader, original: Bytes, k: nat)
    requires Follows(q, original) && k <= |q.buf|
    ensures forall f: Fault :: Follows(q.(buf := q.buf[k..], fault := f), original)
    ensures Follows(q.(buf := q.buf[k..]), original)
  {
    assert q.buf[k..] + q.rest == Ahead(q)[k..];
  }

  /** The end of the buffer is the last byte taken. */
  lemma BufferEnds(q: Reader, original: Bytes)
    requires Follows(q, original) && q.buf != []
    ensures q.buf[|q.buf| - 1] == original[Taken(q, original) - 1]
  {
    assert q.buf[|q.buf| - 1] == Ahead(q)[|q.buf| - 1];
  }

  lemma Rejoined(a: Bytes, b: Bytes, n: nat)
    requires n <= |b|
    ensures a + b[..n] + b[n..] == a + b
  {
    assert b == b[..n] + b[n..];
  }

  lemma FillCrosses(q: Reader, io: Io, original: Bytes, far: nat)
    requires Crossing(q, original, far) && io.sizes == SlowThenGreedy(far)
    requires far <= |original| && (far == 0 || original[far - 1] == LF)
    requires LF !in q.buf && q.fault.Clear? && |q.buf| < BUFFER
    ensures Crossing(Fill(q, io), original, far)
  {
    if q.rest != [] {
      var n := Amount(q, io);
      var t := Taken(q, original);
      Rejoined(q.buf, q.rest, n);
      if q.buf != [] { BufferEnds(q, original); }
      if t < Smaller(|original|, far + BUFFER) {
        assert io.sizes(q.calls) == if t < far then 1 else BUFFER;
        var grown := q.buf + q.rest[..n];
        assert t < far ==> grown[..|grown| - 1] == q.buf;
      }
    }
  }

  /** Byte by byte, a LF is always the last byte of the buffer. */
  lemma TakeCrosses(q: Reader, original: Bytes, far: nat)
    requires Crossing(q, original, far) && Find(q.buf, LF) < |q.buf|
    ensures Crossing(q.(buf := q.buf[Find(q.buf, LF) + 1..]), original, far)
  {
    var i := Find(q.buf, LF);
    FollowsTail(q, original, i + 1);
    assert i < |q.buf| - 1 ==> q.buf[..|q.buf| - 1][i] == LF;
  }

  lemma EmptyCrosses(q: Reader, original: Bytes, far: nat, fault: Fault)
    requires Crossing(q, original, far)
    ensures Crossing(q.(buf := [], fault := fault), original, far)
  {
    assert Ahead(q)[|q.buf|..] == q.rest;
  }

  lemma AttemptCrosses(q: Reader, io: Io, a: Bytes, u: nat, original: Bytes, far: nat)
    requires Crossing(q, original, far) && io.sizes == SlowThenGreedy(far)
    requires far <= |original| && (far == 0 || original[far - 1] == LF)
    ensures Crossing(Attempt(q, io, a, u).next, original, far)
  {
    if Find(q.buf, LF) < |q.buf| {
      TakeCrosses(q, original, far);
    } else {
      NoneFound(q.buf);
      EmptyCrosses(q, original, far, Clear);
      EmptyCrosses(q, original, far, q.fault);
      if q.fault.Clear? && |q.buf| < BUFFER {
        FillCrosses(q, io, original, far);
      }
    }
  }

  lemma RunCrosses(accept: Event -> Verdict, io: Io, original: Bytes, far: nat)
    requires io.sizes == SlowThenGreedy(far) && far <= |original| && (far == 0 || original[far - 1] == LF)
    ensures Crossing(Prime(accept, Events(io), Start(original)).1, original, far)
  {
    forall q: Reader, a: Bytes,
      u: nat | Crossing(q, original, far) ensures Crossing(Steps(io)(q, a, u).next, original, far) {
      AttemptCrosses(q, io, a, u, original, far);
    }
    assert Ahead(Start(original)) == original == original[0..];
    RunKeeps(accept, io, (q: Reader) => Crossing(q, original, far), Start(original));
  }

  /** However slowly the stream came before, a greedy read can take this much before the event is accepted. */
  lemma GreedyTakes(accept: Event -> Verdict, original: Bytes, ending: Ending, far: nat, io: Io)
    requires PrimeWhole(accept, RawLines(original), ending).0.Accepted?
    requires far == Far(accept, original, ending) && io == Io(SlowThenGreedy(far), ending, Some(MAX_CAPTURE_BYTES))
    ensures var (result, r) := Prime(accept, Events(io), Start(original));
            result.Accepted? ==> Taken(r, original) >= Smaller(|original|, far + BUFFER)
  {
    var f, closing := FarStartsLine(accept, original, ending);
    if closing != [] {
      RunCrosses(accept, io, original, far);
    }
    AcceptedTakes(accept, io, original);
  }

  /** By then at least everything up to the end of the event has been taken. */
  lemma AcceptedTakes(accept: Event -> Verdict, io: Io, original: Bytes)
    ensures var (result, r) := Prime(accept, Events(io), Start(original));
            var end := |original| - Total(PrimeWhole(accept, RawLines(original), io.ending).1);
            result.Accepted? ==>
              PrimeWhole(accept, RawLines(original), io.ending).0 == result && Taken(r, original) >= end
  {
    PrimeDecides(accept, io, original);
    RawLinesTotal(Ahead(Prime(accept, Events(io), Start(original)).1));
  }

  /** However the bytes arrive, an event that ends past the limit is never replayed in full. */
  lemma NeverPastLimit(accept: Event -> Verdict, io: Io, original: Bytes)
    requires io.limit == Some(MAX_CAPTURE_BYTES)
    requires Prime(accept, Events(io), Start(original)).0.Accepted?
    requires |original| - Total(PrimeWhole(accept, RawLines(original), io.ending).1) > MAX_CAPTURE_BYTES
    ensures Replay(Prime(accept, Events(io), Start(original)).1) != original
  {
    AcceptedTakes(accept, io, original);
    ReplayExact(accept, io, original);
  }

  // ---------------------------------------------------------------- arrivals that never cross the limit

  /** The stream, or a buffer from `far` on, stays within the limit. */
  predicate Roomy(original: Bytes, far: int, limit: nat) {
    Smaller(|original|, far + BUFFER) <= limit
  }

  /** A reader that has captured everything so far. */
  ghost predicate Calm(q: Reader, original: Bytes, limit: nat) {
    Consistent(q) && !q.over && Faithful(q, original, Some(limit))
  }

  /** The next of these lines ends before the last `left` bytes, or is the blank line at their head. */
  ghost predicate Near(raws: seq<Bytes>, left: nat) {
    raws != [] ==> Total(raws) - |raws[0]| >= left || (Total(raws) == left && |raws[0]| <= 2)
  }

  /** A line being collected that is near. */
  ghost predicate Collects(q: Reader, acc: Bytes, original: Bytes, limit: nat, left: nat) {
    && Calm(q, original, limit) && LF !in acc && Size(q) <= |original|
    && var raws := RawLines(acc + Ahead(q));
       raws != [] ==>
         || Size(q) + |acc| - |raws[0]| >= left
         || (Size(q) + |acc| == left && acc == [] && |raws[0]| <= 2)
  }

  lemma FillStaysCalm(q: Reader, io: Io, acc: Bytes, original: Bytes, limit: nat, left: nat)
    requires Collects(q, acc, original, limit, left) && io.limit == Some(limit) && left <= |original|
    requires Roomy(original, |original| - left, limit)
    requires q.fault.Clear? && |q.buf| < BUFFER && LF !in q.buf
    ensures Collects(Fill(q, io), acc, original, limit, left)
  {
    FillKeeps(q, io);
    FillFaithful(q, io, original);
    if q.rest != [] {
      var n := Amount(q, io);
      LongEnough(acc, Ahead(q));
      assert |q.captured| + n == Taken(Fill(q, io), original);
    }
  }

  lemma LongEnough(acc: Bytes, ahead: Bytes)
    requires LF !in acc && ahead != []
    ensures RawLines(acc + ahead) != [] && |RawLines(acc + ahead)[0]| > |acc|
  {
    var s := acc + ahead;
    var i := Find(s, LF);
    assert forall k :: 0 <= k < |acc| ==> s[k] == acc[k];
  }

  lemma FullStaysCalm(q: Reader, acc: Bytes, original: Bytes, limit: nat, left: nat)
    requires Collects(q, acc, original, limit, left) && LF !in q.buf && |q.buf| >= BUFFER
    ensures Collects(q.(buf := []), acc + q.buf, original, limit, left)
  {
    assert acc + Ahead(q) == acc + q.buf + Ahead(q.(buf := []));
    LongLine(acc, q.buf, q.rest);
  }

  /** One look at the buffer while a near line is collected. */
  lemma AttemptStaysCalm(q: Reader, io: Io, acc: Bytes, used: nat, original: Bytes, limit: nat, left: nat)
    requires Collects(q, acc, original, limit, left) && io.limit == Some(limit) && left <= |original|
    requires Roomy(original, |original| - left, limit)
    ensures var out := Attempt(q, io, acc, used);
            && !out.next.over && Faithful(out.next, original, Some(limit))
            && (out.More? ==> Collects(out.next, out.acc, original, limit, left))
  {
    if Find(q.buf, LF) == |q.buf| && q.fault.Clear? {
      NoneFound(q.buf);
      if |q.buf| >= BUFFER {
        FullStaysCalm(q, acc, original, limit, left);
      } else {
        FillStaysCalm(q, io, acc, original, limit, left);
      }
    }
  }

  /** What holds while a line is collected gives what holds when it is read. */
  lemma {:induction false} LineGives(step: Stepper, during: (Reader, Bytes) -> bool, after: Reader -> bool, r: Reader,
                                     acc: Bytes, used: nat)
    requires during(r, acc)
    requires forall q: Reader, a: Bytes, u: nat :: during(q, a) ==> after(step(q, a, u).next)
    requires forall q: Reader, a: Bytes, u: nat :: during(q, a) && step(q, a, u).More? ==>
            during(step(q, a, u).next, step(q, a, u).acc)
    ensures after(NextLine(step, r, acc, used).1)
    decreases Work(r)
  {
    var out := step(r, acc, used);
    assert after(step(r, acc, used).next);
    if out.More? && Work(out.next) < Work(r) {
      assert during(step(r, acc, used).next, step(r, acc, used).acc);
      LineGives(step, during, after, out.next, out.acc, out.used);
    }
  }

  lemma LineStaysCalm(r: Reader, io: Io, used: nat, original: Bytes, limit: nat, left: nat)
    requires Calm(r, original, limit) && Size(r) <= |original| && used <= MAX_EVENT_SIZE
    requires io.limit == Some(limit) && left <= |original| && Roomy(original, |original| - left, limit)
    requires Near(RawLines(Ahead(r)), left)
    ensures var next := Lines(io)(r, used).1; Calm(next, original, limit) && Size(next) <= |original|
  {
    RawLinesTotal(Ahead(r));
    assert [] + Ahead(r) == Ahead(r);
    forall q: Reader, a: Bytes, u: nat | Collects(q, a, original, limit, left)
      ensures !Steps(io)(q, a, u).next.over && Faithful(Steps(io)(q, a, u).next, original, Some(limit))
      ensures Steps(io)(q, a, u).More? ==>
              Collects(Steps(io)(q, a, u).next, Steps(io)(q, a, u).acc, original, limit, left)
    {
      AttemptStaysCalm(q, io, a, u, original, limit, left);
    }
    LineGives(Steps(io), (q: Reader, a: Bytes) => Collects(q, a, original, limit, left),
      (q: Reader) => !q.over && Faithful(q, original, Some(limit)), r, [], used);
    LinesAgree(r, io, used);
    LinesTake(io, r, used);
  }

  lemma ClosedTotal(raws: seq<Bytes>, closing: Bytes, rest: seq<Bytes>)
    requires ClosedBy(raws, closing, rest)
    ensures Total(raws) >= Total(rest) + |closing|
  {
    TotalSplit(raws, |raws| - |rest|);
    if closing != [] {
      ClosingTotal(raws, closing, rest);
      TotalSplit(raws, |raws| - |rest| - 1);
    }
  }

  /** The event that comes next closes before the last `left` bytes, or its blank line stands at their head. */
  ghost predicate EventNear(closing: Bytes, rest: seq<Bytes>, left: nat) {
    Total(rest) >= left || Total(rest) + |closing| == left
  }

  lemma NearEvent(parse: Parser, raws: seq<Bytes>, ending: Ending, current: Event, used: nat, left: nat)
    requires AreLines(raws) && raws != [] && Decode(parse, raws, ending, current, used).Got?
    requires EventNear(Closing(parse, raws, current), Decode(parse, raws, ending, current, used).rest, left)
    ensures TakeLine(raws, ending, used) == Line(raws[0]) && used + |raws[0]| <= MAX_EVENT_SIZE && Near(raws, left)
    ensures Trim(raws[0]) != [] ==>
              var step := Decode(parse, raws[1..], ending, parse(current, Trim(raws[0])), used + |raws[0]|);
              step.Got? && EventNear(Closing(parse, raws[1..], parse(current, Trim(raws[0]))), step.rest, left)
    ensures Trim(raws[0]) == [] && current.IsEmpty() ==>
              var step := Decode(parse, raws[1..], ending, current, used + |raws[0]|);
              step.Got? && EventNear(Closing(parse, raws[1..], current), step.rest, left)
  {
    var line := Trim(raws[0]);
    if line != [] {
      DecodeCloses(parse, raws[1..], ending, parse(current, line), used + |raws[0]|);
      ClosedTotal(raws[1..], Closing(parse, raws[1..], parse(current, line)),
        Decode(parse, raws, ending, current, used).rest);
    } else if current.IsEmpty() {
      DecodeCloses(parse, raws[1..], ending, current, used + |raws[0]|);
      ClosedTotal(raws[1..], Closing(parse, raws[1..], current), Decode(parse, raws, ending, current, used).rest);
    } else {
      assert Total(raws) == |raws[0]| + Total(raws[1..]);
    }
  }

  lemma {:induction false} DecodeStaysCalm(parse: Parser, lines: LineReader, view: View, ending: Ending,
                                           calm: Reader -> bool, left: nat,
                                           r: Reader, current: Event, used: nat)
    requires forall q: Reader, n: nat :: Consistent(q) && n <= MAX_EVENT_SIZE ==>
            LineAgrees(view, ending, q, n, lines(q, n))
    requires forall q: Reader, n: nat :: calm(q) && n <= MAX_EVENT_SIZE && Near(view(q), left) ==> calm(lines(q, n).1)
    requires forall q: Reader :: AreLines(view(q)) && (calm(q) ==> Consistent(q) && !q.over)
    requires calm(r) && used <= MAX_EVENT_SIZE && Decode(parse, view(r), ending, current, used).Got?
    requires EventNear(Closing(parse, view(r), current), Decode(parse, view(r), ending, current, used).rest, left)
    ensures calm(DecodeNext(parse, lines, r, current, used).1)
    decreases Size(r)
  {
    var raws := view(r);
    if raws != [] {
      NearEvent(parse, raws, ending, current, used, left);
    }
    var (line, next) := lines(r, used);
    assert LineAgrees(view, ending, r, used, lines(r, used));
    assert calm(lines(r, used).1);
    if raws != [] {
      assert line == Line(raws[0]) && view(next) == raws[1..];
      var text := Trim(line.raw);
      if text != [] {
        DecodeStaysCalm(parse, lines, view, ending, calm, left, next, parse(current, text), used + |line.raw|);
      } else if current.IsEmpty() {
        DecodeStaysCalm(parse, lines, view, ending, calm, left, next, current, used + |line.raw|);
      }
    }
  }

  lemma {:induction false} PrimeStaysCalm(accept: Event -> Verdict, decode: Decoding, view: View, ending: Ending,
                                          calm: Reader -> bool, left: nat, r: Reader)
    requires forall q: Reader :: calm(q) ==> Consistent(q) && AreLines(view(q))
    requires forall q: Reader :: Consistent(q) ==>
            Agrees(view, decode(q), Decode(ParseLine, view(q), ending, NOTHING, 0))
    requires forall q: Reader :: decode(q).0.Decoded? ==> Size(decode(q).1) < Size(q)
    requires forall q: Reader :: calm(q) && Decode(ParseLine, view(q), ending, NOTHING, 0).Got?
               && EventNear(Closing(ParseLine, view(q), NOTHING), Decode(ParseLine, view(q), ending, NOTHING, 0).rest,
                 left)
               ==> calm(decode(q).1) && !decode(q).1.over
    requires calm(r) && PrimeWhole(accept, view(r), ending).0.Accepted?
    requires left == Total(PrimeWhole(accept, view(r), ending).1) + |LastClosing(accept, view(r), ending)|
    ensures !Prime(accept, decode, r).1.over
    decreases Size(r)
  {
    var step := Decode(ParseLine, view(r), ending, NOTHING, 0);
    var (outcome, next) := decode(r);
    assert Agrees(view, decode(r), step);
    if accept(step.event).Skip? {
      DecodeKeepsLines(view(r), ending);
      AcceptedCloses(accept, step.rest, ending);
      ClosedTotal(step.rest, LastClosing(accept, step.rest, ending), PrimeWhole(accept, step.rest, ending).1);
      assert calm(decode(r).1);
      PrimeStaysCalm(accept, decode, view, ending, calm, left, next);
    } else {
      assert calm(decode(r).1);
    }
  }

  lemma DecodeKeepsLines(raws: seq<Bytes>, ending: Ending)
    requires AreLines(raws)
    ensures var step := Decode(ParseLine, raws, ending, NOTHING, 0); step.Got? ==> AreLines(step.rest)
  {
    DecodedNoLf(raws, ending, NOTHING, 0);
  }

  // ---------------------------------------------------------------- exact however the bytes arrive

  /** Priming accepts, and the body reads as the original stream. */
  ghost predicate Replays(accept: Event -> Verdict, io: Io, original: Bytes) {
    var (result, r) := Prime(accept, Events(io), Start(original));
    result.Accepted? && Replay(r) == original
  }

  lemma RoomyStaysCalm(accept: Event -> Verdict, io: Io, original: Bytes)
    requires io.limit == Some(MAX_CAPTURE_BYTES) && PrimeWhole(accept, RawLines(original), io.ending).0.Accepted?
    requires Roomy(original, Far(accept, original, io.ending), MAX_CAPTURE_BYTES)
    ensures !Prime(accept, Events(io), Start(original)).1.over
  {
    var far, closing := FarStartsLine(accept, original, io.ending);
    var left: nat := |original| - far;
    var calm := (q: Reader) => Calm(q, original, MAX_CAPTURE_BYTES) && Size(q) <= |original|;
    EventsStayCalm(io, original, left);
    forall q: Reader ensures AreLines(StreamLines()(q)) { RawLinesAreLines(Ahead(q)); }
    forall q: Reader | Consistent(q) ensures Agrees(StreamLines(), Events(io)(q),
      Decode(ParseLine, StreamLines()(q), io.ending, NOTHING, 0)) {
      DecodeRefines(q, io);
    }
    forall q: Reader | Events(io)(q).0.Decoded? ensures Size(Events(io)(q).1) < Size(q) { EventsShrink(io, q); }
    StartsCalm(original);
    PrimeStaysCalm(accept, Events(io), StreamLines(), io.ending, calm, left, Start(original));
  }

  lemma StartsCalm(original: Bytes)
    ensures Calm(Start(original), original, MAX_CAPTURE_BYTES) && Ahead(Start(original)) == original
  {
    assert original[0..] == original && original[..0] == [];
  }

  lemma EventsStayCalm(io: Io, original: Bytes, left: nat)
    requires io.limit == Some(MAX_CAPTURE_BYTES) && left <= |original|
            && Roomy(original, |original| - left, MAX_CAPTURE_BYTES)
    ensures forall q: Reader :: Calm(q, original, MAX_CAPTURE_BYTES) && Size(q) <= |original|
              && Decode(ParseLine, StreamLines()(q), io.ending, NOTHING, 0).Got?
              && EventNear(Closing(ParseLine, StreamLines()(q), NOTHING),
                Decode(ParseLine, StreamLines()(q), io.ending, NOTHING, 0).rest, left)
              ==> Calm(Events(io)(q).1, original, MAX_CAPTURE_BYTES) && Size(Events(io)(q).1) <= |original|
  {
    var calm := (q: Reader) => Calm(q, original, MAX_CAPTURE_BYTES) && Size(q) <= |original|;
    forall q: Reader, n: nat | Consistent(q)
      && n <= MAX_EVENT_SIZE ensures LineAgrees(StreamLines(), io.ending, q, n, Lines(io)(q, n)) {
      LinesAgree(q, io, n);
    }
    forall q: Reader, n: nat | calm(q) && n <= MAX_EVENT_SIZE
      && Near(StreamLines()(q), left) ensures calm(Lines(io)(q, n).1) {
      LineStaysCalm(q, io, n, original, MAX_CAPTURE_BYTES, left);
    }
    forall q: Reader ensures AreLines(StreamLines()(q)) { RawLinesAreLines(Ahead(q)); }
    forall q: Reader | calm(q) && Decode(ParseLine, StreamLines()(q), io.ending, NOTHING, 0).Got?
                       && EventNear(Closing(ParseLine, StreamLines()(q), NOTHING),
                         Decode(ParseLine, StreamLines()(q), io.ending, NOTHING, 0).rest, left)
      ensures calm(Events(io)(q).1)
    {
      DecodeStaysCalm(ParseLine, Lines(io), StreamLines(), io.ending, calm, left, q, NOTHING, 0);
    }
  }

  /** When the stream holds an event to accept, priming accepts it and replays the stream exactly, however the
      bytes arrive, if and only if the stream as a whole, or a buffer's width from the blank line that ends that
      event, stays within the capture limit. */
  lemma ReplayAlways(accept: Event -> Verdict, original: Bytes, ending: Ending)
    requires PrimeWhole(accept, RawLines(original), ending).0.Accepted?
    ensures (forall sizes: nat -> nat :: Replays(accept, Io(sizes, ending, Some(MAX_CAPTURE_BYTES)), original))
            <==> Smaller(|original|, Far(accept, original, ending) + BUFFER) <= MAX_CAPTURE_BYTES
  {
    if Roomy(original, Far(accept, original, ending), MAX_CAPTURE_BYTES) {
      forall sizes: nat -> nat ensures Replays(accept, Io(sizes, ending, Some(MAX_CAPTURE_BYTES)), original) {
        RoomyReplays(accept, Io(sizes, ending, Some(MAX_CAPTURE_BYTES)), original);
      }
    } else {
      var far, closing := FarStartsLine(accept, original, ending);
      var io := Io(SlowThenGreedy(far), ending, Some(MAX_CAPTURE_BYTES));
      GreedyTakes(accept, original, ending, far, io);
      ReplayExact(accept, io, original);
      assert !Replays(accept, Io(SlowThenGreedy(far), ending, Some(MAX_CAPTURE_BYTES)), original);
    }
  }

  lemma RoomyReplays(accept: Event -> Verdict, io: Io, original: Bytes)
    requires io.limit == Some(MAX_CAPTURE_BYTES) && PrimeWhole(accept, RawLines(original), io.ending).0.Accepted?
    requires Roomy(original, Far(accept, original, io.ending), MAX_CAPTURE_BYTES)
    ensures Replays(accept, io, original)
  {
    RoomyStaysCalm(accept, io, original);
    PrimeDecides(accept, io, original);
    RunFaithful(accept, io, original);
    ReplayExact(accept, io, original);
  }
}
