/** The look-ahead of internal/sse/prime.go: decode until an event is accepted, then put a body in place
    that replays what was captured. The replay is proved exact precisely when no read went past the
    capture limit. */
module SsePrime {
  import opened Basics
  import opened SseCodec
  import opened SseReader

  datatype Verdict = Accept | Skip | Refuse
  datatype Primed = Accepted(event: Event) | Refused | CaptureTooLarge | UnexpectedEof | ReadError

  type Decoding = Reader -> (Outcome, Reader)

  function Events(io: Io): Decoding {
    (r: Reader) => DecodeNext(ParseLine, Lines(io), r, NOTHING, 0)
  }

  function Failure(why: LineResult): Primed {
    match why case NoMore => UnexpectedEof case Oversize => CaptureTooLarge case _ => ReadError
  }

  /** Decodes up to the first event that is accepted. */
  function Prime(accept: Event -> Verdict, decode: Decoding, r: Reader): (Primed, Reader)
    decreases Size(r)
  {
    var (outcome, next) := decode(r);
    match outcome
    case Stopped(why) => (Failure(why), next)
    case Decoded(event) =>
      match accept(event)
      case Accept => (Accepted(event), next)
      case Refuse => (Refused, next)
      case Skip => if Size(next) < Size(r) then Prime(accept, decode, next) else (ReadError, next)
  }

  /** The body that replaces the original one. */
  function Replay(r: Reader): Bytes {
    r.captured + r.rest
  }

  /** What every decoded event keeps, priming keeps. */
  lemma {:induction false} PrimeKeeps(accept: Event -> Verdict, decode: Decoding, keeps: Reader -> bool, r: Reader)
    requires keeps(r) && forall q: Reader :: keeps(q) ==> keeps(decode(q).1)
    ensures keeps(Prime(accept, decode, r).1)
    decreases Size(r)
  {
    var (outcome, next) := decode(r);
    assert keeps(decode(r).1);
    if outcome.Decoded? && accept(outcome.event).Skip? && Size(next) < Size(r) {
      PrimeKeeps(accept, decode, keeps, next);
    }
  }

  function Start(original: Bytes): Reader {
    Reader([], Clear, original, 0, [], false)
  }

  /** What every look at the buffer keeps, decoding an event keeps. */
  lemma EventsKeep(io: Io, keeps: Reader -> bool, r: Reader)
    requires keeps(r) && forall q: Reader, a: Bytes, u: nat :: keeps(q) ==> keeps(Steps(io)(q, a, u).next)
    ensures keeps(Events(io)(r).1)
  {
    forall q: Reader, n: nat | keeps(q) ensures keeps(Lines(io)(q, n).1) {
      LineKeeps(Steps(io), keeps, q, [], n);
    }
    DecodeKeeps(ParseLine, Lines(io), keeps, r, NOTHING, 0);
  }

  lemma RunKeeps(accept: Event -> Verdict, io: Io, keeps: Reader -> bool, r: Reader)
    requires keeps(r) && forall q: Reader, a: Bytes, u: nat :: keeps(q) ==> keeps(Steps(io)(q, a, u).next)
    ensures keeps(Prime(accept, Events(io), r).1)
  {
    forall q: Reader | keeps(q) ensures keeps(Events(io)(q).1) {
      EventsKeep(io, keeps, q);
    }
    PrimeKeeps(accept, Events(io), keeps, r);
  }

  lemma StepsFaithful(io: Io, original: Bytes)
    ensures forall q: Reader, a: Bytes, u: nat :: Faithful(q, original, io.limit) ==>
            Faithful(Steps(io)(q, a, u).next, original, io.limit)
  {
    forall q: Reader, a: Bytes,
      u: nat | Faithful(q, original, io.limit) ensures Faithful(Steps(io)(q, a, u).next, original, io.limit) {
      AttemptFaithful(q, io, a, u, original);
    }
  }

  lemma EventsFaithful(io: Io, r: Reader, original: Bytes)
    requires Faithful(r, original, io.limit)
    ensures Faithful(Events(io)(r).1, original, io.limit)
  {
    StepsFaithful(io, original);
    EventsKeep(io, (q: Reader) => Faithful(q, original, io.limit), r);
  }

  lemma RunFaithful(accept: Event -> Verdict, io: Io, original: Bytes)
    ensures Faithful(Prime(accept, Events(io), Start(original)).1, original, io.limit)
  {
    var start := Start(original);
    assert original[0..] == original && original[..0] == [];
    assert Faithful(start, original, io.limit);
    StepsFaithful(io, original);
    RunKeeps(accept, io, (q: Reader) => Faithful(q, original, io.limit), start);
  }

  /** Replay is exact precisely when the bytes taken from the stream stay within the capture limit,
      which is the guard of the capturing reader. */
  lemma ReplayExact(accept: Event -> Verdict, io: Io, original: Bytes)
    requires io.limit == Some(MAX_CAPTURE_BYTES)
    ensures var (_, r) := Prime(accept, Events(io), Start(original));
            Replay(r) == original <==> Taken(r, original) <= MAX_CAPTURE_BYTES
  {
    RunFaithful(accept, io, original);
    var (_, r) := Prime(accept, Events(io), Start(original));
    if r.over {
      assert |Replay(r)| < |original|;
    } else {
      assert |r.captured| == Taken(r, original);
      assert original[..Taken(r, original)] + original[Taken(r, original)..] == original;
    }
  }

  /** The decision on the whole stream. */
  function PrimeWhole(accept: Event -> Verdict, raws: seq<Bytes>, ending: Ending): (Primed, seq<Bytes>)
    decreases |raws|
  {
    match Decode(ParseLine, raws, ending, NOTHING, 0)
    case Got(event, rest) =>
      (match accept(event)
       case Accept => (Accepted(event), rest)
       case Refuse => (Refused, rest)
       case Skip => PrimeWhole(accept, rest, ending))
    case AtEnd => (UnexpectedEof, raws)
    case TooLarge => (CaptureTooLarge, raws)
    case Failed => (ReadError, raws)
  }

  // ---------------------------------------------------------------- the decision is the one on the whole stream

  lemma {:induction false} DecodeShrinks(parse: Parser, lines: LineReader, r: Reader, current: Event, used: nat)
    requires forall q: Reader, n: nat :: Size(lines(q, n).1) <= Size(q)
    ensures Size(DecodeNext(parse, lines, r, current, used).1) <= Size(r)
    ensures current.IsEmpty() && DecodeNext(parse, lines, r, current, used).0.Decoded? ==>
            Size(DecodeNext(parse, lines, r, current, used).1) < Size(r)
    decreases Size(r)
  {
    var (line, next) := lines(r, used);
    assert Size(lines(r, used).1) <= Size(r);
    if line.Line? && Size(next) < Size(r) {
      var text := Trim(line.raw);
      if text != [] {
        DecodeShrinks(parse, lines, next, parse(current, text), used + |line.raw|);
      } else if current.IsEmpty() {
        DecodeShrinks(parse, lines, next, current, used + |line.raw|);
      }
    }
  }

  /** The result agrees with the one on the whole stream, except that a read past the limit can make
      priming fail. */
  ghost predicate PrimeAgrees(view: View, out: (Primed, Reader), whole: (Primed, seq<Bytes>)) {
    if out.0.Accepted? then Consistent(out.1) && whole == (out.0, view(out.1))
    else if out.1.over && !out.0.Refused? then out.0.CaptureTooLarge?
    else out.0 == whole.0
  }

  lemma {:induction false} PrimeAgreesWith(accept: Event -> Verdict, decode: Decoding, view: View, ending: Ending,
                                           r: Reader)
    requires Consistent(r)
    requires forall q: Reader :: Consistent(q) ==>
            Agrees(view, decode(q), Decode(ParseLine, view(q), ending, NOTHING, 0))
    requires forall q: Reader :: decode(q).0.Decoded? ==> Size(decode(q).1) < Size(q)
    ensures PrimeAgrees(view, Prime(accept, decode, r), PrimeWhole(accept, view(r), ending))
    decreases Size(r)
  {
    var (outcome, next) := decode(r);
    assert Agrees(view, decode(r), Decode(ParseLine, view(r), ending, NOTHING, 0));
    if outcome.Decoded? && accept(outcome.event).Skip? {
      assert Size(decode(r).1) < Size(r);
      PrimeAgreesWith(accept, decode, view, ending, next);
    }
  }

  lemma EventsShrink(io: Io, r: Reader)
    ensures Events(io)(r).0.Decoded? ==> Size(Events(io)(r).1) < Size(r)
  {
    forall p: Reader, n: nat ensures Size(Lines(io)(p, n).1) <= Size(p) { LinesTake(io, p, n); }
    DecodeShrinks(ParseLine, Lines(io), r, NOTHING, 0);
  }

  /** Priming decides as if it had the whole stream: it accepts only the first acceptable event, and it
      does so unless a read went past the capture limit before. */
  lemma PrimeDecides(accept: Event -> Verdict, io: Io, original: Bytes)
    ensures PrimeAgrees(StreamLines(), Prime(accept, Events(io), Start(original)),
            PrimeWhole(accept, RawLines(original), io.ending))
  {
    forall q: Reader | Consistent(q) ensures Agrees(StreamLines(), Events(io)(q),
      Decode(ParseLine, StreamLines()(q), io.ending, NOTHING, 0)) {
      DecodeRefines(q, io);
    }
    forall q: Reader | Events(io)(q).0.Decoded? ensures Size(Events(io)(q).1) < Size(q) {
      EventsShrink(io, q);
    }
    assert Ahead(Start(original)) == original;
    PrimeAgreesWith(accept, Events(io), StreamLines(), io.ending, Start(original));
  }

  function Total(raws: seq<Bytes>): nat {
    if raws == [] then 0 else |raws[0]| + Total(raws[1..])
  }

  lemma {:induction false} RawLinesTotal(s: Bytes)
    ensures Total(RawLines(s)) == |s|
    decreases |s|
  {
    if s != [] {
      RawLinesTotal(s[LineEnd(s)..]);
      assert RawLines(s)[1..] == RawLines(s[LineEnd(s)..]);
    }
  }

  // ---------------------------------------------------------------- a stream whose replay is short

  /** The acceptor of Prime: any event with data. */
  function WithData(event: Event): Verdict {
    if event.data != [] then Accept else Skip
  }

  /** A comment event of exactly one buffer. */
  function Filler(): Bytes {
    [COLON] + seq(BUFFER - 3, _ => 97)
  }

  lemma LineReady(r: Reader, io: Io, line: Bytes, after: Bytes, used: nat)
    requires r.buf == line + [LF] + after && LF !in line && used + |line| + 1 <= MAX_EVENT_SIZE
    ensures Lines(io)(r, used) == (Line(line + [LF]), r.(buf := after))
  {
    assert r.buf[..|line|] == line;
    FindIs(r.buf, LF, |line|);
    assert r.buf[..|line| + 1] == line + [LF] && r.buf[|line| + 1..] == after;
    assert [] + (line + [LF]) == line + [LF];
  }

  lemma BlankReady(r: Reader, io: Io, used: nat)
    requires r.buf == [LF] && used + 1 <= MAX_EVENT_SIZE
    ensures Lines(io)(r, used) == (Line([LF]), r.(buf := []))
  {
    var none: Bytes := [];
    assert [LF] == none + [LF] + none && none + [LF] == [LF];
    LineReady(r, io, none, none, used);
  }

  /** An event of one line and a blank line, both in the buffer. */
  lemma EventReady(r: Reader, io: Io, line: Bytes, event: Event)
    requires r.buf == line + [LF] + [LF] && PlainLine(line) && |line| <= BUFFER
    requires ParseLine(NOTHING, line) == event && !event.IsEmpty()
    ensures Events(io)(r) == (Decoded(event), r.(buf := []))
  {
    var mid, end := r.(buf := [LF]), r.(buf := []);
    LineReady(r, io, line, [LF], 0);
    BlankReady(mid, io, |line| + 1);
    TwoLines(ParseLine, Lines(io), r, line, mid, end);
  }

  lemma TwoLines(parse: Parser, lines: LineReader, r: Reader, line: Bytes, mid: Reader, end: Reader)
    requires PlainLine(line) && !parse(NOTHING, line).IsEmpty() && Size(end) < Size(mid) < Size(r)
    requires lines(r, 0) == (Line(line + [LF]), mid) && lines(mid, |line| + 1) == (Line([LF]), end)
    ensures DecodeNext(parse, lines, r, NOTHING, 0) == (Decoded(parse(NOTHING, line)), end)
  {
    TrimLine(line);
    assert Trim([LF]) == [];
    assert DecodeNext(parse, lines, mid, parse(NOTHING, line), |line| + 1) == (Decoded(parse(NOTHING, line)), end);
  }

  lemma SameLine(parse: Parser, lines: LineReader, r: Reader, q: Reader)
    requires lines(r, 0) == lines(q, 0) && Size(r) == Size(q)
    ensures DecodeNext(parse, lines, r, NOTHING, 0) == DecodeNext(parse, lines, q, NOTHING, 0)
  {}

  lemma LineAfterFill(r: Reader, io: Io)
    requires r.buf == [] && r.fault.Clear?
    ensures Lines(io)(r, 0) == Lines(io)(Fill(r, io), 0)
  {}

  /** With nothing buffered, decoding starts with a read. */
  lemma ReadFirst(r: Reader, io: Io, f: Reader)
    requires r.buf == [] && r.fault.Clear? && f == Fill(r, io)
    ensures Events(io)(r) == Events(io)(f)
  {
    LineAfterFill(r, io);
    SameLine(ParseLine, Lines(io), r, f);
  }

  /** Reads as large as the buffer allows. */
  function Greedy(limit: nat): Io {
    Io((_: nat) => BUFFER, Eof, Some(limit))
  }

  lemma FillerPlain()
    ensures PlainLine(Filler()) && |Filler()| == BUFFER - 2 && !ParseLine(NOTHING, Filler()).IsEmpty()
            && ParseLine(NOTHING, Filler()).data == []
  {
    assert forall i :: 0 < i < |Filler()| ==> Filler()[i] == 97;
  }

  /** The reader after one read of everything that fits. */
  lemma GreedyFill(r: Reader, limit: nat, got: Bytes, more: Bytes)
    requires r.buf == [] && r.fault.Clear? && r.rest == got + more
    requires 0 < |got| <= BUFFER && (|got| == BUFFER || more == [])
    ensures var f := r.(buf := got, rest := more, calls := r.calls + 1);
            Fill(r, Greedy(limit)) == if |r.captured| + |got| > limit then f.(fault := Overflow, over := true)
              else f.(captured := r.captured + got)
  {
    assert Amount(r, Greedy(limit)) == |got|;
    assert r.rest[..|got|] == got && r.rest[|got|..] == more && [] + got == got;
  }

  function Pad(): Bytes {
    Filler() + [LF] + [LF]
  }

  /** A filler within the limit is read, captured, decoded and skipped. */
  lemma FillerSkipped(r: Reader, limit: nat, more: Bytes)
    requires r.buf == [] && r.fault.Clear? && r.rest == Pad() + more && |r.captured| + BUFFER <= limit
    ensures var next := r.(rest := more, calls := r.calls + 1, captured := r.captured + Pad());
            Events(Greedy(limit))(r) == (Decoded(ParseLine(NOTHING, Filler())), next)
  {
    FillerPlain();
    GreedyFill(r, limit, Pad(), more);
    var f := r.(buf := Pad(), rest := more, calls := r.calls + 1, captured := r.captured + Pad());
    ReadFirst(r, Greedy(limit), f);
    EventReady(f, Greedy(limit), Filler(), ParseLine(NOTHING, Filler()));
  }

  function Copies(pad: Bytes, k: nat): (r: Bytes)
    ensures |r| == k * |pad|
  {
    if k == 0 then [] else pad + Copies(pad, k - 1)
  }

  lemma PrimeSkips(accept: Event -> Verdict, decode: Decoding, r: Reader, event: Event, next: Reader)
    requires decode(r) == (Decoded(event), next) && accept(event).Skip? && Size(next) < Size(r)
    ensures Prime(accept, decode, r) == Prime(accept, decode, next)
  {}

  /** The reader once `got` has been read and captured, with `more` to come. */
  function Advanced(r: Reader, got: Bytes, more: Bytes, calls: nat): Reader {
    r.(rest := more, calls := r.calls + calls, captured := r.captured + got)
  }

  lemma SkipOne(r: Reader, limit: nat, more: Bytes)
    requires r.buf == [] && r.fault.Clear? && r.rest == Pad() + more && |r.captured| + |Pad()| <= limit
    ensures Prime(WithData, Events(Greedy(limit)), r)
            == Prime(WithData, Events(Greedy(limit)), Advanced(r, Pad(), more, 1))
  {
    FillerPlain();
    FillerSkipped(r, limit, more);
    PrimeSkips(WithData, Events(Greedy(limit)), r, ParseLine(NOTHING, Filler()), Advanced(r, Pad(), more, 1));
  }

  /** One filler that is read, captured and skipped gives any number of them, up to the limit. */
  lemma {:induction false} SkipMany(prime: Reader -> (Primed, Reader), pad: Bytes, limit: nat, k: nat, r: Reader,
                                    more: Bytes)
    requires forall q: Reader, m: Bytes ::
            q.buf == [] && q.fault.Clear? && q.rest == pad + m && |q.captured| + |pad| <= limit ==>
            prime(q) == prime(Advanced(q, pad, m, 1))
    requires r.buf == [] && r.fault.Clear? && r.rest == Copies(pad, k) + more
            && |r.captured| + |Copies(pad, k)| <= limit
    ensures prime(r) == prime(Advanced(r, Copies(pad, k), more, k))
    decreases k
  {
    if k == 0 {
      assert r.rest == more && r.captured + [] == r.captured;
    } else {
      var later := Copies(pad, k - 1);
      var left := later + more;
      assert r.rest == pad + left;
      assert prime(r) == prime(Advanced(r, pad, left, 1));
      SkipMany(prime, pad, limit, k - 1, Advanced(r, pad, left, 1), more);
      assert r.captured + pad + later == r.captured + (pad + later);
    }
  }

  const LAST: Bytes := [100, 97, 116, 97] + [LF] + [LF]

  lemma BareDataParses()
    ensures ParseLine(NOTHING, [100, 97, 116, 97]) == NOTHING.(data := [[]]) && PlainLine([100, 97, 116, 97])
  {
    var line: Bytes := [100, 97, 116, 97];
    var i := Find(line, COLON);
    assert i < 4 ==> COLON in line;
    assert line[..4] == Tag(DataField);
    FieldOfTag(DataField);
  }

  const FILLERS: nat := 1024

  lemma AllFillersSkipped(more: Bytes)
    ensures |Copies(Pad(), FILLERS)| == MAX_CAPTURE_BYTES
    ensures var start := Start(Copies(Pad(), FILLERS) + more);
            Prime(WithData, Events(Greedy(MAX_CAPTURE_BYTES)), start)
            == Prime(WithData, Events(Greedy(MAX_CAPTURE_BYTES)),
              Advanced(start, Copies(Pad(), FILLERS), more, FILLERS))
  {
    FillerPlain();
    var prime := (q: Reader) => Prime(WithData, Events(Greedy(MAX_CAPTURE_BYTES)), q);
    forall q: Reader, m: Bytes | q.buf == [] && q.fault.Clear? && q.rest == Pad() + m
      && |q.captured| + |Pad()| <= MAX_CAPTURE_BYTES
      ensures prime(q) == prime(Advanced(q, Pad(), m, 1))
    {
      SkipOne(q, MAX_CAPTURE_BYTES, m);
    }
    SkipMany(prime, Pad(), MAX_CAPTURE_BYTES, FILLERS, Start(Copies(Pad(), FILLERS) + more), more);
  }

  /** The read that crosses the limit: decoded, accepted, not captured. */
  lemma LastRead(full: Reader)
    requires full.buf == [] && full.fault.Clear? && full.rest == LAST && |full.captured| == MAX_CAPTURE_BYTES
    ensures Prime(WithData, Events(Greedy(MAX_CAPTURE_BYTES)), full)
            == (Accepted(NOTHING.(data := [[]])),
              full.(rest := [], calls := full.calls + 1, fault := Overflow, over := true))
  {
    var io := Greedy(MAX_CAPTURE_BYTES);
    assert LAST + [] == LAST;
    GreedyFill(full, MAX_CAPTURE_BYTES, LAST, []);
    var f := full.(buf := LAST, rest := [], calls := full.calls + 1, fault := Overflow, over := true);
    ReadFirst(full, io, f);
    BareDataParses();
    EventReady(f, io, [100, 97, 116, 97], NOTHING.(data := [[]]));
  }

  /** Finding: when the last read before acceptance crosses the limit, its bytes are decoded and the
      event in them is accepted, and yet they are not captured: the replayed body ends without them. */
  lemma ShortReplay()
    ensures var original := Copies(Pad(), FILLERS) + LAST;
            var (result, r) := Prime(WithData, Events(Greedy(MAX_CAPTURE_BYTES)), Start(original));
            result.Accepted? && Replay(r) == Copies(Pad(), FILLERS) && Replay(r) != original
  {
    var pads := Copies(Pad(), FILLERS);
    AllFillersSkipped(LAST);
    assert [] + pads == pads && pads + [] == pads;
    LastRead(Advanced(Start(pads + LAST), pads, LAST, FILLERS));
  }
}
