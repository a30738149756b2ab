/** The event stream format of internal/sse: encoder.go prints events, decoder.go parses them.

    `Decode` and `Encoded` are the definitions on whole byte sequences; the buffered decoder of
    SseReader refines the first one. */
module SseCodec {
  import opened Basics

  const LF: byte := 10
  const CR: byte := 13
  const COLON: byte := 58
  const SPACE: byte := 32
  const MAX_EVENT_SIZE: nat := 4194304

  datatype Field = NameField | IdField | RetryField | DataField

  function Tag(f: Field): Bytes {
    match f
    case NameField => [101, 118, 101, 110, 116]
    case IdField => [105, 100]
    case RetryField => [114, 101, 116, 114, 121]
    case DataField => [100, 97, 116, 97]
  }

  function FieldOf(tag: Bytes): Option<Field> {
    if tag == Tag(NameField) then Some(NameField)
    else if tag == Tag(IdField) then Some(IdField)
    else if tag == Tag(RetryField) then Some(RetryField)
    else if tag == Tag(DataField) then Some(DataField)
    else None
  }

  datatype Event = Event(name: Bytes, id: Bytes, retry: Bytes, data: seq<Bytes>, comments: seq<Bytes>) {
    predicate IsEmpty() {
      name == [] && id == [] && retry == [] && data == [] && comments == []
    }
  }

  const NOTHING: Event := Event([], [], [], [], [])

  // ---------------------------------------------------------------- parsing

  /** Position of the first `b`, or the length. */
  function Find(s: Bytes, b: byte): (r: nat)
    ensures r <= |s| && b !in s[..r] && (r < |s| ==> s[r] == b)
  {
    if s == [] then 0 else if s[0] == b then 0 else 1 + Find(s[1..], b)
  }

  /** Length of the first line with its terminator, or of everything when there is none. */
  function LineEnd(s: Bytes): (r: nat)
    requires s != []
    ensures 0 < r <= |s|
  {
    var i := Find(s, LF);
    if i < |s| then i + 1 else i
  }

  /** A line, whose only LF is its last byte, without its CRLF or LF. */
  function Trim(raw: Bytes): Bytes {
    if !Terminated(raw) then raw
    else if |raw| >= 2 && raw[|raw| - 2] == CR then raw[..|raw| - 2]
    else raw[..|raw| - 1]
  }

  function ParseLine(current: Event, line: Bytes): Event {
    if line != [] && line[0] == COLON then current.(comments := current.comments + [line[1..]])
    else
      var i := Find(line, COLON);
      var field := line[..i];
      var after := if i < |line| then line[i + 1..] else [];
      var value := if after != [] && after[0] == SPACE then after[1..] else after;
      match FieldOf(field) case Some(f) => With(current, f, value) case None => current
  }

  function With(e: Event, f: Field, value: Bytes): Event {
    match f
    case NameField => e.(name := value)
    case IdField => e.(id := value)
    case RetryField => e.(retry := value)
    case DataField => e.(data := e.data + [value])
  }

  /** The stream cut into lines, each with its terminator; only the last may lack one. */
  function RawLines(s: Bytes): (r: seq<Bytes>)
    ensures s != [] ==> r != []
    decreases |s|
  {
    if s == [] then [] else [s[..LineEnd(s)]] + RawLines(s[LineEnd(s)..])
  }

  type Parser = (Event, Bytes) -> Event

  datatype Ending = Eof | Broken
  datatype Step = Got(event: Event, rest: seq<Bytes>) | AtEnd | TooLarge | Failed

  predicate Terminated(raw: Bytes) {
    raw != [] && raw[|raw| - 1] == LF
  }

  /** The next event of a stream of lines that ends in `ending`, with `current` parsed and `used` bytes
      counted; `parse` adds a line to an event and is ParseLine wherever events are decoded. */
  function Decode(parse: Parser, raws: seq<Bytes>, ending: Ending, current: Event, used: nat): (r: Step)
    ensures r.Got? ==> !r.event.IsEmpty() && |r.rest| <= |raws|
    ensures r.Got? && current.IsEmpty() ==> |r.rest| < |raws|
    decreases |raws|
  {
    if raws == [] then
      if ending.Broken? then Failed else if current.IsEmpty() then AtEnd else Got(current, [])
    else if used + |raws[0]| > MAX_EVENT_SIZE then TooLarge
    else if !Terminated(raws[0]) && ending.Broken? then Failed
    else
      var line := Trim(raws[0]);
      if line != [] then Decode(parse, raws[1..], ending, parse(current, line), used + |raws[0]|)
      else if current.IsEmpty() then Decode(parse, raws[1..], ending, current, used + |raws[0]|)
      else Got(current, raws[1..])
  }

  /** Every event of the stream, and how it stops. */
  function DecodeAll(raws: seq<Bytes>, ending: Ending): (r: (seq<Event>, Step))
    ensures !r.1.Got?
    decreases |raws|
  {
    match Decode(ParseLine, raws, ending, NOTHING, 0)
    case Got(event, rest) =>
      var (later, stop) := DecodeAll(rest, ending);
      ([event] + later, stop)
    case stop => ([], stop)
  }

  // ---------------------------------------------------------------- printing

  function ReplaceCrLf(s: Bytes): Bytes {
    if s == [] then []
    else if |s| >= 2 && s[0] == CR && s[1] == LF then [LF] + ReplaceCrLf(s[2..])
    else [s[0]] + ReplaceCrLf(s[1..])
  }

  function ReplaceCr(s: Bytes): Bytes {
    if s == [] then [] else [if s[0] == CR then LF else s[0]] + ReplaceCr(s[1..])
  }

  function Split(s: Bytes): (parts: seq<Bytes>)
    ensures parts != []
    decreases |s|
  {
    var i := Find(s, LF);
    if i < |s| then [s[..i]] + Split(s[i + 1..]) else [s]
  }

  /** The lines of a data value, whatever it uses to end them. */
  function Parts(data: Bytes): seq<Bytes> {
    Split(ReplaceCr(ReplaceCrLf(data)))
  }

  function AllParts(data: seq<Bytes>): seq<Bytes> {
    if data == [] then [] else Parts(data[0]) + AllParts(data[1..])
  }

  function Prefixed(prefix: Bytes, texts: seq<Bytes>): seq<Bytes> {
    if texts == [] then [] else [prefix + texts[0]] + Prefixed(prefix, texts[1..])
  }

  function FieldPrefix(f: Field): Bytes {
    Tag(f) + [COLON, SPACE]
  }

  function FieldLines(f: Field, value: Bytes): seq<Bytes> {
    if value == [] then [] else [FieldPrefix(f) + value]
  }

  function LinesOf(e: Event): seq<Bytes> {
    Prefixed([COLON], e.comments)
    + FieldLines(NameField, e.name) + FieldLines(IdField, e.id) + FieldLines(RetryField, e.retry)
    + Prefixed(FieldPrefix(DataField), AllParts(e.data))
  }

  function Print(lines: seq<Bytes>): Bytes {
    if lines == [] then [] else lines[0] + [LF] + Print(lines[1..])
  }

  function Encoded(e: Event): (r: Bytes)
    ensures r != []
  {
    Print(LinesOf(e)) + [LF]
  }

  function EncodedAll(es: seq<Event>): Bytes {
    if es == [] then [] else Encoded(es[0]) + EncodedAll(es[1..])
  }

  /** What a reader of the encoding sees: data values cut into their lines. */
  function Normal(e: Event): Event {
    e.(data := AllParts(e.data))
  }

  function NormalAll(es: seq<Event>): seq<Event> {
    if es == [] then [] else [Normal(es[0])] + NormalAll(es[1..])
  }

  // ---------------------------------------------------------------- newline normalisation

  lemma {:induction false} ReplaceCrMeans(s: Bytes)
    ensures |ReplaceCr(s)| == |s| && CR !in ReplaceCr(s)
    ensures CR !in s ==> ReplaceCr(s) == s
  {
    if s != [] {
      ReplaceCrMeans(s[1..]);
    }
  }

  lemma {:induction false} ReplaceCrLfPlain(s: Bytes)
    requires CR !in s
    ensures ReplaceCrLf(s) == s
  {
    if s != [] {
      ReplaceCrLfPlain(s[1..]);
    }
  }

  lemma {:induction false} SplitMeans(s: Bytes)
    ensures forall i :: 0 <= i < |Split(s)| ==> LF !in Split(s)[i] && (CR !in s ==> CR !in Split(s)[i])
    ensures LF !in s ==> Split(s) == [s]
    decreases |s|
  {
    var i := Find(s, LF);
    if i < |s| {
      SplitMeans(s[i + 1..]);
      assert s[i] in s;
    }
  }

  /** The parts of a data value hold no line ends, and a value without line ends is its own only part. */
  lemma PartsMean(data: Bytes)
    ensures forall i :: 0 <= i < |Parts(data)| ==> LF !in Parts(data)[i] && CR !in Parts(data)[i]
    ensures LF !in data && CR !in data ==> Parts(data) == [data]
  {
    ReplaceCrMeans(ReplaceCrLf(data));
    SplitMeans(ReplaceCr(ReplaceCrLf(data)));
    if CR !in data {
      ReplaceCrLfPlain(data);
    }
  }

  function JoinLf(parts: seq<Bytes>): Bytes {
    if parts == [] then [] else if |parts| == 1 then parts[0] else parts[0] + [LF] + JoinLf(parts[1..])
  }

  lemma JoinLfCons(first: Bytes, later: seq<Bytes>)
    requires later != []
    ensures JoinLf([first] + later) == first + [LF] + JoinLf(later)
  {
    assert ([first] + later)[1..] == later;
  }

  lemma CutAt(s: Bytes, i: nat)
    requires i < |s|
    ensures s == s[..i] + [s[i]] + s[i + 1..]
  {}

  /** Splitting loses nothing: the parts joined by LF are the value with its line ends normalised. */
  lemma {:induction false} SplitJoins(s: Bytes)
    ensures JoinLf(Split(s)) == s
    decreases |s|
  {
    var i := Find(s, LF);
    if i < |s| {
      var first, after := s[..i], s[i + 1..];
      CutAt(s, i);
      SplitJoins(after);
      var later := Split(after);
      JoinLfCons(first, later);
      assert Split(s) == [first] + later;
    }
  }

  lemma {:induction false} AllPartsPlain(data: seq<Bytes>)
    ensures forall i :: 0 <= i < |AllParts(data)| ==> LF !in AllParts(data)[i] && CR !in AllParts(data)[i]
  {
    if data != [] {
      PartsMean(data[0]);
      AllPartsPlain(data[1..]);
    }
  }

  lemma {:induction false} AllPartsFixed(data: seq<Bytes>)
    requires forall i :: 0 <= i < |data| ==> LF !in data[i] && CR !in data[i]
    ensures AllParts(data) == data
  {
    if data != [] {
      PartsMean(data[0]);
      AllPartsFixed(data[1..]);
    }
  }

  /** A normal event is encoded like the event it comes from, and is normal already. */
  lemma NormalTwice(e: Event)
    ensures Normal(Normal(e)) == Normal(e) && Encoded(Normal(e)) == Encoded(e)
  {
    AllPartsPlain(e.data);
    AllPartsFixed(AllParts(e.data));
  }

  // ---------------------------------------------------------------- round trip

  predicate PlainText(t: Bytes) {
    LF !in t && (t != [] ==> t[|t| - 1] != CR)
  }

  /** A text without one trailing CR, which the decoder takes for a part of the line end. */
  function Chomp(t: Bytes): Bytes {
    if t != [] && t[|t| - 1] == CR then t[..|t| - 1] else t
  }

  function Chomps(ts: seq<Bytes>): seq<Bytes> {
    if ts == [] then [] else [Chomp(ts[0])] + Chomps(ts[1..])
  }

  function Chomped(e: Event): Event {
    e.(name := Chomp(e.name), id := Chomp(e.id), retry := Chomp(e.retry), comments := Chomps(e.comments))
  }

  predicate PlainLine(l: Bytes) {
    l != [] && PlainText(l)
  }

  /** Lines without LF that say something even without a trailing CR. */
  ghost predicate WholeLines(lines: seq<Bytes>) {
    forall i :: 0 <= i < |lines| ==> LF !in lines[i] && Chomp(lines[i]) != []
  }

  /** No LF in the fields and comments. */
  ghost predicate NoLf(e: Event) {
    LF !in e.name && LF !in e.id && LF !in e.retry && forall i :: 0 <= i < |e.comments| ==> LF !in e.comments[i]
  }

  /** No line end in the fields and comments, and something to say. */
  ghost predicate Plain(e: Event) {
    && !e.IsEmpty() && PlainText(e.name) && PlainText(e.id) && PlainText(e.retry)
    && forall i :: 0 <= i < |e.comments| ==> PlainText(e.comments[i])
  }

  function Parsed(parse: Parser, current: Event, lines: seq<Bytes>): Event
    decreases |lines|
  {
    if lines == [] then current else Parsed(parse, parse(current, lines[0]), lines[1..])
  }

  lemma {:induction false} ParsedAppend(parse: Parser, current: Event, a: seq<Bytes>, b: seq<Bytes>)
    ensures Parsed(parse, current, a + b) == Parsed(parse, Parsed(parse, current, a), b)
    decreases |a|
  {
    if a == [] {
      assert a + b == b;
    } else {
      assert (a + b)[1..] == a[1..] + b;
      ParsedAppend(parse, parse(current, a[0]), a[1..], b);
    }
  }

  lemma FindIs(s: Bytes, b: byte, i: nat)
    requires i < |s| && s[i] == b && b !in s[..i]
    ensures Find(s, b) == i
  {
  }

  lemma FieldOfTag(f: Field)
    ensures FieldOf(Tag(f)) == Some(f) && Tag(f) != [] && COLON !in Tag(f) && Tag(f)[0] != COLON
            && PlainLine(FieldPrefix(f))
  {
    match f
    case NameField =>
    case IdField =>
    case RetryField => assert Tag(f)[0] != Tag(NameField)[0];
    case DataField =>
  }

  lemma FieldLineParses(current: Event, f: Field, value: Bytes)
    ensures ParseLine(current, FieldPrefix(f) + value) == With(current, f, value)
  {
    FieldOfTag(f);
    var tag := Tag(f);
    var line := FieldPrefix(f) + value;
    assert line[..|tag|] == tag;
    FindIs(line, COLON, |tag|);
    var after := line[|tag| + 1..];
    assert after == [SPACE] + value;
    assert after[1..] == value;
  }

  lemma {:induction false} CommentsParse(current: Event, texts: seq<Bytes>)
    ensures Parsed(ParseLine, current, Prefixed([COLON], texts)) == current.(comments := current.comments + texts)
    decreases |texts|
  {
    if texts != [] {
      var line := [COLON] + texts[0];
      var next := ParseLine(current, line);
      assert line[1..] == texts[0];
      CommentsParse(next, texts[1..]);
      assert current.comments + [texts[0]] + texts[1..] == current.comments + texts;
      assert Prefixed([COLON], texts)[1..] == Prefixed([COLON], texts[1..]);
    }
  }

  lemma {:induction false} DataParses(current: Event, texts: seq<Bytes>)
    ensures Parsed(ParseLine, current, Prefixed(FieldPrefix(DataField), texts))
            == current.(data := current.data + texts)
    decreases |texts|
  {
    if texts != [] {
      var lines := Prefixed(FieldPrefix(DataField), texts);
      FieldLineParses(current, DataField, texts[0]);
      assert lines[0] == FieldPrefix(DataField) + texts[0];
      DataParses(current.(data := current.data + [texts[0]]), texts[1..]);
      assert current.data + [texts[0]] + texts[1..] == current.data + texts;
      assert lines[1..] == Prefixed(FieldPrefix(DataField), texts[1..]);
    }
  }

  lemma ChompPrefixed(prefix: Bytes, text: Bytes)
    requires PlainLine(prefix)
    ensures Chomp(prefix + text) == prefix + Chomp(text)
  {
    if text != [] && text[|text| - 1] == CR {
      assert (prefix + text)[..|prefix + text| - 1] == prefix + text[..|text| - 1];
    }
  }

  lemma {:induction false} ChompsPrefixed(prefix: Bytes, texts: seq<Bytes>)
    requires PlainLine(prefix)
    ensures Chomps(Prefixed(prefix, texts)) == Prefixed(prefix, Chomps(texts))
  {
    if texts != [] {
      ChompPrefixed(prefix, texts[0]);
      ChompsPrefixed(prefix, texts[1..]);
      assert Prefixed(prefix, texts)[1..] == Prefixed(prefix, texts[1..]);
    }
  }

  lemma {:induction false} ChompsAppend(a: seq<Bytes>, b: seq<Bytes>)
    ensures Chomps(a + b) == Chomps(a) + Chomps(b)
  {
    if a == [] {
      assert a + b == b;
    } else {
      assert (a + b)[1..] == a[1..] + b;
      ChompsAppend(a[1..], b);
    }
  }

  lemma {:induction false} ChompsPlain(texts: seq<Bytes>)
    ensures Chomps(texts) == texts <==> forall i :: 0 <= i < |texts| ==> Chomp(texts[i]) == texts[i]
    ensures |Chomps(texts)| == |texts|
  {
    if texts != [] {
      ChompsPlain(texts[1..]);
      assert Chomps(texts)[1..] == Chomps(texts[1..]);
      assert texts == [texts[0]] + texts[1..];
    }
  }

  lemma FieldParses(current: Event, f: Field, value: Bytes)
    requires f != DataField
    requires With(current, f, []) == current
    ensures Parsed(ParseLine, current, Chomps(FieldLines(f, value))) == With(current, f, Chomp(value))
  {
    if value != [] {
      FieldOfTag(f);
      ChompPrefixed(FieldPrefix(f), value);
      var line: Bytes := FieldPrefix(f) + Chomp(value);
      var none: seq<Bytes> := [];
      assert [FieldPrefix(f) + value][1..] == none && [line][1..] == none;
      assert Chomps(FieldLines(f, value)) == [line];
      FieldLineParses(current, f, Chomp(value));
      assert Parsed(ParseLine, ParseLine(current, line), none) == ParseLine(current, line);
    }
  }

  lemma PartsStay(data: seq<Bytes>)
    ensures Chomps(AllParts(data)) == AllParts(data)
  {
    AllPartsPlain(data);
    ChompsPlain(AllParts(data));
  }

  /** The printed lines without trailing CRs, kind by kind. */
  lemma LinesChomped(e: Event)
    ensures Chomps(LinesOf(e)) == Prefixed([COLON], Chomps(e.comments))
                                  + Chomps(FieldLines(NameField, e.name)) + Chomps(FieldLines(IdField, e.id))
                                    + Chomps(FieldLines(RetryField, e.retry))
                                  + Prefixed(FieldPrefix(DataField), AllParts(e.data))
  {
    var c, n, i, r := Prefixed([COLON], e.comments), FieldLines(NameField, e.name), FieldLines(IdField, e.id),
      FieldLines(RetryField, e.retry);
    ChompsAppend(c + n + i + r, Prefixed(FieldPrefix(DataField), AllParts(e.data)));
    ChompsAppend(c + n + i, r);
    ChompsAppend(c + n, i);
    ChompsAppend(c, n);
    ChompsPrefixed([COLON], e.comments);
    FieldOfTag(DataField);
    ChompsPrefixed(FieldPrefix(DataField), AllParts(e.data));
    PartsStay(e.data);
  }

  /** Parsing the printed lines gives the event back, normalised, but for trailing CRs. */
  lemma LinesParse(e: Event)
    ensures Parsed(ParseLine, NOTHING, Chomps(LinesOf(e))) == Normal(Chomped(e))
  {
    var c, n, i, r := Prefixed([COLON], Chomps(e.comments)), Chomps(FieldLines(NameField, e.name)),
      Chomps(FieldLines(IdField, e.id)), Chomps(FieldLines(RetryField, e.retry));
    var d := Prefixed(FieldPrefix(DataField), AllParts(e.data));
    LinesChomped(e);
    ParsedAppend(ParseLine, NOTHING, c + n + i + r, d);
    ParsedAppend(ParseLine, NOTHING, c + n + i, r);
    ParsedAppend(ParseLine, NOTHING, c + n, i);
    ParsedAppend(ParseLine, NOTHING, c, n);
    var e1 := NOTHING.(comments := Chomps(e.comments));
    CommentsParse(NOTHING, Chomps(e.comments));
    assert Parsed(ParseLine, NOTHING, c) == e1;
    FieldParses(e1, NameField, e.name);
    var e2 := e1.(name := Chomp(e.name));
    FieldParses(e2, IdField, e.id);
    var e3 := e2.(id := Chomp(e.id));
    FieldParses(e3, RetryField, e.retry);
    DataParses(e3.(retry := Chomp(e.retry)), AllParts(e.data));
  }

  lemma {:induction false} PrefixedWhole(prefix: Bytes, texts: seq<Bytes>)
    requires PlainLine(prefix) && forall i :: 0 <= i < |texts| ==> LF !in texts[i]
    ensures WholeLines(Prefixed(prefix, texts))
  {
    if texts != [] {
      ChompPrefixed(prefix, texts[0]);
      PrefixedWhole(prefix, texts[1..]);
    }
  }

  lemma FieldLinesWhole(f: Field, value: Bytes)
    requires LF !in value
    ensures WholeLines(FieldLines(f, value))
  {
    FieldOfTag(f);
    ChompPrefixed(FieldPrefix(f), value);
  }

  lemma LinesWhole(e: Event)
    requires NoLf(e)
    ensures WholeLines(LinesOf(e))
  {
    PrefixedWhole([COLON], e.comments);
    AllPartsPlain(e.data);
    FieldLinesWhole(NameField, e.name);
    FieldLinesWhole(IdField, e.id);
    FieldLinesWhole(RetryField, e.retry);
    FieldOfTag(DataField);
    PrefixedWhole(FieldPrefix(DataField), AllParts(e.data));
  }

  lemma FirstLine(line: Bytes, after: Bytes)
    requires LF !in line
    ensures RawLines(line + [LF] + after) == [line + [LF]] + RawLines(after)
  {
    var s := line + [LF] + after;
    assert s[..|line|] == line;
    FindIs(s, LF, |line|);
    assert s[..|line| + 1] == line + [LF];
    assert s[|line| + 1..] == after;
  }

  lemma TrimLine(line: Bytes)
    requires LF !in line
    ensures Trim(line + [LF]) == Chomp(line) && Terminated(line + [LF])
  {
    assert (line + [LF])[..|line|] == line;
  }

  /** The lines of a block with their terminators, then its blank line, then more. */
  function Block(lines: seq<Bytes>, more: seq<Bytes>): seq<Bytes> {
    if lines == [] then [[LF]] + more else [lines[0] + [LF]] + Block(lines[1..], more)
  }

  lemma {:induction false} BlockLines(lines: seq<Bytes>, tail: Bytes)
    requires WholeLines(lines)
    ensures RawLines(Print(lines) + [LF] + tail) == Block(lines, RawLines(tail))
  {
    if lines == [] {
      FirstLine([], tail);
      assert Print(lines) + [LF] + tail == [] + [LF] + tail;
      assert [] + [LF] == [LF];
    } else {
      var after := Print(lines[1..]) + [LF] + tail;
      assert Print(lines) + [LF] + tail == lines[0] + [LF] + after;
      FirstLine(lines[0], after);
      BlockLines(lines[1..], tail);
    }
  }

  /** One terminated line of the stream. */
  lemma DecodeLine(parse: Parser, line: Bytes, more: seq<Bytes>, ending: Ending, current: Event, used: nat)
    requires LF !in line
    ensures Decode(parse, [line + [LF]] + more, ending, current, used) ==
            if used + |line| + 1 > MAX_EVENT_SIZE then TooLarge
            else if Chomp(line) != [] then Decode(parse, more, ending, parse(current, Chomp(line)), used + |line| + 1)
            else if current.IsEmpty() then Decode(parse, more, ending, current, used + |line| + 1)
            else Got(current, more)
  {
    TrimLine(line);
    var raws := [line + [LF]] + more;
    assert raws[1..] == more && raws[0] == line + [LF];
  }

  lemma ParsedCons(parse: Parser, current: Event, lines: seq<Bytes>)
    requires lines != []
    ensures Parsed(parse, current, Chomps(lines)) == Parsed(parse, parse(current, Chomp(lines[0])), Chomps(lines[1..]))
    ensures |Print(lines)| == |lines[0]| + 1 + |Print(lines[1..])|
  {
    assert Chomps(lines)[1..] == Chomps(lines[1..]);
  }

  /** A block comes to this: too large as a whole, one event, or nothing yet, its bytes counting towards the next. */
  ghost predicate BlockIs(parse: Parser, step: Step, event: Event, more: seq<Bytes>, ending: Ending, read: nat) {
    step == if read > MAX_EVENT_SIZE then TooLarge
            else if event.IsEmpty() then Decode(parse, more, ending, event, read)
            else Got(event, more)
  }

  lemma BlockEnds(parse: Parser, more: seq<Bytes>, ending: Ending, current: Event, used: nat)
    ensures BlockIs(parse, Decode(parse, Block([], more), ending, current, used), current, more, ending, used + 1)
  {
    var blank: Bytes := [];
    BlankBlock(more);
    DecodeLine(parse, blank, more, ending, current, used);
  }

  lemma BlankBlock(more: seq<Bytes>)
    ensures var blank: Bytes := []; Block([], more) == [blank + [LF]] + more
  {
    var blank: Bytes := [];
    assert blank + [LF] == [LF];
  }

  /** A block of lines and its blank line is decoded as one event, or is too large as a whole; when nothing is
      left of the event, its bytes count towards the next one. */
  lemma {:induction false} BlockDecodes(parse: Parser, lines: seq<Bytes>, more: seq<Bytes>, ending: Ending,
                                        current: Event, used: nat)
    requires WholeLines(lines)
    ensures BlockIs(parse, Decode(parse, Block(lines, more), ending, current, used),
            Parsed(parse, current, Chomps(lines)),
                    more, ending, used + |Print(lines)| + 1)
    decreases |lines|
  {
    if lines == [] {
      BlockEnds(parse, more, ending, current, used);
    } else {
      DecodeLine(parse, lines[0], Block(lines[1..], more), ending, current, used);
      BlockDecodes(parse, lines[1..], more, ending, parse(current, Chomp(lines[0])), used + |lines[0]| + 1);
      ParsedCons(parse, current, lines);
    }
  }

  /** A block of that size in front of other lines decodes to the event that its lines parse to. */
  lemma BlockComes(parse: Parser, lines: seq<Bytes>, more: seq<Bytes>, ending: Ending, event: Event, size: nat)
    requires WholeLines(lines) && size == |Print(lines)| + 1 && Parsed(parse, NOTHING, Chomps(lines)) == event
    requires event.IsEmpty() ==> event == NOTHING
    ensures Decode(parse, Block(lines, more), ending, NOTHING, 0) ==
            if size > MAX_EVENT_SIZE then TooLarge
            else if event.IsEmpty() then Decode(parse, more, ending, NOTHING, size)
            else Got(event, more)
  {
    BlockDecodes(parse, lines, more, ending, NOTHING, 0);
  }

  /** What the encoding of an event without LF in its texts decodes to. */
  lemma EncodingDecodes(e: Event, tail: Bytes, ending: Ending)
    requires NoLf(e)
    ensures Decode(ParseLine, RawLines(Encoded(e) + tail), ending, NOTHING, 0) ==
            if |Encoded(e)| > MAX_EVENT_SIZE then TooLarge
            else if Normal(Chomped(e)).IsEmpty() then Decode(ParseLine, RawLines(tail), ending, NOTHING, |Encoded(e)|)
            else Got(Normal(Chomped(e)), RawLines(tail))
  {
    LinesParse(e);
    LinesWhole(e);
    BlockLines(LinesOf(e), tail);
    BlockComes(ParseLine, LinesOf(e), RawLines(tail), ending, Normal(Chomped(e)), |Encoded(e)|);
  }

  /** Chomping changes nothing exactly when no text ends in CR. */
  lemma ChompedIsPlain(e: Event)
    requires NoLf(e) && !e.IsEmpty()
    ensures Chomped(e) == e <==> Plain(e)
  {
    ChompsPlain(e.comments);
  }

  lemma NormalNotEmpty(e: Event)
    requires !e.IsEmpty()
    ensures !Normal(e).IsEmpty()
  {
    if e.data != [] {
      assert Parts(e.data[0]) != [];
    }
  }

  /** How many leading events fit the size limit. */
  function Fitting(es: seq<Event>): (r: nat)
    ensures r <= |es|
  {
    if es == [] || |Encoded(es[0])| > MAX_EVENT_SIZE then 0 else 1 + Fitting(es[1..])
  }

  lemma FirstDecodes(e: Event, tail: Bytes, ending: Ending)
    requires Plain(e)
    ensures var (later, stop) := DecodeAll(RawLines(tail), ending);
            DecodeAll(RawLines(Encoded(e) + tail), ending) == if |Encoded(e)| > MAX_EVENT_SIZE then ([], TooLarge)
              else ([Normal(e)] + later, stop)
  {
    ChompedIsPlain(e);
    NormalNotEmpty(e);
    EncodingDecodes(e, tail, ending);
  }

  lemma NormalAllCons(es: seq<Event>, n: nat)
    requires n < |es|
    ensures NormalAll(es[..n + 1]) == [Normal(es[0])] + NormalAll(es[1..][..n])
  {
    assert es[..n + 1][1..] == es[1..][..n];
  }

  /** Round trip over sequences: the concatenated encodings decode to the same events, normalised, up to
      the first one that exceeds the size limit; with none too large, the stream just ends. */
  lemma {:induction false} RoundTrip(es: seq<Event>)
    requires forall i :: 0 <= i < |es| ==> Plain(es[i])
    ensures DecodeAll(RawLines(EncodedAll(es)), Eof)
            == (NormalAll(es[..Fitting(es)]), if Fitting(es) == |es| then AtEnd else TooLarge)
  {
    if es != [] {
      FirstDecodes(es[0], EncodedAll(es[1..]), Eof);
      if |Encoded(es[0])| <= MAX_EVENT_SIZE {
        RoundTrip(es[1..]);
        NormalAllCons(es, Fitting(es[1..]));
      }
    }
  }

  /** What a lone event without LF in its texts decodes to: a trailing CR of a field or comment is lost, and
      the event with it when nothing else is in it. */
  lemma TrailingCrIsLost(e: Event)
    requires NoLf(e) && |Encoded(e)| <= MAX_EVENT_SIZE
    ensures DecodeAll(RawLines(Encoded(e)), Eof) == (if Chomped(e).IsEmpty() then [] else [Normal(Chomped(e))], AtEnd)
  {
    var none: Bytes := [];
    EncodingDecodes(e, none, Eof);
    assert Encoded(e) + none == Encoded(e);
    assert RawLines(none) == [];
    if Chomped(e).IsEmpty() {
      NothingNormal();
    } else {
      NormalNotEmpty(Chomped(e));
    }
    DecodeAlone(RawLines(Encoded(e)));
  }

  lemma NothingNormal()
    ensures Normal(NOTHING) == NOTHING
  {
    assert AllParts([]) == [];
  }

  /** A stream of at most one event. */
  lemma DecodeAlone(raws: seq<Bytes>)
    ensures var step := Decode(ParseLine, raws, Eof, NOTHING, 0);
            && (step == AtEnd ==> DecodeAll(raws, Eof) == ([], AtEnd))
            && (step.Got? && step.rest == [] ==> DecodeAll(raws, Eof) == ([step.event], AtEnd))
  {
    var step, none := Decode(ParseLine, raws, Eof, NOTHING, 0), DecodeAll([], Eof);
    assert none == ([], AtEnd);
    if step.Got? && step.rest == [] {
      assert DecodeAll(step.rest, Eof) == none;
      assert [step.event] + none.0 == [step.event];
    }
  }

  // What comes out of the decoder never holds a LF.

  /** Each line holds LF at most as its last byte. */
  ghost predicate AreLines(raws: seq<Bytes>) {
    forall i :: 0 <= i < |raws| ==> raws[i] != [] && LF !in raws[i][..|raws[i]| - 1]
  }

  lemma {:induction false} RawLinesAreLines(s: Bytes)
    ensures AreLines(RawLines(s))
    decreases |s|
  {
    if s != [] {
      var n := LineEnd(s);
      RawLinesAreLines(s[n..]);
      assert s[..n][..n - 1] == s[..n - 1];
      assert forall k :: 0 <= k < n - 1 ==> s[k] == s[..Find(s, LF)][k];
    }
  }

  lemma ParseKeepsNoLf(current: Event, line: Bytes)
    requires NoLf(current) && LF !in line
    ensures NoLf(ParseLine(current, line))
  {}

  lemma {:induction false} DecodedNoLf(raws: seq<Bytes>, ending: Ending, current: Event, used: nat)
    requires AreLines(raws) && NoLf(current)
    ensures var step := Decode(ParseLine, raws, ending, current, used);
            step.Got? ==> NoLf(step.event) && AreLines(step.rest)
    decreases |raws|
  {
    if raws != [] && used + |raws[0]| <= MAX_EVENT_SIZE && (Terminated(raws[0]) || ending.Eof?) {
      var line := Trim(raws[0]);
      TrimNoLf(raws[0]);
      if line != [] {
        ParseKeepsNoLf(current, line);
        DecodedNoLf(raws[1..], ending, ParseLine(current, line), used + |raws[0]|);
      } else if current.IsEmpty() {
        DecodedNoLf(raws[1..], ending, current, used + |raws[0]|);
      }
    }
  }

  lemma TrimNoLf(raw: Bytes)
    requires raw != [] && LF !in raw[..|raw| - 1]
    ensures LF !in Trim(raw)
  {}

  /** Every decoded event says something, and no field or comment of it holds a LF. */
  lemma {:induction false} AllDecodedNoLf(raws: seq<Bytes>, ending: Ending)
    requires AreLines(raws)
    ensures forall i :: 0 <= i < |DecodeAll(raws, ending).0| ==>
            NoLf(DecodeAll(raws, ending).0[i]) && !DecodeAll(raws, ending).0[i].IsEmpty()
    decreases |raws|
  {
    DecodedNoLf(raws, ending, NOTHING, 0);
    var step := Decode(ParseLine, raws, ending, NOTHING, 0);
    if step.Got? {
      AllDecodedNoLf(step.rest, ending);
    }
  }

  /** Exactly which events survive: encoding an event that says something and fits the size limit and decoding
      it gives the event back, normalised, if and only if no field or comment holds a LF or ends in CR. */
  lemma SurvivesExactly(e: Event)
    requires !e.IsEmpty() && |Encoded(e)| <= MAX_EVENT_SIZE
    ensures DecodeAll(RawLines(Encoded(e)), Eof) == ([Normal(e)], AtEnd) <==> Plain(e)
  {
    if NoLf(e) {
      TrailingCrIsLost(e);
      ChompedIsPlain(e);
      if Normal(Chomped(e)) == Normal(e) {
        assert Chomped(e) == e;
      }
    } else {
      RawLinesAreLines(Encoded(e));
      NeverDecoded(RawLines(Encoded(e)), e);
    }
  }

  lemma NeverDecoded(raws: seq<Bytes>, e: Event)
    requires AreLines(raws) && !NoLf(e)
    ensures DecodeAll(raws, Eof).0 != [Normal(e)]
  {
    var es := DecodeAll(raws, Eof).0;
    AllDecodedNoLf(raws, Eof);
    assert |es| == 1 ==> NoLf(es[0]);
  }

  // ---------------------------------------------------------------- the encoder

  lemma {:induction false} PrintAppend(a: seq<Bytes>, b: seq<Bytes>)
    ensures Print(a + b) == Print(a) + Print(b)
  {
    if a == [] {
      assert a + b == b;
    } else {
      assert (a + b)[1..] == a[1..] + b;
      PrintAppend(a[1..], b);
    }
  }

  lemma {:induction false} PrefixedAppend(prefix: Bytes, a: seq<Bytes>, b: seq<Bytes>)
    ensures Prefixed(prefix, a + b) == Prefixed(prefix, a) + Prefixed(prefix, b)
  {
    if a == [] {
      assert a + b == b;
    } else {
      assert (a + b)[1..] == a[1..] + b;
      PrefixedAppend(prefix, a[1..], b);
    }
  }

  lemma {:induction false} AllPartsAppend(a: seq<Bytes>, b: seq<Bytes>)
    ensures AllParts(a + b) == AllParts(a) + AllParts(b)
  {
    if a == [] {
      assert a + b == b;
    } else {
      assert (a + b)[1..] == a[1..] + b;
      AllPartsAppend(a[1..], b);
    }
  }

  /** One more prefixed line written. */
  lemma WriteLine(prefix: Bytes, texts: seq<Bytes>, i: nat)
    requires i < |texts|
    ensures Print(Prefixed(prefix, texts[..i + 1])) == Print(Prefixed(prefix, texts[..i])) + (prefix + texts[i] + [LF])
  {
    assert texts[..i + 1] == texts[..i] + [texts[i]];
    PrefixedAppend(prefix, texts[..i], [texts[i]]);
    PrintOne(prefix, texts[i]);
    PrintAppend(Prefixed(prefix, texts[..i]), Prefixed(prefix, [texts[i]]));
  }

  lemma PrintOne(prefix: Bytes, text: Bytes)
    ensures Print(Prefixed(prefix, [text])) == prefix + text + [LF]
  {
    var none: seq<Bytes> := [];
    assert [text][1..] == none;
    assert Prefixed(prefix, [text]) == [prefix + text];
    assert [prefix + text][1..] == none;
  }

  method WriteLines(prefix: Bytes, texts: seq<Bytes>) returns (r: Bytes)
    ensures r == Print(Prefixed(prefix, texts))
  {
    r := [];
    for i := 0 to |texts|
      invariant r == Print(Prefixed(prefix, texts[..i]))
    {
      WriteLine(prefix, texts, i);
      r := r + (prefix + texts[i] + [LF]);
    }
    assert texts[..|texts|] == texts;
  }

  method WriteField(f: Field, value: Bytes) returns (r: Bytes)
    ensures r == Print(FieldLines(f, value))
  {
    r := [];
    if value != [] {
      var line: Bytes := FieldPrefix(f) + value;
      assert [line][1..] == [];
      r := line + [LF];
    }
  }

  /** A data value as one line, or as one line for each of its parts. */
  method WriteValue(prefix: Bytes, value: Bytes) returns (r: Bytes)
    ensures r == Print(Prefixed(prefix, Parts(value)))
  {
    var normalized := ReplaceCr(ReplaceCrLf(value));
    if Find(normalized, LF) < |normalized| {
      r := WriteLines(prefix, Split(normalized));
    } else {
      NothingToSplit(value);
      PrintOne(prefix, value);
      r := prefix + value + [LF];
    }
  }

  method WriteData(prefix: Bytes, data: seq<Bytes>) returns (r: Bytes)
    ensures r == Print(Prefixed(prefix, AllParts(data)))
  {
    r := [];
    for i := 0 to |data|
      invariant r == Print(Prefixed(prefix, AllParts(data[..i])))
    {
      DataGrows(prefix, data, i);
      var piece := WriteValue(prefix, data[i]);
      r := r + piece;
    }
    assert data[..|data|] == data;
  }

  lemma DataGrows(prefix: Bytes, data: seq<Bytes>, i: nat)
    requires i < |data|
    ensures Print(Prefixed(prefix, AllParts(data[..i + 1])))
            == Print(Prefixed(prefix, AllParts(data[..i]))) + Print(Prefixed(prefix, Parts(data[i])))
  {
    assert data[..i + 1] == data[..i] + [data[i]];
    AllPartsAppend(data[..i], [data[i]]);
    assert AllParts([data[i]]) == Parts(data[i]);
    PrefixedAppend(prefix, AllParts(data[..i]), Parts(data[i]));
    PrintAppend(Prefixed(prefix, AllParts(data[..i])), Prefixed(prefix, Parts(data[i])));
  }

  lemma {:induction false} CrLfKeepsLf(s: Bytes)
    ensures LF in s || CR in s ==> LF in ReplaceCr(ReplaceCrLf(s))
    decreases |s|
  {
    if |s| >= 2 && s[0] == CR && s[1] == LF {
      assert ReplaceCrLf(s)[0] == LF;
    } else if s != [] {
      CrLfKeepsLf(s[1..]);
    }
  }

  /** A value whose normalised form has no line end is written as it stands. */
  lemma NothingToSplit(data: Bytes)
    requires LF !in ReplaceCr(ReplaceCrLf(data))
    ensures Parts(data) == [data]
  {
    CrLfKeepsLf(data);
    PartsMean(data);
  }

  method Encode(e: Event) returns (buf: Bytes)
    ensures buf == Encoded(e)
  {
    buf := WriteLines([COLON], e.comments);
    var piece := WriteField(NameField, e.name);
    buf := buf + piece;
    piece := WriteField(IdField, e.id);
    buf := buf + piece;
    piece := WriteField(RetryField, e.retry);
    buf := buf + piece;
    piece := WriteData(FieldPrefix(DataField), e.data);
    LinesPrint(e);
    buf := buf + piece + [LF];
  }

  lemma LinesPrint(e: Event)
    ensures Print(LinesOf(e)) == Print(Prefixed([COLON], e.comments)) + Print(FieldLines(NameField, e.name))
            + Print(FieldLines(IdField, e.id))
                                 + Print(FieldLines(RetryField, e.retry))
                                   + Print(Prefixed(FieldPrefix(DataField), AllParts(e.data)))
  {
    var c, n, i, r := Prefixed([COLON], e.comments), FieldLines(NameField, e.name), FieldLines(IdField, e.id),
      FieldLines(RetryField, e.retry);
    PrintAppend(c, n);
    PrintAppend(c + n, i);
    PrintAppend(c + n + i, r);
    PrintAppend(c + n + i + r, Prefixed(FieldPrefix(DataField), AllParts(e.data)));
  }
}
