/** The relay of internal/sse/proxy.go: upstream events are re-encoded for the client, nothing is
    written before the first event with data, and the terminal marker ends the stream. */
module SseRelay {
  import opened Basics
  import opened SseCodec
  import opened SseReader
  import D = SseDecoder

  /** Recognises the terminal marker among data values. */
  type Marker = Bytes -> bool

  function FirstMark(data: seq<Bytes>, marks: Marker): (r: nat)
    ensures r <= |data| && (r < |data| ==> marks(data[r])) && forall i :: 0 <= i < r ==> !marks(data[i])
  {
    if data == [] then 0 else if marks(data[0]) then 0 else 1 + FirstMark(data[1..], marks)
  }

  predicate IsDone(e: Event, marks: Marker) {
    FirstMark(e.data, marks) < |e.data|
  }

  /** The event up to its terminal marker. */
  function Cut(e: Event, marks: Marker): Event {
    var i := FirstMark(e.data, marks);
    if i < |e.data| then e.(data := e.data[..i + 1]) else e
  }

  /** Position of the first event with data, or the number of events. */
  function FirstData(es: seq<Event>): (r: nat)
    ensures r <= |es| && (r < |es| ==> es[r].data != []) && forall i :: 0 <= i < r ==> es[i].data == []
  {
    if es == [] then 0 else if es[0].data != [] then 0 else 1 + FirstData(es[1..])
  }

  /** Position of the first event that holds the terminal marker, or the number of events. */
  function FirstDone(es: seq<Event>, marks: Marker): (r: nat)
    ensures r <= |es| && (r < |es| ==> IsDone(es[r], marks)) && forall i :: 0 <= i < r ==> !IsDone(es[i], marks)
  {
    if es == [] then 0 else if IsDone(es[0], marks) then 0 else 1 + FirstDone(es[1..], marks)
  }

  datatype Result = Complete | HookFailed | Interrupted | PreambleTooLarge | DecodeFailed(why: LineResult)

  function Verdict(stop: Step): Result {
    match stop
    case TooLarge => DecodeFailed(Oversize)
    case Failed => DecodeFailed(ReadFailed)
    case _ => Interrupted
  }

  /** What the client gets from a stream of events `es` that stops with `stop`. */
  ghost predicate Relayed(es: seq<Event>, stop: Step, marks: Marker, hookOk: bool, written: Bytes, committed: bool,
                          result: Result) {
    var first, done := FirstData(es), FirstDone(es, marks);
    if |EncodedAll(es[..first])| > MAX_EVENT_SIZE then written == [] && !committed && result == PreambleTooLarge
    else if first == |es| then written == [] && !committed && result == Verdict(stop)
    else
      && committed
      && if done == |es| then written == EncodedAll(es) && result == Verdict(stop)
         else if hookOk then written == EncodedAll(es[..done]) + Encoded(Cut(es[done], marks)) && result == Complete
         else written == EncodedAll(es[..done]) && result == HookFailed
  }

  lemma {:induction false} EncodedAppend(a: seq<Event>, b: seq<Event>)
    ensures EncodedAll(a + b) == EncodedAll(a) + EncodedAll(b)
  {
    if a == [] {
      assert a + b == b;
    } else {
      assert (a + b)[1..] == a[1..] + b && (a + b)[0] == a[0];
      EncodedAppend(a[1..], b);
    }
  }

  lemma EncodedSnoc(es: seq<Event>, e: Event)
    ensures EncodedAll(es + [e]) == EncodedAll(es) + Encoded(e)
  {
    EncodedAppend(es, [e]);
    var none: seq<Event> := [];
    assert [e][1..] == none;
    assert EncodedAll([e]) == Encoded(e) + EncodedAll(none) == Encoded(e);
  }

  lemma EncodedGrows(es: seq<Event>, i: nat, j: nat)
    requires i <= j <= |es|
    ensures |EncodedAll(es[..i])| <= |EncodedAll(es[..j])|
  {
    EncodedAppend(es[..i], es[i..j]);
    assert es[..i] + es[i..j] == es[..j];
  }

  lemma FirstDataIs(es: seq<Event>, k: nat)
    requires k <= |es| && (k < |es| ==> es[k].data != []) && forall i :: 0 <= i < k ==> es[i].data == []
    ensures FirstData(es) == k
  {}

  lemma FirstDoneIs(es: seq<Event>, marks: Marker, k: nat)
    requires k <= |es| && (k < |es| ==> IsDone(es[k], marks)) && forall i :: 0 <= i < k ==> !IsDone(es[i], marks)
    ensures FirstDone(es, marks) == k
  {}

  /** Keeps the data up to the terminal marker. */
  method Truncate(e: Event, marks: Marker) returns (out: Event, done: bool)
    ensures out == Cut(e, marks) && done == IsDone(e, marks)
  {
    for i := 0 to |e.data|
      invariant forall j :: 0 <= j < i ==> !marks(e.data[j])
    {
      if marks(e.data[i]) {
        assert FirstMark(e.data, marks) == i;
        return e.(data := e.data[..i + 1]), true;
      }
    }
    assert FirstMark(e.data, marks) == |e.data|;
    return e, false;
  }

  /** Where the relay stands after the events `seen`: still holding a preamble, or committed. */
  ghost predicate Midway(seen: seq<Event>, marks: Marker, pending: Bytes, written: Bytes, committed: bool) {
    && (forall i :: 0 <= i < |seen| ==> !IsDone(seen[i], marks))
    && |EncodedAll(seen[..FirstData(seen)])| <= MAX_EVENT_SIZE
    && (committed <==> FirstData(seen) < |seen|)
    && (if committed then written == EncodedAll(seen) else written == [] && pending == EncodedAll(seen))
  }

  lemma AtStop(es: seq<Event>, seen: seq<Event>, stop: Step, marks: Marker, hookOk: bool, pending: Bytes,
               written: Bytes, committed: bool, result: Result)
    requires Midway(seen, marks, pending, written, committed) && es == seen + [] && result == Verdict(stop)
    ensures Relayed(es, stop, marks, hookOk, written, committed, result)
  {
    assert es == seen;
    FirstDoneIs(es, marks, |es|);
  }

  lemma FirstDataPrefix(seen: seq<Event>, more: seq<Event>)
    ensures FirstData(seen) < |seen| ==>
            FirstData(seen + more) == FirstData(seen) && (seen + more)[..FirstData(seen)] == seen[..FirstData(seen)]
    ensures FirstData(seen) == |seen| ==> |seen| <= FirstData(seen + more)
  {
    var all, k := seen + more, FirstData(seen);
    assert forall i :: 0 <= i < |seen| ==> all[i] == seen[i];
    if k < |seen| {
      FirstDataIs(all, k);
    }
  }

  /** A preamble that outgrows the limit is never written. */
  lemma TooMuch(seen: seq<Event>, event: Event, more: seq<Event>, stop: Step, marks: Marker, hookOk: bool,
                pending: Bytes, written: Bytes)
    requires Midway(seen, marks, pending, written, false) && event.data == []
    requires |pending| + |Encoded(event)| > MAX_EVENT_SIZE
    ensures Relayed(seen + [event] + more, stop, marks, hookOk, written, false, PreambleTooLarge)
  {
    var all := seen + [event] + more;
    FirstDataIs(seen + [event], |seen| + 1);
    FirstDataPrefix(seen + [event], more);
    EncodedSnoc(seen, event);
    EncodedGrows(all, |seen| + 1, FirstData(all));
    assert all[..|seen| + 1] == seen + [event];
  }

  lemma Held(seen: seq<Event>, event: Event, marks: Marker, pending: Bytes, written: Bytes)
    requires Midway(seen, marks, pending, written, false) && event.data == []
    requires |pending| + |Encoded(event)| <= MAX_EVENT_SIZE
    ensures Midway(seen + [event], marks, pending + Encoded(event), written, false)
  {
    EncodedSnoc(seen, event);
    FirstDataIs(seen + [event], |seen| + 1);
    assert (seen + [event])[..|seen| + 1] == seen + [event];
  }

  /** With an event that is passed on, the stream counts as started. */
  lemma Started(seen: seq<Event>, event: Event, more: seq<Event>, marks: Marker, pending: Bytes, written: Bytes,
                committed: bool)
    requires Midway(seen, marks, pending, written, committed) && (committed || event.data != [])
    ensures var all := seen + [event] + more;
            FirstData(all) <= |seen| && |EncodedAll(all[..FirstData(all)])| <= MAX_EVENT_SIZE
    ensures (if committed then written else pending) == EncodedAll(seen)
  {
    var all := seen + [event] + more;
    assert all == seen + ([event] + more);
    if committed {
      FirstDataPrefix(seen, [event] + more);
    } else {
      FirstDataIs(all, |seen|);
      assert all[..|seen|] == seen && seen[..|seen|] == seen;
    }
  }

  lemma PassedOn(seen: seq<Event>, event: Event, marks: Marker, pending: Bytes, written: Bytes, committed: bool)
    requires Midway(seen, marks, pending, written, committed) && (committed || event.data != [])
            && !IsDone(event, marks)
    ensures Midway(seen + [event], marks, pending, (if committed then written else pending) + Encoded(event), true)
  {
    Started(seen, event, [], marks, pending, written, committed);
    assert seen + [event] + [] == seen + [event];
    EncodedSnoc(seen, event);
  }

  lemma Finished(seen: seq<Event>, event: Event, more: seq<Event>, stop: Step, marks: Marker, pending: Bytes,
                 written: Bytes, committed: bool)
    requires Midway(seen, marks, pending, written, committed) && IsDone(event, marks)
    ensures var base := if committed then written else pending;
            && Relayed(seen + [event] + more, stop, marks, false, base, true, HookFailed)
            && Relayed(seen + [event] + more, stop, marks, true, base + Encoded(Cut(event, marks)), true, Complete)
  {
    var all := seen + [event] + more;
    Started(seen, event, more, marks, pending, written, committed);
    assert forall i :: 0 <= i < |seen| ==> all[i] == seen[i];
    FirstDoneIs(all, marks, |seen|);
    assert all[..|seen|] == seen;
  }

  /** What one event does: it is held back, passed on, or ends the relay. */
  method Handle(event: Event, held: Bytes, sent: Bytes, open: bool, marks: Marker, hookOk: bool, ghost es: seq<Event>,
                ghost seen: seq<Event>, ghost more: seq<Event>, ghost stop: Step)
    returns (pending: Bytes, written: Bytes, committed: bool, result: Option<Result>, ghost now: seq<Event>)
    requires Midway(seen, marks, held, sent, open) && es == seen + ([event] + more)
    ensures now == seen + [event] && now + more == es
    ensures result.None? ==> Midway(now, marks, pending, written, committed)
    ensures result.Some? ==> Relayed(es, stop, marks, hookOk, written, committed, result.value)
  {
    Regrouped(seen, event, more);
    now := seen + [event];
    pending, written, committed, result := held, sent, open, None;
    if !open && |event.data| == 0 {
      var encoded := Encode(event);
      if |encoded| > MAX_EVENT_SIZE - |held| {
        TooMuch(seen, event, more, stop, marks, hookOk, held, sent);
        result := Some(PreambleTooLarge);
        return;
      }
      Held(seen, event, marks, held, sent);
      pending := held + encoded;
      return;
    }
    var out, done := Truncate(event, marks);
    committed := true;
    if !open { written := held; }
    if done {
      Finished(seen, event, more, stop, marks, held, sent, open);
      if !hookOk {
        result := Some(HookFailed);
        return;
      }
      result := Some(Complete);
    } else {
      PassedOn(seen, event, marks, held, sent, open);
    }
    var encoded := Encode(out);
    written := written + encoded;
  }

  /** The relay over a decoder. `hookOk` is the answer of the hook that runs before completion. */
  method Proxy(d: D.Decoder, marks: Marker, hookOk: bool, ghost es: seq<Event>, ghost stop: Step)
    returns (written: Bytes, committed: bool, result: Result)
    requires D.Streams(d.io, d.State(), es, stop)
    modifies d
    ensures Relayed(es, stop, marks, hookOk, written, committed, result)
  {
    ghost var seen, more: seq<Event> := [], es;
    var pending: Bytes := [];
    var end: Option<Result> := None;
    written, committed := [], false;
    while end.None?
      invariant end.None? ==> D.Streams(d.io, d.State(), more, stop)
      invariant end.None? ==> seen + more == es
      invariant end.None? ==> Midway(seen, marks, pending, written, committed)
      invariant end.Some? ==> Relayed(es, stop, marks, hookOk, written, committed, end.value)
      decreases if end.None? then |more| + 1 else 0
    {
      var outcome;
      ghost var later;
      outcome, later := d.Next(more, stop);
      if outcome.Stopped? {
        end := Some(if outcome.why.NoMore? then Interrupted else DecodeFailed(outcome.why));
        AtStop(es, seen, stop, marks, hookOk, pending, written, committed, end.value);
      } else {
        pending, written, committed, end,
          seen := Handle(outcome.event, pending, written, committed, marks, hookOk, es, seen, later, stop);
        more := later;
      }
    }
    result := end.value;
  }

  lemma Regrouped(seen: seq<Event>, event: Event, more: seq<Event>)
    ensures seen + ([event] + more) == seen + [event] + more
  {}

  /** The whole relay: what the client gets is determined by the events of the upstream body, however
      its bytes arrive. */
  method ProxyBody(body: Bytes, ending: Ending, sizes: nat -> nat, marks: Marker, hookOk: bool)
    returns (written: Bytes, committed: bool, result: Result)
    ensures var (es, stop) := DecodeAll(RawLines(body), ending);
            Relayed(es, stop, marks, hookOk, written, committed, result)
  {
    var io := Io(sizes, ending, None);
    var d := new D.Decoder(io, body);
    D.StreamsFrom(io, body);
    ghost var (es, stop) := DecodeAll(RawLines(body), ending);
    written, committed, result := Proxy(d, marks, hookOk, es, stop);
  }

  ghost predicate Relayable(e: Event) {
    Plain(e) && |Encoded(e)| <= MAX_EVENT_SIZE
  }

  lemma {:induction false} AllFit(es: seq<Event>)
    requires forall i :: 0 <= i < |es| ==> Relayable(es[i])
    ensures Fitting(es) == |es|
  {
    if es != [] {
      assert Relayable(es[0]);
      AllFit(es[1..]);
    }
  }

  /** What a client decodes from the encodings of relayable events. */
  lemma ClientDecodes(sent: seq<Event>)
    requires forall i :: 0 <= i < |sent| ==> Relayable(sent[i])
    ensures DecodeAll(RawLines(EncodedAll(sent)), Eof) == (NormalAll(sent), AtEnd)
  {
    AllFit(sent);
    RoundTrip(sent);
    assert sent[..|sent|] == sent;
  }

  /** The events that reach the client of a stream with a terminal marker. */
  function Sent(es: seq<Event>, marks: Marker): seq<Event>
    requires FirstDone(es, marks) < |es|
  {
    es[..FirstDone(es, marks)] + [Cut(es[FirstDone(es, marks)], marks)]
  }

  lemma WrittenIs(es: seq<Event>, stop: Step, marks: Marker, written: Bytes, committed: bool)
    requires Relayed(es, stop, marks, true, written, committed, Complete) && FirstDone(es, marks) < |es|
    ensures written == EncodedAll(Sent(es, marks))
  {
    EncodedSnoc(es[..FirstDone(es, marks)], Cut(es[FirstDone(es, marks)], marks));
  }

  /** End to end: of a stream of plain events that ends with its terminal marker, the client decodes the
      same events, normalised, up to the marker and nothing else. */
  lemma ClientSees(es: seq<Event>, stop: Step, marks: Marker, written: Bytes, committed: bool)
    requires Relayed(es, stop, marks, true, written, committed, Complete) && FirstDone(es, marks) < |es|
    requires forall i :: 0 <= i < |Sent(es, marks)| ==> Relayable(Sent(es, marks)[i])
    ensures DecodeAll(RawLines(written), Eof) == (NormalAll(Sent(es, marks)), AtEnd)
  {
    WrittenIs(es, stop, marks, written, committed);
    ClientDecodes(Sent(es, marks));
  }

  /** No field or comment ends in CR. */
  ghost predicate NoTrailingCr(e: Event) {
    Chomped(e) == e
  }

  lemma DecodedIsPlain(e: Event)
    requires NoLf(e) && !e.IsEmpty()
    ensures Plain(e) <==> NoTrailingCr(e)
  {
    ChompedIsPlain(e);
  }

  lemma {:induction false} SentNoLf(es: seq<Event>, marks: Marker)
    requires forall i :: 0 <= i < |es| ==> NoLf(es[i]) && !es[i].IsEmpty()
    requires FirstDone(es, marks) < |es|
    ensures forall i :: 0 <= i < |Sent(es, marks)| ==> NoLf(Sent(es, marks)[i]) && !Sent(es, marks)[i].IsEmpty()
  {
    var sent, done := Sent(es, marks), FirstDone(es, marks);
    forall i | 0 <= i < |sent| ensures NoLf(sent[i]) && !sent[i].IsEmpty() {
      if i < done {
        assert sent[i] == es[i];
      } else {
        assert sent[i] == Cut(es[done], marks);
      }
    }
  }

  /** End to end for a whole upstream body: whatever bytes it is made of, the client decodes exactly the events of
      the body, normalised, up to the terminal marker; a trailing CR in a field or comment and an encoding past
      the size limit are the only exceptions. */
  lemma BodyReachesClient(body: Bytes, ending: Ending, marks: Marker, written: Bytes, committed: bool)
    requires var (es, stop) := DecodeAll(RawLines(body), ending);
             && Relayed(es, stop, marks, true, written, committed, Complete) && FirstDone(es, marks) < |es|
             && forall i :: 0 <= i < |Sent(es, marks)| ==>
                  NoTrailingCr(Sent(es, marks)[i]) && |Encoded(Sent(es, marks)[i])| <= MAX_EVENT_SIZE
    ensures DecodeAll(RawLines(written), Eof) == (NormalAll(Sent(DecodeAll(RawLines(body), ending).0, marks)), AtEnd)
  {
    var (es, stop) := DecodeAll(RawLines(body), ending);
    RawLinesAreLines(body);
    AllDecodedNoLf(RawLines(body), ending);
    SentNoLf(es, marks);
    forall i | 0 <= i < |Sent(es, marks)| ensures Relayable(Sent(es, marks)[i]) {
      DecodedIsPlain(Sent(es, marks)[i]);
    }
    ClientSees(es, stop, marks, written, committed);
  }
}
