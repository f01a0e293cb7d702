/** Incremental decoding of a byte stream into items, independent of how the stream is cut. */
module IncrementalDecoding {
  import opened Bytes

  /** What a decoder finds at the front of its buffer. */
  datatype Front<Item, Fault> =
    | More                                  // not a whole item yet
    | Ready(item: Item, rest: bytes)
    | Broken(fault: Fault, rest: bytes)     // `rest` is what the decoder keeps

  /** Items consume input, and bytes that arrive later change neither an item nor a fault at the front. */
  ghost predicate Stable<Item(!new), Fault(!new)>(next: bytes -> Front<Item, Fault>) {
    && (forall b | next(b).Ready? :: |next(b).rest| < |b|)
    && (forall b, more | next(b).Ready? :: next(b + more) == Ready(next(b).item, next(b).rest + more))
    && (forall b, more | next(b).Broken? :: next(b + more).Broken?)
  }

  /** Bytes that arrive later leave a fault as `alike` allows. */
  ghost predicate FaultsStable<Item(!new), Fault(!new)>(next: bytes -> Front<Item, Fault>, alike: (Fault, Fault) -> bool) {
    forall b, more | next(b).Broken? :: next(b + more).Broken? && alike(next(b).fault, next(b + more).fault)
  }

  /** The result of emptying a buffer: items, what stays buffered, and the fault that stopped it. */
  datatype Drained<Item, Fault> = Drained(items: seq<Item>, rest: bytes, fault: Option<Fault>)

  ghost function Drain<Item(!new), Fault(!new)>(next: bytes -> Front<Item, Fault>, buffer: bytes): Drained<Item, Fault>
    requires Stable(next)
    decreases |buffer|
  {
    match next(buffer)
    case More => Drained([], buffer, None)
    case Broken(fault, rest) => Drained([], rest, Some(fault))
    case Ready(item, rest) =>
      var d := Drain(next, rest);
      Drained([item] + d.items, d.rest, d.fault)
  }

  /** One turn of a feed loop, with the items found so far. */
  lemma DrainOneMore<Item(!new), Fault(!new)>(next: bytes -> Front<Item, Fault>, found: seq<Item>, buffer: bytes)
    requires Stable(next)
    ensures var d := Drain(next, buffer);
            match next(buffer)
            case More => d == Drained([], buffer, None)
            case Broken(fault, rest) => d == Drained([], rest, Some(fault))
            case Ready(item, rest) =>
              |rest| < |buffer| && d.fault == Drain(next, rest).fault && d.rest == Drain(next, rest).rest
              && found + d.items == (found + [item]) + Drain(next, rest).items
  {
    if next(buffer).Ready? {
      Regroup(found, [next(buffer).item], Drain(next, next(buffer).rest).items);
    }
  }

  /** What an item at the front adds to the rest. */
  lemma DrainReady<Item(!new), Fault(!new)>(next: bytes -> Front<Item, Fault>, buffer: bytes)
    requires Stable(next)
    ensures match next(buffer)
            case More => Drain(next, buffer) == Drained([], buffer, None)
            case Broken(fault, rest) => Drain(next, buffer) == Drained([], rest, Some(fault))
            case Ready(item, rest) =>
              var d := Drain(next, rest);
              |rest| < |buffer| && Drain(next, buffer) == Drained([item] + d.items, d.rest, d.fault)
  {
  }

  /** Feeding a list of chunks, stopping at the first fault as the connection must. */
  ghost function FeedAll<Item(!new), Fault(!new)>(next: bytes -> Front<Item, Fault>, buffer: bytes, chunks: seq<bytes>): Drained<Item, Fault>
    requires Stable(next)
    decreases |chunks|
  {
    if chunks == [] then Drained([], buffer, None)
    else
      var d := Drain(next, buffer + chunks[0]);
      if d.fault.Some? then d
      else
        var later := FeedAll(next, d.rest, chunks[1..]);
        Drained(d.items + later.items, later.rest, later.fault)
  }

  function Concat(chunks: seq<bytes>): bytes
    decreases |chunks|
  {
    if chunks == [] then [] else chunks[0] + Concat(chunks[1..])
  }

  /** Draining early and draining late give the same items; a fault found early is found late. */
  lemma {:induction false} DrainSplits<Item(!new), Fault(!new)>(next: bytes -> Front<Item, Fault>, alike: (Fault, Fault) -> bool, a: bytes, b: bytes)
    requires Stable(next)
    ensures var early := Drain(next, a);
            var whole := Drain(next, a + b);
            && (early.fault.None? ==>
                  var late := Drain(next, early.rest + b);
                  whole == Drained(early.items + late.items, late.rest, late.fault))
            && (early.fault.Some? ==> whole.fault.Some? && whole.items == early.items)
            && (early.fault.Some? && FaultsStable(next, alike) ==> alike(early.fault.value, whole.fault.value))
    decreases |a|
  {
    hide Drain;
    DrainReady(next, a);
    DrainReady(next, a + b);
    match next(a)
    case More =>
      assert [] + Drain(next, a + b).items == Drain(next, a + b).items;
    case Broken(fault, rest) =>
      assert next(a + b).Broken?;
    case Ready(item, rest) =>
      assert next(a + b) == Ready(item, rest + b);
      DrainSplits(next, alike, rest, b);
      var early := Drain(next, rest);
      if early.fault.None? {
        Regroup([item], early.items, Drain(next, early.rest + b).items);
      }
  }

  /** After a feed without a fault the buffer holds no further item. */
  lemma {:induction false} DrainedIsDry<Item(!new), Fault(!new)>(next: bytes -> Front<Item, Fault>, buffer: bytes)
    requires Stable(next) && Drain(next, buffer).fault.None?
    ensures Drain(next, Drain(next, buffer).rest) == Drained([], Drain(next, buffer).rest, None)
    decreases |buffer|
  {
    if next(buffer).Ready? {
      DrainedIsDry(next, next(buffer).rest);
    }
  }

  /** However the stream is cut, the items, the rest and whether there is a fault are those of one single feed. */
  lemma {:induction false} ChunkingIsIrrelevant<Item(!new), Fault(!new)>(next: bytes -> Front<Item, Fault>, alike: (Fault, Fault) -> bool, buffer: bytes, chunks: seq<bytes>)
    requires Stable(next) && Drain(next, buffer) == Drained([], buffer, None)
    ensures var cut := FeedAll(next, buffer, chunks);
            var whole := Drain(next, buffer + Concat(chunks));
            && (cut.fault.None? <==> whole.fault.None?)
            && (whole.fault.None? ==> cut == whole)
            && (cut.fault.Some? && FaultsStable(next, alike) ==> alike(cut.fault.value, whole.fault.value))
    decreases |chunks|
  {
    if chunks == [] {
      assert buffer + [] == buffer;
    } else {
      var first := buffer + chunks[0];
      var d := Drain(next, first);
      Regroup(buffer, chunks[0], Concat(chunks[1..]));
      DrainSplits(next, alike, first, Concat(chunks[1..]));
      if d.fault.None? {
        DrainedIsDry(next, first);
        ChunkingIsIrrelevant(next, alike, d.rest, chunks[1..]);
      }
    }
  }

  /** Items read off a stream of encodings are the encoded items. */
  lemma {:induction false} DecodesEncodings<Item(!new), Fault(!new)>(next: bytes -> Front<Item, Fault>, items: seq<Item>, encoded: seq<bytes>)
    requires Stable(next) && |items| == |encoded|
    requires next([]).More?
    requires forall i, more | 0 <= i < |items| :: next(encoded[i] + more) == Ready(items[i], more)
    ensures Drain(next, Concat(encoded)) == Drained(items, [], None)
    decreases |items|
  {
    if items != [] {
      var tail := encoded[1..];
      forall i, more | 0 <= i < |items[1..]| ensures next(tail[i] + more) == Ready(items[1..][i], more) {
        assert next(encoded[i + 1] + more) == Ready(items[i + 1], more);
      }
      DecodesEncodings(next, items[1..], tail);
      assert next(encoded[0] + Concat(tail)) == Ready(items[0], Concat(tail));
      assert items == [items[0]] + items[1..];
    }
  }
}

/** The length-prefixed frames of the local IPC stream. */
module Frames {
  import opened Bytes
  import opened IncrementalDecoding

  const MAX_FRAME_BYTES: nat := 256 * 1024

  datatype FrameError = FrameTooLarge(size: nat)

  function EncodeFrame(payload: bytes): Result<bytes, FrameError> {
    if |payload| > MAX_FRAME_BYTES then Err(FrameTooLarge(|payload|))
    else Ok(BE32(|payload|) + payload)
  }

  /** What `decode_next` finds. */
  function NextFrame(buffer: bytes): Front<bytes, FrameError> {
    if |buffer| < 4 then More
    else
      var length := FromBE(buffer[..4]);
      if length > MAX_FRAME_BYTES then Broken(FrameTooLarge(length), buffer)
      else if |buffer| < 4 + length then More
      else Ready(buffer[4..4 + length], buffer[4 + length..])
  }

  lemma FrameStep(b: bytes, more: bytes)
    ensures NextFrame(b).Ready? ==> NextFrame(b + more) == Ready(NextFrame(b).item, NextFrame(b).rest + more)
    ensures NextFrame(b).Broken? ==> NextFrame(b + more) == Broken(NextFrame(b).fault, b + more)
  {
    if |b| >= 4 {
      assert (b + more)[..4] == b[..4];
      var length := FromBE(b[..4]);
      if length <= MAX_FRAME_BYTES && |b| >= 4 + length {
        assert (b + more)[4..4 + length] == b[4..4 + length];
        assert (b + more)[4 + length..] == b[4 + length..] + more;
      }
    }
  }

  predicate SameFault(f: FrameError, g: FrameError) { f == g }

  lemma FramesAreStable()
    ensures Stable(NextFrame) && FaultsStable(NextFrame, SameFault)
  {
    forall b, more
      ensures NextFrame(b).Ready? ==> NextFrame(b + more) == Ready(NextFrame(b).item, NextFrame(b).rest + more)
      ensures NextFrame(b).Broken? ==> NextFrame(b + more) == Broken(NextFrame(b).fault, b + more)
    {
      FrameStep(b, more);
    }
  }

  lemma EncodedFrameIsNext(payload: bytes, more: bytes)
    requires |payload| <= MAX_FRAME_BYTES
    ensures NextFrame(EncodeFrame(payload).value + more) == Ready(payload, more)
  {
    var b := EncodeFrame(payload).value + more;
    assert b[..4] == BE32(|payload|);
    assert b[4..4 + |payload|] == payload;
    assert b[4 + |payload|..] == more;
  }

  class FrameDecoder {
    var buffer: bytes

    constructor ()
      ensures buffer == []
    {
      buffer := [];
    }

    method DecodeNext() returns (r: Result<Option<bytes>, FrameError>)
      modifies this
      ensures match NextFrame(old(buffer))
              case More => r == Ok(None) && buffer == old(buffer)
              case Ready(frame, rest) => r == Ok(Some(frame)) && buffer == rest
              case Broken(fault, rest) => r == Err(fault) && buffer == rest
    {
      if |buffer| < 4 {
        return Ok(None);
      }
      var length := FromBE(buffer[..4]);
      if length > MAX_FRAME_BYTES {
        return Err(FrameTooLarge(length));
      }
      if |buffer| < 4 + length {
        return Ok(None);
      }
      var frame := buffer[4..4 + length];
      buffer := buffer[..4] + buffer[4 + length..];
      buffer := buffer[4..];
      return Ok(Some(frame));
    }

    method Feed(chunk: bytes) returns (r: Result<seq<bytes>, FrameError>)
      modifies this
      ensures Stable(NextFrame)
      ensures var d := Drain(NextFrame, old(buffer) + chunk);
              buffer == d.rest && r == if d.fault.Some? then Err(d.fault.value) else Ok(d.items)
    {
      FramesAreStable();
      hide Stable, Drain, NextFrame;
      buffer := buffer + chunk;
      var frames: seq<bytes> := [];
      ghost var whole := Drain(NextFrame, buffer);
      while true
        invariant whole.items == frames + Drain(NextFrame, buffer).items
        invariant whole.rest == Drain(NextFrame, buffer).rest && whole.fault == Drain(NextFrame, buffer).fault
        decreases |buffer|
      {
        DrainOneMore(NextFrame, frames, buffer);
        var next := DecodeNext();
        if next.Err? {
          return Err(next.error);
        }
        if next.value.None? {
          assert frames + [] == frames;
          return Ok(frames);
        }
        frames := frames + [next.value.value];
      }
    }
  }

  /** Once a frame is too large, every later feed fails with the same error. */
  lemma PoisonedForever(buffer: bytes, chunk: bytes)
    requires NextFrame(buffer).Broken?
    ensures Stable(NextFrame)
    ensures Drain(NextFrame, buffer + chunk) == Drained([], buffer + chunk, Some(NextFrame(buffer).fault))
  {
    FramesAreStable();
    FrameStep(buffer, chunk);
  }

  /** Any cut of any stream decodes alike, and encoded payloads come back. */
  lemma FramesSurviveChunking(chunks: seq<bytes>)
    ensures Stable(NextFrame)
    ensures var cut := FeedAll(NextFrame, [], chunks);
            var whole := Drain(NextFrame, Concat(chunks));
            cut.fault == whole.fault && (whole.fault.None? ==> cut == whole)
  {
    FramesAreStable();
    assert [] + Concat(chunks) == Concat(chunks);
    ChunkingIsIrrelevant(NextFrame, SameFault, [], chunks);
  }

  lemma FramesRoundTrip(payloads: seq<bytes>, encoded: seq<bytes>, chunks: seq<bytes>)
    requires |payloads| == |encoded|
    requires forall i | 0 <= i < |payloads| :: EncodeFrame(payloads[i]) == Ok(encoded[i])
    requires Concat(chunks) == Concat(encoded)
    ensures Stable(NextFrame)
    ensures FeedAll(NextFrame, [], chunks) == Drained(payloads, [], None)
  {
    FramesAreStable();
    forall i, more | 0 <= i < |payloads| ensures NextFrame(encoded[i] + more) == Ready(payloads[i], more) {
      EncodedFrameIsNext(payloads[i], more);
    }
    DecodesEncodings(NextFrame, payloads, encoded);
    FramesSurviveChunking(chunks);
  }

  // ---- every byte is accounted for ----

  /** The encodings of some frames, one after the other. */
  function FrameBytes(frames: seq<bytes>): bytes {
    if frames == [] then []
    else (if |frames[0]| <= MAX_FRAME_BYTES then BE32(|frames[0]|) + frames[0] else []) + FrameBytes(frames[1..])
  }

  /** A frame at the front is the encoding of the payload it yields. */
  lemma FrontIsEncoded(buffer: bytes)
    requires NextFrame(buffer).Ready?
    ensures var front := NextFrame(buffer);
            |front.item| <= MAX_FRAME_BYTES && buffer == EncodeFrame(front.item).value + front.rest
  {
    var length := FromBE(buffer[..4]);
    BEOfFromBE(buffer[..4]);
    assert BE32(length) == buffer[..4];
    assert buffer == buffer[..4] + buffer[4..4 + length] + buffer[4 + length..];
  }

  /** The encodings of the items, then a rest that is an incomplete frame, or starts with a length above the limit. */
  ghost predicate Accounts(buffer: bytes, d: Drained<bytes, FrameError>) {
    && buffer == FrameBytes(d.items) + d.rest
    && (forall i | 0 <= i < |d.items| :: |d.items[i]| <= MAX_FRAME_BYTES)
    && (if |d.rest| >= 4 && FromBE(d.rest[..4]) > MAX_FRAME_BYTES
        then d.fault == Some(FrameTooLarge(FromBE(d.rest[..4])))
        else d.fault.None? && (|d.rest| < 4 || |d.rest| < 4 + FromBE(d.rest[..4])))
  }

  lemma AccountsCons(frame: bytes, buffer: bytes, d: Drained<bytes, FrameError>)
    requires |frame| <= MAX_FRAME_BYTES && Accounts(buffer, d)
    ensures Accounts(EncodeFrame(frame).value + buffer, Drained([frame] + d.items, d.rest, d.fault))
  {
    hide BE32;
    assert ([frame] + d.items)[1..] == d.items;
    Regroup(EncodeFrame(frame).value, FrameBytes(d.items), d.rest);
  }

  lemma AccountsAtEnd(buffer: bytes)
    requires !NextFrame(buffer).Ready?
    ensures var front := NextFrame(buffer);
            Accounts(buffer, if front.More? then Drained([], buffer, None) else Drained([], front.rest, Some(front.fault)))
  {
    assert [] + buffer == buffer;
  }

  /** What a feed returns and keeps is the stream again, and its fault is the oversized length it stands at. */
  lemma {:induction false} FramesAccountForTheStream(buffer: bytes)
    ensures Stable(NextFrame)
    ensures Accounts(buffer, Drain(NextFrame, buffer))
    decreases |buffer|
  {
    FramesAreStable();
    hide Drain, NextFrame, Stable, FaultsStable, Accounts, EncodeFrame;
    DrainReady(NextFrame, buffer);
    var front := NextFrame(buffer);
    if front.Ready? {
      FrontIsEncoded(buffer);
      FramesAccountForTheStream(front.rest);
      AccountsCons(front.item, front.rest, Drain(NextFrame, front.rest));
    } else {
      AccountsAtEnd(buffer);
    }
  }

  lemma EncodedDecodes(payload: bytes)
    requires |payload| <= MAX_FRAME_BYTES
    ensures Stable(NextFrame)
    ensures Drain(NextFrame, EncodeFrame(payload).value) == Drained([payload], [], None)
  {
    FramesAreStable();
    EncodedFrameIsNext(payload, []);
    hide EncodeFrame, Stable;
    var b := EncodeFrame(payload).value;
    assert b + [] == b;
    assert Drain(NextFrame, []) == Drained([], [], None);
  }

  lemma OneFrameBytes(payload: bytes)
    requires |payload| <= MAX_FRAME_BYTES
    ensures FrameBytes([payload]) + [] == EncodeFrame(payload).value
  {
    hide BE32;
    assert [payload][1..] == [];
    assert FrameBytes([payload]) == (BE32(|payload|) + payload) + [];
  }

  /** The encoder gives exactly the bytes that decode to that one payload; a payload it refuses has none. */
  lemma EncodesWhatDecodes(payload: bytes, b: bytes)
    ensures Stable(NextFrame)
    ensures EncodeFrame(payload) == Ok(b) <==> Drain(NextFrame, b) == Drained([payload], [], None)
  {
    FramesAccountForTheStream(b);
    hide Drain, NextFrame, BE32, Stable, FrameBytes;
    var d := Drain(NextFrame, b);
    assert |d.items| == 1 ==> |d.items[0]| <= MAX_FRAME_BYTES;
    if |payload| <= MAX_FRAME_BYTES {
      EncodedDecodes(payload);
      OneFrameBytes(payload);
    }
  }
}

/** The newline-delimited lines of the agent stream. */
module Lines {
  import opened Bytes
  import opened IncrementalDecoding

  const MAX_LINE_BYTES: nat := 1024 * 1024
  const NEWLINE: byte := 10

  datatype LineError = LineTooLarge(size: nat) | LineNotUtf8

  /** Which byte strings are UTF-8; nothing below depends on the answer. */
  type Utf8 = bytes -> bool

  function EncodeLine(line: bytes): Result<bytes, LineError> {
    if |line| + 1 > MAX_LINE_BYTES then Err(LineTooLarge(|line| + 1)) else Ok(line + [NEWLINE])
  }

  /** The first newline, or the length when there is none. */
  function Position(buffer: bytes): (n: nat)
    ensures n <= |buffer| && (n < |buffer| ==> buffer[n] == NEWLINE)
    ensures forall i | 0 <= i < n :: buffer[i] != NEWLINE
  {
    if buffer == [] || buffer[0] == NEWLINE then 0 else 1 + Position(buffer[1..])
  }

  lemma PositionUnique(buffer: bytes, n: nat)
    requires n < |buffer| && buffer[n] == NEWLINE && forall i | 0 <= i < n :: buffer[i] != NEWLINE
    ensures Position(buffer) == n
  {
  }

  function NextLine(utf8: Utf8): bytes -> Front<bytes, LineError> {
    (buffer: bytes) => LineAtFront(utf8, buffer)
  }

  /** What one turn of the feed loop finds. A line that is not UTF-8 has already left the buffer. */
  function LineAtFront(utf8: Utf8, buffer: bytes): Front<bytes, LineError> {
    var n := Position(buffer);
    if n == |buffer| then
      if |buffer| > MAX_LINE_BYTES then Broken(LineTooLarge(|buffer|), buffer) else More
    else if n + 1 > MAX_LINE_BYTES then Broken(LineTooLarge(n + 1), buffer)
    else if utf8(buffer[..n]) then Ready(buffer[..n], buffer[n + 1..])
    else Broken(LineNotUtf8, buffer[n + 1..])
  }

  lemma PositionGrows(b: bytes, more: bytes)
    ensures Position(b) < |b| ==> Position(b + more) == Position(b)
    ensures Position(b) == |b| ==> Position(b + more) >= |b|
  {
    if Position(b) < |b| {
      PositionUnique(b + more, Position(b));
    } else {
      assert forall i | 0 <= i < |b| :: (b + more)[i] == b[i];
    }
  }

  /** The same kind of fault; with more bytes at hand an oversized line can only look larger. */
  predicate Grown(f: LineError, g: LineError) {
    if f.LineTooLarge? then g.LineTooLarge? && f.size <= g.size else g == f
  }

  lemma LineStep(utf8: Utf8, b: bytes, more: bytes)
    ensures LineAtFront(utf8, b).Ready? ==>
              LineAtFront(utf8, b + more) == Ready(LineAtFront(utf8, b).item, LineAtFront(utf8, b).rest + more)
    ensures LineAtFront(utf8, b).Broken? && LineAtFront(utf8, b).fault.LineTooLarge? ==>
              LineAtFront(utf8, b + more).Broken? && LineAtFront(utf8, b + more).rest == b + more
              && Grown(LineAtFront(utf8, b).fault, LineAtFront(utf8, b + more).fault)
    ensures LineAtFront(utf8, b).Broken? && LineAtFront(utf8, b).fault == LineNotUtf8 ==>
              LineAtFront(utf8, b + more) == Broken(LineNotUtf8, LineAtFront(utf8, b).rest + more)
  {
    PositionGrows(b, more);
    var n := Position(b);
    if n < |b| {
      assert (b + more)[..n] == b[..n];
      assert (b + more)[n + 1..] == b[n + 1..] + more;
    }
  }

  lemma LinesAreStable(utf8: Utf8)
    ensures Stable(NextLine(utf8)) && FaultsStable(NextLine(utf8), Grown)
  {
    forall b, more
      ensures LineAtFront(utf8, b).Ready? ==>
                LineAtFront(utf8, b + more) == Ready(LineAtFront(utf8, b).item, LineAtFront(utf8, b).rest + more)
      ensures LineAtFront(utf8, b).Broken? ==>
                LineAtFront(utf8, b + more).Broken? && Grown(LineAtFront(utf8, b).fault, LineAtFront(utf8, b + more).fault)
    {
      LineStep(utf8, b, more);
    }
  }

  lemma EncodedLineIsNext(utf8: Utf8, line: bytes, more: bytes)
    requires |line| + 1 <= MAX_LINE_BYTES && NEWLINE !in line && utf8(line)
    ensures LineAtFront(utf8, EncodeLine(line).value + more) == Ready(line, more)
  {
    var b := EncodeLine(line).value + more;
    PositionUnique(b, |line|);
    assert b[..|line|] == line;
    assert b[|line| + 1..] == more;
  }

  class LineDecoder {
    var buffer: bytes
    const utf8: Utf8

    constructor (utf8: Utf8)
      ensures buffer == [] && this.utf8 == utf8
    {
      buffer, this.utf8 := [], utf8;
    }

    method Feed(chunk: bytes) returns (r: Result<seq<bytes>, LineError>)
      modifies this
      ensures Stable(NextLine(utf8))
      ensures var d := Drain(NextLine(utf8), old(buffer) + chunk);
              buffer == d.rest && r == if d.fault.Some? then Err(d.fault.value) else Ok(d.items)
    {
      LinesAreStable(utf8);
      hide Stable, Drain, FaultsStable, Position;
      buffer := buffer + chunk;
      var lines: seq<bytes> := [];
      ghost var next := NextLine(utf8);
      ghost var whole := Drain(next, buffer);
      while true
        invariant whole.items == lines + Drain(next, buffer).items
        invariant whole.rest == Drain(next, buffer).rest && whole.fault == Drain(next, buffer).fault
        decreases |buffer|
      {
        DrainOneMore(next, lines, buffer);
        assert next(buffer) == LineAtFront(utf8, buffer);
        var newline := Position(buffer);
        if newline == |buffer| {
          if |buffer| > MAX_LINE_BYTES {
            return Err(LineTooLarge(|buffer|));
          }
          assert lines + [] == lines;
          return Ok(lines);
        }
        if newline + 1 > MAX_LINE_BYTES {
          return Err(LineTooLarge(newline + 1));
        }
        var line := buffer[..newline];
        buffer := buffer[newline + 1..];
        if !utf8(line) {
          return Err(LineNotUtf8);
        }
        lines := lines + [line];
      }
    }
  }

  /** Lines do not depend on the cut, and neither does the error, except that a cut may see less of an oversized line. */
  lemma LinesSurviveChunking(utf8: Utf8, chunks: seq<bytes>)
    ensures Stable(NextLine(utf8))
    ensures var cut := FeedAll(NextLine(utf8), [], chunks);
            var whole := Drain(NextLine(utf8), Concat(chunks));
            && (cut.fault.None? <==> whole.fault.None?)
            && (cut.fault.Some? ==> Grown(cut.fault.value, whole.fault.value))
            && (whole.fault.None? ==> cut == whole)
  {
    LinesAreStable(utf8);
    assert [] + Concat(chunks) == Concat(chunks);
    assert NextLine(utf8)([]) == More;
    ChunkingIsIrrelevant(NextLine(utf8), Grown, [], chunks);
  }

  lemma LinesRoundTrip(utf8: Utf8, lines: seq<bytes>, encoded: seq<bytes>, chunks: seq<bytes>)
    requires |lines| == |encoded|
    requires forall i | 0 <= i < |lines| ::
               EncodeLine(lines[i]) == Ok(encoded[i]) && NEWLINE !in lines[i] && utf8(lines[i])
    requires Concat(chunks) == Concat(encoded)
    ensures Stable(NextLine(utf8))
    ensures FeedAll(NextLine(utf8), [], chunks) == Drained(lines, [], None)
  {
    LinesAreStable(utf8);
    var next := NextLine(utf8);
    forall i, more | 0 <= i < |lines| ensures next(encoded[i] + more) == Ready(lines[i], more) {
      EncodedLineIsNext(utf8, lines[i], more);
    }
    DecodesEncodings(next, lines, encoded);
    LinesSurviveChunking(utf8, chunks);
  }

  // ---- when a failed decoder is poisoned ----

  /** What the decoder holds after feeding `chunks` one by one, whatever each feed reported, and the last report. */
  ghost function FeedOn(utf8: Utf8, kept: bytes, chunks: seq<bytes>): (bytes, Option<LineError>)
    requires Stable(NextLine(utf8)) && chunks != []
    decreases |chunks|
  {
    var d := Drain(NextLine(utf8), kept + chunks[0]);
    if |chunks| == 1 then (d.rest, d.fault) else FeedOn(utf8, d.rest, chunks[1..])
  }

  /** Every later feed fails. */
  ghost predicate Poisoned(utf8: Utf8, kept: bytes)
    requires Stable(NextLine(utf8))
  {
    forall chunks: seq<bytes> | chunks != [] :: FeedOn(utf8, kept, chunks).1.Some?
  }

  /** `MAX_LINE_BYTES` bytes without a newline and at least one more byte: some line, whole or trailing, is too large. */
  predicate HoldsOversize(buffer: bytes) {
    exists i | 0 <= i < |buffer| - MAX_LINE_BYTES :: OversizeAt(buffer, i)
  }

  predicate OversizeAt(buffer: bytes, i: nat)
    requires i + MAX_LINE_BYTES < |buffer|
  {
    NoNewline(buffer, i, MAX_LINE_BYTES)
  }

  /** With a front line within the limit, an oversized window lies wholly behind it. */
  lemma OversizeMovesOn(buffer: bytes)
    requires Position(buffer) < |buffer| && Position(buffer) + 1 <= MAX_LINE_BYTES && HoldsOversize(buffer)
    ensures HoldsOversize(buffer[Position(buffer) + 1..])
  {
    hide Position, NoNewline;
    var n := Position(buffer);
    var i :| 0 <= i < |buffer| - MAX_LINE_BYTES && OversizeAt(buffer, i);
    WindowMovesOn(buffer, n, i, MAX_LINE_BYTES);
    assert OversizeAt(buffer[n + 1..], i - (n + 1));
  }

  predicate NoNewline(buffer: bytes, i: nat, width: nat)
    requires i + width <= |buffer|
  {
    forall k | i <= k < i + width :: buffer[k] != NEWLINE
  }

  lemma WindowMovesOn(buffer: bytes, n: nat, i: nat, width: nat)
    requires n < |buffer| && buffer[n] == NEWLINE && n < width && i + width <= |buffer| && NoNewline(buffer, i, width)
    ensures n < i && NoNewline(buffer[n + 1..], i - (n + 1), width)
  {
    var rest := buffer[n + 1..];
    forall k | i - (n + 1) <= k < i - (n + 1) + width ensures rest[k] != NEWLINE {
      assert rest[k] == buffer[k + n + 1];
    }
  }

  lemma OversizeMovesBack(buffer: bytes, from: nat)
    requires from <= |buffer| && HoldsOversize(buffer[from..])
    ensures HoldsOversize(buffer)
  {
    hide NoNewline;
    var rest := buffer[from..];
    var i :| 0 <= i < |rest| - MAX_LINE_BYTES && OversizeAt(rest, i);
    WindowMovesBack(buffer, from, i, MAX_LINE_BYTES);
    assert OversizeAt(buffer, from + i);
  }

  lemma WindowMovesBack(buffer: bytes, from: nat, i: nat, width: nat)
    requires from <= |buffer| && i + width <= |buffer[from..]| && NoNewline(buffer[from..], i, width)
    ensures NoNewline(buffer, from + i, width)
  {
    forall k | from + i <= k < from + i + width ensures buffer[k] != NEWLINE {
      assert buffer[from..][k - from] == buffer[k];
    }
  }

  lemma OversizeAtFront(buffer: bytes)
    requires Position(buffer) >= MAX_LINE_BYTES && |buffer| > MAX_LINE_BYTES
    ensures HoldsOversize(buffer)
  {
    assert OversizeAt(buffer, 0);
  }

  lemma OversizeIsLong(buffer: bytes)
    ensures HoldsOversize(buffer) ==> |buffer| > MAX_LINE_BYTES
  {
  }

  /** The front line is too large, or the oversized line lies behind it. */
  lemma OversizeBehind(buffer: bytes)
    ensures var n := Position(buffer);
            HoldsOversize(buffer) <==>
              if n == |buffer| then |buffer| > MAX_LINE_BYTES
              else n + 1 > MAX_LINE_BYTES || HoldsOversize(buffer[n + 1..])
  {
    hide HoldsOversize, Position;
    var n := Position(buffer);
    OversizeIsLong(buffer);
    if n >= MAX_LINE_BYTES && |buffer| > MAX_LINE_BYTES {
      OversizeAtFront(buffer);
    } else if n < |buffer| {
      if HoldsOversize(buffer) {
        OversizeMovesOn(buffer);
      } else if HoldsOversize(buffer[n + 1..]) {
        OversizeMovesBack(buffer, n + 1);
      }
    }
  }

  lemma OversizeStays(buffer: bytes, more: bytes)
    requires HoldsOversize(buffer)
    ensures HoldsOversize(buffer + more)
  {
    var i :| 0 <= i < |buffer| - MAX_LINE_BYTES && OversizeAt(buffer, i);
    assert OversizeAt(buffer + more, i);
  }

  /** One feed fails and keeps the oversized line; without one it fails only by using up a line that is not UTF-8. */
  lemma {:induction false} DrainAndOversize(utf8: Utf8, buffer: bytes)
    requires Stable(NextLine(utf8))
    ensures var d := Drain(NextLine(utf8), buffer);
            && (HoldsOversize(buffer) ==> d.fault.Some?)
            && (d.fault.Some? ==> (HoldsOversize(d.rest) <==> HoldsOversize(buffer)))
            && (d.fault.Some? && !HoldsOversize(buffer) ==> d.fault == Some(LineNotUtf8) && |d.rest| < |buffer|)
    decreases |buffer|
  {
    OversizeBehind(buffer);
    hide HoldsOversize;
    var front := LineAtFront(utf8, buffer);
    assert NextLine(utf8)(buffer) == front;
    if front.Ready? {
      DrainAndOversize(utf8, front.rest);
    }
  }

  lemma {:induction false} OversizeFailsForever(utf8: Utf8, kept: bytes, chunks: seq<bytes>)
    requires Stable(NextLine(utf8)) && HoldsOversize(kept) && chunks != []
    ensures FeedOn(utf8, kept, chunks).1.Some?
    decreases |chunks|
  {
    hide HoldsOversize, Drain;
    OversizeStays(kept, chunks[0]);
    DrainAndOversize(utf8, kept + chunks[0]);
    if |chunks| > 1 {
      OversizeFailsForever(utf8, Drain(NextLine(utf8), kept + chunks[0]).rest, chunks[1..]);
    }
  }

  /** Otherwise empty feeds use up the lines that are not UTF-8 until one succeeds. */
  lemma {:induction false} EmptyFeedsRecover(utf8: Utf8, kept: bytes) returns (chunks: seq<bytes>)
    requires Stable(NextLine(utf8)) && !HoldsOversize(kept)
    ensures chunks != [] && FeedOn(utf8, kept, chunks).1.None?
    decreases |kept|
  {
    hide HoldsOversize, Drain;
    assert kept + [] == kept;
    DrainAndOversize(utf8, kept);
    var d := Drain(NextLine(utf8), kept);
    if d.fault.None? {
      chunks := [[]];
    } else {
      var later := EmptyFeedsRecover(utf8, d.rest);
      chunks := [[]] + later;
      assert chunks[1..] == later;
    }
  }

  /**
   A decoder that failed fails for good exactly when what it keeps holds a line above the limit, whole or
   trailing. An oversized line is itself kept, so it always poisons; a line that is not UTF-8 has left the
   buffer, and poisons only if an oversized one stands behind it.
   */
  lemma PoisonedIff(utf8: Utf8, kept: bytes)
    ensures Stable(NextLine(utf8))
    ensures Poisoned(utf8, kept) <==> HoldsOversize(kept)
  {
    LinesAreStable(utf8);
    hide HoldsOversize, Stable, FeedOn;
    if HoldsOversize(kept) {
      forall chunks: seq<bytes> | chunks != [] ensures FeedOn(utf8, kept, chunks).1.Some? {
        OversizeFailsForever(utf8, kept, chunks);
      }
    } else {
      var chunks := EmptyFeedsRecover(utf8, kept);
    }
  }

  /** After a failed feed: too large means poisoned, and not UTF-8 means exactly as oversized as the rest was. */
  lemma FailedFeedPoisonsIff(utf8: Utf8, buffer: bytes)
    ensures Stable(NextLine(utf8))
    ensures var d := Drain(NextLine(utf8), buffer);
            d.fault.Some? ==>
              && (Poisoned(utf8, d.rest) <==> HoldsOversize(buffer))
              && (d.fault.value.LineTooLarge? ==> Poisoned(utf8, d.rest))
  {
    LinesAreStable(utf8);
    DrainAndOversize(utf8, buffer);
    PoisonedIff(utf8, Drain(NextLine(utf8), buffer).rest);
    hide HoldsOversize, Stable, Drain, Poisoned;
  }

  /** Behind a line that is too large every later feed reports it again, no smaller, and keeps everything. */
  lemma TooLargeForever(utf8: Utf8, buffer: bytes, chunk: bytes)
    requires LineAtFront(utf8, buffer).Broken? && LineAtFront(utf8, buffer).fault.LineTooLarge?
    ensures Stable(NextLine(utf8))
    ensures var d := Drain(NextLine(utf8), buffer + chunk);
            d.items == [] && d.rest == buffer + chunk && d.fault.Some? && Grown(LineAtFront(utf8, buffer).fault, d.fault.value)
  {
    LinesAreStable(utf8);
    LineStep(utf8, buffer, chunk);
    assert NextLine(utf8)(buffer + chunk) == LineAtFront(utf8, buffer + chunk);
  }

  /** After one invalid line and a valid one behind it, the next feed returns the valid line. */
  lemma NotPoisonedExample(utf8: Utf8)
    requires !utf8([255]) && utf8([65])
    ensures Stable(NextLine(utf8))
    ensures var first := Drain(NextLine(utf8), [255, NEWLINE]);
            first == Drained([], [], Some(LineNotUtf8))
            && Drain(NextLine(utf8), first.rest + [65, NEWLINE]) == Drained([[65]], [], None)
  {
    LinesAreStable(utf8);
    var bad, good := [255, NEWLINE], [65, NEWLINE];
    PositionUnique(bad, 1);
    assert bad[..1] == [255] && bad[2..] == [];
    assert NextLine(utf8)(bad) == Broken(LineNotUtf8, []);
    PositionUnique(good, 1);
    assert good[..1] == [65] && good[2..] == [];
    assert [] + good == good;
    assert NextLine(utf8)(good) == Ready([65], []);
    assert NextLine(utf8)([]) == More;
  }

  // ---- every byte is accounted for ----

  /** Some lines, each with its newline. */
  function LineBytes(lines: seq<bytes>): bytes {
    if lines == [] then [] else lines[0] + [NEWLINE] + LineBytes(lines[1..])
  }

  /** The bytes a fault has used up: the line that is not UTF-8, with its newline. */
  ghost predicate UsedUp(utf8: Utf8, fault: Option<LineError>, lost: bytes) {
    if fault == Some(LineNotUtf8) then
      exists line: bytes :: lost == line + [NEWLINE] && NEWLINE !in line && !utf8(line)
    else lost == []
  }

  lemma FrontLineParts(buffer: bytes, n: nat)
    requires n < |buffer| && buffer[n] == NEWLINE && forall i | 0 <= i < n :: buffer[i] != NEWLINE
    ensures buffer == buffer[..n] + [NEWLINE] + buffer[n + 1..] && NEWLINE !in buffer[..n]
  {
    var line := buffer[..n];
    assert forall i | 0 <= i < n :: line[i] == buffer[i];
    assert buffer == line + [buffer[n]] + buffer[n + 1..];
  }

  /** The lines, what was used up and what is kept make up the buffer; every line is sound and within the limit. */
  ghost predicate Accounts(utf8: Utf8, buffer: bytes, d: Drained<bytes, LineError>, lost: bytes) {
    && buffer == LineBytes(d.items) + lost + d.rest && UsedUp(utf8, d.fault, lost)
    && (forall i | 0 <= i < |d.items| ::
          utf8(d.items[i]) && NEWLINE !in d.items[i] && |d.items[i]| + 1 <= MAX_LINE_BYTES)
    && (d.fault.None? ==> NEWLINE !in d.rest && |d.rest| <= MAX_LINE_BYTES)
  }

  lemma AccountsCons(utf8: Utf8, line: bytes, buffer: bytes, d: Drained<bytes, LineError>, lost: bytes)
    requires Accounts(utf8, buffer, d, lost) && utf8(line) && NEWLINE !in line && |line| + 1 <= MAX_LINE_BYTES
    ensures Accounts(utf8, line + [NEWLINE] + buffer, Drained([line] + d.items, d.rest, d.fault), lost)
  {
    hide UsedUp;
    OneLineMore(line, d.items, lost, d.rest);
    hide LineBytes;
  }

  /** What a feed returns, uses up and keeps is the stream again. */
  lemma {:induction false} LinesAccountForTheStream(utf8: Utf8, buffer: bytes) returns (lost: bytes)
    ensures Stable(NextLine(utf8))
    ensures Accounts(utf8, buffer, Drain(NextLine(utf8), buffer), lost)
    decreases |buffer|
  {
    LinesAreStable(utf8);
    hide Drain, Stable, FaultsStable, Accounts, LineAtFront;
    var next := NextLine(utf8);
    var front := LineAtFront(utf8, buffer);
    assert next(buffer) == front;
    DrainReady(next, buffer);
    if front.Ready? {
      lost := LinesAccountForTheStream(utf8, front.rest);
      ReadyLine(utf8, buffer);
      AccountsCons(utf8, front.item, front.rest, Drain(next, front.rest), lost);
    } else {
      lost := StuckLine(utf8, buffer);
    }
  }

  lemma ReadyLine(utf8: Utf8, buffer: bytes)
    requires LineAtFront(utf8, buffer).Ready?
    ensures var front := LineAtFront(utf8, buffer);
            && buffer == front.item + [NEWLINE] + front.rest
            && utf8(front.item) && NEWLINE !in front.item && |front.item| + 1 <= MAX_LINE_BYTES
  {
    hide Position;
    FrontLineParts(buffer, Position(buffer));
  }

  lemma OneLineMore(line: bytes, lines: seq<bytes>, lost: bytes, rest: bytes)
    ensures line + [NEWLINE] + (LineBytes(lines) + lost + rest) == LineBytes([line] + lines) + lost + rest
  {
    assert ([line] + lines)[1..] == lines;
    var l, b := line + [NEWLINE], LineBytes(lines);
    Regroup(l, b, lost);
    Regroup(l, b + lost, rest);
  }

  lemma NothingReturned(utf8: Utf8, buffer: bytes, rest: bytes, fault: Option<LineError>, lost: bytes)
    requires buffer == lost + rest && UsedUp(utf8, fault, lost)
    requires fault.None? ==> NEWLINE !in rest && |rest| <= MAX_LINE_BYTES
    ensures Accounts(utf8, buffer, Drained([], rest, fault), lost)
  {
    hide UsedUp;
    assert [] + lost == lost;
  }

  lemma InvalidIsUsedUp(utf8: Utf8, line: bytes)
    requires NEWLINE !in line && !utf8(line)
    ensures UsedUp(utf8, Some(LineNotUtf8), line + [NEWLINE])
  {
  }

  lemma StuckLine(utf8: Utf8, buffer: bytes) returns (lost: bytes)
    requires !LineAtFront(utf8, buffer).Ready?
    ensures var front := LineAtFront(utf8, buffer);
            Accounts(utf8, buffer, if front.More? then Drained([], buffer, None) else Drained([], front.rest, Some(front.fault)), lost)
  {
    hide Position, Accounts;
    var front, n := LineAtFront(utf8, buffer), Position(buffer);
    if front.Broken? && front.fault == LineNotUtf8 {
      FrontLineParts(buffer, n);
      hide UsedUp;
      lost := buffer[..n] + [NEWLINE];
      InvalidIsUsedUp(utf8, buffer[..n]);
      NothingReturned(utf8, buffer, front.rest, Some(front.fault), lost);
    } else {
      lost := [];
      assert [] + buffer == buffer;
      NothingReturned(utf8, buffer, buffer, if front.More? then None else Some(front.fault), lost);
    }
  }

  lemma OneLineBytes(line: bytes)
    ensures LineBytes([line]) + [] + [] == line + [NEWLINE]
  {
    assert [line][1..] == [];
    assert LineBytes([line]) == line + [NEWLINE] + [];
  }

  /** For a sound line the encoder gives exactly the bytes that decode to it; a line it refuses has none. */
  lemma EncodesWhatDecodes(utf8: Utf8, line: bytes, b: bytes)
    requires utf8(line) && NEWLINE !in line
    ensures Stable(NextLine(utf8))
    ensures EncodeLine(line) == Ok(b) <==> Drain(NextLine(utf8), b) == Drained([line], [], None)
  {
    var lost := LinesAccountForTheStream(utf8, b);
    hide Drain, Stable, LineBytes;
    var d := Drain(NextLine(utf8), b);
    assert |d.items| == 1 ==> |d.items[0]| + 1 <= MAX_LINE_BYTES;
    OneLineBytes(line);
    if |line| + 1 <= MAX_LINE_BYTES {
      EncodedDecodes(utf8, line);
    }
  }

  lemma EncodedDecodes(utf8: Utf8, line: bytes)
    requires utf8(line) && NEWLINE !in line && |line| + 1 <= MAX_LINE_BYTES
    ensures Stable(NextLine(utf8))
    ensures Drain(NextLine(utf8), EncodeLine(line).value) == Drained([line], [], None)
  {
    LinesAreStable(utf8);
    EncodedLineIsNext(utf8, line, []);
    var b := EncodeLine(line).value;
    assert b + [] == b;
    assert NextLine(utf8)(b) == Ready(line, []);
    assert NextLine(utf8)([]) == More;
  }
}
