/** The frame codec of the VSOCK link and the two byte loops around it:
    vm-agent/src/vsock/protocol.rs and the read and write arms of
    `run_io_loop` in vm-agent/src/vsock/stream.rs. */
module VsockProtocol {
  import opened Bytes
  import opened Framing

  datatype FrameType =
    | Data | Connect | Fin | Rst | ReverseRequest | ReverseResponse
    | TtyData | TtyResize | DnsRequest | DnsResponse | HostConnect | WindowUpdate

  datatype Frame = Frame(streamId: u32, frameType: FrameType, payload: seq<byte>)

  datatype Decoded = Ok(frame: Frame) | Err

  const HEADER_SIZE := 9

  function Code(t: FrameType): byte {
    match t
    case Data => 0x01
    case Connect => 0x02
    case Fin => 0x03
    case Rst => 0x04
    case ReverseRequest => 0x05
    case ReverseResponse => 0x06
    case TtyData => 0x07
    case TtyResize => 0x08
    case DnsRequest => 0x09
    case DnsResponse => 0x0A
    case HostConnect => 0x0B
    case WindowUpdate => 0x0C
  }

  function TypeOf(b: byte): Option<FrameType> {
    match b
    case 0x01 => Some(Data)
    case 0x02 => Some(Connect)
    case 0x03 => Some(Fin)
    case 0x04 => Some(Rst)
    case 0x05 => Some(ReverseRequest)
    case 0x06 => Some(ReverseResponse)
    case 0x07 => Some(TtyData)
    case 0x08 => Some(TtyResize)
    case 0x09 => Some(DnsRequest)
    case 0x0A => Some(DnsResponse)
    case 0x0B => Some(HostConnect)
    case 0x0C => Some(WindowUpdate)
    case _ => None
  }

  predicate Terminal(f: Frame) { f.frameType.Fin? || f.frameType.Rst? }

  /** The payload length is written as a `u32`: a longer payload has its length truncated. */
  function Encode(f: Frame): seq<byte> {
    Be(f.streamId, 4) + [Code(f.frameType)] + Be(|f.payload|, 4) + f.payload
  }

  function U32At(buf: seq<byte>, i: nat): (n: u32)
    requires i + 4 <= |buf|
  {
    BeValBound(buf[i..i + 4]);
    FieldBounds();
    BeVal(buf[i..i + 4])
  }

  function Decode(buf: seq<byte>): Decoded {
    if |buf| < HEADER_SIZE then Err
    else if TypeOf(buf[4]).None? then Err
    else
      var length := U32At(buf, 5);
      if |buf| - HEADER_SIZE < length then Err
      else Ok(Frame(U32At(buf, 0), TypeOf(buf[4]).value, buf[HEADER_SIZE..HEADER_SIZE + length]))
  }

  /** One turn of the inner read loop. A byte that is no frame type stops the turn
      without consuming anything; a decoding error would end the whole I/O task. */
  function NextFrame(buf: seq<byte>): Outcome<Frame> {
    if |buf| < HEADER_SIZE then NeedMore
    else if TypeOf(buf[4]).None? then NeedMore
    else
      var total := HEADER_SIZE + U32At(buf, 5);
      if |buf| < total then NeedMore
      else match Decode(buf[..total])
        case Ok(f) => Item(f, total)
        case Err => Fail
  }

  predicate Encodable(f: Frame) { |f.payload| < 0x1_0000_0000 }

  lemma EncodeLayout(f: Frame, x: seq<byte>)
    ensures var b := Encode(f) + x;
      && |Encode(f)| == HEADER_SIZE + |f.payload|
      && b[..4] == Be(f.streamId, 4) && b[4] == Code(f.frameType)
      && b[5..9] == Be(|f.payload|, 4) && b[9..] == f.payload + x
      && b[9..9 + |f.payload|] == f.payload
      && b[..|Encode(f)|] == Encode(f)
      && TypeOf(b[4]) == Some(f.frameType)
  {
    Layout(Be(f.streamId, 4), Code(f.frameType), Be(|f.payload|, 4), f.payload, x);
    assert TypeOf(Code(f.frameType)) == Some(f.frameType);
  }

  lemma Layout(id: seq<byte>, code: byte, length: seq<byte>, payload: seq<byte>, x: seq<byte>)
    requires |id| == 4 && |length| == 4
    ensures var e := id + [code] + length + payload;
      var b := e + x;
      && |e| == HEADER_SIZE + |payload| && b[..4] == id && b[4] == code && b[5..9] == length
      && b[9..] == payload + x && b[9..9 + |payload|] == payload && b[..|e|] == e
  {
  }

  /** Decoding what was encoded, with anything after it, gives the frame back
      exactly when its payload fits the length field. */
  lemma DecodeInvertsEncode(f: Frame, x: seq<byte>)
    ensures Decode(Encode(f) + x) == Ok(f) <==> Encodable(f)
  {
    var b := Encode(f) + x;
    EncodeLayout(f, x);
    FieldBounds();
    BeRoundTrip(f.streamId, 4);
    assert b[0..4] == b[..4];
    if Encodable(f) {
      BeRoundTrip(|f.payload|, 4);
    } else {
      BeValBound(b[5..9]);
    }
  }

  /** The loop's own checks make `Decode` succeed, so the early return that would
      skip the clean-up is never taken. */
  lemma DecodeNeverFails(buf: seq<byte>)
    ensures !NextFrame(buf).Fail?
  {
    if |buf| >= HEADER_SIZE && TypeOf(buf[4]).Some? && |buf| >= HEADER_SIZE + U32At(buf, 5) {
      var cut := buf[..HEADER_SIZE + U32At(buf, 5)];
      assert cut[5..9] == buf[5..9];
    }
  }

  lemma NextFrameIncremental()
    ensures Incremental(NextFrame) && NextFrame([]).NeedMore?
  {
    forall b, x ensures Decided(NextFrame, b, x) {
      if !NextFrame(b).NeedMore? {
        assert (b + x)[5..9] == b[5..9];
        var total := HEADER_SIZE + U32At(b, 5);
        assert (b + x)[..total] == b[..total];
      }
    }
    forall b ensures NextFrame(b).Item? ==> 0 < NextFrame(b).used <= |b| {
    }
  }

  lemma NextFrameRecognises()
    ensures Recognises(NextFrame, Encode, Encodable)
  {
    forall f, x | Encodable(f) ensures Recognised(NextFrame, Encode, f, x) {
      var b := Encode(f) + x;
      EncodeLayout(f, x);
      FieldBounds();
      BeRoundTrip(|f.payload|, 4);
      DecodeInvertsEncode(f, []);
      assert Encode(f) + [] == Encode(f);
      assert b[..HEADER_SIZE + |f.payload|] == Encode(f);
    }
  }

  // ----- when the reader stalls -----

  /** The type byte is there and is none of the known ones. */
  predicate BadType(buf: seq<byte>) { 4 < |buf| && TypeOf(buf[4]).None? }

  function Zeros(n: nat): seq<byte> { seq(n, _ => 0) }

  /** What makes a complete header of a buffer whose type byte is good or still to come. */
  function HeaderPadding(buf: seq<byte>): seq<byte> {
    if |buf| <= 4 then Zeros(4 - |buf|) + [Code(Data)] + Zeros(4)
    else if |buf| < HEADER_SIZE then Zeros(HEADER_SIZE - |buf|) else []
  }

  lemma PaddedHeader(buf: seq<byte>)
    requires !BadType(buf)
    ensures var h := buf + HeaderPadding(buf); |h| >= HEADER_SIZE && TypeOf(h[4]).Some?
  {
  }

  lemma HeaderThenPayload(h: seq<byte>)
    requires |h| >= HEADER_SIZE && TypeOf(h[4]).Some?
    ensures NextFrame(h + Zeros(U32At(h, 5))).Item?
  {
    var b := h + Zeros(U32At(h, 5));
    assert b[5..9] == h[5..9];
    DecodeNeverFails(b);
  }

  /** Without a bad type byte some continuation completes a frame. */
  lemma GoodTypeCanComplete(buf: seq<byte>) returns (more: seq<byte>)
    requires !BadType(buf)
    ensures NextFrame(buf + more).Item?
  {
    var h := buf + HeaderPadding(buf);
    PaddedHeader(buf);
    HeaderThenPayload(h);
    more := HeaderPadding(buf) + Zeros(U32At(h, 5));
    assert buf + more == h + Zeros(U32At(h, 5));
  }

  /** A buffer that holds no complete frame never will, whatever arrives, if and only if
      its type byte is there and unknown. */
  lemma StallsIffBadType(buf: seq<byte>)
    requires NextFrame(buf).NeedMore?
    ensures (forall more: seq<byte> :: NextFrame(buf + more).NeedMore?) <==> BadType(buf)
  {
    if BadType(buf) {
      forall more: seq<byte> ensures NextFrame(buf + more).NeedMore? {
        assert (buf + more)[4] == buf[4];
      }
    } else {
      var more := GoodTypeCanComplete(buf);
      assert NextFrame(buf + more).Item?;
    }
  }

  /** For the reader loop between two reads: it never delivers a frame again, whatever it
      reads, if and only if the type byte it buffers is unknown; and then it keeps every
      byte. */
  lemma ReaderStallsIffBadType(p: Progress<Frame>)
    requires !p.failed && NextFrame(p.rest).NeedMore?
    ensures Incremental(NextFrame)
    ensures (forall more: seq<byte> :: Feed(NextFrame, p, more).items == p.items) <==> BadType(p.rest)
    ensures BadType(p.rest) ==>
      forall more: seq<byte> :: Feed(NextFrame, p, more) == Progress(p.items, p.rest + more, false)
  {
    NextFrameIncremental();
    if BadType(p.rest) {
      forall more: seq<byte> ensures Feed(NextFrame, p, more) == Progress(p.items, p.rest + more, false) {
        assert (p.rest + more)[4] == p.rest[4];
        assert p.items + [] == p.items;
      }
    } else {
      var more := GoodTypeCanComplete(p.rest);
      assert |Feed(NextFrame, p, more).items| > |p.items|;
    }
  }

  // ----- the read arm -----

  lemma NextIsDecoded(buf: seq<byte>)
    requires |buf| >= HEADER_SIZE && TypeOf(buf[4]).Some? && |buf| >= HEADER_SIZE + U32At(buf, 5)
    ensures var total := HEADER_SIZE + U32At(buf, 5);
      Decode(buf[..total]).Ok? && NextFrame(buf) == Item(Decode(buf[..total]).frame, total)
  {
    DecodeNeverFails(buf);
  }

  lemma DrainStep(frames: seq<Frame>, f: Frame, buf: seq<byte>, n: nat)
    requires Incremental(NextFrame) && NextFrame(buf) == Item(f, n) && n <= |buf|
    ensures var d, e := Drain(NextFrame, buf), Drain(NextFrame, buf[n..]);
      frames + d.items == (frames + [f]) + e.items && d.rest == e.rest && d.failed == e.failed
  {
    ConcatAssoc(frames, [f], Drain(NextFrame, buf[n..]).items);
  }

  /** The read arm: append `data` to the buffer and decode while a frame is complete. */
  method ReadFrames(pending: seq<byte>, data: seq<byte>) returns (frames: seq<Frame>, buf: seq<byte>)
    ensures Incremental(NextFrame)
    ensures Feed(NextFrame, Progress([], pending, false), data) == Progress(frames, buf, false)
  {
    NextFrameIncremental();
    buf := pending + data;
    frames := [];
    ghost var whole := Drain(NextFrame, buf);
    assert frames + whole.items == whole.items;
    while true
      invariant var d := Drain(NextFrame, buf);
        whole == Progress(frames + d.items, d.rest, d.failed)
      decreases |buf|
    {
      if |buf| < HEADER_SIZE || TypeOf(buf[4]).None? {
        break;
      }
      var total := HEADER_SIZE + U32At(buf, 5);
      if |buf| < total {
        break;
      }
      NextIsDecoded(buf);
      var frameBytes := buf[..total];
      match Decode(frameBytes) {
        case Ok(f) =>
          DrainStep(frames, f, buf, total);
          frames := frames + [f];
          buf := buf[total..];
        case Err =>
          assert false;
      }
    }
    assert frames + [] == frames;
    assert [] + whole.items == whole.items;
  }

  // ----- the write arm -----

  /** What the write arm may put in one physical write: frames are added only while
      the bytes before them stay under the cap. */
  ghost predicate ValidBatch(cap: nat, batch: seq<Frame>) {
    |batch| >= 1 && (|batch| > 1 ==> |EncodeAll(Encode, batch[..|batch| - 1])| < cap)
  }

  /** The write arm on the frames `queue` holds: takes the first and then more until
      the cap is reached or the queue is empty. */
  method FillBatch(cap: nat, queue: seq<Frame>) returns (combined: seq<byte>, n: nat)
    requires queue != []
    ensures 1 <= n <= |queue|
    ensures combined == EncodeAll(Encode, queue[..n])
    ensures ValidBatch(cap, queue[..n])
    ensures n == |queue| || |combined| >= cap
  {
    combined := Encode(queue[0]);
    n := 1;
    assert queue[..1] == [queue[0]];
    while |combined| < cap && n < |queue|
      invariant 1 <= n <= |queue|
      invariant combined == EncodeAll(Encode, queue[..n])
      invariant ValidBatch(cap, queue[..n])
      decreases |queue| - n
    {
      assert queue[..n + 1] == queue[..n] + [queue[n]];
      assert queue[..n + 1][..n] == queue[..n];
      EncodeAllAppend(Encode, queue[..n], [queue[n]]);
      assert EncodeAll(Encode, [queue[n]]) == Encode(queue[n]);
      combined := combined + Encode(queue[n]);
      n := n + 1;
    }
  }

  ghost function WireBytes(batches: seq<seq<Frame>>): seq<byte> {
    if batches == [] then [] else WireBytes(batches[..|batches| - 1]) + EncodeAll(Encode, batches[|batches| - 1])
  }

  lemma {:induction false} BatchingKeepsBytes(batches: seq<seq<Frame>>)
    ensures WireBytes(batches) == EncodeAll(Encode, Concat(batches))
  {
    if batches == [] {
    } else {
      BatchingKeepsBytes(batches[..|batches| - 1]);
      EncodeAllAppend(Encode, Concat(batches[..|batches| - 1]), batches[|batches| - 1]);
    }
  }

  /** Every batching by the sender and every cutting by the transport: the reader
      decodes exactly the frames sent, in order, with nothing left over. */
  lemma LinkDeliversFrames(batches: seq<seq<Frame>>, chunks: seq<seq<byte>>)
    requires forall f :: f in Concat(batches) ==> Encodable(f)
    requires Concat(chunks) == WireBytes(batches)
    ensures Incremental(NextFrame)
    ensures FeedAll(NextFrame, chunks) == Progress(Concat(batches), [], false)
  {
    NextFrameIncremental();
    NextFrameRecognises();
    BatchingKeepsBytes(batches);
    AnyChunkingDeliversAll(NextFrame, Encode, Encodable, Concat(batches), chunks);
  }

  /** While a transfer is still under way: whatever part of the bytes has arrived, the
      frames decoded so far are the first ones sent. */
  lemma LinkDeliversPrefix(sent: seq<Frame>, received: seq<byte>)
    requires forall f :: f in sent ==> Encodable(f)
    requires received <= EncodeAll(Encode, sent)
    ensures Incremental(NextFrame)
    ensures Drain(NextFrame, received).items <= sent
  {
    NextFrameIncremental();
    NextFrameRecognises();
    var wire := EncodeAll(Encode, sent);
    DrainEncoded(NextFrame, Encode, Encodable, sent, []);
    assert wire + [] == wire && sent + [] == sent;
    DrainAppend(NextFrame, received, wire[|received|..]);
    assert received + wire[|received|..] == wire;
  }

  /** For arbitrary bytes, two cuts of the same stream are decoded alike. */
  lemma DecodingDependsOnBytesOnly(chunks: seq<seq<byte>>, chunks': seq<seq<byte>>)
    requires Concat(chunks) == Concat(chunks')
    ensures Incremental(NextFrame)
    ensures FeedAll(NextFrame, chunks) == FeedAll(NextFrame, chunks')
    ensures !FeedAll(NextFrame, chunks).failed
  {
    NextFrameIncremental();
    ChunkingIrrelevant(NextFrame, chunks);
    ChunkingIrrelevant(NextFrame, chunks');
    DrainNeverFails(Concat(chunks));
  }

  lemma {:induction false} DrainNeverFails(buf: seq<byte>)
    ensures Incremental(NextFrame)
    ensures !Drain(NextFrame, buf).failed
    decreases |buf|
  {
    NextFrameIncremental();
    DecodeNeverFails(buf);
    if !NextFrame(buf).Item? {
    } else {
      DrainNeverFails(buf[NextFrame(buf).used..]);
    }
  }
}
