/** Runs in which a request goes to the other side, its reply comes back, and then the close,
    so that the statements about both ends speak of something. Either side may open. */
module MuxWitness {
  import opened Bytes
  import opened Framing
  import opened VsockProtocol
  import opened Runs
  import opened Multiplexer
  import opened MuxReceive
  import opened MuxSend
  import opened MuxRuns
  import opened MuxLink
  import opened MuxEndToEnd

  const BOTH := (true, true)

  function SideOf(mac: bool, host: bool): Side { if host then Host(mac) else Guest }

  /** The pair of an opener and an acceptor. */
  function Joint(byHost: bool, a: State, b: State): Pair { if byHost then Pair(b, a) else Pair(a, b) }

  ghost predicate Together(mac: bool, byHost: bool, a: State, b: State) { Joined(mac, BOTH, Joint(byHost, a, b)) }

  lemma OpenerStep(mac: bool, byHost: bool, a: State, b: State, step: Step) returns (c: State)
    requires Together(mac, byHost, a, b) && Enabled(a, step) && Allowed(a, b, step)
    ensures c == Apply(a, step) && Together(mac, byHost, c, b)
  {
    c := Apply(a, step);
    assert Moved(a, b, c);
    StepIsReachable(Start(mac, BOTH), PairNext, Joint(byHost, a, b), Joint(byHost, c, b));
  }

  /** The acceptor of a pair is the opener of the pair turned round. */
  lemma TurnedRound(mac: bool, byHost: bool, a: State, b: State)
    ensures Together(mac, byHost, a, b) <==> Together(mac, !byHost, b, a)
  {
  }

  predicate OpeningFrame(byHost: bool, f: Frame) {
    && f.streamId == (if byHost then 1 else 2) && Encodable(f)
    && if byHost then f.frameType.Connect? else f.frameType.ReverseRequest? || f.frameType.DnsRequest? || f.frameType.HostConnect?
  }

  predicate DataFrame(id: u32, f: Frame) { f.streamId == id && f.frameType.Data? && Encodable(f) }

  /** The opener's stream, and the acceptor's. */
  function Opener(id: u32, written: seq<byte>): VirtualStream { Fresh(id, false, 0).(usable := true, written := written) }

  function Acceptor(id: u32, inbox: seq<Frame>): VirtualStream { Fresh(id, true, 0).(usable := true, inbox := inbox) }

  // ----- sending -----

  lemma OpenerOpens(mac: bool, byHost: bool, f: Frame) returns (a: State, b: State)
    requires OpeningFrame(byHost, f)
    ensures Together(mac, byHost, a, b) && b == Init(Setup(SideOf(mac, !byHost), true))
    ensures a.setup == Setup(SideOf(mac, byHost), true) && a.ids.issued == 1
    ensures a.table == map[f.streamId := 0] && a.streams == [Opener(f.streamId, [])] && a.closing == {}
    ensures a.out == Outbound([f], false, [(0, f)], [], []) && a.inp == Inbound([], [], []) && a.pc == Waiting
  {
    StartIsReachable(Start(mac, BOTH), PairNext);
    a, b := Init(Setup(SideOf(mac, byHost), true)), Init(Setup(SideOf(mac, !byHost), true));
    a := OpenerStep(mac, byHost, a, b, Allocate);
    a := OpenerStep(mac, byHost, a, b, Register(f.streamId));
    assert a.streams == [Fresh(f.streamId, false, 0)];
    a := OpenerStep(mac, byHost, a, b, SendOpening(0, f));
  }

  /** `w` is written to the only stream. */
  lemma Writes(mac: bool, byHost: bool, a: State, b: State, w: Frame) returns (c: State)
    requires Together(mac, byHost, a, b) && |a.streams| == 1 && Enabled(a, Write(0, w)) && Encodable(w) && a.streams[0].written == []
    ensures Together(mac, byHost, c, b)
    ensures c == a.(streams := [a.streams[0].(written := w.payload)],
                    out := a.out.(queue := a.out.queue + [w], log := a.out.log + [(0, w)]))
  {
    assert [] + w.payload == w.payload;
    c := OpenerStep(mac, byHost, a, b, Write(0, w));
  }

  /** Two frames go out, in one batch, or in two when the first alone fills one. */
  lemma SendsTwo(mac: bool, byHost: bool, a: State, b: State, f: Frame, w: Frame) returns (c: State)
    requires Together(mac, byHost, a, b) && a.pc == Waiting
    requires a.out == Outbound([f, w], false, [(0, f), (0, w)], [], [])
    ensures Together(mac, byHost, c, b) && c == a.(out := Outbound([], false, [(0, f), (0, w)], [f, w], []))
  {
    c := OpenerStep(mac, byHost, a, b, TakeFirst);
    assert c.out.queue == [w] && c.pc.batch == [f];
    if |EncodeAll(Encode, [f])| < BatchCap(a.setup.side) {
      c := SendsTogether(mac, byHost, c, b, f, w);
    } else {
      c := SendsInTurn(mac, byHost, c, b, f, w);
    }
  }

  lemma SendsTogether(mac: bool, byHost: bool, a: State, b: State, f: Frame, w: Frame) returns (c: State)
    requires Together(mac, byHost, a, b) && a.pc == Filling([f]) && |EncodeAll(Encode, [f])| < BatchCap(a.setup.side)
    requires a.out == Outbound([w], false, [(0, f), (0, w)], [], [])
    ensures Together(mac, byHost, c, b) && c == a.(out := Outbound([], false, [(0, f), (0, w)], [f, w], []), pc := Waiting)
  {
    c := OpenerStep(mac, byHost, a, b, TakeMore);
    assert c.pc.batch == [f, w] && c.out.queue == [];
    c := OpenerStep(mac, byHost, c, b, WriteBatch);
  }

  lemma SendsInTurn(mac: bool, byHost: bool, a: State, b: State, f: Frame, w: Frame) returns (c: State)
    requires Together(mac, byHost, a, b) && a.pc == Filling([f]) && |EncodeAll(Encode, [f])| >= BatchCap(a.setup.side)
    requires a.out == Outbound([w], false, [(0, f), (0, w)], [], [])
    ensures Together(mac, byHost, c, b) && c == a.(out := Outbound([], false, [(0, f), (0, w)], [f, w], []), pc := Waiting)
  {
    c := OpenerStep(mac, byHost, a, b, WriteBatch);
    assert [] + [f] == [f];
    c := OpenerStep(mac, byHost, c, b, TakeFirst);
    assert c.out.queue == [] && c.pc.batch == [w];
    c := OpenerStep(mac, byHost, c, b, WriteBatch);
    assert [f] + [w] == [f, w];
  }

  // ----- hearing -----

  lemma OneFrame(f: Frame)
    ensures EncodeAll(Encode, [f]) == Encode(f)
  {
    assert EncodeAll(Encode, [f]) == Encode(f) + EncodeAll(Encode, [f][1..]);
  }

  lemma TwoFrames(f: Frame, w: Frame)
    requires Encodable(f) && Encodable(w)
    ensures var x, y := Encode(f), Encode(w);
      NextFrame(x + y) == Item(f, |x|) && (x + y)[|x|..] == y && NextFrame(y) == Item(w, |y|) && y[|y|..] == []
    ensures NextFrame([]).NeedMore?
  {
    NextFrameRecognises();
    assert Recognised(NextFrame, Encode, f, Encode(w)) && Recognised(NextFrame, Encode, w, []);
    assert Encode(w) + [] == Encode(w);
  }

  lemma TwoEncoded(f: Frame, w: Frame)
    ensures EncodeAll(Encode, [f, w]) == Encode(f) + Encode(w)
  {
    assert [f, w][1..] == [w];
    OneFrame(w);
  }

  lemma Reads(mac: bool, byHost: bool, a: State, b: State, bytes: seq<byte>) returns (c: State)
    requires Together(mac, byHost, a, b) && a.pc == Waiting && a.inp == Inbound([], [], [])
    requires bytes <= EncodeAll(Encode, OnWire(b))
    ensures Together(mac, byHost, c, b) && c == a.(inp := Inbound(bytes, bytes, []), pc := Decoding)
  {
    assert [] + bytes == bytes;
    c := OpenerStep(mac, byHost, a, b, ReadChunk(bytes));
  }

  lemma Admits(mac: bool, byHost: bool, a: State, b: State, f: Frame, n: nat) returns (c: State)
    requires Together(mac, byHost, a, b) && OpeningFrame(!byHost, f) && a.setup == Setup(SideOf(mac, byHost), true)
    requires a.table == map[] && a.streams == [] && a.inp.decoded == [] && a.pc == Decoding
    requires NextFrame(a.inp.buf) == Item(f, n) && n <= |a.inp.buf|
    ensures Together(mac, byHost, c, b)
    ensures c == a.(inp := Consumed(a.inp, f, n), table := map[f.streamId := 0], streams := [Fresh(f.streamId, true, 0)], pc := Offering(f, 0))
  {
    c := OpenerStep(mac, byHost, a, b, Turn);
    assert c == a.(inp := Consumed(a.inp, f, n), pc := Admitting(f));
    c := Enters(mac, byHost, c, b, f);
  }

  lemma Enters(mac: bool, byHost: bool, a: State, b: State, f: Frame) returns (c: State)
    requires Together(mac, byHost, a, b) && a.inp.decoded == [f] && a.pc == Admitting(f)
    requires a.table == map[] && a.streams == []
    ensures Together(mac, byHost, c, b)
    ensures c == a.(table := map[f.streamId := 0], streams := [Fresh(f.streamId, true, 0)], pc := Offering(f, 0))
  {
    c := OpenerStep(mac, byHost, a, b, Admit);
  }

  lemma Greets(mac: bool, byHost: bool, a: State, b: State, f: Frame) returns (c: State)
    requires Together(mac, byHost, a, b) && a.streams == [Fresh(f.streamId, true, 0)] && a.pc == Offering(f, 0)
    ensures Together(mac, byHost, c, b) && c == a.(streams := [Acceptor(f.streamId, [f])], pc := Decoding)
  {
    c := OpenerStep(mac, byHost, a, b, Accept);
    assert c.streams == [Acceptor(f.streamId, [])] && c.pc == Greeting(f, 0);
    assert [] + [f] == [f];
    c := OpenerStep(mac, byHost, c, b, Greet);
  }

  /** The next frame in the buffer goes to the only stream; after a Fin the entry goes. */
  lemma Delivers(mac: bool, byHost: bool, a: State, b: State, w: Frame, n: nat) returns (c: State)
    requires Together(mac, byHost, a, b) && a.table == map[w.streamId := 0] && |a.streams| == 1 && a.pc == Decoding
    requires NextFrame(a.inp.buf) == Item(w, n) && n <= |a.inp.buf| && (w.frameType.Data? || w.frameType.Fin?)
    requires a.streams[0].rxOpen && InboxRoom(a.streams[0])
    ensures Together(mac, byHost, c, b)
    ensures c == a.(inp := Consumed(a.inp, w, n), streams := [a.streams[0].(inbox := a.streams[0].inbox + [w])],
                    pc := if w.frameType.Fin? then Forgetting(w.streamId) else Decoding)
  {
    c := OpenerStep(mac, byHost, a, b, Turn);
    assert c.pc == Delivering(w, 0);
    c := OpenerStep(mac, byHost, c, b, Deliver);
  }

  lemma AcceptorHears(mac: bool, byHost: bool, a: State, b: State, f: Frame, w: Frame) returns (c: State)
    requires Together(mac, byHost, a, b) && OpeningFrame(!byHost, f) && DataFrame(f.streamId, w)
    requires a == Init(Setup(SideOf(mac, byHost), true)) && OnWire(b) == [f, w]
    ensures Together(mac, byHost, c, b) && c.setup == a.setup && c.streams == [Acceptor(f.streamId, [f, w])]
    ensures c.pc == Waiting && c.out == Outbound([], false, [], [], []) && c.closing == {}
  {
    var x, y := Encode(f), Encode(w);
    TwoFrames(f, w);
    TwoEncoded(f, w);
    c := Reads(mac, byHost, a, b, x + y);
    c := Admits(mac, byHost, c, b, f, |x|);
    c := Greets(mac, byHost, c, b, f);
    assert [f] + [w] == [f, w];
    c := Delivers(mac, byHost, c, b, w, |y|);
    c := OpenerStep(mac, byHost, c, b, Turn);
  }

  // ----- the reply, and the end -----

  /** The acceptor writes `r`, closes, and both frames go out. */
  lemma RepliesAndCloses(mac: bool, byHost: bool, a: State, b: State, id: u32, inbox: seq<Frame>, r: Frame) returns (c: State)
    requires Together(mac, byHost, a, b) && DataFrame(id, r) && Sendable(a.setup.side, r) && a.pc == Waiting
    requires a.streams == [Acceptor(id, inbox)] && a.out == Outbound([], false, [], [], []) && a.closing == {}
    ensures Together(mac, byHost, c, b) && OnWire(c) == [r, Frame(id, Fin, [])]
    ensures c.streams == [Acceptor(id, inbox).(written := r.payload, closed := true)]
  {
    var fin := Frame(id, Fin, []);
    c := Writes(mac, byHost, a, b, r);
    assert c.out.queue == [r] && c.out.log == [(0, r)];
    c := Closes(mac, byHost, c, b);
    assert c.out.queue == [r, fin] && c.out.log == [(0, r), (0, fin)];
    c := SendsTwo(mac, byHost, c, b, r, fin);
  }

  lemma Closes(mac: bool, byHost: bool, a: State, b: State) returns (c: State)
    requires Together(mac, byHost, a, b) && |a.streams| == 1 && a.streams[0].usable && !a.streams[0].closed && a.closing == {}
    requires |a.out.queue| < 64 && !a.out.shut
    ensures Together(mac, byHost, c, b)
    ensures var fin := Frame(a.streams[0].id, Fin, []);
      c == a.(streams := [a.streams[0].(closed := true)],
              out := a.out.(queue := a.out.queue + [fin], log := a.out.log + [(0, fin)]))
  {
    c := OpenerStep(mac, byHost, a, b, Close(0));
    c := OpenerStep(mac, byHost, c, b, SendFin(0));
  }

  lemma OpenerHears(mac: bool, byHost: bool, a: State, b: State, written: seq<byte>, r: Frame) returns (c: State)
    requires r.frameType.Data? && Encodable(r) && Together(mac, byHost, a, b) && OnWire(b) == [r, Frame(r.streamId, Fin, [])]
    requires a.table == map[r.streamId := 0] && a.streams == [Opener(r.streamId, written)]
    requires a.inp == Inbound([], [], []) && a.pc == Waiting
    ensures Together(mac, byHost, c, b) && c.ids == a.ids && c.setup == a.setup && c.table == map[]
    ensures c.streams == [Opener(r.streamId, written).(inbox := [r, Frame(r.streamId, Fin, [])])]
  {
    var fin := Frame(r.streamId, Fin, []);
    var x, y := Encode(r), Encode(fin);
    TwoFrames(r, fin);
    TwoEncoded(r, fin);
    c := Reads(mac, byHost, a, b, x + y);
    assert [] + [r] == [r];
    c := Delivers(mac, byHost, c, b, r, |x|);
    c := HearsTheEnd(mac, byHost, c, b, fin, |y|);
    assert [r] + [fin] == [r, fin];
  }

  lemma HearsTheEnd(mac: bool, byHost: bool, a: State, b: State, fin: Frame, n: nat) returns (c: State)
    requires Together(mac, byHost, a, b) && a.table == map[fin.streamId := 0] && |a.streams| == 1 && a.pc == Decoding
    requires NextFrame(a.inp.buf) == Item(fin, n) && n <= |a.inp.buf| && fin.frameType.Fin?
    requires a.streams[0].rxOpen && InboxRoom(a.streams[0])
    ensures Together(mac, byHost, c, b) && c.ids == a.ids && c.setup == a.setup && c.table == map[]
    ensures c.streams == [a.streams[0].(inbox := a.streams[0].inbox + [fin])]
  {
    c := Delivers(mac, byHost, a, b, fin, n);
    c := OpenerStep(mac, byHost, c, b, Forget);
  }

  lemma RequestGoes(mac: bool, byHost: bool, f: Frame, w: Frame) returns (a: State, b: State)
    requires OpeningFrame(byHost, f) && DataFrame(f.streamId, w) && Sendable(SideOf(mac, byHost), w)
    ensures Together(mac, byHost, a, b) && b == Init(Setup(SideOf(mac, !byHost), true))
    ensures a.setup == Setup(SideOf(mac, byHost), true) && a.ids.issued == 1 && OnWire(a) == [f, w]
    ensures a.table == map[f.streamId := 0] && a.streams == [Opener(f.streamId, w.payload)]
    ensures a.inp == Inbound([], [], []) && a.pc == Waiting
  {
    a, b := OpenerOpens(mac, byHost, f);
    a := Writes(mac, byHost, a, b, w);
    assert a.out.queue == [f, w] && a.out.log == [(0, f), (0, w)];
    a := SendsTwo(mac, byHost, a, b, f, w);
  }

  /** The accepting end of `a`'s stream hears the request, replies and closes. */
  lemma Answers(mac: bool, byHost: bool, a: State, b: State, f: Frame, w: Frame, r: Frame) returns (c: State)
    requires Together(mac, byHost, a, b) && OpeningFrame(byHost, f) && DataFrame(f.streamId, w) && DataFrame(f.streamId, r)
    requires Sendable(SideOf(mac, !byHost), r) && b == Init(Setup(SideOf(mac, !byHost), true)) && OnWire(a) == [f, w]
    ensures Together(mac, byHost, a, c) && OnWire(c) == [r, Frame(f.streamId, Fin, [])]
    ensures c.streams == [Acceptor(f.streamId, [f, w]).(written := r.payload, closed := true)]
  {
    TurnedRound(mac, byHost, a, b);
    c := AcceptorHears(mac, !byHost, b, a, f, w);
    c := RepliesAndCloses(mac, !byHost, c, a, f.streamId, [f, w], r);
    TurnedRound(mac, byHost, a, c);
  }

  lemma DataOfTwo(f: Frame, w: Frame)
    ensures !Carries(f) && Carries(w) ==> DataOf([f, w]) == w.payload
    ensures Carries(f) && !Carries(w) ==> DataOf([f, w]) == f.payload
  {
    assert [] + [f] == [f] && [f] + [w] == [f, w];
    DataSnoc([], f);
    DataSnoc([f], w);
  }

  lemma AllArrived(a: State, b: State, f: Frame, w: Frame, r: Frame)
    requires !Carries(f) && Carries(w) && Carries(r) && a.ids.issued == 1
    requires a.streams == [Opener(f.streamId, w.payload).(inbox := [r, Frame(f.streamId, Fin, [])])]
    requires b.streams == [Acceptor(f.streamId, [f, w]).(written := r.payload, closed := true)]
    ensures Ends(a, 0, b, 0) && DataOf(b.streams[0].inbox) == w.payload && DataOf(a.streams[0].inbox) == r.payload
  {
    DataOfTwo(f, w);
    DataOfTwo(r, Frame(f.streamId, Fin, []));
  }

  /** Either side may open, the guest with a reverse request, a DNS query or a connection to the
      host, the host with Connect. For any opening frame, any data after it and any reply there
      is a joined run in which all of it has arrived, and the close of the accepting end is the
      last frame the opener was given. */
  lemma RoundTripHappens(mac: bool, byHost: bool, f: Frame, w: Frame, r: Frame) returns (a: State, b: State)
    requires OpeningFrame(byHost, f) && DataFrame(f.streamId, w) && DataFrame(f.streamId, r)
    requires Sendable(SideOf(mac, byHost), w) && Sendable(SideOf(mac, !byHost), r)
    ensures Joined(mac, BOTH, Joint(byHost, a, b)) && Ends(a, 0, b, 0)
    ensures DataOf(b.streams[0].inbox) == a.streams[0].written == w.payload
    ensures DataOf(a.streams[0].inbox) == b.streams[0].written == r.payload
    ensures a.streams[0].inbox == [r, Frame(f.streamId, Fin, [])] && f.streamId !in a.table
  {
    a, b := RequestGoes(mac, byHost, f, w);
    b := Answers(mac, byHost, a, b, f, w, r);
    a := OpenerHears(mac, byHost, a, b, w.payload, r);
    AllArrived(a, b, f, w, r);
  }
}
