/** What the multiplexer keeps on the receiving side: which frames each stream is given,
    which frames the bytes read decode to, and how the I/O task leaves its loop. */
module MuxReceive {
  import opened Bytes
  import opened Framing
  import opened VsockProtocol
  import opened Multiplexer

  // ----- what a stream is owed -----

  /** The frames with this id that the side does not throw away. */
  ghost function ById(side: Side, frames: seq<Frame>, id: u32): seq<Frame> {
    if frames == [] then []
    else
      var front, f := ById(side, frames[..|frames| - 1], id), frames[|frames| - 1];
      if f.streamId == id && !Skips(side, f) then front + [f] else front
  }

  /** The frames bearing the stream's id decoded since it was registered. */
  ghost function Owed(s: State, g: nat): seq<Frame>
    requires g < |s.streams| && s.streams[g].since <= |s.inp.decoded|
  {
    ById(s.setup.side, s.inp.decoded[s.streams[g].since..], s.streams[g].id)
  }

  lemma ByIdSnoc(side: Side, frames: seq<Frame>, since: nat, f: Frame, id: u32)
    requires since <= |frames|
    ensures ById(side, (frames + [f])[since..], id)
         == ById(side, frames[since..], id) + (if f.streamId == id && !Skips(side, f) then [f] else [])
  {
    var more := (frames + [f])[since..];
    assert more[..|more| - 1] == frames[since..] && more[|more| - 1] == f;
    assert ById(side, frames[since..], id) + [] == ById(side, frames[since..], id);
  }

  /** The frame the I/O task holds for stream `g`, if any. */
  ghost function InFlight(s: State, g: nat): seq<Frame> {
    match s.pc
    case Delivering(f, h) => if h == g then [f] else []
    case TimedOut(f, h) => if h == g then [f] else []
    case Offering(f, h) => if h == g then [f] else []
    case Greeting(f, h) => if h == g then [f] else []
    case _ => []
  }

  ghost predicate Routable(s: State, g: nat)
    requires g < |s.streams|
  {
    (s.streams[g].id in s.table && s.table[s.streams[g].id] == g) || InFlight(s, g) != []
  }

  ghost predicate NoTerminal(frames: seq<Frame>) { forall f :: f in frames ==> !Terminal(f) }

  /** At most one closing frame, and nothing after it. */
  ghost predicate TerminalLast(frames: seq<Frame>) {
    frames != [] ==> NoTerminal(frames[..|frames| - 1])
  }

  ghost predicate StreamOk(s: State, g: nat)
    requires g < |s.streams|
  {
    var v := s.streams[g];
    && v.since <= |s.inp.decoded| && v.taken <= |v.inbox|
    && v.inbox <= Owed(s, g)
    && TerminalLast(v.inbox)
    && (Routable(s, g) && v.rxOpen ==> Owed(s, g) == v.inbox + InFlight(s, g))
    && (Routable(s, g) && !(s.pc.Forgetting? && s.pc.id == v.id) ==> NoTerminal(v.inbox))
    && (v.peerOpened ==>
          && v.since < |s.inp.decoded| && s.inp.decoded[v.since].streamId == v.id
          && Accepts(s.setup.side, s.inp.decoded[v.since]))
  }

  ghost predicate Routing(s: State) {
    && (forall id :: id in s.table ==> s.table[id] < |s.streams| && s.streams[s.table[id]].id == id)
    && (forall g: nat :: g < |s.streams| ==> StreamOk(s, g))
    && (s.pc.Delivering? || s.pc.TimedOut? || s.pc.Offering? || s.pc.Greeting? ==>
          s.pc.g < |s.streams| && s.pc.f.streamId == s.streams[s.pc.g].id)
    && (s.pc.Offering? || s.pc.Greeting? ==> Accepts(s.setup.side, s.pc.f) && s.streams[s.pc.g].inbox == [])
    && (s.pc.Delivering? || s.pc.TimedOut? || s.pc.Admitting? ==>
          s.inp.decoded != [] && s.inp.decoded[|s.inp.decoded| - 1] == s.pc.f)
    && (s.pc.Admitting? ==>
          && Accepts(s.setup.side, s.pc.f)
          && (s.pc.f.streamId in s.table ==> !s.streams[s.table[s.pc.f.streamId]].peerOpened))
    && (s.pc.Refusing? ==> s.pc.g < |s.streams|)
    && (forall id :: id in s.table && s.streams[s.table[id]].refused ==> s.pc == Refusing(s.table[id]))
    && !s.pc.Aborted?
  }

  /** A step that decodes nothing and puts nothing in the inbox of `g`. */
  ghost predicate Leaves(s: State, t: State, g: nat) {
    && g < |s.streams| && g < |t.streams|
    && t.inp.decoded == s.inp.decoded && t.setup == s.setup
    && t.streams[g].(taken := 0, rxOpen := false, usable := false, closed := false, refused := false, written := [], fate := s.streams[g].fate)
       == s.streams[g].(taken := 0, rxOpen := false, usable := false, closed := false, refused := false, written := [])
    && t.streams[g].taken <= |s.streams[g].inbox|
    && (t.streams[g].rxOpen ==> s.streams[g].rxOpen)
    && (Routable(t, g) ==> Routable(s, g))
    && (Routable(t, g) && t.streams[g].rxOpen ==> InFlight(t, g) == InFlight(s, g))
    && (Routable(t, g) && s.pc.Forgetting? && s.pc.id == s.streams[g].id ==> t.pc == s.pc)
  }

  lemma LeavesKeepsStream(s: State, t: State, g: nat)
    requires Leaves(s, t, g) && StreamOk(s, g)
    ensures StreamOk(t, g)
  {
  }

  lemma StepKeepsRouting(s: State, step: Step)
    requires Routing(s) && Enabled(s, step)
    ensures Routing(Apply(s, step))
  {
    if TaskStep(step) {
      TaskStepKeepsRouting(s, step);
    } else {
      IoStepKeepsRouting(s, step);
    }
  }

  lemma TaskStepKeepsRouting(s: State, step: Step)
    requires Routing(s) && Enabled(s, step) && TaskStep(step)
    ensures Routing(Apply(s, step))
  {
    if step.Register? {
      RegisterKeepsRouting(s, step);
    } else if step.Allocate? || step.SendFin? {
      IdleKeepsRouting(s, Apply(s, step));
    } else if step.SendOpening? || step.OpeningFails? || step.Write? || step.Take? {
      UseKeepsRouting(s, step);
    } else {
      CloseKeepsRouting(s, step);
    }
  }

  lemma UseKeepsRouting(s: State, step: Step)
    requires Routing(s) && Enabled(s, step) && (step.SendOpening? || step.OpeningFails? || step.Write? || step.Take?)
    ensures Routing(Apply(s, step))
  {
    var t := Apply(s, step);
    match step
    case SendOpening(g, _) => TouchKeepsRouting(s, t, g, s.streams[g].(usable := true));
    case OpeningFails(g) => TouchKeepsRouting(s, t, g, s.streams[g].(rxOpen := false));
    case Write(g, f) => TouchKeepsRouting(s, t, g, s.streams[g].(written := s.streams[g].written + f.payload));
    case Take(g) => TouchKeepsRouting(s, t, g, s.streams[g].(taken := s.streams[g].taken + 1));
  }

  lemma CloseKeepsRouting(s: State, step: Step)
    requires Routing(s) && Enabled(s, step) && (step.Close? || step.FinFails? || step.Drop?)
    ensures Routing(Apply(s, step))
  {
    var t, g := Apply(s, step), step.g;
    if step.Close? && s.streams[g].closed {
      IdleKeepsRouting(s, t);
    } else {
      TouchKeepsRouting(s, t, g, t.streams[g]);
    }
  }

  lemma IoStepKeepsRouting(s: State, step: Step)
    requires Routing(s) && Enabled(s, step) && !TaskStep(step)
    ensures Routing(Apply(s, step))
  {
    if step.Turn? || step.GiveUp? || step.Admit? {
      ArrivalKeepsRouting(s, step);
    } else if step.Deliver? || step.Greet? {
      DeliveryKeepsRouting(s, step);
    } else if step.Accept? || step.Refuse? {
      AnswerKeepsRouting(s, step);
    } else if step.ResetSlow? || step.Reset? {
      ResetKeepsRouting(s, step);
    } else {
      MoveStepKeepsRouting(s, step);
    }
  }

  lemma ArrivalKeepsRouting(s: State, step: Step)
    requires Routing(s) && Enabled(s, step) && (step.Turn? || step.GiveUp? || step.Admit?)
    ensures Routing(Apply(s, step))
  {
    if step.Turn? {
      TurnKeepsRouting(s);
    } else if step.GiveUp? {
      GiveUpKeepsRouting(s, Apply(s, step));
    } else {
      AdmitKeepsRouting(s, Apply(s, step));
    }
  }

  lemma DeliveryKeepsRouting(s: State, step: Step)
    requires Routing(s) && Enabled(s, step) && (step.Deliver? || step.Greet?)
    ensures Routing(Apply(s, step))
  {
    HandOverKeepsRouting(s, Apply(s, step));
  }

  lemma AnswerKeepsRouting(s: State, step: Step)
    requires Routing(s) && Enabled(s, step) && (step.Accept? || step.Refuse?)
    ensures Routing(Apply(s, step))
  {
    var v := s.streams[s.pc.g];
    OfferKeepsRouting(s, Apply(s, step), if step.Accept? then v.(usable := true) else v.(closed := true, refused := true, rxOpen := false));
  }

  lemma ResetKeepsRouting(s: State, step: Step)
    requires Routing(s) && Enabled(s, step) && (step.ResetSlow? || step.Reset?)
    ensures Routing(Apply(s, step))
  {
    var t := Apply(s, step);
    ResetChanges(s, step, t);
    MoveKeepsRouting(s, t);
  }

  lemma ResetChanges(s: State, step: Step, t: State)
    requires Enabled(s, step) && (step.ResetSlow? || step.Reset?) && t == Apply(s, step)
    ensures Remarked(s, t) && t.pc.Decoding?
    ensures s.pc.g < |s.streams| && t.table == s.table - {if s.pc.TimedOut? then s.pc.f.streamId else s.streams[s.pc.g].id}
  {
  }

  lemma MoveStepKeepsRouting(s: State, step: Step)
    requires Routing(s) && Enabled(s, step)
    requires step.ReadChunk? || step.ReadFails? || step.TakeFirst? || step.TakeMore? || step.WriteBatch? || step.WriteFails?
      || step.Forget? || step.Clear? || step.Shut?
    ensures Routing(Apply(s, step))
  {
    MoveKeepsRouting(s, Apply(s, step));
  }

  lemma IdleKeepsRouting(s: State, t: State)
    requires Routing(s)
    requires t.table == s.table && t.streams == s.streams && t.inp.decoded == s.inp.decoded && t.pc == s.pc && t.setup == s.setup
    ensures Routing(t)
  {
    forall g: nat | g < |t.streams| ensures StreamOk(t, g) {
      assert StreamOk(s, g);
      LeavesKeepsStream(s, t, g);
    }
  }

  /** Flags or the read position of one stream change. */
  lemma TouchKeepsRouting(s: State, t: State, g: nat, v: VirtualStream)
    requires Routing(s) && g < |s.streams| == |t.streams|
    requires t.table == s.table && t.inp.decoded == s.inp.decoded && t.pc == s.pc && t.setup == s.setup
    requires t.streams == s.streams[g := v] && Touched(s.streams[g], v)
    ensures Routing(t)
  {
    forall h: nat | h < |t.streams| ensures StreamOk(t, h) {
      assert StreamOk(s, h);
      LeavesKeepsStream(s, t, h);
    }
  }

  ghost predicate Touched(v: VirtualStream, w: VirtualStream) {
    && w.id == v.id && w.peerOpened == v.peerOpened && w.since == v.since && w.inbox == v.inbox
    && (v.taken <= |v.inbox| ==> w.taken <= |v.inbox|)
    && (w.rxOpen ==> v.rxOpen) && w.refused == v.refused
  }

  /** The same streams, but for what is noted of their end. */
  ghost predicate Remarked(s: State, t: State) {
    && t.inp.decoded == s.inp.decoded && t.setup == s.setup && |t.streams| == |s.streams|
    && forall g: nat :: g < |s.streams| ==> t.streams[g] == s.streams[g].(fate := t.streams[g].fate)
  }

  /** The I/O task moves between points where it holds no frame, perhaps forgetting entries. */
  lemma MoveKeepsRouting(s: State, t: State)
    requires Routing(s)
    requires Remarked(s, t) && !t.pc.Aborted?
    requires forall id :: id in t.table ==> id in s.table && t.table[id] == s.table[id]
    requires s.pc.Waiting? || s.pc.Filling? || s.pc.Forgetting? || s.pc.TimedOut? || s.pc.Refusing? || s.pc.Leaving? || s.pc.Cleared?
    requires t.pc.Waiting? || t.pc.Filling? || t.pc.Decoding? || t.pc.Leaving? || t.pc.Cleared? || t.pc.Exited?
    requires s.pc.Forgetting? ==> s.pc.id !in t.table
    requires s.pc.TimedOut? ==> s.pc.f.streamId !in t.table
    requires s.pc.Refusing? ==> s.streams[s.pc.g].id !in t.table
    ensures Routing(t)
  {
    forall g: nat | g < |t.streams| ensures StreamOk(t, g) {
      assert StreamOk(s, g);
      LeavesKeepsStream(s, t, g);
    }
  }

  /** The handler's answer to a stream a peer opened. */
  lemma OfferKeepsRouting(s: State, t: State, v: VirtualStream)
    requires Routing(s) && s.pc.Offering? && |s.streams| == |t.streams|
    requires t.table == s.table && t.inp.decoded == s.inp.decoded && t.setup == s.setup
    requires t.streams == s.streams[s.pc.g := v] && Touched(s.streams[s.pc.g], v.(refused := s.streams[s.pc.g].refused))
    requires if t.pc.Refusing? then t.pc.g == s.pc.g && !v.rxOpen
             else t.pc == Greeting(s.pc.f, s.pc.g) && v.refused == s.streams[s.pc.g].refused
    ensures Routing(t)
  {
    forall g: nat | g < |t.streams| ensures StreamOk(t, g) {
      assert StreamOk(s, g);
      LeavesKeepsStream(s, t, g);
    }
  }

  lemma RegisterKeepsRouting(s: State, step: Step)
    requires Routing(s) && step.Register? && Enabled(s, step)
    ensures Routing(Apply(s, step))
  {
    var t := Apply(s, step);
    forall g: nat | g < |t.streams| ensures StreamOk(t, g) {
      if g < |s.streams| {
        assert StreamOk(s, g);
        LeavesKeepsStream(s, t, g);
      } else {
        assert t.inp.decoded[|s.inp.decoded|..] == [];
      }
    }
  }

  /** The host stops waiting for room in the channel. */
  lemma GiveUpKeepsRouting(s: State, t: State)
    requires Routing(s) && s.pc.Delivering? && Remarked(s, t) && t.table == s.table && t.pc == TimedOut(s.pc.f, s.pc.g)
    ensures Routing(t)
  {
    forall g: nat | g < |t.streams| ensures StreamOk(t, g) {
      assert StreamOk(s, g);
      LeavesKeepsStream(s, t, g);
    }
  }

  /** The stream a peer's opening frame asks for enters the table. */
  lemma AdmitKeepsRouting(s: State, t: State)
    requires Routing(s) && s.pc.Admitting? && t.inp == s.inp && t.setup == s.setup
    requires t.table == s.table[s.pc.f.streamId := |s.streams|] && t.pc == Offering(s.pc.f, |s.streams|)
    requires t.streams == s.streams + [Fresh(s.pc.f.streamId, true, |s.inp.decoded| - 1)]
    ensures Routing(t)
  {
    forall g: nat | g < |t.streams| ensures StreamOk(t, g) {
      if g < |s.streams| {
        assert StreamOk(s, g);
        LeavesKeepsStream(s, t, g);
      } else {
        var front, f := s.inp.decoded[..|s.inp.decoded| - 1], s.pc.f;
        assert s.inp.decoded == front + [f];
        ByIdSnoc(s.setup.side, front, |front|, f, f.streamId);
        assert front[|front|..] == [];
      }
    }
  }

  lemma TurnKeepsRouting(s: State)
    requires Routing(s) && s.pc.Decoding?
    ensures Routing(Routed(s))
  {
    DecodeNeverFails(s.inp.buf);
    NextFrameIncremental();
    var t := Routed(s);
    if NextFrame(s.inp.buf).NeedMore? {
      forall g: nat | g < |t.streams| ensures StreamOk(t, g) {
        assert StreamOk(s, g);
        LeavesKeepsStream(s, t, g);
      }
    } else {
      DecodedKeepsRouting(s, t, NextFrame(s.inp.buf).item);
    }
  }

  /** What one decoded frame does to the routing part of the state. */
  ghost predicate Arrives(s: State, t: State, f: Frame) {
    && t.inp.decoded == s.inp.decoded + [f] && t.table == s.table && t.streams == s.streams && t.setup == s.setup
    && t.pc == if Skips(s.setup.side, f) then s.pc
       else if f.streamId in s.table then Delivering(f, s.table[f.streamId])
       else if Accepts(s.setup.side, f) && s.setup.handler then Admitting(f)
       else s.pc
  }

  lemma DecodedKeepsRouting(s: State, t: State, f: Frame)
    requires Routing(s) && s.pc.Decoding? && Arrives(s, t, f)
    ensures Routing(t)
  {
    forall g: nat | g < |t.streams| ensures StreamOk(t, g) {
      assert StreamOk(s, g);
      ByIdSnoc(s.setup.side, s.inp.decoded, s.streams[g].since, f, s.streams[g].id);
      if f.streamId == s.streams[g].id && f.streamId !in s.table {
        assert !Routable(t, g);
      }
    }
  }

  /** The I/O task hands the frame it holds to the stream, or finds the receiver gone. */
  lemma HandOverKeepsRouting(s: State, t: State)
    requires Routing(s) && (s.pc.Delivering? || s.pc.Greeting?) && |s.streams| == |t.streams|
    requires t.table == s.table && t.inp.decoded == s.inp.decoded && t.setup == s.setup
    requires var v := s.streams[s.pc.g];
      if v.rxOpen then
        && t.streams == s.streams[s.pc.g := v.(inbox := v.inbox + [s.pc.f])]
        && t.pc == if Terminal(s.pc.f) then Forgetting(s.pc.f.streamId) else Decoding
      else t.streams == s.streams && (t.pc == Forgetting(s.pc.f.streamId) || t.pc == Decoding)
    ensures Routing(t)
  {
    forall g: nat | g < |t.streams| ensures StreamOk(t, g) {
      assert StreamOk(s, g);
      if g == s.pc.g && s.streams[g].rxOpen {
        Delivered(s, t, g);
      } else {
        LeavesKeepsStream(s, t, g);
      }
    }
  }

  /** Putting the frame in flight into the inbox it was meant for. */
  lemma Delivered(s: State, t: State, g: nat)
    requires g < |s.streams| && g < |t.streams| && StreamOk(s, g) && s.streams[g].rxOpen
    requires (s.pc.Delivering? || s.pc.Greeting?) && s.pc.g == g
    requires t.inp.decoded == s.inp.decoded && t.table == s.table && t.setup == s.setup
    requires t.streams[g] == s.streams[g].(inbox := s.streams[g].inbox + [s.pc.f])
    requires if Terminal(s.pc.f) then t.pc == Forgetting(s.streams[g].id) else t.pc.Decoding?
    ensures StreamOk(t, g)
  {
    var before, after := s.streams[g].inbox, t.streams[g].inbox;
    assert after[..|after| - 1] == before && after + [] == after;
    assert Owed(t, g) == Owed(s, g) == after;
  }

  // ----- bytes read and frames decoded -----

  /** The I/O task is between two frames of one chunk. */
  predicate MidChunk(pc: Pc) {
    pc.Decoding? || pc.Delivering? || pc.TimedOut? || pc.Forgetting? || pc.Admitting? || pc.Offering? || pc.Greeting? || pc.Refusing?
  }

  /** The frames handled so far and those still complete in the buffer are exactly
      what the bytes received decode to. */
  ghost predicate Traced(inp: Inbound) {
    && Incremental(NextFrame)
    && var d := Drain(NextFrame, inp.buf);
       Drain(NextFrame, inp.received) == Progress(inp.decoded + d.items, d.rest, false)
  }

  lemma ArrivedTraced(inp: Inbound, chunk: seq<byte>)
    requires Traced(inp) && NextFrame(inp.buf).NeedMore?
    ensures Traced(Arrived(inp, chunk))
  {
    DrainAppend(NextFrame, inp.received, chunk);
    assert inp.decoded + [] == inp.decoded;
    DrainNeverFails(inp.buf + chunk);
  }

  lemma ConsumedTraced(inp: Inbound)
    requires Traced(inp) && NextFrame(inp.buf).Item? && NextFrame(inp.buf).used <= |inp.buf|
    ensures Traced(Consumed(inp, NextFrame(inp.buf).item, NextFrame(inp.buf).used))
  {
    var f, n := NextFrame(inp.buf).item, NextFrame(inp.buf).used;
    var d := Drain(NextFrame, inp.buf[n..]);
    assert inp.decoded + ([f] + d.items) == (inp.decoded + [f]) + d.items;
  }

  ghost predicate BytesOk(s: State) {
    Traced(s.inp) && (!MidChunk(s.pc) ==> NextFrame(s.inp.buf).NeedMore?) && !s.pc.Aborted?
  }

  /** Only reading and decoding touch the byte side of the state. */
  lemma QuietTaskStep(s: State, step: Step)
    requires Enabled(s, step) && TaskStep(step)
    ensures Apply(s, step).inp == s.inp && Apply(s, step).pc == s.pc
  {
  }

  lemma QuietIoStep(s: State, step: Step)
    requires Enabled(s, step) && !TaskStep(step) && !step.ReadChunk? && !step.Turn?
    ensures var t := Apply(s, step);
      t.inp == s.inp && (MidChunk(s.pc) <==> MidChunk(t.pc)) && !t.pc.Aborted?
  {
  }

  lemma StepKeepsBytes(s: State, step: Step)
    requires BytesOk(s) && Enabled(s, step)
    ensures BytesOk(Apply(s, step))
  {
    if TaskStep(step) {
      QuietTaskStep(s, step);
      QuietKeepsBytes(s, Apply(s, step));
    } else {
      IoStepKeepsBytes(s, step);
    }
  }

  lemma IoStepKeepsBytes(s: State, step: Step)
    requires BytesOk(s) && Enabled(s, step) && !TaskStep(step)
    ensures BytesOk(Apply(s, step))
  {
    if step.ReadChunk? {
      ReadKeepsBytes(s, step);
    } else if step.Turn? {
      TurnStepKeepsBytes(s, step);
    } else {
      QuietIoKeepsBytes(s, step);
    }
  }

  lemma QuietIoKeepsBytes(s: State, step: Step)
    requires BytesOk(s) && Enabled(s, step) && !TaskStep(step) && !step.ReadChunk? && !step.Turn?
    ensures BytesOk(Apply(s, step))
  {
    QuietIoStep(s, step);
    QuietKeepsBytes(s, Apply(s, step));
  }

  lemma TurnStepKeepsBytes(s: State, step: Step)
    requires BytesOk(s) && Enabled(s, step) && step.Turn?
    ensures BytesOk(Apply(s, step))
  {
    TurnIsRouted(s, step);
    TurnKeepsBytes(s, Apply(s, step));
  }

  lemma TurnIsRouted(s: State, step: Step)
    requires Enabled(s, step) && step.Turn?
    ensures Apply(s, step) == Routed(s) && s.pc.Decoding?
  {
  }

  lemma QuietKeepsBytes(s: State, t: State)
    requires BytesOk(s) && t.inp == s.inp && (MidChunk(s.pc) <==> MidChunk(t.pc)) && !t.pc.Aborted?
    ensures BytesOk(t)
  {
  }

  lemma ReadKeepsBytes(s: State, step: Step)
    requires BytesOk(s) && Enabled(s, step) && step.ReadChunk?
    ensures BytesOk(Apply(s, step))
  {
    ArrivedTraced(s.inp, step.chunk);
  }

  lemma TurnKeepsBytes(s: State, t: State)
    requires BytesOk(s) && s.pc.Decoding? && t == Routed(s)
    ensures BytesOk(t)
  {
    TurnMoves(s, t);
    if NextFrame(s.inp.buf).Item? {
      ConsumedTraced(s.inp);
    }
  }

  lemma TurnMoves(s: State, t: State)
    requires s.pc.Decoding? && t == Routed(s)
    ensures var next := NextFrame(s.inp.buf);
      && !next.Fail? && !t.pc.Aborted?
      && (next.NeedMore? ==> t.inp == s.inp && !MidChunk(t.pc))
      && (next.Item? ==> next.used <= |s.inp.buf| && t.inp == Consumed(s.inp, next.item, next.used) && MidChunk(t.pc))
  {
    DecodeNeverFails(s.inp.buf);
    NextFrameIncremental();
  }

  // ----- streams the peer opened -----

  ghost predicate Peer(s: State, g: nat) { g < |s.streams| && s.streams[g].peerOpened }

  /** How many decoded frames have been dealt with: all but the one being admitted. */
  ghost function Settled(s: State): int { |s.inp.decoded| - if s.pc.Admitting? then 1 else 0 }

  /** Each was opened by a frame of its own, in the order of the frames. */
  ghost predicate PeersOk(s: State) {
    && (forall g: nat :: Peer(s, g) ==> s.streams[g].since < Settled(s))
    && (forall g: nat, h: nat :: Peer(s, g) && Peer(s, h) && g < h ==> s.streams[g].since < s.streams[h].since)
  }

  /** Streams keep who opened them and when; a new one is a local one or the one admitted. */
  ghost predicate Opened(s: State, t: State) {
    && |s.streams| <= |t.streams| <= |s.streams| + 1 && Settled(s) <= Settled(t)
    && (forall g: nat :: g < |s.streams| ==>
          t.streams[g].since == s.streams[g].since && t.streams[g].peerOpened == s.streams[g].peerOpened)
    && (forall g: nat :: |s.streams| <= g < |t.streams| && t.streams[g].peerOpened ==>
          Settled(s) <= t.streams[g].since < Settled(t))
  }

  lemma OpenedKeepsPeers(s: State, t: State)
    requires PeersOk(s) && Opened(s, t)
    ensures PeersOk(t)
  {
    assert forall g: nat :: Peer(t, g) && g < |s.streams| ==> Peer(s, g);
  }

  lemma StepOpens(s: State, step: Step)
    requires Enabled(s, step)
    ensures Opened(s, Apply(s, step))
  {
    if TaskStep(step) {
      TaskStepOpens(s, step);
    } else {
      IoStepOpens(s, step);
    }
  }

  lemma TaskStepOpens(s: State, step: Step)
    requires Enabled(s, step) && TaskStep(step)
    ensures Opened(s, Apply(s, step))
  {
  }

  lemma IoStepOpens(s: State, step: Step)
    requires Enabled(s, step) && !TaskStep(step)
    ensures Opened(s, Apply(s, step))
  {
  }

  lemma StepKeepsPeers(s: State, step: Step)
    requires PeersOk(s) && Enabled(s, step)
    ensures PeersOk(Apply(s, step))
  {
    StepOpens(s, step);
    OpenedKeepsPeers(s, Apply(s, step));
  }

  // ----- leaving the loop -----

  /** After the clean-up the table holds only streams registered later, the last of them
      among these, and none of them ever gets a frame. */
  ghost predicate ExitOk(s: State) {
    && (s.out.shut <==> s.pc.Exited?)
    && (s.pc.Cleared? || s.pc.Exited? ==> LateOnly(s))
  }

  ghost predicate LateOnly(s: State) {
    && s.clearedAt <= |s.streams|
    && (forall id :: id in s.table ==> s.clearedAt <= s.table[id] < |s.streams|)
    && (forall g: nat :: s.clearedAt <= g < |s.streams| ==> s.streams[g].inbox == [])
    && (s.clearedAt < |s.streams| ==> s.streams[|s.streams| - 1].id in s.table)
  }

  lemma StepKeepsExit(s: State, step: Step)
    requires ExitOk(s) && Enabled(s, step)
    ensures ExitOk(Apply(s, step))
  {
    if s.pc.Cleared? || s.pc.Exited? {
      LateStep(s, step);
    }
  }

  /** After the clean-up only the tasks that use streams still move. */
  lemma LateStep(s: State, step: Step)
    requires Enabled(s, step) && (s.pc.Cleared? || s.pc.Exited?) && LateOnly(s)
    ensures LateOnly(Apply(s, step))
  {
    if step.Shut? {
    } else {
      LateTaskStep(s, step);
    }
  }

  lemma LateTaskStep(s: State, step: Step)
    requires TaskStep(step) && Enabled(s, step) && LateOnly(s)
    ensures LateOnly(Apply(s, step))
  {
    if !step.Register? {
      OneStreamChanges(s, step);
    }
  }

  /** A step of a task, registering apart, changes no more than the flags of one stream. */
  lemma OneStreamChanges(s: State, step: Step)
    requires TaskStep(step) && Enabled(s, step) && !step.Register?
    ensures var t := Apply(s, step);
      && t.table == s.table && t.clearedAt == s.clearedAt && t.pc == s.pc && |t.streams| == |s.streams|
      && forall g: nat :: g < |s.streams| ==> Flagged(s.streams[g], t.streams[g])
  {
    if step.SendOpening? || step.OpeningFails? || step.Write? || step.Take? {
      UseChangesOne(s, step);
    }
  }

  lemma UseChangesOne(s: State, step: Step)
    requires Enabled(s, step) && (step.SendOpening? || step.OpeningFails? || step.Write? || step.Take?)
    ensures var t := Apply(s, step);
      && t.table == s.table && t.clearedAt == s.clearedAt && t.pc == s.pc && |t.streams| == |s.streams|
      && forall g: nat :: g < |s.streams| ==> Flagged(s.streams[g], t.streams[g])
  {
  }

  ghost predicate Flagged(v: VirtualStream, w: VirtualStream) {
    w.id == v.id && w.inbox == v.inbox && (w.rxOpen ==> v.rxOpen) && (v.fate.slow ==> w.fate.slow)
  }

  /** Once the channel is shut no step queues, moves or loses a frame. */
  lemma NothingMovesAfterExit(s: State, step: Step)
    requires ExitOk(s) && s.pc.Exited? && Enabled(s, step)
    ensures Apply(s, step).out == s.out
  {
  }

  // ----- who is in the table -----

  ghost predicate Held(s: State, g: nat)
    requires g < |s.streams|
  {
    s.streams[g].id in s.table && s.table[s.streams[g].id] == g
  }

  /** The stream was given its closing frame. */
  ghost predicate Ended(v: VirtualStream) { v.inbox != [] && Terminal(v.inbox[|v.inbox| - 1]) }

  /** Another stream has the same id. */
  ghost predicate Shares(s: State, g: nat)
    requires g < |s.streams|
  {
    exists h: nat :: h < |s.streams| && h != g && s.streams[h].id == s.streams[g].id
  }

  /** The reasons for which a stream may have no table entry while the I/O task runs. */
  ghost predicate Excused(s: State, g: nat)
    requires g < |s.streams|
  {
    !s.streams[g].rxOpen || s.streams[g].fate.slow || Ended(s.streams[g]) || Shares(s, g)
  }

  predicate Running(pc: Pc) { !pc.Cleared? && !pc.Exited? && !pc.Aborted? }

  ghost predicate PresentOk(s: State) {
    Running(s.pc) ==>
      && (forall g: nat :: g < |s.streams| ==> Held(s, g) || Excused(s, g))
      && (s.pc.Forgetting? ==>
            && (exists g: nat :: g < |s.streams| && s.streams[g].id == s.pc.id)
            && (forall g: nat :: g < |s.streams| && s.streams[g].id == s.pc.id ==> Excused(s, g)))
      && (s.pc.TimedOut? ==> s.pc.g < |s.streams| && s.streams[s.pc.g].fate.slow)
      && (s.pc.Refusing? ==> s.pc.g < |s.streams| && !s.streams[s.pc.g].rxOpen)
  }

  /** Streams stay, and what excuses one stays. */
  ghost predicate Onward(s: State, t: State) {
    && |s.streams| <= |t.streams|
    && forall g: nat :: g < |s.streams| ==>
         && t.streams[g].id == s.streams[g].id && (t.streams[g].rxOpen ==> s.streams[g].rxOpen)
         && (s.streams[g].fate.slow ==> t.streams[g].fate.slow) && (Ended(s.streams[g]) ==> Ended(t.streams[g]))
  }

  lemma TaskGoesOnward(s: State, step: Step)
    requires Enabled(s, step) && TaskStep(step)
    ensures Onward(s, Apply(s, step)) && Apply(s, step).pc == s.pc
    ensures !step.Register? ==> Apply(s, step).table == s.table && |Apply(s, step).streams| == |s.streams|
  {
    if !step.Register? {
      OneStreamChanges(s, step);
      assert forall g: nat :: g < |s.streams| ==> Flagged(s.streams[g], Apply(s, step).streams[g]);
    }
  }

  lemma IoGoesOnward(s: State, step: Step)
    requires Routing(s) && Enabled(s, step) && !TaskStep(step)
    ensures Onward(s, Apply(s, step))
    ensures !step.Admit? ==> |Apply(s, step).streams| == |s.streams|
  {
    if step.Deliver? || step.Greet? {
      NotEndedInFlight(s, s.pc.g);
      DeliveryGoesOnward(s, step);
    } else {
      OtherIoGoesOnward(s, step);
    }
  }

  /** A stream that a frame is on its way to has not ended. */
  lemma NotEndedInFlight(s: State, g: nat)
    requires Routing(s) && g < |s.streams| && InFlight(s, g) != []
    ensures !Ended(s.streams[g])
  {
    assert StreamOk(s, g);
    assert Routable(s, g);
    var inbox := s.streams[g].inbox;
    if inbox != [] {
      assert inbox[|inbox| - 1] in inbox;
    }
  }

  lemma DeliveryGoesOnward(s: State, step: Step)
    requires Enabled(s, step) && (step.Deliver? || step.Greet?) && !Ended(s.streams[s.pc.g])
    ensures Onward(s, Apply(s, step)) && |Apply(s, step).streams| == |s.streams|
  {
  }

  lemma OtherIoGoesOnward(s: State, step: Step)
    requires Enabled(s, step) && !TaskStep(step) && !step.Deliver? && !step.Greet?
    ensures Onward(s, Apply(s, step))
    ensures !step.Admit? ==> |Apply(s, step).streams| == |s.streams|
  {
  }

  lemma ExcusedStays(s: State, t: State, g: nat)
    requires Onward(s, t) && g < |s.streams| && Excused(s, g)
    ensures Excused(t, g)
  {
    if Shares(s, g) {
      var h: nat :| h < |s.streams| && h != g && s.streams[h].id == s.streams[g].id;
      assert t.streams[h].id == t.streams[g].id;
    }
  }

  /** A stream that is excused excuses every other of its id, since they share it. */
  lemma IdExcused(s: State, g: nat, id: u32)
    requires g < |s.streams| && s.streams[g].id == id && Excused(s, g)
    ensures forall h: nat :: h < |s.streams| && s.streams[h].id == id ==> Excused(s, h)
  {
  }

  lemma TableStays(s: State, t: State)
    requires PresentOk(s) && Running(s.pc) && Onward(s, t) && t.table == s.table && |t.streams| == |s.streams|
    ensures forall g: nat :: g < |t.streams| ==> Held(t, g) || Excused(t, g)
    ensures s.pc.Forgetting? ==> forall g: nat :: g < |t.streams| && t.streams[g].id == s.pc.id ==> Excused(t, g)
  {
    forall g: nat | g < |t.streams| ensures Excused(s, g) ==> Excused(t, g) {
      if Excused(s, g) {
        ExcusedStays(s, t, g);
      }
    }
  }

  /** An entry goes because its stream is excused. */
  lemma EntryGoes(s: State, t: State, id: u32, g: nat)
    requires PresentOk(s) && Running(s.pc) && Onward(s, t) && |t.streams| == |s.streams|
    requires t.table == s.table - {id} && g < |s.streams| && s.streams[g].id == id && Excused(s, g)
    ensures forall h: nat :: h < |t.streams| ==> Held(t, h) || Excused(t, h)
  {
    IdExcused(s, g, id);
    forall h: nat | h < |t.streams| ensures Held(t, h) || Excused(t, h) {
      if Excused(s, h) {
        ExcusedStays(s, t, h);
      }
    }
  }

  /** A new stream enters; one whose entry it takes shares its id from now on. */
  lemma NewcomerKeepsPresent(s: State, t: State, id: u32)
    requires PresentOk(s) && Running(s.pc) && Onward(s, t) && |t.streams| == |s.streams| + 1
    requires t.table == s.table[id := |s.streams|] && t.streams[|s.streams|].id == id
    requires t.pc == s.pc || t.pc.Offering?
    ensures PresentOk(t)
  {
    forall g: nat | g < |s.streams| ensures Held(t, g) || Excused(t, g) {
      if Excused(s, g) {
        ExcusedStays(s, t, g);
      } else if s.streams[g].id == id {
        assert t.streams[|s.streams|].id == t.streams[g].id;
      }
    }
    if t.pc == s.pc && s.pc.Forgetting? {
      var g: nat :| g < |s.streams| && s.streams[g].id == s.pc.id;
      ExcusedStays(s, t, g);
      IdExcused(t, g, s.pc.id);
    }
  }

  lemma TaskKeepsPresent(s: State, step: Step)
    requires PresentOk(s) && Enabled(s, step) && TaskStep(step)
    ensures PresentOk(Apply(s, step))
  {
    var t := Apply(s, step);
    TaskGoesOnward(s, step);
    if Running(s.pc) {
      if step.Register? {
        NewcomerKeepsPresent(s, t, step.id);
      } else {
        TableStays(s, t);
        if s.pc.Forgetting? {
          var g: nat :| g < |s.streams| && s.streams[g].id == s.pc.id;
          assert t.streams[g].id == s.pc.id;
        }
      }
    }
  }

  lemma IoKeepsPresent(s: State, step: Step)
    requires Routing(s) && PresentOk(s) && Enabled(s, step) && !TaskStep(step)
    ensures PresentOk(Apply(s, step))
  {
    var t := Apply(s, step);
    IoGoesOnward(s, step);
    if Running(t.pc) {
      if step.Admit? {
        NewcomerKeepsPresent(s, t, s.pc.f.streamId);
      } else if step.Forget? {
        var g: nat :| g < |s.streams| && s.streams[g].id == s.pc.id;
        EntryGoes(s, t, s.pc.id, g);
      } else if step.ResetSlow? || step.Reset? {
        EntryGoes(s, t, s.streams[s.pc.g].id, s.pc.g);
      } else {
        StayingKeepsPresent(s, step);
      }
    }
  }

  lemma StayingKeepsPresent(s: State, step: Step)
    requires Routing(s) && PresentOk(s) && Enabled(s, step) && !TaskStep(step) && Running(Apply(s, step).pc)
    requires !step.Admit? && !step.Forget? && !step.ResetSlow? && !step.Reset?
    ensures PresentOk(Apply(s, step))
  {
    var t := Apply(s, step);
    IoGoesOnward(s, step);
    StayingMovesOn(s, step);
    TableStays(s, t);
    if t.pc.Forgetting? {
      IdExcused(t, s.pc.g, t.pc.id);
    }
  }

  /** Where the task gets to when it touches no entry. */
  lemma StayingMovesOn(s: State, step: Step)
    requires Routing(s) && Enabled(s, step) && !TaskStep(step) && Running(Apply(s, step).pc)
    requires !step.Admit? && !step.Forget? && !step.ResetSlow? && !step.Reset?
    ensures Running(s.pc) && Lands(s, Apply(s, step))
  {
    if step.Deliver? || step.GiveUp? || step.Accept? || step.Refuse? || step.Greet? {
      HandlingMovesOn(s, step);
    } else {
      LoopMovesOn(s, step);
    }
  }

  ghost predicate Lands(s: State, t: State) {
    && t.table == s.table && |t.streams| == |s.streams|
    && (t.pc.Forgetting? ==> s.pc.Delivering? && s.pc.g < |t.streams| && t.pc.id == t.streams[s.pc.g].id && Excused(t, s.pc.g))
    && (t.pc.TimedOut? ==> t.pc.g < |t.streams| && t.streams[t.pc.g].fate.slow)
    && (t.pc.Refusing? ==> t.pc.g < |t.streams| && !t.streams[t.pc.g].rxOpen)
  }

  lemma HandlingMovesOn(s: State, step: Step)
    requires Routing(s) && Enabled(s, step) && (step.Deliver? || step.GiveUp? || step.Accept? || step.Refuse? || step.Greet?)
    ensures Running(s.pc) && Lands(s, Apply(s, step))
  {
  }

  lemma LoopMovesOn(s: State, step: Step)
    requires Enabled(s, step) && Running(Apply(s, step).pc)
    requires step.ReadChunk? || step.ReadFails? || step.TakeFirst? || step.TakeMore? || step.WriteBatch? || step.WriteFails?
      || step.Turn? || step.Clear? || step.Shut?
    ensures Running(s.pc) && Lands(s, Apply(s, step))
  {
  }

  /** Every step keeps: while the task runs a stream is in the table, or its receiver is gone,
      or it was given up, or it has had its closing frame, or another stream has its id. */
  lemma StepKeepsPresent(s: State, step: Step)
    requires Routing(s) && PresentOk(s) && Enabled(s, step)
    ensures PresentOk(Apply(s, step))
  {
    if TaskStep(step) {
      TaskKeepsPresent(s, step);
    } else {
      IoKeepsPresent(s, step);
    }
  }

  lemma PresentMissesNothing(s: State, g: nat)
    requires Routing(s) && PresentOk(s) && Running(s.pc) && g < |s.streams|
    requires s.streams[g].rxOpen && !s.streams[g].fate.slow && !Shares(s, g)
    ensures s.streams[g].since <= |s.inp.decoded|
    ensures Ended(s.streams[g]) || Owed(s, g) == s.streams[g].inbox + InFlight(s, g)
  {
    assert Held(s, g) || Excused(s, g);
    HeldIsOwed(s, g);
  }

  lemma HeldIsOwed(s: State, g: nat)
    requires g < |s.streams| && Routing(s)
    ensures s.streams[g].since <= |s.inp.decoded|
    ensures Held(s, g) && s.streams[g].rxOpen ==> Owed(s, g) == s.streams[g].inbox + InFlight(s, g)
  {
    assert StreamOk(s, g);
  }
}
