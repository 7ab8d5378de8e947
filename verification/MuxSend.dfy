/** What the multiplexer keeps on the sending side: the ids it hands out, what becomes of
    every frame queued, and what each stream sends. */
module MuxSend {
  import opened Bytes
  import opened Framing
  import opened VsockProtocol
  import opened Multiplexer
  import opened MuxReceive

  // ----- ids handed out here -----

  /** How many ids are fresh: the guest's 2, 4, .. before zero comes up, the host's 1, 3, ..
      before 1 comes up again. */
  function FreshIds(side: Side): nat { if side.Guest? then 0x8000_0000 - 1 else 0x8000_0000 }

  predicate OwnParity(side: Side, id: u32) { id % 2 == FirstId(side) % 2 }

  ghost predicate LocalId(side: Side, ids: Ids, id: u32) {
    OwnParity(side, id) && FirstId(side) <= id < FirstId(side) + 2 * ids.issued
  }

  ghost predicate Local(s: State, g: nat) { g < |s.streams| && !s.streams[g].peerOpened }

  ghost predicate IdsOk(s: State) {
    && s.ids.next == (FirstId(s.setup.side) + 2 * s.ids.issued) % ID_SPACE
    && (forall id :: id in s.ids.reserved ==> OwnParity(s.setup.side, id))
    && (forall g: nat :: Local(s, g) ==> OwnParity(s.setup.side, s.streams[g].id))
    && (s.ids.issued <= FreshIds(s.setup.side) ==> Distinct(s))
  }

  ghost predicate Distinct(s: State) {
    && (forall id :: id in s.ids.reserved ==> LocalId(s.setup.side, s.ids, id))
    && (forall g: nat :: Local(s, g) ==>
          LocalId(s.setup.side, s.ids, s.streams[g].id) && s.streams[g].id !in s.ids.reserved)
    && (forall g: nat, h: nat :: Local(s, g) && Local(s, h) && g != h ==> s.streams[g].id != s.streams[h].id)
  }

  /** Streams are only ever added, and keep their identity. */
  ghost predicate Grows(s: State, t: State) {
    && |s.streams| <= |t.streams| && t.setup == s.setup
    && (forall g: nat :: g < |s.streams| ==>
          t.streams[g].id == s.streams[g].id && t.streams[g].peerOpened == s.streams[g].peerOpened)
  }

  ghost predicate PeersOnly(s: State, t: State) {
    t.ids == s.ids && forall g: nat :: |s.streams| <= g < |t.streams| ==> t.streams[g].peerOpened
  }

  lemma StreamsGrow(s: State, step: Step)
    requires Enabled(s, step)
    ensures Grows(s, Apply(s, step)) && (step.Allocate? || step.Register? || PeersOnly(s, Apply(s, step)))
  {
    if TaskStep(step) {
      TaskStepGrows(s, step);
    } else {
      IoStepGrows(s, step);
    }
  }

  lemma TaskStepGrows(s: State, step: Step)
    requires Enabled(s, step) && TaskStep(step)
    ensures Grows(s, Apply(s, step)) && (step.Allocate? || step.Register? || PeersOnly(s, Apply(s, step)))
  {
  }

  lemma IoStepGrows(s: State, step: Step)
    requires Enabled(s, step) && !TaskStep(step)
    ensures Grows(s, Apply(s, step)) && PeersOnly(s, Apply(s, step))
  {
  }

  lemma StepKeepsIds(s: State, step: Step)
    requires IdsOk(s) && Enabled(s, step)
    ensures IdsOk(Apply(s, step))
  {
    StreamsGrow(s, step);
    IdsChange(s, step);
    var t := Apply(s, step);
    if step.Allocate? {
      AllocateKeepsIds(s, t);
    } else if step.Register? {
      RegisterKeepsIds(s, step.id, t);
    } else {
      PeersKeepIds(s, t);
    }
  }

  lemma IdsChange(s: State, step: Step)
    requires Enabled(s, step)
    ensures var t := Apply(s, step);
      && (step.Allocate? ==> t.streams == s.streams && t.ids == Taken(s.ids))
      && (step.Register? ==>
            && step.id in s.ids.reserved && t.ids == s.ids.(reserved := s.ids.reserved - {step.id})
            && t.streams == s.streams + [Fresh(step.id, false, |s.inp.decoded|)])
  {
  }

  function Taken(ids: Ids): Ids { Ids((ids.next + 2) % ID_SPACE, ids.issued + 1, ids.reserved + {ids.next}) }

  lemma AllocateKeepsIds(s: State, t: State)
    requires IdsOk(s) && t.setup == s.setup && t.streams == s.streams && t.ids == Taken(s.ids)
    ensures IdsOk(t)
  {
    assert forall g: nat :: Local(t, g) ==> Local(s, g);
    NextId(s.setup.side, s.ids);
  }

  lemma NextId(side: Side, ids: Ids)
    requires ids.next == (FirstId(side) + 2 * ids.issued) % ID_SPACE
    ensures (ids.next + 2) % ID_SPACE == (FirstId(side) + 2 * (ids.issued + 1)) % ID_SPACE
    ensures OwnParity(side, ids.next)
    ensures ids.issued < FreshIds(side) ==> ids.next == FirstId(side) + 2 * ids.issued
    ensures ids.issued == FreshIds(side) ==> ids.next == if side.Guest? then 0 else FirstId(side)
  {
  }

  lemma RegisterKeepsIds(s: State, id: u32, t: State)
    requires IdsOk(s) && t.setup == s.setup && id in s.ids.reserved
    requires t.ids == s.ids.(reserved := s.ids.reserved - {id})
    requires t.streams == s.streams + [Fresh(id, false, |s.inp.decoded|)]
    ensures IdsOk(t)
  {
    assert forall g: nat :: Local(t, g) && g < |s.streams| ==> Local(s, g) && t.streams[g] == s.streams[g];
  }

  lemma PeersKeepIds(s: State, t: State)
    requires IdsOk(s) && Grows(s, t) && PeersOnly(s, t)
    ensures IdsOk(t)
  {
    assert forall g: nat :: Local(t, g) ==> Local(s, g) && t.streams[g].id == s.streams[g].id;
  }

  // ----- frames queued -----

  ghost function Emitted(log: seq<(nat, Frame)>, g: nat): seq<Frame> {
    if log == [] then []
    else
      var front := Emitted(log[..|log| - 1], g);
      if log[|log| - 1].0 == g then front + [log[|log| - 1].1] else front
  }

  ghost function FramesOf(log: seq<(nat, Frame)>): seq<Frame> {
    seq(|log|, i requires 0 <= i < |log| => log[i].1)
  }

  ghost function InHand(pc: Pc): seq<Frame> { if pc.Filling? then pc.batch else [] }

  /** The frames of which bytes may be on their way. */
  ghost function OnWire(s: State): seq<Frame> { s.out.sent + s.out.lost + InHand(s.pc) }

  /** Every frame queued is on the wire, in the failed write, in the batch being collected or
      still queued, in that order; it bears the id of a registered stream; and a batch keeps
      to its cap. */
  ghost predicate LogOk(s: State) {
    && FramesOf(s.out.log) == OnWire(s) + s.out.queue
    && (s.out.lost != [] ==> s.pc.Leaving? || s.pc.Cleared? || s.pc.Exited?)
    && (forall i: nat :: i < |s.out.log| ==> Owned(s, s.out.log[i]))
    && (s.pc.Filling? ==> ValidBatch(BatchCap(s.setup.side), s.pc.batch))
  }

  ghost predicate Owned(s: State, e: (nat, Frame)) {
    e.0 < |s.streams| && s.streams[e.0].id == e.1.streamId && !e.1.frameType.WindowUpdate?
  }

  /** A step queues one frame, or moves frames towards the wire, or neither. */
  ghost predicate Moves(s: State, t: State) {
    var a, b, hand := s.out, t.out, InHand(s.pc);
    && (a.lost == [] || !s.pc.Filling?)
    && if b.log != a.log then
         && |b.log| == |a.log| + 1 && b.log[..|a.log|] == a.log && Owned(s, b.log[|a.log|])
         && b == a.(log := b.log, queue := a.queue + [b.log[|a.log|].1]) && InHand(t.pc) == hand
       else if InHand(t.pc) == hand then b.(shut := false) == a.(shut := false)
       else if t.pc.Filling? then
         a.queue != [] && InHand(t.pc) == hand + [a.queue[0]] && b == a.(queue := a.queue[1..])
       else b == a.(sent := a.sent + hand) || b == a.(lost := a.lost + hand)
  }

  /** The frame the I/O task holds, or is about to answer with a reset, is of stream `g`. */
  ghost predicate Holding(s: State) {
    s.pc.TimedOut? ==> s.pc.g < |s.streams| && s.streams[s.pc.g].id == s.pc.f.streamId
  }

  lemma StepMoves(s: State, step: Step)
    requires Enabled(s, step) && (s.out.lost == [] || !s.pc.Filling?) && Holding(s)
    ensures Moves(s, Apply(s, step))
  {
    if TaskStep(step) {
      TaskStepMoves(s, step);
    } else {
      IoStepMoves(s, step);
    }
  }

  lemma TaskStepMoves(s: State, step: Step)
    requires Enabled(s, step) && TaskStep(step) && (s.out.lost == [] || !s.pc.Filling?)
    ensures Moves(s, Apply(s, step))
  {
  }

  lemma IoStepMoves(s: State, step: Step)
    requires Enabled(s, step) && !TaskStep(step) && (s.out.lost == [] || !s.pc.Filling?) && Holding(s)
    ensures Moves(s, Apply(s, step))
  {
    if step.WriteBatch? || step.WriteFails? {
      assert s.out.sent + [] == s.out.sent;
    }
  }

  lemma MovesKeepsFrames(s: State, t: State)
    requires Moves(s, t) && FramesOf(s.out.log) == OnWire(s) + s.out.queue
    ensures FramesOf(t.out.log) == OnWire(t) + t.out.queue
  {
    if t.out.log != s.out.log {
      assert FramesOf(t.out.log) == FramesOf(s.out.log) + [t.out.log[|s.out.log|].1];
    }
  }

  lemma StepKeepsLog(s: State, step: Step)
    requires LogOk(s) && Holding(s) && Enabled(s, step)
    ensures LogOk(Apply(s, step))
  {
    var t := Apply(s, step);
    StreamsGrow(s, step);
    StepMoves(s, step);
    MovesKeepsFrames(s, t);
    MovesKeepsOwners(s, t);
    StepKeepsLost(s, step);
    StepKeepsBatch(s, step);
  }

  lemma MovesKeepsOwners(s: State, t: State)
    requires LogOk(s) && Moves(s, t) && Grows(s, t)
    ensures forall i: nat :: i < |t.out.log| ==> Owned(t, t.out.log[i])
  {
    forall i: nat | i < |t.out.log| ensures Owned(t, t.out.log[i]) {
      if i < |s.out.log| {
        assert Owned(s, s.out.log[i]);
        assert t.out.log[i] == s.out.log[i];
      }
    }
  }

  lemma TaskKeepsBatch(s: State, step: Step)
    requires Enabled(s, step) && TaskStep(step)
    ensures Apply(s, step).pc == s.pc && Apply(s, step).out.lost == s.out.lost
  {
  }

  lemma StepKeepsLost(s: State, step: Step)
    requires LogOk(s) && Enabled(s, step)
    ensures var t := Apply(s, step);
      t.out.lost != [] ==> t.pc.Leaving? || t.pc.Cleared? || t.pc.Exited?
  {
    if TaskStep(step) {
      TaskKeepsBatch(s, step);
    } else {
      IoKeepsLost(s, step);
    }
  }

  lemma IoKeepsLost(s: State, step: Step)
    requires Enabled(s, step) && !TaskStep(step)
    requires s.out.lost != [] ==> s.pc.Leaving? || s.pc.Cleared? || s.pc.Exited?
    ensures var t := Apply(s, step);
      t.out.lost != [] ==> t.pc.Leaving? || t.pc.Cleared? || t.pc.Exited?
  {
  }

  lemma StepKeepsBatch(s: State, step: Step)
    requires LogOk(s) && Enabled(s, step)
    ensures var t := Apply(s, step);
      t.pc.Filling? ==> ValidBatch(BatchCap(s.setup.side), t.pc.batch)
  {
    if TaskStep(step) {
      TaskKeepsBatch(s, step);
    } else {
      IoKeepsBatch(s, step);
    }
  }

  lemma IoKeepsBatch(s: State, step: Step)
    requires Enabled(s, step) && !TaskStep(step)
    requires s.pc.Filling? ==> ValidBatch(BatchCap(s.setup.side), s.pc.batch)
    ensures var t := Apply(s, step);
      t.pc.Filling? ==> ValidBatch(BatchCap(s.setup.side), t.pc.batch)
  {
    if step.TakeMore? {
      assert (s.pc.batch + [s.out.queue[0]])[..|s.pc.batch|] == s.pc.batch;
    }
  }

  // ----- what a stream sends -----

  ghost function Fins(frames: seq<Frame>): nat {
    if frames == [] then 0
    else Fins(frames[..|frames| - 1]) + if frames[|frames| - 1].frameType.Fin? then 1 else 0
  }

  /** All but the resets, which the I/O task sends in the stream's name. */
  ghost function Own(frames: seq<Frame>): seq<Frame> {
    if frames == [] then []
    else
      var front, f := Own(frames[..|frames| - 1]), frames[|frames| - 1];
      if f.frameType.Rst? then front else front + [f]
  }

  ghost function Rsts(frames: seq<Frame>): nat {
    if frames == [] then 0
    else Rsts(frames[..|frames| - 1]) + if frames[|frames| - 1].frameType.Rst? then 1 else 0
  }

  lemma Appended(out: seq<Frame>, f: Frame)
    ensures Rsts(out + [f]) == Rsts(out) + if f.frameType.Rst? then 1 else 0
    ensures Fins(out + [f]) == Fins(out) + if f.frameType.Fin? then 1 else 0
    ensures DataOf(out + [f]) == if Carries(f) then DataOf(out) + f.payload else DataOf(out)
    ensures Own(out + [f]) == if f.frameType.Rst? then Own(out) else Own(out) + [f]
  {
    assert (out + [f])[..|out|] == out;
  }

  /** Data and the closing frame. */
  predicate Plain(f: Frame) { Carries(f) || f.frameType.Fin? }

  ghost predicate AllPlain(frames: seq<Frame>) { forall i :: 0 <= i < |frames| ==> Plain(frames[i]) }

  /** An opening frame and then plain ones. */
  ghost predicate OpensOnce(side: Side, frames: seq<Frame>) {
    frames != [] ==> Opens(side, frames[0]) && forall i :: 0 < i < |frames| ==> Plain(frames[i])
  }

  lemma EmittedSnoc(log: seq<(nat, Frame)>, g: nat, f: Frame, h: nat)
    ensures Emitted(log + [(g, f)], h) == if g == h then Emitted(log, h) + [f] else Emitted(log, h)
  {
    var more := log + [(g, f)];
    assert more[..|more| - 1] == log;
  }

  lemma {:induction false} EmittedNone(log: seq<(nat, Frame)>, g: nat)
    requires forall i: nat :: i < |log| ==> log[i].0 != g
    ensures Emitted(log, g) == []
  {
    if log == [] {
    } else {
      EmittedNone(log[..|log| - 1], g);
    }
  }

  /** What one stream may have queued, given its flags and what the I/O task does with it. */
  ghost predicate AccountOk(side: Side, v: VirtualStream, out: seq<Frame>, closing: bool, pc: Pc, g: nat) {
    && Fins(out) <= 1
    && (!v.closed ==> Fins(out) == 0)
    && (closing ==> v.usable && v.closed && Fins(out) == 0)
    && (v.refused ==> v.peerOpened && v.closed && !v.usable && Own(out) == [] && Fins(out) == 0)
    && DataOf(out) == v.written
    && (v.peerOpened ==> AllPlain(Own(out)))
    && (!v.peerOpened ==> (v.usable <==> Own(out) != []) && OpensOnce(side, Own(out)))
    && (side.Guest? && !v.refused ==> Own(out) == out)
    && (pc.Offering? && pc.g == g ==> v.peerOpened && !v.usable && !v.closed && !v.refused && out == [])
    && (pc.Refusing? && pc.g == g ==> v.refused)
    && (pc.TimedOut? ==> side.Host?)
    && (v.peerOpened && !v.usable ==> Own(out) == [])
    && (v.closed && !v.refused ==> closing || v.fate.finLost || Fins(out) == 1)
    && (v.refused && !(pc.Refusing? && pc.g == g) ==> v.fate.rstLost || Rsts(out) > 0)
    && (v.fate.slow && !(pc.TimedOut? && pc.g == g) ==> v.fate.rstLost || Rsts(out) > 0)
  }

  ghost predicate EmitOk(s: State, g: nat)
    requires g < |s.streams|
  {
    AccountOk(s.setup.side, s.streams[g], Emitted(s.out.log, g), g in s.closing, s.pc, g)
  }

  ghost predicate EmitsOk(s: State) {
    && (forall g: nat :: g < |s.streams| ==> EmitOk(s, g))
    && (forall g :: g in s.closing ==> g < |s.streams|)
    && (s.pc.TimedOut? ==> s.setup.side.Host?)
  }

  lemma StepKeepsEmits(s: State, step: Step)
    requires EmitsOk(s) && LogOk(s) && Routing(s) && Enabled(s, step)
    ensures EmitsOk(Apply(s, step))
  {
    var t := Apply(s, step);
    forall g: nat | g < |t.streams| ensures EmitOk(t, g) {
      if g < |s.streams| {
        assert EmitOk(s, g);
        if TaskStep(step) {
          TaskStepKeepsEmit(s, step, g);
        } else {
          IoStepKeepsEmit(s, step, g);
        }
      } else {
        NewStreamEmits(s, step, g);
      }
    }
    StreamsGrow(s, step);
    ClosingKnown(s, step);
  }

  lemma NewStreamEmits(s: State, step: Step, g: nat)
    requires Routing(s) && LogOk(s) && Enabled(s, step) && |s.streams| <= g < |Apply(s, step).streams|
    requires (forall h :: h in s.closing ==> h < |s.streams|) && (s.pc.TimedOut? ==> s.setup.side.Host?)
    ensures EmitOk(Apply(s, step), g)
  {
    var t := Apply(s, step);
    if step.Register? || step.Admit? {
      NewStream(s, step);
      assert forall i: nat :: i < |s.out.log| ==> Owned(s, s.out.log[i]);
      EmittedNone(s.out.log, g);
      FreshAccount(t.setup.side, t.streams[g], t.pc, g);
    } else {
      NoNewStream(s, step);
    }
  }

  lemma NewStream(s: State, step: Step)
    requires Routing(s) && (s.pc.TimedOut? ==> s.setup.side.Host?) && Enabled(s, step) && (step.Register? || step.Admit?)
    ensures var t, g := Apply(s, step), |s.streams|;
      && t.out.log == s.out.log && t.closing == s.closing && t.setup == s.setup && |t.streams| == g + 1
      && t.streams[g] == Fresh(t.streams[g].id, t.streams[g].peerOpened, t.streams[g].since)
      && (t.pc.Offering? && t.pc.g == g ==> t.streams[g].peerOpened) && (t.pc.Refusing? ==> t.pc.g != g)
      && (t.pc.TimedOut? ==> t.setup.side.Host?)
  {
  }

  lemma FreshAccount(side: Side, v: VirtualStream, pc: Pc, g: nat)
    requires v == Fresh(v.id, v.peerOpened, v.since) && (pc.Offering? && pc.g == g ==> v.peerOpened)
    requires (pc.Refusing? ==> pc.g != g) && (pc.TimedOut? ==> side.Host?)
    ensures AccountOk(side, v, [], false, pc, g)
  {
  }

  lemma NoNewStream(s: State, step: Step)
    requires Enabled(s, step) && !step.Register? && !step.Admit?
    ensures |Apply(s, step).streams| == |s.streams|
  {
    if TaskStep(step) {
      NoNewTaskStream(s, step);
    } else {
      NoNewIoStream(s, step);
    }
  }

  lemma NoNewTaskStream(s: State, step: Step)
    requires Enabled(s, step) && TaskStep(step) && !step.Register?
    ensures |Apply(s, step).streams| == |s.streams|
  {
  }

  lemma NoNewIoStream(s: State, step: Step)
    requires Enabled(s, step) && !TaskStep(step) && !step.Admit?
    ensures |Apply(s, step).streams| == |s.streams|
  {
  }

  lemma ClosingKnown(s: State, step: Step)
    requires Enabled(s, step)
    ensures var t := Apply(s, step);
      && (forall g :: g in t.closing ==> g in s.closing || g < |s.streams|)
      && (t.pc.TimedOut? ==> s.pc.TimedOut? || s.setup.side.Host?)
  {
    if TaskStep(step) {
      TaskClosingKnown(s, step);
    } else {
      IoClosingKnown(s, step);
    }
  }

  lemma TaskClosingKnown(s: State, step: Step)
    requires Enabled(s, step) && TaskStep(step)
    ensures Apply(s, step).pc == s.pc && forall g :: g in Apply(s, step).closing ==> g in s.closing || g < |s.streams|
  {
  }

  lemma IoClosingKnown(s: State, step: Step)
    requires Enabled(s, step) && !TaskStep(step)
    ensures Apply(s, step).closing == s.closing && (Apply(s, step).pc.TimedOut? ==> s.pc.TimedOut? || s.setup.side.Host?)
  {
  }

  lemma TaskStepKeepsEmit(s: State, step: Step, h: nat)
    requires h < |s.streams| && EmitOk(s, h) && Enabled(s, step) && TaskStep(step)
    ensures EmitOk(Apply(s, step), h)
  {
    match step
    case SendOpening(g, f) => OpeningKeepsEmit(s, g, f, h);
    case Write(g, f) => WriteKeepsEmit(s, g, f, h);
    case SendFin(g) => FinKeepsEmit(s, g, h);
    case Drop(g) => DropKeepsEmit(s, g, h);
    case Close(g) => CloseKeepsEmit(s, g, h);
    case FinFails(g) => LostFinKeepsEmit(s, g, h);
    case _ => TaskStepKeepsFlags(s, step, h);
  }

  lemma OpeningKeepsEmit(s: State, g: nat, f: Frame, h: nat)
    requires h < |s.streams| && EmitOk(s, h) && Enabled(s, SendOpening(g, f))
    ensures EmitOk(Apply(s, SendOpening(g, f)), h)
  {
    EmittedSnoc(s.out.log, g, f, h);
    if g == h {
      OpeningAccount(s.setup.side, s.streams[h], Emitted(s.out.log, h), f, h in s.closing, s.pc, h);
    }
  }

  lemma OpeningAccount(side: Side, v: VirtualStream, out: seq<Frame>, f: Frame, closing: bool, pc: Pc, g: nat)
    requires AccountOk(side, v, out, closing, pc, g) && !v.peerOpened && !v.usable && Opens(side, f)
    ensures AccountOk(side, v.(usable := true), out + [f], closing, pc, g)
  {
    Appended(out, f);
  }

  lemma WriteKeepsEmit(s: State, g: nat, f: Frame, h: nat)
    requires h < |s.streams| && EmitOk(s, h) && Enabled(s, Write(g, f))
    ensures EmitOk(Apply(s, Write(g, f)), h)
  {
    EmittedSnoc(s.out.log, g, f, h);
    if g == h {
      WriteAccount(s.setup.side, s.streams[h], Emitted(s.out.log, h), f, h in s.closing, s.pc, h);
    }
  }

  lemma WriteAccount(side: Side, v: VirtualStream, out: seq<Frame>, f: Frame, closing: bool, pc: Pc, g: nat)
    requires AccountOk(side, v, out, closing, pc, g) && v.usable && Sendable(side, f)
    ensures AccountOk(side, v.(written := v.written + f.payload), out + [f], closing, pc, g)
  {
    Appended(out, f);
  }

  lemma FinKeepsEmit(s: State, g: nat, h: nat)
    requires h < |s.streams| && EmitOk(s, h) && Enabled(s, SendFin(g))
    ensures EmitOk(Apply(s, SendFin(g)), h)
  {
    var f := Frame(s.streams[g].id, Fin, []);
    EmittedSnoc(s.out.log, g, f, h);
    if g == h {
      FinAccount(s.setup.side, s.streams[h], Emitted(s.out.log, h), f, s.pc, h);
    }
  }

  lemma DropKeepsEmit(s: State, g: nat, h: nat)
    requires h < |s.streams| && EmitOk(s, h) && Enabled(s, Drop(g))
    ensures EmitOk(Apply(s, Drop(g)), h)
  {
    var t := Apply(s, Drop(g));
    DropChanges(s, g, t);
    var f := Frame(s.streams[g].id, Fin, []);
    EmittedSnoc(s.out.log, g, f, h);
    if g == h {
      DropAccount(s.setup.side, s.streams[h], Emitted(s.out.log, h), f, h in s.closing, s.pc, h);
    } else {
      assert t.streams[h] == s.streams[h];
    }
  }

  lemma DropChanges(s: State, g: nat, t: State)
    requires Enabled(s, Drop(g)) && t == Apply(s, Drop(g))
    ensures t.closing == s.closing && t.pc == s.pc && t.setup == s.setup
    ensures t.streams == s.streams[g := t.streams[g]]
    ensures var v, w, f := s.streams[g], t.streams[g], Frame(s.streams[g].id, Fin, []);
      var shut := v.(rxOpen := false, closed := true);
      && (v.closed ==> w == shut && t.out.log == s.out.log)
      && (v.closed || (w == shut && t.out.log == s.out.log + [(g, f)])
          || (w == shut.(fate := v.fate.(finLost := true)) && t.out.log == s.out.log))
  {
  }

  lemma DropAccount(side: Side, v: VirtualStream, out: seq<Frame>, f: Frame, closing: bool, pc: Pc, g: nat)
    requires AccountOk(side, v, out, closing, pc, g) && v.usable && f.frameType.Fin?
    ensures var w := v.(rxOpen := false, closed := true);
      if v.closed then AccountOk(side, w, out, closing, pc, g)
      else AccountOk(side, w, out + [f], closing, pc, g)
           && AccountOk(side, w.(fate := v.fate.(finLost := true)), out, closing, pc, g)
  {
    Appended(out, f);
  }

  /** The flag was swapped by the close that now sends. */
  lemma FinAccount(side: Side, v: VirtualStream, out: seq<Frame>, f: Frame, pc: Pc, g: nat)
    requires AccountOk(side, v, out, true, pc, g) && f.frameType.Fin?
    ensures AccountOk(side, v, out + [f], false, pc, g)
    ensures AccountOk(side, v.(fate := v.fate.(finLost := true)), out, false, pc, g)
  {
    Appended(out, f);
  }

  lemma CloseKeepsEmit(s: State, g: nat, h: nat)
    requires h < |s.streams| && EmitOk(s, h) && Enabled(s, Close(g))
    ensures EmitOk(Apply(s, Close(g)), h)
  {
  }

  lemma LostFinKeepsEmit(s: State, g: nat, h: nat)
    requires h < |s.streams| && EmitOk(s, h) && Enabled(s, FinFails(g))
    ensures EmitOk(Apply(s, FinFails(g)), h)
  {
    if g == h {
      FinAccount(s.setup.side, s.streams[h], Emitted(s.out.log, h), Frame(0, Fin, []), s.pc, h);
    }
  }

  lemma TaskStepKeepsFlags(s: State, step: Step, h: nat)
    requires h < |s.streams| && Enabled(s, step)
    requires step.Allocate? || step.Register? || step.OpeningFails? || step.Take?
    ensures var t := Apply(s, step);
      && t.out.log == s.out.log && t.closing <= s.closing && h < |t.streams| && t.pc == s.pc && t.setup == s.setup
      && SameFlags(s.streams[h], t.streams[h])
  {
  }

  lemma IoStepKeepsEmit(s: State, step: Step, h: nat)
    requires h < |s.streams| && EmitOk(s, h) && Enabled(s, step) && !TaskStep(step)
    ensures EmitOk(Apply(s, step), h)
  {
    if step.Reset? || step.ResetSlow? {
      ResetKeepsEmit(s, s.pc.g, if step.Reset? then s.streams[s.pc.g].id else s.pc.f.streamId, h);
    } else if step.GiveUp? || step.Accept? || step.Refuse? {
      VerdictKeepsEmit(s, step, h);
    } else {
      IoStepKeepsFlags(s, step, h);
    }
  }

  /** What the I/O task decides about a stream. */
  lemma VerdictKeepsEmit(s: State, step: Step, h: nat)
    requires h < |s.streams| && EmitOk(s, h) && Enabled(s, step) && (step.GiveUp? || step.Accept? || step.Refuse?)
    ensures EmitOk(Apply(s, step), h)
  {
  }

  lemma ResetKeepsEmit(s: State, g: nat, id: u32, h: nat)
    requires h < |s.streams| && EmitOk(s, h) && g < |s.streams|
    requires (s.pc.Refusing? || s.pc.TimedOut?) && s.pc.g == g
    ensures EmitOk(Dropped(s, g, id), h)
  {
    var t, f := Dropped(s, g, id), Frame(id, Rst, []);
    if Room(s) {
      EmittedSnoc(s.out.log, g, f, h);
    }
    ResetAccount(s.setup.side, s.streams[h], Emitted(s.out.log, h), f, h in s.closing, s.pc, h);
  }

  lemma ResetAccount(side: Side, v: VirtualStream, out: seq<Frame>, f: Frame, closing: bool, pc: Pc, g: nat)
    requires AccountOk(side, v, out, closing, pc, g) && f.frameType.Rst? && (pc.Refusing? || pc.TimedOut?)
    ensures pc.g == g ==> AccountOk(side, v, out + [f], closing, Decoding, g)
    ensures pc.g == g ==> AccountOk(side, v.(fate := v.fate.(rstLost := true)), out, closing, Decoding, g)
    ensures pc.g != g ==> AccountOk(side, v, out, closing, Decoding, g)
  {
    Appended(out, f);
  }

  lemma IoStepKeepsFlags(s: State, step: Step, h: nat)
    requires h < |s.streams| && Enabled(s, step) && !TaskStep(step)
    requires !step.Reset? && !step.ResetSlow? && !step.GiveUp? && !step.Accept? && !step.Refuse?
    ensures var t := Apply(s, step);
      && t.out.log == s.out.log && t.closing == s.closing && h < |t.streams| && t.setup == s.setup
      && SameFlags(s.streams[h], t.streams[h])
      && (t.pc.Offering? ==> t.pc.g >= |s.streams|) && !t.pc.Refusing? && !t.pc.TimedOut? && !s.pc.Refusing? && !s.pc.TimedOut?
  {
  }

  ghost predicate SameFlags(v: VirtualStream, w: VirtualStream) {
    w.peerOpened == v.peerOpened && w.usable == v.usable && w.closed == v.closed && w.refused == v.refused
    && w.written == v.written && w.fate == v.fate
  }
}
