/** The guest's and the host's multiplexer joined by a byte pipe in each direction. */
module MuxLink {
  import opened Bytes
  import opened Framing
  import opened VsockProtocol
  import opened Runs
  import opened Multiplexer
  import opened MuxReceive
  import opened MuxSend
  import opened MuxRuns

  datatype Pair = Pair(guest: State, host: State)

  function Start(mac: bool, handlers: (bool, bool)): Pair {
    Pair(Init(Setup(Guest, handlers.0)), Init(Setup(Host(mac), handlers.1)))
  }

  /** The bytes a side reads are the next of those the other may have written; a payload is
      under 2^32 bytes. */
  ghost predicate Allowed(to: State, other: State, step: Step) {
    && (step.ReadChunk? ==> to.inp.received + step.chunk <= EncodeAll(Encode, OnWire(other)))
    && (step.Write? ==> Encodable(step.f)) && (step.SendOpening? ==> Encodable(step.f))
  }

  ghost predicate Moved(a: State, b: State, a': State) {
    exists step :: Enabled(a, step) && Allowed(a, b, step) && a' == Apply(a, step)
  }

  ghost predicate PairNext(p: Pair, q: Pair) {
    || (q.host == p.host && Moved(p.guest, p.host, q.guest))
    || (q.guest == p.guest && Moved(p.host, p.guest, q.host))
  }

  ghost predicate Joined(mac: bool, handlers: (bool, bool), p: Pair) { Reachable(Start(mac, handlers), PairNext, p) }

  // ----- two states that face each other -----

  /** Each is safe, and each has decoded a front of what the other has queued. */
  ghost predicate Facing(a: State, b: State) {
    && Safe(a) && Safe(b) && a.setup.side.Guest? != b.setup.side.Guest?
    && a.inp.decoded <= FramesOf(b.out.log) && b.inp.decoded <= FramesOf(a.out.log)
  }

  predicate IsOpening(f: Frame) { f.frameType in {Connect, ReverseRequest, DnsRequest, HostConnect} }

  lemma {:induction false} InOwn(log: seq<(nat, Frame)>, i: nat) returns (p: nat)
    requires i < |log| && !log[i].1.frameType.Rst?
    ensures var own := Own(Emitted(log, log[i].0)); p < |own| && own[p] == log[i].1
  {
    var front, last := log[..|log| - 1], log[|log| - 1];
    assert front + [last] == log;
    EmittedSnoc(front, last.0, last.1, log[i].0);
    Appended(Emitted(front, log[i].0), last.1);
    if i == |log| - 1 {
      p := |Own(Emitted(front, last.0))|;
    } else {
      assert front[i] == log[i];
      p := InOwn(front, i);
    }
  }

  /** Opening frames come from streams opened on that side. */
  lemma OpenerIsLocal(b: State, i: nat)
    requires Safe(b) && i < |b.out.log| && IsOpening(b.out.log[i].1)
    ensures var h := b.out.log[i].0;
      Local(b, h) && b.streams[h].usable && b.streams[h].id == b.out.log[i].1.streamId
  {
    var h := b.out.log[i].0;
    assert Owned(b, b.out.log[i]) && EmitOk(b, h);
    var p := InOwn(b.out.log, i);
  }

  /** A stream that the peer opened was opened there, with an id of the peer's parity. */
  lemma PeerStreamIsTheirs(a: State, b: State, g: nat) returns (h: nat)
    requires Facing(a, b) && Peer(a, g)
    ensures Local(b, h) && b.streams[h].usable && b.streams[h].id == a.streams[g].id
    ensures !OwnParity(a.setup.side, a.streams[g].id)
  {
    assert StreamOk(a, g);
    var i := a.streams[g].since;
    FrameAt(a.inp.decoded, b.out.log, i);
    OpenerIsLocal(b, i);
    OwnerIsKnown(b, i);
    h := b.out.log[i].0;
    ParityDiffers(a.setup.side, b.setup.side, b.streams[h].id);
  }

  lemma PeersOpenOther(a: State, b: State)
    requires Facing(a, b)
    ensures PeerOpensOther(a)
  {
    forall g: nat | Peer(a, g) ensures !OwnParity(a.setup.side, a.streams[g].id) {
      var h := PeerStreamIsTheirs(a, b, g);
    }
  }

  /** A frame heard with an id of one's own parity answers a stream one has opened. */
  lemma HeardOwnId(a: State, b: State, i: nat) returns (g: nat)
    requires Facing(a, b) && i < |a.inp.decoded| && OwnParity(a.setup.side, a.inp.decoded[i].streamId)
    ensures Local(a, g) && a.streams[g].usable && a.streams[g].id == a.inp.decoded[i].streamId
  {
    HeardFromOwner(a, b, i);
    g := PeerStreamIsTheirs(b, a, b.out.log[i].0);
  }

  lemma HeardFromOwner(a: State, b: State, i: nat)
    requires Facing(a, b) && i < |a.inp.decoded|
    ensures i < |b.out.log| && b.out.log[i].1 == a.inp.decoded[i]
    ensures var h := b.out.log[i].0;
      && h < |b.streams| && b.streams[h].id == a.inp.decoded[i].streamId
      && (OwnParity(a.setup.side, b.streams[h].id) ==> Peer(b, h))
  {
    FrameAt(a.inp.decoded, b.out.log, i);
    OwnerIsKnown(b, i);
    ParityDiffers(a.setup.side, b.setup.side, b.out.log[i].1.streamId);
  }

  lemma FrameAt(decoded: seq<Frame>, log: seq<(nat, Frame)>, i: nat)
    requires decoded <= FramesOf(log) && i < |decoded|
    ensures i < |log| && decoded[i] == log[i].1
  {
    assert decoded[i] == FramesOf(log)[i];
  }

  lemma ParityDiffers(x: Side, y: Side, id: u32)
    requires x.Guest? != y.Guest?
    ensures OwnParity(x, id) <==> !OwnParity(y, id)
  {
  }

  lemma OwnerIsKnown(b: State, i: nat)
    requires Safe(b) && i < |b.out.log|
    ensures var h := b.out.log[i].0;
      && h < |b.streams| && b.streams[h].id == b.out.log[i].1.streamId
      && (Local(b, h) ==> OwnParity(b.setup.side, b.streams[h].id))
  {
    assert Owned(b, b.out.log[i]);
  }

  lemma {:induction false} ByIdNone(side: Side, frames: seq<Frame>, id: u32)
    requires forall i: nat :: i < |frames| ==> frames[i].streamId != id
    ensures ById(side, frames, id) == []
  {
    if frames == [] {
    } else {
      ByIdNone(side, frames[..|frames| - 1], id);
    }
  }

  // ----- what the joined machines keep -----

  ghost predicate Fed(to: State, other: State) {
    && to.inp.received <= EncodeAll(Encode, FramesOf(other.out.log))
    && forall i: nat :: i < |other.out.log| ==> Encodable(other.out.log[i].1)
  }

  /** Nothing was heard for a local stream before it was registered. */
  ghost predicate Causal(a: State) {
    a.ids.issued <= FreshIds(a.setup.side) ==> forall g: nat :: Local(a, g) ==> Silent(a, g)
  }

  ghost predicate Silent(a: State, g: nat)
    requires g < |a.streams|
  {
    a.streams[g].since <= |a.inp.decoded|
    && ById(a.setup.side, a.inp.decoded[..a.streams[g].since], a.streams[g].id) == []
  }

  /** The first frame queued for a local stream is its opening frame. */
  ghost predicate OpensFirst(a: State) {
    a.ids.issued <= FreshIds(a.setup.side) ==> forall g: nat :: Local(a, g) ==> StartsOpen(a, g)
  }

  ghost predicate StartsOpen(a: State, g: nat) {
    Emitted(a.out.log, g) != [] ==> Opens(a.setup.side, Emitted(a.out.log, g)[0])
  }

  ghost predicate Linked(a: State, b: State) {
    && Facing(a, b) && Fed(a, b) && Fed(b, a)
    && Causal(a) && Causal(b) && OpensFirst(a) && OpensFirst(b)
  }

  ghost predicate LogGrows(a: State, a': State) {
    |a.out.log| <= |a'.out.log| <= |a.out.log| + 1 && a'.out.log[..|a.out.log|] == a.out.log
  }

  lemma StepGrowsLog(a: State, step: Step)
    requires Safe(a) && Enabled(a, step)
    ensures LogGrows(a, Apply(a, step))
  {
    StepMoves(a, step);
  }

  lemma QueuedIsSmall(a: State, step: Step)
    requires Enabled(a, step) && (step.Write? || step.SendOpening? ==> Encodable(step.f))
    ensures var log := Apply(a, step).out.log; |log| == |a.out.log| + 1 ==> Encodable(log[|a.out.log|].1)
  {
    if TaskStep(step) {
      TaskQueuesSmall(a, step);
    } else {
      IoQueuesSmall(a, step);
    }
  }

  lemma TaskQueuesSmall(a: State, step: Step)
    requires TaskStep(step) && Enabled(a, step) && (step.Write? || step.SendOpening? ==> Encodable(step.f))
    ensures var log := Apply(a, step).out.log; |log| == |a.out.log| + 1 ==> Encodable(log[|a.out.log|].1)
  {
  }

  lemma IoQueuesSmall(a: State, step: Step)
    requires !TaskStep(step) && Enabled(a, step)
    ensures var log := Apply(a, step).out.log; |log| == |a.out.log| + 1 ==> Encodable(log[|a.out.log|].1)
  {
  }

  lemma ReceivedChange(a: State, step: Step)
    requires Enabled(a, step)
    ensures Apply(a, step).inp.received == if step.ReadChunk? then a.inp.received + step.chunk else a.inp.received
  {
  }

  lemma EncodeAllPrefix(xs: seq<Frame>, ys: seq<Frame>)
    requires xs <= ys
    ensures EncodeAll(Encode, xs) <= EncodeAll(Encode, ys)
  {
    assert ys == xs + ys[|xs|..];
    EncodeAllAppend(Encode, xs, ys[|xs|..]);
  }

  lemma FramesPrefix(log: seq<(nat, Frame)>, log': seq<(nat, Frame)>)
    requires log <= log'
    ensures FramesOf(log) <= FramesOf(log')
  {
  }

  lemma LogFeeds(received: seq<byte>, log: seq<(nat, Frame)>, log': seq<(nat, Frame)>)
    requires log <= log' && received <= EncodeAll(Encode, FramesOf(log))
    ensures received <= EncodeAll(Encode, FramesOf(log'))
  {
    FramesPrefix(log, log');
    EncodeAllPrefix(FramesOf(log), FramesOf(log'));
  }

  /** A step of `a` seen from the pipe out of it. */
  lemma StepFeeds(a: State, b: State, step: Step)
    requires Safe(a) && Fed(b, a) && Enabled(a, step) && Allowed(a, b, step)
    ensures Fed(b, Apply(a, step))
  {
    StepGrowsLog(a, step);
    QueuedIsSmall(a, step);
    FedGrows(a, b, Apply(a, step));
  }

  lemma FedGrows(a: State, b: State, a': State)
    requires Fed(b, a) && LogGrows(a, a')
    requires |a'.out.log| == |a.out.log| + 1 ==> Encodable(a'.out.log[|a.out.log|].1)
    ensures Fed(b, a')
  {
    LogFeeds(b.inp.received, a.out.log, a'.out.log);
    EntriesStaySmall(a.out.log, a'.out.log);
  }

  lemma EntriesStaySmall(log: seq<(nat, Frame)>, log': seq<(nat, Frame)>)
    requires |log'| <= |log| + 1 && log <= log'
    requires forall i: nat :: i < |log| ==> Encodable(log[i].1)
    requires |log'| == |log| + 1 ==> Encodable(log'[|log|].1)
    ensures forall i: nat :: i < |log'| ==> Encodable(log'[i].1)
  {
    forall i: nat | i < |log'| ensures Encodable(log'[i].1) {
      if i < |log| {
        assert log'[i] == log[i];
      }
    }
  }

  /** A step of `a` seen from the pipe into it. */
  lemma StepIsFed(a: State, b: State, step: Step)
    requires Safe(b) && Fed(a, b) && Enabled(a, step) && Allowed(a, b, step)
    ensures Fed(Apply(a, step), b)
  {
    ReceivedChange(a, step);
    assert OnWire(b) <= FramesOf(b.out.log);
    EncodeAllPrefix(OnWire(b), FramesOf(b.out.log));
  }

  lemma FedDecodes(a: State, b: State)
    requires Safe(a) && Fed(a, b)
    ensures a.inp.decoded <= FramesOf(b.out.log)
  {
    var frames := FramesOf(b.out.log);
    LinkDeliversPrefix(frames, a.inp.received);
    assert a.inp.decoded <= a.inp.decoded + Drain(NextFrame, a.inp.buf).items;
  }

  lemma StepKeepsFacing(a: State, b: State, step: Step)
    requires Facing(a, b) && Fed(a, b) && Fed(b, a) && Enabled(a, step) && Allowed(a, b, step)
    ensures Facing(Apply(a, step), b) && Fed(Apply(a, step), b) && Fed(b, Apply(a, step))
  {
    StepKeepsSafe(a, step);
    StepFeeds(a, b, step);
    StepIsFed(a, b, step);
    StreamsGrow(a, step);
    FedDecodes(Apply(a, step), b);
    FedDecodes(b, Apply(a, step));
  }

  // ----- nothing is heard too early -----

  ghost predicate KeepsPast(a: State, a': State) {
    && a.inp.decoded <= a'.inp.decoded && |a.streams| <= |a'.streams| && a'.setup == a.setup
    && a.ids.issued <= a'.ids.issued
    && forall g: nat :: g < |a.streams| ==>
         && a'.streams[g].since == a.streams[g].since && a'.streams[g].id == a.streams[g].id
         && a'.streams[g].peerOpened == a.streams[g].peerOpened
  }

  lemma StepKeepsPast(a: State, step: Step)
    requires Enabled(a, step)
    ensures KeepsPast(a, Apply(a, step))
  {
    StepOpens(a, step);
    StreamsGrow(a, step);
    DecodedGrows(a, step);
  }

  lemma DecodedGrows(a: State, step: Step)
    requires Enabled(a, step)
    ensures a.inp.decoded <= Apply(a, step).inp.decoded && a.ids.issued <= Apply(a, step).ids.issued
  {
  }

  lemma StepKeepsCausal(a: State, b: State, step: Step)
    requires Facing(a, b) && Causal(a) && Enabled(a, step)
    ensures Causal(Apply(a, step))
  {
    var a' := Apply(a, step);
    StepKeepsPast(a, step);
    if a'.ids.issued <= FreshIds(a.setup.side) {
      forall g: nat | Local(a', g) ensures Silent(a', g) {
        if g < |a.streams| {
          PastStaysSilent(a, a', g);
        } else {
          NewLocal(a, step, g);
          NothingHeardYet(a, b, step.id);
          RegisterIsSilent(a, step.id);
        }
      }
    }
  }

  lemma PastStaysSilent(a: State, a': State, g: nat)
    requires Causal(a) && KeepsPast(a, a') && a'.ids.issued <= FreshIds(a.setup.side)
    requires g < |a.streams| && Local(a', g)
    ensures Silent(a', g)
  {
    assert Local(a, g) && Silent(a, g);
    assert a'.inp.decoded[..a.streams[g].since] == a.inp.decoded[..a.streams[g].since];
  }

  lemma NewLocal(a: State, step: Step, g: nat)
    requires Enabled(a, step) && |a.streams| <= g && Local(Apply(a, step), g)
    ensures step.Register? && g == |a.streams| && step.id in a.ids.reserved
  {
    StreamsGrow(a, step);
    IdsChange(a, step);
  }

  /** For an id not yet registered no frame has been heard. */
  lemma NothingHeardYet(a: State, b: State, id: u32)
    requires Facing(a, b) && id in a.ids.reserved && a.ids.issued <= FreshIds(a.setup.side)
    ensures ById(a.setup.side, a.inp.decoded, id) == []
  {
    forall i: nat | i < |a.inp.decoded| ensures a.inp.decoded[i].streamId != id {
      if a.inp.decoded[i].streamId == id {
        var g := HeardOwnId(a, b, i);
      }
    }
    ByIdNone(a.setup.side, a.inp.decoded, id);
  }

  lemma RegisterIsSilent(a: State, id: u32)
    requires Enabled(a, Register(id)) && ById(a.setup.side, a.inp.decoded, id) == []
    ensures Silent(Apply(a, Register(id)), |a.streams|)
  {
    assert a.inp.decoded[..|a.inp.decoded|] == a.inp.decoded;
  }

  // ----- the opening frame comes first -----

  /** Which step queues a frame for which stream. */
  lemma QueuedBy(a: State, step: Step)
    requires Enabled(a, step)
    ensures var log := Apply(a, step).out.log;
      |log| == |a.out.log| + 1 ==>
        var (h, f) := log[|a.out.log|];
        || (step.SendOpening? && h == step.g && Opens(a.setup.side, f))
        || ((step.Write? || step.Drop?) && h == step.g && h < |a.streams| && a.streams[h].usable)
        || (step.SendFin? && h == step.g && h < |a.streams| && h in a.closing)
        || (step.Reset? && a.pc.Refusing? && h == a.pc.g)
        || (step.ResetSlow? && a.pc.TimedOut? && h == a.pc.g)
  {
  }

  lemma StepKeepsOpensFirst(a: State, b: State, step: Step)
    requires Facing(a, b) && OpensFirst(a) && Enabled(a, step)
    ensures OpensFirst(Apply(a, step))
  {
    var a' := Apply(a, step);
    StepKeepsPast(a, step);
    if a'.ids.issued <= FreshIds(a.setup.side) {
      forall g: nat | Local(a', g) ensures StartsOpen(a', g) {
        if g < |a.streams| {
          assert Local(a, g) && StartsOpen(a, g);
          OldStreamStartsOpen(a, b, step, g);
        } else {
          NewStreamIsQuiet(a, step, g);
        }
      }
    }
  }

  lemma NewStreamIsQuiet(a: State, step: Step, g: nat)
    requires Safe(a) && Enabled(a, step) && |a.streams| <= g && Local(Apply(a, step), g)
    ensures Emitted(Apply(a, step).out.log, g) == []
  {
    NewLocal(a, step, g);
    NewStream(a, step);
    assert forall i: nat :: i < |a.out.log| ==> Owned(a, a.out.log[i]);
    EmittedNone(a.out.log, g);
  }

  lemma OldStreamStartsOpen(a: State, b: State, step: Step, g: nat)
    requires Facing(a, b) && Enabled(a, step) && Local(a, g) && StartsOpen(a, g)
    requires a.ids.issued <= FreshIds(a.setup.side) && Apply(a, step).setup == a.setup
    ensures StartsOpen(Apply(a, step), g)
  {
    var a' := Apply(a, step);
    StepGrowsLog(a, step);
    if Emitted(a.out.log, g) == [] {
      FirstQueued(a, b, step, g);
    }
    EmittedGrows(a, a', g);
  }

  lemma FirstQueued(a: State, b: State, step: Step, g: nat)
    requires Facing(a, b) && Enabled(a, step) && Local(a, g) && Emitted(a.out.log, g) == []
    requires a.ids.issued <= FreshIds(a.setup.side)
    ensures var log := Apply(a, step).out.log;
      |log| == |a.out.log| + 1 && log[|a.out.log|].0 == g ==> Opens(a.setup.side, log[|a.out.log|].1)
  {
    QueuedBy(a, step);
    UnopenedStream(a, b, g);
  }

  lemma EmittedGrows(a: State, a': State, g: nat)
    requires LogGrows(a, a') && a'.setup == a.setup && StartsOpen(a, g)
    requires Emitted(a.out.log, g) == [] && |a'.out.log| == |a.out.log| + 1 && a'.out.log[|a.out.log|].0 == g ==>
      Opens(a.setup.side, a'.out.log[|a.out.log|].1)
    ensures StartsOpen(a', g)
  {
    var log, log' := a.out.log, a'.out.log;
    if |log'| == |log| {
      assert log' == log;
    } else {
      var (h, f) := log'[|log|];
      assert log' == log + [(h, f)];
      EmittedSnoc(log, h, f, g);
    }
  }

  /** A local stream with nothing queued is not in use, is not being closed, and nothing was
      heard for it. */
  lemma UnopenedStream(a: State, b: State, g: nat)
    requires Facing(a, b) && Local(a, g) && Emitted(a.out.log, g) == [] && a.ids.issued <= FreshIds(a.setup.side)
    ensures !a.streams[g].usable && g !in a.closing
    ensures !(a.pc.Refusing? && a.pc.g == g) && !(a.pc.TimedOut? && a.pc.g == g)
  {
    assert EmitOk(a, g);
    if a.pc.TimedOut? && a.pc.g == g {
      TimedOutIsHeard(a);
      LocalHasParity(a, g);
      var h := HeardOwnId(a, b, |a.inp.decoded| - 1);
      LocalIsUnique(a, g, h);
    }
  }

  lemma TimedOutIsHeard(a: State)
    requires Safe(a) && a.pc.TimedOut?
    ensures a.inp.decoded != [] && a.pc.g < |a.streams|
    ensures a.inp.decoded[|a.inp.decoded| - 1].streamId == a.streams[a.pc.g].id
  {
  }

  lemma LocalHasParity(a: State, g: nat)
    requires Safe(a) && Local(a, g)
    ensures OwnParity(a.setup.side, a.streams[g].id)
  {
  }

  lemma LocalIsUnique(a: State, g: nat, h: nat)
    requires Safe(a) && Local(a, g) && Local(a, h) && a.streams[g].id == a.streams[h].id
    requires a.ids.issued <= FreshIds(a.setup.side)
    ensures g == h
  {
  }

  // ----- runs of the pair -----

  lemma StepKeepsLinked(a: State, b: State, step: Step)
    requires Linked(a, b) && Enabled(a, step) && Allowed(a, b, step)
    ensures Linked(Apply(a, step), b) && Linked(b, Apply(a, step)) && Apply(a, step).setup == a.setup
  {
    StepKeepsFacing(a, b, step);
    StepKeepsCausal(a, b, step);
    StepKeepsOpensFirst(a, b, step);
    StreamsGrow(a, step);
  }

  ghost predicate PairOk(p: Pair) {
    Linked(p.guest, p.host) && Linked(p.host, p.guest) && p.guest.setup.side.Guest? && p.host.setup.side.Host?
  }

  lemma JoinedIsLinked(mac: bool, handlers: (bool, bool), p: Pair)
    requires Joined(mac, handlers, p)
    ensures PairOk(p)
  {
    forall q, r | PairOk(q) && PairNext(q, r) ensures PairOk(r) {
      if r.host == q.host && Moved(q.guest, q.host, r.guest) {
        var step :| Enabled(q.guest, step) && Allowed(q.guest, q.host, step) && r.guest == Apply(q.guest, step);
        StepKeepsLinked(q.guest, q.host, step);
      } else {
        var step :| Enabled(q.host, step) && Allowed(q.host, q.guest, step) && r.host == Apply(q.host, step);
        StepKeepsLinked(q.host, q.guest, step);
      }
    }
    StartIsLinked(mac, handlers);
    ReachableKeeps(Start(mac, handlers), PairNext, PairOk, p);
  }

  lemma StartIsLinked(mac: bool, handlers: (bool, bool))
    ensures PairOk(Start(mac, handlers))
  {
    InitIsSafe(Setup(Guest, handlers.0));
    InitIsSafe(Setup(Host(mac), handlers.1));
  }

  /** Each side of a joined run is a run of its own. */
  ghost predicate EachRuns(g: Setup, h: Setup, p: Pair) { Reached(g, p.guest) && Reached(h, p.host) }

  lemma EachSideRuns(mac: bool, handlers: (bool, bool), p: Pair)
    requires Joined(mac, handlers, p)
    ensures Reached(Setup(Guest, handlers.0), p.guest) && Reached(Setup(Host(mac), handlers.1), p.host)
  {
    var g, h := Setup(Guest, handlers.0), Setup(Host(mac), handlers.1);
    var inv := (q: Pair) => EachRuns(g, h, q);
    forall q, r | inv(q) && PairNext(q, r) ensures inv(r) {
      if r.host == q.host && Moved(q.guest, q.host, r.guest) {
        assert Next(q.guest, r.guest);
        StepIsReachable(Init(g), Next, q.guest, r.guest);
      } else {
        assert Next(q.host, r.host);
        StepIsReachable(Init(h), Next, q.host, r.host);
      }
    }
    StartIsReachable(Init(g), Next);
    StartIsReachable(Init(h), Next);
    ReachableKeeps(Start(mac, handlers), PairNext, inv, p);
  }

  /** The parities are no assumption: in every joined run each side opens ids the other does
      not, so until they run out no registration ever replaces a table entry. */
  lemma IdsNeverClash(mac: bool, handlers: (bool, bool), p: Pair)
    requires Joined(mac, handlers, p)
    ensures PeerOpensOther(p.guest) && PeerOpensOther(p.host)
    ensures p.guest.ids.issued <= FreshIds(p.guest.setup.side) ==>
      forall id :: Enabled(p.guest, Register(id)) ==> id !in p.guest.table
    ensures p.host.ids.issued <= FreshIds(p.host.setup.side) ==>
      forall id :: Enabled(p.host, Register(id)) ==> id !in p.host.table
  {
    JoinedIsLinked(mac, handlers, p);
    PeersOpenOther(p.guest, p.host);
    PeersOpenOther(p.host, p.guest);
    if p.guest.ids.issued <= FreshIds(p.guest.setup.side) {
      SafeIdsAreFresh(p.guest);
    }
    if p.host.ids.issued <= FreshIds(p.host.setup.side) {
      SafeIdsAreFresh(p.host);
    }
  }

  // ----- end to end -----

  lemma {:induction false} EmittedIsById(side: Side, log: seq<(nat, Frame)>, g: nat, id: u32)
    requires forall i: nat :: i < |log| ==> (log[i].1.streamId == id <==> log[i].0 == g) && !log[i].1.frameType.WindowUpdate?
    ensures ById(side, FramesOf(log), id) == Emitted(log, g)
  {
    if log == [] {
    } else {
      var front := log[..|log| - 1];
      EmittedIsById(side, front, g, id);
      assert FramesOf(log)[..|log| - 1] == FramesOf(front);
    }
  }

  /** The frames with the id of a local stream are its own. */
  lemma LocalFrames(a: State, b: State, g: nat, side: Side)
    requires Facing(a, b) && Local(a, g) && a.ids.issued <= FreshIds(a.setup.side)
    ensures forall i: nat :: i < |a.out.log| ==> (a.out.log[i].1.streamId == a.streams[g].id <==> a.out.log[i].0 == g)
    ensures ById(side, FramesOf(a.out.log), a.streams[g].id) == Emitted(a.out.log, g)
  {
    var id := a.streams[g].id;
    PeersOpenOther(a, b);
    LocalHasParity(a, g);
    forall i: nat | i < |a.out.log|
      ensures (a.out.log[i].1.streamId == id <==> a.out.log[i].0 == g) && !a.out.log[i].1.frameType.WindowUpdate? {
      OwnedAt(a, i);
      var h := a.out.log[i].0;
      if a.streams[h].id == id {
        assert Peer(a, h) || Local(a, h);
        LocalIsUnique(a, g, h);
      }
    }
    EmittedIsById(side, a.out.log, g, id);
  }

  lemma OwnedAt(a: State, i: nat)
    requires Safe(a) && i < |a.out.log|
    ensures Owned(a, a.out.log[i])
  {
  }

  lemma {:induction false} TwoInOwn(log: seq<(nat, Frame)>, i: nat, j: nat) returns (p: nat, q: nat)
    requires i < j < |log| && log[i].0 == log[j].0 && !log[i].1.frameType.Rst? && !log[j].1.frameType.Rst?
    ensures var own := Own(Emitted(log, log[i].0)); p < q < |own| && own[p] == log[i].1 && own[q] == log[j].1
  {
    var g, front, last := log[i].0, log[..|log| - 1], log[|log| - 1];
    assert front + [last] == log && front[i] == log[i];
    EmittedSnoc(front, last.0, last.1, g);
    Appended(Emitted(front, g), last.1);
    if j == |log| - 1 {
      p := InOwn(front, i);
      q := |Own(Emitted(front, g))|;
    } else {
      assert front[j] == log[j];
      p, q := TwoInOwn(front, i, j);
    }
  }

  /** A side opens each of its streams once. */
  lemma OneOpening(a: State, i: nat, j: nat)
    requires Safe(a) && i < |a.out.log| && j < |a.out.log| && a.ids.issued <= FreshIds(a.setup.side)
    requires IsOpening(a.out.log[i].1) && IsOpening(a.out.log[j].1) && a.out.log[i].1.streamId == a.out.log[j].1.streamId
    ensures i == j
  {
    OpenerIsLocal(a, i);
    OpenerIsLocal(a, j);
    LocalIsUnique(a, a.out.log[i].0, a.out.log[j].0);
    OwnOpensOnce(a, a.out.log[i].0);
    if i < j {
      TwoOpenings(a.setup.side, a.out.log, i, j);
    } else if j < i {
      TwoOpenings(a.setup.side, a.out.log, j, i);
    }
  }

  lemma TwoOpenings(side: Side, log: seq<(nat, Frame)>, i: nat, j: nat)
    requires i < j < |log| && log[i].0 == log[j].0 && IsOpening(log[i].1) && IsOpening(log[j].1)
    ensures !OpensOnce(side, Own(Emitted(log, log[i].0)))
  {
    var p, q := TwoInOwn(log, i, j);
    LateOpening(side, Own(Emitted(log, log[i].0)), q);
  }

  lemma LateOpening(side: Side, own: seq<Frame>, q: nat)
    requires 0 < q < |own| && IsOpening(own[q])
    ensures !OpensOnce(side, own)
  {
    assert !Plain(own[q]);
  }

  lemma OwnOpensOnce(a: State, g: nat)
    requires Safe(a) && Local(a, g)
    ensures OpensOnce(a.setup.side, Own(Emitted(a.out.log, g)))
  {
    assert EmitOk(a, g);
  }

  /** The frame that made the peer register the stream. */
  lemma OpenedBy(a: State, b: State, h: nat)
    requires Facing(a, b) && Peer(b, h)
    ensures var i := b.streams[h].since;
      && i < |a.out.log| && i < |b.inp.decoded| && a.out.log[i].1 == b.inp.decoded[i]
      && IsOpening(a.out.log[i].1) && a.out.log[i].1.streamId == b.streams[h].id
  {
    assert StreamOk(b, h);
    FrameAt(b.inp.decoded, a.out.log, b.streams[h].since);
  }

  lemma PeerIsUnique(a: State, b: State, h: nat, k: nat)
    requires Facing(a, b) && Peer(b, h) && Peer(b, k) && b.streams[h].id == b.streams[k].id
    requires a.ids.issued <= FreshIds(a.setup.side)
    ensures h == k
  {
    OpenedBy(a, b, h);
    OpenedBy(a, b, k);
    OneOpening(a, b.streams[h].since, b.streams[k].since);
    SinceIsUnique(b, h, k);
  }

  lemma SinceIsUnique(b: State, h: nat, k: nat)
    requires Safe(b) && Peer(b, h) && Peer(b, k) && b.streams[h].since == b.streams[k].since
    ensures h == k
  {
  }

  /** The frames with the id of a stream the peer opened are that stream's. */
  lemma PeerFrames(a: State, b: State, h: nat, side: Side)
    requires Facing(a, b) && Peer(b, h) && a.ids.issued <= FreshIds(a.setup.side)
    ensures ById(side, FramesOf(b.out.log), b.streams[h].id) == Emitted(b.out.log, h)
  {
    var id := b.streams[h].id;
    PeersOpenOther(b, a);
    forall i: nat | i < |b.out.log|
      ensures (b.out.log[i].1.streamId == id <==> b.out.log[i].0 == h) && !b.out.log[i].1.frameType.WindowUpdate? {
      OwnedAt(b, i);
      var k := b.out.log[i].0;
      if b.streams[k].id == id {
        if Local(b, k) {
          LocalHasParity(b, k);
        } else {
          PeerIsUnique(a, b, h, k);
        }
      }
    }
    EmittedIsById(side, b.out.log, h, id);
  }

  lemma {:induction false} ByIdAppend(side: Side, x: seq<Frame>, y: seq<Frame>, id: u32)
    ensures ById(side, x + y, id) == ById(side, x, id) + ById(side, y, id)
  {
    if y == [] {
      assert x + y == x;
    } else {
      var front := y[..|y| - 1];
      ByIdAppend(side, x, front, id);
      assert (x + y)[..|x + y| - 1] == x + front && (x + y)[|x + y| - 1] == y[|y| - 1];
    }
  }

  lemma ByIdPrefix(side: Side, x: seq<Frame>, y: seq<Frame>, id: u32)
    requires x <= y
    ensures ById(side, x, id) <= ById(side, y, id)
  {
    assert y == x + y[|x|..];
    ByIdAppend(side, x, y[|x|..], id);
  }

  /** When nothing with the id precedes `since`, all of it comes after. */
  lemma AllAfter(side: Side, frames: seq<Frame>, since: nat, id: u32)
    requires since <= |frames| && ById(side, frames[..since], id) == []
    ensures ById(side, frames[since..], id) == ById(side, frames, id)
  {
    assert frames == frames[..since] + frames[since..];
    ByIdAppend(side, frames[..since], frames[since..], id);
  }

  lemma {:induction false} FirstOf(log: seq<(nat, Frame)>, g: nat) returns (k: nat)
    requires Emitted(log, g) != []
    ensures k < |log| && log[k].0 == g && log[k].1 == Emitted(log, g)[0] && forall i: nat :: i < k ==> log[i].0 != g
  {
    var front := log[..|log| - 1];
    if Emitted(front, g) == [] {
      k := |log| - 1;
      NoneEmitted(front, g);
    } else {
      k := FirstOf(front, g);
    }
  }

  lemma {:induction false} NoneEmitted(log: seq<(nat, Frame)>, g: nat)
    requires Emitted(log, g) == []
    ensures forall i: nat :: i < |log| ==> log[i].0 != g
  {
    if log == [] {
    } else {
      NoneEmitted(log[..|log| - 1], g);
    }
  }

  lemma {:induction false} DataPrefix(x: seq<Frame>, y: seq<Frame>)
    requires x <= y
    ensures DataOf(x) <= DataOf(y)
    decreases |y|
  {
    if |x| == |y| {
      assert x == y;
    } else {
      DataPrefix(x, y[..|y| - 1]);
    }
  }
}
