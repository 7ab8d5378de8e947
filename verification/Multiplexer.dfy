/** The stream multiplexer as a step machine: the guest's, vm-agent/src/vsock/stream.rs, and
    the host's, crates/nilbox-core/src/vsock/stream.rs, which differ in what `Side` says.
    The I/O task is cut wherever it awaits or takes a lock, so the tasks that open, read,
    write, close and drop virtual streams interleave with it freely. */
module Multiplexer {
  import opened Bytes
  import opened Framing
  import opened VsockProtocol
  import opened Runs

  const CHANNEL_BUFFER_SIZE := 100
  const ID_SPACE := 0x1_0000_0000

  // ----- the two sides -----

  /** The host has a build for macOS and one for other systems. */
  datatype Side = Guest | Host(mac: bool)

  function FirstId(side: Side): u32 { if side.Guest? then 2 else 1 }

  function OutgoingSize(side: Side): nat { if side == Host(true) then 64 else CHANNEL_BUFFER_SIZE }

  function BatchCap(side: Side): nat { if side == Host(true) then 64 * 1024 else 128 * 1024 }

  const MAC_MAX_DATA_FRAME_BYTES := 32 * 1024

  /** The frames on which the I/O task registers a stream the peer opened. */
  predicate Accepts(side: Side, f: Frame) {
    if side.Guest? then f.frameType in {ReverseRequest, Connect}
    else f.frameType in {ReverseRequest, DnsRequest, HostConnect}
  }

  /** The frames with which this side opens a stream. */
  predicate Opens(side: Side, f: Frame) {
    if side.Guest? then f.frameType in {Connect, ReverseRequest, DnsRequest, HostConnect} else f.frameType.Connect?
  }

  /** The host throws window updates away before it looks at the id. */
  predicate Skips(side: Side, f: Frame) { side.Host? && f.frameType.WindowUpdate? }

  /** Frames that carry what the owner of an open stream sends. */
  predicate Carries(f: Frame) { f.frameType.Data? || f.frameType.DnsResponse? }

  /** What one `send` of an open stream puts in the channel: data, cut to 32 KB on macOS, or
      on the host the answer to a DNS query. */
  predicate Sendable(side: Side, f: Frame) {
    || (f.frameType.Data? && (side == Host(true) ==> 0 < |f.payload| <= MAC_MAX_DATA_FRAME_BYTES))
    || (f.frameType.DnsResponse? && side.Host?)
  }

  datatype Setup = Setup(side: Side, handler: bool)

  // ----- the state -----

  /** A virtual stream, numbered by the moment it entered the stream table. */
  datatype VirtualStream = VirtualStream(
    id: u32,
    peerOpened: bool,
    since: nat,          // how many frames had been decoded when it was registered
    inbox: seq<Frame>,   // every frame ever put in its channel
    taken: nat,          // how many of them its owner has read
    rxOpen: bool,        // the receiving end still exists
    usable: bool,        // somebody was handed the stream
    closed: bool,        // the flag shared by the stream and its writers
    refused: bool,       // turned away because the handler queue was full or gone
    written: seq<byte>,  // what its owner and its writers have sent, in the order sent
    fate: Fate)

  /** `slow`: the host gave up delivering to it. `finLost`, `rstLost`: the frame that tells the
      peer of its end could not be queued. */
  datatype Fate = Fate(slow: bool, finLost: bool, rstLost: bool)

  /** Where the I/O task stands. */
  datatype Pc =
    | Waiting                        // in `select!`
    | Filling(batch: seq<Frame>)     // collecting outgoing frames
    | Decoding                       // at the head of the inner decode loop
    | Delivering(f: Frame, g: nat)   // found the channel of `f`, sending to it
    | Forgetting(id: u32)            // about to remove a table entry
    | TimedOut(f: Frame, g: nat)     // the host gave up sending `f`, about to remove the entry
    | Admitting(f: Frame)            // found no entry for a peer's opening frame
    | Offering(f: Frame, g: nat)     // registered a peer's stream, offering it to the handler
    | Greeting(f: Frame, g: nat)     // the handler took it, sending it its opening frame
    | Refusing(g: nat)               // the handler did not take it
    | Leaving                        // left the loop, table not yet cleared
    | Cleared                        // table cleared, channel not yet closed
    | Exited
    | Aborted                        // returned on a decode error, skipping the clean-up

  /** Ids for streams opened here: the next one, how many were handed out, and those
      not yet registered. */
  datatype Ids = Ids(next: u32, issued: nat, reserved: set<u32>)

  /** The outgoing channel, and what became of every frame put in it. */
  datatype Outbound = Outbound(
    queue: seq<Frame>,
    shut: bool,
    log: seq<(nat, Frame)>,   // every frame ever queued, with the stream it belongs to
    sent: seq<Frame>,         // written to the physical stream
    lost: seq<Frame>)         // part of a physical write that failed

  /** Every byte read, the receive buffer, and every frame decoded. */
  datatype Inbound = Inbound(received: seq<byte>, buf: seq<byte>, decoded: seq<Frame>)

  datatype State = State(
    setup: Setup,
    ids: Ids,
    table: map<u32, nat>,
    streams: seq<VirtualStream>,
    closing: set<nat>,        // streams whose flag was swapped, Fin not yet sent
    out: Outbound,
    inp: Inbound,
    clearedAt: nat,           // number of streams when the table was cleared
    pc: Pc)

  datatype Step =
    | Allocate | Register(id: u32) | SendOpening(g: nat, f: Frame) | OpeningFails(g: nat)
    | Write(g: nat, f: Frame) | Close(g: nat) | SendFin(g: nat) | FinFails(g: nat)
    | Drop(g: nat) | Take(g: nat)
    | ReadChunk(chunk: seq<byte>) | ReadFails
    | TakeFirst | TakeMore | WriteBatch | WriteFails
    | Turn | Deliver | GiveUp | ResetSlow | Forget | Admit | Accept | Refuse | Greet | Reset | Clear | Shut

  function Init(setup: Setup): State {
    State(setup, Ids(FirstId(setup.side), 0, {}), map[], [], {}, Outbound([], false, [], [], []), Inbound([], [], []), 0, Waiting)
  }

  predicate Room(s: State) { !s.out.shut && |s.out.queue| < OutgoingSize(s.setup.side) }

  predicate InboxRoom(v: VirtualStream) { |v.inbox| - v.taken < CHANNEL_BUFFER_SIZE }

  /** Steps of the tasks that use streams; all others belong to the I/O task. */
  predicate TaskStep(step: Step) {
    step.Allocate? || step.Register? || step.SendOpening? || step.OpeningFails? || step.Write?
    || step.Close? || step.SendFin? || step.FinFails? || step.Drop? || step.Take?
  }

  predicate Enabled(s: State, step: Step) {
    if TaskStep(step) then TaskEnabled(s, step) else IoEnabled(s, step)
  }

  predicate TaskEnabled(s: State, step: Step)
    requires TaskStep(step)
  {
    match step
    case Allocate => true
    case Register(id) => id in s.ids.reserved
    case SendOpening(g, f) => Pending(s, g) && Opens(s.setup.side, f) && f.streamId == s.streams[g].id && Room(s)
    case OpeningFails(g) => Pending(s, g) && s.out.shut
    case Write(g, f) =>
      g < |s.streams| && s.streams[g].usable && Sendable(s.setup.side, f) && f.streamId == s.streams[g].id && Room(s)
    case Close(g) => g < |s.streams| && s.streams[g].usable
    case SendFin(g) => g in s.closing && g < |s.streams| && Room(s)
    case FinFails(g) => g in s.closing && g < |s.streams| && s.out.shut
    case Drop(g) => g < |s.streams| && s.streams[g].usable && s.streams[g].rxOpen
    case Take(g) =>
      g < |s.streams| && s.streams[g].usable && s.streams[g].rxOpen && s.streams[g].taken < |s.streams[g].inbox|
  }

  predicate IoEnabled(s: State, step: Step)
    requires !TaskStep(step)
  {
    match step
    case ReadChunk(_) => s.pc.Waiting?
    case ReadFails => s.pc.Waiting?
    case TakeFirst => s.pc.Waiting? && s.out.queue != []
    case TakeMore => s.pc.Filling? && s.out.queue != [] && |EncodeAll(Encode, s.pc.batch)| < BatchCap(s.setup.side)
    case WriteBatch => s.pc.Filling? && (s.out.queue == [] || |EncodeAll(Encode, s.pc.batch)| >= BatchCap(s.setup.side))
    case WriteFails => s.pc.Filling? && (s.out.queue == [] || |EncodeAll(Encode, s.pc.batch)| >= BatchCap(s.setup.side))
    case Turn => s.pc.Decoding?
    case Deliver =>
      s.pc.Delivering? && s.pc.g < |s.streams| && (s.streams[s.pc.g].rxOpen ==> InboxRoom(s.streams[s.pc.g]))
    case GiveUp =>
      s.setup.side.Host? && s.pc.Delivering? && s.pc.g < |s.streams| && s.streams[s.pc.g].rxOpen && !InboxRoom(s.streams[s.pc.g])
    case ResetSlow => s.pc.TimedOut? && s.pc.g < |s.streams|
    case Forget => s.pc.Forgetting?
    case Admit => s.pc.Admitting? && s.inp.decoded != []
    case Accept => s.pc.Offering? && s.pc.g < |s.streams|
    case Refuse => s.pc.Offering? && s.pc.g < |s.streams|
    case Greet => s.pc.Greeting? && s.pc.g < |s.streams|
    case Reset => s.pc.Refusing? && s.pc.g < |s.streams|
    case Clear => s.pc.Leaving?
    case Shut => s.pc.Cleared?
  }

  /** Registered by a local `create_*` call that has not sent its opening frame yet. */
  predicate Pending(s: State, g: nat) {
    g < |s.streams| && !s.streams[g].peerOpened && !s.streams[g].usable && s.streams[g].rxOpen
  }

  function Queue(s: State, g: nat, f: Frame): State {
    s.(out := s.out.(queue := s.out.queue + [f], log := s.out.log + [(g, f)]))
  }

  function With(s: State, g: nat, v: VirtualStream): State
    requires g < |s.streams|
  {
    s.(streams := s.streams[g := v])
  }

  function Arrived(inp: Inbound, chunk: seq<byte>): Inbound {
    inp.(received := inp.received + chunk, buf := inp.buf + chunk)
  }

  function Consumed(inp: Inbound, f: Frame, n: nat): Inbound
    requires n <= |inp.buf|
  {
    inp.(buf := inp.buf[n..], decoded := inp.decoded + [f])
  }

  function Fresh(id: u32, peer: bool, since: nat): VirtualStream {
    VirtualStream(id, peer, since, [], 0, true, false, false, false, [], Fate(false, false, false))
  }

  function Apply(s: State, step: Step): State
    requires Enabled(s, step)
  {
    if TaskStep(step) then ApplyTask(s, step) else ApplyIo(s, step)
  }

  function ApplyTask(s: State, step: Step): State
    requires TaskStep(step) && TaskEnabled(s, step)
  {
    match step
    case Allocate =>
      s.(ids := Ids((s.ids.next + 2) % ID_SPACE, s.ids.issued + 1, s.ids.reserved + {s.ids.next}))
    case Register(id) =>
      s.(ids := s.ids.(reserved := s.ids.reserved - {id}), table := s.table[id := |s.streams|],
         streams := s.streams + [Fresh(id, false, |s.inp.decoded|)])
    case SendOpening(g, f) => With(Queue(s, g, f), g, s.streams[g].(usable := true))
    case OpeningFails(g) => With(s, g, s.streams[g].(rxOpen := false))
    case Write(g, f) => With(Queue(s, g, f), g, s.streams[g].(written := s.streams[g].written + f.payload))
    case Close(g) =>
      if s.streams[g].closed then s
      else With(s, g, s.streams[g].(closed := true)).(closing := s.closing + {g})
    case SendFin(g) => Queue(s, g, Frame(s.streams[g].id, Fin, [])).(closing := s.closing - {g})
    case FinFails(g) => Marked(s, g, s.streams[g].fate.(finLost := true)).(closing := s.closing - {g})
    case Drop(g) =>
      var t := With(s, g, s.streams[g].(rxOpen := false, closed := true));
      if s.streams[g].closed then t
      else if Room(s) then Queue(t, g, Frame(s.streams[g].id, Fin, []))
      else Marked(t, g, s.streams[g].fate.(finLost := true))
    case Take(g) => With(s, g, s.streams[g].(taken := s.streams[g].taken + 1))
  }

  function ApplyIo(s: State, step: Step): State
    requires !TaskStep(step) && IoEnabled(s, step)
  {
    match step
    case ReadChunk(chunk) => s.(inp := Arrived(s.inp, chunk), pc := Decoding)
    case ReadFails => s.(pc := Leaving)
    case TakeFirst => s.(pc := Filling([s.out.queue[0]]), out := s.out.(queue := s.out.queue[1..]))
    case TakeMore => s.(pc := Filling(s.pc.batch + [s.out.queue[0]]), out := s.out.(queue := s.out.queue[1..]))
    case WriteBatch => s.(out := s.out.(sent := s.out.sent + s.pc.batch), pc := Waiting)
    case WriteFails => s.(out := s.out.(lost := s.out.lost + s.pc.batch), pc := Leaving)
    case Turn => Routed(s)
    case Deliver =>
      var v := s.streams[s.pc.g];
      if !v.rxOpen then s.(pc := Forgetting(s.pc.f.streamId))
      else
        With(s, s.pc.g, v.(inbox := v.inbox + [s.pc.f]))
          .(pc := if Terminal(s.pc.f) then Forgetting(s.pc.f.streamId) else Decoding)
    case GiveUp => Marked(s, s.pc.g, s.streams[s.pc.g].fate.(slow := true)).(pc := TimedOut(s.pc.f, s.pc.g))
    case ResetSlow => Dropped(s, s.pc.g, s.pc.f.streamId)
    case Forget => s.(table := s.table - {s.pc.id}, pc := Decoding)
    case Admit =>
      var f := s.pc.f;
      s.(table := s.table[f.streamId := |s.streams|],
         streams := s.streams + [Fresh(f.streamId, true, |s.inp.decoded| - 1)],
         pc := Offering(f, |s.streams|))
    case Accept => With(s, s.pc.g, s.streams[s.pc.g].(usable := true)).(pc := Greeting(s.pc.f, s.pc.g))
    case Refuse =>
      With(s, s.pc.g, s.streams[s.pc.g].(closed := true, refused := true, rxOpen := false)).(pc := Refusing(s.pc.g))
    case Greet =>
      var v := s.streams[s.pc.g];
      if v.rxOpen && InboxRoom(v) then With(s, s.pc.g, v.(inbox := v.inbox + [s.pc.f])).(pc := Decoding)
      else s.(pc := Decoding)
    case Reset => Dropped(s, s.pc.g, s.streams[s.pc.g].id)
    case Clear => s.(table := map[], clearedAt := |s.streams|, pc := Cleared)
    case Shut => s.(out := s.out.(shut := true), pc := Exited)
  }

  /** The entry goes and the peer is told, if the channel has room. */
  function Dropped(s: State, g: nat, id: u32): State
    requires g < |s.streams|
  {
    var t := s.(table := s.table - {id}, pc := Decoding);
    if Room(s) then Queue(t, g, Frame(id, Rst, [])) else Marked(t, g, s.streams[g].fate.(rstLost := true))
  }

  function Marked(s: State, g: nat, fate: Fate): State
    requires g < |s.streams|
  {
    With(s, g, s.streams[g].(fate := fate))
  }

  /** One turn of the decode loop: take a frame off the buffer and look up where it goes. */
  function Routed(s: State): State {
    match NextFrame(s.inp.buf)
    case NeedMore => s.(pc := Waiting)
    case Fail => s.(pc := Aborted)
    case Item(f, n) =>
      if n > |s.inp.buf| then s.(pc := Aborted)
      else
        var t := s.(inp := Consumed(s.inp, f, n));
        if Skips(s.setup.side, f) then t
        else if f.streamId in s.table then t.(pc := Delivering(f, s.table[f.streamId]))
        else if Accepts(s.setup.side, f) && s.setup.handler then t.(pc := Admitting(f))
        else t
  }

  ghost predicate Next(s: State, t: State) { exists step :: Enabled(s, step) && t == Apply(s, step) }

  ghost predicate Reached(setup: Setup, s: State) { Reachable(Init(setup), Next, s) }

  // ----- splitting a write -----

  /** The payloads of the frames that carry data, one after another. */
  ghost function DataOf(frames: seq<Frame>): seq<byte> {
    if frames == [] then []
    else
      var front, f := DataOf(frames[..|frames| - 1]), frames[|frames| - 1];
      if Carries(f) then front + f.payload else front
  }

  lemma DataSnoc(frames: seq<Frame>, f: Frame)
    ensures DataOf(frames + [f]) == if Carries(f) then DataOf(frames) + f.payload else DataOf(frames)
  {
    assert (frames + [f])[..|frames|] == frames;
  }

  /** The frames one write becomes: a single one, or on macOS pieces of at most 32 KB. */
  method DataFrames(side: Side, id: u32, data: seq<byte>) returns (frames: seq<Frame>)
    ensures forall f :: f in frames ==> f.streamId == id && f.frameType.Data? && Sendable(side, f)
    ensures DataOf(frames) == data
  {
    frames := [];
    if side != Host(true) {
      DataSnoc([], Frame(id, Data, data));
      return [Frame(id, Data, data)];
    }
    var at := 0;
    while at < |data|
      invariant 0 <= at <= |data| && DataOf(frames) == data[..at]
      invariant forall f :: f in frames ==> f.streamId == id && f.frameType.Data? && Sendable(side, f)
    {
      var n := if |data| - at < MAC_MAX_DATA_FRAME_BYTES then |data| - at else MAC_MAX_DATA_FRAME_BYTES;
      DataSnoc(frames, Frame(id, Data, data[at..at + n]));
      assert data[..at] + data[at..at + n] == data[..at + n];
      frames := frames + [Frame(id, Data, data[at..at + n])];
      at := at + n;
    }
    assert data[..at] == data;
  }
}
