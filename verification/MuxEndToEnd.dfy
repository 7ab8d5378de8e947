/** What a stream carries from one side to the other and back. */
module MuxEndToEnd {
  import opened Bytes
  import opened Framing
  import opened VsockProtocol
  import opened Runs
  import opened Multiplexer
  import opened MuxReceive
  import opened MuxSend
  import opened MuxRuns
  import opened MuxLink

  /** A stream opened by `a`, and the one `b` registered for it. */
  ghost predicate Ends(a: State, g: nat, b: State, h: nat) {
    Local(a, g) && Peer(b, h) && a.streams[g].id == b.streams[h].id && a.ids.issued <= FreshIds(a.setup.side)
  }

  /** Nothing with the id precedes the opening frame. */
  lemma NothingBeforeOpening(a: State, b: State, g: nat, h: nat)
    requires Linked(a, b) && Ends(a, g, b, h)
    ensures var since := b.streams[h].since;
      since <= |a.out.log| && ById(b.setup.side, FramesOf(a.out.log)[..since], a.streams[g].id) == []
  {
    var since, log, id := b.streams[h].since, a.out.log, a.streams[g].id;
    OpenedBy(a, b, h);
    LocalFrames(a, b, g, b.setup.side);
    SomethingEmitted(log, since);
    assert StartsOpen(a, g);
    var k := FirstOf(log, g);
    OneOpening(a, k, since);
    forall i: nat | i < since ensures FramesOf(log)[..since][i].streamId != id {
      assert FramesOf(log)[i] == log[i].1;
    }
    ByIdNone(b.setup.side, FramesOf(log)[..since], id);
  }

  lemma SomethingEmitted(log: seq<(nat, Frame)>, i: nat)
    requires i < |log| && !log[i].1.frameType.Rst?
    ensures Emitted(log, log[i].0) != []
  {
    var p := InOwn(log, i);
  }

  /** Towards the side that did not open the stream: it has been given, from the opening
      frame on, a front of what the opener queued, so its data is a front of the bytes
      written. */
  lemma RequestsArrive(a: State, b: State, g: nat, h: nat)
    requires Linked(a, b) && Ends(a, g, b, h)
    ensures b.streams[h].inbox <= Emitted(a.out.log, g)
    ensures DataOf(b.streams[h].inbox) <= a.streams[g].written
  {
    var since, id, frames, side := b.streams[h].since, a.streams[g].id, FramesOf(a.out.log), b.setup.side;
    NothingBeforeOpening(a, b, g, h);
    AllAfter(side, frames, since, id);
    LocalFrames(a, b, g, side);
    GivenOwed(b, h);
    ByIdPrefix(side, b.inp.decoded[since..], frames[since..], id);
    DataPrefix(b.streams[h].inbox, Emitted(a.out.log, g));
    SentIsWritten(a, g);
  }

  /** And back: the opener has been given a front of what the other side's stream queued. */
  lemma RepliesArrive(a: State, b: State, g: nat, h: nat)
    requires Linked(a, b) && Ends(a, g, b, h)
    ensures a.streams[g].inbox <= Emitted(b.out.log, h)
    ensures DataOf(a.streams[g].inbox) <= b.streams[h].written
  {
    var since, id, side := a.streams[g].since, a.streams[g].id, a.setup.side;
    assert Silent(a, g);
    AllAfter(side, a.inp.decoded, since, id);
    PeerFrames(a, b, h, side);
    GivenOwed(a, g);
    ByIdPrefix(side, a.inp.decoded, FramesOf(b.out.log), id);
    DataPrefix(a.streams[g].inbox, Emitted(b.out.log, h));
    SentIsWritten(b, h);
  }

  lemma GivenOwed(s: State, g: nat)
    requires Safe(s) && g < |s.streams|
    ensures s.streams[g].since <= |s.inp.decoded|
    ensures s.streams[g].inbox <= ById(s.setup.side, s.inp.decoded[s.streams[g].since..], s.streams[g].id)
  {
    assert StreamOk(s, g);
  }

  lemma SentIsWritten(s: State, g: nat)
    requires Safe(s) && g < |s.streams|
    ensures DataOf(Emitted(s.out.log, g)) == s.streams[g].written
  {
    assert EmitOk(s, g);
  }

  /** A stream the guest opened: a reverse request, a DNS query or a connection to the host. In
      every joined run the host's end holds a front of what the guest's sent, and the guest's
      end a front of what the host's sent. */
  lemma GuestStreamsEndToEnd(mac: bool, handlers: (bool, bool), p: Pair, g: nat, h: nat)
    requires Joined(mac, handlers, p) && Ends(p.guest, g, p.host, h)
    ensures p.host.streams[h].inbox <= Emitted(p.guest.out.log, g)
    ensures DataOf(p.host.streams[h].inbox) <= p.guest.streams[g].written
    ensures p.guest.streams[g].inbox <= Emitted(p.host.out.log, h)
    ensures DataOf(p.guest.streams[g].inbox) <= p.host.streams[h].written
  {
    JoinedIsLinked(mac, handlers, p);
    RequestsArrive(p.guest, p.host, g, h);
    RepliesArrive(p.guest, p.host, g, h);
  }

  /** A stream the host opened with a Connect frame, in the same way. */
  lemma HostStreamsEndToEnd(mac: bool, handlers: (bool, bool), p: Pair, h: nat, g: nat)
    requires Joined(mac, handlers, p) && Ends(p.host, h, p.guest, g)
    ensures p.guest.streams[g].inbox <= Emitted(p.host.out.log, h)
    ensures DataOf(p.guest.streams[g].inbox) <= p.host.streams[h].written
    ensures p.host.streams[h].inbox <= Emitted(p.guest.out.log, g)
    ensures DataOf(p.host.streams[h].inbox) <= p.guest.streams[g].written
  {
    JoinedIsLinked(mac, handlers, p);
    RequestsArrive(p.host, p.guest, h, g);
    RepliesArrive(p.host, p.guest, h, g);
  }

  // ----- once everything has been read -----

  /** `to` has read every byte of what `other` has queued, and is between chunks. */
  ghost predicate CaughtUp(to: State, other: State) {
    to.inp.received == EncodeAll(Encode, FramesOf(other.out.log)) && Running(to.pc) && !MidChunk(to.pc)
  }

  lemma AllReadIsAllDecoded(to: State, other: State)
    requires Safe(to) && Fed(to, other) && CaughtUp(to, other)
    ensures to.inp.decoded == FramesOf(other.out.log)
  {
    NextFrameIncremental();
    NextFrameRecognises();
    FedIsEncodable(to, other);
    DecodedIs(to.inp, FramesOf(other.out.log));
  }

  lemma FedIsEncodable(to: State, other: State)
    requires Fed(to, other)
    ensures forall f :: f in FramesOf(other.out.log) ==> Encodable(f)
  {
    forall f | f in FramesOf(other.out.log) ensures Encodable(f) {
      var i: nat :| i < |FramesOf(other.out.log)| && FramesOf(other.out.log)[i] == f;
      assert other.out.log[i].1 == f;
    }
  }

  lemma DecodedIs(inp: Inbound, frames: seq<Frame>)
    requires Traced(inp) && NextFrame(inp.buf).NeedMore? && NextFrame([]).NeedMore?
    requires inp.received == EncodeAll(Encode, frames)
    requires Recognises(NextFrame, Encode, Encodable) && forall f :: f in frames ==> Encodable(f)
    ensures inp.decoded == frames
  {
    DrainEncoded(NextFrame, Encode, Encodable, frames, []);
    assert EncodeAll(Encode, frames) + [] == EncodeAll(Encode, frames);
    assert Drain(NextFrame, []).items == [] && Drain(NextFrame, inp.buf).items == [];
    assert inp.decoded + [] == inp.decoded && frames + [] == frames;
  }

  lemma LocalSharesNothing(a: State, b: State, g: nat)
    requires Facing(a, b) && Local(a, g) && a.ids.issued <= FreshIds(a.setup.side)
    ensures !Shares(a, g)
  {
    PeersOpenOther(a, b);
    LocalHasParity(a, g);
    forall h: nat | h < |a.streams| && a.streams[h].id == a.streams[g].id ensures h == g {
      assert Peer(a, h) || Local(a, h);
      LocalIsUnique(a, g, h);
    }
  }

  lemma PeerSharesNothing(a: State, b: State, h: nat)
    requires Facing(a, b) && Peer(b, h) && a.ids.issued <= FreshIds(a.setup.side)
    ensures !Shares(b, h)
  {
    PeersOpenOther(b, a);
    forall k: nat | k < |b.streams| && b.streams[k].id == b.streams[h].id ensures k == h {
      if Local(b, k) {
        LocalHasParity(b, k);
      } else {
        PeerIsUnique(a, b, h, k);
      }
    }
  }

  /** A stream of the side that has caught up holds all frames with its id decoded since it was
      registered, or has had its closing frame. */
  lemma CaughtUpHoldsAll(s: State, g: nat)
    requires Safe(s) && Running(s.pc) && !MidChunk(s.pc) && g < |s.streams|
    requires s.streams[g].rxOpen && !s.streams[g].fate.slow && !Shares(s, g)
    ensures s.streams[g].since <= |s.inp.decoded|
    ensures Ended(s.streams[g]) ||
      s.streams[g].inbox == ById(s.setup.side, s.inp.decoded[s.streams[g].since..], s.streams[g].id)
  {
    PresentMissesNothing(s, g);
    assert InFlight(s, g) == [] && s.streams[g].inbox + [] == s.streams[g].inbox;
  }

  /** Nothing is lost between the ends of a stream. Once the accepting side has read all that
      the opener's side has queued, its end, if its owner still listens and the host has not
      given it up, holds everything the opener sent, or has had its closing frame. */
  lemma AllRequestsArrive(a: State, b: State, g: nat, h: nat)
    requires Linked(a, b) && Ends(a, g, b, h) && CaughtUp(b, a)
    requires b.streams[h].rxOpen && !b.streams[h].fate.slow
    ensures Ended(b.streams[h]) ||
      (b.streams[h].inbox == Emitted(a.out.log, g) && DataOf(b.streams[h].inbox) == a.streams[g].written)
  {
    AllReadIsAllDecoded(b, a);
    PeerSharesNothing(a, b, h);
    CaughtUpHoldsAll(b, h);
    NothingBeforeOpening(a, b, g, h);
    AllAfter(b.setup.side, FramesOf(a.out.log), b.streams[h].since, a.streams[g].id);
    LocalFrames(a, b, g, b.setup.side);
    SentIsWritten(a, g);
  }

  lemma AllRepliesArrive(a: State, b: State, g: nat, h: nat)
    requires Linked(a, b) && Ends(a, g, b, h) && CaughtUp(a, b)
    requires a.streams[g].rxOpen && !a.streams[g].fate.slow
    ensures Ended(a.streams[g]) ||
      (a.streams[g].inbox == Emitted(b.out.log, h) && DataOf(a.streams[g].inbox) == b.streams[h].written)
  {
    AllReadIsAllDecoded(a, b);
    LocalSharesNothing(a, b, g);
    CaughtUpHoldsAll(a, g);
    assert Silent(a, g);
    AllAfter(a.setup.side, a.inp.decoded, a.streams[g].since, a.streams[g].id);
    PeerFrames(a, b, h, a.setup.side);
    SentIsWritten(b, h);
  }

  /** In every joined run, for a stream either side opened and either end of it. */
  lemma NothingIsLostBetweenEnds(mac: bool, handlers: (bool, bool), p: Pair, byHost: bool, g: nat, h: nat)
    requires Joined(mac, handlers, p)
    requires var a, b := if byHost then p.host else p.guest, if byHost then p.guest else p.host; Ends(a, g, b, h)
    ensures var a, b := if byHost then p.host else p.guest, if byHost then p.guest else p.host;
      && (CaughtUp(b, a) && b.streams[h].rxOpen && !b.streams[h].fate.slow ==>
            Ended(b.streams[h]) || (b.streams[h].inbox == Emitted(a.out.log, g) && DataOf(b.streams[h].inbox) == a.streams[g].written))
      && (CaughtUp(a, b) && a.streams[g].rxOpen && !a.streams[g].fate.slow ==>
            Ended(a.streams[g]) || (a.streams[g].inbox == Emitted(b.out.log, h) && DataOf(a.streams[g].inbox) == b.streams[h].written))
  {
    var a, b := if byHost then p.host else p.guest, if byHost then p.guest else p.host;
    JoinedIsLinked(mac, handlers, p);
    if CaughtUp(b, a) && b.streams[h].rxOpen && !b.streams[h].fate.slow {
      AllRequestsArrive(a, b, g, h);
    }
    if CaughtUp(a, b) && a.streams[g].rxOpen && !a.streams[g].fate.slow {
      AllRepliesArrive(a, b, g, h);
    }
  }

  /** A guest stream opened with Connect has no other end: the host registers none for it. */
  lemma GuestConnectIsIgnored(mac: bool, handlers: (bool, bool), p: Pair, g: nat, h: nat)
    requires Joined(mac, handlers, p) && Ends(p.guest, g, p.host, h)
    ensures Emitted(p.guest.out.log, g) != [] && !Emitted(p.guest.out.log, g)[0].frameType.Connect?
  {
    var log, since := p.guest.out.log, p.host.streams[h].since;
    JoinedIsLinked(mac, handlers, p);
    OpenedBy(p.guest, p.host, h);
    LocalFrames(p.guest, p.host, g, Guest);
    SomethingEmitted(log, since);
    assert StartsOpen(p.guest, g);
    var k := FirstOf(log, g);
    OneOpening(p.guest, k, since);
    AcceptedByHost(p.host, h);
  }

  lemma AcceptedByHost(b: State, h: nat)
    requires Safe(b) && Peer(b, h) && b.setup.side.Host?
    ensures b.streams[h].since < |b.inp.decoded| && !b.inp.decoded[b.streams[h].since].frameType.Connect?
  {
    assert StreamOk(b, h);
  }
}
