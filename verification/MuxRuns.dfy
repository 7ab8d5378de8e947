/** What holds in every run of either multiplexer, whatever the peer sends. */
module MuxRuns {
  import opened Bytes
  import opened Framing
  import opened VsockProtocol
  import opened Runs
  import opened Multiplexer
  import opened MuxReceive
  import opened MuxSend

  ghost predicate Safe(s: State) {
    Routing(s) && BytesOk(s) && PeersOk(s) && ExitOk(s) && PresentOk(s) && IdsOk(s) && LogOk(s) && EmitsOk(s)
  }

  lemma InitIsSafe(setup: Setup)
    ensures Safe(Init(setup))
  {
    InitReceives(setup);
    InitSends(setup);
  }

  lemma InitReceives(setup: Setup)
    ensures Routing(Init(setup)) && BytesOk(Init(setup)) && PeersOk(Init(setup)) && ExitOk(Init(setup))
    ensures PresentOk(Init(setup))
  {
    NextFrameIncremental();
  }

  lemma InitSends(setup: Setup)
    ensures IdsOk(Init(setup)) && LogOk(Init(setup)) && EmitsOk(Init(setup))
  {
    assert FramesOf([]) == [];
  }

  lemma StepKeepsSafe(s: State, step: Step)
    requires Safe(s) && Enabled(s, step)
    ensures Safe(Apply(s, step))
  {
    StepKeepsRouting(s, step);
    StepKeepsBytes(s, step);
    StepKeepsPeers(s, step);
    StepKeepsExit(s, step);
    StepKeepsPresent(s, step);
    StepKeepsIds(s, step);
    StepKeepsLog(s, step);
    StepKeepsEmits(s, step);
  }

  lemma ReachedIsSafe(setup: Setup, s: State)
    requires Reached(setup, s)
    ensures Safe(s)
  {
    forall a, b | Safe(a) && Next(a, b) ensures Safe(b) {
      var step :| Enabled(a, step) && b == Apply(a, step);
      StepKeepsSafe(a, step);
    }
    InitIsSafe(setup);
    ReachableKeeps(Init(setup), Next, Safe, s);
  }

  /** In every run, what the owner of a virtual stream has read, and what waits for it, is
      a prefix of the frames bearing its id decoded since it was registered; at most one
      Fin or Rst is among them, as the last; and a stream the peer opened first sees its
      opening frame. */
  lemma StreamsReceiveInOrder(setup: Setup, s: State, g: nat)
    requires Reached(setup, s) && g < |s.streams|
    ensures s.streams[g].since <= |s.inp.decoded| && s.streams[g].taken <= |s.streams[g].inbox|
    ensures s.streams[g].inbox <= Owed(s, g)
    ensures forall f :: f in s.streams[g].inbox ==>
      f.streamId == s.streams[g].id && (s.setup.side.Host? ==> !f.frameType.WindowUpdate?)
    ensures forall i :: 0 <= i < |s.streams[g].inbox| - 1 ==>
      !s.streams[g].inbox[i].frameType.Fin? && !s.streams[g].inbox[i].frameType.Rst?
    ensures s.streams[g].peerOpened && s.streams[g].inbox != [] ==>
      && s.streams[g].since < |s.inp.decoded| && s.streams[g].inbox[0] == s.inp.decoded[s.streams[g].since]
      && Accepts(s.setup.side, s.streams[g].inbox[0])
  {
    ReachedIsSafe(setup, s);
    assert StreamOk(s, g);
    OnlyLastIsTerminal(s.streams[g].inbox);
    ByIdHasId(s.setup.side, s.inp.decoded[s.streams[g].since..], s.streams[g].id);
    if s.streams[g].peerOpened {
      ByIdHead(s.setup.side, s.inp.decoded[s.streams[g].since..], s.streams[g].id);
      assert s.streams[g].inbox <= Owed(s, g);
    }
  }

  lemma {:induction false} ByIdHasId(side: Side, frames: seq<Frame>, id: u32)
    ensures forall f :: f in ById(side, frames, id) ==> f.streamId == id && (side.Host? ==> !f.frameType.WindowUpdate?)
  {
    if frames == [] {
    } else {
      ByIdHasId(side, frames[..|frames| - 1], id);
    }
  }

  lemma OnlyLastIsTerminal(frames: seq<Frame>)
    requires TerminalLast(frames)
    ensures forall i :: 0 <= i < |frames| - 1 ==> !frames[i].frameType.Fin? && !frames[i].frameType.Rst?
  {
    forall i | 0 <= i < |frames| - 1 ensures !Terminal(frames[i]) {
      assert frames[..|frames| - 1][i] == frames[i];
    }
  }

  /** In every run no frame is lost on the way to a stream: while the task runs, a stream whose
      receiver exists, whose id no other stream has and which the host has not given up has been
      given every frame with its id decoded since it was registered, but for one on its way,
      until the frame that closed it. */
  lemma StreamsMissNothing(setup: Setup, s: State, g: nat)
    requires Reached(setup, s) && Running(s.pc) && g < |s.streams|
    requires s.streams[g].rxOpen && !s.streams[g].fate.slow && !Shares(s, g)
    ensures s.streams[g].since <= |s.inp.decoded|
    ensures var inbox := s.streams[g].inbox;
      || (inbox != [] && inbox[|inbox| - 1].frameType in {Fin, Rst})
      || Owed(s, g) == inbox + InFlight(s, g)
  {
    ReachedIsSafe(setup, s);
    PresentMissesNothing(s, g);
  }

  lemma {:induction false} ByIdHead(side: Side, frames: seq<Frame>, id: u32)
    requires frames != [] && frames[0].streamId == id && !Skips(side, frames[0])
    ensures ById(side, frames, id) != [] && ById(side, frames, id)[0] == frames[0]
  {
    if |frames| == 1 {
    } else {
      ByIdHead(side, frames[..|frames| - 1], id);
    }
  }

  /** The return on a decode error is never taken. When the task has finished, the channel is
      shut and stays as it is; no stream that was open before is still in the table; streams
      registered afterwards get nothing; and the table is empty if and only if there is no
      such stream. */
  lemma EveryExitCleansUp(setup: Setup, s: State)
    requires Reached(setup, s)
    ensures !s.pc.Aborted?
    ensures s.pc.Exited? ==>
      && s.out.shut && s.clearedAt <= |s.streams|
      && (forall step :: Enabled(s, step) ==> Apply(s, step).out == s.out)
      && (forall id :: id in s.table ==> s.clearedAt <= s.table[id])
      && (forall g: nat :: s.clearedAt <= g < |s.streams| ==> s.streams[g].inbox == [])
      && (s.table == map[] <==> |s.streams| == s.clearedAt)
  {
    ReachedIsSafe(setup, s);
    if s.pc.Exited? {
      forall step | Enabled(s, step) ensures Apply(s, step).out == s.out {
        NothingMovesAfterExit(s, step);
      }
      if |s.streams| == s.clearedAt {
        assert forall id :: id !in s.table;
      }
    }
  }

  /** Until the ids run out, those of locally opened streams have this side's parity, are not
      zero and are pairwise different; if besides the peer opens only ids of the other parity,
      neither registering nor admitting a stream ever replaces a table entry. */
  lemma LocalIdsAreFresh(setup: Setup, s: State)
    requires Reached(setup, s) && s.ids.issued <= FreshIds(s.setup.side)
    ensures forall g: nat :: Local(s, g) ==> OwnParity(s.setup.side, s.streams[g].id) && s.streams[g].id > 0
    ensures forall g: nat, h: nat :: Local(s, g) && Local(s, h) && g != h ==> s.streams[g].id != s.streams[h].id
    ensures PeerOpensOther(s) ==> forall id :: Enabled(s, Register(id)) ==> id !in s.table
    ensures PeerOpensOther(s) && s.pc.Admitting? && !OwnParity(s.setup.side, s.pc.f.streamId) ==> s.pc.f.streamId !in s.table
  {
    ReachedIsSafe(setup, s);
    SafeIdsAreFresh(s);
  }

  lemma SafeIdsAreFresh(s: State)
    requires Safe(s) && s.ids.issued <= FreshIds(s.setup.side)
    ensures forall g: nat :: Local(s, g) ==> OwnParity(s.setup.side, s.streams[g].id) && s.streams[g].id > 0
    ensures forall g: nat, h: nat :: Local(s, g) && Local(s, h) && g != h ==> s.streams[g].id != s.streams[h].id
    ensures PeerOpensOther(s) ==> forall id :: Enabled(s, Register(id)) ==> id !in s.table
    ensures PeerOpensOther(s) && s.pc.Admitting? && !OwnParity(s.setup.side, s.pc.f.streamId) ==> s.pc.f.streamId !in s.table
  {
    if PeerOpensOther(s) {
      forall id | Enabled(s, Register(id)) ensures id !in s.table {
        assert LocalId(s.setup.side, s.ids, id);
        assert forall g: nat :: g < |s.streams| ==> Local(s, g) || Peer(s, g);
        assert forall g: nat :: g < |s.streams| ==> s.streams[g].id != id;
      }
      if s.pc.Admitting? && s.pc.f.streamId in s.table {
        assert Local(s, s.table[s.pc.f.streamId]);
      }
    }
  }

  ghost predicate PeerOpensOther(s: State) {
    forall g: nat :: Peer(s, g) ==> !OwnParity(s.setup.side, s.streams[g].id)
  }

  /** In every run, every frame queued belongs to a stream registered before and moves to the
      wire in order; without its last frame a batch stays under the cap; the frames of a
      stream, resets apart, are its opening frame if it was opened here, once and first, and
      then data and one Fin at most; the data are the bytes written, in order; a refused
      stream sends none of them; and on the guest only refused streams are reset. */
  lemma StreamsSendProperly(setup: Setup, s: State, g: nat)
    requires Reached(setup, s) && g < |s.streams|
    ensures FramesOf(s.out.log) == s.out.sent + s.out.lost + InHand(s.pc) + s.out.queue
    ensures forall i: nat :: i < |s.out.log| ==> Owned(s, s.out.log[i])
    ensures s.pc.Filling? ==> ValidBatch(BatchCap(s.setup.side), s.pc.batch)
    ensures var out := Emitted(s.out.log, g);
      && (s.streams[g].peerOpened ==> AllPlain(Own(out))) && (!s.streams[g].peerOpened ==> OpensOnce(s.setup.side, Own(out)))
      && DataOf(out) == s.streams[g].written && Fins(out) <= 1
      && (s.streams[g].refused ==> Own(out) == [])
      && (s.setup.side.Guest? && !s.streams[g].refused ==> Own(out) == out)
  {
    ReachedIsSafe(setup, s);
    assert EmitOk(s, g);
  }

  /** The peer is told of every end. In every run a stream that was closed, by itself, a writer
      or its drop, has queued its Fin, is about to, or has it on record that the Fin could not be
      queued; and one that was refused, or given up as too slow, likewise its Rst. */
  lemma EndsAreTold(setup: Setup, s: State, g: nat)
    requires Reached(setup, s) && g < |s.streams|
    ensures var v, out := s.streams[g], Emitted(s.out.log, g);
      && (v.closed && !v.refused ==> g in s.closing || v.fate.finLost || Fins(out) == 1)
      && (v.refused ==> s.pc == Refusing(g) || v.fate.rstLost || Rsts(out) > 0)
      && (v.fate.slow ==> (s.pc.TimedOut? && s.pc.g == g) || v.fate.rstLost || Rsts(out) > 0)
  {
    ReachedIsSafe(setup, s);
    assert EmitOk(s, g);
  }

  /** A Fin is lost only when the channel is shut, or to a drop that finds it full; an Rst only
      when the channel is full or shut. Only the host gives a stream up, and only when the
      stream's channel is full. A receiver goes only with a drop, a failed opening or a refusal.
      A close is begun by `Close` and by `Drop`, and a flag once set stays. */
  lemma FramesAreLostOnlyWithoutRoom(s: State, step: Step, g: nat)
    requires Enabled(s, step) && g < |s.streams|
    ensures g < |Apply(s, step).streams|
    ensures var v, w := s.streams[g], Apply(s, step).streams[g];
      && (w.fate.finLost && !v.fate.finLost ==> (step == FinFails(g) && s.out.shut) || (step == Drop(g) && !Room(s)))
      && (w.fate.rstLost && !v.fate.rstLost ==> (step.Reset? || step.ResetSlow?) && !Room(s))
      && (w.fate.slow && !v.fate.slow ==> step.GiveUp? && s.setup.side.Host? && !InboxRoom(v))
      && (v.rxOpen && !w.rxOpen ==> step == Drop(g) || step == OpeningFails(g) || step.Refuse?)
      && (step == Close(g) || step == Drop(g) ==> w.closed)
      && (v.closed ==> w.closed) && (v.refused ==> w.refused) && (v.fate.slow ==> w.fate.slow)
  {
    if TaskStep(step) {
      TaskLosesOnlyWithoutRoom(s, step, g);
    } else {
      IoLosesOnlyWithoutRoom(s, step, g);
    }
  }

  lemma TaskLosesOnlyWithoutRoom(s: State, step: Step, g: nat)
    requires Enabled(s, step) && g < |s.streams| && TaskStep(step)
    ensures g < |Apply(s, step).streams|
    ensures var v, w := s.streams[g], Apply(s, step).streams[g];
      && (w.fate.finLost && !v.fate.finLost ==> (step == FinFails(g) && s.out.shut) || (step == Drop(g) && !Room(s)))
      && w.fate.rstLost == v.fate.rstLost && w.fate.slow == v.fate.slow && w.refused == v.refused
      && (v.rxOpen && !w.rxOpen ==> step == Drop(g) || step == OpeningFails(g))
      && (step == Close(g) || step == Drop(g) || v.closed ==> w.closed)
  {
  }

  lemma IoLosesOnlyWithoutRoom(s: State, step: Step, g: nat)
    requires Enabled(s, step) && g < |s.streams| && !TaskStep(step)
    ensures g < |Apply(s, step).streams|
    ensures var v, w := s.streams[g], Apply(s, step).streams[g];
      && w.fate.finLost == v.fate.finLost
      && (w.fate.rstLost && !v.fate.rstLost ==> (step.Reset? || step.ResetSlow?) && !Room(s))
      && (w.fate.slow && !v.fate.slow ==> step.GiveUp? && s.setup.side.Host? && !InboxRoom(v))
      && (v.rxOpen && !w.rxOpen ==> step.Refuse?)
      && (v.closed ==> w.closed) && (v.refused ==> w.refused) && (v.fate.slow ==> w.fate.slow)
  {
  }

  // ----- the edge cases do occur -----

  lemma Take(setup: Setup, s: State, step: Step) returns (t: State)
    requires Reached(setup, s) && Enabled(s, step)
    ensures t == Apply(s, step) && Reached(setup, t)
  {
    t := Apply(s, step);
    assert Next(s, t);
    StepIsReachable(Init(setup), Next, s, t);
  }

  /** Once finished, the task stays finished and no entry of the table is ever removed. */
  ghost predicate StaysFinished(s: State, t: State) { s.pc.Exited? ==> t.pc.Exited? && s.table.Keys <= t.table.Keys }

  lemma LateStepStaysFinished(s: State, step: Step)
    requires s.pc.Exited? && Enabled(s, step)
    ensures Apply(s, step).pc.Exited? && s.table.Keys <= Apply(s, step).table.Keys
  {
  }

  lemma LateEntriesStay(setup: Setup, states: seq<State>, i: nat, j: nat)
    requires Run(Init(setup), Next, states) && i <= j < |states|
    ensures StaysFinished(states[i], states[j])
  {
    forall a, b | Safe(a) && Next(a, b) ensures Safe(b) {
      var step :| Enabled(a, step) && b == Apply(a, step);
      StepKeepsSafe(a, step);
    }
    InitIsSafe(setup);
    forall s, t, u | StaysFinished(s, t) && Safe(t) && Next(t, u) ensures StaysFinished(s, u) {
      var step :| Enabled(t, step) && u == Apply(t, step);
      if s.pc.Exited? {
        LateStepStaysFinished(t, step);
      }
    }
    RelationHolds(Init(setup), Next, Safe, StaysFinished, states, i, j);
  }

  /** From every finished state a late call leaves its entry in the table. */
  lemma LateStreamStays(setup: Setup, s: State) returns (t: State)
    requires Reached(setup, s) && s.pc.Exited?
    ensures Reached(setup, t) && t.pc.Exited? && s.ids.next in t.table && t.clearedAt < |t.streams|
  {
    var id := s.ids.next;
    t := Take(setup, s, Allocate);
    t := Take(setup, t, Register(id));
    assert id in t.table;
    ReachedIsSafe(setup, s);
  }

  lemma CanExit(setup: Setup) returns (t: State)
    ensures Reached(setup, t) && t.pc.Exited? && t.table == map[]
  {
    StartIsReachable(Init(setup), Next);
    t := Take(setup, Init(setup), ReadFails);
    t := Take(setup, t, Clear);
    t := Take(setup, t, Shut);
  }

  /** Both kinds of end are reached: with an empty table, and with a late entry in it. */
  lemma BothEndsAreReached(setup: Setup) returns (s: State, t: State)
    ensures Reached(setup, s) && s.pc.Exited? && s.table == map[]
    ensures Reached(setup, t) && t.pc.Exited? && t.table != map[]
  {
    s := CanExit(setup);
    t := LateStreamStays(setup, s);
  }

  lemma {:induction false} CanIssue(setup: Setup, n: nat) returns (s: State)
    ensures Reached(setup, s) && s.ids.issued == n && s.setup == setup
  {
    if n == 0 {
      StartIsReachable(Init(setup), Next);
      s := Init(setup);
    } else {
      s := CanIssue(setup, n - 1);
      s := Take(setup, s, Allocate);
    }
  }

  /** The bound is exact and can be met: as many ids can be handed out as are fresh, and the
      next one then is zero on the guest and 1 again on the host. */
  lemma IdsRunOut(setup: Setup) returns (s: State)
    ensures Reached(setup, s) && s.setup == setup && s.ids.issued == FreshIds(setup.side)
    ensures s.ids.next == if setup.side.Guest? then 0 else 1
  {
    s := CanIssue(setup, FreshIds(setup.side));
    ReachedIsSafe(setup, s);
    NextId(setup.side, s.ids);
  }
}
