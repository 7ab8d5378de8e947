/** The exclusive host connection: the accept loop of vm-agent/src/main.rs, the multiplexer
    tasks it starts and the clean-up tasks that free the slot again. */
module ConnectionSlot {
  import opened Bytes
  import opened Runs
  import opened Framing

  /** The task that waits for the stream channel to end and then empties the slot. */
  datatype Cleanup = NotSpawned | Watching | Clearing | Done

  type Token = seq<bv8>

  const TOKEN_LEN := 32

  /** `sent` is what the peer had sent when its token was compared. */
  datatype Connection = Connection(ioRunning: bool, cleanup: Cleanup, sent: seq<bv8>)

  datatype Pc =
    | Listening
    | Authenticating(read: seq<bv8>)   // found the slot empty, reading the token
    | Created(c: nat)            // multiplexer started, not yet in the slot
    | Installed(c: nat)          // in the slot, clean-up task not yet spawned

  datatype State = State(expected: Token, slot: Option<nat>, pc: Pc, conns: seq<Connection>)

  /** `AuthFails` is a read error, the end of the stream or the timeout before 32 bytes are
      there, or a token that does not match. */
  datatype Step =
    | AcceptWhileBusy | AcceptWhenFree | ReadToken(chunk: seq<bv8>) | AuthFails | AuthSucceeds | Install | SpawnCleanup
    | IoExits(c: nat) | ChannelEnds(c: nat) | Clear(c: nat)

  function Start(expected: Token): State { State(expected, None, Listening, []) }

  /** Compares all 32 bytes whatever the first ones are. */
  method ConstantTimeEq(a: Token, b: seq<bv8>) returns (r: bool)
    requires |a| == TOKEN_LEN
    ensures r <==> a == b
  {
    if |b| != TOKEN_LEN {
      return false;
    }
    var diff: bv8 := 0;
    for i := 0 to TOKEN_LEN
      invariant diff == 0 <==> a[..i] == b[..i]
    {
      OrXor(diff, a[i], b[i]);
      assert a[..i + 1] == a[..i] + [a[i]] && b[..i + 1] == b[..i] + [b[i]];
      diff := diff | (a[i] ^ b[i]);
    }
    assert a[..TOKEN_LEN] == a && b[..TOKEN_LEN] == b;
    r := diff == 0;
  }

  lemma OrXor(diff: bv8, x: bv8, y: bv8)
    ensures diff | (x ^ y) == 0 <==> diff == 0 && x == y
  {
  }

  /** The first 32 bytes are the token. */
  predicate Matches(expected: Token, sent: seq<bv8>) { |sent| >= TOKEN_LEN && sent[..TOKEN_LEN] == expected }

  predicate Enabled(s: State, step: Step) {
    match step
    case AcceptWhileBusy => s.pc.Listening? && s.slot.Some?
    case AcceptWhenFree => s.pc.Listening? && s.slot.None?
    case ReadToken(chunk) => s.pc.Authenticating? && |s.pc.read| < TOKEN_LEN && chunk != []
    case AuthFails => s.pc.Authenticating? && !Matches(s.expected, s.pc.read)
    case AuthSucceeds => s.pc.Authenticating? && Matches(s.expected, s.pc.read)
    case Install => s.pc.Created?
    case SpawnCleanup => s.pc.Installed? && s.pc.c < |s.conns|
    case IoExits(c) => c < |s.conns| && s.conns[c].ioRunning
    case ChannelEnds(c) => c < |s.conns| && s.conns[c].cleanup.Watching? && !s.conns[c].ioRunning
    case Clear(c) => c < |s.conns| && s.conns[c].cleanup.Clearing?
  }

  function Apply(s: State, step: Step): State
    requires Enabled(s, step)
  {
    match step
    case AcceptWhileBusy => s
    case AcceptWhenFree => s.(pc := Authenticating([]))
    case ReadToken(chunk) => s.(pc := Authenticating(s.pc.read + chunk))
    case AuthFails => s.(pc := Listening)
    case AuthSucceeds => s.(pc := Created(|s.conns|), conns := s.conns + [Connection(true, NotSpawned, s.pc.read)])
    case Install => s.(slot := Some(s.pc.c), pc := Installed(s.pc.c))
    case SpawnCleanup => s.(pc := Listening, conns := s.conns[s.pc.c := s.conns[s.pc.c].(cleanup := Watching)])
    case IoExits(c) => s.(conns := s.conns[c := s.conns[c].(ioRunning := false)])
    case ChannelEnds(c) => s.(conns := s.conns[c := s.conns[c].(cleanup := Clearing)])
    case Clear(c) => s.(slot := None, conns := s.conns[c := s.conns[c].(cleanup := Done)])
  }

  /** A connection is live until its clean-up task has emptied the slot. */
  ghost predicate Live(s: State, c: nat) { c < |s.conns| && !s.conns[c].cleanup.Done? }

  ghost predicate Safe(s: State) {
    && (forall c: nat :: Live(s, c) <==> s.slot == Some(c) || s.pc == Created(c))
    && (s.pc.Authenticating? || s.pc.Created? ==> s.slot.None?)
    && (s.pc.Installed? ==> s.slot == Some(s.pc.c))
    && (forall c: nat :: c < |s.conns| ==>
          && (s.conns[c].cleanup.NotSpawned? <==> s.pc == Created(c) || s.pc == Installed(c))
          && Matches(s.expected, s.conns[c].sent)
          && (s.conns[c].cleanup.Clearing? || s.conns[c].cleanup.Done? ==> !s.conns[c].ioRunning))
  }

  lemma StepKeepsSafe(s: State, step: Step)
    requires Safe(s) && Enabled(s, step)
    ensures Safe(Apply(s, step)) && Apply(s, step).expected == s.expected
  {
    var t := Apply(s, step);
    assert forall c: nat :: Live(s, c) <==> s.slot == Some(c) || s.pc == Created(c);
    if step.Clear? {
      assert Live(s, step.c);
    }
  }

  ghost predicate Next(s: State, t: State) { exists step :: Enabled(s, step) && t == Apply(s, step) }

  lemma ReachableIsSafe(expected: Token, s: State)
    requires Reachable(Start(expected), Next, s)
    ensures Safe(s) && s.expected == expected
  {
    var inv := (a: State) => Safe(a) && a.expected == expected;
    forall a, b | inv(a) && Next(a, b) ensures inv(b) {
      var step :| Enabled(a, step) && b == Apply(a, step);
      StepKeepsSafe(a, step);
    }
    ReachableKeeps(Start(expected), Next, inv, s);
  }

  /** In every interleaving at most one connection is live and at most one I/O task runs; a
      connection in the slot, or with a running I/O task, has sent the expected token first; and
      a clean-up task that is about to empty the slot finds its own connection there. */
  lemma OneConnectionAtATime(expected: Token, s: State)
    requires Reachable(Start(expected), Next, s)
    ensures forall c: nat, d: nat :: Live(s, c) && Live(s, d) ==> c == d
    ensures forall c: nat, d: nat ::
      c < |s.conns| && d < |s.conns| && s.conns[c].ioRunning && s.conns[d].ioRunning ==> c == d
    ensures s.slot.Some? ==> s.slot.value < |s.conns|
    ensures forall c: nat :: c < |s.conns| && (s.slot == Some(c) || s.conns[c].ioRunning) ==>
      |s.conns[c].sent| >= TOKEN_LEN && s.conns[c].sent[..TOKEN_LEN] == expected
    ensures forall c: nat :: Enabled(s, Clear(c)) ==> s.slot == Some(c) && !s.conns[c].ioRunning
  {
    ReachableIsSafe(expected, s);
    assert s.slot.Some? ==> Live(s, s.slot.value);
    assert forall c: nat :: c < |s.conns| && s.conns[c].ioRunning ==> Live(s, c);
    assert forall c: nat :: Enabled(s, Clear(c)) ==> Live(s, c) && s.pc != Created(c);
  }

  lemma Steps(expected: Token, s: State, step: Step) returns (t: State)
    requires Reachable(Start(expected), Next, s) && Enabled(s, step)
    ensures t == Apply(s, step) && Reachable(Start(expected), Next, t)
  {
    t := Apply(s, step);
    StepIsReachable(Start(expected), Next, s, t);
  }

  lemma {:induction false} ReadsPieces(expected: Token, pieces: seq<seq<bv8>>) returns (s: State)
    requires (forall i :: 0 <= i < |pieces| ==> pieces[i] != [])
    requires pieces != [] ==> |Concat(pieces[..|pieces| - 1])| < TOKEN_LEN
    ensures Reachable(Start(expected), Next, s) && s == State(expected, None, Authenticating(Concat(pieces)), [])
  {
    if pieces == [] {
      StartIsReachable(Start(expected), Next);
      s := Steps(expected, Start(expected), AcceptWhenFree);
    } else {
      s := ReadsPieces(expected, pieces[..|pieces| - 1]);
      s := Steps(expected, s, ReadToken(pieces[|pieces| - 1]));
    }
  }

  /** The right token gets a connection into the slot, in however many pieces it arrives and
      whatever comes behind it in the last one. */
  lemma TokenOpensSlot(expected: Token, pieces: seq<seq<bv8>>) returns (s: State)
    requires |expected| == TOKEN_LEN && expected <= Concat(pieces) && forall i :: 0 <= i < |pieces| ==> pieces[i] != []
    requires pieces != [] && |Concat(pieces[..|pieces| - 1])| < TOKEN_LEN
    ensures Reachable(Start(expected), Next, s) && s.slot == Some(0) && s.pc == Listening
  {
    s := ReadsPieces(expected, pieces);
    s := Steps(expected, s, AuthSucceeds);
    s := Steps(expected, s, Install);
    s := Steps(expected, s, SpawnCleanup);
  }
}
