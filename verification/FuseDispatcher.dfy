/** Matching responses to requests: vm-agent/src/fuse/dispatcher.rs as a step machine in
    which any number of callers, the reader task, timeouts and failing writes interleave. */
module FuseDispatcher {
  import opened Bytes
  import opened FuseProtocol
  import opened Runs

  /** How `send_request` can end. */
  datatype Outcome = Answer(m: Message) | Timeout | TransportError | ChannelClosed

  /** Where one call of `send_request` stands. */
  datatype Phase =
    | Fresh                      // id allocated
    | Writing                    // entered in `pending`, writing the request
    | WriteFailed                // the write failed, entry not yet removed
    | Waiting                    // awaiting the one-shot channel under the timeout
    | Expired                    // timed out, entry not yet removed
    | Returned(outcome: Outcome)

  /** `mailbox` is the value in the one-shot channel; `since` is how many messages had been
      heard when the call entered `pending`; `written` is how writing the request ended. */
  datatype Call = Call(request: Request, phase: Phase, mailbox: Option<Message>, since: nat, written: Option<bool>)

  datatype State = State(nextId: nat, calls: map<u64, Call>, pending: set<u64>, heard: seq<Message>)

  datatype Step =
    | Allocate(request: Request)
    | Insert(id: u64) | WriteOk(id: u64) | WriteFails(id: u64)
    | Hear(m: Message)
    | Return(id: u64) | Expire(id: u64) | Disconnect(id: u64) | Remove(id: u64)

  const LIMIT := 0x1_0000_0000_0000_0000
  const START := State(1, map[], {}, [])

  predicate In(s: State, id: u64, p: Phase) { id in s.calls && s.calls[id].phase == p }

  /** Messages that answer a request. */
  predicate Answers(m: Message) { IsReply(m) || m.Pong? }

  predicate Enabled(s: State, step: Step) {
    match step
    case Allocate(r) => s.nextId < LIMIT && r.requestId == s.nextId
    case Insert(id) => In(s, id, Fresh)
    case WriteOk(id) => In(s, id, Writing)
    case WriteFails(id) => In(s, id, Writing)
    case Hear(_) => true
    case Return(id) => In(s, id, Waiting) && s.calls[id].mailbox.Some?
    case Expire(id) => In(s, id, Waiting) && s.calls[id].mailbox.None?
    case Disconnect(id) => In(s, id, Waiting) && s.calls[id].mailbox.None? && id !in s.pending
    case Remove(id) => In(s, id, WriteFailed) || In(s, id, Expired)
  }

  function Move(s: State, id: u64, p: Phase): State
    requires id in s.calls
  {
    s.(calls := s.calls[id := s.calls[id].(phase := p)])
  }

  /** The receiving end of the channel is gone once the timeout fired or the call returned. */
  predicate Listening(c: Call) { c.phase.Writing? || c.phase.WriteFailed? || c.phase.Waiting? }

  function Apply(s: State, step: Step): State
    requires Enabled(s, step)
  {
    match step
    case Allocate(r) => s.(nextId := s.nextId + 1, calls := s.calls[r.requestId := Call(r, Fresh, None, 0, None)])
    case Insert(id) =>
      s.(calls := s.calls[id := s.calls[id].(phase := Writing, since := |s.heard|)], pending := s.pending + {id})
    case WriteOk(id) => s.(calls := s.calls[id := s.calls[id].(phase := Waiting, written := Some(true))])
    case WriteFails(id) => s.(calls := s.calls[id := s.calls[id].(phase := WriteFailed, written := Some(false))])
    case Hear(m) => Handled(s.(heard := s.heard + [m]), m)
    case Return(id) => Move(s, id, Returned(Answer(s.calls[id].mailbox.value)))
    case Expire(id) => Move(s, id, Expired)
    case Disconnect(id) => Move(s, id, Returned(ChannelClosed))
    case Remove(id) =>
      Move(s, id, Returned(if s.calls[id].phase.Expired? then Timeout else TransportError)).(pending := s.pending - {id})
  }

  /** `handle_message`: a response leaves `pending` and goes to its caller if that still
      listens; an unknown id and a notification change nothing here. */
  function Handled(s: State, m: Message): State {
    if !Answers(m) || m.replyTo !in s.pending then s
    else
      var t := s.(pending := s.pending - {m.replyTo});
      if m.replyTo in s.calls && Listening(s.calls[m.replyTo])
      then t.(calls := s.calls[m.replyTo := s.calls[m.replyTo].(mailbox := Some(m))])
      else t
  }

  // ----- the typed operations -----

  datatype Reply = Ok(m: Message) | StatusError(status: u16) | ProtocolError | Failed(outcome: Outcome)

  predicate SameKind(r: Request, m: Message) {
    match r
    case Open(_, _, _, _) => m.Opened?
    case Read(_, _, _, _) => m.DataRead?
    case Write(_, _, _, _) => m.Written?
    case Close(_, _) => m.Closed?
    case Readdir(_, _, _, _) => m.Listing?
    case Stat(_, _) => m.Attributes?
    case Mkdir(_, _, _) => m.MadeDir?
    case Remove(_, _, _) => m.Removed?
    case Rename(_, _, _) => m.Renamed?
    case Truncate(_, _, _) => m.Truncated?
    case PathQuery(_) => m.PathState?
    case Ping(_) => m.Pong?
  }

  /** What `open`, `read`, … make of the outcome of `send_request`. */
  function Typed(r: Request, o: Outcome): Reply {
    if !o.Answer? then Failed(o)
    else if !SameKind(r, o.m) then ProtocolError
    else if r.Ping? then Ok(o.m)
    else if IsReply(o.m) && o.m.status == 0 then Ok(o.m)
    else if IsReply(o.m) then StatusError(o.m.status)
    else ProtocolError
  }

  // ----- the invariant -----

  predicate Replies(m: Message, id: u64) { Answers(m) && m.replyTo == id }

  /** The first response to `id` among the messages from number `since` on. */
  ghost function FirstReply(heard: seq<Message>, since: nat, id: u64): Option<Message> {
    if |heard| <= since then None
    else
      var first, m := FirstReply(heard[..|heard| - 1], since, id), heard[|heard| - 1];
      if first.Some? then first else if Replies(m, id) then Some(m) else None
  }

  lemma FirstReplySnoc(heard: seq<Message>, m: Message, since: nat, id: u64)
    requires since <= |heard|
    ensures FirstReply(heard + [m], since, id)
         == var first := FirstReply(heard, since, id);
            if first.Some? then first else if Replies(m, id) then Some(m) else None
  {
    var more := heard + [m];
    assert more[..|more| - 1] == heard && more[|more| - 1] == m;
  }

  ghost predicate CallOk(s: State, id: u64)
    requires id in s.calls
  {
    var c := s.calls[id];
    && id < s.nextId && c.request.requestId == id && c.since <= |s.heard|
    && (id in s.pending ==> c.mailbox.None? && !c.phase.Fresh? && !c.phase.Returned?)
    && (c.phase.Fresh? ==> c.mailbox.None?)
    && (Listening(c) ==> c.mailbox == FirstReply(s.heard, c.since, id) && (id in s.pending || c.mailbox.Some?))
    && (c.mailbox.Some? ==> c.mailbox == FirstReply(s.heard, c.since, id))
    && (c.phase.Returned? && c.phase.outcome.Answer? ==> c.mailbox == Some(c.phase.outcome.m))
    && (c.phase.Fresh? || c.phase.Writing? ==> c.written == None) && (c.phase.WriteFailed? ==> c.written == Some(false))
    && (c.phase.Waiting? || c.phase.Expired? ==> c.written == Some(true)) && (c.phase.Expired? ==> c.mailbox.None?)
    && (c.phase.Returned? ==> match c.phase.outcome
                              case Answer(_) => c.written == Some(true)
                              case Timeout => c.written == Some(true) && c.mailbox.None?
                              case TransportError => c.written == Some(false)
                              case ChannelClosed => false)
  }

  ghost predicate Safe(s: State) {
    (forall id :: id in s.calls ==> CallOk(s, id)) && (forall id :: id in s.pending ==> id in s.calls)
  }

  lemma CallStaysOk(s: State, step: Step, id: u64)
    requires id in s.calls && CallOk(s, id) && Enabled(s, step)
    ensures id in Apply(s, step).calls && CallOk(Apply(s, step), id)
  {
    if step.Hear? {
      FirstReplySnoc(s.heard, step.m, s.calls[id].since, id);
    }
  }

  lemma StepKeepsSafe(s: State, step: Step)
    requires Safe(s) && Enabled(s, step)
    ensures Safe(Apply(s, step))
  {
    var t := Apply(s, step);
    forall id | id in t.calls ensures CallOk(t, id) {
      if id in s.calls {
        CallStaysOk(s, step, id);
      }
    }
  }

  // ----- runs -----

  ghost predicate Next(s: State, t: State) { exists step :: Enabled(s, step) && t == Apply(s, step) }

  lemma SafeIsKept()
    ensures Safe(START) && Preserved(Next, Safe)
  {
    forall s, t | Safe(s) && Next(s, t) ensures Safe(t) {
      var step :| Enabled(s, step) && t == Apply(s, step);
      StepKeepsSafe(s, step);
    }
  }

  lemma ReachableIsSafe(s: State)
    requires Reachable(START, Next, s)
    ensures Safe(s)
  {
    SafeIsKept();
    ReachableKeeps(START, Next, Safe, s);
  }

  lemma StepKeepsOutcome(s: State, step: Step, id: u64)
    requires Safe(s) && Enabled(s, step) && id in s.calls && s.calls[id].phase.Returned?
    ensures id in Apply(s, step).calls && Apply(s, step).calls[id] == s.calls[id]
  {
    assert CallOk(s, id);
  }

  /** What has returned in `s` is the same in `t`. */
  ghost predicate OutcomesStay(s: State, t: State) {
    forall id :: id in s.calls && s.calls[id].phase.Returned? ==> id in t.calls && t.calls[id] == s.calls[id]
  }

  /** A request gets at most one outcome: once a call has returned, it stays as it is. */
  lemma OutcomeIsFinal(states: seq<State>, i: nat, j: nat)
    requires Run(START, Next, states) && i <= j < |states|
    ensures OutcomesStay(states[i], states[j])
  {
    SafeIsKept();
    forall s, t, u | OutcomesStay(s, t) && Safe(t) && Next(t, u) ensures OutcomesStay(s, u) {
      var step :| Enabled(t, step) && u == Apply(t, step);
      forall id | id in s.calls && s.calls[id].phase.Returned? ensures id in u.calls && u.calls[id] == s.calls[id] {
        StepKeepsOutcome(t, step, id);
      }
    }
    RelationHolds(START, Next, Safe, OutcomesStay, states, i, j);
  }

  lemma {:induction false} FirstReplyReplies(heard: seq<Message>, since: nat, id: u64)
    requires FirstReply(heard, since, id).Some?
    ensures var m := FirstReply(heard, since, id).value; m in heard[since..] && Replies(m, id)
  {
    var front := heard[..|heard| - 1];
    if FirstReply(front, since, id).Some? {
      FirstReplyReplies(front, since, id);
      assert heard[since..] == front[since..] + [heard[|heard| - 1]];
    } else {
      assert heard[since..][|heard| - 1 - since] == heard[|heard| - 1];
    }
  }

  /** In every run: a call that has returned is no longer pending; it never ends with a
      closed channel; and an answer it returns is the first response to its own id heard
      since it entered `pending`, however many came early, late or twice. */
  lemma ReturnedCallsAreSettled(s: State, id: u64)
    requires Reachable(START, Next, s) && id in s.calls && s.calls[id].phase.Returned?
    ensures id !in s.pending
    ensures s.calls[id].phase.outcome != ChannelClosed && s.calls[id].request.requestId == id
    ensures var c := s.calls[id];
      c.phase.outcome.Answer? ==>
        && FirstReply(s.heard, c.since, id) == Some(c.phase.outcome.m)
        && c.phase.outcome.m in s.heard[c.since..] && Replies(c.phase.outcome.m, c.request.requestId)
  {
    ReachableIsSafe(s);
    assert CallOk(s, id);
    if s.calls[id].phase.outcome.Answer? {
      FirstReplyReplies(s.heard, s.calls[id].since, id);
    }
  }

  /** No response is lost: a call that still waits has heard none since it entered
      `pending`, or has the first one at hand. */
  lemma WaitingCallsMissNothing(s: State, id: u64)
    requires Reachable(START, Next, s) && In(s, id, Waiting)
    ensures var c := s.calls[id];
      && c.mailbox == FirstReply(s.heard, c.since, id)
      && (c.mailbox.None? <==> id in s.pending)
  {
    ReachableIsSafe(s);
    assert CallOk(s, id);
  }

  /** Which way a call ends says what happened: a transport error that its request could not be
      written, a timeout that it was written and no answer was taken in time, an answer that it
      was written and one was. */
  lemma OutcomesSayWhatHappened(s: State, id: u64)
    requires Reachable(START, Next, s) && id in s.calls && s.calls[id].phase.Returned?
    ensures var c := s.calls[id];
      && (c.phase.outcome == TransportError <==> c.written == Some(false))
      && (c.phase.outcome == Timeout <==> c.written == Some(true) && c.mailbox.None?)
      && (c.phase.outcome.Answer? <==> c.written == Some(true) && c.mailbox.Some?)
  {
    ReachableIsSafe(s);
    assert CallOk(s, id);
  }

  /** A typed operation succeeds exactly on a response of its own kind, with status Ok where
      the kind has one, that the host sent for this very request; another status is its error,
      and an answer of another kind a protocol error. */
  lemma OkMeansOwnResponse(s: State, id: u64)
    requires Reachable(START, Next, s) && id in s.calls && s.calls[id].phase.Returned?
    ensures var c := s.calls[id];
      var r, first := Typed(c.request, c.phase.outcome), FirstReply(s.heard, c.since, id);
      && (c.phase.outcome.Answer? ==> first == Some(c.phase.outcome.m) && Replies(c.phase.outcome.m, id))
      && (r.Ok? <==> c.phase.outcome.Answer? && SameKind(c.request, first.value)
                     && (first.value.Pong? || (IsReply(first.value) && first.value.status == 0)))
      && (r.Ok? ==> r.m == first.value)
      && (r.StatusError? <==> c.phase.outcome.Answer? && SameKind(c.request, first.value)
                              && IsReply(first.value) && first.value.status != 0)
      && (r.StatusError? ==> r.status == first.value.status)
      && (r.ProtocolError? <==> c.phase.outcome.Answer? && !SameKind(c.request, first.value))
      && (r.Failed? <==> !c.phase.outcome.Answer?)
  {
    ReturnedCallsAreSettled(s, id);
  }
}
