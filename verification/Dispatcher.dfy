/**
 The request/reply protocol of the ATP client: concurrent calls and one reader task share a map
 from command ids to the sending halves of one-shot channels.
 */
module Dispatcher {
  import opened Common

  type Id = string

  datatype Reply = Reply(id: Id, body: string)

  datatype Frame = ReplyFrame(reply: Reply) | EventFrame(event: nat)

  /** What the socket yields: text that parses as a frame or does not, other messages, and the three ways to stop. */
  datatype StreamItem = Text(frame: Option<Frame>) | NonText | EndOfStream | Close | ReadError

  datatype ClientError = Json | WebSocket | Timeout | OneshotCancelled

  /** The one-shot channel of a call, seen from its receiver; a delivered reply is named by its arrival number. */
  datatype Channel = Empty | Holds(arrival: nat) | SenderDropped

  datatype Phase = Registered | Sent | Returned(outcome: Result<Reply, ClientError>)

  /** `since` counts the replies that had arrived when the call registered itself. */
  datatype Call = Call(id: Id, since: nat, phase: Phase, channel: Channel)

  datatype State = State(calls: seq<Call>, pending: map<Id, nat>, replies: seq<Reply>, events: seq<nat>, reading: bool)

  const INITIAL := State([], map[], [], [], true)

  /** The atomic steps; any interleaving of them is a run. */
  datatype Step =
    | Register(id: Id)
    | FailSend(call: nat, error: ClientError)
    | CompleteSend(call: nat)
    | Read(item: StreamItem)
    | TimeOut(call: nat)
    | Receive(call: nat)

  predicate Enabled(s: State, step: Step) {
    match step
    case Register(_) => true
    case FailSend(c, e) => c < |s.calls| && s.calls[c].phase.Registered? && (e.Json? || e.WebSocket?)
    case CompleteSend(c) => c < |s.calls| && s.calls[c].phase.Registered?
    case Read(_) => s.reading
    case TimeOut(c) => c < |s.calls| && s.calls[c].phase.Sent? && s.calls[c].channel.Empty?
    case Receive(c) => c < |s.calls| && s.calls[c].phase.Sent? && !s.calls[c].channel.Empty?
  }

  /** Every pending entry names a call that registered under that id, and every held arrival exists. */
  ghost predicate Linked(s: State) {
    && (forall id :: id in s.pending ==> s.pending[id] < |s.calls| && s.calls[s.pending[id]].id == id)
    && (forall c :: 0 <= c < |s.calls| && s.calls[c].channel.Holds? ==> s.calls[c].channel.arrival < |s.replies|)
  }

  /** Inserting under an id drops the sender that was stored there. */
  ghost function RegisterCall(s: State, id: Id): State
    requires Linked(s)
  {
    var calls := if id in s.pending
      then s.calls[s.pending[id] := s.calls[s.pending[id]].(channel := SenderDropped)]
      else s.calls;
    s.(calls := calls + [Call(id, |s.replies|, Registered, Empty)], pending := s.pending[id := |s.calls|])
  }

  /** A reply takes its pending entry; a call that has already returned has no receiver any more. */
  ghost function DeliverReply(s: State, r: Reply): State
    requires Linked(s)
  {
    var arrived := s.(replies := s.replies + [r]);
    if r.id !in s.pending then arrived
    else
      var c := s.pending[r.id];
      arrived.(pending := s.pending - {r.id},
               calls := if s.calls[c].phase.Returned? then s.calls
                        else s.calls[c := s.calls[c].(channel := Holds(|s.replies|))])
  }

  ghost function ReadItem(s: State, item: StreamItem): State
    requires Linked(s)
  {
    match item
    case Text(Some(ReplyFrame(r))) => DeliverReply(s, r)
    case Text(Some(EventFrame(e))) => s.(events := s.events + [e])
    case Text(None) => s
    case NonText => s
    case EndOfStream => s.(reading := false)
    case Close => s.(reading := false)
    case ReadError => s.(reading := false)
  }

  ghost function SetPhase(s: State, c: nat, phase: Phase): State
    requires c < |s.calls|
  {
    s.(calls := s.calls[c := s.calls[c].(phase := phase)])
  }

  ghost function Apply(s: State, step: Step): State
    requires Linked(s) && Enabled(s, step)
  {
    match step
    case Register(id) => RegisterCall(s, id)
    case FailSend(c, e) => SetPhase(s, c, Returned(Err(e)))
    case CompleteSend(c) => SetPhase(s, c, Sent)
    case Read(item) => ReadItem(s, item)
    case TimeOut(c) => SetPhase(s, c, Returned(Err(Timeout)))
    case Receive(c) => SetPhase(s, c, Returned(Received(s, c)))
  }

  function Received(s: State, c: nat): Result<Reply, ClientError>
    requires c < |s.calls|
    requires s.calls[c].channel.Holds? ==> s.calls[c].channel.arrival < |s.replies|
  {
    if s.calls[c].channel.Holds? then Ok(s.replies[s.calls[c].channel.arrival]) else Err(OneshotCancelled)
  }

  /** A run: the states it passes through, each reached from the one before by one enabled step. */
  ghost predicate IsRun(states: seq<State>, steps: seq<Step>) {
    && |states| == |steps| + 1
    && states[0] == INITIAL
    && forall i :: 0 <= i < |steps| ==>
        Linked(states[i]) && Enabled(states[i], steps[i]) && states[i + 1] == Apply(states[i], steps[i])
  }

  // What the history of a run says about a call, independently of `pending` and of the channels.

  /** A reply with this id is among the arrivals lo, lo+1, ..., hi-1. */
  ghost predicate Answered(replies: seq<Reply>, lo: nat, hi: nat, id: Id) {
    exists k :: lo <= k < hi && k < |replies| && replies[k].id == id
  }

  /** A later call registered under the same id before any reply with that id arrived. */
  ghost predicate Displaced(s: State, c: nat)
    requires c < |s.calls|
  {
    exists d :: c < d < |s.calls| && s.calls[d].id == s.calls[c].id
      && !Answered(s.replies, s.calls[c].since, s.calls[d].since, s.calls[c].id)
  }

  /** No reply since registration, and no later call under the same id. */
  ghost predicate Outstanding(s: State, c: nat)
    requires c < |s.calls|
  {
    && !Answered(s.replies, s.calls[c].since, |s.replies|, s.calls[c].id)
    && forall d :: c < d < |s.calls| ==> s.calls[d].id != s.calls[c].id
  }

  ghost predicate IsFirstReply(s: State, c: nat, k: nat)
    requires c < |s.calls|
  {
    && s.calls[c].since <= k < |s.replies|
    && s.replies[k].id == s.calls[c].id
    && !Answered(s.replies, s.calls[c].since, k, s.calls[c].id)
  }

  // The inductive invariant, in four parts.

  ghost predicate PendingIsOutstanding(s: State)
    requires Linked(s)
  {
    forall c :: 0 <= c < |s.calls| ==>
      ((s.calls[c].id in s.pending && s.pending[s.calls[c].id] == c) <==> Outstanding(s, c))
  }

  ghost predicate SinceOrdered(s: State) {
    forall c, d :: 0 <= c <= d < |s.calls| ==> s.calls[c].since <= s.calls[d].since <= |s.replies|
  }

  /** A returned call failed on the way out, timed out, or returned what its channel still shows. */
  ghost predicate OutcomeExplained(s: State, c: nat)
    requires c < |s.calls| && Linked(s)
  {
    s.calls[c].phase.Returned? ==>
      || s.calls[c].phase.outcome in {Err(Json), Err(WebSocket), Err(Timeout)}
      || (!s.calls[c].channel.Empty? && s.calls[c].phase.outcome == Received(s, c))
  }

  ghost predicate ChannelExplained(s: State, c: nat)
    requires c < |s.calls|
  {
    && (s.calls[c].channel.SenderDropped? <==> Displaced(s, c))
    && (s.calls[c].channel.Holds? ==> IsFirstReply(s, c, s.calls[c].channel.arrival))
    && (s.calls[c].channel.Empty? && !s.calls[c].phase.Returned? ==> Outstanding(s, c))
  }

  ghost predicate CallsExplained(s: State)
    requires Linked(s)
  {
    forall c :: 0 <= c < |s.calls| ==> ChannelExplained(s, c) && OutcomeExplained(s, c)
  }

  ghost predicate ArrivalsDistinct(s: State) {
    forall c, d :: 0 <= c < d < |s.calls| && s.calls[c].channel.Holds? && s.calls[d].channel.Holds?
      ==> s.calls[c].channel != s.calls[d].channel
  }

  ghost predicate Inv(s: State) {
    Linked(s) && SinceOrdered(s) && PendingIsOutstanding(s) && CallsExplained(s) && ArrivalsDistinct(s)
  }

  lemma AnsweredAfterOneMore(replies: seq<Reply>, r: Reply, lo: nat, hi: nat, id: Id)
    requires hi <= |replies| + 1
    ensures Answered(replies + [r], lo, hi, id)
      <==> Answered(replies, lo, hi, id) || (lo <= |replies| < hi && r.id == id)
  {
    var more := replies + [r];
    if Answered(more, lo, hi, id) {
      var k :| lo <= k < hi && k < |more| && more[k].id == id;
      assert k < |replies| ==> replies[k].id == id;
    }
    if Answered(replies, lo, hi, id) {
      var k :| lo <= k < hi && k < |replies| && replies[k].id == id;
      assert more[k].id == id;
    }
    if lo <= |replies| < hi && r.id == id {
      assert more[|replies|].id == id;
    }
  }

  /** A registration appends one call and drops at most the sender of another. */
  lemma RegisteredCalls(s: State, id: Id)
    requires Linked(s)
    ensures var t := RegisterCall(s, id);
      && |t.calls| == |s.calls| + 1 && t.replies == s.replies
      && t.calls[|s.calls|] == Call(id, |s.replies|, Registered, Empty)
      && forall c :: 0 <= c < |s.calls| ==>
           t.calls[c] == s.calls[c] || t.calls[c] == s.calls[c].(channel := SenderDropped)
  {
  }

  lemma RegisterKeepsLinked(s: State, id: Id)
    requires Linked(s)
    ensures Linked(RegisterCall(s, id))
  {
    RegisteredCalls(s, id);
  }

  lemma RegisterKeepsOrder(s: State, id: Id)
    requires Linked(s) && SinceOrdered(s)
    ensures SinceOrdered(RegisterCall(s, id))
  {
    RegisteredCalls(s, id);
  }

  lemma RegisterKeepsDistinct(s: State, id: Id)
    requires Linked(s) && ArrivalsDistinct(s)
    ensures ArrivalsDistinct(RegisterCall(s, id))
  {
    RegisteredCalls(s, id);
  }

  lemma RegisterOutstanding(s: State, id: Id, c: nat)
    requires Linked(s) && c < |s.calls|
    ensures Outstanding(RegisterCall(s, id), c) <==> Outstanding(s, c) && s.calls[c].id != id
  {
    var t := RegisterCall(s, id);
    RegisteredCalls(s, id);
    assert forall d :: c < d < |s.calls| ==> t.calls[d].id == s.calls[d].id;
    assert t.calls[|s.calls|].id == id;
  }

  lemma RegisterKeepsPending(s: State, id: Id)
    requires Linked(s) && PendingIsOutstanding(s)
    ensures Linked(RegisterCall(s, id)) && PendingIsOutstanding(RegisterCall(s, id))
  {
    var t := RegisterCall(s, id);
    RegisterKeepsLinked(s, id);
    RegisteredCalls(s, id);
    var n := |s.calls|;
    forall c | 0 <= c < |t.calls|
      ensures (t.calls[c].id in t.pending && t.pending[t.calls[c].id] == c) <==> Outstanding(t, c)
    {
      if c < n {
        RegisterOutstanding(s, id, c);
        assert t.calls[c].id == s.calls[c].id;
        assert (s.calls[c].id in s.pending && s.pending[s.calls[c].id] == c) <==> Outstanding(s, c);
      }
    }
  }

  /** A registration displaces exactly the call that was pending under the id. */
  lemma RegisterDisplaces(s: State, id: Id, c: nat)
    requires Linked(s) && c < |s.calls|
    ensures Displaced(RegisterCall(s, id), c)
      <==> Displaced(s, c) || (s.calls[c].id == id && !Answered(s.replies, s.calls[c].since, |s.replies|, id))
  {
    var t := RegisterCall(s, id);
    var n := |s.calls|;
    assert t.calls[n].id == id && t.calls[n].since == |s.replies|;
    assert forall d :: 0 <= d < n ==> t.calls[d].id == s.calls[d].id && t.calls[d].since == s.calls[d].since;
    if Displaced(s, c) {
      var d :| c < d < |s.calls| && s.calls[d].id == s.calls[c].id
        && !Answered(s.replies, s.calls[c].since, s.calls[d].since, s.calls[c].id);
      assert t.calls[d].id == t.calls[c].id;
    }
    if Displaced(t, c) {
      var d :| c < d < |t.calls| && t.calls[d].id == t.calls[c].id
        && !Answered(t.replies, t.calls[c].since, t.calls[d].since, t.calls[c].id);
      assert d < n ==> s.calls[d].id == s.calls[c].id;
    }
  }

  lemma RegisterExplainsChannel(s: State, id: Id, c: nat)
    requires Inv(s) && c < |s.calls|
    ensures ChannelExplained(RegisterCall(s, id), c)
  {
    var t := RegisterCall(s, id);
    assert ChannelExplained(s, c);
    RegisterDisplaces(s, id, c);
    RegisterKeepsPending(s, id);
    if s.calls[c].id == id && !(id in s.pending && s.pending[id] == c) {
      assert !Outstanding(s, c);
    }
  }

  lemma RegisterExplains(s: State, id: Id, c: nat)
    requires Inv(s) && c < |s.calls|
    ensures Linked(RegisterCall(s, id)) && ChannelExplained(RegisterCall(s, id), c)
      && OutcomeExplained(RegisterCall(s, id), c)
  {
    RegisterKeepsLinked(s, id);
    RegisterExplainsChannel(s, id, c);
    assert ChannelExplained(s, c) && OutcomeExplained(s, c);
  }

  lemma RegisterKeepsInv(s: State, id: Id)
    requires Inv(s)
    ensures Inv(RegisterCall(s, id))
  {
    var t := RegisterCall(s, id);
    RegisterKeepsLinked(s, id);
    RegisterKeepsOrder(s, id);
    RegisterKeepsDistinct(s, id);
    RegisteredCalls(s, id);
    RegisterKeepsPending(s, id);
    forall c | 0 <= c < |t.calls| ensures ChannelExplained(t, c) && OutcomeExplained(t, c) {
      if c < |s.calls| { RegisterExplains(s, id, c); }
    }
  }

  lemma DeliverKeepsPending(s: State, r: Reply)
    requires Linked(s) && SinceOrdered(s) && PendingIsOutstanding(s)
    ensures Linked(DeliverReply(s, r)) && SinceOrdered(DeliverReply(s, r)) && PendingIsOutstanding(DeliverReply(s, r))
  {
    var t := DeliverReply(s, r);
    forall c | 0 <= c < |t.calls|
      ensures (t.calls[c].id in t.pending && t.pending[t.calls[c].id] == c) <==> Outstanding(t, c)
    {
      AnsweredAfterOneMore(s.replies, r, s.calls[c].since, |t.replies|, s.calls[c].id);
      assert forall d :: c < d < |s.calls| ==> t.calls[d].id == s.calls[d].id;
      assert Outstanding(t, c) <==> Outstanding(s, c) && r.id != s.calls[c].id;
    }
  }

  lemma DeliverKeepsDisplaced(s: State, r: Reply, c: nat)
    requires Linked(s) && SinceOrdered(s) && c < |s.calls|
    ensures Displaced(DeliverReply(s, r), c) <==> Displaced(s, c)
  {
    var t := DeliverReply(s, r);
    assert |t.calls| == |s.calls|;
    forall d | 0 <= d < |s.calls|
      ensures t.calls[d].id == s.calls[d].id && t.calls[d].since == s.calls[d].since
      ensures Answered(t.replies, s.calls[c].since, s.calls[d].since, s.calls[c].id)
        == Answered(s.replies, s.calls[c].since, s.calls[d].since, s.calls[c].id)
    {
      AnsweredAfterOneMore(s.replies, r, s.calls[c].since, s.calls[d].since, s.calls[c].id);
    }
  }

  lemma DeliverKeepsFirst(s: State, r: Reply, c: nat, k: nat)
    requires Linked(s) && c < |s.calls| && IsFirstReply(s, c, k)
    ensures IsFirstReply(DeliverReply(s, r), c, k)
  {
    AnsweredAfterOneMore(s.replies, r, s.calls[c].since, k, s.calls[c].id);
  }

  lemma DeliverIsFirst(s: State, r: Reply, c: nat)
    requires Linked(s) && c < |s.calls| && s.calls[c].id == r.id && s.calls[c].since <= |s.replies|
    requires !Answered(s.replies, s.calls[c].since, |s.replies|, r.id)
    ensures IsFirstReply(DeliverReply(s, r), c, |s.replies|)
  {
    AnsweredAfterOneMore(s.replies, r, s.calls[c].since, |s.replies|, r.id);
  }

  lemma DeliverExplainsChannel(s: State, r: Reply, c: nat)
    requires Inv(s) && c < |s.calls|
    ensures ChannelExplained(DeliverReply(s, r), c)
  {
    var t := DeliverReply(s, r);
    assert ChannelExplained(s, c);
    assert (s.calls[c].id in s.pending && s.pending[s.calls[c].id] == c) <==> Outstanding(s, c);
    DeliverKeepsPending(s, r);
    DeliverKeepsDisplaced(s, r, c);
    if s.calls[c].channel.Holds? {
      DeliverKeepsFirst(s, r, c, s.calls[c].channel.arrival);
    }
    if t.calls[c].channel != s.calls[c].channel {
      DeliverIsFirst(s, r, c);
    }
  }

  lemma DeliverExplains(s: State, r: Reply, c: nat)
    requires Inv(s) && c < |s.calls|
    ensures Linked(DeliverReply(s, r)) && ChannelExplained(DeliverReply(s, r), c)
      && OutcomeExplained(DeliverReply(s, r), c)
  {
    DeliverKeepsPending(s, r);
    DeliverExplainsChannel(s, r, c);
    assert ChannelExplained(s, c) && OutcomeExplained(s, c);
  }

  lemma DeliverKeepsInv(s: State, r: Reply)
    requires Inv(s)
    ensures Inv(DeliverReply(s, r))
  {
    var t := DeliverReply(s, r);
    DeliverKeepsPending(s, r);
    forall c | 0 <= c < |t.calls| ensures ChannelExplained(t, c) && OutcomeExplained(t, c) {
      DeliverExplains(s, r, c);
    }
  }

  lemma SetPhaseKeepsOutstanding(s: State, c: nat, phase: Phase, d: nat)
    requires c < |s.calls| && d < |s.calls|
    ensures Outstanding(SetPhase(s, c, phase), d) <==> Outstanding(s, d)
    ensures Displaced(SetPhase(s, c, phase), d) <==> Displaced(s, d)
  {
    var t := SetPhase(s, c, phase);
    assert forall e :: d < e < |s.calls| ==> t.calls[e].id == s.calls[e].id;
  }

  lemma SetPhaseKeepsInv(s: State, c: nat, phase: Phase)
    requires Inv(s) && c < |s.calls| && !s.calls[c].phase.Returned?
    requires phase.Returned? ==>
      || phase.outcome in {Err(Json), Err(WebSocket), Err(Timeout)}
      || (!s.calls[c].channel.Empty? && phase.outcome == Received(s, c))
    requires !phase.Returned? ==> phase.Sent?
    ensures Inv(SetPhase(s, c, phase))
  {
    var t := SetPhase(s, c, phase);
    assert PendingIsOutstanding(t) by {
      forall d | 0 <= d < |t.calls| ensures Outstanding(t, d) <==> Outstanding(s, d) {
        SetPhaseKeepsOutstanding(s, c, phase, d);
      }
    }
    forall d | 0 <= d < |t.calls| ensures ChannelExplained(t, d) && OutcomeExplained(t, d) {
      assert ChannelExplained(s, d) && OutcomeExplained(s, d);
      SetPhaseKeepsOutstanding(s, c, phase, d);
    }
  }

  lemma StepKeepsInv(s: State, step: Step)
    requires Inv(s) && Enabled(s, step)
    ensures Inv(Apply(s, step))
  {
    match step
    case Register(id) => RegisterKeepsInv(s, id);
    case FailSend(c, e) => SetPhaseKeepsInv(s, c, Returned(Err(e)));
    case CompleteSend(c) => SetPhaseKeepsInv(s, c, Sent);
    case Read(item) =>
      if item.Text? && item.frame.Some? && item.frame.value.ReplyFrame? {
        DeliverKeepsInv(s, item.frame.value.reply);
      } else {
        FrameKeepsInv(s, ReadItem(s, item));
      }
    case TimeOut(c) => SetPhaseKeepsInv(s, c, Returned(Err(Timeout)));
    case Receive(c) => SetPhaseKeepsInv(s, c, Returned(Received(s, c)));
  }

  lemma FrameKeepsInv(s: State, t: State)
    requires Inv(s) && t.calls == s.calls && t.pending == s.pending && t.replies == s.replies
    ensures Inv(t)
  {
    forall c | 0 <= c < |s.calls|
      ensures (Outstanding(t, c) <==> Outstanding(s, c)) && ChannelExplained(t, c) && OutcomeExplained(t, c)
    {
      assert ChannelExplained(s, c) && OutcomeExplained(s, c);
    }
  }

  lemma {:induction false} RunKeepsInv(states: seq<State>, steps: seq<Step>, i: nat)
    requires IsRun(states, steps) && i < |states|
    ensures Inv(states[i])
  {
    if i > 0 {
      RunKeepsInv(states, steps, i - 1);
      StepKeepsInv(states[i - 1], steps[i - 1]);
    }
  }

  // The main results, about every state of every run.

  ghost predicate UniqueIds(s: State) {
    forall c, d :: 0 <= c < d < |s.calls| ==> s.calls[c].id != s.calls[d].id
  }

  /** A call that returned Ok returned the first reply with its own id to arrive after it registered. */
  lemma OkIsFirstOwnReply(states: seq<State>, steps: seq<Step>, i: nat, c: nat)
    requires IsRun(states, steps) && i < |states| && c < |states[i].calls|
    requires states[i].calls[c].phase.Returned? && states[i].calls[c].phase.outcome.Ok?
    ensures states[i].calls[c].channel.Holds?
    ensures var k := states[i].calls[c].channel.arrival;
      IsFirstReply(states[i], c, k) && states[i].calls[c].phase.outcome == Ok(states[i].replies[k])
  {
    RunKeepsInv(states, steps, i);
    assert ChannelExplained(states[i], c) && OutcomeExplained(states[i], c);
  }

  /** No arrival completes two calls, whatever ids they used. */
  lemma ReplyCompletesAtMostOneCall(states: seq<State>, steps: seq<Step>, i: nat, c: nat, d: nat)
    requires IsRun(states, steps) && i < |states| && c < |states[i].calls| && d < |states[i].calls|
    requires states[i].calls[c].phase.Returned? && states[i].calls[c].phase.outcome.Ok?
    requires states[i].calls[d].phase.Returned? && states[i].calls[d].phase.outcome.Ok?
    requires states[i].calls[c].channel == states[i].calls[d].channel
    ensures c == d
  {
    RunKeepsInv(states, steps, i);
    OkIsFirstOwnReply(states, steps, i, c);
    OkIsFirstOwnReply(states, steps, i, d);
  }

  /** The map holds exactly the calls without a reply or a successor, including those that failed or timed out. */
  lemma PendingIsExact(states: seq<State>, steps: seq<Step>, i: nat, id: Id)
    requires IsRun(states, steps) && i < |states|
    ensures id in states[i].pending
      <==> exists c :: 0 <= c < |states[i].calls| && states[i].calls[c].id == id && Outstanding(states[i], c)
  {
    RunKeepsInv(states, steps, i);
    var s := states[i];
    if id in s.pending {
      assert s.calls[s.pending[id]].id == id && Outstanding(s, s.pending[id]);
    }
  }

  /** With unique ids, the first reply after a call registered finds its entry, reaches a call that still waits, and is
      what it returns. */
  lemma FirstReplyReachesItsCall(states: seq<State>, steps: seq<Step>, i: nat, c: nat, r: Reply)
    requires IsRun(states, steps) && i < |states| && c < |states[i].calls|
    requires UniqueIds(states[i]) && r.id == states[i].calls[c].id
    requires !Answered(states[i].replies, states[i].calls[c].since, |states[i].replies|, r.id)
    ensures Linked(states[i]) && r.id in states[i].pending && states[i].pending[r.id] == c
    ensures !states[i].calls[c].phase.Returned? ==>
      var t := DeliverReply(states[i], r);
      Linked(t) && !t.calls[c].channel.Empty? && Received(t, c) == Ok(r)
  {
    RunKeepsInv(states, steps, i);
    assert Outstanding(states[i], c);
    DeliverKeepsInv(states[i], r);
  }

  /** A waiting call can only be cancelled by a later call that reuses its id before a reply came. */
  lemma CancelledIffDisplaced(states: seq<State>, steps: seq<Step>, i: nat, c: nat)
    requires IsRun(states, steps) && i < |states| && c < |states[i].calls|
    ensures Linked(states[i])
    ensures Enabled(states[i], Receive(c)) ==>
      (Received(states[i], c) == Err(OneshotCancelled) <==> Displaced(states[i], c))
    ensures states[i].calls[c].phase == Returned(Err(OneshotCancelled)) ==> Displaced(states[i], c)
    ensures Displaced(states[i], c) ==> !(states[i].calls[c].phase.Returned? && states[i].calls[c].phase.outcome.Ok?)
  {
    RunKeepsInv(states, steps, i);
    assert ChannelExplained(states[i], c) && OutcomeExplained(states[i], c);
  }

  lemma ExtendRun(states: seq<State>, steps: seq<Step>, step: Step)
    requires IsRun(states, steps) && Linked(states[|steps|]) && Enabled(states[|steps|], step)
    ensures IsRun(states + [Apply(states[|steps|], step)], steps + [step])
  {
  }

  /** Two calls registered under one id. */
  function Reused(id: Id, phase: Phase): State {
    INITIAL.(calls := [Call(id, 0, phase, SenderDropped), Call(id, 0, Registered, Empty)], pending := map[id := 1])
  }

  lemma RegisterTwice(id: Id) returns (states: seq<State>, steps: seq<Step>)
    ensures IsRun(states, steps) && states[|steps|] == Reused(id, Registered)
  {
    var one := INITIAL.(calls := [Call(id, 0, Registered, Empty)], pending := map[id := 0]);
    assert IsRun([INITIAL], []);
    assert Apply(INITIAL, Register(id)) == one;
    ExtendRun([INITIAL], [], Register(id));
    states, steps := [INITIAL] + [one], [] + [Register(id)];
    assert Apply(one, Register(id)) == Reused(id, Registered);
    ExtendRun(states, steps, Register(id));
    states, steps := states + [Reused(id, Registered)], steps + [Register(id)];
  }

  lemma DisplacedStep(id: Id)
    ensures var s, t := Reused(id, Registered), Reused(id, Sent);
      && Linked(s) && Enabled(s, CompleteSend(0)) && Apply(s, CompleteSend(0)) == t
      && Linked(t) && Enabled(t, Receive(0)) && Apply(t, Receive(0)) == Reused(id, Returned(Err(OneshotCancelled)))
  {
  }

  /** Two calls under one id before any reply: the first is cancelled. */
  lemma ReusedIdCancels(id: Id) returns (states: seq<State>, steps: seq<Step>)
    ensures IsRun(states, steps) && |states[|steps|].calls| == 2
    ensures states[|steps|].calls[0].id == id && states[|steps|].calls[0].phase == Returned(Err(OneshotCancelled))
  {
    states, steps := RegisterTwice(id);
    DisplacedStep(id);
    ExtendRun(states, steps, CompleteSend(0));
    states, steps := states + [Reused(id, Sent)], steps + [CompleteSend(0)];
    ExtendRun(states, steps, Receive(0));
    states, steps := states + [Reused(id, Returned(Err(OneshotCancelled)))], steps + [Receive(0)];
  }

  lemma NeverCancelledWithUniqueIds(states: seq<State>, steps: seq<Step>, i: nat, c: nat)
    requires IsRun(states, steps) && i < |states| && c < |states[i].calls|
    requires UniqueIds(states[i])
    ensures states[i].calls[c].phase != Returned(Err(OneshotCancelled))
    ensures !states[i].calls[c].channel.SenderDropped?
  {
    CancelledIffDisplaced(states, steps, i, c);
    RunKeepsInv(states, steps, i);
    assert ChannelExplained(states[i], c);
  }

  lemma StepKeepsOutcome(s: State, step: Step, c: nat)
    requires Linked(s) && Enabled(s, step) && c < |s.calls|
    ensures var t := Apply(s, step);
      && c < |t.calls| && t.calls[c].id == s.calls[c].id && s.replies <= t.replies
      && (s.calls[c].phase.Returned? ==> t.calls[c].phase == s.calls[c].phase)
  {
  }

  /** What a call returned never changes, nor do its id and place in the history. */
  lemma {:induction false} OutcomeIsFinal(states: seq<State>, steps: seq<Step>, i: nat, j: nat, c: nat)
    requires IsRun(states, steps) && i <= j < |states| && c < |states[i].calls|
    ensures c < |states[j].calls| && states[j].calls[c].id == states[i].calls[c].id
    ensures states[i].calls[c].phase.Returned? ==> states[j].calls[c].phase == states[i].calls[c].phase
    ensures states[i].replies <= states[j].replies
    decreases j
  {
    if i < j {
      OutcomeIsFinal(states, steps, i, j - 1, c);
      StepKeepsOutcome(states[j - 1], steps[j - 1], c);
    }
  }

  /** The step is among the first `n` of the run. */
  ghost predicate Happened(steps: seq<Step>, n: nat, step: Step)
    requires n <= |steps|
  {
    exists i :: 0 <= i < n && steps[i] == step
  }

  lemma StepReturns(s: State, step: Step, c: nat)
    requires Linked(s) && Enabled(s, step) && c < |Apply(s, step).calls|
    ensures var phase := Apply(s, step).calls[c].phase;
      phase.Returned? && !(c < |s.calls| && s.calls[c].phase == phase) ==>
        || (step == TimeOut(c) && phase.outcome == Err(Timeout))
        || (step.FailSend? && step == FailSend(c, step.error) && phase.outcome == Err(step.error))
        || (step == Receive(c) && (phase.outcome.Ok? || phase.outcome == Err(OneshotCancelled)))
  {
  }

  lemma StepMakesReturn(s: State, step: Step, c: nat)
    requires Linked(s) && Enabled(s, step)
    requires step == TimeOut(c) || step == Receive(c) || (step.FailSend? && step.call == c)
    ensures c < |s.calls| && c < |Apply(s, step).calls|
    ensures var phase := Apply(s, step).calls[c].phase;
      && phase.Returned?
      && (step.TimeOut? ==> phase.outcome == Err(Timeout))
      && (step.FailSend? ==> phase.outcome == Err(step.error) && (step.error.Json? || step.error.WebSocket?))
      && (step.Receive? ==> phase.outcome.Ok? || phase.outcome == Err(OneshotCancelled))
  {
  }

  /** The step that explains what a call returned. */
  lemma {:induction false} FindCause(states: seq<State>, steps: seq<Step>, j: nat, c: nat) returns (i: nat)
    requires IsRun(states, steps) && j < |states| && c < |states[j].calls| && states[j].calls[c].phase.Returned?
    ensures i < j
    ensures var outcome := states[j].calls[c].phase.outcome;
      || (steps[i] == TimeOut(c) && outcome == Err(Timeout))
      || (steps[i].FailSend? && steps[i] == FailSend(c, steps[i].error) && outcome == Err(steps[i].error))
      || (steps[i] == Receive(c) && (outcome.Ok? || outcome == Err(OneshotCancelled)))
    decreases j
  {
    assert j > 0;
    var s := states[j - 1];
    StepReturns(s, steps[j - 1], c);
    if c < |s.calls| && s.calls[c].phase == states[j].calls[c].phase {
      i := FindCause(states, steps, j - 1, c);
    } else {
      i := j - 1;
    }
  }

  lemma CauseStays(states: seq<State>, steps: seq<Step>, i: nat, j: nat, c: nat)
    requires IsRun(states, steps) && i < j < |states|
    requires steps[i] == TimeOut(c) || steps[i] == Receive(c) || (steps[i].FailSend? && steps[i].call == c)
    ensures c < |states[j].calls|
    ensures var phase := states[j].calls[c].phase;
      && phase.Returned?
      && (steps[i].TimeOut? ==> phase.outcome == Err(Timeout))
      && (steps[i].FailSend? ==> phase.outcome == Err(steps[i].error))
      && (steps[i].Receive? ==> phase.outcome.Ok? || phase.outcome == Err(OneshotCancelled))
  {
    StepMakesReturn(states[i], steps[i], c);
    OutcomeIsFinal(states, steps, i + 1, j, c);
  }

  /** Which error a call returned tells exactly what happened to it: the deadline passed, the send failed in this way,
      or the wait was answered. */
  lemma OutcomeHasItsStep(states: seq<State>, steps: seq<Step>, j: nat, c: nat)
    requires IsRun(states, steps) && j < |states| && c < |states[j].calls|
    ensures var phase := states[j].calls[c].phase;
      && (phase == Returned(Err(Timeout)) <==> Happened(steps, j, TimeOut(c)))
      && (phase == Returned(Err(Json)) <==> Happened(steps, j, FailSend(c, Json)))
      && (phase == Returned(Err(WebSocket)) <==> Happened(steps, j, FailSend(c, WebSocket)))
      && (phase.Returned? && (phase.outcome.Ok? || phase.outcome == Err(OneshotCancelled)) <==>
            Happened(steps, j, Receive(c)))
  {
    if states[j].calls[c].phase.Returned? {
      var i := FindCause(states, steps, j, c);
      assert Happened(steps, j, steps[i]);
    }
    forall i | 0 <= i < j
      && (steps[i] == TimeOut(c) || steps[i] == Receive(c) || (steps[i].FailSend? && steps[i].call == c))
      ensures var phase := states[j].calls[c].phase;
        && phase.Returned?
        && (steps[i].TimeOut? ==> phase.outcome == Err(Timeout))
        && (steps[i].FailSend? ==> phase.outcome == Err(steps[i].error))
        && (steps[i].Receive? ==> phase.outcome.Ok? || phase.outcome == Err(OneshotCancelled))
    {
      CauseStays(states, steps, i, j, c);
    }
  }

  /** Whether the command of a call went out. */
  ghost predicate SentTells(phase: Phase, sent: bool) {
    match phase
    case Registered => !sent
    case Sent => sent
    case Returned(Ok(_)) => sent
    case Returned(Err(e)) => sent <==> e.Timeout? || e.OneshotCancelled?
  }

  lemma StepKeepsSent(s: State, step: Step, c: nat, sent: bool)
    requires Linked(s) && Enabled(s, step) && c < |Apply(s, step).calls|
    requires if c < |s.calls| then SentTells(s.calls[c].phase, sent) else !sent
    ensures SentTells(Apply(s, step).calls[c].phase, sent || step == CompleteSend(c))
  {
  }

  lemma HappenedOneMore(steps: seq<Step>, n: nat, step: Step)
    requires n < |steps|
    ensures Happened(steps, n + 1, step) <==> Happened(steps, n, step) || steps[n] == step
  {
    if Happened(steps, n, step) {
      var i :| 0 <= i < n && steps[i] == step;
      assert steps[i] == step;
    }
  }

  lemma {:induction false} PhaseTellsSent(states: seq<State>, steps: seq<Step>, j: nat, c: nat)
    requires IsRun(states, steps) && j < |states|
    ensures if c < |states[j].calls| then SentTells(states[j].calls[c].phase, Happened(steps, j, CompleteSend(c)))
            else !Happened(steps, j, CompleteSend(c))
    decreases j
  {
    if j > 0 {
      PhaseTellsSent(states, steps, j - 1, c);
      var s, before := states[j - 1], Happened(steps, j - 1, CompleteSend(c));
      HappenedOneMore(steps, j - 1, CompleteSend(c));
      if c < |states[j].calls| {
        StepKeepsSent(s, steps[j - 1], c, before);
      }
    }
  }

  /** A call is answered or given up only after its command went out, and given up only while it is outstanding; a send
      fails only before that, by serialisation or by the socket. */
  lemma StepsComeInOrder(states: seq<State>, steps: seq<Step>, i: nat)
    requires IsRun(states, steps) && i < |steps|
    ensures var s, step := states[i], steps[i];
      && (step.TimeOut? ==>
            Happened(steps, i, CompleteSend(step.call)) && step.call < |s.calls| && Outstanding(s, step.call))
      && (step.Receive? ==>
            Happened(steps, i, CompleteSend(step.call)) && step.call < |s.calls| && !Outstanding(s, step.call))
      && (step.FailSend? ==>
            !Happened(steps, i, CompleteSend(step.call)) && (step.error.Json? || step.error.WebSocket?))
      && (step.CompleteSend? ==> !Happened(steps, i, step))
  {
    var s, step := states[i], steps[i];
    RunKeepsInv(states, steps, i);
    if step.TimeOut? || step.Receive? || step.FailSend? || step.CompleteSend? {
      PhaseTellsSent(states, steps, i, step.call);
      assert ChannelExplained(s, step.call);
      if step.Receive? {
        AnsweredIsNotOutstanding(s, step.call);
      }
    }
  }

  lemma AnsweredIsNotOutstanding(s: State, c: nat)
    requires Inv(s) && c < |s.calls| && !s.calls[c].channel.Empty?
    ensures !Outstanding(s, c)
  {
    assert ChannelExplained(s, c);
    if s.calls[c].channel.Holds? {
      assert s.replies[s.calls[c].channel.arrival].id == s.calls[c].id;
    }
  }

  /** The dispatcher itself: each method is the body of one step, executed under the lock it takes. */
  class Dispatcher {
    var calls: seq<Call>
    var pending: map<Id, nat>
    var replies: seq<Reply>
    var events: seq<nat>
    var reading: bool

    ghost function View(): State
      reads this
    {
      State(calls, pending, replies, events, reading)
    }

    constructor ()
      ensures View() == INITIAL && Inv(View())
    {
      calls, pending, replies, events, reading := [], map[], [], [], true;
    }

    /** Make the channel and insert its sender. */
    method BeginCall(id: Id) returns (c: nat)
      requires Inv(View())
      modifies this
      ensures Inv(View()) && View() == Apply(old(View()), Register(id))
      ensures c < |calls| && calls[c] == Call(id, |replies|, Registered, Empty) && pending[id] == c
    {
      RegisterKeepsInv(View(), id);
      if id in pending {
        var displaced := pending[id];
        calls := calls[displaced := calls[displaced].(channel := SenderDropped)];
      }
      c := |calls|;
      calls := calls + [Call(id, |replies|, Registered, Empty)];
      pending := pending[id := c];
    }

    /** Serialise and send; an error returns at once and leaves the map as it is. */
    method SendCommand(c: nat, failure: Option<ClientError>)
      requires Inv(View()) && c < |calls| && calls[c].phase.Registered?
      requires failure.Some? ==> failure.value.Json? || failure.value.WebSocket?
      modifies this`calls
      ensures Inv(View())
      ensures failure.Some? ==> View() == Apply(old(View()), FailSend(c, failure.value))
      ensures failure.None? ==> View() == Apply(old(View()), CompleteSend(c))
      ensures c < |calls| && calls[c].phase == if failure.Some? then Returned(Err(failure.value)) else Sent
    {
      ghost var before := View();
      var phase := if failure.Some? then Returned(Err(failure.value)) else Sent;
      SetPhaseKeepsInv(before, c, phase);
      calls := calls[c := calls[c].(phase := phase)];
    }

    /** The receiver is polled before the deadline is looked at. */
    method AwaitReply(c: nat) returns (outcome: Result<Reply, ClientError>)
      requires Inv(View()) && c < |calls| && calls[c].phase.Sent?
      modifies this`calls
      ensures Inv(View()) && c < |calls| && calls[c].phase == Returned(outcome)
      ensures old(calls[c].channel.Empty?) ==> View() == Apply(old(View()), TimeOut(c))
      ensures !old(calls[c].channel.Empty?) ==> View() == Apply(old(View()), Receive(c))
      ensures old(calls[c].channel.Empty?) <==> outcome == Err(Timeout)
      ensures old(calls[c].channel.SenderDropped?) <==> outcome == Err(OneshotCancelled)
      ensures outcome.Ok? ==> outcome.value.id == calls[c].id
    {
      ghost var before := View();
      assert ChannelExplained(before, c);
      if calls[c].channel.Empty? {
        outcome := Err(Timeout);
      } else if calls[c].channel.Holds? {
        outcome := Ok(replies[calls[c].channel.arrival]);
      } else {
        outcome := Err(OneshotCancelled);
      }
      SetPhaseKeepsInv(before, c, Returned(outcome));
      calls := calls[c := calls[c].(phase := Returned(outcome))];
    }

    /** Remove the pending entry of the reply's id, if any, and send into its channel. */
    method OnReply(r: Reply)
      requires Inv(View())
      modifies this`calls, this`pending, this`replies
      ensures Inv(View()) && View() == DeliverReply(old(View()), r)
    {
      DeliverKeepsInv(View(), r);
      if r.id in pending {
        var c := pending[r.id];
        pending := pending - {r.id};
        if !calls[c].phase.Returned? {
          calls := calls[c := calls[c].(channel := Holds(|replies|))];
        }
      }
      replies := replies + [r];
    }

    /** Read until the stream ends, fails or closes. */
    method ReaderTask(stream: seq<StreamItem>)
      requires Inv(View()) && reading
      modifies this
      ensures Inv(View()) && View() == ReadAll(old(View()), stream)
    {
      var i := 0;
      while i < |stream| && reading
        invariant 0 <= i <= |stream|
        invariant Inv(View())
        invariant ReadAll(View(), stream[i..]) == ReadAll(old(View()), stream)
      {
        var item := stream[i];
        StepKeepsInv(View(), Read(item));
        ghost var before := View();
        match item {
          case Text(Some(ReplyFrame(r))) => OnReply(r);
          case Text(Some(EventFrame(e))) => events := events + [e];
          case Text(None) =>
          case NonText =>
          case EndOfStream => reading := false;
          case Close => reading := false;
          case ReadError => reading := false;
        }
        assert stream[i..][0] == item && stream[i..][1..] == stream[i + 1..];
        assert View() == ReadItem(before, item);
        i := i + 1;
      }
    }
  }

  /** The reader's effect on a whole stream: nothing after the first stop is looked at. */
  ghost function ReadAll(s: State, stream: seq<StreamItem>): State
    requires Inv(s)
    decreases |stream|
  {
    if stream == [] || !s.reading then s
    else
      StepKeepsInv(s, Read(stream[0]));
      ReadAll(ReadItem(s, stream[0]), stream[1..])
  }

  predicate Stops(item: StreamItem) {
    item.EndOfStream? || item.Close? || item.ReadError?
  }

  function RepliesIn(stream: seq<StreamItem>): seq<Reply> {
    if stream == [] then []
    else
      var item := stream[0];
      (if item.Text? && item.frame.Some? && item.frame.value.ReplyFrame? then [item.frame.value.reply] else [])
        + RepliesIn(stream[1..])
  }

  function EventsIn(stream: seq<StreamItem>): seq<nat> {
    if stream == [] then []
    else
      var item := stream[0];
      (if item.Text? && item.frame.Some? && item.frame.value.EventFrame? then [item.frame.value.event] else [])
        + EventsIn(stream[1..])
  }

  lemma {:induction false} ReadItemTakes(s: State, item: StreamItem)
    requires Inv(s) && !Stops(item)
    ensures var t := ReadItem(s, item);
      t.reading == s.reading && t.replies == s.replies + RepliesIn([item]) && t.events == s.events + EventsIn([item])
  {
    assert [item][1..] == [];
    assert RepliesIn([]) == [] && EventsIn([]) == [];
  }

  lemma {:induction false} TakenFirst(stream: seq<StreamItem>)
    requires stream != []
    ensures RepliesIn(stream) == RepliesIn([stream[0]]) + RepliesIn(stream[1..])
    ensures EventsIn(stream) == EventsIn([stream[0]]) + EventsIn(stream[1..])
  {
    assert [stream[0]][1..] == [];
    assert RepliesIn([]) == [] && EventsIn([]) == [];
  }

  /** Up to the first stop every reply and every event is taken, in order; after it the reader takes nothing. */
  lemma {:induction false} ReaderTakesEverythingBeforeStop(s: State, before: seq<StreamItem>, stop: StreamItem,
                                                           after: seq<StreamItem>)
    requires Inv(s) && s.reading && Stops(stop)
    requires forall i :: 0 <= i < |before| ==> !Stops(before[i])
    ensures var t := ReadAll(s, before + [stop] + after);
      !t.reading && t.replies == s.replies + RepliesIn(before) && t.events == s.events + EventsIn(before)
    decreases |before|
  {
    var stream := before + [stop] + after;
    StepKeepsInv(s, Read(stream[0]));
    var next := ReadItem(s, stream[0]);
    assert ReadAll(s, stream) == ReadAll(next, stream[1..]);
    if before == [] {
      assert stream[0] == stop;
    } else {
      assert stream[0] == before[0] && stream[1..] == before[1..] + [stop] + after;
      ReadItemTakes(s, before[0]);
      ReaderTakesEverythingBeforeStop(next, before[1..], stop, after);
      TakenFirst(before);
    }
  }
}
