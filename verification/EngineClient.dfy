/** The JSON-RPC client (`copilot/engine_client.py`): concurrent calls paired with responses by
    request id. Every step below is one stretch of the event loop between two awaits; what the
    engine sends, and when sends, timeouts and cancellations happen, is up to the environment. */
module EngineClient {
  import opened Wrappers

  type Value = int

  /** The `id` of a response frame as JSON can carry it. */
  datatype RawId = IntId(n: int) | BoolId(b: bool) | StrId(s: string) | OtherId

  /** The `error` of a response frame: missing, an error object, or something present that is none,
      such as null. */
  datatype ErrorPart = NoError | ErrorObject(error: Value) | NotAnObject

  /** A JSON null counts as a present `result`. */
  datatype Frame = Frame(id: RawId, result: Option<Value>, error: ErrorPart)

  datatype Reply = Result(value: Value) | EngineError(error: Value)

  datatype Outcome =
    | Replied(reply: Reply)
    | TimedOut
    | Cancelled
    | ConnectionClosed
    | SendFailed
    | NotConnected

  datatype Future = Unset | Done(outcome: Outcome)

  datatype Pc = AwaitingAuth | Sending | Awaiting | Finished(outcome: Outcome)

  /** One `call()` coroutine: its request id, how often the client had been closed when it was
      made, its future, and the interruption it has to raise when it next runs. */
  datatype Call = Call(pc: Pc, id: nat, epoch: nat, future: Future, interrupt: Option<Outcome>)

  /** `_pending` maps request ids to calls. `hello` counts handshakes waiting for an answer;
      `reading` says that the reader loop is running. */
  datatype Client = Client(
    pending: map<nat, nat>,
    nextId: nat,
    connected: bool,
    authed: bool,
    reading: bool,
    hello: nat,
    epoch: nat,
    calls: seq<Call>)

  const START := Client(map[], 1, false, false, false, 0, 0, [])

  datatype Step =
    | HelloSent
    | HelloAnswered(ok: bool)
    | Dropped
    | ReaderStopped             // the socket closed, or a frame that is no JSON object
    | CallMade
    | SendReturned(call: nat)
    | SendRaised(call: nat)
    | Delivered(frame: Frame)
    | Expired(call: nat)
    | CallerCancelled(call: nat)
    | Resumed(call: nat)
    | Closed

  // ---------------------------------------------------------------- the steps

  predicate InFlight(c: Call) { c.pc == Sending || c.pc == Awaiting }

  /** The dict key a raw id looks up: Python's `True` and `False` equal 1 and 0, and no string
      key is ever in the dict. */
  function Lookup(raw: RawId): Option<int> {
    match raw
    case IntId(n) => Some(n)
    case BoolId(b) => Some(if b then 1 else 0)
    case StrId(_) => None
    case OtherId => None
  }

  /** What a frame answers; an error wins over a result, with neither part it is no response. */
  function ReplyOf(frame: Frame): Option<Reply> {
    match frame.error
    case ErrorObject(e) => Some(EngineError(e))
    case NotAnObject => None
    case NoError => if frame.result.Some? then Some(Result(frame.result.value)) else None
  }

  /** The call a frame's id names, if it is in the dict. */
  function Named(m: Client, frame: Frame): Option<nat> {
    var key := Lookup(frame.id);
    if key.Some? && key.value in m.pending && m.pending[key.value] < |m.calls| then Some(m.pending[key.value]) else None
  }

  function Resolve(c: Call, o: Outcome): Call {
    if c.future == Unset then c.(future := Done(o)) else c
  }

  function WithCall(m: Client, i: nat, c: Call): Client
    requires i < |m.calls|
  {
    m.(calls := m.calls[i := c])
  }

  /** The `finally` of `call`: whatever happened, the id leaves the dict. */
  function Finish(m: Client, i: nat, o: Outcome): Client
    requires i < |m.calls|
  {
    WithCall(m, i, m.calls[i].(pc := Finished(o))).(pending := m.pending - {m.calls[i].id})
  }

  function MakeCall(m: Client): Client {
    if !m.connected then m.(calls := m.calls + [Call(Finished(NotConnected), 0, m.epoch, Unset, None)])
    else if !m.authed then m.(calls := m.calls + [Call(AwaitingAuth, 0, m.epoch, Unset, None)])
    else
      m.(nextId := m.nextId + 1,
         pending := m.pending[m.nextId := |m.calls|],
         calls := m.calls + [Call(Sending, m.nextId, m.epoch, Unset, None)])
  }

  /** `_handle_response` under the running reader loop. An error that is no object raises when it
      reaches a waiting call, and that ends the loop. */
  function HandleResponse(m: Client, frame: Frame): Client {
    var i, reply := Named(m, frame), ReplyOf(frame);
    if !m.reading || i.None? || m.calls[i.value].future != Unset then m
    else if frame.error.NotAnObject? then m.(reading := false)
    else if reply.Some? then WithCall(m, i.value, Resolve(m.calls[i.value], Replied(reply.value)))
    else m
  }

  function CloseCalls(calls: seq<Call>, pending: map<nat, nat>): seq<Call> {
    seq(|calls|, i requires 0 <= i < |calls| =>
      if calls[i].id in pending && pending[calls[i].id] == i then Resolve(calls[i], ConnectionClosed) else calls[i])
  }

  /** A step that cannot happen in a state leaves it alone. */
  function Next(m: Client, s: Step): Client {
    match s
    case HelloSent => m.(nextId := m.nextId + 1, hello := m.hello + 1)
    case HelloAnswered(ok) =>
      if m.hello == 0 then m
      else if ok then m.(hello := m.hello - 1, connected := true, authed := true, reading := true)
      else m.(hello := m.hello - 1)
    case Dropped => m.(connected := false, authed := false, reading := false)
    case ReaderStopped => m.(reading := false)
    case CallMade => MakeCall(m)
    case SendReturned(i) =>
      if i < |m.calls| && m.calls[i].pc == Sending && m.calls[i].interrupt.None?
      then WithCall(m, i, m.calls[i].(pc := Awaiting)) else m
    case SendRaised(i) => if i < |m.calls| && m.calls[i].pc == Sending then Finish(m, i, SendFailed) else m
    case Delivered(frame) => HandleResponse(m, frame)
    case Expired(i) =>
      if i < |m.calls| && m.calls[i].pc == Awaiting && m.calls[i].interrupt.None?
      then WithCall(m, i, Resolve(m.calls[i].(interrupt := Some(TimedOut)), TimedOut)) else m
    case CallerCancelled(i) =>
      if i < |m.calls| && InFlight(m.calls[i]) && m.calls[i].interrupt.None?
      then WithCall(m, i, Resolve(m.calls[i].(interrupt := Some(Cancelled)), Cancelled)) else m
    case Resumed(i) =>
      if i < |m.calls| && InFlight(m.calls[i]) && m.calls[i].interrupt.Some?
      then Finish(m, i, m.calls[i].interrupt.value)
      else if i < |m.calls| && m.calls[i].pc == Awaiting && m.calls[i].future.Done?
      then Finish(m, i, m.calls[i].future.outcome) else m
    case Closed =>
      m.(connected := false, authed := false, reading := false, epoch := m.epoch + 1,
         calls := CloseCalls(m.calls, m.pending), pending := map[])
  }

  function Run(steps: seq<Step>): Client {
    if steps == [] then START else Next(Run(steps[..|steps| - 1]), steps[|steps| - 1])
  }

  // ---------------------------------------------------------------- invariant

  /** A call that has sent a request: it once took an id of its own. */
  predicate HasId(c: Call) { c.id != 0 }

  /** The dict holds exactly the calls in flight since the last close, each under its own id. */
  ghost predicate PendingExact(m: Client) {
    && (forall id :: id in m.pending ==>
          m.pending[id] < |m.calls| && m.calls[m.pending[id]].id == id
          && InFlight(m.calls[m.pending[id]]) && m.calls[m.pending[id]].epoch == m.epoch)
    && (forall i :: 0 <= i < |m.calls| && InFlight(m.calls[i]) && m.calls[i].epoch == m.epoch ==>
          m.calls[i].id in m.pending && m.pending[m.calls[i].id] == i)
  }

  /** Ids are handed out once, rising, and never the handshake's first id. */
  ghost predicate IdsFresh(m: Client) {
    && m.nextId >= 1 + (if m.hello > 0 || m.connected || m.pending != map[] then 1 else 0)
    && (forall i :: 0 <= i < |m.calls| && HasId(m.calls[i]) ==> 2 <= m.calls[i].id < m.nextId)
    && (forall i, j :: 0 <= i < j < |m.calls| && HasId(m.calls[i]) && HasId(m.calls[j]) ==>
          m.calls[i].id < m.calls[j].id)
  }

  /** Nobody ever waits for the handshake: connection and authentication come and go together. */
  ghost predicate CallOk(m: Client, c: Call) {
    && c.pc != AwaitingAuth && c.epoch <= m.epoch && (InFlight(c) ==> HasId(c))
    && (c.interrupt.Some? ==> !c.interrupt.value.Replied?)
    && (InFlight(c) && c.epoch < m.epoch ==> c.future.Done?)
    && (c.pc.Finished? && c.pc.outcome.Replied? ==> HasId(c) && c.future == Done(c.pc.outcome))
  }

  ghost predicate Inv(m: Client) {
    && m.connected == m.authed
    && PendingExact(m) && IdsFresh(m)
    && forall i :: 0 <= i < |m.calls| ==> CallOk(m, m.calls[i])
  }

  lemma FinishKeepsInv(m: Client, i: nat, o: Outcome)
    requires Inv(m) && i < |m.calls| && InFlight(m.calls[i])
    requires o.Replied? ==> m.calls[i].future == Done(o)
    ensures Inv(Finish(m, i, o))
  {
  }

  /** Rewriting one call's future, interruption or program counter while it stays in flight. */
  lemma UpdateKeepsInv(m: Client, i: nat, c: Call)
    requires Inv(m) && i < |m.calls|
    requires c.id == m.calls[i].id && c.epoch == m.calls[i].epoch && InFlight(c) && InFlight(m.calls[i])
    requires m.calls[i].future.Done? ==> c.future.Done?
    requires c.interrupt.Some? ==> !c.interrupt.value.Replied?
    ensures Inv(WithCall(m, i, c))
  {
  }

  lemma MakeCallPending(m: Client)
    requires PendingExact(m) && IdsFresh(m) && m.connected == m.authed
    ensures PendingExact(MakeCall(m))
  {
  }

  lemma MakeCallIds(m: Client)
    requires IdsFresh(m)
    ensures IdsFresh(MakeCall(m))
  {
  }

  lemma {:induction false} MakeCallKeepsInv(m: Client)
    requires Inv(m)
    ensures Inv(MakeCall(m))
  {
    MakeCallPending(m);
    MakeCallIds(m);
    hide PendingExact;
    var m' := MakeCall(m);
    forall j | 0 <= j < |m.calls| ensures CallOk(m', m'.calls[j]) {
      assert CallOk(m, m.calls[j]);
    }
  }

  lemma CloseKeepsInv(m: Client)
    requires Inv(m)
    ensures Inv(Next(m, Closed))
  {
    var m' := Next(m, Closed);
    forall j | 0 <= j < |m'.calls| ensures CallOk(m', m'.calls[j]) {
      assert CallOk(m, m.calls[j]);
    }
  }

  lemma LinkKeepsInv(m: Client, s: Step)
    requires Inv(m) && (s.HelloSent? || s.HelloAnswered? || s.Dropped? || s.ReaderStopped?)
    ensures Inv(Next(m, s))
  {
    hide HandleResponse, MakeCall, CloseCalls, Finish, Resolve, WithCall;
  }

  lemma {:induction false} StepKeepsInv(m: Client, s: Step)
    requires Inv(m)
    ensures Inv(Next(m, s))
  {
    hide MakeCall, CloseCalls, Finish, WithCall, PendingExact, IdsFresh;
    match s
    case HelloSent => LinkKeepsInv(m, s);
    case HelloAnswered(_) => LinkKeepsInv(m, s);
    case Dropped => LinkKeepsInv(m, s);
    case ReaderStopped => LinkKeepsInv(m, s);
    case CallMade => MakeCallKeepsInv(m);
    case Closed => CloseKeepsInv(m);
    case SendRaised(i) =>
      if i < |m.calls| && m.calls[i].pc == Sending { FinishKeepsInv(m, i, SendFailed); }
    case Delivered(frame) => DeliverKeepsInv(m, frame);
    case SendReturned(i) =>
      if Next(m, s) != m { UpdateKeepsInv(m, i, m.calls[i].(pc := Awaiting)); }
    case Expired(i) =>
      if i < |m.calls| && m.calls[i].pc == Awaiting && m.calls[i].interrupt.None? {
        UpdateKeepsInv(m, i, Resolve(m.calls[i].(interrupt := Some(TimedOut)), TimedOut));
      }
    case CallerCancelled(i) =>
      if i < |m.calls| && InFlight(m.calls[i]) && m.calls[i].interrupt.None? {
        UpdateKeepsInv(m, i, Resolve(m.calls[i].(interrupt := Some(Cancelled)), Cancelled));
      }
    case Resumed(i) =>
      if i < |m.calls| && InFlight(m.calls[i]) {
        assert CallOk(m, m.calls[i]);
        if m.calls[i].interrupt.Some? { FinishKeepsInv(m, i, m.calls[i].interrupt.value); }
        else if m.calls[i].pc == Awaiting && m.calls[i].future.Done? {
          FinishKeepsInv(m, i, m.calls[i].future.outcome);
        }
      }
  }

  lemma DeliverKeepsInv(m: Client, frame: Frame)
    requires Inv(m)
    ensures Inv(HandleResponse(m, frame))
  {
    var m' := HandleResponse(m, frame);
    if m'.calls != m.calls {
      var i := Named(m, frame).value;
      assert CallOk(m, m.calls[i]);
      hide PendingExact, IdsFresh;
      UpdateKeepsInv(m, i, Resolve(m.calls[i], Replied(ReplyOf(frame).value)));
    } else {
      ReadingUnread(m, m');
    }
  }

  lemma ReadingUnread(m: Client, m': Client)
    requires Inv(m) && m' == m.(reading := m'.reading)
    ensures Inv(m')
  {
  }

  lemma {:induction false} RunKeepsInv(steps: seq<Step>)
    ensures Inv(Run(steps))
  {
    hide Inv, Next;
    if steps == [] {
      StartInv();
    } else {
      RunKeepsInv(steps[..|steps| - 1]);
      StepKeepsInv(Run(steps[..|steps| - 1]), steps[|steps| - 1]);
    }
  }

  lemma StartInv()
    ensures Inv(START)
  {
  }

  // ---------------------------------------------------------------- what callers can rely on

  /** No two calls ever get one request id, and none gets the handshake's first. */
  lemma {:induction false} IdsNeverReused(steps: seq<Step>, i: nat, j: nat)
    requires i < j < |Run(steps).calls| && Run(steps).calls[i].id != 0 && Run(steps).calls[j].id != 0
    ensures 2 <= Run(steps).calls[i].id < Run(steps).calls[j].id
  {
    hide Next;
    RunKeepsInv(steps);
  }

  /** The dict is exactly the in-flight calls made since the last close, and no call is ever
      parked waiting for the handshake. */
  lemma {:induction false} PendingIsInFlight(steps: seq<Step>, i: nat)
    requires i < |Run(steps).calls|
    ensures var m := Run(steps);
            var c := m.calls[i];
            && ((c.pc == Sending || c.pc == Awaiting) && c.epoch == m.epoch
                <==> c.id in m.pending && m.pending[c.id] == i)
            && (c.pc == Sending || c.pc == Awaiting ==> 2 <= c.id < m.nextId)
            && c.pc != AwaitingAuth
  {
    hide Next;
    RunKeepsInv(steps);
    assert CallOk(Run(steps), Run(steps).calls[i]);
  }

  predicate NoReconnect(steps: seq<Step>) {
    forall k :: 0 <= k < |steps| ==> steps[k] != HelloAnswered(true)
  }

  predicate ShutOff(m: Client) { m.pending == map[] && !m.connected }

  lemma StaysShutOff(m: Client, s: Step)
    requires Inv(m) && ShutOff(m) && s != HelloAnswered(true)
    ensures ShutOff(Next(m, s))
  {
  }

  /** After a close, and until some handshake succeeds again, the dict stays empty and the
      client unconnected. */
  lemma {:induction false} EmptyAfterClose(steps: seq<Step>, more: seq<Step>)
    requires NoReconnect(more)
    ensures Run(steps + [Closed] + more).pending == map[] && !Run(steps + [Closed] + more).connected
  {
    var all := steps + [Closed] + more;
    if more == [] {
      assert all == steps + [Closed];
      assert all[..|all| - 1] == steps;
    } else {
      hide Inv, Next;
      EmptyAfterClose(steps, more[..|more| - 1]);
      assert all[..|all| - 1] == steps + [Closed] + more[..|more| - 1];
      RunKeepsInv(all[..|all| - 1]);
      StaysShutOff(Run(all[..|all| - 1]), all[|all| - 1]);
    }
  }

  /** A caller the close found in flight has its outcome waiting: none is left hanging. */
  lemma {:induction false} NobodyHangsAfterClose(steps: seq<Step>, i: nat)
    requires i < |Run(steps).calls| && (Run(steps).calls[i].pc == Sending || Run(steps).calls[i].pc == Awaiting)
    ensures Run(steps).calls[i].epoch < Run(steps).epoch ==> Run(steps).calls[i].future.Done?
  {
    hide Next;
    RunKeepsInv(steps);
    assert CallOk(Run(steps), Run(steps).calls[i]);
  }

  lemma FinishedStays(m: Client, s: Step, i: nat)
    requires Inv(m) && i < |m.calls| && m.calls[i].pc.Finished?
    ensures i < |Next(m, s).calls| && Next(m, s).calls[i] == m.calls[i]
  {
    hide IdsFresh, CallOk;
  }

  /** A caller completes at most once: whatever happens later, its call stays as it ended. */
  lemma {:induction false} CompletesOnce(steps: seq<Step>, more: seq<Step>, i: nat)
    requires i < |Run(steps).calls| && Run(steps).calls[i].pc.Finished?
    ensures i < |Run(steps + more).calls| && Run(steps + more).calls[i] == Run(steps).calls[i]
  {
    hide Next, Inv;
    if more == [] {
      assert steps + more == steps;
    } else {
      var all, front := steps + more, more[..|more| - 1];
      CompletesOnce(steps, front, i);
      assert all[..|all| - 1] == steps + front;
      RunKeepsInv(steps + front);
      FinishedStays(Run(steps + front), all[|all| - 1], i);
    }
  }

  /** Every integer finds its own entry; only one above 1 is safe from Python's `True == 1`. */
  lemma AliasFree(key: int)
    ensures Lookup(IntId(key)) == Some(key) && forall s :: Lookup(StrId(s)) == None
    ensures Lookup(BoolId(false)) == Some(0) && Lookup(BoolId(true)) == Some(1)
    ensures (forall raw :: Lookup(raw) == Some(key) ==> raw == IntId(key)) <==> key != 0 && key != 1
  {
    assert Lookup(BoolId(true)) == Some(1) && Lookup(BoolId(false)) == Some(0);
  }

  /** A frame with the id whose own fields hold the reply: a result without an error, or an error
      object whatever the result. */
  predicate Answers(s: Step, id: int, reply: Reply) {
    && s.Delivered? && s.frame.id == IntId(id)
    && match reply
       case Result(v) => s.frame.error == NoError && s.frame.result == Some(v)
       case EngineError(e) => s.frame.error == ErrorObject(e)
  }

  lemma DeliverySets(m: Client, frame: Frame, i: nat, reply: Reply)
    requires PendingExact(m) && IdsFresh(m) && i < |HandleResponse(m, frame).calls|
    requires HandleResponse(m, frame).calls[i].future == Done(Replied(reply))
    requires forall j :: 0 <= j < |m.calls| ==> InFlight(m.calls[j]) ==> HasId(m.calls[j])
    ensures i < |m.calls| && HandleResponse(m, frame).calls[i].id == m.calls[i].id
    ensures m.calls[i].future == Done(Replied(reply)) || Answers(Delivered(frame), m.calls[i].id, reply)
  {
  }

  lemma OtherStepSets(m: Client, s: Step, i: nat, reply: Reply)
    requires !s.Delivered? && i < |Next(m, s).calls| && Next(m, s).calls[i].future == Done(Replied(reply))
    requires forall j :: 0 <= j < |m.calls| ==> CallOk(m, m.calls[j])
    ensures i < |m.calls| && Next(m, s).calls[i].id == m.calls[i].id && m.calls[i].future == Done(Replied(reply))
  {
  }

  lemma FutureSetBy(m: Client, s: Step, i: nat, reply: Reply)
    requires Inv(m) && i < |Next(m, s).calls| && Next(m, s).calls[i].future == Done(Replied(reply))
    ensures i < |m.calls| && Next(m, s).calls[i].id == m.calls[i].id
    ensures m.calls[i].future == Done(Replied(reply)) || Answers(s, m.calls[i].id, reply)
  {
    hide PendingExact, IdsFresh;
    assert forall j :: 0 <= j < |m.calls| ==> CallOk(m, m.calls[j]);
    if s.Delivered? {
      hide HandleResponse;
      DeliverySets(m, s.frame, i, reply);
    } else {
      hide HandleResponse;
      OtherStepSets(m, s, i, reply);
    }
  }

  /** A reply a caller gets was in a response that carried the caller's own request id, sent
      after the call was made. */
  lemma {:induction false} RepliedByOwnResponse(steps: seq<Step>, i: nat, reply: Reply) returns (k: nat)
    requires i < |Run(steps).calls| && Run(steps).calls[i].future == Done(Replied(reply))
    ensures k < |steps| && steps[k].Delivered? && steps[k].frame.id == IntId(Run(steps).calls[i].id)
    ensures reply.Result? ==> steps[k].frame.error == NoError && steps[k].frame.result == Some(reply.value)
    ensures reply.EngineError? ==> steps[k].frame.error == ErrorObject(reply.error)
    ensures i < |Run(steps[..k]).calls|
  {
    hide Next, Inv;
    k := |steps| - 1;
    var front := steps[..k];
    RunKeepsInv(front);
    FutureSetBy(Run(front), steps[k], i, reply);
    if !Answers(steps[k], Run(front).calls[i].id, reply) {
      k := RepliedByOwnResponse(front, i, reply);
      assert front[..k] == steps[..k];
    }
  }

  /** So does a reply a caller returns with. */
  lemma {:induction false} ReturnedByOwnResponse(steps: seq<Step>, i: nat, reply: Reply) returns (k: nat)
    requires i < |Run(steps).calls| && Run(steps).calls[i].pc == Finished(Replied(reply))
    ensures k < |steps| && steps[k].Delivered? && steps[k].frame.id == IntId(Run(steps).calls[i].id)
    ensures reply.Result? ==> steps[k].frame.error == NoError && steps[k].frame.result == Some(reply.value)
    ensures reply.EngineError? ==> steps[k].frame.error == ErrorObject(reply.error)
    ensures i < |Run(steps[..k]).calls|
  {
    hide Next;
    RunKeepsInv(steps);
    assert CallOk(Run(steps), Run(steps).calls[i]);
    k := RepliedByOwnResponse(steps, i, reply);
  }

  /** The response reaches a call that is still waiting. */
  ghost predicate Reaches(m: Client, frame: Frame, i: nat) {
    && m.reading && i < |m.calls| && frame.id == IntId(m.calls[i].id)
    && (m.calls[i].pc == Sending || m.calls[i].pc == Awaiting)
    && m.calls[i].epoch == m.epoch && m.calls[i].future == Unset
  }

  /** A response settles at most the one waiting call it names: an error object fails it, else a
      result is its value. */
  lemma {:induction false} ResponseSettlesOne(steps: seq<Step>, frame: Frame, i: nat)
    requires i < |Run(steps).calls|
    ensures var m := Run(steps);
            Next(m, Delivered(frame)).calls[i] ==
            if Reaches(m, frame, i) && frame.error.ErrorObject?
            then m.calls[i].(future := Done(Replied(EngineError(frame.error.error))))
            else if Reaches(m, frame, i) && frame.error == NoError && frame.result.Some?
            then m.calls[i].(future := Done(Replied(Result(frame.result.value))))
            else m.calls[i]
  {
    RunKeepsInv(steps);
    var m := Run(steps);
    assert CallOk(m, m.calls[i]);
    if Lookup(frame.id).Some? { AliasFree(Lookup(frame.id).value); }
  }

  /** Late, unknown and repeated responses change nothing at all. A response changes something
      else than a call exactly when its error is no object and it reaches a waiting call. */
  lemma {:induction false} OtherResponsesIgnored(steps: seq<Step>, frame: Frame)
    ensures var m := Run(steps);
            && ((forall i: nat :: !Reaches(m, frame, i)) ==> Next(m, Delivered(frame)) == m)
            && (Next(m, Delivered(frame)).reading != m.reading
                <==> frame.error.NotAnObject? && exists i: nat :: Reaches(m, frame, i))
  {
    RunKeepsInv(steps);
    var m := Run(steps);
    if i: nat :| Reaches(m, frame, i) { assert CallOk(m, m.calls[i]); }
    if Named(m, frame).Some? {
      assert CallOk(m, m.calls[Named(m, frame).value]);
      AliasFree(Lookup(frame.id).value);
      if m.reading && m.calls[Named(m, frame).value].future == Unset {
        assert Reaches(m, frame, Named(m, frame).value);
      }
    }
  }

  // ---------------------------------------------------------------- how a call ends

  /** An outcome the call has ended with, will raise, or holds in its future. */
  predicate HasOutcome(c: Call, o: Outcome) {
    c.pc == Finished(o) || c.interrupt == Some(o) || c.future == Done(o)
  }

  predicate Causes(m: Client, s: Step, i: nat, o: Outcome) {
    match o
    case Replied(_) => true
    case TimedOut => s == Expired(i)
    case Cancelled => s == CallerCancelled(i)
    case SendFailed => s == SendRaised(i)
    case ConnectionClosed => s == Closed
    case NotConnected => s == CallMade && !m.connected && i == |m.calls|
  }

  lemma CloseOutcome(m: Client, i: nat, o: Outcome)
    requires i < |m.calls| && HasOutcome(Next(m, Closed).calls[i], o)
    ensures HasOutcome(m.calls[i], o) || o == ConnectionClosed
  {
  }

  lemma MadeOutcome(m: Client, i: nat, o: Outcome)
    requires i < |MakeCall(m).calls| && HasOutcome(MakeCall(m).calls[i], o)
    ensures (i < |m.calls| && HasOutcome(m.calls[i], o)) || (o == NotConnected && !m.connected && i == |m.calls|)
  {
  }

  lemma DeliveredOutcome(m: Client, frame: Frame, i: nat, o: Outcome)
    requires i < |HandleResponse(m, frame).calls| && HasOutcome(HandleResponse(m, frame).calls[i], o)
    ensures i < |m.calls| && (HasOutcome(m.calls[i], o) || o.Replied?)
  {
  }

  lemma OutcomeFrom(m: Client, s: Step, i: nat, o: Outcome)
    requires i < |Next(m, s).calls| && HasOutcome(Next(m, s).calls[i], o)
    ensures (i < |m.calls| && HasOutcome(m.calls[i], o)) || Causes(m, s, i, o)
  {
    if s == Closed {
      CloseOutcome(m, i, o);
    } else if s.Delivered? {
      hide HandleResponse;
      DeliveredOutcome(m, s.frame, i, o);
    } else if s == CallMade {
      hide MakeCall;
      MadeOutcome(m, i, o);
    } else {
      hide HandleResponse, CloseCalls, MakeCall;
    }
  }

  /** Every failure of a call has its cause in the run: its own timeout, cancellation or failed
      send, a close, or that there was no connection when it was made. */
  lemma {:induction false} FailureHasCause(steps: seq<Step>, i: nat, o: Outcome) returns (k: nat)
    requires i < |Run(steps).calls| && HasOutcome(Run(steps).calls[i], o) && !o.Replied?
    ensures k < |steps|
    ensures o == TimedOut ==> steps[k] == Expired(i)
    ensures o == Cancelled ==> steps[k] == CallerCancelled(i)
    ensures o == SendFailed ==> steps[k] == SendRaised(i)
    ensures o == ConnectionClosed ==> steps[k] == Closed
    ensures o == NotConnected ==>
              steps[k] == CallMade && !Run(steps[..k]).connected && i == |Run(steps[..k]).calls|
  {
    hide Next, HasOutcome;
    k := |steps| - 1;
    var front := steps[..k];
    OutcomeFrom(Run(front), steps[k], i, o);
    if !Causes(Run(front), steps[k], i, o) {
      k := FailureHasCause(front, i, o);
      assert front[..k] == steps[..k];
    }
  }

  lemma RunThen(steps: seq<Step>, s: Step)
    ensures Run(steps + [s]) == Next(Run(steps), s)
  {
    var all := steps + [s];
    assert all[..|all| - 1] == steps;
  }

  lemma InterruptSets(m: Client, s: Step, o: Outcome, i: nat)
    requires i < |m.calls| && m.calls[i].pc == Awaiting && m.calls[i].interrupt == None
    requires (s == Expired(i) && o == TimedOut) || (s == CallerCancelled(i) && o == Cancelled)
    ensures var m' := Next(m, s);
            i < |m'.calls| && m'.calls[i].pc == Awaiting && m'.calls[i].interrupt == Some(o) && m'.calls[i].future.Done?
  {
  }

  lemma SetStays(m: Client, frame: Frame, i: nat)
    requires i < |m.calls| && m.calls[i].future.Done?
    ensures i < |Next(m, Delivered(frame)).calls| && Next(m, Delivered(frame)).calls[i] == m.calls[i]
  {
  }

  lemma ResumeRaises(m: Client, o: Outcome, i: nat)
    requires i < |m.calls| && m.calls[i].pc == Awaiting && m.calls[i].interrupt == Some(o)
    ensures var m' := Next(m, Resumed(i));
            i < |m'.calls| && m'.calls[i].pc == Finished(o) && m'.calls[i].id !in m'.pending
  {
  }

  /** A waiting call that expires or is cancelled raises exactly that, even when its response comes
      before it runs again, and its id leaves the dict. */
  lemma {:induction false} InterruptedRaises(steps: seq<Step>, s: Step, o: Outcome, frame: Frame, i: nat)
    requires i < |Run(steps).calls| && Run(steps).calls[i].pc == Awaiting && Run(steps).calls[i].interrupt == None
    requires (s == Expired(i) && o == TimedOut) || (s == CallerCancelled(i) && o == Cancelled)
    ensures var m := Run(steps + [s] + [Delivered(frame)] + [Resumed(i)]);
            i < |m.calls| && m.calls[i].pc == Finished(o) && m.calls[i].id !in m.pending
  {
    RunThen(steps, s);
    RunThen(steps + [s], Delivered(frame));
    RunThen(steps + [s] + [Delivered(frame)], Resumed(i));
    hide Run, Next;
    InterruptSets(Run(steps), s, o, i);
    SetStays(Run(steps + [s]), frame, i);
    ResumeRaises(Run(steps + [s] + [Delivered(frame)]), o, i);
  }

  /** A handshake that succeeds connects the client and starts its reader loop. */
  lemma HandshakeConnects(steps: seq<Step>)
    ensures var m := Run(steps + [HelloSent] + [HelloAnswered(true)]);
            m.connected && m.authed && m.reading && m.nextId == Run(steps).nextId + 1
  {
    RunThen(steps, HelloSent);
    RunThen(steps + [HelloSent], HelloAnswered(true));
    hide Run;
  }

  lemma CallSends(m: Client)
    requires m.connected && m.authed
    ensures var i, m' := |m.calls|, Next(Next(m, CallMade), SendReturned(|m.calls|));
            && m'.reading == m.reading && m'.epoch == m.epoch
            && i < |m'.calls| && m'.calls[i] == Call(Awaiting, m.nextId, m.epoch, Unset, None)
            && m.nextId in m'.pending && m'.pending[m.nextId] == i
  {
  }

  lemma AnswerReturns(m: Client, i: nat, id: nat, frame: Frame, reply: Reply)
    requires m.reading && i < |m.calls| && m.calls[i] == Call(Awaiting, id, m.epoch, Unset, None)
    requires id in m.pending && m.pending[id] == i && Answers(Delivered(frame), id, reply)
    ensures var m' := Next(Next(m, Delivered(frame)), Resumed(i));
            i < |m'.calls| && m'.calls[i].pc == Finished(Replied(reply)) && id !in m'.pending
  {
  }

  /** On a connected client that is reading, a call whose request goes out and is answered comes back
      with that answer: the result, or the error object as an exception. */
  lemma {:induction false} AnsweredCallReturns(steps: seq<Step>, frame: Frame, reply: Reply)
    requires Run(steps).connected && Run(steps).reading && frame.id == IntId(Run(steps).nextId)
    requires match reply
             case Result(v) => frame.error == NoError && frame.result == Some(v)
             case EngineError(e) => frame.error == ErrorObject(e)
    ensures var i, id := |Run(steps).calls|, Run(steps).nextId;
            var m := Run(steps + [CallMade] + [SendReturned(i)] + [Delivered(frame)] + [Resumed(i)]);
            i < |m.calls| && m.calls[i].pc == Finished(Replied(reply)) && id !in m.pending
  {
    var m, i := Run(steps), |Run(steps).calls|;
    RunKeepsInv(steps);
    RunThen(steps, CallMade);
    RunThen(steps + [CallMade], SendReturned(i));
    RunThen(steps + [CallMade] + [SendReturned(i)], Delivered(frame));
    RunThen(steps + [CallMade] + [SendReturned(i)] + [Delivered(frame)], Resumed(i));
    CallSends(m);
    hide Run, Next, Inv;
    AnswerReturns(Next(Next(m, CallMade), SendReturned(i)), i, m.nextId, frame, reply);
  }

  predicate HasReply(c: Call) { c.future.Done? && c.future.outcome.Replied? }

  lemma DeafStep(m: Client, s: Step, i: nat)
    requires Inv(m) && !m.reading && s != HelloAnswered(true)
    ensures !Next(m, s).reading
    ensures i < |Next(m, s).calls| && HasReply(Next(m, s).calls[i]) ==> i < |m.calls| && HasReply(m.calls[i])
  {
    if i < |m.calls| { assert CallOk(m, m.calls[i]); }
  }

  /** Once the reader loop has ended no call gets a reply until a handshake succeeds again. */
  lemma {:induction false} DeafUntilReconnect(steps: seq<Step>, more: seq<Step>, i: nat)
    requires !Run(steps).reading && NoReconnect(more)
    requires i < |Run(steps + more).calls| && HasReply(Run(steps + more).calls[i])
    ensures i < |Run(steps).calls| && HasReply(Run(steps).calls[i])
  {
    StaysDeaf(steps, more);
    hide Next, Inv, HasReply;
    if more == [] {
      assert steps + more == steps;
    } else {
      var all, front := steps + more, more[..|more| - 1];
      assert all[..|all| - 1] == steps + front;
      StaysDeaf(steps, front);
      RunKeepsInv(steps + front);
      DeafStep(Run(steps + front), all[|all| - 1], i);
      DeafUntilReconnect(steps, front, i);
    }
  }

  lemma {:induction false} StaysDeaf(steps: seq<Step>, more: seq<Step>)
    requires !Run(steps).reading && NoReconnect(more)
    ensures !Run(steps + more).reading
  {
    hide Next, Inv;
    if more == [] {
      assert steps + more == steps;
    } else {
      var all, front := steps + more, more[..|more| - 1];
      assert all[..|all| - 1] == steps + front;
      StaysDeaf(steps, front);
      RunKeepsInv(steps + front);
      DeafStep(Run(steps + front), all[|all| - 1], 0);
    }
  }

  // ---------------------------------------------------------------- the object

  method AnyOf(ids: set<nat>) returns (id: nat)
    requires ids != {}
    ensures id in ids
  {
    id :| id in ids;
  }

  /** The client object: each method is one uninterrupted stretch of the coroutine it names. */
  class EngineClient {
    var pending: map<nat, nat>
    var nextId: nat
    var connected: bool
    var authed: bool
    var reading: bool
    var calls: seq<Call>
    ghost var hello: nat
    var epoch: nat  // bookkeeping only: how often the client was closed

    ghost function View(): Client
      reads this
    {
      Client(pending, nextId, connected, authed, reading, hello, epoch, calls)
    }

    constructor ()
      ensures View() == START
    {
      pending, nextId, connected, authed, reading, calls, hello, epoch := map[], 1, false, false, false, [], 0, 0;
    }

    method AllocId() returns (i: nat)
      modifies this`nextId
      ensures i == old(nextId) && nextId == i + 1
    {
      i := nextId;
      nextId := nextId + 1;
    }

    /** `call` up to its first suspension. */
    method BeginCall() returns (i: nat)
      modifies this
      ensures View() == Next(old(View()), CallMade) && i == |old(calls)| && i < |calls| && calls[..i] == old(calls)
      ensures !old(connected) ==> calls[i].pc == Finished(NotConnected) && pending == old(pending)
      ensures old(connected) && old(authed) ==>
                && calls[i] == Call(Sending, old(nextId), epoch, Unset, None) && nextId == old(nextId) + 1
                && pending == old(pending)[old(nextId) := i]
    {
      i := |calls|;
      if !connected {
        calls := calls + [Call(Finished(NotConnected), 0, epoch, Unset, None)];
      } else if !authed {
        calls := calls + [Call(AwaitingAuth, 0, epoch, Unset, None)];
      } else {
        var id := AllocId();
        pending := pending[id := i];
        calls := calls + [Call(Sending, id, epoch, Unset, None)];
      }
    }

    /** `_handle_response`; `raised` says that it raised into the reader loop, which then ends. */
    method Deliver(frame: Frame) returns (raised: bool)
      requires Inv(View()) && reading
      modifies this`calls, this`reading
      ensures View() == Next(old(View()), Delivered(frame))
      ensures raised <==> !reading
      ensures |calls| == |old(calls)|
      ensures forall i :: 0 <= i < |calls| ==>
                calls[i] ==
                if !Hit(old(calls)[i], i, frame, pending) then old(calls)[i]
                else if frame.error.ErrorObject?
                then old(calls)[i].(future := Done(Replied(EngineError(frame.error.error))))
                else if frame.error == NoError && frame.result.Some?
                then old(calls)[i].(future := Done(Replied(Result(frame.result.value))))
                else old(calls)[i]
    {
      raised := false;
      var key := Lookup(frame.id);
      if key.None? || key.value !in pending { return; }
      var i := pending[key.value];
      if calls[i].future.Done? { return; }
      match frame.error {
        case ErrorObject(e) => calls := calls[i := calls[i].(future := Done(Replied(EngineError(e))))];
        case NotAnObject => raised, reading := true, false;
        case NoError =>
          if frame.result.Some? {
            calls := calls[i := calls[i].(future := Done(Replied(Result(frame.result.value))))];
          }
      }
    }

    /** `call` running on after its wait: the `finally` drops the id, the outcome is raised or returned. */
    method Resume(i: nat) returns (o: Option<Outcome>)
      requires i < |calls|
      modifies this
      ensures View() == Next(old(View()), Resumed(i))
      ensures o == if old(calls)[i].pc != Sending && old(calls)[i].pc != Awaiting then None
                   else if old(calls)[i].interrupt.Some? then old(calls)[i].interrupt
                   else if old(calls)[i].pc == Awaiting && old(calls)[i].future.Done?
                   then Some(old(calls)[i].future.outcome) else None
      ensures o.Some? ==> calls == old(calls)[i := old(calls)[i].(pc := Finished(o.value))]
                          && pending == old(pending) - {calls[i].id}
      ensures o.None? ==> View() == old(View())
    {
      var c := calls[i];
      if InFlight(c) && c.interrupt.Some? { o := c.interrupt; }
      else if c.pc == Awaiting && c.future.Done? { o := Some(c.future.outcome); }
      else { return None; }
      pending := pending - {c.id};
      calls := calls[i := c.(pc := Finished(o.value))];
    }

    /** `aclose`, from the moment the socket is gone: fail every pending future, then forget them. */
    method AClose()
      requires Inv(View())
      modifies this
      ensures View() == Next(old(View()), Closed)
      ensures !connected && !authed && !reading && pending == map[] && |calls| == |old(calls)|
      ensures forall i :: 0 <= i < |calls| ==>
                calls[i] == if old(calls)[i].id in old(pending) && old(pending)[old(calls)[i].id] == i
                               && old(calls)[i].future == Unset
                            then old(calls)[i].(future := Done(ConnectionClosed)) else old(calls)[i]
    {
      connected, authed, reading := false, false, false;
      var left := pending.Keys;
      while left != {}
        invariant unchanged(`pending, `nextId, `hello, `epoch) && !connected && !authed && !reading
        invariant left <= pending.Keys
        invariant |calls| == |old(calls)|
        invariant forall i :: 0 <= i < |calls| ==>
                    calls[i] == if IsPending(old(calls)[i], i, pending) && old(calls)[i].id !in left
                                then Resolve(old(calls)[i], ConnectionClosed) else old(calls)[i]
        decreases left
      {
        var id := AnyOf(left);
        var i := pending[id];
        assert old(calls)[i].id == id;
        if calls[i].future == Unset {
          calls := calls[i := calls[i].(future := Done(ConnectionClosed))];
        }
        left := left - {id};
      }
      pending := map[];
      epoch := epoch + 1;
      assert calls == CloseCalls(old(calls), old(pending));
    }
  }

  /** The frame's id is the call's own, and the call is in the dict with its future unset. */
  predicate Hit(c: Call, i: int, frame: Frame, pending: map<nat, nat>) {
    frame.id == IntId(c.id) && c.id in pending && pending[c.id] == i && c.future == Unset
  }

  predicate IsPending(c: Call, i: int, pending: map<nat, nat>) { c.id in pending && pending[c.id] == i }
}
