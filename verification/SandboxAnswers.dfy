/**
 What callbacks are answered.  What the child has asked for and the values that handlers have
 returned are read off the run itself, beside the machine, and compared with what it delivers.
 */
module SandboxAnswers {
  import opened Options
  import opened SandboxMachine
  import opened SandboxParent
  import opened SandboxProtocol

  /** The kind of a callback, and whether it was built in or registered when the child made it. */
  datatype Question = Question(kind: nat, registered: bool)

  /** A value that the handler of a kind has returned for a callback. */
  datatype Answer = Answer(id: nat, kind: nat, value: int)

  datatype History = History(asked: map<nat, Question>, answers: set<Answer>, registrations: nat)

  const NO_HISTORY := History(map[], {}, 0)

  function Watch(s: State, h: History, action: Action): History {
    match action
    case ChildCallback(kind) =>
      h.(asked := h.asked[s.logs.nextCall := Question(kind, kind < BUILT_IN + h.registrations)])
    case RegisterCallback => h.(registrations := h.registrations + 1)
    case HandlerReturn(value) =>
      if s.parent != [] && Top(s).pc.Handling?
      then h.(answers := h.answers + {Answer(Top(s).pc.call.id, Top(s).pc.call.kind, value)}) else h
    case _ => h
  }

  function Watched(s: State, h: History, run: seq<Action>): History
    decreases |run|
  {
    if run == [] then h
    else
      match Do(s, run[0])
      case None => h
      case Some(next) => Watched(next, Watch(s, h, run[0]), run[1..])
  }

  /** The callback is the one that the child made under this identity. */
  ghost predicate Known(h: History, call: Callback) {
    call.id in h.asked && h.asked[call.id].kind == call.kind
  }

  /** The table still answers the callback as it would have when the child made it. */
  ghost predicate Current(h: History, handlers: nat, call: Callback) {
    Known(h, call) && h.asked[call.id].registered == (call.kind < handlers)
  }

  /** A kind that was registered is answered by its handler, any other by the default. */
  ghost predicate Justified(h: History, id: nat, value: int) {
    && id in h.asked
    && var q := h.asked[id];
       if q.registered then Answer(id, q.kind, value) in h.answers else value == NOT_IMPLEMENTED
  }

  ghost predicate SendJustified(h: History, pc: SendPc) {
    match pc
    case Handling(call) => Known(h, call) && h.asked[call.id].registered
    case Respond(call, value) => Known(h, call) && Justified(h, call.id, value)
    case _ => true
  }

  ghost predicate ParentJustified(h: History, parent: seq<Send>) {
    forall i :: 0 <= i < |parent| ==> SendJustified(h, parent[i].pc)
  }

  ghost predicate ChildKnown(h: History, s: State) {
    forall k :: 0 <= k < |s.child| && CallAt(s, k).Some? ==> Known(h, CallAt(s, k).value)
  }

  /** Until the parent takes a request, the table does not change. */
  ghost predicate RequestsCurrent(h: History, s: State) {
    && (forall i :: 0 <= i < |s.socket.requests| ==> Current(h, s.handlers, s.socket.requests[i]))
    && (s.child != [] && Inner(s).pc.SendRequest? ==> Current(h, s.handlers, Inner(s).pc.call))
  }

  ghost predicate HandledJustified(h: History, handled: map<nat, int>) {
    forall id :: id in handled ==> Justified(h, id, handled[id])
  }

  ghost predicate Answers(h: History, s: State) {
    && s.handlers == BUILT_IN + h.registrations
    && (forall id :: id in h.asked ==> id < s.logs.nextCall)
    && ChildKnown(h, s) && RequestsCurrent(h, s)
    && ParentJustified(h, s.parent) && HandledJustified(h, s.logs.handled)
  }

  /** The history only grows: what it justifies stays justified. */
  lemma HistoryGrows(h: History, s: State, g: History)
    requires Answers(h, s) && h.answers <= g.answers
    requires forall id :: id in h.asked ==> id in g.asked && g.asked[id] == h.asked[id]
    ensures ParentJustified(g, s.parent) && HandledJustified(g, s.logs.handled)
    ensures ChildKnown(g, s) && RequestsCurrent(g, s)
  {
    forall i | 0 <= i < |s.parent| ensures SendJustified(g, s.parent[i].pc) {
      assert SendJustified(h, s.parent[i].pc);
    }
    forall id | id in s.logs.handled ensures Justified(g, id, s.logs.handled[id]) {
      assert Justified(h, id, s.logs.handled[id]);
    }
    forall k | 0 <= k < |s.child| && CallAt(s, k).Some? ensures Known(g, CallAt(s, k).value) {
      assert Known(h, CallAt(s, k).value);
    }
    forall i | 0 <= i < |s.socket.requests| ensures Current(g, s.handlers, s.socket.requests[i]) {
      assert Current(h, s.handlers, s.socket.requests[i]);
    }
  }

  /** The callbacks of the child are those of another state with the same loops. */
  lemma SameLoops(h: History, s: State, t: State)
    requires ChildKnown(h, s) && t.child == s.child
    ensures ChildKnown(h, t)
  {
    forall k | 0 <= k < |t.child| && CallAt(t, k).Some? ensures Known(h, CallAt(t, k).value) {
      assert CallAt(t, k) == CallAt(s, k);
    }
  }

  lemma GoAnswers(h: History, s: State, pc: SendPc, mem: Memory, socket: Socket, logs: Logs)
    requires Answers(h, s) && s.parent != [] && SendJustified(h, pc)
    requires logs.nextCall == s.logs.nextCall && HandledJustified(h, logs.handled)
    requires socket.requests == s.socket.requests ||
      (s.socket.requests != [] && socket.requests == s.socket.requests[1..])
    ensures Answers(h, Go(s, pc, mem, socket, logs))
  {
    SameLoops(h, s, Go(s, pc, mem, socket, logs));
  }

  lemma SendAnswers(h: History, s: State, t: State)
    requires Answers(h, s) && s.parent != [] && SendStep(s) == Some(t)
    ensures Answers(h, t)
  {
    var pc := Top(s).pc;
    assert SendJustified(h, pc);
    if pc.Handle? && s.socket.requests != [] {
      HandleAnswers(h, s, t);
    } else if pc.Respond? {
      RespondAnswers(h, s, t);
    } else {
      PlainSend(s, t);
      SameLoops(h, s, t);
    }
    hide SendStep;
  }

  lemma HandleAnswers(h: History, s: State, t: State)
    requires Answers(h, s) && s.parent != [] && Top(s).pc.Handle? && s.socket.requests != []
    requires SendStep(s) == Some(t)
    ensures Answers(h, t)
  {
    var call := s.socket.requests[0];
    assert Current(h, s.handlers, call);
    GoAnswers(h, s, if call.kind < s.handlers then Handling(call) else Respond(call, NOT_IMPLEMENTED),
              s.mem, s.socket.(requests := s.socket.requests[1..]), s.logs);
  }

  lemma RespondAnswers(h: History, s: State, t: State)
    requires Answers(h, s) && s.parent != [] && Top(s).pc.Respond?
    requires SendStep(s) == Some(t)
    ensures Answers(h, t)
  {
    var call, value := Top(s).pc.call, Top(s).pc.value;
    assert SendJustified(h, Top(s).pc);
    GoAnswers(h, s, DropDepth, s.mem,
              s.socket.(responses := s.socket.responses + [Response(call.id, value)]),
              s.logs.(handled := s.logs.handled[call.id := value]));
  }

  /** The other steps of a send touch no callback: they move it on, or end it. */
  lemma PlainSend(s: State, t: State)
    requires s.parent != [] && SendStep(s) == Some(t)
    requires !Top(s).pc.Respond? && !(Top(s).pc.Handle? && s.socket.requests != [])
    ensures t.child == s.child && t.socket == s.socket && t.handlers == s.handlers
    ensures t.logs.nextCall == s.logs.nextCall && t.logs.handled == s.logs.handled
    ensures forall i :: 0 <= i < |t.parent| ==>
      i < |s.parent| && (t.parent[i] == s.parent[i] || NoCall(t.parent[i].pc))
  {
    if Launching(Top(s).pc) {
      LaunchingSend(s, t);
    } else {
      ServingSend(s, t);
    }
    hide SendStep, NoCall;
  }

  predicate NoCall(pc: SendPc) {
    !pc.Handling? && !pc.Respond?
  }

  lemma LaunchingSend(s: State, t: State)
    requires s.parent != [] && SendStep(s) == Some(t) && Launching(Top(s).pc)
    ensures t.child == s.child && t.socket == s.socket && t.handlers == s.handlers
    ensures t.logs == s.logs && |t.parent| == |s.parent|
    ensures forall i :: 0 <= i < |t.parent| ==> t.parent[i] == s.parent[i] || NoCall(t.parent[i].pc)
  {
  }

  lemma ServingSend(s: State, t: State)
    requires s.parent != [] && SendStep(s) == Some(t) && !Launching(Top(s).pc)
    requires !Top(s).pc.Respond? && !(Top(s).pc.Handle? && s.socket.requests != [])
    ensures t.child == s.child && t.socket == s.socket && t.handlers == s.handlers
    ensures t.logs.nextCall == s.logs.nextCall && t.logs.handled == s.logs.handled
    ensures |t.parent| <= |s.parent|
    ensures forall i :: 0 <= i < |t.parent| ==> t.parent[i] == s.parent[i] || NoCall(t.parent[i].pc)
  {
  }

  function CallOf(pc: LoopPc): Option<Callback> {
    match pc
    case SendRequest(_, call) => Some(call)
    case BumpDepth(_, call) => Some(call)
    case MarkIdle(_, call, _) => Some(call)
    case WakeParent(_, call, _) => Some(call)
    case InCallback(_, call) => Some(call)
    case ReceiveResponse(_, call) => Some(call)
    case _ => None
  }

  /** A step of the child that keeps its stack of loops: what the innermost one becomes. */
  lemma PlainLoop(s: State, t: State)
    requires s.child != [] && LoopStep(s) == Some(t) && !Inner(s).pc.WakeParent? && !Inner(s).pc.LoadDepth?
    ensures |t.child| == |s.child| && t.child[..|s.child| - 1] == s.child[..|s.child| - 1]
    ensures CallOf(Inner(t).pc).Some? ==> CallOf(Inner(t).pc) == CallOf(Inner(s).pc)
    ensures t.handlers == s.handlers && !Inner(t).pc.SendRequest?
    ensures t.parent == s.parent && t.logs.nextCall == s.logs.nextCall && t.logs.handled == s.logs.handled
    ensures t.socket.requests == s.socket.requests ||
      (Inner(s).pc.SendRequest? && t.socket.requests == s.socket.requests + [Inner(s).pc.call])
  {
    if CallOf(Inner(s).pc).Some? {
      CallingLoop(s, t);
    } else {
      IdleLoop(s, t);
    }
  }

  lemma CallingLoop(s: State, t: State)
    requires s.child != [] && LoopStep(s) == Some(t) && !Inner(s).pc.WakeParent? && CallOf(Inner(s).pc).Some?
    ensures |t.child| == |s.child| && t.child[..|s.child| - 1] == s.child[..|s.child| - 1]
    ensures CallOf(Inner(t).pc).Some? ==> CallOf(Inner(t).pc) == CallOf(Inner(s).pc)
    ensures t.handlers == s.handlers && !Inner(t).pc.SendRequest?
    ensures t.parent == s.parent && t.logs.nextCall == s.logs.nextCall && t.logs.handled == s.logs.handled
    ensures t.socket.requests ==
      s.socket.requests + if Inner(s).pc.SendRequest? then [Inner(s).pc.call] else []
  {
  }

  lemma IdleLoop(s: State, t: State)
    requires s.child != [] && LoopStep(s) == Some(t) && !Inner(s).pc.LoadDepth? && CallOf(Inner(s).pc).None?
    ensures |t.child| == |s.child| && t.child[..|s.child| - 1] == s.child[..|s.child| - 1]
    ensures CallOf(Inner(t).pc).None? && t.parent == s.parent && t.socket == s.socket && t.handlers == s.handlers
    ensures t.logs.nextCall == s.logs.nextCall && t.logs.handled == s.logs.handled
  {
  }

  lemma PlainLoopAnswers(h: History, s: State, t: State)
    requires Answers(h, s) && s.child != [] && |t.child| == |s.child|
    requires t.child[..|s.child| - 1] == s.child[..|s.child| - 1]
    requires CallOf(Inner(t).pc).Some? ==> CallOf(Inner(t).pc) == CallOf(Inner(s).pc)
    requires t.handlers == s.handlers && !Inner(t).pc.SendRequest?
    requires t.parent == s.parent && t.logs.nextCall == s.logs.nextCall && t.logs.handled == s.logs.handled
    requires t.socket.requests == s.socket.requests ||
      (Inner(s).pc.SendRequest? && t.socket.requests == s.socket.requests + [Inner(s).pc.call])
    ensures Answers(h, t)
  {
    var n := |s.child| - 1;
    assert CallAt(s, n) == CallOf(Inner(s).pc) && CallAt(t, n) == CallOf(Inner(t).pc);
    assert CallAt(s, n).Some? ==> Known(h, CallAt(s, n).value);
    forall k | 0 <= k < |t.child| && CallAt(t, k).Some? ensures Known(h, CallAt(t, k).value) {
      if k < n {
        assert t.child[k] == t.child[..n][k] == s.child[k];
        assert CallAt(t, k) == CallAt(s, k);
      }
    }
  }

  /** Entering and leaving a nested loop keep the callback that it serves. */
  lemma NestingAnswers(h: History, s: State, t: State)
    requires Answers(h, s) && s.child != [] && LoopStep(s) == Some(t)
    requires Inner(s).pc.WakeParent? || Inner(s).pc.LoadDepth?
    ensures Answers(h, t)
  {
    var n := |s.child| - 1;
    assert CallAt(s, n).Some? ==> Known(h, CallAt(s, n).value);
    forall k | 0 <= k < |t.child| && CallAt(t, k).Some? ensures Known(h, CallAt(t, k).value) {
      if k < n {
        assert CallAt(s, k) == CallAt(t, k);
      }
    }
  }

  /** The child keeps the callbacks of its outer loops, and goes on with the one it is in. */
  lemma LoopAnswers(h: History, s: State, t: State)
    requires Answers(h, s) && s.child != [] && LoopStep(s) == Some(t)
    ensures Answers(h, t)
  {
    hide Answers, CallOf;
    if Inner(s).pc.WakeParent? || Inner(s).pc.LoadDepth? {
      NestingAnswers(h, s, t);
    } else {
      PlainLoop(s, t);
      PlainLoopAnswers(h, s, t);
    }
  }

  lemma CallbackAnswers(h: History, s: State, kind: nat)
    requires Answers(h, s) && SandboxedCode(s)
    ensures Answers(Watch(s, h, ChildCallback(kind)), StartCallback(s, kind))
  {
    var g, t := Watch(s, h, ChildCallback(kind)), StartCallback(s, kind);
    HistoryGrows(h, s, g);
    forall k | 0 <= k < |t.child| && CallAt(t, k).Some? ensures Known(g, CallAt(t, k).value) {
      if k < |s.child| - 1 {
        assert CallAt(t, k) == CallAt(s, k);
      }
    }
  }

  lemma HandlerAnswers(h: History, s: State, value: int)
    requires Answers(h, s) && s.parent != [] && TrustedCode(s)
    ensures Answers(Watch(s, h, HandlerReturn(value)), FinishHandler(s, value))
  {
    var g, t := Watch(s, h, HandlerReturn(value)), FinishHandler(s, value);
    assert SendJustified(h, Top(s).pc);
    HistoryGrows(h, s, g);
    forall i | 0 <= i < |t.parent| ensures SendJustified(g, t.parent[i].pc) {
      if i < |s.parent| - 1 {
        assert SendJustified(g, s.parent[i].pc);
      }
    }
    forall k | 0 <= k < |t.child| && CallAt(t, k).Some? ensures Known(g, CallAt(t, k).value) {
      assert CallAt(t, k) == CallAt(s, k);
    }
  }

  /** Steps that start a send, end an invocation or leave the processes to themselves touch no callback. */
  lemma QuietAnswers(h: History, s: State, t: State)
    requires Answers(h, s) && t.socket == s.socket && t.logs.handled == s.logs.handled
    requires t.logs.nextCall == s.logs.nextCall && t.handlers == s.handlers
    requires t.parent == s.parent || (exists f: Send :: f.pc.ReadDepth? && t.parent == s.parent + [f])
    requires t.child == s.child ||
      (s.child != [] && (exists f: Loop :: CallOf(f.pc).None? && t.child == s.child[|s.child| - 1 := f]))
    ensures Answers(h, t)
  {
    forall k | 0 <= k < |t.child| && CallAt(t, k).Some? ensures Known(h, CallAt(t, k).value) {
      assert t.child[k] == s.child[k];
      assert CallAt(t, k) == CallAt(s, k);
    }
  }

  /** Trusted code runs, and so may register a handler, only while no request is on its way. */
  lemma RegisterAnswers(h: History, s: State)
    requires Answers(h, s) && Inv(s) && TrustedCode(s)
    ensures Answers(Watch(s, h, RegisterCallback), s.(handlers := s.handlers + 1))
  {
    var t := s.(handlers := s.handlers + 1);
    var g := Watch(s, h, RegisterCallback);
    HistoryGrows(h, s, g);
    assert ParentTurn(s);
    assert s.socket.requests == [] && !ChildActive(s);
    SameLoops(g, s, t);
  }

  lemma StepAnswers(h: History, s: State, action: Action)
    requires Answers(h, s) && Inv(s) && Do(s, action).Some?
    ensures Answers(Watch(s, h, action), Do(s, action).value)
  {
    hide Answers, Inv;
    var t := Do(s, action).value;
    match action
    case ParentStep =>
      if s.parent == [] {
        QuietAnswers(h, s, t);
      } else {
        SendAnswers(h, s, t);
      }
    case CallSend(idx, ptr) =>
      var f := Send(s.logs.nextSend, idx, ptr, 0, ReadDepth);
      assert f.pc.ReadDepth? && t.parent == s.parent + [f];
      QuietAnswers(h, s, t);
    case RegisterCallback => RegisterAnswers(h, s);
    case HandlerReturn(value) => HandlerAnswers(h, s, value);
    case RequestExit => QuietAnswers(h, s, t);
    case ChildStep => LoopAnswers(h, s, t);
    case ChildSpurious =>
      var f := Loop(Inner(s).depth, CheckExit);
      assert CallOf(f.pc).None? && t.child == s.child[|s.child| - 1 := f];
      QuietAnswers(h, s, t);
    case ChildCallback(kind) => CallbackAnswers(h, s, kind);
    case ChildReturn =>
      var f := Loop(Inner(s).depth, LoadDepth);
      assert CallOf(f.pc).None? && t.child == s.child[|s.child| - 1 := f];
      QuietAnswers(h, s, t);
  }

  lemma {:induction false} RunAnswers(h: History, s: State, run: seq<Action>)
    requires Answers(h, s) && Inv(s) && Exec(s, run).Some?
    ensures Answers(Watched(s, h, run), Exec(s, run).value)
    decreases |run|
  {
    hide Answers, Inv, Do;
    if run != [] {
      StepInv(s, run[0]);
      StepAnswers(h, s, run[0]);
      RunAnswers(Watch(s, h, run[0]), Do(s, run[0]).value, run[1..]);
    }
  }

  /**
   In every run, a callback of a kind that was registered when the child made it receives a value that
   the handler of that kind returned for that very callback, and any other receives the default,
   whatever is registered later.
   */
  lemma CallbackAnswered(run: seq<Action>, id: nat)
    requires Exec(Initial(), run).Some? && id in Exec(Initial(), run).value.logs.received
    ensures var s := Exec(Initial(), run).value;
      Justified(Watched(Initial(), NO_HISTORY, run), id, s.logs.received[id])
  {
    var s, h := Exec(Initial(), run).value, NO_HISTORY;
    assert Answers(h, Initial());
    RunAnswers(h, Initial(), run);
    assert Reachable(s);
    CallbackReadsOwnResponse(s, id);
  }
}
