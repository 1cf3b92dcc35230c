/** Every step of the child keeps the invariant of the protocol. */
module SandboxChild {
  import opened Options
  import opened SandboxMachine

  /** The child moves between its two resting points, or exits from one. */
  ghost predicate RestMove(s: State, t: State) {
    && s.child != [] && |t.child| == |s.child| && t == s.(child := t.child, exited := t.exited)
    && t.child[..|s.child| - 1] == s.child[..|s.child| - 1]
    && t.child[|s.child| - 1].depth == Inner(s).depth
    && (Inner(s).pc.CheckExit? || Inner(s).pc.AwaitWake?)
    && (t.child[|s.child| - 1].pc.CheckExit? || (t.child[|s.child| - 1].pc.AwaitWake? && !s.mem.shouldExit))
  }

  lemma RestSignals(s: State, t: State)
    requires RestMove(s, t)
    ensures Handed(t) == Handed(s) && Done(t) == Done(s) && Calling(t) == Calling(s)
  {
    assert forall k :: 0 <= k < |s.child| - 1 ==> t.child[k] == t.child[..|s.child| - 1][k] == s.child[k];
    assert Fresh(t) == Fresh(s);
    assert Ending(t) == Ending(s);
  }

  lemma RestParentTurn(s: State, t: State)
    requires RestMove(s, t) && ParentActive(s) && ParentTurn(s)
    ensures ParentTurn(t)
  {
    assert forall k :: 0 <= k < |s.child| - 1 ==> t.child[k] == t.child[..|s.child| - 1][k] == s.child[k];
    RestSignals(s, t);
    if s.parent != [] {
      match Top(s).pc
      case Respond(call, _) => assert CallAt(t, |t.child| - 2) == CallAt(s, |s.child| - 2);
      case _ =>
    }
  }

  lemma TurnRest(s: State, t: State)
    requires RestMove(s, t) && Turn(s)
    ensures Turn(t)
  {
    RestSignals(s, t);
    if ParentActive(s) { RestParentTurn(s, t); }
    assert Tokens(t) == Tokens(s);
  }

  lemma TurnAwaitWake(s: State, t: State)
    requires Mirrored(s) && Turn(s) && !s.aborted && !s.exited && Inner(s).pc.AwaitWake?
    requires LoopStep(s) == Some(t)
    ensures Turn(t) && !t.aborted
  {
    assert Handed(t) by {
      if Fresh(s) { assert Fresh(t); }
      if Ending(s) { assert Ending(t); }
    }
  }

  lemma TurnCheckToken(s: State, t: State)
    requires Mirrored(s) && Turn(s) && !s.aborted && !s.exited && Inner(s).pc.CheckToken?
    requires LoopStep(s) == Some(t)
    ensures Turn(t) && !t.aborted
  {
    assert Handed(t) by {
      if Fresh(s) { assert Fresh(t); }
      if Ending(s) { assert Ending(t); }
    }
  }

  lemma TurnLoadIndex(s: State, t: State)
    requires Mirrored(s) && Turn(s) && !s.aborted && !s.exited && Inner(s).pc.LoadIndex?
    requires LoopStep(s) == Some(t)
    ensures Turn(t) && !t.aborted
  {
    assert Handed(t) by {
      if Fresh(s) { assert Fresh(t); }
      if Ending(s) { assert Ending(t); }
    }
  }

  lemma TurnLoadMessage(s: State, t: State)
    requires Mirrored(s) && Turn(s) && !s.aborted && !s.exited && Inner(s).pc.LoadMessage?
    requires LoopStep(s) == Some(t)
    ensures Turn(t) && !t.aborted
  {
    assert Handed(t) by {
      if Fresh(s) { assert Fresh(t); }
      if Ending(s) { assert Ending(t); }
    }
  }

  lemma TurnTakeMessage(s: State, t: State)
    requires Mirrored(s) && Turn(s) && !s.aborted && !s.exited && Inner(s).pc.ClearMessage?
    requires Inner(s).pc.slot.Some? && LoopStep(s) == Some(t)
    ensures Turn(t) && !t.aborted
  {
    assert Fresh(s);
    assert InFlight(t, Inner(t).pc.work);
  }

  /** A wake that carries no message: a null send, the end of a callback, or the request to exit. */
  lemma TurnNoMessage(s: State, t: State)
    requires Mirrored(s) && Turn(s) && !s.aborted && !s.exited && Inner(s).pc.ClearMessage?
    requires Inner(s).pc.slot.None? && LoopStep(s) == Some(t)
    ensures Turn(t) && !t.aborted
  {
    assert Handed(s) && s.mem.slot.None?;
    if Ending(s) { assert Ending(t); } else { assert Done(t); }
  }

  lemma TurnSendRequest(s: State, t: State)
    requires Mirrored(s) && Turn(s) && !s.aborted && !s.exited && Inner(s).pc.SendRequest?
    requires LoopStep(s) == Some(t)
    ensures Turn(t) && !t.aborted
  {
  }

  lemma TurnBumpDepth(s: State, t: State)
    requires Mirrored(s) && Turn(s) && !s.aborted && !s.exited && Inner(s).pc.BumpDepth?
    requires LoopStep(s) == Some(t)
    ensures Turn(t) && !t.aborted
  {
  }

  lemma TurnMarkIdle(s: State, t: State)
    requires Mirrored(s) && Turn(s) && !s.aborted && !s.exited && Inner(s).pc.MarkIdle?
    requires LoopStep(s) == Some(t)
    ensures Turn(t) && !t.aborted
  {
  }

  lemma TurnWakeParent(s: State, t: State)
    requires Mirrored(s) && Turn(s) && !s.aborted && !s.exited && Inner(s).pc.WakeParent?
    requires LoopStep(s) == Some(t)
    ensures Turn(t) && !t.aborted
  {
    assert Calling(t);
  }

  lemma TurnReceiveResponse(s: State, t: State)
    requires Mirrored(s) && Turn(s) && !s.aborted && !s.exited && Inner(s).pc.ReceiveResponse?
    requires LoopStep(s) == Some(t)
    ensures Turn(t) && !t.aborted
  {
  }

  lemma TurnLoadDepth(s: State, t: State)
    requires Mirrored(s) && Turn(s) && !s.aborted && !s.exited && Inner(s).pc.LoadDepth? && Done(s)
    requires LoopStep(s) == Some(t)
    ensures Turn(t) && !t.aborted
  {
    assert Done(t);
  }

  lemma TurnLeaveLoop(s: State, t: State)
    requires Mirrored(s) && Turn(s) && !s.aborted && !s.exited && Inner(s).pc.LoadDepth? && Ending(s)
    requires Begun(s, Top(s)) && s.child[|s.child| - 2].pc.call.id !in s.logs.received
    requires LoopStep(s) == Some(t)
    ensures Turn(t) && !t.aborted
  {
    assert s.mem.executing;
    assert InFlight(t, Inner(t).pc.work);
    assert Answered(t, Inner(t).pc);
  }

  lemma TurnMarkDone(s: State, t: State)
    requires Mirrored(s) && Turn(s) && !s.aborted && !s.exited && Inner(s).pc.MarkDone?
    requires LoopStep(s) == Some(t)
    ensures Turn(t) && !t.aborted
  {
    assert Done(t);
  }

  lemma TurnWakeDone(s: State, t: State)
    requires Mirrored(s) && Turn(s) && !s.aborted && !s.exited && Inner(s).pc.WakeDone?
    requires LoopStep(s) == Some(t)
    ensures Turn(t) && !t.aborted
  {
    assert Done(t);
  }

  /** `t` is `s` with the child's innermost activation replaced and its other stack as it was. */
  ghost predicate OnlyLoop(s: State, t: State, g: Loop) {
    && s.child != [] && t.child == s.child[|s.child| - 1 := g] && g.depth == Inner(s).depth
    && t.parent == s.parent && t.mode == s.mode && t.mem.shouldExit == s.mem.shouldExit && !t.exited && !s.exited
    && t.logs.returned == s.logs.returned && t.logs.handled == s.logs.handled
    && t.logs.sent == s.logs.sent && t.logs.nextSend == s.logs.nextSend
  }

  lemma LoopMirrored(s: State, t: State, g: Loop)
    requires Mirrored(s) && OnlyLoop(s, t, g) && !g.pc.InCallback?
    ensures Mirrored(t)
  {
    forall i | 0 <= i < |t.child| - 1 ensures Runs(t.child[i].pc.work, t.parent[i]) {
      assert Runs(s.child[i].pc.work, s.parent[i]);
    }
  }

  /** A new event of the topmost send disturbs no other send's log. */
  lemma EventLogged(s: State, t: State, g: Loop, event: Event)
    requires Logged(s) && OnlyLoop(s, t, g) && s.parent != [] && |s.child| == |s.parent|
    requires t.logs.trace == Record(s.logs, Top(s).id, event).trace
    ensures Logged(t)
  {
    forall i | 0 <= i < |t.child| - 1 && i < |t.parent| ensures Begun(t, t.parent[i]) {
      assert Begun(s, s.parent[i]);
      assert Log(t.logs, s.parent[i].id) == Log(s.logs, s.parent[i].id);
    }
    forall id | id in t.logs.returned ensures Completed(t.logs, id) {
      assert id in s.logs.returned ==> Completed(s.logs, id);
    }
  }

  lemma CallbackInv(s: State, kind: nat)
    requires Inv(s) && !s.exited && SandboxedCode(s)
    ensures Inv(StartCallback(s, kind))
  {
    var t := StartCallback(s, kind);
    CallbackTurn(s, kind);
    LoopMirrored(s, t, t.child[|s.child| - 1]);
    LoggedFrame(s, t);
    CallbackCalls(s, kind);
  }

  lemma CallbackTurn(s: State, kind: nat)
    requires Mirrored(s) && Turn(s) && !s.aborted && !s.exited && SandboxedCode(s)
    requires s.logs.nextCall !in s.logs.handled && s.logs.nextCall !in s.logs.received
    ensures Turn(StartCallback(s, kind))
  {
    var t := StartCallback(s, kind);
    assert ChildTurn(s);
    assert InFlight(t, t.child[|s.child| - 1].pc.work);
  }

  lemma CallbackCalls(s: State, kind: nat)
    requires CallsLogged(s) && !s.aborted && !s.exited && SandboxedCode(s)
    ensures CallsLogged(StartCallback(s, kind))
  {
    var t := StartCallback(s, kind);
    assert forall k :: 0 <= k < |s.child| - 1 ==> CallAt(t, k) == CallAt(s, k);
  }

  lemma InvokeReturnTurn(s: State)
    requires Mirrored(s) && Turn(s) && !s.aborted && !s.exited && SandboxedCode(s)
    ensures var t := FinishInvoke(s); Mirrored(t) && Turn(t)
  {
    var t := FinishInvoke(s);
    assert ChildTurn(s);
    LoopMirrored(s, t, t.child[|s.child| - 1]);
    assert Done(t);
  }

  lemma InvokeReturnLogs(s: State)
    requires Logged(s) && CallsLogged(s) && !s.exited && SandboxedCode(s) && InFlight(s, Inner(s).pc.work)
    ensures var t := FinishInvoke(s); Logged(t) && CallsLogged(t)
  {
    var t := FinishInvoke(s);
    EventLogged(s, t, t.child[|s.child| - 1], Ended);
    assert forall k :: 0 <= k < |s.child| - 1 ==> CallAt(t, k) == CallAt(s, k);
    CallsFrame(s, t);
  }

  lemma InvokeReturnInv(s: State)
    requires Inv(s) && !s.exited && SandboxedCode(s)
    ensures Inv(FinishInvoke(s))
  {
    hide Logged, CallsLogged, ParentTurn;
    assert InFlight(s, Inner(s).pc.work);
    hide Mirrored, Turn;
    InvokeReturnTurn(s);
    InvokeReturnLogs(s);
  }

  lemma WakeParentMirrored(s: State, t: State)
    requires Mirrored(s) && Turn(s) && !s.aborted && !s.exited && Inner(s).pc.WakeParent?
    requires LoopStep(s) == Some(t)
    ensures Mirrored(t)
  {
    assert ChildTurn(s);
    forall i | 0 <= i < |t.child| - 1 ensures Runs(t.child[i].pc.work, t.parent[i]) {
      assert i < |s.child| - 1 ==> Runs(s.child[i].pc.work, s.parent[i]);
    }
  }

  lemma WakeParentLogs(s: State, t: State)
    requires Logged(s) && CallsLogged(s) && s.child != [] && Inner(s).pc.WakeParent? && InFlight(s, Inner(s).pc.work)
    requires LoopStep(s) == Some(t) && !t.aborted
    ensures Logged(t) && CallsLogged(t)
  {
    assert forall k :: 0 <= k < |s.child| ==> CallAt(t, k) == CallAt(s, k);
    assert CallAt(t, |s.child|).None?;
    CallsFrame(s, t);
    LoggedFrame(s, t);
  }

  lemma WakeParentInv(s: State, t: State)
    requires Inv(s) && !s.exited && Inner(s).pc.WakeParent?
    requires LoopStep(s) == Some(t)
    ensures Inv(t)
  {
    hide Logged, CallsLogged, LoopStep, ParentTurn;
    assert InFlight(s, Inner(s).pc.work);
    hide Mirrored, Turn;
    TurnWakeParent(s, t);
    WakeParentMirrored(s, t);
    WakeParentLogs(s, t);
  }

  lemma LeaveLoopMirrored(s: State, t: State)
    requires Mirrored(s) && !s.exited && Inner(s).pc.LoadDepth? && Ending(s)
    requires LoopStep(s) == Some(t)
    ensures Mirrored(t)
  {
    forall i | 0 <= i < |t.child| - 1 ensures Runs(t.child[i].pc.work, t.parent[i]) {
      assert Runs(s.child[i].pc.work, s.parent[i]);
    }
  }

  lemma LeaveLoopLogs(s: State, t: State)
    requires Logged(s) && CallsLogged(s) && Ending(s) && Inner(s).pc.LoadDepth? && s.mem.depth != Inner(s).depth
    requires LoopStep(s) == Some(t)
    ensures Logged(t) && CallsLogged(t)
    ensures Begun(s, Top(s)) && s.child[|s.child| - 2].pc.call.id !in s.logs.received
  {
    var n := |s.child|;
    assert CallAt(s, n - 2).Some?;
    assert forall k :: 0 <= k < n - 1 ==> CallAt(t, k) == CallAt(s, k);
    CallsFrame(s, t);
    LoggedFrame(s, t);
  }

  lemma LeaveLoopInv(s: State, t: State)
    requires Inv(s) && !s.exited && Inner(s).pc.LoadDepth? && !Done(s)
    requires LoopStep(s) == Some(t)
    ensures Inv(t)
  {
    hide Logged, CallsLogged, LoopStep, ParentTurn, Done;
    assert Ending(s) && s.mem.depth != Inner(s).depth;
    hide Mirrored, Turn, Ending;
    LeaveLoopLogs(s, t);
    TurnLeaveLoop(s, t);
    LeaveLoopMirrored(s, t);
  }

  lemma ReceiveCalls(s: State, t: State)
    requires CallsLogged(s) && s.child != [] && Inner(s).pc.ReceiveResponse? && LoopStep(s) == Some(t)
    requires Answered(s, Inner(s).pc)
    ensures CallsLogged(t)
  {
    assert CallAt(s, |s.child| - 1) == Some(Inner(s).pc.call);
    assert forall k :: 0 <= k < |s.child| - 1 ==> CallAt(t, k) == CallAt(s, k);
  }

  lemma ReceiveInv(s: State, t: State)
    requires Inv(s) && !s.exited && Inner(s).pc.ReceiveResponse? && LoopStep(s) == Some(t)
    ensures Inv(t)
  {
    assert ChildTurn(s);
    TurnReceiveResponse(s, t);
    LoopMirrored(s, t, t.child[|s.child| - 1]);
    LoggedFrame(s, t);
    ReceiveCalls(s, t);
  }

  /** The steps of the run loop that neither touch a log nor change the height of the stack. */
  ghost predicate PlainLoop(s: State) {
    && s.child != []
    && match Inner(s).pc
       case CheckExit => false
       case ClearMessage(_, slot) => slot.None?
       case Invoking(_) => false
       case WakeParent(_, _, _) => false
       case InCallback(_, _) => false
       case ReceiveResponse(_, _) => false
       case LoadDepth => Done(s)
       case _ => true
  }

  lemma PlainLoopTurn(s: State, t: State)
    requires Mirrored(s) && Turn(s) && !s.aborted && !s.exited && LoopStep(s) == Some(t) && PlainLoop(s)
    ensures Turn(t) && !t.aborted
  {
    hide LoopStep, Turn, Mirrored, Done;
    match Inner(s).pc
    case AwaitWake => TurnAwaitWake(s, t);
    case CheckToken => TurnCheckToken(s, t);
    case LoadIndex => TurnLoadIndex(s, t);
    case LoadMessage(_) => TurnLoadMessage(s, t);
    case ClearMessage(_, _) => TurnNoMessage(s, t);
    case SendRequest(_, _) => TurnSendRequest(s, t);
    case BumpDepth(_, _) => TurnBumpDepth(s, t);
    case MarkIdle(_, _, _) => TurnMarkIdle(s, t);
    case LoadDepth => TurnLoadDepth(s, t);
    case MarkDone => TurnMarkDone(s, t);
    case WakeDone => TurnWakeDone(s, t);
  }

  lemma PlainLoopFrame(s: State, t: State)
    requires PlainLoop(s) && !s.exited && LoopStep(s) == Some(t) && !t.aborted && (Inner(s).pc.LoadDepth? ==>
      s.mem.depth == Inner(s).depth)
    ensures t.child != [] && OnlyLoop(s, t, Inner(t)) && !Inner(t).pc.InCallback? && t.logs == s.logs
    ensures CallAt(t, |t.child| - 1).Some? ==> CallAt(t, |t.child| - 1) == CallAt(s, |s.child| - 1)
  {
  }

  lemma OnlyLoopFrame(s: State, t: State)
    requires Mirrored(s) && Logged(s) && CallsLogged(s) && t.child != []
    requires OnlyLoop(s, t, Inner(t)) && !Inner(t).pc.InCallback? && t.logs == s.logs
    requires CallAt(t, |t.child| - 1).Some? ==> CallAt(t, |t.child| - 1) == CallAt(s, |s.child| - 1)
    ensures Mirrored(t) && Logged(t) && CallsLogged(t)
  {
    LoopMirrored(s, t, Inner(t));
    assert forall k :: 0 <= k < |s.child| - 1 ==> CallAt(t, k) == CallAt(s, k);
    LoggedFrame(s, t);
    CallsFrame(s, t);
  }

  lemma PlainLoopInv(s: State, t: State)
    requires Inv(s) && !s.exited && LoopStep(s) == Some(t) && PlainLoop(s)
    ensures Inv(t)
  {
    PlainLoopTurn(s, t);
    PlainLoopFrame(s, t);
    OnlyLoopFrame(s, t);
  }

  lemma RestLogs(s: State, t: State)
    requires Logged(s) && CallsLogged(s) && RestMove(s, t)
    ensures Logged(t) && CallsLogged(t)
  {
    assert forall k :: 0 <= k < |s.child| - 1 ==> t.child[k] == t.child[..|s.child| - 1][k] == s.child[k];
    LoggedFrame(s, t);
    assert forall k :: 0 <= k < |s.child| ==> CallAt(t, k) == CallAt(s, k);
    CallsFrame(s, t);
  }

  lemma RestInv(s: State, t: State)
    requires Inv(s) && RestMove(s, t) && (t.exited ==> t.mem.shouldExit && t.child[|t.child| - 1].pc.CheckExit?)
    ensures Inv(t)
  {
    TurnRest(s, t);
    RestLogs(s, t);
    RestMirrored(s, t);
  }

  lemma RestMirrored(s: State, t: State)
    requires Mirrored(s) && RestMove(s, t) && (t.exited ==> t.mem.shouldExit && Inner(t).pc.CheckExit?)
    ensures Mirrored(t)
  {
    assert forall k :: 0 <= k < |s.child| - 1 ==> t.child[k] == t.child[..|s.child| - 1][k] == s.child[k];
    forall i | 0 <= i < |t.child| - 1 ensures Runs(t.child[i].pc.work, t.parent[i]) {
      assert Runs(s.child[i].pc.work, s.parent[i]);
    }
  }

  lemma TakeMessageLogs(s: State, t: State)
    requires Logged(s) && CallsLogged(s) && !s.exited && Fresh(s) && Inner(s).pc.ClearMessage?
    requires Inner(s).pc.slot == s.mem.slot && s.mem.slot.Some? && LoopStep(s) == Some(t)
    ensures Logged(t) && CallsLogged(t)
  {
    EventLogged(s, t, t.child[|s.child| - 1], Began(Inner(s).pc.idx, s.mem.slot.value.ptr));
    assert forall k :: 0 <= k < |s.child| - 1 ==> CallAt(t, k) == CallAt(s, k);
    CallsFrame(s, t);
  }

  lemma TakeMessageInv(s: State, t: State)
    requires Inv(s) && !s.exited && Inner(s).pc.ClearMessage? && Inner(s).pc.slot.Some?
    requires LoopStep(s) == Some(t)
    ensures Inv(t)
  {
    hide Logged, CallsLogged, ParentTurn;
    assert Fresh(s) && Inner(s).pc.slot == s.mem.slot;
    TurnTakeMessage(s, t);
    hide Turn;
    LoopMirrored(s, t, t.child[|s.child| - 1]);
    TakeMessageLogs(s, t);
  }

  lemma ChildInv(s: State, t: State)
    requires Inv(s) && !s.exited && LoopStep(s) == Some(t)
    ensures Inv(t)
  {
    if PlainLoop(s) {
      PlainLoopInv(s, t);
    } else if Inner(s).pc.CheckExit? {
      RestInv(s, t);
    } else if Inner(s).pc.ClearMessage? {
      TakeMessageInv(s, t);
    } else if Inner(s).pc.WakeParent? {
      WakeParentInv(s, t);
    } else if Inner(s).pc.ReceiveResponse? {
      ReceiveInv(s, t);
    } else {
      LeaveLoopInv(s, t);
    }
  }
}
