/**
 The protocol between a trusted parent and its sandboxed child: every step keeps the invariant, and
 what follows for every run.
 */
module SandboxProtocol {
  import opened Options
  import opened SandboxMachine
  import opened SandboxParent
  import opened SandboxChild

  lemma CallSendTurn(s: State, idx: int, ptr: Option<nat>)
    requires Mirrored(s) && Turn(s) && !s.aborted && TrustedCode(s) && s.logs.nextSend !in s.logs.trace
    ensures Mirrored(StartSend(s, idx, ptr)) && Turn(StartSend(s, idx, ptr))
  {
    var t := StartSend(s, idx, ptr);
    assert ParentTurn(s);
    forall i | 0 <= i < |t.child| - 1 ensures Runs(t.child[i].pc.work, t.parent[i]) {
      assert Runs(s.child[i].pc.work, s.parent[i]);
    }
    assert Launched(t);
  }

  lemma CallSendInv(s: State, idx: int, ptr: Option<nat>)
    requires Inv(s) && TrustedCode(s)
    ensures Inv(StartSend(s, idx, ptr))
  {
    assert ParentTurn(s) && s.logs.nextSend !in s.logs.trace;
    CallSendTurn(s, idx, ptr);
    CallSendLogged(s, idx, ptr);
    CallSendCalls(s, idx, ptr);
    hide Mirrored, Turn, Logged, CallsLogged;
  }

  lemma CallSendCalls(s: State, idx: int, ptr: Option<nat>)
    requires CallsLogged(s) && TrustedCode(s)
    requires s.parent != [] ==> Unanswered(s, Top(s).pc.call)
    ensures CallsLogged(StartSend(s, idx, ptr))
  {
    var t := StartSend(s, idx, ptr);
    assert forall k :: 0 <= k < |s.child| ==> CallAt(t, k) == CallAt(s, k);
    CallsFrame(s, t);
  }

  lemma CallSendLogged(s: State, idx: int, ptr: Option<nat>)
    requires Logged(s) && !s.aborted && TrustedCode(s) && |s.child| == |s.parent| + 1
    ensures Logged(StartSend(s, idx, ptr))
  {
    var t := StartSend(s, idx, ptr);
    forall i | 0 <= i < |t.child| - 1 && i < |t.parent| ensures Begun(t, t.parent[i]) {
      assert Begun(s, s.parent[i]);
    }
    forall id | id in t.logs.returned ensures Completed(t.logs, id) {
      assert id in s.logs.returned ==> Completed(s.logs, id);
    }
  }

  lemma HandlerReturnInv(s: State, value: int)
    requires Inv(s) && s.parent != [] && TrustedCode(s)
    ensures Inv(FinishHandler(s, value))
  {
    HandlerReturnTurn(s, value);
    HandlerReturnLogs(s, value);
    hide Mirrored, Turn, Logged, CallsLogged;
  }

  lemma HandlerReturnTurn(s: State, value: int)
    requires Mirrored(s) && Turn(s) && !s.aborted && s.parent != [] && TrustedCode(s)
    ensures var t := FinishHandler(s, value); Mirrored(t) && Turn(t) && !t.aborted
  {
    var t := FinishHandler(s, value);
    assert ParentTurn(s);
    assert CallAt(t, |s.child| - 2) == Some(Top(s).pc.call);
    TopMirrored(s, t, t.parent[|s.parent| - 1]);
  }

  lemma HandlerReturnLogs(s: State, value: int)
    requires Logged(s) && CallsLogged(s) && s.parent != [] && TrustedCode(s)
    ensures var t := FinishHandler(s, value); Logged(t) && CallsLogged(t)
  {
    var t := FinishHandler(s, value);
    LoggedFrame(s, t);
    assert forall k :: 0 <= k < |s.child| ==> CallAt(t, k) == CallAt(s, k);
    CallsFrame(s, t);
  }

  /** The steps of `wait_for_child_exit`. */
  lemma ExitInv(s: State, t: State)
    requires Inv(s) && s.parent == []
    requires ExitStep(s) == Some(t) ||
      (s.mode.Client? && t == s.(mode := ExitAssert, mem := s.mem.(shouldExit := true)))
    ensures Inv(t)
  {
    ExitTurn(s, t);
    ExitLogs(s, t);
    hide Mirrored, Turn, Logged, CallsLogged;
  }

  lemma ExitTurn(s: State, t: State)
    requires Mirrored(s) && Turn(s) && !s.aborted && s.parent == []
    requires ExitStep(s) == Some(t) ||
      (s.mode.Client? && t == s.(mode := ExitAssert, mem := s.mem.(shouldExit := true)))
    ensures Mirrored(t) && Turn(t) && !t.aborted
  {
    assert ParentTurn(s);
    assert Served(t);
  }

  lemma ExitLogs(s: State, t: State)
    requires Logged(s) && CallsLogged(s) && s.parent == []
    requires ExitStep(s) == Some(t) ||
      (s.mode.Client? && t == s.(mode := ExitAssert, mem := s.mem.(shouldExit := true)))
    ensures Logged(t) && CallsLogged(t)
  {
    assert t.parent == [] && t.child == s.child && t.logs == s.logs;
    SameLogs(s, t);
  }

  lemma SameLogs(s: State, t: State)
    requires Logged(s) && CallsLogged(s) && t.parent == s.parent && t.child == s.child && t.logs == s.logs
    ensures Logged(t) && CallsLogged(t)
  {
    LoggedFrame(s, t);
    assert forall k :: 0 <= k < |s.child| ==> CallAt(t, k) == CallAt(s, k);
    CallsFrame(s, t);
  }

  /** Registering a handler touches neither process. */
  lemma RegisterInv(s: State)
    requires Inv(s) && TrustedCode(s)
    ensures Inv(s.(handlers := s.handlers + 1))
  {
    var t := s.(handlers := s.handlers + 1);
    RegisterTurn(s, t);
    SameLogs(s, t);
    hide Mirrored, Turn, Logged, CallsLogged;
  }

  lemma RegisterTurn(s: State, t: State)
    requires Mirrored(s) && Turn(s) && !s.aborted && TrustedCode(s) && t == s.(handlers := s.handlers + 1)
    ensures Mirrored(t) && Turn(t)
  {
    assert ParentTurn(s);
    assert Served(t);
    forall i | 0 <= i < |t.child| - 1 ensures Runs(t.child[i].pc.work, t.parent[i]) {
      assert Runs(s.child[i].pc.work, s.parent[i]);
    }
  }

  lemma StepInv(s: State, action: Action)
    requires Inv(s) && Do(s, action).Some?
    ensures Inv(Do(s, action).value)
  {
    hide Inv, SendStep, LoopStep, ExitStep;
    var t := Do(s, action).value;
    match action
    case ParentStep => if s.parent == [] { ExitInv(s, t); } else { ParentInv(s, t); }
    case CallSend(idx, ptr) => CallSendInv(s, idx, ptr);
    case RegisterCallback => RegisterInv(s);
    case HandlerReturn(value) => HandlerReturnInv(s, value);
    case RequestExit => ExitInv(s, t);
    case ChildStep => ChildInv(s, t);
    case ChildSpurious => RestInv(s, t);
    case ChildCallback(kind) => CallbackInv(s, kind);
    case ChildReturn => InvokeReturnInv(s);
  }

  lemma {:induction false} ExecInv(s: State, run: seq<Action>)
    requires Inv(s) && Exec(s, run).Some?
    ensures Inv(Exec(s, run).value)
    decreases |run|
  {
    if run != [] {
      StepInv(s, run[0]);
      ExecInv(Do(s, run[0]).value, run[1..]);
    }
  }

  lemma ReachableInv(s: State)
    requires Reachable(s)
    ensures Inv(s)
  {
    hide Exec;
    var run: seq<Action> :| Exec(Initial(), run) == Some(s);
    ExecInv(Initial(), run);
  }

  // ----- what the protocol promises -----

  /** Control is in one place: one side runs, or one wake is pending, and never two of these. */
  lemma OneToken(s: State)
    requires Reachable(s)
    ensures Tokens(s) == 1
    ensures !(ParentActive(s) && ChildActive(s))
  {
    ReachableInv(s);
  }

  /** No assertion of either side and no semaphore invariant fails. */
  lemma NoCheckFails(s: State)
    requires Reachable(s)
    ensures !s.aborted
  {
    ReachableInv(s);
  }

  /** Until the child has exited some side can always take a real step. */
  lemma NeverStuck(s: State)
    requires Reachable(s) && !s.exited
    ensures exists action: Action ::
      !action.ChildSpurious? && !action.RegisterCallback? && Do(s, action).Some?
  {
    hide Logged, CallsLogged, Exec;
    ReachableInv(s);
    if ParentActive(s) {
      if TrustedCode(s) {
        assert Do(s, CallSend(0, None)).Some?;
      } else {
        assert Do(s, ParentStep).Some?;
      }
    } else if s.parent != [] && s.mem.parentWakes == 1 {
      assert Do(s, ParentStep).Some?;
    } else if SandboxedCode(s) {
      assert Do(s, ChildReturn).Some?;
    } else {
      assert Do(s, ChildStep).Some?;
    }
  }

  /**
   Calls and callbacks nest last in, first out: the child's callback at depth `i` is served by the
   parent's handler at depth `i`, inside the send whose message the child was running.
   */
  lemma NestedLastInFirstOut(s: State, i: nat)
    requires Reachable(s) && i + 1 < |s.child|
    ensures i < |s.parent| && s.child[i].pc.InCallback? && s.child[i].depth == i
    ensures s.child[i].pc.work.msg.id == s.parent[i].id && s.child[i].pc.work.idx == s.parent[i].idx
    ensures s.parent[i].pc.Handling? ==> s.parent[i].pc.call == s.child[i].pc.call
    ensures i + 1 < |s.parent| ==> s.parent[i].pc.Handling?
  {
    ReachableInv(s);
    assert Runs(s.child[i].pc.work, s.parent[i]);
  }

  /** Callbacks the child has announced and whose run loop it has not left. */
  function OpenCallbacks(s: State): nat
    requires s.child != []
  {
    |s.child| - 1 + Bit(Inner(s).pc.MarkIdle? || Inner(s).pc.WakeParent?)
  }

  /** The parent has given up the depth of the innermost callback and the child is still in its loop. */
  predicate Closing(s: State) {
    && s.parent != [] && |s.child| == |s.parent| + 1
    && s.socket.responses != [] && !Top(s).pc.DropDepth?
  }

  /** `callback_depth` counts the open callbacks, less the one that is just being closed. */
  lemma DepthCountsCallbacks(s: State)
    requires Reachable(s)
    ensures s.child != [] && s.mem.depth == OpenCallbacks(s) - Bit(Closing(s))
  {
    hide Logged, CallsLogged, Exec;
    ReachableInv(s);
  }

  /** A send that has returned had its own function run on its own message once, and nothing else. */
  lemma SendRanOnce(s: State, id: nat)
    requires Reachable(s) && id in s.logs.returned
    ensures id in s.logs.sent && Log(s.logs, id) == Finished(s.logs.sent[id])
  {
    ReachableInv(s);
    assert Completed(s.logs, id);
  }

  /** What a callback receives is what its own handler answered. */
  lemma CallbackReadsOwnResponse(s: State, id: nat)
    requires Reachable(s) && id in s.logs.received
    ensures id in s.logs.handled && s.logs.received[id] == s.logs.handled[id]
  {
    ReachableInv(s);
  }

  /** Once asked to exit the child runs nothing more, and it exits only between calls. */
  lemma ExitIsQuiet(s: State, action: Action)
    requires Reachable(s) && s.mem.shouldExit && Do(s, action).Some?
    ensures var t := Do(s, action).value;
      t.logs.trace == s.logs.trace && t.parent == [] && t.mem.slot == None
  {
    hide Logged, CallsLogged, Exec;
    ReachableInv(s);
  }
}
