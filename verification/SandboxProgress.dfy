/**
 Calls come to an end.  Every step that goes on with work already begun leaves less of it, and where no
 such step is left every send has returned and a child that was asked to exit has exited.
 */
module SandboxProgress {
  import opened Options
  import opened SandboxMachine
  import opened SandboxParent
  import opened SandboxProtocol

  /** The steps that go on with calls already made: code of either side that is in control returns. */
  predicate Finishing(action: Action) {
    action.ParentStep? || action.ChildStep? || action.HandlerReturn? || action.ChildReturn?
  }

  /** The steps that begin something: a send, a callback, or the exit. */
  predicate Beginning(action: Action) {
    action.CallSend? || action.ChildCallback? || action.RequestExit?
  }

  /** What a nested run loop costs. */
  const NESTED: nat := 20

  /** How far the parent is from giving control away, while it has it. */
  function SendRank(calling: bool, pc: SendPc): nat {
    match pc
    case ReadDepth => 40
    case StoreIndex => 39
    case StoreMessage => 38
    case AssertIdle => 37
    case MarkExecuting => 36
    case WakeChild => 35
    case Await => 0
    case Woken => if calling then 15 else 16
    case Handle => 14
    case Handling(_) => 13
    case Respond(_, _) => 12
    case DropDepth => 11
    case MarkResumed => 10
    case WakeResumed => 9
  }

  function ModeRank(mode: ParentMode): nat {
    match mode
    case Client => 0
    case ExitAssert => 30
    case ExitMark => 29
    case ExitWake => 28
    case ExitAwait => 0
  }

  /** The parent has answered a callback, and the child is to leave the run loop of it. */
  predicate Leaving(s: State) {
    s.parent != [] && |s.child| == |s.parent| + 1
  }

  function LoopRank(leaving: bool, pc: LoopPc): nat {
    match pc
    case CheckExit => 0
    case AwaitWake => 0
    case CheckToken => if leaving then 7 else 26
    case LoadIndex => if leaving then 6 else 25
    case LoadMessage(_) => if leaving then 5 else 24
    case ClearMessage(_, _) => if leaving then 4 else 23
    case ReceiveResponse(_, _) => 22
    case Invoking(_) => 21
    case LoadDepth => if leaving then 3 else 20
    case MarkDone => 19
    case WakeDone => 18
    case SendRequest(_, _) => NESTED + 20
    case BumpDepth(_, _) => NESTED + 19
    case MarkIdle(_, _, _) => NESTED + 18
    case WakeParent(_, _, _) => NESTED + 17
    case InCallback(_, _) => 0
  }

  /** What is left to do at the place where the token is. */
  function Rank(s: State): nat
    requires s.child != []
  {
    if s.mem.childWakes > 0 then if Leaving(s) then 8 else 27
    else if s.mem.parentWakes > 0 then if Leaving(s) then 16 else 17
    else if ChildActive(s) then LoopRank(Leaving(s), Inner(s).pc)
    else if s.parent == [] then ModeRank(s.mode)
    else SendRank(s.mem.depth > Top(s).saved, Top(s).pc)
  }

  /** All that is left to do: at the token, on both stacks, and for a child that looks before it waits. */
  function Remaining(s: State): nat
    requires s.child != []
  {
    2 * (Rank(s) + NESTED * |s.child| + |s.parent|) + Bit(!s.exited && Inner(s).pc.CheckExit?)
  }

  // ----- every step leaves less -----

  /** What the invariant says about the side that the token is on. */
  ghost predicate Placed(s: State) {
    && s.child != []
    && Tokens(s) == 1
    && (s.parent != [] && s.mem.parentWakes == 1 ==>
          (s.mem.depth > Top(s).saved) == Leaving(s))
    && (forall i :: 0 <= i < |s.parent| - 1 ==> s.parent[i].pc.Handling?)
    && (s.parent != [] ==> s.mode.Client?)
    && (s.parent != [] && Top(s).pc.WakeChild? ==> !Leaving(s))
    && (s.parent != [] && Top(s).pc.WakeResumed? ==> Leaving(s))
    && (ChildActive(s) ==> ChildPlaced(s))
  }

  ghost predicate ChildPlaced(s: State)
    requires s.child != []
  {
    match Inner(s).pc
    case LoadDepth => Leaving(s) <==> s.mem.depth != Inner(s).depth
    case MarkDone => !Leaving(s)
    case WakeDone => !Leaving(s)
    case WakeParent(_, _, _) => s.parent != [] && |s.child| == |s.parent|
    case ClearMessage(_, slot) => slot.Some? ==> !Leaving(s)
    case Invoking(_) => !Leaving(s)
    case _ => true
  }

  lemma IsPlaced(s: State)
    requires Inv(s)
    ensures Placed(s)
  {
    hide Logged, CallsLogged;
    assert ParentActive(s) ==> ParentTurn(s);
    assert ChildActive(s) ==> ChildTurn(s);
  }

  lemma LaunchWorks(s: State, t: State)
    requires Placed(s) && !s.aborted && s.parent != [] && SendStep(s) == Some(t) && !t.aborted
    requires Launching(Top(s).pc)
    ensures t.child != [] && Remaining(t) < Remaining(s)
  {
  }

  lemma ServeWorks(s: State, t: State)
    requires Placed(s) && !s.aborted && s.parent != [] && SendStep(s) == Some(t) && !t.aborted
    requires !Launching(Top(s).pc) && !Top(s).pc.Woken?
    ensures t.child != [] && Remaining(t) < Remaining(s)
  {
  }

  /** A send that finds no callback to serve returns, and the one below it goes on. */
  lemma WokenWorks(s: State, t: State)
    requires Placed(s) && !s.aborted && s.parent != [] && SendStep(s) == Some(t) && Top(s).pc.Woken?
    ensures t.child != [] && Remaining(t) < Remaining(s)
  {
    var n := |s.parent|;
    if s.mem.depth <= Top(s).saved && n > 1 {
      assert Top(t) == s.parent[n - 2];
    }
  }

  lemma SendWorks(s: State, t: State)
    requires Placed(s) && !s.aborted && s.parent != [] && SendStep(s) == Some(t) && !t.aborted
    ensures t.child != [] && Remaining(t) < Remaining(s)
  {
    hide Tokens, ChildPlaced, Remaining, SendStep;
    if Top(s).pc.Woken? {
      WokenWorks(s, t);
    } else if Launching(Top(s).pc) {
      LaunchWorks(s, t);
    } else {
      ServeWorks(s, t);
    }
  }

  lemma ExitWorks(s: State, t: State)
    requires Placed(s) && !s.aborted && s.parent == [] && ExitStep(s) == Some(t) && !t.aborted
    ensures t.child != [] && Remaining(t) < Remaining(s)
  {
  }

  lemma WaitWorks(s: State, t: State)
    requires Placed(s) && !s.aborted && !s.exited && LoopStep(s) == Some(t) && !t.aborted
    requires Inner(s).pc.CheckExit? || Inner(s).pc.AwaitWake? || Inner(s).pc.CheckToken? || Inner(s).pc.LoadIndex?
    ensures t.child != [] && Remaining(t) < Remaining(s)
  {
  }

  lemma TakeWorks(s: State, t: State)
    requires Placed(s) && !s.aborted && !s.exited && LoopStep(s) == Some(t) && !t.aborted
    requires Inner(s).pc.LoadMessage? || Inner(s).pc.ClearMessage? || Inner(s).pc.ReceiveResponse?
    ensures t.child != [] && Remaining(t) < Remaining(s)
  {
  }

  lemma CallWorks(s: State, t: State)
    requires Placed(s) && !s.aborted && !s.exited && LoopStep(s) == Some(t) && !t.aborted
    requires Inner(s).pc.SendRequest? || Inner(s).pc.BumpDepth? || Inner(s).pc.MarkIdle?
    ensures t.child != [] && Remaining(t) < Remaining(s)
  {
  }

  lemma DoneWorks(s: State, t: State)
    requires Placed(s) && !s.aborted && !s.exited && LoopStep(s) == Some(t) && !t.aborted
    requires Inner(s).pc.MarkDone? || Inner(s).pc.WakeDone?
    ensures t.child != [] && Remaining(t) < Remaining(s)
  {
  }

  /** A nested run loop costs what the callback has saved up for it. */
  lemma EnterWorks(s: State, t: State)
    requires Placed(s) && !s.aborted && !s.exited && LoopStep(s) == Some(t) && !t.aborted
    requires Inner(s).pc.WakeParent?
    ensures t.child != [] && Remaining(t) < Remaining(s)
  {
  }

  lemma LeaveWorks(s: State, t: State)
    requires Placed(s) && !s.aborted && !s.exited && LoopStep(s) == Some(t) && !t.aborted
    requires Inner(s).pc.LoadDepth?
    ensures t.child != [] && Remaining(t) < Remaining(s)
  {
  }

  lemma LoopWorks(s: State, t: State)
    requires Placed(s) && !s.aborted && !s.exited && LoopStep(s) == Some(t) && !t.aborted
    ensures t.child != [] && Remaining(t) < Remaining(s)
  {
    hide Tokens, ChildPlaced, Remaining;
    match Inner(s).pc
    case CheckExit => WaitWorks(s, t);
    case AwaitWake => WaitWorks(s, t);
    case CheckToken => WaitWorks(s, t);
    case LoadIndex => WaitWorks(s, t);
    case LoadMessage(_) => TakeWorks(s, t);
    case ClearMessage(_, _) => TakeWorks(s, t);
    case ReceiveResponse(_, _) => TakeWorks(s, t);
    case SendRequest(_, _) => CallWorks(s, t);
    case BumpDepth(_, _) => CallWorks(s, t);
    case MarkIdle(_, _, _) => CallWorks(s, t);
    case MarkDone => DoneWorks(s, t);
    case WakeDone => DoneWorks(s, t);
    case WakeParent(_, _, _) => EnterWorks(s, t);
    case LoadDepth => LeaveWorks(s, t);
  }

  lemma ReturnWorks(s: State)
    requires Placed(s) && SandboxedCode(s)
    ensures var t := FinishInvoke(s); t.child != [] && Remaining(t) < Remaining(s)
  {
  }

  lemma HandlerWorks(s: State, value: int)
    requires Placed(s) && s.parent != [] && TrustedCode(s)
    ensures var t := FinishHandler(s, value); t.child != [] && Remaining(t) < Remaining(s)
  {
  }

  /** Whatever goes on with work already begun leaves less of it. */
  lemma StepWorks(s: State, action: Action)
    requires Inv(s) && Finishing(action) && Do(s, action).Some?
    ensures var t := Do(s, action).value; t.child != [] && s.child != [] && Remaining(t) < Remaining(s)
  {
    hide Inv, SendStep, LoopStep, ExitStep, Remaining;
    IsPlaced(s);
    StepInv(s, action);
    var t := Do(s, action).value;
    NotAborted(s);
    NotAborted(t);
    match action
    case ParentStep => if s.parent == [] { ExitWorks(s, t); } else { SendWorks(s, t); }
    case ChildStep => LoopWorks(s, t);
    case HandlerReturn(value) => HandlerWorks(s, value);
    case ChildReturn => ReturnWorks(s);
  }

  lemma NotAborted(s: State)
    requires Inv(s)
    ensures !s.aborted && s.child != []
  {
  }

  /** A wake-up for nothing costs one look at the exit flag, and a registration costs nothing. */
  lemma IdleWorks(s: State, action: Action)
    requires Inv(s) && (action.ChildSpurious? || action.RegisterCallback?) && Do(s, action).Some?
    ensures var t := Do(s, action).value;
      t.child != [] && s.child != [] && Remaining(t) <= Remaining(s) + Bit(action.ChildSpurious?)
  {
    NotAborted(s);
    hide Inv;
  }

  function Taken(run: seq<Action>): nat {
    if run == [] then 0 else Bit(Finishing(run[0])) + Taken(run[1..])
  }

  function Spurious(run: seq<Action>): nat {
    if run == [] then 0 else Bit(run[0].ChildSpurious?) + Spurious(run[1..])
  }

  /**
   However the two sides are scheduled, without new calls only so many steps can be taken, apart from
   wake-ups for nothing and registrations.
   */
  lemma {:induction false} CallsEnd(s: State, run: seq<Action>)
    requires Inv(s) && Exec(s, run).Some? && forall k :: 0 <= k < |run| ==> !Beginning(run[k])
    ensures var t := Exec(s, run).value;
      Inv(t) && t.child != [] && s.child != [] && Taken(run) + Remaining(t) <= Remaining(s) + Spurious(run)
    decreases |run|
  {
    hide Inv, Do, Remaining;
    NotAborted(s);
    if run != [] {
      var next := Do(s, run[0]).value;
      StepInv(s, run[0]);
      if Finishing(run[0]) {
        StepWorks(s, run[0]);
      } else {
        IdleWorks(s, run[0]);
      }
      CallsEnd(next, run[1..]);
    }
  }

  // ----- where nothing is left to do -----

  /** Nothing already begun can go on. */
  ghost predicate Resting(s: State) {
    forall action :: Finishing(action) ==> Do(s, action).None?
  }

  /** No send is active; the child waits to be woken, or has exited if it was asked to. */
  predicate Quiet(s: State) {
    && s.parent == [] && s.child != []
    && if s.mode.Client? then !s.exited && Inner(s).pc.AwaitWake? else s.mode.ExitAwait? && s.exited
  }

  lemma RestsExactlyWhenQuiet(s: State)
    requires Inv(s)
    ensures Resting(s) <==> Quiet(s)
  {
    hide Logged, CallsLogged;
    if Quiet(s) {
      forall action | Finishing(action) ensures Do(s, action).None? {
      }
    } else {
      var action := NextStep(s);
      assert Finishing(action) && Do(s, action).Some?;
    }
  }

  /** Who goes on next. */
  lemma NextStep(s: State) returns (action: Action)
    requires Inv(s) && !Quiet(s)
    ensures Finishing(action) && Do(s, action).Some?
  {
    hide Logged, CallsLogged;
    if ParentActive(s) && s.parent != [] {
      action := if Top(s).pc.Handling? then HandlerReturn(0) else ParentStep;
    } else if ParentActive(s) && !s.mode.Client? {
      action := ParentStep;
    } else if s.parent != [] && s.mem.parentWakes == 1 {
      action := ParentStep;
    } else if SandboxedCode(s) {
      action := ChildReturn;
    } else {
      action := ChildStep;
    }
  }

  // ----- every send returns -----

  /** Every send that was ever started is still active, or has returned. */
  ghost predicate SendsKnown(s: State) {
    && (forall id :: 0 <= id < s.logs.nextSend ==> id in s.logs.sent)
    && (forall id :: id in s.logs.sent ==> id in s.logs.returned || Active(s, id))
  }

  ghost predicate Active(s: State, id: nat) {
    exists i :: 0 <= i < |s.parent| && s.parent[i].id == id
  }

  /** A step that starts no send keeps them all: the topmost may return. */
  ghost predicate SameSends(s: State, t: State) {
    && t.logs.nextSend == s.logs.nextSend && t.logs.sent == s.logs.sent
    && s.logs.returned <= t.logs.returned
    && forall i :: 0 <= i < |s.parent| ==>
         s.parent[i].id in t.logs.returned || (i < |t.parent| && t.parent[i].id == s.parent[i].id)
  }

  lemma SameSendsKnown(s: State, t: State)
    requires SendsKnown(s) && SameSends(s, t)
    ensures SendsKnown(t)
  {
    forall id | id in t.logs.sent && id !in t.logs.returned ensures Active(t, id) {
      var i :| 0 <= i < |s.parent| && s.parent[i].id == id;
      assert t.parent[i].id == id;
    }
  }

  lemma LaunchSends(s: State, t: State)
    requires s.parent != [] && SendStep(s) == Some(t) && Launching(Top(s).pc)
    ensures SameSends(s, t)
  {
  }

  lemma ServeSends(s: State, t: State)
    requires s.parent != [] && SendStep(s) == Some(t) && !Launching(Top(s).pc)
    ensures SameSends(s, t)
  {
  }

  lemma CallingSends(s: State, t: State)
    requires s.child != [] && LoopStep(s) == Some(t) && CallAt(s, |s.child| - 1).Some?
    ensures SameSends(s, t)
  {
  }

  lemma IdleSends(s: State, t: State)
    requires s.child != [] && LoopStep(s) == Some(t) && CallAt(s, |s.child| - 1).None?
    ensures SameSends(s, t)
  {
  }

  lemma LoopSends(s: State, t: State)
    requires s.child != [] && LoopStep(s) == Some(t)
    ensures SameSends(s, t)
  {
    hide LoopStep, SameSends;
    if CallAt(s, |s.child| - 1).Some? {
      CallingSends(s, t);
    } else {
      IdleSends(s, t);
    }
  }

  lemma StartKnown(s: State, idx: int, ptr: Option<nat>)
    requires SendsKnown(s)
    ensures SendsKnown(StartSend(s, idx, ptr))
  {
    var t := StartSend(s, idx, ptr);
    forall id | id in t.logs.sent && id !in t.logs.returned ensures Active(t, id) {
      if id == s.logs.nextSend {
        assert t.parent[|s.parent|].id == id;
      } else {
        var i :| 0 <= i < |s.parent| && s.parent[i].id == id;
        assert t.parent[i].id == id;
      }
    }
  }

  lemma StepKnown(s: State, action: Action)
    requires SendsKnown(s) && Do(s, action).Some?
    ensures SendsKnown(Do(s, action).value)
  {
    hide SendStep, LoopStep, SendsKnown;
    var t := Do(s, action).value;
    if action.CallSend? {
      StartKnown(s, action.idx, action.ptr);
    } else {
      if action.ParentStep? && s.parent != [] {
        if Launching(Top(s).pc) { LaunchSends(s, t); } else { ServeSends(s, t); }
      } else if action.ChildStep? {
        LoopSends(s, t);
      }
      SameSendsKnown(s, t);
    }
  }

  lemma {:induction false} ExecKnown(s: State, run: seq<Action>)
    requires SendsKnown(s) && Exec(s, run).Some?
    ensures SendsKnown(Exec(s, run).value)
    decreases |run|
  {
    hide SendsKnown, Do;
    if run != [] {
      StepKnown(s, run[0]);
      ExecKnown(Do(s, run[0]).value, run[1..]);
    }
  }

  /**
   In every run: where nothing already begun can go on, every send that was ever started has returned and
   its function has run once and to the end, and a child that was asked to exit has exited.
   */
  lemma RestsOnlyWhenReturned(s: State)
    requires Reachable(s) && Resting(s)
    ensures s.parent == [] && forall id :: 0 <= id < s.logs.nextSend ==> id in s.logs.returned && Completed(s.logs, id)
    ensures s.mem.shouldExit ==> s.exited
  {
    var run: seq<Action> :| Exec(Initial(), run) == Some(s);
    ReachableInv(s);
    RestsExactlyWhenQuiet(s);
    assert SendsKnown(Initial());
    ExecKnown(Initial(), run);
    forall id | 0 <= id < s.logs.nextSend ensures id in s.logs.returned && Completed(s.logs, id) {
      assert id in s.logs.sent && !Active(s, id);
    }
  }

  /** From every reachable state the two sides can go on, in boundedly many steps, until they rest. */
  lemma {:induction false} CanFinish(s: State) returns (run: seq<Action>)
    requires Inv(s)
    ensures s.child != [] && |run| <= Remaining(s) && forall k :: 0 <= k < |run| ==> Finishing(run[k])
    ensures Exec(s, run).Some? && Resting(Exec(s, run).value)
    decreases Left(s)
  {
    hide Inv, Do, Remaining, Quiet, Resting, Finishing;
    NotAborted(s);
    RestsExactlyWhenQuiet(s);
    if Quiet(s) {
      run := [];
    } else {
      var action := NextStep(s);
      StepInv(s, action);
      StepWorks(s, action);
      var next := Do(s, action).value;
      var rest := CanFinish(next);
      run := [action] + rest;
      assert run[1..] == rest;
    }
  }

  /** The bound on the steps left, in states that have one. */
  ghost function Left(s: State): nat {
    if s.child == [] then 0 else Remaining(s)
  }

  /** A send is active only until the sides rest: then it has returned, whoever was scheduled when. */
  lemma SendReturns(s: State, run: seq<Action>, id: nat)
    requires Reachable(s) && Active(s, id) && Exec(s, run).Some? && Resting(Exec(s, run).value)
    ensures id in Exec(s, run).value.logs.returned
  {
    var before: seq<Action> :| Exec(Initial(), before) == Some(s);
    hide Resting;
    ReachableInv(s);
    ExecConcat(Initial(), before, run);
    var t := Exec(s, run).value;
    assert Exec(Initial(), before + run) == Some(t);
    assert Reachable(t);
    RestsOnlyWhenReturned(t);
    var i :| 0 <= i < |s.parent| && s.parent[i].id == id;
    assert Matches(s.logs, s.parent[i]);
    NextSendGrows(s, run);
  }

  lemma {:induction false} ExecConcat(s: State, a: seq<Action>, b: seq<Action>)
    requires Exec(s, a).Some?
    ensures Exec(s, a + b) == Exec(Exec(s, a).value, b)
    decreases |a|
  {
    hide Do;
    if a == [] {
      assert a + b == b;
    } else {
      assert (a + b)[1..] == a[1..] + b;
      ExecConcat(Do(s, a[0]).value, a[1..], b);
    }
  }

  lemma {:induction false} NextSendGrows(s: State, run: seq<Action>)
    requires Exec(s, run).Some?
    ensures s.logs.nextSend <= Exec(s, run).value.logs.nextSend
    decreases |run|
  {
    if run != [] {
      var t := Do(s, run[0]).value;
      OneMoreSend(s, run[0]);
      hide Do;
      NextSendGrows(t, run[1..]);
    }
  }

  lemma OneMoreSend(s: State, action: Action)
    requires Do(s, action).Some?
    ensures s.logs.nextSend <= Do(s, action).value.logs.nextSend
  {
    hide SendStep, LoopStep;
    var t := Do(s, action).value;
    if action.ParentStep? && s.parent != [] {
      if Launching(Top(s).pc) { LaunchSends(s, t); } else { ServeSends(s, t); }
    } else if action.ChildStep? {
      LoopSends(s, t);
    }
  }

  // ----- every callback is answered -----

  ghost predicate Pending(s: State, id: nat) {
    exists k :: 0 <= k < |s.child| && CallAt(s, k).Some? && CallAt(s, k).value.id == id
  }

  /** Every callback that was ever made is still in progress, or has received its answer. */
  ghost predicate CallsKnown(s: State) {
    forall id :: 0 <= id < s.logs.nextCall ==> id in s.logs.received || Pending(s, id)
  }

  /** A step that makes no callback keeps them all: the innermost may receive its answer. */
  ghost predicate SameCalls(s: State, t: State) {
    && t.logs.nextCall == s.logs.nextCall
    && (forall id :: id in s.logs.received ==> id in t.logs.received)
    && forall k :: 0 <= k < |s.child| && CallAt(s, k).Some? ==>
         || CallAt(s, k).value.id in t.logs.received
         || (k < |t.child| && CallAt(t, k) == CallAt(s, k))
  }

  lemma SameCallsKnown(s: State, t: State)
    requires CallsKnown(s) && SameCalls(s, t)
    ensures CallsKnown(t)
  {
    forall id | 0 <= id < t.logs.nextCall && id !in t.logs.received ensures Pending(t, id) {
      var k :| 0 <= k < |s.child| && CallAt(s, k).Some? && CallAt(s, k).value.id == id;
      assert CallAt(t, k) == CallAt(s, k);
    }
  }

  lemma SameLoopsSameCalls(s: State, t: State)
    requires t.child == s.child && t.logs.nextCall == s.logs.nextCall && t.logs.received == s.logs.received
    ensures SameCalls(s, t)
  {
    assert forall k :: 0 <= k < |s.child| ==> CallAt(t, k) == CallAt(s, k);
  }

  /** The loops below the innermost are as they were, and its callback is, or has been answered. */
  lemma InnerCalls(s: State, t: State)
    requires s.child != [] && |t.child| >= |s.child| && t.logs.nextCall == s.logs.nextCall
    requires forall k :: 0 <= k < |s.child| - 1 ==> t.child[k] == s.child[k]
    requires forall id :: id in s.logs.received ==> id in t.logs.received
    requires var c := CallAt(s, |s.child| - 1);
      c.Some? ==> c.value.id in t.logs.received || CallAt(t, |s.child| - 1) == c
    ensures SameCalls(s, t)
  {
    assert forall k :: 0 <= k < |s.child| - 1 ==> CallAt(t, k) == CallAt(s, k);
  }

  lemma CallingCalls(s: State, t: State)
    requires s.child != [] && LoopStep(s) == Some(t) && CallAt(s, |s.child| - 1).Some?
    ensures SameCalls(s, t)
  {
    InnerCalls(s, t);
  }

  lemma IdleCalls(s: State, t: State)
    requires s.child != [] && LoopStep(s) == Some(t) && CallAt(s, |s.child| - 1).None? && !Inner(s).pc.LoadDepth?
    ensures SameCalls(s, t)
  {
    InnerCalls(s, t);
  }

  lemma LeaveCalls(s: State, t: State)
    requires s.child != [] && LoopStep(s) == Some(t) && Inner(s).pc.LoadDepth?
    ensures SameCalls(s, t)
  {
    if s.mem.depth == Inner(s).depth {
      InnerCalls(s, t);
    } else {
      forall k | 0 <= k < |s.child| && CallAt(s, k).Some? ensures k < |t.child| && CallAt(t, k) == CallAt(s, k) {
      }
    }
  }

  lemma LaunchCalls(s: State, t: State)
    requires s.parent != [] && SendStep(s) == Some(t) && Launching(Top(s).pc)
    ensures t.child == s.child && t.logs.nextCall == s.logs.nextCall && t.logs.received == s.logs.received
  {
  }

  lemma ServeCalls(s: State, t: State)
    requires s.parent != [] && SendStep(s) == Some(t) && !Launching(Top(s).pc)
    ensures t.child == s.child && t.logs.nextCall == s.logs.nextCall && t.logs.received == s.logs.received
  {
  }

  lemma StartCalls(s: State, kind: nat)
    requires CallsKnown(s) && SandboxedCode(s)
    ensures CallsKnown(StartCallback(s, kind))
  {
    var t, n := StartCallback(s, kind), |s.child| - 1;
    forall id | 0 <= id < t.logs.nextCall && id !in t.logs.received ensures Pending(t, id) {
      if id == s.logs.nextCall {
        assert CallAt(t, n) == Some(Callback(id, kind));
      } else {
        var k :| 0 <= k < |s.child| && CallAt(s, k).Some? && CallAt(s, k).value.id == id;
        assert CallAt(t, k) == CallAt(s, k);
      }
    }
  }

  lemma StepCalls(s: State, action: Action)
    requires CallsKnown(s) && Do(s, action).Some?
    ensures CallsKnown(Do(s, action).value)
  {
    hide SendStep, LoopStep, CallsKnown;
    var t := Do(s, action).value;
    if action.ChildCallback? {
      StartCalls(s, action.kind);
    } else {
      if action.ChildStep? {
        if Inner(s).pc.LoadDepth? {
          LeaveCalls(s, t);
        } else if CallAt(s, |s.child| - 1).Some? {
          CallingCalls(s, t);
        } else {
          IdleCalls(s, t);
        }
      } else if action.ChildSpurious? || action.ChildReturn? {
        InnerCalls(s, t);
      } else {
        if action.ParentStep? && s.parent != [] {
          if Launching(Top(s).pc) { LaunchCalls(s, t); } else { ServeCalls(s, t); }
        }
        SameLoopsSameCalls(s, t);
      }
      SameCallsKnown(s, t);
    }
  }

  lemma {:induction false} ExecCalls(s: State, run: seq<Action>)
    requires CallsKnown(s) && Exec(s, run).Some?
    ensures CallsKnown(Exec(s, run).value)
    decreases |run|
  {
    hide CallsKnown, Do;
    if run != [] {
      StepCalls(s, run[0]);
      ExecCalls(Do(s, run[0]).value, run[1..]);
    }
  }

  /** In every run: where nothing already begun can go on, every callback has received its answer. */
  lemma RestsOnlyWhenAnswered(s: State)
    requires Reachable(s) && Resting(s)
    ensures forall id :: 0 <= id < s.logs.nextCall ==> id in s.logs.received
  {
    hide Logged, CallsLogged;
    var run: seq<Action> :| Exec(Initial(), run) == Some(s);
    ReachableInv(s);
    RestsExactlyWhenQuiet(s);
    ExecCalls(Initial(), run);
    assert |s.child| == 1 && CallAt(s, 0).None?;
  }

  // ----- a whole run, by the calls that were made in it -----

  /** The sends of a run, in order. */
  function Sends(run: seq<Action>): seq<Request> {
    if run == [] then []
    else
      var last := run[|run| - 1];
      Sends(run[..|run| - 1]) + if last.CallSend? then [Request(last.idx, last.ptr)] else []
  }

  function Callbacks(run: seq<Action>): nat {
    if run == [] then 0 else Callbacks(run[..|run| - 1]) + Bit(run[|run| - 1].ChildCallback?)
  }

  /** The logs name the calls in the order in which they were made, and the exit was asked for if it was. */
  ghost predicate Recorded(s: State, run: seq<Action>) {
    && s.logs.nextSend == |Sends(run)| && s.logs.nextCall == Callbacks(run)
    && (forall k :: 0 <= k < |Sends(run)| ==> k in s.logs.sent && s.logs.sent[k] == Sends(run)[k])
    && (s.mem.shouldExit <==> RequestExit in run)
  }

  /** A step that makes no call and asks for nothing leaves the record alone. */
  ghost predicate SameRecord(s: State, t: State) {
    && t.logs.nextSend == s.logs.nextSend && t.logs.sent == s.logs.sent && t.logs.nextCall == s.logs.nextCall
    && t.mem.shouldExit == s.mem.shouldExit
  }

  lemma LaunchRecord(s: State, t: State)
    requires s.parent != [] && SendStep(s) == Some(t) && Launching(Top(s).pc)
    ensures SameRecord(s, t)
  {
  }

  lemma ServeRecord(s: State, t: State)
    requires s.parent != [] && SendStep(s) == Some(t) && !Launching(Top(s).pc)
    ensures SameRecord(s, t)
  {
  }

  lemma CallingRecord(s: State, t: State)
    requires s.child != [] && LoopStep(s) == Some(t) && CallAt(s, |s.child| - 1).Some?
    ensures SameRecord(s, t)
  {
  }

  lemma IdleRecord(s: State, t: State)
    requires s.child != [] && LoopStep(s) == Some(t) && CallAt(s, |s.child| - 1).None?
    ensures SameRecord(s, t)
  {
  }

  lemma QuietRecord(s: State, action: Action)
    requires !Beginning(action) && Do(s, action).Some?
    ensures SameRecord(s, Do(s, action).value)
  {
    hide SendStep, LoopStep;
    var t := Do(s, action).value;
    if action.ParentStep? && s.parent != [] {
      if Launching(Top(s).pc) { LaunchRecord(s, t); } else { ServeRecord(s, t); }
    } else if action.ChildStep? {
      if CallAt(s, |s.child| - 1).Some? { CallingRecord(s, t); } else { IdleRecord(s, t); }
    }
  }

  lemma RecordedStep(s: State, run: seq<Action>, action: Action)
    requires Recorded(s, run) && Do(s, action).Some?
    ensures Recorded(Do(s, action).value, run + [action])
  {
    var t, more := Do(s, action).value, run + [action];
    assert more[..|run|] == run;
    assert Sends(more) == Sends(run) + if action.CallSend? then [Request(action.idx, action.ptr)] else [];
    if !Beginning(action) {
      QuietRecord(s, action);
    }
    hide SendStep, LoopStep, ExitStep;
  }

  lemma {:induction false} RecordedRun(s: State, done: seq<Action>, run: seq<Action>)
    requires Recorded(s, done) && Exec(s, run).Some?
    ensures Recorded(Exec(s, run).value, done + run)
    decreases |run|
  {
    hide Recorded, Do;
    if run == [] {
      assert done + run == done;
    } else {
      RecordedStep(s, done, run[0]);
      RecordedRun(Do(s, run[0]).value, done + [run[0]], run[1..]);
      assert done + [run[0]] + run[1..] == done + run;
    }
  }

  /**
   Any whole run, up to where nothing already begun can go on: what each send in it asked for has run
   exactly once and to its end, each callback in it has received its answer, and the child has exited
   exactly if that was asked for.
   */
  lemma WholeRun(run: seq<Action>)
    requires Exec(Initial(), run).Some? && Resting(Exec(Initial(), run).value)
    ensures var s := Exec(Initial(), run).value;
      && (forall k :: 0 <= k < |Sends(run)| ==>
            k in s.logs.returned && Log(s.logs, k) == Finished(Sends(run)[k]))
      && (forall id :: 0 <= id < Callbacks(run) ==> id in s.logs.received)
      && (s.exited <==> RequestExit in run)
  {
    var s := Exec(Initial(), run).value;
    assert Recorded(Initial(), []);
    RecordedRun(Initial(), [], run);
    assert [] + run == run;
    assert Reachable(s);
    RestsOnlyWhenReturned(s);
    RestsOnlyWhenAnswered(s);
    hide Exec, Resting;
    ReachableInv(s);
    ExitsWhenAsked(s);
  }

  lemma ExitsWhenAsked(s: State)
    requires Inv(s) && (s.mem.shouldExit ==> s.exited)
    ensures s.exited <==> s.mem.shouldExit
  {
  }
}
