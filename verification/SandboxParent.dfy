/** Every step of the parent keeps the invariant of the protocol. */
module SandboxParent {
  import opened Options
  import opened SandboxMachine

  lemma TurnReadDepth(s: State, t: State)
    requires Mirrored(s) && Turn(s) && !s.aborted && s.parent != [] && Top(s).pc.ReadDepth?
    requires SendStep(s) == Some(t)
    ensures Turn(t) && !t.aborted
  {
  }

  lemma TurnStoreIndex(s: State, t: State)
    requires Mirrored(s) && Turn(s) && !s.aborted && s.parent != [] && Top(s).pc.StoreIndex?
    requires SendStep(s) == Some(t)
    ensures Turn(t) && !t.aborted
  {
  }

  lemma TurnStoreMessage(s: State, t: State)
    requires Mirrored(s) && Turn(s) && !s.aborted && s.parent != [] && Top(s).pc.StoreMessage?
    requires SendStep(s) == Some(t)
    ensures Turn(t) && !t.aborted
  {
  }

  lemma TurnAssertIdle(s: State, t: State)
    requires Mirrored(s) && Turn(s) && !s.aborted && s.parent != [] && Top(s).pc.AssertIdle?
    requires SendStep(s) == Some(t)
    ensures Turn(t) && !t.aborted
  {
  }

  lemma TurnMarkExecuting(s: State, t: State)
    requires Mirrored(s) && Turn(s) && !s.aborted && s.parent != [] && Top(s).pc.MarkExecuting?
    requires SendStep(s) == Some(t)
    ensures Turn(t) && !t.aborted
  {
  }

  lemma TurnWakeChild(s: State, t: State)
    requires Mirrored(s) && Turn(s) && !s.aborted && s.parent != [] && Top(s).pc.WakeChild?
    requires SendStep(s) == Some(t)
    ensures Turn(t) && !t.aborted
  {
    assert Fresh(t);
    assert Handed(t);
  }

  lemma TurnAwait(s: State, t: State)
    requires Mirrored(s) && Turn(s) && !s.aborted && s.parent != [] && Top(s).pc.Await?
    requires SendStep(s) == Some(t)
    ensures Turn(t) && !t.aborted
  {
    if Done(s) {
      assert Done(t);
    } else {
      assert Calling(t);
    }
  }

  lemma TurnDropDepth(s: State, t: State)
    requires Mirrored(s) && Turn(s) && !s.aborted && s.parent != [] && Top(s).pc.DropDepth?
    requires SendStep(s) == Some(t)
    ensures Turn(t) && !t.aborted
  {
    assert Ending(t);
  }

  lemma TurnMarkResumed(s: State, t: State)
    requires Mirrored(s) && Turn(s) && !s.aborted && s.parent != [] && Top(s).pc.MarkResumed?
    requires SendStep(s) == Some(t)
    ensures Turn(t) && !t.aborted
  {
    assert Ending(t);
  }

  lemma TurnWakeResumed(s: State, t: State)
    requires Mirrored(s) && Turn(s) && !s.aborted && s.parent != [] && Top(s).pc.WakeResumed?
    requires SendStep(s) == Some(t)
    ensures Turn(t) && !t.aborted
  {
    assert Ending(t);
  }

  lemma TurnHandle(s: State, t: State)
    requires Mirrored(s) && Turn(s) && !s.aborted && s.parent != [] && Top(s).pc.Handle?
    requires SendStep(s) == Some(t)
    ensures Turn(t) && !t.aborted
  {
    assert Served(t);
  }

  lemma TurnRespond(s: State, t: State)
    requires Mirrored(s) && Turn(s) && !s.aborted && s.parent != [] && Top(s).pc.Respond?
    requires SendStep(s) == Some(t)
    ensures Turn(t) && !t.aborted
  {
    assert Answered(t, t.child[|t.child| - 2].pc);
  }

  lemma ReturnTurn(s: State, t: State)
    requires Mirrored(s) && Turn(s) && !s.aborted && s.parent != [] && Returning(s)
    requires |s.parent| > 1 ==> Unanswered(s, s.parent[|s.parent| - 2].pc.call)
    requires SendStep(s) == Some(t)
    ensures Mirrored(t) && Turn(t) && Done(s)
  {
    assert ParentTurn(s);
    assert Served(t);
  }

  ghost predicate Returning(s: State) {
    s.parent != [] && Top(s).pc.Woken? && s.mem.depth <= Top(s).saved
  }

  lemma ReturnInv(s: State, t: State)
    requires Inv(s) && Returning(s)
    requires SendStep(s) == Some(t)
    ensures Inv(t)
  {
    var n := |s.parent|;
    if n > 1 {
      assert CallAt(s, n - 2) == Some(s.parent[n - 2].pc.call);
    }
    ReturnTurn(s, t);
    ReturnLogged(s, t);
    ReturnCalls(s, t);
    hide Mirrored, Turn, Logged, CallsLogged;
  }

  lemma ReturnCalls(s: State, t: State)
    requires CallsLogged(s) && Returning(s) && SendStep(s) == Some(t)
    ensures CallsLogged(t)
  {
    assert forall k :: 0 <= k < |s.child| ==> CallAt(t, k) == CallAt(s, k);
    CallsFrame(s, t);
  }

  lemma ReturnLogged(s: State, t: State)
    requires Logged(s) && s.parent != [] && |s.child| == |s.parent|
    requires var f := Top(s);
      t == s.(parent := s.parent[..|s.parent| - 1], logs := s.logs.(returned := s.logs.returned + {f.id})) &&
        Log(s.logs, f.id) == Finished(Request(f.idx, f.ptr))
    ensures Logged(t)
  {
    forall i | 0 <= i < |t.child| - 1 && i < |t.parent| ensures Begun(t, t.parent[i]) {
      assert Begun(s, s.parent[i]);
    }
    forall id | id in t.logs.returned ensures Completed(t.logs, id) {
      assert id in s.logs.returned ==> Completed(s.logs, id);
    }
  }

  lemma ParentTurnInv(s: State, t: State)
    requires Mirrored(s) && Turn(s) && !s.aborted && s.parent != [] && SendStep(s) == Some(t)
    requires Top(s).pc.Woken? ==> s.mem.depth > Top(s).saved
    ensures Turn(t) && !t.aborted
  {
    hide Turn, Mirrored;
    match Top(s).pc
    case ReadDepth => TurnReadDepth(s, t);
    case StoreIndex => TurnStoreIndex(s, t);
    case StoreMessage => TurnStoreMessage(s, t);
    case AssertIdle => TurnAssertIdle(s, t);
    case MarkExecuting => TurnMarkExecuting(s, t);
    case WakeChild => TurnWakeChild(s, t);
    case Await => TurnAwait(s, t);
    case Woken => TurnWoken(s, t);
    case Handle => TurnHandle(s, t);
    case Respond(_, _) => TurnRespond(s, t);
    case DropDepth => TurnDropDepth(s, t);
    case MarkResumed => TurnMarkResumed(s, t);
    case WakeResumed => TurnWakeResumed(s, t);
  }

  lemma TurnWoken(s: State, t: State)
    requires Mirrored(s) && Turn(s) && !s.aborted && s.parent != [] && Top(s).pc.Woken?
    requires s.mem.depth > Top(s).saved
    requires SendStep(s) == Some(t)
    ensures Turn(t) && !t.aborted
  {
    assert ParentTurn(s);
    assert Calling(s);
    assert Calling(t);
  }

  lemma ParentOnlyTop(s: State, t: State)
    requires s.parent != [] && SendStep(s) == Some(t) && !Returning(s) && !s.aborted && !t.aborted
    requires if Top(s).pc.ReadDepth? then s.mem.depth == |s.parent| - 1 else Top(s).saved == |s.parent| - 1
    ensures t.parent != [] && OnlyTop(s, t, Top(t)) && Top(t).saved == |s.parent| - 1
    ensures Top(t).pc.Handling? ==>
      Top(s).pc.Handle? && s.socket.requests != [] && Top(t).pc.call == s.socket.requests[0]
    ensures !Top(s).pc.Respond? ==> t.logs == s.logs
  {
    if Launching(Top(s).pc) {
      LaunchOnlyTop(s, t);
    } else {
      ServeOnlyTop(s, t);
    }
    hide SendStep, OnlyTop;
  }

  /** The part of a send that ends with waking the child; the rest serves callbacks. */
  predicate Launching(pc: SendPc) {
    pc.ReadDepth? || pc.StoreIndex? || pc.StoreMessage? || pc.AssertIdle? || pc.MarkExecuting? ||
      pc.WakeChild? || pc.Await?
  }

  lemma LaunchOnlyTop(s: State, t: State)
    requires s.parent != [] && SendStep(s) == Some(t) && !s.aborted && !t.aborted && Launching(Top(s).pc)
    requires if Top(s).pc.ReadDepth? then s.mem.depth == |s.parent| - 1 else Top(s).saved == |s.parent| - 1
    ensures t.parent != [] && OnlyTop(s, t, Top(t)) && Top(t).saved == |s.parent| - 1
    ensures !Top(t).pc.Handling? && t.logs == s.logs
  {
    var f := Top(s);
    if f.pc.ReadDepth? {
      assert Top(t) == Send(f.id, f.idx, f.ptr, s.mem.depth, StoreIndex);
    } else {
      assert Top(t) == f.(pc := Top(t).pc);
    }
  }

  lemma ServeOnlyTop(s: State, t: State)
    requires s.parent != [] && SendStep(s) == Some(t) && !Returning(s) && !s.aborted && !t.aborted
    requires !Launching(Top(s).pc) && Top(s).saved == |s.parent| - 1
    ensures t.parent != [] && OnlyTop(s, t, Top(t)) && Top(t).saved == |s.parent| - 1
    ensures Top(t).pc.Handling? ==>
      Top(s).pc.Handle? && s.socket.requests != [] && Top(t).pc.call == s.socket.requests[0]
    ensures !Top(s).pc.Respond? ==> t.logs == s.logs
  {
    var f := Top(s);
    assert Top(t) == f.(pc := Top(t).pc);
  }

  lemma RespondCalls(s: State, t: State)
    requires Mirrored(s) && CallsLogged(s) && s.parent != [] && Top(s).pc.Respond? && Balanced(s)
    requires CallAt(s, |s.child| - 2) == Some(Top(s).pc.call)
    requires SendStep(s) == Some(t)
    ensures CallsLogged(t)
  {
    assert forall k :: 0 <= k < |s.child| ==> CallAt(t, k) == CallAt(s, k);
    forall k | 0 <= k < |t.parent| - 1 && t.parent[k].pc.Handling? ensures t.parent[k].pc.call.id !in t.logs.handled {
      assert CallAt(s, k) == Some(s.parent[k].pc.call);
    }
  }

  lemma ParentInv(s: State, t: State)
    requires Inv(s) && s.parent != [] && SendStep(s) == Some(t)
    ensures Inv(t)
  {
    if Returning(s) {
      ReturnInv(s, t);
    } else {
      assert !Top(s).pc.Await? ==> ParentTurn(s);
      ParentTurnInv(s, t);
      ParentOnlyTop(s, t);
      TopMirrored(s, t, Top(t));
      ParentLogs(s, t);
    }
  }

  lemma ParentLogs(s: State, t: State)
    requires Inv(s) && s.parent != [] && SendStep(s) == Some(t) && !Returning(s) && OnlyTop(s, t, Top(t))
    requires !Top(s).pc.Respond? ==> t.logs == s.logs
    ensures Logged(t) && CallsLogged(t)
  {
    hide SendStep, Logged, CallsLogged;
    if Top(s).pc.Respond? {
      assert ParentTurn(s);
      hide Turn, Mirrored;
      RespondCalls(s, t);
    } else {
      hide Turn, Mirrored;
      QuietCalls(s, t);
    }
    TopLogged(s, t);
  }

  lemma QuietCalls(s: State, t: State)
    requires CallsLogged(s) && t.parent != [] && OnlyTop(s, t, Top(t)) && t.logs == s.logs
    ensures CallsLogged(t)
  {
    assert forall k :: 0 <= k < |s.child| ==> CallAt(t, k) == CallAt(s, k);
    CallsFrame(s, t);
  }

  lemma TopLogged(s: State, t: State)
    requires Logged(s) && t.parent != [] && OnlyTop(s, t, Top(t))
    ensures Logged(t)
  {
    LoggedFrame(s, t);
  }
}
