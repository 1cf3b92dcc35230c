/**
 What the calls of the biased lock end with: an acquire ends holding the lock and nothing else ends it, a
 release gives it back, and an attempt fails only where it has found the lock taken.
 */
module AsymmetricCalls {
  import opened Options
  import opened AsymmetricLock

  /** In a call of `external_acquire`. */
  predicate Acquiring(e: External) {
    (e.pc.Exchange? || e.pc.Fence? || e.pc.Check?) && !e.pc.trying
  }

  /** In a call of `try_external_acquire`. */
  predicate Trying(e: External) {
    e.pc.TryLoad? || ((e.pc.Exchange? || e.pc.Fence? || e.pc.Check?) && e.pc.trying)
  }

  /** The next access of the thread finds a counter that is not zero, or a flag that is set. */
  predicate Refused(s: State, i: nat)
    requires i < |s.threads|
  {
    if s.threads[i].pc.Exchange? then s.external else s.internal != 0
  }

  /** What one step may do to a thread, and which step it has to be. */
  ghost predicate Moves(s: State, action: Action, i: nat, e: External)
    requires i < |s.threads|
  {
    match s.threads[i].pc
    case Outside =>
      if action == CallTry(i) then Trying(e) else if action == CallExternal(i) then Acquiring(e) else e.pc.Outside?
    case Inside => if action == CallExternalRelease(i) then e == External(Outside, true) else e.pc.Inside?
    case _ =>
      || (if Trying(s.threads[i]) then Trying(e) else Acquiring(e))
      || (action == ExternalStep(i) && e.pc.Inside? && s.threads[i].pc.Check? && s.internal == 0)
      || (action == ExternalStep(i) && e.pc.Outside? && Trying(s.threads[i]) && Refused(s, i))
  }

  lemma OwnMoves(fenced: bool, s: State, i: nat)
    requires i < |s.threads| && ThreadDo(fenced, s, i).Some?
    ensures var t := ThreadDo(fenced, s, i).value;
      |t.threads| == |s.threads| && Moves(s, ExternalStep(i), i, t.threads[i])
    ensures forall j :: 0 <= j < |s.threads| && j != i ==> ThreadDo(fenced, s, i).value.threads[j] == s.threads[j]
  {
  }

  /**
   One step of anybody, seen from thread `i`: a call of `external_acquire` goes on or ends inside, being
   inside ends only with `external_release`, a call of `try_external_acquire` goes on, ends inside, or
   ends outside because the thread itself has found the lock taken.
   */
  lemma ThreadCalls(fenced: bool, s: State, action: Action, i: nat)
    requires i < |s.threads| && Do(fenced, s, action).Some?
    ensures var t := Do(fenced, s, action).value; |t.threads| == |s.threads| && Moves(s, action, i, t.threads[i])
  {
    hide View, ExternalView, ThreadDo;
    if action.ExternalStep? {
      OwnMoves(fenced, s, action.thread);
    }
  }

  /** The state after the first `k` steps of a run. */
  ghost function After(fenced: bool, s: State, run: seq<Action>, k: nat): (t: State)
    requires k <= |run| && Exec(fenced, s, run).Some?
  {
    Prefix(fenced, s, run, k);
    Exec(fenced, s, run[..k]).value
  }

  lemma {:induction false} Prefix(fenced: bool, s: State, run: seq<Action>, k: nat)
    requires k <= |run| && Exec(fenced, s, run).Some?
    ensures Exec(fenced, s, run[..k]).Some?
    ensures k == |run| ==> Exec(fenced, s, run[..k]) == Exec(fenced, s, run)
    decreases |run|
  {
    hide Do;
    if k == |run| {
      assert run[..k] == run;
    } else if k > 0 {
      assert run[..k][1..] == run[1..][..k - 1];
      Prefix(fenced, Do(fenced, s, run[0]).value, run[1..], k - 1);
    }
  }

  lemma AfterFirst(fenced: bool, s: State, run: seq<Action>, k: nat)
    requires run != [] && k < |run| && Exec(fenced, s, run).Some?
    ensures After(fenced, s, run, k + 1) == After(fenced, Do(fenced, s, run[0]).value, run[1..], k)
  {
    hide Do;
    Prefix(fenced, s, run, k + 1);
    assert run[..k + 1][1..] == run[1..][..k];
  }

  /** In every run, a call of `external_acquire` is not over before the thread has been inside. */
  lemma {:induction false} AcquireEndsInside(fenced: bool, s: State, run: seq<Action>, i: nat)
    requires i < |s.threads| && Acquiring(s.threads[i]) && Exec(fenced, s, run).Some?
    ensures var t := Exec(fenced, s, run).value;
      && |t.threads| == |s.threads|
      && (Acquiring(t.threads[i]) || InsideDuring(fenced, s, run, i))
    decreases |run|
  {
    hide Do;
    RunThreads(fenced, s, run);
    if run != [] {
      var next := Do(fenced, s, run[0]).value;
      ThreadCalls(fenced, s, run[0], i);
      AfterFirst(fenced, s, run, 0);
      assert After(fenced, next, run[1..], 0) == next by { assert run[1..][..0] == []; }
      if next.threads[i].pc.Inside? {
        assert InsideAt(After(fenced, s, run, 1), i);
      } else {
        AcquireEndsInside(fenced, next, run[1..], i);
        if InsideDuring(fenced, next, run[1..], i) {
          var k :| 0 <= k <= |run[1..]| && InsideAt(After(fenced, next, run[1..], k), i);
          AfterFirst(fenced, s, run, k);
          assert InsideAt(After(fenced, s, run, k + 1), i);
        }
      }
    }
  }

  ghost predicate InsideAt(s: State, i: nat) {
    i < |s.threads| && s.threads[i].pc.Inside?
  }

  /** At some point of the run the thread is inside. */
  ghost predicate InsideDuring(fenced: bool, s: State, run: seq<Action>, i: nat)
    requires Exec(fenced, s, run).Some?
  {
    exists k :: 0 <= k <= |run| && InsideAt(After(fenced, s, run, k), i)
  }

  lemma {:induction false} RunThreads(fenced: bool, s: State, run: seq<Action>)
    requires Exec(fenced, s, run).Some?
    ensures |Exec(fenced, s, run).value.threads| == |s.threads|
    decreases |run|
  {
    if run != [] {
      SameThreads(fenced, s, run[0]);
      hide Do;
      RunThreads(fenced, Do(fenced, s, run[0]).value, run[1..]);
    }
  }

  lemma SameThreads(fenced: bool, s: State, action: Action)
    requires Do(fenced, s, action).Some?
    ensures |Do(fenced, s, action).value.threads| == |s.threads|
  {
  }

  ghost predicate RefusedAt(s: State, i: nat) {
    i < |s.threads| && Trying(s.threads[i]) && Refused(s, i)
  }

  /** At some point of the run the thread, in its attempt, is about to find the lock taken. */
  ghost predicate RefusedDuring(fenced: bool, s: State, run: seq<Action>, i: nat)
    requires Exec(fenced, s, run).Some?
  {
    exists k :: 0 <= k <= |run| && RefusedAt(After(fenced, s, run, k), i)
  }

  /** In every run, an attempt is over only when the thread has been inside or has found the lock taken. */
  lemma {:induction false} TryEndsForAReason(fenced: bool, s: State, run: seq<Action>, i: nat)
    requires i < |s.threads| && Trying(s.threads[i]) && Exec(fenced, s, run).Some?
    ensures var t := Exec(fenced, s, run).value;
      && |t.threads| == |s.threads|
      && (Trying(t.threads[i]) || InsideDuring(fenced, s, run, i) || RefusedDuring(fenced, s, run, i))
    decreases |run|
  {
    hide Do;
    RunThreads(fenced, s, run);
    if run != [] {
      var next := Do(fenced, s, run[0]).value;
      ThreadCalls(fenced, s, run[0], i);
      AfterFirst(fenced, s, run, 0);
      assert After(fenced, s, run, 0) == s by { assert run[..0] == []; }
      assert After(fenced, next, run[1..], 0) == next by { assert run[1..][..0] == []; }
      if next.threads[i].pc.Inside? {
        assert InsideAt(After(fenced, s, run, 1), i);
      } else if !Trying(next.threads[i]) {
        assert RefusedAt(After(fenced, s, run, 0), i);
      } else {
        TryEndsForAReason(fenced, next, run[1..], i);
        if k :| 0 <= k <= |run[1..]| && InsideAt(After(fenced, next, run[1..], k), i) {
          AfterFirst(fenced, s, run, k);
          assert InsideAt(After(fenced, s, run, k + 1), i);
        }
        if k :| 0 <= k <= |run[1..]| && RefusedAt(After(fenced, next, run[1..], k), i) {
          AfterFirst(fenced, s, run, k);
          assert RefusedAt(After(fenced, s, run, k + 1), i);
        }
      }
    }
  }

  /** Alone on a free lock, an attempt succeeds. */
  lemma TryAloneSucceeds(s: State, i: nat)
    requires i < |s.threads| && s.threads[i] == External(Outside, false)
    requires s.internal == 0 && !s.external && s.buffer == []
    ensures Exec(true, s, [CallTry(i), ExternalStep(i), ExternalStep(i), ExternalStep(i), ExternalStep(i)]) ==
      Some(SetThread(s, i, External(Inside, false)).(external := true))
  {
    var step := ExternalStep(i);
    var s1 := SetThread(s, i, External(TryLoad, false));
    var s2 := SetThread(s, i, External(Exchange(true), false));
    SetTwice(s.threads, i, External(TryLoad, false), External(Exchange(true), false));
    assert Do(true, s, CallTry(i)) == Some(s1) && Do(true, s1, step) == Some(s2);
    TakesFree(s, i, true);
    hide Do;
    var rest := [step, step, step];
    assert [CallTry(i), step, step, step, step][1..] == [step, step, step, step];
    assert [step, step, step, step][1..] == rest;
    assert Exec(true, s1, [step] + rest) == Exec(true, s2, rest);
  }

  /** Alone on a free lock, an acquire succeeds without waiting. */
  lemma AcquireAloneSucceeds(s: State, i: nat)
    requires i < |s.threads| && s.threads[i] == External(Outside, false)
    requires s.internal == 0 && !s.external && s.buffer == []
    ensures Exec(true, s, [CallExternal(i), ExternalStep(i), ExternalStep(i), ExternalStep(i)]) ==
      Some(SetThread(s, i, External(Inside, false)).(external := true))
  {
    var s1 := SetThread(s, i, External(Exchange(false), false));
    assert Do(true, s, CallExternal(i)) == Some(s1);
    TakesFree(s, i, false);
    hide Do;
    var step := ExternalStep(i);
    assert [CallExternal(i), step, step, step][1..] == [step, step, step];
  }

  lemma SetTwice(threads: seq<External>, i: nat, e: External, f: External)
    requires i < |threads|
    ensures threads[i := e][i := f] == threads[i := f]
  {
  }

  lemma TakesFree(s: State, i: nat, trying: bool)
    requires i < |s.threads| && s.internal == 0 && !s.external && s.buffer == []
    ensures Exec(true, SetThread(s, i, External(Exchange(trying), false)),
                 [ExternalStep(i), ExternalStep(i), ExternalStep(i)]) ==
      Some(SetThread(s, i, External(Inside, false)).(external := true))
  {
    var step := ExternalStep(i);
    var s0 := SetThread(s, i, External(Exchange(trying), false));
    var s1 := SetThread(s, i, External(Fence(trying), false)).(external := true);
    var s2 := SetThread(s, i, External(Check(trying), false)).(external := true);
    var s3 := SetThread(s, i, External(Inside, false)).(external := true);
    SetTwice(s.threads, i, s0.threads[i], s1.threads[i]);
    SetTwice(s.threads, i, s1.threads[i], s2.threads[i]);
    SetTwice(s.threads, i, s2.threads[i], s3.threads[i]);
    assert Do(true, s0, step) == Some(s1);
    assert Do(true, s1, step) == Some(s2);
    assert Do(true, s2, step) == Some(s3);
    hide Do;
    assert [step, step, step][1..] == [step, step] && [step, step][1..] == [step] && [step][1..] == [];
    assert Exec(true, s3, []) == Some(s3);
    assert Exec(true, s2, [step]) == Some(s3);
    assert Exec(true, s1, [step, step]) == Some(s3);
  }

  // ----- waiting ends -----

  lemma {:induction false} StaysInCall(s: State, run: seq<Action>, i: nat)
    requires i < |s.threads| && (Acquiring(s.threads[i]) || s.threads[i].pc.Inside?)
    requires Exec(true, s, run).Some? && forall k :: 0 <= k < |run| ==> Finishing(run[k])
    ensures var t := Exec(true, s, run).value;
      |t.threads| == |s.threads| && (Acquiring(t.threads[i]) || t.threads[i].pc.Inside?)
    decreases |run|
  {
    hide Do;
    if run != [] {
      ThreadCalls(true, s, run[0], i);
      StaysInCall(Do(true, s, run[0]).value, run[1..], i);
    }
  }

  /**
   However the threads are scheduled: when no step that finishes work changes anything any more, a thread
   that was in `external_acquire` is inside, or somebody else is.
   */
  lemma WaitsOnlyForAHolder(n: nat, s: State, run: seq<Action>, i: nat)
    requires Reachable(true, n, s) && i < |s.threads| && Acquiring(s.threads[i]) && Exec(true, s, run).Some?
    requires forall k :: 0 <= k < |run| ==> Finishing(run[k])
    requires var t := Exec(true, s, run).value;
      forall action :: Finishing(action) && Do(true, t, action).Some? ==> Do(true, t, action).value == t
    ensures var t := Exec(true, s, run).value;
      || InsideAt(t, i) || t.nest > 0 || exists j :: 0 <= j < |t.threads| && t.threads[j].pc.Inside?
  {
    hide Do;
    var t := Exec(true, s, run).value;
    StaysInCall(s, run, i);
    var before: seq<Action> :| Exec(true, Initial(n), before) == Some(s);
    Chained(Initial(n), before, run);
    assert Exec(true, Initial(n), before + run) == Some(t);
    assert Reachable(true, n, t);
    RestsOnlyWhenDone(n, t);
  }

  lemma {:induction false} Chained(s: State, a: seq<Action>, b: seq<Action>)
    requires Exec(true, s, a).Some?
    ensures Exec(true, s, a + b) == Exec(true, Exec(true, s, a).value, b)
    decreases |a|
  {
    hide Do;
    if a == [] {
      assert a + b == b;
    } else {
      assert (a + b)[1..] == a[1..] + b;
      Chained(Do(true, s, a[0]).value, a[1..], b);
    }
  }

  // ----- the owner -----

  /** In a call of `internal_acquire`. */
  predicate Entering(pc: OwnerPc) {
    !pc.Ready? && !pc.ReleaseStore?
  }

  /** One step of anybody, seen from the owner: an acquire ends one deeper, and a release one less deep. */
  lemma OwnerCalls(s: State, action: Action)
    requires Inv(s) && Do(true, s, action).Some?
    ensures var t := Do(true, s, action).value;
      match s.pc
      case Ready =>
        && t.nest == s.nest
        && (if action == CallAcquire then Entering(t.pc) else if action == CallRelease then t.pc.ReleaseStore?
            else t.pc.Ready?)
      case ReleaseStore(_) => if t.pc.Ready? then t.nest == s.nest - 1 else t.pc == s.pc && t.nest == s.nest
      case _ => if t.pc.Ready? then t.nest == s.nest + 1 else Entering(t.pc) && t.nest == s.nest
  {
    hide ExternalOwned, Guarded, ThreadDo;
    assert CountTracks(s);
    if action.ExternalStep? {
      OwnerWaits(s, action.thread);
    }
  }

  lemma OwnerWaits(s: State, i: nat)
    requires i < |s.threads| && ThreadDo(true, s, i).Some?
    ensures var t := ThreadDo(true, s, i).value; t.pc == s.pc && t.nest == s.nest
  {
  }

  /** In every run, a call of the owner is not over before its depth has changed as it should. */
  lemma {:induction false} OwnerEndsDeeper(s: State, run: seq<Action>)
    requires Inv(s) && !s.pc.Ready? && Exec(true, s, run).Some?
    ensures var t := Exec(true, s, run).value;
      || (!t.pc.Ready? && Entering(t.pc) == Entering(s.pc) && t.nest == s.nest)
      || ReadyDuring(s, run, if Entering(s.pc) then s.nest + 1 else s.nest - 1)
    decreases |run|
  {
    hide Do, Inv;
    if run != [] {
      var next := Do(true, s, run[0]).value;
      OwnerCalls(s, run[0]);
      StepInv(s, run[0]);
      AfterFirst(true, s, run, 0);
      assert After(true, next, run[1..], 0) == next by { assert run[1..][..0] == []; }
      var depth := if Entering(s.pc) then s.nest + 1 else s.nest - 1;
      if next.pc.Ready? {
        assert ReadyAt(After(true, s, run, 1), depth);
      } else {
        OwnerEndsDeeper(next, run[1..]);
        if k :| 0 <= k <= |run[1..]| && ReadyAt(After(true, next, run[1..], k), depth) {
          AfterFirst(true, s, run, k);
          assert ReadyAt(After(true, s, run, k + 1), depth);
        }
      }
    }
  }

  ghost predicate ReadyAt(s: State, depth: int) {
    s.pc.Ready? && s.nest == depth
  }

  ghost predicate ReadyDuring(s: State, run: seq<Action>, depth: int)
    requires Exec(true, s, run).Some?
  {
    exists k :: 0 <= k <= |run| && ReadyAt(After(true, s, run, k), depth)
  }
}
