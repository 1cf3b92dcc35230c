/**
 The biased lock of the runtime, over a total-store-order memory.

 One thread owns the lock and takes it with plain loads and stores; any number of other
 threads take it with an atomic exchange followed by a process-wide barrier.  Every thread's
 plain stores go through its own FIFO store buffer.  The owner's buffer is kept whole; an
 external thread only ever stores `external_lock = false`, so its buffer is one pending flag.
 Atomic exchanges drain the buffer of the thread that issues them and act on memory.
 */
module AsymmetricLock {
  import opened Options

  /** The counter is a `uint64_t`. */
  const WORD: nat := 0x1_0000_0000_0000_0000

  /** A store of the owner on its way to memory; `StoreData` is a write made in the critical section. */
  datatype Store =
    | StoreInternal(count: nat)
    | StoreExternal(flag: bool)
    | StoreData

  /** Where the owner is: between calls, or about to perform the named access. */
  datatype OwnerPc =
    | Ready
    | AcquireStore(count: nat)
    | AcquireCheck(count: nat)
    | RareLoad
    | RareStore(count: nat)
    | RareExchange
    | RareSetInternal
    | RareFreeExternal
    | ReleaseStore(count: nat)

  /** Where an external thread is; `trying` tells `try_external_acquire` from `external_acquire`. */
  datatype ExternalPc =
    | Outside
    | TryLoad
    | Exchange(trying: bool)
    | Fence(trying: bool)
    | Check(trying: bool)
    | Inside

  /** `releasing` is true while the store made by `external_release` is still buffered. */
  datatype External = External(pc: ExternalPc, releasing: bool)

  datatype State = State(
    internal: nat,
    external: bool,
    buffer: seq<Store>,
    pc: OwnerPc,
    nest: nat,
    threads: seq<External>)

  datatype Action =
    | Drain
    | CallAcquire
    | CallRelease
    | Write
    | OwnerStep
    | CallTry(thread: nat)
    | CallExternal(thread: nat)
    | CallExternalRelease(thread: nat)
    | ExternalStep(thread: nat)
    | ExternalDrain(thread: nat)

  function Initial(threads: nat): State {
    State(0, false, [], Ready, 0, seq(threads, _ => External(Outside, false)))
  }

  /** What the owner reads from `internal_lock`: its own latest buffered store, else memory. */
  function View(internal: nat, buffer: seq<Store>): nat {
    if buffer == [] then internal
    else if buffer[|buffer| - 1].StoreInternal? then buffer[|buffer| - 1].count
    else View(internal, buffer[..|buffer| - 1])
  }

  /** What the owner reads from `external_lock`. */
  function ExternalView(external: bool, buffer: seq<Store>): bool {
    if buffer == [] then external
    else if buffer[|buffer| - 1].StoreExternal? then buffer[|buffer| - 1].flag
    else ExternalView(external, buffer[..|buffer| - 1])
  }

  /** The oldest buffered store of the owner reaches memory. */
  function DrainOne(s: State): State
    requires s.buffer != []
  {
    var rest := s.(buffer := s.buffer[1..]);
    match s.buffer[0]
    case StoreInternal(count) => rest.(internal := count)
    case StoreExternal(flag) => rest.(external := flag)
    case StoreData => rest
  }

  function DrainAll(s: State): (t: State)
    ensures t.threads == s.threads && t.pc == s.pc && t.nest == s.nest && t.buffer == []
    decreases |s.buffer|
  {
    if s.buffer == [] then s else DrainAll(DrainOne(s))
  }

  function Push(s: State, store: Store): State {
    s.(buffer := s.buffer + [store])
  }

  /** The next access of a call the owner is in. */
  function OwnerDo(s: State): Option<State> {
    match s.pc
    case Ready => None
    case AcquireStore(count) =>
      Some(Push(s, StoreInternal((count + 1) % WORD)).(pc := AcquireCheck(count)))
    case AcquireCheck(count) =>
      if ExternalView(s.external, s.buffer) && count == 0 then Some(s.(pc := RareLoad))
      else Some(s.(pc := Ready, nest := s.nest + 1))
    case RareLoad => Some(s.(pc := RareStore(View(s.internal, s.buffer))))
    case RareStore(count) => Some(Push(s, StoreInternal((count + WORD - 1) % WORD)).(pc := RareExchange))
    case RareExchange =>
      var m := DrainAll(s);
      Some(m.(external := true, pc := if m.external then RareExchange else RareSetInternal))
    case RareSetInternal => Some(Push(s, StoreInternal(1)).(pc := RareFreeExternal))
    case RareFreeExternal => Some(Push(s, StoreExternal(false)).(pc := Ready, nest := s.nest + 1))
    case ReleaseStore(count) =>
      Some(Push(s, StoreInternal((count + WORD - 1) % WORD)).(pc := Ready, nest := if s.nest == 0 then 0
        else s.nest - 1))
  }

  function SetThread(s: State, i: nat, e: External): State
    requires i < |s.threads|
  {
    s.(threads := s.threads[i := e])
  }

  /**
   The next access of a call that external thread `i` is in.  `fenced` says whether
   `Barrier::memory` drains the owner's buffer, as it does, or is left out.
   */
  function ThreadDo(fenced: bool, s: State, i: nat): Option<State>
    requires i < |s.threads|
  {
    var e := s.threads[i];
    match e.pc
    case Outside => None
    case TryLoad =>
      Some(SetThread(s, i, e.(pc := if s.internal != 0 then Outside else Exchange(true))))
    case Exchange(trying) =>
      // The exchange drains the thread's own buffer first.
      if e.releasing then None
      else if s.external then Some(SetThread(s, i, e.(pc := if trying then Outside else e.pc)))
      else Some(SetThread(s, i, e.(pc := Fence(trying))).(external := true))
    case Fence(trying) =>
      Some(SetThread(if fenced then DrainAll(s) else s, i, e.(pc := Check(trying))))
    case Check(trying) =>
      if s.internal == 0 then Some(SetThread(s, i, e.(pc := Inside)))
      else if trying then Some(SetThread(s, i, External(Outside, true)))
      else Some(s)
    case Inside => None
  }

  /** One step of the machine, or `None` where the step is not possible. */
  function Do(fenced: bool, s: State, action: Action): Option<State> {
    match action
    case Drain => if s.buffer == [] then None else Some(DrainOne(s))
    // The owner never nests deeper than the counter can count.
    case CallAcquire =>
      if s.pc.Ready? && s.nest + 1 < WORD then Some(s.(pc := AcquireStore(View(s.internal, s.buffer)))) else None
    case CallRelease =>
      if s.pc.Ready? && s.nest > 0 then Some(s.(pc := ReleaseStore(View(s.internal, s.buffer)))) else None
    case Write => if s.pc.Ready? && s.nest > 0 then Some(Push(s, StoreData)) else None
    case OwnerStep => OwnerDo(s)
    case CallTry(i) =>
      if i < |s.threads| && s.threads[i].pc.Outside? then Some(SetThread(s, i, s.threads[i].(pc := TryLoad))) else None
    case CallExternal(i) =>
      if i < |s.threads| && s.threads[i].pc.Outside?
        then Some(SetThread(s, i, s.threads[i].(pc := Exchange(false)))) else None
    case CallExternalRelease(i) =>
      if i < |s.threads| && s.threads[i].pc.Inside? then Some(SetThread(s, i, External(Outside, true))) else None
    case ExternalStep(i) => if i < |s.threads| then ThreadDo(fenced, s, i) else None
    case ExternalDrain(i) =>
      if i < |s.threads| && s.threads[i].releasing
      then Some(SetThread(s, i, s.threads[i].(releasing := false)).(external := false)) else None
  }

  function Exec(fenced: bool, s: State, run: seq<Action>): Option<State>
    decreases |run|
  {
    if run == [] then Some(s)
    else
      match Do(fenced, s, run[0])
      case None => None
      case Some(next) => Exec(fenced, next, run[1..])
  }

  /** Some run of the machine over `n` external threads ends in `s`. */
  ghost predicate Reachable(fenced: bool, n: nat, s: State) {
    exists run: seq<Action> :: Exec(fenced, Initial(n), run) == Some(s)
  }

  /**
   What the lock is for: the owner and an external thread are never both inside, nor two
   external threads, and no write the owner made inside is still on its way to memory while
   an external thread is inside.
   */
  ghost predicate Exclusive(s: State) {
    && (forall i :: 0 <= i < |s.threads| && s.threads[i].pc.Inside? ==> s.nest == 0 && StoreData !in s.buffer)
    && (forall i, j :: 0 <= i < j < |s.threads| ==> !(s.threads[i].pc.Inside? && s.threads[j].pc.Inside?))
  }

  // ----- the invariant -----

  /** The thread is answerable for `external_lock` being set. */
  ghost predicate Holds(e: External) {
    e.pc.Fence? || e.pc.Check? || e.pc.Inside? || e.releasing
  }

  /** The owner's slow path has won the exchange and not yet given the flag back. */
  ghost predicate InRareExclusion(pc: OwnerPc) {
    pc.RareSetInternal? || pc.RareFreeExternal?
  }

  ghost predicate OwnerHolds(s: State) {
    || InRareExclusion(s.pc)
    || exists k :: 0 <= k < |s.buffer| && s.buffer[k].StoreExternal?
  }

  /** `external_lock` has exactly one holder when set and none when clear. */
  ghost predicate ExternalOwned(s: State) {
    && (forall i, j :: 0 <= i < j < |s.threads| ==> !(Holds(s.threads[i]) && Holds(s.threads[j])))
    && (forall i :: 0 <= i < |s.threads| && Holds(s.threads[i]) ==> s.external && !OwnerHolds(s))
    && (forall i :: 0 <= i < |s.threads| && s.threads[i].releasing ==>
          s.threads[i].pc.Outside? || s.threads[i].pc.TryLoad? || s.threads[i].pc.Exchange?)
    && (OwnerHolds(s) ==> s.external)
    && (s.external ==> OwnerHolds(s) || exists i :: 0 <= i < |s.threads| && Holds(s.threads[i]))
    && (forall k :: 0 <= k < |s.buffer| && s.buffer[k].StoreExternal? ==>
          !s.buffer[k].flag && !InRareExclusion(s.pc))
    && (forall j, k :: 0 <= j < k < |s.buffer| ==> !(s.buffer[j].StoreExternal? && s.buffer[k].StoreExternal?))
  }

  /** The owner's view of the counter against its nesting depth, at every point of its calls. */
  ghost predicate CountTracks(s: State) {
    var v := View(s.internal, s.buffer);
    && s.nest < WORD
    && match s.pc
       case Ready => v == s.nest
       case AcquireStore(count) => v == s.nest == count && s.nest + 1 < WORD
       case AcquireCheck(count) => count == s.nest && v == s.nest + 1 && v < WORD
       case RareLoad => s.nest == 0 && v == 1
       case RareStore(count) => s.nest == 0 && v == 1 && count == 1
       case RareExchange => s.nest == 0 && v == 0
       case RareSetInternal => s.nest == 0 && v == 0
       case RareFreeExternal => s.nest == 0 && v == 1
       case ReleaseStore(count) => v == s.nest == count && s.nest > 0
  }

  /** Position `k` of the buffer carries critical work: a write, or the owner being inside now. */
  ghost predicate Critical(s: State, k: int) {
    || (k == |s.buffer| && s.nest > 0)
    || (0 <= k < |s.buffer| && s.buffer[k].StoreData?)
  }

  /** Memory shows the counter as taken until all critical work has reached it. */
  ghost predicate Announced(s: State) {
    forall k :: 0 <= k <= |s.buffer| && Critical(s, k) ==>
      && s.internal > 0
      && forall m :: 0 <= m < k && s.buffer[m].StoreInternal? ==> s.buffer[m].count > 0
  }

  ghost predicate Guarded(s: State) {
    && (forall i :: 0 <= i < |s.threads| && s.threads[i].pc.Check? ==> Announced(s))
    && (forall i :: 0 <= i < |s.threads| && s.threads[i].pc.Inside? ==> s.nest == 0 && StoreData !in s.buffer)
  }

  ghost predicate Inv(s: State) {
    ExternalOwned(s) && CountTracks(s) && Guarded(s)
  }

  // ----- proofs -----

  lemma ViewPush(internal: nat, buffer: seq<Store>, store: Store)
    ensures View(internal, buffer + [store]) ==
            if store.StoreInternal? then store.count else View(internal, buffer)
    ensures ExternalView(true, buffer + [store]) ==
            if store.StoreExternal? then store.flag else ExternalView(true, buffer)
  {
    assert (buffer + [store])[..|buffer|] == buffer;
  }

  lemma {:induction false} ViewDrop(internal: nat, buffer: seq<Store>)
    requires buffer != []
    ensures View(internal, buffer) ==
            View(if buffer[0].StoreInternal? then buffer[0].count else internal, buffer[1..])
    decreases |buffer|
  {
    if |buffer| > 1 {
      var front := buffer[..|buffer| - 1];
      assert buffer[1..][..|buffer| - 2] == front[1..];
      ViewDrop(internal, front);
    }
  }

  /** With no `external_lock` store buffered, the owner reads that flag from memory. */
  lemma {:induction false} ExternalViewOfMemory(external: bool, buffer: seq<Store>)
    requires forall k :: 0 <= k < |buffer| ==> !buffer[k].StoreExternal?
    ensures ExternalView(external, buffer) == external
    decreases |buffer|
  {
    if buffer != [] {
      ExternalViewOfMemory(external, buffer[..|buffer| - 1]);
    }
  }

  lemma DrainOneInv(s: State)
    requires Inv(s) && s.buffer != []
    ensures Inv(DrainOne(s))
  {
    var t := DrainOne(s);
    ViewDrop(s.internal, s.buffer);
    DrainOneOwned(s);
    if exists i :: 0 <= i < |s.threads| && s.threads[i].pc.Check? {
      forall k | 0 <= k <= |t.buffer| && Critical(t, k)
        ensures t.internal > 0 && forall m :: 0 <= m < k && t.buffer[m].StoreInternal? ==> t.buffer[m].count > 0
      {
        assert Critical(s, k + 1);
        assert forall m :: 0 <= m < |t.buffer| ==> t.buffer[m] == s.buffer[m + 1];
      }
    }
  }

  lemma DrainOneOwned(s: State)
    requires ExternalOwned(s) && s.buffer != []
    ensures ExternalOwned(DrainOne(s))
  {
    var t := DrainOne(s);
    assert forall k :: 0 <= k < |t.buffer| ==> t.buffer[k] == s.buffer[k + 1];
    if s.buffer[0].StoreExternal? {
      assert OwnerHolds(s);
      assert !OwnerHolds(t);
    } else if OwnerHolds(s) && !InRareExclusion(s.pc) {
      var k :| 0 <= k < |s.buffer| && s.buffer[k].StoreExternal?;
      assert t.buffer[k - 1].StoreExternal?;
    }
  }

  lemma {:induction false} DrainAllInv(s: State)
    requires Inv(s)
    ensures Inv(DrainAll(s))
    decreases |s.buffer|
  {
    if s.buffer != [] {
      DrainOneInv(s);
      DrainAllInv(DrainOne(s));
    }
  }

  /** Pushing a counter value keeps `Announced` when the owner stays inside only with a positive one. */
  lemma PushAnnounced(s: State, store: Store, nest: nat, pc: OwnerPc)
    requires Announced(s)
    requires store.StoreInternal? ==> nest <= s.nest
    requires store.StoreInternal? && nest > 0 ==> store.count > 0
    requires !store.StoreInternal? ==> nest == s.nest && (store.StoreData? ==> s.nest > 0)
    ensures Announced(Push(s, store).(nest := nest, pc := pc))
  {
    var t := Push(s, store).(nest := nest, pc := pc);
    forall k | 0 <= k <= |t.buffer| && Critical(t, k)
      ensures t.internal > 0 && forall m :: 0 <= m < k && t.buffer[m].StoreInternal? ==> t.buffer[m].count > 0
    {
      if k < |s.buffer| {
        assert Critical(s, k);
      } else {
        assert Critical(s, |s.buffer|);
      }
    }
  }

  lemma PushInternalInv(s: State, count: nat, nest: nat, pc: OwnerPc)
    requires Inv(s) && InRareExclusion(pc) == InRareExclusion(s.pc)
    requires nest <= s.nest && (nest > 0 ==> count > 0)
    requires CountTracks(State(count, s.external, [], pc, nest, s.threads))
    ensures Inv(Push(s, StoreInternal(count)).(nest := nest, pc := pc))
  {
    var t := Push(s, StoreInternal(count)).(nest := nest, pc := pc);
    ViewPush(s.internal, s.buffer, StoreInternal(count));
    assert forall k :: 0 <= k < |s.buffer| ==> t.buffer[k] == s.buffer[k];
    assert OwnerHolds(t) == OwnerHolds(s);
    if Announced(s) { PushAnnounced(s, StoreInternal(count), nest, pc); }
  }

  lemma OwnerInv(s: State)
    requires Inv(s) && OwnerDo(s).Some?
    ensures Inv(OwnerDo(s).value)
  {
    hide Inv;
    if s.pc.AcquireStore? || s.pc.AcquireCheck? || s.pc.ReleaseStore? {
      FastInv(s);
    } else {
      RareInv(s);
    }
  }

  /** The fast path of the owner's calls. */
  lemma FastInv(s: State)
    requires Inv(s) && (s.pc.AcquireStore? || s.pc.AcquireCheck? || s.pc.ReleaseStore?)
    ensures Inv(OwnerDo(s).value)
  {
    hide Guarded, ExternalOwned;
    assert CountTracks(s);
    var t := OwnerDo(s).value;
    match s.pc
    case AcquireStore(count) =>
      assert t == Push(s, StoreInternal(count + 1)).(nest := s.nest, pc := AcquireCheck(count));
      PushInternalInv(s, count + 1, s.nest, AcquireCheck(count));
    case AcquireCheck(count) => CheckInv(s);
    case ReleaseStore(count) =>
      assert t == Push(s, StoreInternal(count - 1)).(nest := s.nest - 1, pc := Ready);
      PushInternalInv(s, count - 1, s.nest - 1, Ready);
  }

  /** The path on which the owner found the external flag set. */
  lemma RareInv(s: State)
    requires Inv(s) && !s.pc.AcquireStore? && !s.pc.AcquireCheck? && !s.pc.ReleaseStore? && !s.pc.Ready?
    ensures Inv(OwnerDo(s).value)
  {
    assert CountTracks(s);
    var t := OwnerDo(s).value;
    match s.pc
    case RareLoad => CallInv(s, t);
    case RareStore(count) =>
      assert t == Push(s, StoreInternal(0)).(nest := 0, pc := RareExchange);
      PushInternalInv(s, 0, 0, RareExchange);
    case RareExchange => ExchangeInv(s);
    case RareSetInternal =>
      assert t == Push(s, StoreInternal(1)).(nest := 0, pc := RareFreeExternal);
      PushInternalInv(s, 1, 0, RareFreeExternal);
    case RareFreeExternal => FreeInv(s);
  }

  lemma SameBuffer(s: State, t: State)
    requires t.buffer == s.buffer && t.internal == s.internal && (t.nest > 0 ==> s.nest > 0) && Announced(s)
    ensures Announced(t)
  {
    forall k | 0 <= k <= |t.buffer| && Critical(t, k)
      ensures t.internal > 0 && forall m :: 0 <= m < k && t.buffer[m].StoreInternal? ==> t.buffer[m].count > 0
    {
      assert Critical(s, k);
    }
  }

  /** An owner that finds `external_lock` clear finds it with no holder. */
  lemma CheckInv(s: State)
    requires Inv(s) && s.pc.AcquireCheck?
    ensures Inv(OwnerDo(s).value)
  {
    var t := OwnerDo(s).value;
    if i :| 0 <= i < |s.threads| && Holds(s.threads[i]) {
      ExternalViewOfMemory(s.external, s.buffer);
      if Announced(s) { SameBuffer(s, t); }
    }
    assert OwnerHolds(t) == OwnerHolds(s);
  }

  lemma ExchangeInv(s: State)
    requires Inv(s) && s.pc.RareExchange?
    ensures Inv(OwnerDo(s).value)
  {
    DrainAllInv(s);
    var m := DrainAll(s);
    var t := OwnerDo(s).value;
    if m.external {
      assert t == m;
    } else {
      assert forall i :: 0 <= i < |m.threads| ==> !Holds(m.threads[i]);
    }
  }

  lemma FreeInv(s: State)
    requires Inv(s) && s.pc.RareFreeExternal?
    ensures Inv(OwnerDo(s).value)
  {
    var t := OwnerDo(s).value;
    ViewPush(s.internal, s.buffer, StoreExternal(false));
    assert t.buffer[|s.buffer|].StoreExternal?;
    assert forall k :: 0 <= k < |s.buffer| ==> t.buffer[k] == s.buffer[k];
    assert forall i :: 0 <= i < |s.threads| ==> !Holds(s.threads[i]);
  }

  /** Replacing one thread by another that holds no more than it did. */
  lemma ThreadUpdate(s: State, i: nat, e: External)
    requires Inv(s) && i < |s.threads|
    requires Holds(e) == Holds(s.threads[i])
    requires e.releasing ==> e.pc.Outside? || e.pc.TryLoad? || e.pc.Exchange?
    requires e.pc.Check? ==> s.threads[i].pc.Check? || Announced(s)
    requires e.pc.Inside? ==> s.nest == 0 && StoreData !in s.buffer
    ensures Inv(SetThread(s, i, e))
  {
    var t := SetThread(s, i, e);
    assert forall j :: 0 <= j < |t.threads| ==> t.threads[j] == if j == i then e else s.threads[j];
    assert OwnerHolds(t) == OwnerHolds(s);
    if s.external && !OwnerHolds(s) {
      var j :| 0 <= j < |s.threads| && Holds(s.threads[j]);
      assert Holds(t.threads[j]);
    }
    if Announced(s) { SameBuffer(s, t); }
  }

  /** A thread becomes the one holder of a free lock. */
  lemma ThreadTakes(s: State, i: nat, trying: bool)
    requires Inv(s) && i < |s.threads| && !s.external && s.threads[i].pc.Exchange?
    ensures Inv(SetThread(s, i, s.threads[i].(pc := Fence(trying))).(external := true))
  {
    var t := SetThread(s, i, s.threads[i].(pc := Fence(trying))).(external := true);
    assert forall j :: 0 <= j < |s.threads| ==> !Holds(s.threads[j]);
    assert OwnerHolds(t) == OwnerHolds(s);
    assert Holds(t.threads[i]);
  }

  /** The buffered release of a thread reaches memory. */
  lemma ThreadReleases(s: State, i: nat)
    requires Inv(s) && i < |s.threads| && s.threads[i].releasing
    ensures Inv(SetThread(s, i, s.threads[i].(releasing := false)).(external := false))
  {
    var t := SetThread(s, i, s.threads[i].(releasing := false)).(external := false);
    assert Holds(s.threads[i]);
    assert forall j :: 0 <= j < |s.threads| && j != i ==> !Holds(s.threads[j]);
    assert OwnerHolds(t) == OwnerHolds(s);
    assert forall j :: 0 <= j < |t.threads| ==> !Holds(t.threads[j]);
  }

  lemma ThreadInv(s: State, i: nat)
    requires Inv(s) && i < |s.threads| && ThreadDo(true, s, i).Some?
    ensures Inv(ThreadDo(true, s, i).value)
  {
    var e := s.threads[i];
    match e.pc
    case TryLoad => ThreadUpdate(s, i, e.(pc := if s.internal != 0 then Outside else Exchange(true)));
    case Exchange(trying) =>
      if s.external { ThreadUpdate(s, i, e.(pc := if trying then Outside else e.pc)); }
        else { ThreadTakes(s, i, trying); }
    case Fence(trying) =>
      DrainAllInv(s);
      var m := DrainAll(s);
      ThreadUpdate(m, i, e.(pc := Check(trying)));
    case Check(trying) =>
      if s.internal == 0 {
        assert !Critical(s, |s.buffer|);
        forall k | 0 <= k < |s.buffer| ensures s.buffer[k] != StoreData {
          assert !Critical(s, k);
        }
        ThreadUpdate(s, i, e.(pc := Inside));
      } else if trying {
        ThreadUpdate(s, i, External(Outside, true));
      }
  }

  lemma StepInv(s: State, action: Action)
    requires Inv(s) && Do(true, s, action).Some?
    ensures Inv(Do(true, s, action).value)
  {
    var t := Do(true, s, action).value;
    match action
    case Drain => DrainOneInv(s);
    case CallAcquire => CallInv(s, t);
    case CallRelease => CallInv(s, t);
    case Write => WriteInv(s);
    case OwnerStep => OwnerInv(s);
    case CallTry(i) => ThreadUpdate(s, i, s.threads[i].(pc := TryLoad));
    case CallExternal(i) => ThreadUpdate(s, i, s.threads[i].(pc := Exchange(false)));
    case CallExternalRelease(i) => ThreadUpdate(s, i, External(Outside, true));
    case ExternalStep(i) => ThreadInv(s, i);
    case ExternalDrain(i) => ThreadReleases(s, i);
  }

  lemma CallInv(s: State, t: State)
    requires Inv(s) && t == s.(pc := t.pc) && CountTracks(t)
    requires !InRareExclusion(s.pc) && !InRareExclusion(t.pc)
    ensures Inv(t)
  {
    assert OwnerHolds(t) == OwnerHolds(s);
    if Announced(s) { SameBuffer(s, t); }
  }

  lemma WriteInv(s: State)
    requires Inv(s) && s.pc.Ready? && s.nest > 0
    ensures Inv(Push(s, StoreData))
  {
    var t := Push(s, StoreData);
    ViewPush(s.internal, s.buffer, StoreData);
    assert forall k :: 0 <= k < |s.buffer| ==> t.buffer[k] == s.buffer[k];
    assert OwnerHolds(t) == OwnerHolds(s);
    if Announced(s) { PushAnnounced(s, StoreData, s.nest, s.pc); }
  }

  lemma {:induction false} ExecInv(s: State, run: seq<Action>)
    requires Inv(s) && Exec(true, s, run).Some?
    ensures Inv(Exec(true, s, run).value)
    decreases |run|
  {
    if run != [] {
      StepInv(s, run[0]);
      ExecInv(Do(true, s, run[0]).value, run[1..]);
    }
  }

  lemma ReachableInv(n: nat, s: State)
    requires Reachable(true, n, s)
    ensures Inv(s)
  {
    var run: seq<Action> :| Exec(true, Initial(n), run) == Some(s);
    ExecInv(Initial(n), run);
  }

  // ----- what the lock promises -----

  /** With the barrier the lock excludes in every run; without it some run breaks exclusion. */
  lemma ExclusionNeedsExactlyTheBarrier(fenced: bool)
    ensures fenced <==> forall n: nat, s: State :: Reachable(fenced, n, s) ==> Exclusive(s)
  {
    if fenced {
      forall n: nat, s: State | Reachable(fenced, n, s) ensures Exclusive(s) {
        ReachableInv(n, s);
      }
    } else {
      UnfencedRunBreaksExclusion();
    }
  }

  /** The store that announces the owner is still buffered when the external thread looks. */
  lemma UnfencedRunBreaksExclusion()
    ensures exists s: State :: Reachable(false, 1, s) && !Exclusive(s)
  {
    var inside := OwnerEnters();
    var both := ThreadEnters(inside);
    var owner := [CallAcquire, OwnerStep, OwnerStep];
    var thread := [CallExternal(0), ExternalStep(0), ExternalStep(0), ExternalStep(0)];
    hide Do, Initial;
    ExecConcat(Initial(1), owner, thread);
    assert Exec(false, Initial(1), owner + thread) == Some(both);
    assert Reachable(false, 1, both);
  }

  lemma {:induction false} ExecConcat(s: State, a: seq<Action>, b: seq<Action>)
    requires Exec(false, s, a).Some?
    ensures Exec(false, s, a + b) == Exec(false, Exec(false, s, a).value, b)
    decreases |a|
  {
    hide Do;
    if a == [] {
      assert a + b == b;
    } else {
      assert (a + b)[1..] == a[1..] + b;
      ExecConcat(Do(false, s, a[0]).value, a[1..], b);
    }
  }

  /** The owner takes the free lock; its store stays in the buffer. */
  lemma OwnerEnters() returns (s: State)
    ensures Exec(false, Initial(1), [CallAcquire, OwnerStep, OwnerStep]) == Some(s)
    ensures s == State(0, false, [StoreInternal(1)], Ready, 1, [External(Outside, false)])
  {
    var s0 := Initial(1);
    var s1 := s0.(pc := AcquireStore(0));
    var s2 := Push(s1, StoreInternal(1)).(pc := AcquireCheck(0));
    s := s2.(pc := Ready, nest := 1);
    ExternalViewOfMemory(false, s2.buffer);
    assert Do(false, s0, CallAcquire) == Some(s1);
    assert Do(false, s1, OwnerStep) == Some(s2);
    assert Do(false, s2, OwnerStep) == Some(s);
    assert s0.threads == [External(Outside, false)];
    hide Do, Initial;
    Three(s0, s1, s2, s, CallAcquire, OwnerStep, OwnerStep);
  }

  lemma Three(s0: State, s1: State, s2: State, s3: State, a: Action, b: Action, c: Action)
    requires Do(false, s0, a) == Some(s1) && Do(false, s1, b) == Some(s2) && Do(false, s2, c) == Some(s3)
    ensures Exec(false, s0, [a, b, c]) == Some(s3)
  {
    hide Do;
    assert [a, b, c][1..] == [b, c] && [b, c][1..] == [c] && [c][1..] == [];
    assert Exec(false, s3, []) == Some(s3);
    assert Exec(false, s2, [c]) == Some(s3);
    assert Exec(false, s1, [b, c]) == Some(s3);
  }

  /** Without the barrier the external thread does not see that store, and goes in. */
  lemma ThreadEnters(s: State) returns (end: State)
    requires s == State(0, false, [StoreInternal(1)], Ready, 1, [External(Outside, false)])
    ensures Exec(false, s, [CallExternal(0), ExternalStep(0), ExternalStep(0), ExternalStep(0)]) == Some(end)
    ensures !Exclusive(end)
  {
    var out := External(Outside, false);
    var s1 := SetThread(s, 0, out.(pc := Exchange(false)));
    var s2 := SetThread(s1, 0, out.(pc := Fence(false))).(external := true);
    var s3 := SetThread(s2, 0, out.(pc := Check(false)));
    end := SetThread(s3, 0, out.(pc := Inside));
    assert Do(false, s, CallExternal(0)) == Some(s1);
    assert Do(false, s1, ExternalStep(0)) == Some(s2);
    assert Do(false, s2, ExternalStep(0)) == Some(s3);
    assert Do(false, s3, ExternalStep(0)) == Some(end);
    assert end.threads[0].pc.Inside? && end.nest == 1;
    hide Do, SetThread;
    Three(s1, s2, s3, end, ExternalStep(0), ExternalStep(0), ExternalStep(0));
    var run := [CallExternal(0), ExternalStep(0), ExternalStep(0), ExternalStep(0)];
    assert run[1..] == [ExternalStep(0), ExternalStep(0), ExternalStep(0)];
  }

  /** On every return from acquire or release the owner reads its own nesting depth from the counter. */
  lemma CounterIsNestingDepth(n: nat, s: State)
    requires Reachable(true, n, s) && s.pc.Ready?
    ensures View(s.internal, s.buffer) == s.nest < WORD
  {
    ReachableInv(n, s);
  }

  /** Once all calls are over and all stores have landed, both words are as they were before. */
  lemma NothingLeaks(n: nat, s: State)
    requires Reachable(true, n, s) && s.pc.Ready? && s.buffer == []
    requires forall i :: 0 <= i < |s.threads| ==> s.threads[i] == External(Outside, false)
    ensures !s.external && s.internal == s.nest
  {
    ReachableInv(n, s);
  }

  /** The steps that finish work already begun, as opposed to starting a new call. */
  predicate Finishing(action: Action) {
    action.Drain? || action.OwnerStep? || action.ExternalStep? || action.ExternalDrain?
  }

  /** Every call has returned, and every store has reached memory. */
  ghost predicate AtRest(s: State) {
    && s.pc.Ready? && s.buffer == []
    && forall i :: 0 <= i < |s.threads| ==> s.threads[i] == External(Outside, false)
  }

  /** With nobody inside, some step that finishes work already begun is enabled and changes the state. */
  lemma NoDeadlock(n: nat, s: State)
    requires Reachable(true, n, s)
    requires s.nest == 0 && forall i :: 0 <= i < |s.threads| ==> !s.threads[i].pc.Inside?
    requires !AtRest(s)
    ensures exists action :: Finishing(action) && Do(true, s, action).Some? && Do(true, s, action).value != s
  {
    ReachableInv(n, s);
    if s.buffer != [] {
      assert Do(true, s, Drain).value.buffer != s.buffer;
      assert Finishing(Drain);
    } else if i :| 0 <= i < |s.threads| && s.threads[i].releasing {
      assert Do(true, s, ExternalDrain(i)).value.threads[i] != s.threads[i];
      assert Finishing(ExternalDrain(i));
    } else if !s.pc.Ready? && !(s.pc.RareExchange? && s.external) {
      assert Do(true, s, OwnerStep).value.pc != s.pc;
      assert Finishing(OwnerStep);
    } else if s.external {
      var i :| 0 <= i < |s.threads| && Holds(s.threads[i]);
      assert Do(true, s, ExternalStep(i)).value.threads[i] != s.threads[i];
      assert Finishing(ExternalStep(i));
    } else {
      var i :| 0 <= i < |s.threads| && s.threads[i] != External(Outside, false);
      assert Do(true, s, ExternalStep(i)).value.threads[i] != s.threads[i];
      assert Finishing(ExternalStep(i));
    }
  }

  // ----- calls come to an end -----

  /** How many accesses are left, counting the stores that they will buffer. */
  function OwnerWork(pc: OwnerPc): nat {
    match pc
    case Ready => 0
    case AcquireStore(_) => 11
    case AcquireCheck(_) => 9
    case RareLoad => 8
    case RareStore(_) => 7
    case RareExchange => 5
    case RareSetInternal => 4
    case RareFreeExternal => 2
    case ReleaseStore(_) => 2
  }

  function ThreadWork(e: External): nat {
    (if e.releasing then 1 else 0) +
    match e.pc
    case Outside => 0
    case TryLoad => 5
    case Exchange(_) => 4
    case Fence(_) => 3
    case Check(_) => 2
    case Inside => 0
  }

  function ThreadsWork(threads: seq<External>): nat {
    if threads == [] then 0
    else ThreadsWork(threads[..|threads| - 1]) + ThreadWork(threads[|threads| - 1])
  }

  /** The work that has been begun and not finished. */
  function Work(s: State): nat {
    |s.buffer| + OwnerWork(s.pc) + ThreadsWork(s.threads)
  }

  lemma {:induction false} ThreadsWorkAt(threads: seq<External>, i: nat, e: External)
    requires i < |threads|
    ensures ThreadsWork(threads[i := e]) + ThreadWork(threads[i]) == ThreadsWork(threads) + ThreadWork(e)
    decreases |threads|
  {
    var last := |threads| - 1;
    var changed := threads[i := e];
    if i == last {
      assert changed[..last] == threads[..last];
    } else {
      assert changed[..last] == threads[..last][i := e];
      ThreadsWorkAt(threads[..last], i, e);
    }
  }

  lemma OwnerWorks(s: State)
    requires OwnerDo(s).Some? && OwnerDo(s).value != s
    ensures Work(OwnerDo(s).value) < Work(s)
  {
  }

  lemma ThreadWorks(s: State, i: nat)
    requires i < |s.threads| && ThreadDo(true, s, i).Some? && ThreadDo(true, s, i).value != s
    ensures Work(ThreadDo(true, s, i).value) < Work(s)
  {
    var t := ThreadDo(true, s, i).value;
    ThreadsWorkAt(s.threads, i, t.threads[i]);
    assert t.threads == s.threads[i := t.threads[i]];
  }

  /** Every step that finishes work either changes nothing, as a spin does, or leaves less of it. */
  lemma FinishingWorks(s: State, action: Action)
    requires Finishing(action) && Do(true, s, action).Some? && Do(true, s, action).value != s
    ensures Work(Do(true, s, action).value) < Work(s)
  {
    match action
    case Drain =>
    case OwnerStep => OwnerWorks(s);
    case ExternalStep(i) => ThreadWorks(s, i);
    case ExternalDrain(i) => ThreadsWorkAt(s.threads, i, s.threads[i].(releasing := false));
  }

  /** How many steps of a run change the state. */
  function Changes(s: State, run: seq<Action>): nat
    decreases |run|
  {
    if run == [] || Do(true, s, run[0]).None? then 0
    else
      var next := Do(true, s, run[0]).value;
      (if next == s then 0 else 1) + Changes(next, run[1..])
  }

  /** Without new calls only so many steps can change anything, however the sides are scheduled. */
  lemma {:induction false} CallsEnd(s: State, run: seq<Action>)
    requires forall k :: 0 <= k < |run| ==> Finishing(run[k])
    ensures Changes(s, run) <= Work(s)
    decreases |run|
  {
    if run != [] && Do(true, s, run[0]).Some? {
      var next := Do(true, s, run[0]).value;
      CallsEnd(next, run[1..]);
      if next != s {
        FinishingWorks(s, run[0]);
      }
    }
  }

  /**
   Where no step that finishes work changes anything any more, either someone is inside the lock or
   every call has returned and every store has reached memory: nobody is left spinning on a free lock.
   */
  lemma RestsOnlyWhenDone(n: nat, s: State)
    requires Reachable(true, n, s)
    requires forall action :: Finishing(action) && Do(true, s, action).Some? ==> Do(true, s, action).value == s
    ensures
      || s.nest > 0 || (exists i :: 0 <= i < |s.threads| && s.threads[i].pc.Inside?)
      || AtRest(s)
  {
    if s.nest == 0 && (forall i :: 0 <= i < |s.threads| ==> !s.threads[i].pc.Inside?) && !AtRest(s) {
      NoDeadlock(n, s);
    }
  }
}
