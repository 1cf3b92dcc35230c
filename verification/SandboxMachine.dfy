/**
 The call and callback protocol between a trusted parent and its sandboxed child.

 Parent and child share a token: two one-bit semaphores, a debugging flag, a callback depth, a
 function index and a message slot.  `Library::send` hands the token to the child, whose run loop
 runs one function; that function may call back into the parent, which may send again, to any
 depth.  Each side is a stack of activations; every access to shared memory is a step of its own,
 and steps of the two sides interleave freely.

 Each send and each callback carries an identity that the program does not see: it tags the
 message, the request and the response, and names the entries of the logs.
 */
module SandboxMachine {
  import opened Options

  /** `CallbackHandlerBase::Result` starts out as `-ENOSYS`. */
  const NOT_IMPLEMENTED: int := -38

  /** The kinds that a dispatcher has handlers for from the start. */
  const BUILT_IN: nat := 7

  datatype Message = Message(ptr: nat, id: nat)
  datatype Callback = Callback(id: nat, kind: nat)
  datatype Response = Response(id: nat, value: int)

  /** An activation of `Library::send`, by the access it performs next. */
  datatype SendPc =
    | ReadDepth
    | StoreIndex
    | StoreMessage
    | AssertIdle
    | MarkExecuting
    | WakeChild
    | Await
    | Woken
    | Handle
    | Handling(call: Callback)
    | Respond(call: Callback, value: int)
    | DropDepth
    | MarkResumed
    | WakeResumed

  datatype Send = Send(id: nat, idx: int, ptr: Option<nat>, saved: int, pc: SendPc)

  /** What the parent does while no send is active: run client code, or `wait_for_child_exit`. */
  datatype ParentMode = Client | ExitAssert | ExitMark | ExitWake | ExitAwait

  /** What the child took from the shared slots: the argument of one `sandbox_invoke`. */
  datatype Work = Work(idx: int, msg: Message)

  /** An activation of `runloop`, with the invocation and the callback it is in the middle of. */
  datatype LoopPc =
    | CheckExit
    | AwaitWake
    | CheckToken
    | LoadIndex
    | LoadMessage(idx: int)
    | ClearMessage(idx: int, slot: Option<Message>)
    | Invoking(work: Work)
    | SendRequest(work: Work, call: Callback)
    | BumpDepth(work: Work, call: Callback)
    | MarkIdle(work: Work, call: Callback, inner: int)
    | WakeParent(work: Work, call: Callback, inner: int)
    | InCallback(work: Work, call: Callback)
    | ReceiveResponse(work: Work, call: Callback)
    | LoadDepth
    | MarkDone
    | WakeDone

  datatype Loop = Loop(depth: int, pc: LoopPc)

  datatype Event = Began(idx: int, ptr: nat) | Ended

  /** The token and the two slots of the shared memory region. */
  datatype Memory = Memory(
    depth: int,
    executing: bool,
    index: int,
    slot: Option<Message>,
    shouldExit: bool,
    parentWakes: nat,
    childWakes: nat)

  /** The two directions of the callback socket. */
  datatype Socket = Socket(requests: seq<Callback>, responses: seq<Response>)

  /** The arguments of one call of `send`. */
  datatype Request = Request(idx: int, ptr: Option<nat>)

  /**
   What each send asked for, what ran for it and which sends have returned; what each callback was
   answered by its handler and what it received.
   */
  datatype Logs = Logs(
    nextSend: nat,
    nextCall: nat,
    sent: map<nat, Request>,
    trace: map<nat, seq<Event>>,
    returned: set<nat>,
    handled: map<nat, int>,
    received: map<nat, int>)

  /** `handlers` is the size of the parent's table of callback handlers, which has no gaps. */
  datatype State = State(
    mem: Memory,
    socket: Socket,
    mode: ParentMode,
    handlers: nat,
    parent: seq<Send>,
    child: seq<Loop>,
    exited: bool,
    aborted: bool,
    logs: Logs)

  datatype Action =
    | ParentStep
    | CallSend(idx: int, ptr: Option<nat>)
    | RegisterCallback
    | HandlerReturn(value: int)
    | RequestExit
    | ChildStep
    | ChildSpurious
    | ChildCallback(kind: nat)
    | ChildReturn

  function Initial(): State {
    State(Memory(0, false, 0, None, false, 0, 0), Socket([], []), Client, BUILT_IN, [], [Loop(0, CheckExit)],
          false, false, Logs(0, 0, map[], map[], {}, map[], map[]))
  }

  function Log(logs: Logs, id: nat): seq<Event> {
    if id in logs.trace then logs.trace[id] else []
  }

  function Record(logs: Logs, id: nat, event: Event): Logs {
    logs.(trace := logs.trace[id := Log(logs, id) + [event]])
  }

  /** A failed check stops everything. */
  function Abort(s: State): State {
    s.(aborted := true)
  }

  function MessageOf(f: Send): Option<Message> {
    match f.ptr
    case None => None
    case Some(ptr) => Some(Message(ptr, f.id))
  }

  // ----- the parent -----

  function Top(s: State): Send
    requires s.parent != []
  {
    s.parent[|s.parent| - 1]
  }

  /** The topmost send goes on to `pc`. */
  function Go(s: State, pc: SendPc, mem: Memory, socket: Socket, logs: Logs): State
    requires s.parent != []
  {
    s.(mem := mem, socket := socket, parent := s.parent[|s.parent| - 1 := Top(s).(pc := pc)], logs := logs)
  }

  /** `wake` on a semaphore that is already awake is a fatal invariant failure. */
  function GoWaking(s: State): State
    requires s.parent != []
  {
    if s.mem.childWakes != 0 then Abort(s) else Go(s, Await, s.mem.(childWakes := 1), s.socket, s.logs)
  }

  /** The next access of the topmost `send`. */
  function SendStep(s: State): Option<State>
    requires s.parent != []
  {
    var f := Top(s);
    match f.pc
    case ReadDepth =>
      Some(s.(parent := s.parent[|s.parent| - 1 := Send(f.id, f.idx, f.ptr, s.mem.depth, StoreIndex)]))
    case StoreIndex => Some(Go(s, StoreMessage, s.mem.(index := f.idx), s.socket, s.logs))
    case StoreMessage => Some(Go(s, AssertIdle, s.mem.(slot := MessageOf(f)), s.socket, s.logs))
    case AssertIdle => Some(if s.mem.executing then Abort(s) else Go(s, MarkExecuting, s.mem, s.socket, s.logs))
    case MarkExecuting => Some(Go(s, WakeChild, s.mem.(executing := true), s.socket, s.logs))
    case WakeChild => Some(GoWaking(s))
    case Await =>
      if s.mem.parentWakes == 0 then None
      else Some(Go(s, Woken, s.mem.(parentWakes := s.mem.parentWakes - 1), s.socket, s.logs))
    case Woken =>
      if s.mem.depth > f.saved then Some(Go(s, Handle, s.mem, s.socket, s.logs))
      else Some(s.(parent := s.parent[..|s.parent| - 1], logs := s.logs.(returned := s.logs.returned + {f.id})))
    case Handle =>
      if s.socket.requests == [] then Some(Go(s, DropDepth, s.mem, s.socket, s.logs))
      else
        var call := s.socket.requests[0];
        Some(Go(s, if call.kind < s.handlers then Handling(call) else Respond(call, NOT_IMPLEMENTED),
                s.mem, s.socket.(requests := s.socket.requests[1..]), s.logs))
    case Handling(call) => None
    case Respond(call, value) =>
      Some(Go(s, DropDepth, s.mem, s.socket.(responses := s.socket.responses + [Response(call.id, value)]),
              s.logs.(handled := s.logs.handled[call.id := value])))
    case DropDepth => Some(Go(s, MarkResumed, s.mem.(depth := s.mem.depth - 1), s.socket, s.logs))
    case MarkResumed => Some(Go(s, WakeResumed, s.mem.(executing := true), s.socket, s.logs))
    case WakeResumed => Some(GoWaking(s))
  }

  /** The next access of `wait_for_child_exit`. */
  function ExitStep(s: State): Option<State> {
    match s.mode
    case Client => None
    case ExitAssert => Some(if s.mem.executing then Abort(s) else s.(mode := ExitMark))
    case ExitMark => Some(s.(mode := ExitWake, mem := s.mem.(executing := true)))
    case ExitWake =>
      Some(if s.mem.childWakes != 0 then Abort(s) else s.(mode := ExitAwait, mem := s.mem.(childWakes := 1)))
    case ExitAwait => None
  }

  /** Trusted code is in control: the client, or a callback handler. */
  predicate TrustedCode(s: State) {
    if s.parent == [] then s.mode.Client? else Top(s).pc.Handling?
  }

  // ----- the child -----

  function Inner(s: State): Loop
    requires s.child != []
  {
    s.child[|s.child| - 1]
  }

  /** The innermost run loop goes on to `pc`. */
  function Move(s: State, pc: LoopPc, mem: Memory, socket: Socket, logs: Logs): State
    requires s.child != []
  {
    s.(mem := mem, socket := socket, child := s.child[|s.child| - 1 := Loop(Inner(s).depth, pc)], logs := logs)
  }

  /** Leaving the innermost run loop resumes the callback that entered it. */
  function LeaveLoop(s: State): State
    requires s.child != []
  {
    var n := |s.child|;
    if n == 1 || !s.child[n - 2].pc.InCallback? then Abort(s)
    else
      var f := s.child[n - 2];
      s.(child := s.child[..n - 2] + [Loop(f.depth, ReceiveResponse(f.pc.work, f.pc.call))])
  }

  /** The next access of the child. */
  function LoopStep(s: State): Option<State>
    requires s.child != []
  {
    var f := Inner(s);
    match f.pc
    case CheckExit => Some(if s.mem.shouldExit then s.(exited := true) else Move(s, AwaitWake, s.mem, s.socket, s.logs))
    case AwaitWake =>
      if s.mem.childWakes == 0 then None
      else Some(Move(s, CheckToken, s.mem.(childWakes := s.mem.childWakes - 1), s.socket, s.logs))
    case CheckToken => Some(if !s.mem.executing then Abort(s) else Move(s, LoadIndex, s.mem, s.socket, s.logs))
    case LoadIndex => Some(Move(s, LoadMessage(s.mem.index), s.mem, s.socket, s.logs))
    case LoadMessage(idx) => Some(Move(s, ClearMessage(idx, s.mem.slot), s.mem, s.socket, s.logs))
    case ClearMessage(idx, slot) =>
      (match slot
       case None => Some(Move(s, LoadDepth, s.mem.(slot := None), s.socket, s.logs))
       case Some(msg) =>
         Some(Move(s, Invoking(Work(idx, msg)), s.mem.(slot := None), s.socket,
                   Record(s.logs, msg.id, Began(idx, msg.ptr)))))
    case Invoking(work) => None
    case SendRequest(work, call) =>
      Some(Move(s, BumpDepth(work, call), s.mem, s.socket.(requests := s.socket.requests + [call]), s.logs))
    case BumpDepth(work, call) =>
      Some(Move(s, MarkIdle(work, call, s.mem.depth + 1), s.mem.(depth := s.mem.depth + 1), s.socket, s.logs))
    case MarkIdle(work, call, inner) =>
      Some(Move(s, WakeParent(work, call, inner), s.mem.(executing := false), s.socket, s.logs))
    case WakeParent(work, call, inner) =>
      if s.mem.parentWakes != 0 then Some(Abort(s))
      else Some(s.(mem := s.mem.(parentWakes := 1),
                   child := s.child[..|s.child| - 1] + [Loop(f.depth, InCallback(work, call)), Loop(inner, CheckExit)]))
    case InCallback(work, call) => None
    case ReceiveResponse(work, call) =>
      if s.socket.responses == [] then None
      else Some(Move(s, Invoking(work), s.mem, s.socket.(responses := s.socket.responses[1..]),
                     s.logs.(received := s.logs.received[call.id := s.socket.responses[0].value])))
    case LoadDepth => Some(if s.mem.depth == f.depth then Move(s, MarkDone, s.mem, s.socket, s.logs) else LeaveLoop(s))
    case MarkDone => Some(Move(s, WakeDone, s.mem.(executing := false), s.socket, s.logs))
    case WakeDone =>
      if s.mem.parentWakes != 0 then Some(Abort(s))
      else Some(Move(s, CheckExit, s.mem.(parentWakes := 1), s.socket, s.logs))
  }

  /** Sandboxed code is in control. */
  predicate SandboxedCode(s: State) {
    !s.exited && s.child != [] && Inner(s).pc.Invoking?
  }

  /** One step of either process, or `None` where it is blocked or the action does not apply. */
  function Do(s: State, action: Action): Option<State> {
    if s.aborted then None
    else
      match action
      case ParentStep => if s.parent == [] then ExitStep(s) else SendStep(s)
      case CallSend(idx, ptr) => if TrustedCode(s) then Some(StartSend(s, idx, ptr)) else None
      case RegisterCallback => if TrustedCode(s) then Some(s.(handlers := s.handlers + 1)) else None
      case HandlerReturn(value) => if s.parent != [] && TrustedCode(s) then Some(FinishHandler(s, value)) else None
      case RequestExit =>
        if s.parent == [] && TrustedCode(s)
          then Some(s.(mode := ExitAssert, mem := s.mem.(shouldExit := true))) else None
      case ChildStep => if s.exited || s.child == [] then None else LoopStep(s)
      case ChildSpurious =>
        if !s.exited && s.child != [] && Inner(s).pc.AwaitWake?
        then Some(Move(s, CheckExit, s.mem, s.socket, s.logs)) else None
      case ChildCallback(kind) => if SandboxedCode(s) then Some(StartCallback(s, kind)) else None
      case ChildReturn => if SandboxedCode(s) then Some(FinishInvoke(s)) else None
  }

  function StartSend(s: State, idx: int, ptr: Option<nat>): State {
    s.(parent := s.parent + [Send(s.logs.nextSend, idx, ptr, 0, ReadDepth)],
       logs := s.logs.(nextSend := s.logs.nextSend + 1, sent := s.logs.sent[s.logs.nextSend := Request(idx, ptr)]))
  }

  function FinishHandler(s: State, value: int): State
    requires s.parent != [] && TrustedCode(s)
  {
    Go(s, Respond(Top(s).pc.call, value), s.mem, s.socket, s.logs)
  }

  function StartCallback(s: State, kind: nat): State
    requires SandboxedCode(s)
  {
    Move(s, SendRequest(Inner(s).pc.work, Callback(s.logs.nextCall, kind)), s.mem, s.socket,
         s.logs.(nextCall := s.logs.nextCall + 1))
  }

  function FinishInvoke(s: State): State
    requires SandboxedCode(s)
  {
    Move(s, LoadDepth, s.mem, s.socket, Record(s.logs, Inner(s).pc.work.msg.id, Ended))
  }

  function Exec(s: State, run: seq<Action>): Option<State>
    decreases |run|
  {
    if run == [] then Some(s)
    else
      match Do(s, run[0])
      case None => None
      case Some(next) => Exec(next, run[1..])
  }

  /** Some run, of any length and any interleaving, ends in `s`. */
  ghost predicate Reachable(s: State) {
    exists run: seq<Action> :: Exec(Initial(), run) == Some(s)
  }

  // ----- who holds the token -----

  /** The parent is past its wait: it runs trusted code or a step of `send` or `wait_for_child_exit`. */
  predicate ParentActive(s: State) {
    if s.parent == [] then !s.mode.ExitAwait? else !Top(s).pc.Await?
  }

  /** The child is past its wait. */
  predicate ChildActive(s: State) {
    !s.exited && s.child != [] && !Inner(s).pc.CheckExit? && !Inner(s).pc.AwaitWake?
  }

  function Bit(b: bool): nat {
    if b then 1 else 0
  }

  function Tokens(s: State): nat {
    Bit(ParentActive(s)) + Bit(ChildActive(s)) + s.mem.parentWakes + s.mem.childWakes
  }

  // ----- the invariant -----

  /** What the log of a finished send reads: its own function ran once, or nothing for a null message. */
  function Finished(r: Request): seq<Event> {
    match r.ptr
    case None => []
    case Some(ptr) => [Began(r.idx, ptr), Ended]
  }

  ghost predicate Runs(work: Work, f: Send) {
    f.ptr.Some? && work == Work(f.idx, Message(f.ptr.value, f.id))
  }

  /** The two stacks mirror each other: activation `i` of one serves activation `i` of the other. */
  ghost predicate Mirrored(s: State) {
    && s.child != []
    && (forall k :: 0 <= k < |s.child| ==> s.child[k].depth == k)
    && (forall k :: 0 <= k < |s.child| - 1 ==> s.child[k].pc.InCallback?)
    && !Inner(s).pc.InCallback?
    && (forall i :: 0 <= i < |s.parent| - 1 ==> s.parent[i].pc.Handling?)
    && (forall i :: 0 <= i < |s.parent| && !s.parent[i].pc.ReadDepth? ==> s.parent[i].saved == i)
    && |s.parent| <= |s.child| <= |s.parent| + 1
    && (forall i :: 0 <= i < |s.child| - 1 ==> Runs(s.child[i].pc.work, s.parent[i]))
    && (forall i :: 0 <= i < |s.child| - 1 && s.parent[i].pc.Handling? ==> s.parent[i].pc.call == s.child[i].pc.call)
    && (s.parent != [] ==> s.mode.Client?)
    && (s.mem.shouldExit <==> !s.mode.Client?)
    && (s.exited ==> s.mem.shouldExit && Inner(s).pc.CheckExit?)
  }

  /** No call is in flight between the sides, or one callback awaits the parent. */
  ghost predicate Balanced(s: State) {
    |s.child| == |s.parent| + 1 && s.mem.depth == |s.parent|
  }

  /** The topmost send is the child's to serve. */
  ghost predicate Launched(s: State) {
    s.parent != [] && |s.child| == |s.parent| && s.mem.depth == |s.parent| - 1
  }

  /** The parent has answered a callback whose run loop the child has not left yet. */
  ghost predicate Ending(s: State) {
    && s.parent != [] && |s.child| == |s.parent| + 1 && s.mem.depth == |s.parent| - 1
    && s.mem.slot == None && Answered(s, s.child[|s.child| - 2].pc)
  }

  ghost predicate QueuesEmpty(s: State) {
    s.socket.requests == [] && s.socket.responses == []
  }

  /** The one response in the socket is the answer to this callback. */
  ghost predicate Answered(s: State, pc: LoopPc) {
    && (pc.InCallback? || pc.ReceiveResponse?)
    && s.socket.requests == [] && |s.socket.responses| == 1 && s.socket.responses[0].id == pc.call.id
    && pc.call.id in s.logs.handled && s.logs.handled[pc.call.id] == s.socket.responses[0].value
  }

  ghost predicate Fresh(s: State) {
    && Launched(s) && QueuesEmpty(s)
    && s.mem.index == Top(s).idx
    && s.mem.slot == MessageOf(Top(s))
    && Log(s.logs, Top(s).id) == []
  }

  ghost predicate Done(s: State) {
    && QueuesEmpty(s) && s.mem.slot == None
    && (s.parent == [] ==> Balanced(s))
    && (s.parent != [] ==> Launched(s) && Log(s.logs, Top(s).id) == Finished(Request(Top(s).idx, Top(s).ptr)))
  }

  ghost predicate Begun(s: State, f: Send) {
    f.ptr.Some? && Log(s.logs, f.id) == [Began(f.idx, f.ptr.value)]
  }

  ghost predicate Calling(s: State) {
    && s.parent != [] && Balanced(s) && s.mem.slot == None && s.socket.responses == []
    && s.child[|s.child| - 2].pc.InCallback?
    && s.socket.requests == [s.child[|s.child| - 2].pc.call]
    && Unanswered(s, s.child[|s.child| - 2].pc.call)
  }

  ghost predicate Unanswered(s: State, call: Callback) {
    call.id !in s.logs.handled && call.id !in s.logs.received
  }

  ghost predicate Served(s: State) {
    && Balanced(s) && QueuesEmpty(s) && s.mem.slot == None
  }

  /** What the parent may find when it runs. */
  ghost predicate ParentTurn(s: State) {
    if s.parent == [] then Served(s) && s.mem.executing == s.mode.ExitWake?
    else
      var f := Top(s);
      match f.pc
      case ReadDepth =>
        Launched(s) && QueuesEmpty(s) && s.mem.slot == None && !s.mem.executing && Log(s.logs, f.id) == []
      case StoreIndex =>
        Launched(s) && QueuesEmpty(s) && s.mem.slot == None && !s.mem.executing && Log(s.logs, f.id) == []
      case StoreMessage =>
        && Launched(s) && QueuesEmpty(s) && s.mem.slot == None && !s.mem.executing && Log(s.logs, f.id) == []
        && s.mem.index == f.idx
      case AssertIdle => Fresh(s) && !s.mem.executing
      case MarkExecuting => Fresh(s) && !s.mem.executing
      case WakeChild => Fresh(s) && s.mem.executing
      case Await => false
      case Woken => !s.mem.executing && (Done(s) || Calling(s))
      case Handle => !s.mem.executing && Calling(s)
      case Handling(call) => !s.mem.executing && Served(s) && Unanswered(s, call)
      case Respond(call, _) =>
        !s.mem.executing && Served(s) && Unanswered(s, call) && CallAt(s, |s.child| - 2) == Some(call)
      case DropDepth => !s.mem.executing && Balanced(s) && s.mem.slot == None && Answered(s, s.child[|s.child| - 2].pc)
      case MarkResumed => !s.mem.executing && Ending(s)
      case WakeResumed => s.mem.executing && Ending(s)
  }

  /** What the child finds when woken. */
  ghost predicate Handed(s: State) {
    s.mem.executing && (Fresh(s) || Ending(s) || (s.parent == [] && Served(s)))
  }

  /** Where the child can be when it runs. */
  ghost predicate ChildTurn(s: State)
    requires s.child != []
  {
    match Inner(s).pc
    case CheckExit => false
    case AwaitWake => false
    case CheckToken => Handed(s)
    case LoadIndex => Handed(s)
    case LoadMessage(idx) => Handed(s) && idx == s.mem.index
    case ClearMessage(idx, slot) => Handed(s) && idx == s.mem.index && slot == s.mem.slot
    case Invoking(work) => InFlight(s, work) && Launched(s) && s.mem.executing && QueuesEmpty(s)
    case SendRequest(work, call) =>
      InFlight(s, work) && Launched(s) && s.mem.executing && QueuesEmpty(s) && Unanswered(s, call)
    case BumpDepth(work, call) =>
      && InFlight(s, work) && Launched(s) && s.mem.executing
      && s.socket.requests == [call] && s.socket.responses == [] && Unanswered(s, call)
    case MarkIdle(work, call, inner) => InFlight(s, work) && s.mem.executing && Bumped(s, call, inner)
    case WakeParent(work, call, inner) => InFlight(s, work) && !s.mem.executing && Bumped(s, call, inner)
    case InCallback(_, _) => false
    case ReceiveResponse(work, call) =>
      InFlight(s, work) && Launched(s) && s.mem.executing && call.id !in s.logs.received && Answered(s, Inner(s).pc)
    case LoadDepth => s.mem.executing && (Done(s) || Ending(s))
    case MarkDone => s.mem.executing && Done(s)
    case WakeDone => !s.mem.executing && Done(s)
  }

  ghost predicate InFlight(s: State, work: Work) {
    && s.parent != [] && |s.child| == |s.parent| && s.mem.slot == None
    && Runs(work, Top(s)) && Begun(s, Top(s))
  }

  ghost predicate Bumped(s: State, call: Callback, inner: int) {
    && s.mem.depth == inner == |s.parent| && s.socket.requests == [call] && s.socket.responses == [] &&
      Unanswered(s, call)
  }

  /** The state agrees with whoever holds the token. */
  ghost predicate Turn(s: State)
    requires s.child != []
  {
    && Tokens(s) == 1
    && (ParentActive(s) ==> ParentTurn(s))
    && (ChildActive(s) ==> ChildTurn(s))
    && (s.mem.childWakes == 1 ==> Handed(s))
    && (s.mem.parentWakes == 1 ==> !s.mem.executing && (Done(s) || Calling(s)))
    && (s.mem.parentWakes == 1 && s.parent == [] ==> s.mem.shouldExit && Inner(s).pc.CheckExit?)
  }

  /** The callback of child activation `k`, if it is in one. */
  ghost function CallAt(s: State, k: int): Option<Callback>
    requires 0 <= k < |s.child|
  {
    match s.child[k].pc
    case SendRequest(_, call) => Some(call)
    case BumpDepth(_, call) => Some(call)
    case MarkIdle(_, call, _) => Some(call)
    case WakeParent(_, call, _) => Some(call)
    case InCallback(_, call) => Some(call)
    case ReceiveResponse(_, call) => Some(call)
    case _ => None
  }

  /** Every log entry belongs to one send or callback and says what that one did. */
  ghost predicate Logged(s: State) {
    && (forall i :: 0 <= i < |s.parent| ==>
          s.parent[i].id !in s.logs.returned && Matches(s.logs, s.parent[i]))
    && (forall i, j :: 0 <= i < j < |s.parent| ==> s.parent[i].id != s.parent[j].id)
    && (forall i :: 0 <= i < |s.child| - 1 && i < |s.parent| ==> Begun(s, s.parent[i]))
    && (forall id :: id in s.logs.trace ==> id in s.logs.sent)
    && (forall id :: id in s.logs.sent ==> id < s.logs.nextSend)
    && (forall id :: id in s.logs.returned ==> Completed(s.logs, id))
  }

  ghost predicate Matches(logs: Logs, f: Send) {
    f.id in logs.sent && logs.sent[f.id] == Request(f.idx, f.ptr)
  }

  /** What was asked for under this identity ran once and to its end. */
  ghost predicate Completed(logs: Logs, id: nat) {
    id in logs.sent && Log(logs, id) == Finished(logs.sent[id])
  }

  ghost predicate CallsLogged(s: State) {
    && (forall k :: 0 <= k < |s.child| && CallAt(s, k).Some? ==>
          CallAt(s, k).value.id < s.logs.nextCall && CallAt(s, k).value.id !in s.logs.received)
    && (forall j, k :: 0 <= j < k < |s.child| && CallAt(s, j).Some? && CallAt(s, k).Some? ==>
          CallAt(s, j).value.id != CallAt(s, k).value.id)
    && (forall k :: 0 <= k < |s.parent| - 1 && s.parent[k].pc.Handling? ==> s.parent[k].pc.call.id !in s.logs.handled)
    && (forall id :: id in s.logs.handled ==> id < s.logs.nextCall)
    && (forall id :: id in s.logs.received ==> id in s.logs.handled && s.logs.received[id] == s.logs.handled[id])
  }

  ghost predicate Inv(s: State) {
    && !s.aborted && Mirrored(s) && Turn(s) && Logged(s) && CallsLogged(s)
  }

  // ----- what steps leave alone -----

  /** `t` is `s` with its topmost send replaced and the child's stack and the logs as they were. */
  ghost predicate OnlyTop(s: State, t: State, f: Send) {
    && s.parent != [] && t.parent == s.parent[|s.parent| - 1 := f]
    && f.id == Top(s).id && f.idx == Top(s).idx && f.ptr == Top(s).ptr
    && t.child == s.child && t.mode == s.mode && t.mem.shouldExit == s.mem.shouldExit && t.exited == s.exited
    && t.logs.trace == s.logs.trace && t.logs.returned == s.logs.returned && t.logs.received == s.logs.received
    && t.logs.sent == s.logs.sent && t.logs.nextSend == s.logs.nextSend && t.logs.nextCall == s.logs.nextCall
  }

  lemma TopMirrored(s: State, t: State, f: Send)
    requires Mirrored(s) && OnlyTop(s, t, f)
    requires f.saved == |s.parent| - 1
    requires f.pc.Handling? ==> |s.child| == |s.parent| + 1 && f.pc.call == s.child[|s.child| - 2].pc.call
    ensures Mirrored(t)
  {
    forall i | 0 <= i < |t.child| - 1 ensures Runs(t.child[i].pc.work, t.parent[i]) {
      assert Runs(s.child[i].pc.work, s.parent[i]);
    }
  }

  /** The sends of `t` are sends of `s` and no log has changed. */
  lemma LoggedFrame(s: State, t: State)
    requires Logged(s) && |t.parent| <= |s.parent|
    requires forall i :: 0 <= i < |t.parent| ==>
      t.parent[i].id == s.parent[i].id && t.parent[i].idx == s.parent[i].idx && t.parent[i].ptr == s.parent[i].ptr
    requires forall i :: 0 <= i < |t.child| - 1 && i < |t.parent| ==> Begun(s, s.parent[i])
    requires t.logs.trace == s.logs.trace && t.logs.returned == s.logs.returned
    requires t.logs.sent == s.logs.sent && t.logs.nextSend == s.logs.nextSend
    ensures Logged(t)
  {
    forall i | 0 <= i < |t.child| - 1 && i < |t.parent| ensures Begun(t, t.parent[i]) {
      assert Begun(s, s.parent[i]);
    }
    forall id | id in t.logs.returned ensures Completed(t.logs, id) {
      assert id in s.logs.returned ==> Completed(s.logs, id);
    }
  }

  /** The callbacks of `t` are callbacks of `s` and no response has moved. */
  lemma CallsFrame(s: State, t: State)
    requires CallsLogged(s)
    requires forall k :: 0 <= k < |t.child| && CallAt(t, k).Some? ==> k < |s.child| && CallAt(t, k) == CallAt(s, k)
    requires forall k :: 0 <= k < |t.parent| - 1 && t.parent[k].pc.Handling? ==>
      t.parent[k].pc.call.id !in s.logs.handled
    requires t.logs.handled == s.logs.handled && t.logs.received == s.logs.received &&
      t.logs.nextCall == s.logs.nextCall
    ensures CallsLogged(t)
  {
  }
}
