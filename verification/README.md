# Verona: verified models

This project models the parts of the Verona repository whose correctness is not visible in any single
function, and proves what they promise.  Concurrency is modelled as step machines over every run;
algorithms that update state in place are classes and loops; pure code is functions and lemmas.
`dafny verify dfyconfig.toml` checks everything.

- **`AsymmetricLock`, `AsymmetricCalls`** are the biased lock of the runtime under a weak memory model: the
  owner has a FIFO store buffer, and the process-wide barrier of the external side drains it.  Exclusion
  holds in every run exactly when that barrier is there, and every call ends as its caller expects.
- **`SandboxMachine`, `SandboxParent`, `SandboxChild`, `SandboxProtocol`, `SandboxAnswers`, `SandboxProgress`** are the token
  protocol between a process and its sandboxed library: `send`, the callback dispatcher, the child's nested run loops, two
  wake/wait semaphores (a wait may fail spuriously), the sockets, and a table of handlers that grows whenever
  trusted code registers one.  It starts where the child has been loaded.
- **`TypeAlgebra`, `TypeInterner`, `InternTable`, `NormalForms`, `Polarizer`, `Regions`, `RegionMeaning`** are the type
  algebra of the deprecated compiler: flattening and absorbing connectives, interning, disjunctive
  normal form with its run-time idempotence check, and the region and entity operators.  Types are
  entities, capabilities, type parameters, unions and intersections; a valuation is consistent when no
  two different classes hold together.
- **`Anf`, `AnfCalls`, `TypeDnf`, `Escaping`** are passes of the current parser: A-normal form, the normal form of
  type expressions (thrown and normal values kept apart), and string escapes over bytes.
- **`Bag`** is the runtime's block list with a freelist threaded through its holes.
- **`Ownership`, `Vm`** are the bytecode interpreter: register windows on one stack, and who owns each
  region and each cown count, across registers, fields, cowns and pending messages.  One relation,
  `Vm.Effect`, says what each opcode does to everything that a program can see.
- **`Resolution`** is name resolution and the captures of `when` closures, against lexical environments
  and free names.
- **`SourceLocations`** is the 32-bit packing of source locations with its overflow table.
- **`Bits`, `Sets`, `Options`** hold what several of these share: bitwise operations on numbers, sizes of
  sets, and the option type.

Where a property is false of the code, the model keeps the code, shows an input, and proves exactly when
the property holds:

- `AsymmetricLock.ExclusionNeedsExactlyTheBarrier`: without the barrier there is a run that breaks exclusion
  (`UnfencedRunBreaksExclusion`).
- `TypeDnf.ConjunctionMeans`: an absent operand is read as "no constraint" while an empty result is also
  absent, so the conjunction is the intersection exactly when both operands or neither are present.  Joined by
  the parser from left to right, `A & (throw B) & C` is therefore read as `C` (`ClashIsForgotten`).  A row of
  operands denotes their intersection if and only if all are there and those before the last have a value in
  common, or the row falls apart into rows that vanish one after the other (`FoldedMeans`); and operands have a
  value in common if and only if all of them have an alternative that is thrown, or all have one that is not
  (`MeetMeans`), which can be read off the types.
- `Regions.UnapplyUndoesApply`: mode `Under` loses mutable leaves (`UnderLosesMutable`), the other modes lose
  nothing.
- `RegionMeaning.RegionsTold`: two regions can be told apart in the result if and only if some leaf takes a mark
  of the region, in the type with mutable capabilities read as subregions where the mode is `Under`.  There
  merging may absorb the marked members altogether: `UnderForgetsRegions` is a type with a mutable leaf to which
  all regions apply alike.
- `AnfCalls.CallKeepsMeaning`: a variable among the operands of a node is read when the node is reached, not when
  the operand is.  The trace is kept if and only if every such variable then still has its value (`Settled`,
  which speaks of the program as written).  A check on the syntax is enough: no later operand of the node
  assigns the variable (`UnassignedCall`).  It is not necessary, since a variable may be assigned the value
  it has (`SelfAssignmentIsHarmless`); where the result of an operation is assigned, the trace is never kept
  (`ResultIsNeverPassedEarly`).  `ReassignedInACall` is a whole body that fails.
- `AnfCalls.CallKeepsMeaning` again: a bare reference at the end of a body is dropped, so the lifted body has the
  value of its last other statement, or of its last pattern test if there is none, and keeps the value if and
  only if that is the value of the reference (`Anf.BareReferenceIsDropped` is an input).
- `SourceLocations.ExpandLocation`: the index field has 30 bits, so an entry expands to itself exactly
  when it is among the first 2^30 (`OverfullTableMisreads`); locations stay distinct up to 2^31 entries, and the
  next one collides (`NextEntryCollides`).
- `SourceLocations.SetBitsReadsBack`: `set_bits` clears the bits above the field and not those of it, so a value
  reads back if and only if the field held no bit outside it (`SetBitsDoesNotReplace` is an input).  Packing
  passes the column as the word and zero as the value of its field, so the column survives only because
  `set_bits` does not clear its own field (`ColumnStays`; setting a field to zero keeps a word if and only if the
  bits just above the field are clear, `SetZeroKeeps`).  Line and file are then set once each, low to high.  The
  comment in the source says the column has 10 bits; the code gives it 9.
- `Vm.Machine.Run`: the comment says that the return that ends a run clears its return registers; the loop
  starts above them, so they stay (`ResultsStay`), and the next run starts with a clear stack exactly when
  nothing is left above its frame.  Ownership is sound in either case.

## Model

| member | source | states |
|---|---|---|
| AsymmetricLock.StepInv | src/rt/ds/asymlock.h:18-85 | every access by the owner or by any external thread, and every store leaving a buffer, keeps the invariant that ties the two words to who is inside |
| AsymmetricLock.ExecInv | src/rt/ds/asymlock.h:12-85 | so does every sequence of accesses |
| AsymmetricLock.ReachableInv | src/rt/ds/asymlock.h:12-85 | the invariant holds in every reachable state, for any number of external threads |
| AsymmetricLock.ExclusionNeedsExactlyTheBarrier | src/rt/ds/asymlock.h:35-62 | in all runs no two holders are inside together, owner or external, if and only if the external side issues the memory barrier |
| AsymmetricLock.UnfencedRunBreaksExclusion | src/rt/ds/asymlock.h:70-85 | without the barrier one external thread and the buffered store of the owner are enough to break exclusion |
| AsymmetricLock.CounterIsNestingDepth | src/rt/ds/asymlock.h:64-85 | on every return from acquire or release the owner reads its own nesting depth |
| AsymmetricLock.NothingLeaks | src/rt/ds/asymlock.h:18-68 | when all have left, the external flag is down and the counter in memory is the owner's depth |
| AsymmetricLock.NoDeadlock | src/rt/ds/asymlock.h:18-62 | while nobody is inside and something is unfinished, some step that finishes work is enabled and changes the state |
| AsymmetricLock.FinishingWorks | src/rt/ds/asymlock.h:18-85 | every step that finishes work either changes nothing, as a spin does, or leaves strictly less work |
| AsymmetricLock.CallsEnd | src/rt/ds/asymlock.h:18-85 | however the threads are scheduled, without new calls only a bounded number of steps change anything |
| AsymmetricLock.RestsOnlyWhenDone | src/rt/ds/asymlock.h:18-62 | where nothing changes any more, someone is inside or every call has returned and every store has landed: nobody spins on a free lock |
| AsymmetricCalls.ThreadCalls | src/rt/ds/asymlock.h:30-62 | one step of anybody, seen from an external thread: `external_acquire` goes on or ends inside, only `external_release` leaves, and an attempt ends outside only where the thread itself found the lock taken |
| AsymmetricCalls.AcquireEndsInside | src/rt/ds/asymlock.h:52-62 | in every run a call of `external_acquire` is not over before its thread has been inside |
| AsymmetricCalls.TryEndsForAReason | src/rt/ds/asymlock.h:35-50 | in every run an attempt is over only when its thread has been inside or has found the counter not zero or the flag set during the call |
| AsymmetricCalls.TryAloneSucceeds | src/rt/ds/asymlock.h:35-50 | alone on a free lock an attempt ends inside |
| AsymmetricCalls.AcquireAloneSucceeds | src/rt/ds/asymlock.h:52-62 | alone on a free lock an acquire ends inside without waiting |
| AsymmetricCalls.WaitsOnlyForAHolder | src/rt/ds/asymlock.h:52-62 | when nothing changes any more, a thread that was in `external_acquire` is inside, or somebody is |
| AsymmetricCalls.OwnerCalls | src/rt/ds/asymlock.h:64-85 | one step of anybody, seen from the owner: an acquire ends exactly one level deeper and a release one less deep |
| AsymmetricCalls.OwnerEndsDeeper | src/rt/ds/asymlock.h:18-85 | in every run a call of the owner, by either path, is not over before its depth has changed so |
| SandboxProtocol.StepInv | experiments/process_sandbox/src/libsandbox.cc:956-991 | every step of either process keeps the invariant over the two frame stacks, the shared token, the sockets and the logs |
| SandboxProtocol.ExecInv | experiments/process_sandbox/src/library_runner.cc:307-348 | so does every run |
| SandboxProtocol.ReachableInv | experiments/process_sandbox/src/library_runner.cc:445-475 | the invariant holds in every reachable state, at any nesting |
| SandboxProtocol.OneToken | experiments/process_sandbox/src/libsandbox.cc:956-991 | in every run exactly one control token exists: parent running, child running, or one pending wake; the two never run together |
| SandboxProtocol.NoCheckFails | experiments/process_sandbox/src/library_runner.cc:314-323 | no `is_child_executing` check and no double wake ever fails |
| SandboxProtocol.NeverStuck | experiments/process_sandbox/src/library_runner.cc:459-463 | until the child has exited some step other than a spurious wake-up or a registration is enabled |
| SandboxProtocol.NestedLastInFirstOut | experiments/process_sandbox/src/library_runner.cc:445-475 | the i-th suspended run loop serves the i-th active send, runs that send's message, and is answered by that send's handler |
| SandboxProtocol.DepthCountsCallbacks | experiments/process_sandbox/src/libsandbox.cc:983-989 | `callback_depth` is the number of unfinished callbacks, less one between the parent's decrement and the child's loop exit |
| SandboxProtocol.SendRanOnce | experiments/process_sandbox/src/library_runner.cc:324-347 | a send that has returned ran its own index and pointer once and to the end; no wake re-runs a stale message |
| SandboxProtocol.CallbackReadsOwnResponse | experiments/process_sandbox/src/libsandbox.cc:661-681 | the response each callback has read is the one that was sent for that callback |
| SandboxAnswers.RegisterAnswers | experiments/process_sandbox/src/libsandbox.cc:691-697 | registering a handler, from the client or from inside a handler, changes the answer of no callback on its way |
| SandboxAnswers.StepAnswers | experiments/process_sandbox/src/libsandbox.cc:661-681 | every step, registrations included, keeps each callback in flight tied to the kind the child asked for, and each answer to its cause; the table does not change while a request is on its way |
| SandboxAnswers.CallbackAnswered | experiments/process_sandbox/src/libsandbox.cc:661-697 | in every run a callback whose kind was registered when the child made it receives a value that the handler of that kind returned for it, and any other the default, whatever is registered later |
| SandboxProtocol.ExitIsQuiet | experiments/process_sandbox/src/libsandbox.cc:1006-1018 | once exit is requested nothing runs in the child any more and no send is active |
| SandboxProgress.StepWorks | experiments/process_sandbox/src/libsandbox.cc:956-991 | in every reachable state, each step of either side that goes on with work already begun leaves strictly less of it |
| SandboxProgress.CallsEnd | experiments/process_sandbox/src/library_runner.cc:307-348 | however the sides are scheduled, without new calls only a bounded number of steps can be taken, one more for each wake-up for nothing |
| SandboxProgress.RestsExactlyWhenQuiet | experiments/process_sandbox/src/library_runner.cc:307-348 | no such step is enabled if and only if no send is active and the child waits, or has exited as asked |
| SandboxProgress.RestsOnlyWhenReturned | experiments/process_sandbox/src/libsandbox.cc:975-991 | where no such step is enabled, every send ever started has returned, its function run once and to the end, and a child that was asked to exit has exited |
| SandboxProgress.RestsOnlyWhenAnswered | experiments/process_sandbox/src/library_runner.cc:445-475 | and every callback ever made has received its answer |
| SandboxProgress.CanFinish | experiments/process_sandbox/src/libsandbox.cc:956-991 | from every reachable state there is such a way to rest, of at most the bounded length |
| SandboxProgress.SendReturns | experiments/process_sandbox/src/libsandbox.cc:982-991 | a send that is active now has returned in every run from here that has come to rest |
| SandboxProgress.WholeRun | experiments/process_sandbox/src/libsandbox.cc:956-1018 | for any whole run, by the calls made in it: what each send asked for has run exactly once, each callback has its answer, and the child has exited if and only if that was asked for |
| TypeAlgebra.ReduceUnion | src/deprecated/compiler/intern.cc:68-124 | reducing early is as good as reducing late: absorbing in the middle of the walk loses and keeps nothing extra |
| TypeAlgebra.ReduceIdempotent | src/deprecated/compiler/intern.cc:68-124 | what absorption has left absorbs nothing more |
| TypeAlgebra.ConnectCanonical | src/deprecated/compiler/intern.cc:137-190 | the connective of canonical types is canonical: flat, minimal, no unit inside, no class conflict |
| TypeAlgebra.ConnectElements | src/deprecated/compiler/intern.cc:137-190 | building a canonical connective again from its elements gives the identical type |
| TypeAlgebra.ConnectOne | src/deprecated/compiler/intern.cc:176-190 | a connective of one type is that type, so union and intersection are idempotent |
| TypeAlgebra.ConnectAssociative | src/deprecated/compiler/intern.cc:126-190 | nesting makes no difference: connectives are associative and commutative up to pointer equality |
| TypeAlgebra.ConnectMeans | src/deprecated/compiler/intern.cc:137-190 | the result means the union or intersection of its elements in every consistent valuation |
| TypeInterner.EraseIncluding | src/deprecated/compiler/intern.cc:93-106 | the first erasing loop keeps exactly the duals that do not include the new one |
| TypeInterner.EraseContaining | src/deprecated/compiler/intern.cc:109-121 | the second keeps exactly the duals that do not contain the new leaf |
| TypeInterner.Absorb | src/deprecated/compiler/intern.cc:81-123 | one element keeps `duals` and `others` equal to the reduction of everything seen |
| TypeInterner.FlattenInto | src/deprecated/compiler/intern.cc:68-124 | the recursive walk does so for all members below a connective, in any order of the set |
| TypeInterner.FindClassConflict | src/deprecated/compiler/intern.cc:154-174 | the scan finds two different classes exactly when there are two |
| TypeInterner.MkConnective | src/deprecated/compiler/intern.cc:137-190 | the in-place algorithm returns the canonical connective whatever the order of the pointer-ordered sets |
| InternTable.PointerEquality | src/deprecated/compiler/intern.cc:1054-1079 | with shallow comparison and one node per shape, two pointers are equal exactly when the types they stand for are |
| InternTable.MeaningKept | src/deprecated/compiler/intern.cc:1054-1079 | a pointer stands for the same type whatever is interned after it |
| InternTable.Interner.constructor | src/deprecated/compiler/intern.h:36-39 | an empty table is in order |
| InternTable.Interner.Intern | src/deprecated/compiler/intern.cc:1054-1079 | returns the one pointer for the shape, adds a node only for a new shape, and leaves all older pointers alone |
| NormalForms.NormalFormUnique | src/deprecated/compiler/polarize.cc:12-37 | two canonical types in disjunctive normal form are identical if and only if they mean the same in every consistent valuation |
| NormalForms.NormalFormsDecide | src/deprecated/compiler/polarize.cc:276-306 | comparing the pointers of normal forms decides equivalence of the original types |
| NormalForms.SecondPassIdentical | src/deprecated/compiler/polarize.cc:24-31 | normalizing a normal form gives it back, and any two ways of normalizing agree |
| Polarizer.DistributedCloser | src/deprecated/compiler/polarize.cc:286-297 | distributing one union over the rest decreases a measure, so the mutual recursion terminates |
| Polarizer.DistributionMeans | src/deprecated/compiler/polarize.cc:286-298 | distributing a union keeps the meaning of the intersection |
| Polarizer.ImageOfNormal | src/deprecated/compiler/polarize.cc:279-283 | elements that are in normal form are their own images |
| Polarizer.UnionNormalized | src/deprecated/compiler/polarize.cc:124-127 | the union of normal forms is the normal form of the union |
| Polarizer.IntersectionNormalized | src/deprecated/compiler/polarize.cc:300-305 | with no union left the intersection of normal forms is the normal form |
| Polarizer.DistributionNormalized | src/deprecated/compiler/polarize.cc:281-298 | with a union left the distributed and re-polarized union is the normal form |
| Polarizer.Polarizer.constructor | src/deprecated/compiler/polarize.cc:12-37 | empty caches remember nothing wrong |
| Polarizer.Polarizer.ApplyOne | src/deprecated/compiler/polarize.cc:12-37 | terminates with a union of intersections that means the same, remembers it in both caches, and never reaches the "Not idempotent" abort |
| Polarizer.Polarizer.VisitType | src/deprecated/compiler/polarize.cc:124-127 | one visit already gives the normal form |
| Polarizer.Polarizer.ApplyAll | src/deprecated/compiler/polarize.cc:279-279 | the set of results is exactly the normal forms of the elements |
| Polarizer.Polarizer.Normalize | src/deprecated/compiler/polarize.cc:276-306 | puts any intersection in disjunctive normal form, whichever union is extracted first |
| Polarizer.Polarizer.ApplyDistributed | src/deprecated/compiler/polarize.cc:286-297 | the expanded set is exactly the normal forms of the distributed intersections |
| Regions.RenameCanonical | src/deprecated/compiler/intern.cc:221-326 | an invertible change of leaves commutes with flattening and absorption |
| Regions.MapBack | src/deprecated/compiler/intern.cc:328-406 | mapping the leaves back re-interns to the identical type |
| Regions.RoundTrip | src/deprecated/compiler/intern.cc:221-406 | unapplying undoes applying wherever every leaf is undone |
| Regions.UnapplyUndoesApply | src/deprecated/compiler/intern.cc:221-406 | on every region-hole type, unapplying after applying gives the identical type if and only if the mode is not `Under` or no leaf is mutable |
| Regions.UnderLosesMutable | src/deprecated/compiler/intern.cc:221-406 | a mutable capability in the hole comes back from `Under` as a subregion |
| Regions.MutableLost | src/deprecated/compiler/intern.cc:221-406 | after `Under` no mutable leaf comes back |
| Regions.EntityOfIdempotent | src/deprecated/compiler/intern.cc:677-753 | erasing to the entity twice is erasing once, although it merges and absorbs members, and the result is canonical |
| RegionMeaning.AppliedLeaves | src/deprecated/compiler/intern.cc:221-326 | after a region is applied, every mutable or subregion leaf has exactly that region, every isolated one too or none under `Extract`, and every parameter is wrapped with that mode and region |
| RegionMeaning.NoHoleLeft | src/deprecated/compiler/intern.cc:221-326 | with a region that is no hole, no hole is left |
| RegionMeaning.MapMeans | src/deprecated/compiler/intern.cc:221-406 | rewriting leaves and interning again means the type where each leaf stands for what it becomes |
| RegionMeaning.ApplyMeans | src/deprecated/compiler/intern.cc:221-326 | a value has the type with the region applied exactly when, with its region taken off, it has the type with the hole |
| RegionMeaning.ConnectRenamed | src/deprecated/compiler/intern.cc:137-190 | an invertible change of leaves may be made before or after interning a connective of any types |
| RegionMeaning.MapComposed | src/deprecated/compiler/intern.cc:221-406 | rewriting leaves and then changing them invertibly is rewriting them once, whatever was merged between |
| RegionMeaning.ComesBack | src/deprecated/compiler/intern.cc:221-406 | what unapplying gives back is the type itself, and under `Under` the type with mutable read as subregion and interned again |
| RegionMeaning.RegionsTold | src/deprecated/compiler/intern.cc:221-326 | two regions give the same type if and only if no leaf takes a mark of them, after that reading under `Under` |
| RegionMeaning.UnderForgetsRegions | src/deprecated/compiler/intern.cc:221-326 | an input with a mutable leaf to which all regions apply alike under `Under` |
| RegionMeaning.EntityOfMeans | src/deprecated/compiler/intern.cc:677-753 | a value has the erased type exactly when it has the type with capabilities read as no constraint and parameters as their entities |
| RegionMeaning.ErasingWidens | src/deprecated/compiler/intern.cc:677-753 | erasing never shrinks a type |
| RegionMeaning.EntitiesSurvive | src/deprecated/compiler/intern.cc:677-753 | a type without capabilities and parameters is its own erasure |
| Anf.LambdaBody | src/parser/anf.cc:104-149 | the new body of a lambda is the lifted form of the pattern checks followed by the old body |
| Anf.LowerDoes | src/parser/anf.cc:32-97 | where variables among operands keep their values, an expression with lifted operands, after the lifted statements, performs the same operations with the same values and gives the same value |
| Anf.LiftOperand | src/parser/anf.cc:51-96 | the reference left for an operand has the operand's value when the operand has been lifted |
| Anf.LiftOperands | src/parser/fields.h:92-186 | a variable is left as a reference to itself, and every other operand as a reference that keeps the operand's value |
| Anf.LiftedOperands | src/parser/anf.cc:41-96 | when the node is reached, its operands are the values they had, except that variables are read again |
| Anf.BodyKeepsMeaning | src/parser/anf.cc:32-102 | where variables among operands keep their values, a lifted body leaves the same trace and variables, and ends with the value of its last statement that is not a bare reference |
| Anf.BodyParts | src/parser/anf.cc:41-96 | where one of them does not, the traces differ at an event that both have reached |
| Anf.LambdaKeepsMeaning | src/parser/anf.cc:104-158 | for every lambda, patterns included and with `var` reassigned, the trace is kept if and only if variables among operands keep their values up to their node; then the variables are kept, and the value if and only if the body does not end with a bare reference to another value |
| AnfCalls.ChecksMatch | src/parser/anf.cc:113-144 | what is lifted for the patterns tests each against the argument of its own parameter, from left to right |
| AnfCalls.CallKeepsMeaning | src/parser/anf.cc:104-158 | called on the same arguments, any lambda leaves the same trace as a call that binds the named parameters, tests each pattern against its own argument and runs the body, if and only if variables among operands keep their values up to their node; then also the same variables, and the value of the last statement that is not a bare reference |
| AnfCalls.UnassignedCall | src/parser/anf.cc:104-158 | a check on the syntax of patterns and body is enough for every call |
| Anf.UnassignedSettledBody | src/parser/anf.cc:41-44 | it is enough that no variable among operands is assigned by a later operand of the node |
| Anf.ResultIsNeverPassedEarly | src/parser/anf.cc:41-96 | a call that passes a variable and then assigns it the result of an operation never keeps its trace |
| Anf.ReassignedInACall | src/parser/anf.cc:41-64 | a `var` that is passed and reassigned by the next operand is passed with its new value |
| Anf.SelfAssignmentIsHarmless | src/parser/anf.cc:41-44 | the check on the syntax is not necessary |
| Anf.ValueKept | src/parser/anf.cc:41-50 | dropping the bare references at the end keeps the value if and only if the last one names that value |
| Anf.OutsideKeepsMeaning | src/parser/anf.cc:34-37 | an initialiser outside every lambda does exactly what it did |
| Anf.BareReferenceIsDropped | src/parser/anf.cc:41-50 | an input on which the result of a body is lost |
| Anf.ReferencesAreNotSnapshots | src/parser/anf.cc:41-44 | an input, from every state, on which the call gets the new value where evaluation from left to right passes the old one |
| Anf.NormalForm | src/parser/anf.cc:32-158 | at every depth all operands except the right of an assignment are references, and each generated name is defined once, in order, before its uses, in its own lambda |
| Anf.Visitor.constructor | src/parser/anf.cc:21-30 | the pass starts outside all lambdas |
| Anf.Visitor.PushStatement | src/parser/anf.cc:46-48 | a lifted statement goes to the end of the innermost list only |
| Anf.Visitor.FreshName | src/parser/ident.h:20-33 | each name has the next number |
| Anf.Visitor.Trivialise | src/parser/anf.cc:32-97 | lifts exactly what has to be lifted, by kind and position; outside lambdas does nothing |
| Anf.Visitor.Visit | src/parser/pass.h:72-89 | the traversal in place computes the lifted form inside a lambda, and only rewrites lambdas outside |
| Anf.Visitor.VisitOutside | src/parser/anf.cc:34-37 | with no lambda around nothing is lifted |
| Anf.Visitor.VisitOperands | src/parser/pass.h:63-70 | operands are lifted from left to right into the same list |
| Anf.Visitor.NameParams | src/parser/anf.cc:113-144 | patterns become parameters with generated names and a check each, in order |
| Anf.Visitor.VisitStatements | src/parser/pass.h:63-70 | the statements of a body are lifted in order |
| Anf.Visitor.VisitLambda | src/parser/anf.cc:104-158 | the list and the counter of the lambda around are restored, whatever is nested inside |
| TypeDnf.NormalFormKept | src/parser/dnf.cc:113-262 | all three operators stay in the well-formed shape, up to intersections directly under `throw` |
| TypeDnf.ConjMeans | src/parser/dnf.cc:113-186 | the conjunction of two types in normal form denotes the intersection, an absent result being empty |
| TypeDnf.ConjunctionMeans | src/parser/dnf.cc:113-131 | with operands that may be absent it denotes the intersection if and only if both or neither are present |
| TypeDnf.MeetMeans | src/parser/dnf.cc:113-186 | operands have a value in common if and only if all have a thrown alternative or all have one that is not thrown |
| TypeDnf.FoldedVanishes | src/parser/parser.cc:1335-1359 | joining operands that are there leaves nothing if and only if they fall into consecutive rows each of which clashes with its last operand |
| TypeDnf.FoldedMeans | src/parser/parser.cc:1335-1359 | for any row of operands, absent ones included, the result denotes their intersection if and only if nothing was lost before the last operand, or the whole row vanishes |
| TypeDnf.ClashIsForgotten | src/parser/parser.cc:1343-1356 | an input: three operands without a common value are read as the third |
| TypeDnf.Conjoin | src/parser/parser.cc:1335-1359 | the loop over the operands computes that fold |
| TypeDnf.Inhabited | src/parser/dnf.cc:264-333 | no type in normal form is empty |
| TypeDnf.DisjunctionMeans | src/parser/dnf.cc:230-262 | the disjunction denotes the union |
| TypeDnf.ThrowTypeMeans | src/parser/dnf.cc:188-228 | `throw` denotes the thrown values of the type and its normal values, thrown |
| TypeDnf.UnionOther | src/parser/dnf.cc:66-85 | the loop computes the distribution of one type over a union |
| TypeDnf.UnionUnion | src/parser/dnf.cc:87-111 | the nested loops compute the product of two unions |
| TypeDnf.MkConj | src/parser/dnf.cc:113-186 | the recursion with its loops terminates and computes the conjunction |
| TypeDnf.MkThrow | src/parser/dnf.cc:188-228 | the loop computes the thrown type |
| Escaping.EncodeDecodes | src/parser/escaping.cc:171-236 | every code point becomes one whole sequence, the shortest one that decodes to it under section 3 of RFC 3629 |
| Escaping.MasksAreRanges | src/parser/escaping.cc:107-150 | the masked comparisons of bytes are the ranges of tail and lead bytes |
| Escaping.ScanSequence | src/parser/escaping.cc:112-150 | by masks, finds the length of the whole sequence at the head |
| Escaping.WriteSequence | src/parser/escaping.cc:216-236 | shifting, masking and tagging writes the encoding of the code point |
| Escaping.DecodeBits | src/parser/escaping.cc:216-236 | the number a sequence decodes to is made of the bits that the tags leave free |
| Escaping.EscapeInRange | src/parser/escaping.cc:20-41 | the digits of a valid numeric escape name a code point |
| Escaping.LetterTable | src/parser/escaping.cc:43-76 | the twelve letters, by the character each stands for, in `escape`, `unescape` and `is_escape` alike |
| Escaping.OtherLetters | src/parser/escaping.cc:326-330 | no other letter is an escape, and after a backslash it stands for itself |
| Escaping.NumericStands | src/parser/escaping.cc:318-325 | two, four or six digits after their letter are accepted whole and read as the character they number |
| Escaping.NumericOnly | src/parser/escaping.cc:78-103 | and nothing else is accepted as a numeric escape, in particular nothing past the end of Unicode |
| Escaping.StrayBytesDropped | src/parser/escaping.cc:465-480 | `escape` drops bytes that begin no sequence |
| Escaping.TrimsFirst | src/parser/escaping.cc:342-349 | a blank first line is trimmed with its line end, and nothing else is at the front |
| Escaping.TrimsLast | src/parser/escaping.cc:351-357 | a blank last line is trimmed with the line end before it, and nothing else is at the end |
| Escaping.LineFeedsJoined | src/parser/escaping.cc:238-256 | lines joined by carriage return and line feed become the same lines joined by line feed |
| Escaping.NumericEscapeEncodes | src/parser/escaping.cc:258-340 | a numeric escape is written as one whole sequence that decodes to its value |
| Escaping.UnescapeEscape | src/parser/escaping.cc:395-487 | unescaping what `escape` wrote gives the string back, for every string of whole sequences |
| Escaping.EscapeRoundTrip | src/parser/escaping.cc:385-388 | and so does reading it back as a literal, with line ends and blank lines trimmed |
| Escaping.EscapeClean | src/parser/escaping.cc:395-487 | `escape` writes no raw control character |
| Escaping.EscapeIsEscaped | src/parser/escaping.cc:363-372 | what `escape` writes is accepted as escaped |
| Escaping.EscapeGuardsQuotes | src/parser/escaping.cc:395-487 | every quote it writes is behind a backslash |
| Escaping.UnescapeKeepsSequences | src/parser/escaping.cc:258-340 | unescaping takes strings of whole sequences to strings of whole sequences |
| Escaping.CheckUnescaped | src/parser/escaping.cc:374-383 | the loop accepts exactly the strings of whole sequences |
| Escaping.CheckEscaped | src/parser/escaping.cc:363-372 | the loop accepts exactly the strings of escapes and whole sequences |
| Escaping.WriteHead | src/parser/escaping.cc:400-483 | one round of the loop, by masks and shifts, writes the escape of one character and goes on behind it |
| Escaping.WriteEscaped | src/parser/escaping.cc:395-487 | the loop with its look-ahead writes the escaped form |
| Escaping.ReadDigits | src/parser/escaping.cc:206-212 | or-ing each digit shifted to its place gives the hexadecimal number |
| Escaping.ReadLetter | src/parser/escaping.cc:258-340 | one step of the state machine reads one escape whole |
| Escaping.WriteUnescaped | src/parser/escaping.cc:258-340 | the state machine computes the unescaped form |
| Escaping.FindLineEnd | src/parser/escaping.cc:238-256 | finds the first line end from a position on |
| Escaping.WriteLineFeeds | src/parser/escaping.cc:238-256 | the loop replaces exactly the two-byte line ends |
| Bag.Addresses | src/rt/ds/bag.h:43-72 | masking an address with the index mask, bit by bit, tells the first and the last slot, and masking off the low bits gives its block, for both element sizes |
| Bag.WalkSlots | src/rt/ds/bag.h:136-153 | the walk meets exactly the slots in use |
| Bag.WalkDistinct | src/rt/ds/bag.h:136-153 | and none of them twice |
| Bag.WalkNext | src/rt/ds/bag.h:136-143 | stepping from a slot, across a block boundary or inside a block, leads to the next one |
| Bag.BagBase.constructor | src/rt/ds/bag.h:74-80 | a new bag is empty |
| Bag.BagBase.Remove | src/rt/ds/bag.h:94-100 | removes exactly that element; the freelist is exactly the set of holes, without repetition |
| Bag.BagBase.Insert | src/rt/ds/bag.h:102-122 | the new element is in a slot that was not live, and every other element stays where it is |
| Bag.BagBase.InsertHole | src/rt/ds/bag.h:104-112 | a hole is reused and leaves the freelist |
| Bag.BagBase.InsertBump | src/rt/ds/bag.h:113-118 | the next slot of the newest block is used |
| Bag.BagBase.InsertSlow | src/rt/ds/bag.h:124-134 | a new block is linked in front and its first slot used |
| Bag.BagBase.Step | src/rt/ds/bag.h:136-143 | goes to the next slot in use, or to the null block after the last one |
| Bag.BagBase.NextNonEmpty | src/rt/ds/bag.h:145-153 | skips holes only, and stops at an element or at the null block |
| Bag.BagBase.Advance | src/rt/ds/bag.h:161-177 | goes to the next element |
| Bag.BagBase.Iterate | src/rt/ds/bag.h:156-215 | iterating from `begin` to `end` visits every live element exactly once |
| Ownership.OwnerIs | src/deprecated/interpreter/value.cc:83-133 | a place that owns a region is the only one in the machine, the region exists, and it is frozen only inside a frozen object |
| Ownership.CownAlive | src/deprecated/interpreter/value.cc:171-317 | a cown that a register, message or field refers to has a positive count |
| Ownership.AcquiredAlive | src/deprecated/interpreter/vm.cc:577-597 | so has a cown that a pending message refers to without a count |
| Ownership.ExchangedSound | src/deprecated/interpreter/value.cc:272-317 | exchanging a field keeps regions owned once and counts exact, remembered set included |
| Ownership.FrozenSound | src/deprecated/interpreter/vm.cc:323-330 | freezing a region and all regions inside it keeps ownership sound |
| Ownership.RemovedSound | src/deprecated/interpreter/value.cc:112-114 | releasing a region gives back exactly the counts it kept, and passes on the regions inside it |
| Vm.Machine.constructor | src/deprecated/interpreter/vm.h:25-27 | an empty machine is sound |
| Vm.Machine.MaybeConsume | src/deprecated/interpreter/value.cc:171-209 | a region moves out of its register, a count is shared, anything else is copied; unowned cowns never reach it |
| Vm.Machine.ReleaseHeld | src/deprecated/interpreter/object.cc:90-106 | a region goes with exactly the regions owned from inside it, each once, and nothing else changes |
| Vm.Machine.ClearHeld | src/deprecated/interpreter/value.cc:105-133 | clearing gives back what the value owns: a region goes with exactly the regions owned from inside it, and the rest of the heap stays |
| Vm.Machine.Overwrite | src/deprecated/interpreter/value.cc:90-95 | the register takes the value and the old one is given back |
| Vm.Machine.ClearRegister | src/deprecated/interpreter/value.cc:105-133 | the register ends empty |
| Vm.Machine.Write | src/deprecated/interpreter/vm.cc:153-159 | the result goes to its register, or the machine aborts when it is out of the frame; no value is dropped while initialized |
| Vm.Machine.Operand | src/deprecated/interpreter/convert.h:46-57 | the handler gets the operand by value |
| Vm.Machine.OpMove | src/deprecated/interpreter/vm.cc:423-426 | the value moves, whatever it is |
| Vm.Machine.OpCopy | src/deprecated/interpreter/vm.cc:332-335 | regions move and the rest is shared |
| Vm.Machine.OpPlain | src/deprecated/interpreter/vm.cc:300-345 | results that own nothing are written, and the old value given back |
| Vm.Machine.OpClearList | src/deprecated/interpreter/vm.cc:305-311 | exactly the listed registers are emptied |
| Vm.Machine.OpMutView | src/deprecated/interpreter/vm.cc:428-433 | a borrow is made, the owner stays |
| Vm.FieldRead | src/deprecated/interpreter/value.cc:218-270 | a field that owns a region is read as a borrow, or as immutable through an immutable, and so is a borrow; any other value is read as it is |
| Vm.Machine.OpLoad | src/deprecated/interpreter/vm.cc:358-368 | a field is read as a borrow, or as immutable through an immutable parent, and then the object is frozen indeed |
| Vm.Machine.Exchange | src/deprecated/interpreter/value.cc:272-317 | the value and the field change places; a count moves to the region, which keeps one for each cown |
| Vm.Machine.OpStore | src/deprecated/interpreter/vm.cc:530-546 | the field takes the source and the destination its old value; a borrow from another region is refused |
| Vm.Machine.OpNewRegion | src/deprecated/interpreter/vm.cc:445-451 | the register is the only owner of the new region |
| Vm.Machine.OpNewObject | src/deprecated/interpreter/vm.cc:435-443 | the object belongs to the region of its parent and is borrowed |
| Vm.Machine.OpNewCown | src/deprecated/interpreter/vm.cc:453-458 | the region moves from the register into the cown, which has one count |
| Vm.Machine.OpNewSleepingCown | src/deprecated/interpreter/vm.cc:460-466 | a promise has one count and no contents |
| Vm.Machine.OpFulfill | src/deprecated/interpreter/vm.cc:313-321 | the region moves into the promise and the runtime takes a count |
| Vm.Machine.FindOwned | src/deprecated/interpreter/vm.cc:323-330 | finds exactly the regions that freezing reaches |
| Vm.Machine.OpFreeze | src/deprecated/interpreter/vm.cc:323-330 | the region and exactly the regions owned from inside it become immutable, and the owner becomes an immutable reference |
| Vm.Machine.PushFrame | src/deprecated/interpreter/vm.cc:43-66 | the stack grows by empty slots only |
| Vm.Machine.OpCall | src/deprecated/interpreter/vm.cc:274-298 | the callee's window starts at the call space; frames stay in order and all slots above them empty |
| Vm.Machine.ClearScratch | src/deprecated/interpreter/vm.cc:486-510 | all registers beyond the results are emptied, unless one of them owns something |
| Vm.Machine.OpReturn | src/deprecated/interpreter/vm.cc:486-528 | the results stay and all other registers of the frame are emptied; the caller goes on with every slot above the live frames empty |
| Vm.Machine.CaptureCown | src/deprecated/interpreter/vm.cc:578-597 | the count of a cown moves into the message |
| Vm.Machine.CaptureValue | src/deprecated/interpreter/vm.cc:599-605 | a captured value moves into the message whole |
| Vm.Machine.OpWhen | src/deprecated/interpreter/vm.cc:548-621 | the message holds exactly the cowns and captured values of the call space, whose registers are emptied |
| Vm.Machine.Run | src/deprecated/interpreter/vm.cc:13-41 | cowns are passed as borrows of their contents and everything else moves; the stack above the frame is clear if and only if the run before left it so |
| Vm.Machine.Finish | src/rt/sched/cown.h:740-750 | the runtime gives back one count for each cown of the message |
| Vm.Machine.Step | src/deprecated/interpreter/vm.cc:660-704 | each opcode stops the machine exactly where it may not be, and otherwise has exactly its own effect on stack, frames, heap, queue and holds; ownership stays sound, nothing changes below the base of its frame, and the slots above the frames stay empty if they were |
| Vm.EffectInWindow | src/deprecated/interpreter/vm.cc:660-704 | whatever an opcode other than call and return does, it keeps frames and queued messages and changes the stack only in the window of its frame |
| Vm.Machine.RunCall | src/deprecated/interpreter/vm.cc:274-298 | from a call to its matching return, through any nested calls, the machine goes through the effects of the opcodes in turn; the callers' frames and the caller's registers below the call space are unchanged |
| Vm.Machine.Execute | src/deprecated/interpreter/vm.cc:68-76 | a run is a chain of the effects of its opcodes, to the return that ends it or to the opcode that stops the machine; ownership is sound throughout; if the stack above the first frame was clear it stays clear above the live frames, and at the end only the return registers may hold anything |
| Vm.Machine.Serve | src/deprecated/interpreter/vm.h:288-311 | each message is delivered, run as such a chain to its end, and its cowns given back, in any order and whatever earlier runs have left behind; ownership is sound after each |
| Vm.ResultsStay | src/deprecated/interpreter/vm.cc:512-521 | a run that leaves its return register behind, above the frame of the next run |
| Resolution.MarkedAgrees | src/deprecated/compiler/resolution.cc:93-124 | marking the closures a use crosses captures exactly that name in exactly those closures, once |
| Resolution.VisitedWhen | src/deprecated/compiler/resolution.cc:436-450 | leaving a `when` has captured exactly the outer locals free in its body, and the outer closures what is free in the whole expression |
| Resolution.NestedCaptures | src/deprecated/compiler/resolution.cc:93-134 | a local captured by a nested closure and not declared in the enclosing one is captured by the enclosing one too |
| Resolution.CapturesAreFree | src/deprecated/compiler/resolution.cc:436-450 | every capture is declared inside the expression, or in its scope, or is free in it |
| Resolution.Resolver.constructor | src/deprecated/compiler/resolution.cc:25-53 | the program's scope holds entities only |
| Resolution.Resolver.Resolve | src/deprecated/compiler/resolution.cc:93-134 | finds what the lexical environment says, undefined names included, and records the capture in every closure crossed |
| Resolution.Resolver.MarkClosures | src/deprecated/compiler/resolution.cc:110-120 | each closure on the way back records the symbol |
| Resolution.Resolver.PushScope | src/deprecated/compiler/resolution.cc:55-69 | a new scope declares and captures nothing |
| Resolution.Resolver.PopScope | src/deprecated/compiler/resolution.cc:55-69 | the outer scopes are as they were |
| Resolution.Resolver.AddSymbol | src/deprecated/compiler/resolution.cc:71-91 | a name already in the scope keeps its symbol and the new one is refused |
| Resolution.Resolver.AddBinders | src/deprecated/compiler/resolution.cc:443-446 | the binders of a `when` are declared in its closure scope |
| Resolution.Resolver.Visit | src/deprecated/compiler/resolution.cc:330-373 | every use gets the symbol of the lexical environment, and every `when` a list without duplicates of exactly the outer locals free in its body |
| Resolution.Resolver.VisitBlock | src/deprecated/compiler/resolution.cc:466-469 | the same for a block in a scope of its own |
| Resolution.Resolver.VisitWhen | src/deprecated/compiler/resolution.cc:436-450 | the same for a closure with its binders |
| Resolution.Resolver.VisitMethod | src/deprecated/compiler/resolution.cc:287-337 | the same for a method body below its parameters |
| SourceLocations.UnpackPack | src/deprecated/compiler/source_manager.h:633-641 | packing small fields as the source does, from the column as the word, and extracting them is the identity |
| SourceLocations.ColumnStays | src/deprecated/compiler/source_manager.h:862-866 | a small column is the same word after its field is set to zero, and reads back |
| SourceLocations.SetZeroKeeps | src/deprecated/compiler/source_manager.h:794-812 | setting a field to zero leaves a word as it was if and only if the bits just above the field are clear |
| SourceLocations.SetBitsAt | src/deprecated/compiler/source_manager.h:794-812 | every bit of the word after any field is set to any value: old or new in the field, cleared in as many bits above it, unchanged elsewhere |
| SourceLocations.SetBitsMerges | src/deprecated/compiler/source_manager.h:794-812 | the field then reads as the old field and the value together |
| SourceLocations.SetBitsReadsBack | src/deprecated/compiler/source_manager.h:794-812 | the value reads back if and only if the field held no bit outside it |
| SourceLocations.SetBitsKeepsBelow | src/deprecated/compiler/source_manager.h:794-812 | fields below keep their values |
| SourceLocations.SetBitsClearsAbove | src/deprecated/compiler/source_manager.h:807-808 | a field in the bits just above is lost |
| SourceLocations.SetBitsDoesNotReplace | src/deprecated/compiler/source_manager.h:794-812 | an input on which setting a field mixes the two values |
| SourceLocations.AskedAllOk | src/deprecated/compiler/source_manager.h:633-650 | across any history the table stays in order, only grows, and keeps every location it gave out |
| SourceLocations.ExpandLocation | src/deprecated/compiler/source_manager.h:407-415 | a location expands to its triple if and only if the triple is small or among the first 2^30 oversized ones |
| SourceLocations.EqualLocations | src/deprecated/compiler/source_manager.h:633-650 | with at most 2^31 entries two locations are equal exactly when their triples are, in both encodings |
| SourceLocations.NextEntryCollides | src/deprecated/compiler/source_manager.h:642-649 | the entry after that has the location of the first line and column of the first file |
| SourceLocations.OverfullTableMisreads | src/deprecated/compiler/source_manager.h:884-891 | with 2^30 entries and one more, the location of the last expands to the first |
| SourceLocations.ExpandKept | src/deprecated/compiler/source_manager.h:407-415 | an old location keeps its meaning however many are made after it |
| SourceLocations.SourceManager.constructor | src/deprecated/compiler/source_manager.h:759-773 | the tables start empty |
| SourceLocations.SourceManager.AddSourceFile | src/deprecated/compiler/source_manager.h:439-444 | file names and indices stay inverse to each other |
| SourceLocations.SourceManager.MakeSourceLocation | src/deprecated/compiler/source_manager.h:633-650 | the location given out expands to its triple below the limit, and all older ones keep their meaning |
| SourceLocations.SourceManager.Expand | src/deprecated/compiler/source_manager.h:407-415 | gives file name, line and column of the triple, or the out-of-range error |

## Left out

- The bodies of client code, callback handlers and sandboxed functions: they are arbitrary steps of the protocol.
- SandboxProtocol: starts after `is_child_loaded`, with the seven built-in handlers registered, an honest runner and sockets that never fill; a crashed child, time-outs, file handles and the integer width of `callback_depth` are not modelled.
- AsymmetricLock: the spin loops promise no fairness between threads that compete for a free lock; the barrier implementations are the primitive that drains the store buffer, and nesting stays below 2^64.
- Polarizer.Polarizer.VisitType: fixpoints, ranges, inference variables, method and field constraints, viewpoints, and the expansion of type parameters under positive polarity are not modelled.
- Regions: region operators on ranges, fixpoints and inference variables; `mk_viewpoint`; variable renaming and path compression.
- InternTable.Interner.Intern: the ordered set is a map by shape, without its comparison order.
- Anf: default arguments of parameters and object literals; exceptions do not cut a trace short; all named parameters are bound before the first pattern is tested; a second assignment to a `let`, which the language forbids, is recorded as a store; a closure sees the variables as they are when it is made.
- TypeDnf: source locations of nodes, operands that fail to parse, and sharing of nodes that are built once and referred to twice.
- Escaping: only bytes, as the source does: overlong forms and surrogates count as sequences, and a lone backslash is accepted as escaped.
- Bag.BagBase.Insert: the allocator returns a block that is not in the bag; `dealloc` is not modelled, because it leaves the freelist behind.
- Vm.Machine.Step: decoding, descriptors and jump targets are operands of the step; the assertion on the tag in `consume_iso` is taken as a check; one machine runs one message at a time.
- Vm.Machine.OpLoad: a borrow of an object that is gone or frozen stops the machine, where the source relies on the type checker and goes on.
- Vm.Machine.OpStore: stops on such a borrow likewise.
- Ownership.FrozenSound: the frozen regions keep the counts of their remembered sets, where the runtime counts again by field; unreachable objects are not collected, and counts of immutable objects are not modelled.
- Vm.Machine.ReleaseHeld: finalisers do not run, and a cown whose count has reached zero is not collected.
- Resolution: types, generics, diagnostics and duplicate-declaration errors beyond the refusal itself; the body of a `when` is a block, as the grammar has it.
- SourceLocations: diagnostics and their formatting.
- The interoperability layer, the MLIR generator, the lexer, name lookup through type aliases, the scheduler, regions' garbage collection, file and network policy of the sandbox, and command-line code.
