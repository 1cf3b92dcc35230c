/**
 The bytecode interpreter: overlapping register windows on one stack, and opcodes that move values
 between registers, fields, cowns and messages.
 */
module Vm {
  import opened Options
  import opened Ownership
  import opened Sets

  /** `halts` marks the frame whose return ends the run. */
  datatype Frame = Frame(base: nat, locals: nat, argc: nat, retc: nat, halts: bool)

  /** What the header of a function says about its frame. */
  datatype Header = Header(argc: nat, retc: nat, locals: nat)

  function Top(f: Frame): nat {
    f.base + f.locals
  }

  /** Frames lie in order, and each returns its results inside the window of its caller. */
  ghost predicate FramesOk(frames: seq<Frame>, size: nat) {
    && (forall i :: 0 <= i < |frames| ==> Top(frames[i]) <= size)
    && (forall i :: 0 < i < |frames| ==> frames[i - 1].base <= frames[i].base)
    && (forall i :: 0 < i < |frames| ==> frames[i].base + frames[i].retc <= Top(frames[i - 1]))
  }

  ghost predicate AboveAll(frames: seq<Frame>, j: nat) {
    forall i :: 0 <= i < |frames| ==> Top(frames[i]) <= j
  }

  /** Every slot that lies above all frames is empty. */
  ghost predicate ClearAbove(frames: seq<Frame>, stack: seq<Value>) {
    forall j :: 0 <= j < |stack| && AboveAll(frames, j) ==> stack[j].Uninit?
  }

  /** Nothing changes outside a window, except that the stack may have grown. */
  ghost predicate OnlyWindow(before: seq<Value>, after: seq<Value>, base: nat, top: nat) {
    && |before| <= |after|
    && (forall j :: 0 <= j < |before| && !(base <= j < top) ==> after[j] == before[j])
    && (forall j :: |before| <= j < |after| && !(base <= j < top) ==> after[j].Uninit?)
  }

  /** The smallest power of two that is not below `n`. */
  function NextPow2(n: nat, p: nat := 1): (r: nat)
    requires p > 0
    ensures r >= n && r >= p
    decreases n - p
  {
    if p >= n then p else NextPow2(n, 2 * p)
  }

  class Machine {
    var stack: seq<Value>
    var frames: seq<Frame>
    var halted: bool
    var queue: seq<Message>
    var heap: Heap
    var counts: map<CownId, nat>
    var holds: multiset<CownId>
    /** The values that the running opcode has in local variables. */
    ghost var hand: seq<Value>
    /** The regions that are being released. */
    ghost var doomed: set<Ref>

    ghost function View(): Store
      reads this
    {
      Store(stack, hand, queue, heap, counts, holds, doomed)
    }

    /** What a program can see of the machine. */
    ghost function Snapshot(): Config
      reads this
    {
      Config(stack, frames, halted, queue, heap, holds)
    }

    ghost predicate Valid()
      reads this
    {
      Sound(View()) && FramesOk(frames, |stack|)
    }

    constructor ()
      ensures Valid() && frames == [] && stack == [] && hand == [] && queue == [] && doomed == {}
    {
      stack, frames, halted, queue, hand := [], [], true, [], [];
      heap := Heap(map[], {}, {}, map[]);
      counts, holds, doomed := map[], multiset{}, {};
      new;
      assert forall p :: At(View(), p) == Uninit;
    }

    // ----- values -----

    /** `maybe_consume`: a region moves, a count is shared, anything else is copied. */
    method MaybeConsume(i: nat) returns (v: Value)
      requires Sound(View()) && i < |stack|
      modifies this`stack, this`hand, this`counts
      ensures Sound(View()) && hand == old(hand) + [v] && v == old(stack[i])
      ensures stack == After(old(stack), i) && counts.Keys == old(counts).Keys
    {
      hide Sound;
      v := stack[i];
      RegisterSound(View(), i);
      if v.Iso? {
        TakenSound(View(), i);
        stack := stack[i := Uninit];
        hand := hand + [v];
        assert View() == Taken(old(View()), i);
      } else if v.Cown? {
        CopiedSound(View(), v.cown);
        counts := Acquired(counts, v.cown);
        hand := hand + [v];
        assert View() == Copied(old(View()), v.cown);
      } else {
        PlainSound(View(), v);
        hand := hand + [v];
      }
    }

    /** Releases a region: its objects, and the regions that are owned from inside it. */
    method ReleaseHeld(r: Ref) returns (ghost gone: set<Ref>)
      requires Sound(View()) && hand != [] && hand[|hand| - 1] == Iso(r) && doomed == {}
      modifies this`heap, this`counts, this`hand, this`doomed
      ensures Sound(View()) && hand == old(hand)[..|old(hand)| - 1] && doomed == {}
      ensures OwnedRegions(old(heap), r, gone) && Without(old(heap), heap, gone)
    {
      hide Sound, Releasing, Without, Inner;
      HeldSound(View());
      ReleasingFirst(heap, r);
      CondemnedSound(View());
      hand := hand[..|hand| - 1];
      doomed := {r};
      assert View() == Condemned(old(View()));
      gone := {};
      var work := {r};
      while work != {}
        invariant Sound(View()) && hand == old(hand)[..|old(hand)| - 1] && doomed == work
        invariant Releasing(old(heap), r, gone, gone + work) && Without(old(heap), heap, gone)
        decreases |heap.objects|
      {
        var q :| q in work;
        DoomedSound(View(), q);
        RemovedSound(View(), q);
        InnerSame(old(heap), heap, gone, q);
        ReleasingMore(old(heap), r, gone, gone + work, q);
        WithoutMore(old(heap), heap, gone, q);
        RemovedFewer(heap, q);
        ghost var removed := Removed(View(), q);
        assert gone + {q} + (work - {q} + Inner(heap, q)) == gone + work + Inner(heap, q);
        work := work - {q} + Inner(heap, q);
        counts := map c | c in counts :: counts[c] - if (q, c) in heap.remembered then 1 else 0;
        heap := RemoveHeap(heap, q);
        doomed := work;
        gone := gone + {q};
        assert View() == removed;
      }
      assert gone + work == gone;
      ReleasedAll(old(heap), r, gone);
    }

    /** The value in hand is cleared and goes out of scope. */
    method ClearHeld(v: Value)
      requires Sound(View()) && hand != [] && hand[|hand| - 1] == v && doomed == {}
      modifies this`heap, this`counts, this`hand, this`doomed
      ensures Sound(View()) && hand == old(hand)[..|old(hand)| - 1] && doomed == {}
      ensures v.Iso? || heap == old(heap)
      ensures forall o :: o in heap.objects ==> o in old(heap).objects && heap.objects[o] == old(heap).objects[o]
      ensures heap.contents == old(heap).contents && heap.frozen == old(heap).frozen
      ensures counts.Keys == old(counts).Keys
      ensures Cleared(old(heap), heap, v)
    {
      hide Sound;
      CountsKnown(View());
      if v.Iso? {
        ghost var _ := ReleaseHeld(v.target);
      } else if v.Cown? {
        DroppedCownSound(View());
        counts := Released(counts, v.cown);
        hand := hand[..|hand| - 1];
        assert View() == DroppedCown(old(View()));
      } else {
        DroppedPlain(View());
        hand := hand[..|hand| - 1];
      }
      CountsKnown(View());
    }

    /** The register takes the value in hand, and its old value is cleared. */
    method Overwrite(i: nat, v: Value)
      requires Sound(View()) && i < |stack| && hand != [] && hand[|hand| - 1] == v && doomed == {}
      modifies this`stack, this`heap, this`counts, this`hand, this`doomed
      ensures Sound(View()) && hand == old(hand)[..|old(hand)| - 1] && doomed == {}
      ensures stack == old(stack)[i := v]
      ensures old(stack[i]).Iso? || heap == old(heap)
      ensures forall o :: o in heap.objects ==> o in old(heap).objects && heap.objects[o] == old(heap).objects[o]
      ensures heap.contents == old(heap).contents && heap.frozen == old(heap).frozen
      ensures counts.Keys == old(counts).Keys
      ensures Cleared(old(heap), heap, old(stack[i]))
    {
      hide Sound;
      var last := stack[i];
      SwappedSound(View(), i);
      stack := stack[i := v];
      hand := hand[|hand| - 1 := last];
      assert View() == Swapped(old(View()), i);
      ClearHeld(last);
      assert old(hand)[|old(hand)| - 1 := last][..|old(hand)| - 1] == old(hand)[..|old(hand)| - 1];
    }

    method ClearRegister(i: nat)
      requires Sound(View()) && i < |stack| && doomed == {}
      modifies this`stack, this`heap, this`counts, this`hand, this`doomed
      ensures Sound(View()) && hand == old(hand) && doomed == {}
      ensures stack == old(stack)[i := Uninit]
      ensures old(stack[i]).Iso? || heap == old(heap)
      ensures Cleared(old(heap), heap, old(stack[i]))
    {
      hide Sound;
      var v := stack[i];
      TakenSound(View(), i);
      stack := stack[i := Uninit];
      hand := hand + [v];
      assert View() == Taken(old(View()), i);
      ClearHeld(v);
    }

    // ----- registers -----

    ghost predicate Running()
      reads this
    {
      Valid() && frames != [] && hand == [] && doomed == {}
    }

    function Current(): Frame
      reads this
      requires frames != []
    {
      frames[|frames| - 1]
    }

    /** The slot of a register of the current frame. */
    function Slot(r: nat): nat
      reads this
      requires frames != []
    {
      Current().base + r
    }

    /** The end of every opcode with a result. */
    method Write(dst: nat, v: Value) returns (ok: bool)
      requires Valid() && frames != [] && hand == [v] && doomed == {}
      modifies this`stack, this`heap, this`counts, this`hand, this`doomed
      ensures ok == (dst < Current().locals)
      ensures ok ==> Running() && stack == old(stack)[Slot(dst) := v]
      ensures ok ==> Cleared(old(heap), heap, old(stack)[Slot(dst)])
    {
      hide Sound, FramesOk;
      TopFits(frames, |stack|);
      if dst >= Current().locals {
        return false;
      }
      Overwrite(Slot(dst), v);
      ok := true;
    }

    /** An operand that is passed by value: the handler owns it and must use it or clear it. */
    method Operand(src: nat) returns (v: Value)
      requires Running() && src < Current().locals
      modifies this`stack, this`hand, this`counts
      ensures Valid() && hand == [v] && v == old(stack)[Slot(src)] && stack == After(old(stack), Slot(src))
      ensures counts.Keys == old(counts).Keys
    {
      hide Sound, FramesOk;
      TopFits(frames, |stack|);
      v := MaybeConsume(Slot(src));
    }

    // ----- opcodes -----

    method OpMove(dst: nat, src: nat) returns (ok: bool)
      requires Running()
      modifies this`stack, this`heap, this`counts, this`hand, this`doomed
      ensures ok == Allowed(Move(dst, src), old(Snapshot()))
      ensures ok ==> Running() && Effect(Move(dst, src), old(Snapshot()), Snapshot())
    {
      hide Sound, FramesOk, Cleared;
      TopFits(frames, |stack|);
      if src >= Current().locals {
        return false;
      }
      var v := stack[Slot(src)];
      TakenSound(View(), Slot(src));
      stack := stack[Slot(src) := Uninit];
      hand := [v];
      assert View() == Taken(old(View()), Slot(src));
      ok := Write(dst, v);
    }

    method OpCopy(dst: nat, src: nat) returns (ok: bool)
      requires Running()
      modifies this`stack, this`heap, this`counts, this`hand, this`doomed
      ensures ok == Allowed(Copy(dst, src), old(Snapshot()))
      ensures ok ==> Running() && Effect(Copy(dst, src), old(Snapshot()), Snapshot())
    {
      hide Sound, FramesOk, Cleared;
      TopFits(frames, |stack|);
      if src >= Current().locals {
        return false;
      }
      var v := Operand(src);
      ok := Write(dst, v);
    }

    /** Every opcode whose result owns nothing: constants, arithmetic, matching and descriptors. */
    method OpPlain(dst: nat, v: Value) returns (ok: bool)
      requires Running() && (v.Uninit? || v.U64? || v.String? || v.Descriptor?)
      modifies this`stack, this`heap, this`counts, this`hand, this`doomed
      ensures ok == Allowed(Plain(dst, v), old(Snapshot()))
      ensures ok ==> Running() && Effect(Plain(dst, v), old(Snapshot()), Snapshot())
    {
      hide Sound, FramesOk, Cleared;
      TopFits(frames, |stack|);
      PlainSound(View(), v);
      hand := hand + [v];
      ok := Write(dst, v);
    }

    method OpMutView(dst: nat, src: nat) returns (ok: bool)
      requires Running()
      modifies this`stack, this`heap, this`counts, this`hand, this`doomed
      ensures ok == Allowed(MutView(dst, src), old(Snapshot()))
      ensures ok ==> Running() && Effect(MutView(dst, src), old(Snapshot()), Snapshot())
    {
      hide Sound, FramesOk, Cleared;
      TopFits(frames, |stack|);
      if src >= Current().locals {
        return false;
      }
      var v := stack[Slot(src)];
      if !v.Iso? && !v.Mut? {
        return false;
      }
      PlainSound(View(), Mut(v.target));
      hand := hand + [Mut(v.target)];
      ok := Write(dst, Mut(v.target));
    }

    /** A field never gives up a region: it is read as a borrow, or as immutable through an immutable. */
    method OpLoad(dst: nat, base: nat, index: nat) returns (ok: bool)
      requires Running()
      modifies this`stack, this`heap, this`counts, this`hand, this`doomed
      ensures ok == Allowed(Load(dst, base, index), old(Snapshot()))
      ensures ok ==> Running() && Effect(Load(dst, base, index), old(Snapshot()), Snapshot())
    {
      hide Sound, FramesOk, Cleared;
      TopFits(frames, |stack|);
      if base >= Current().locals {
        return false;
      }
      var b := stack[Slot(base)];
      if !Readable(heap, b, index) {
        return false;
      }
      var v := FieldRead(heap.objects[b.target].fields[index], b.Imm?);
      FieldReadSound(View(), Slot(base), index);
      if v.Cown? {
        CopiedSound(View(), v.cown);
        counts := Acquired(counts, v.cown);
        hand := hand + [v];
        assert View() == Copied(old(View()), v.cown);
      } else {
        PlainSound(View(), v);
        hand := hand + [v];
      }
      ok := Write(dst, v);
    }

    /** The field takes the source and the destination takes what the field held. */
    method OpStore(dst: nat, base: nat, index: nat, src: nat) returns (ok: bool)
      requires Running()
      modifies this`stack, this`heap, this`counts, this`hand, this`doomed
      ensures ok == Allowed(Op.Exchange(dst, base, index, src), old(Snapshot()))
      ensures ok ==> Running() && Effect(Op.Exchange(dst, base, index, src), old(Snapshot()), Snapshot())
    {
      hide Sound, FramesOk, Cleared;
      TopFits(frames, |stack|);
      if src >= Current().locals {
        return false;
      }
      var v := Operand(src);
      if base >= Current().locals {
        return false;
      }
      var b := stack[Slot(base)];
      if !Writable(heap, b, index, v) {
        return false;
      }
      var f := Exchange(b.target, index, v);
      ok := Write(dst, f);
    }

    /** `FieldValue::exchange`: the value in hand and the field change places. */
    method Exchange(o: Ref, index: nat, v: Value) returns (f: Value)
      requires Sound(View()) && hand == [v] && o in heap.objects && index < |heap.objects[o].fields|
      requires heap.objects[o].region !in heap.frozen && Storable(heap, o, v)
      modifies this`heap, this`counts, this`hand
      ensures Sound(View()) && hand == [f] && f == old(heap).objects[o].fields[index]
      ensures heap.objects == SetField(old(heap), o, index, v).objects
      ensures heap.frozen == old(heap).frozen && heap.contents == old(heap).contents
      ensures heap.remembered == old(heap).remembered + if v.Cown? then {(heap.objects[o].region, v.cown)} else {}
    {
      hide Sound;
      f := heap.objects[o].fields[index];
      ExchangedSound(View(), o, index);
      ghost var exchanged := Exchanged(View(), o, index);
      var region := heap.objects[o].region;
      if f.Cown? {
        counts := Acquired(counts, f.cown);
      }
      // The new value's count goes to the region, unless the region has one already.
      if v.Cown? {
        if (region, v.cown) in heap.remembered {
          counts := Released(counts, v.cown);
        }
        heap := heap.(remembered := heap.remembered + {(region, v.cown)});
      }
      heap := SetField(heap, o, index, v);
      hand := [f];
      assert View() == exchanged;
    }

    method OpNewRegion(dst: nat, o: Ref, fields: nat) returns (ok: bool)
      requires Running() && o !in heap.objects
      modifies this`stack, this`heap, this`counts, this`hand, this`doomed
      ensures ok == Allowed(NewRegion(dst, o, fields), old(Snapshot()))
      ensures ok ==> Running() && Effect(NewRegion(dst, o, fields), old(Snapshot()), Snapshot())
    {
      hide Sound, FramesOk, Cleared;
      TopFits(frames, |stack|);
      WithRegionSound(View(), o, fields);
      heap := WithObject(heap, o, o, fields);
      hand := hand + [Iso(o)];
      assert View() == WithRegion(old(View()), o, fields);
      ok := Write(dst, Iso(o));
    }

    method OpNewObject(dst: nat, parent: nat, o: Ref, fields: nat) returns (ok: bool)
      requires Running() && o !in heap.objects
      modifies this`stack, this`heap, this`counts, this`hand, this`doomed
      ensures ok == Allowed(NewObject(dst, parent, o, fields), old(Snapshot()))
      ensures ok ==> Running() && Effect(NewObject(dst, parent, o, fields), old(Snapshot()), Snapshot())
    {
      hide Sound, FramesOk, Cleared;
      TopFits(frames, |stack|);
      if parent >= Current().locals {
        return false;
      }
      var p := stack[Slot(parent)];
      if !(p.Iso? || p.Mut?) || p.target !in heap.objects || Frozen(heap, p.target) {
        return false;
      }
      var region := heap.objects[p.target].region;
      ObjectSound(View(), p.target);
      WithMemberSound(View(), o, region, fields);
      heap := WithObject(heap, o, region, fields);
      hand := hand + [Mut(o)];
      assert View() == WithMember(old(View()), o, region, fields);
      ok := Write(dst, Mut(o));
    }

    method OpNewSleepingCown(dst: nat, c: CownId) returns (ok: bool)
      requires Running() && c !in counts
      modifies this`stack, this`heap, this`counts, this`hand, this`doomed
      ensures ok == Allowed(NewSleepingCown(dst, c), old(Snapshot()))
      ensures ok ==> Running() && Effect(NewSleepingCown(dst, c), old(Snapshot()), Snapshot())
    {
      hide Sound, FramesOk, Cleared;
      MakeCown(c);
      ok := Write(dst, Cown(c));
    }

    /** A cown that nobody else knows comes to hand with one count. */
    method MakeCown(c: CownId)
      requires Sound(View()) && c !in counts
      modifies this`heap, this`counts, this`hand
      ensures Sound(View()) && hand == old(hand) + [Cown(c)] && counts == old(counts)[c := 1]
      ensures heap == old(heap).(contents := old(heap).contents[c := None])
    {
      hide Sound;
      WithCownSound(View(), c);
      heap := heap.(contents := heap.contents[c := None]);
      counts := counts[c := 1];
      hand := hand + [Cown(c)];
      assert View() == WithCown(old(View()), c);
    }

    /** The region in hand becomes the contents of the cown. */
    method FillCown(c: CownId, r: Ref)
      requires Sound(View()) && c in counts && hand != [] && hand[|hand| - 1] == Iso(r)
      modifies this`heap, this`hand
      ensures Sound(View()) && hand == old(hand)[..|old(hand)| - 1]
      ensures heap == old(heap).(contents := old(heap).contents[c := Some(r)])
    {
      hide Sound;
      FilledSound(View(), c);
      heap := heap.(contents := heap.contents[c := Some(r)]);
      hand := hand[..|hand| - 1];
      assert View() == Filled(old(View()), c);
    }

    /** The region moves from the register into the cown. */
    method OpNewCown(dst: nat, src: nat, c: CownId) returns (ok: bool)
      requires Running() && c !in counts
      modifies this`stack, this`heap, this`counts, this`hand, this`doomed
      ensures ok == Allowed(NewCown(dst, src, c), old(Snapshot()))
      ensures ok ==> Running() && Effect(NewCown(dst, src, c), old(Snapshot()), Snapshot())
    {
      hide Sound, FramesOk, Cleared;
      TopFits(frames, |stack|);
      if src >= Current().locals {
        return false;
      }
      var v := Operand(src);
      if !v.Iso? {
        return false;
      }
      WrapRegion(c, v.target);
      ok := Write(dst, Cown(c));
    }

    /** A new cown takes the region that is in hand. */
    method WrapRegion(c: CownId, r: Ref)
      requires Sound(View()) && c !in counts && hand == [Iso(r)]
      modifies this`heap, this`counts, this`hand
      ensures Sound(View()) && hand == [Cown(c)]
      ensures heap == old(heap).(contents := old(heap).contents[c := Some(r)])
    {
      hide Sound;
      MakeCown(c);
      TurnedSound(View());
      ghost var turned := Turned(View());
      hand := [Cown(c), Iso(r)];
      assert View() == turned;
      FillCown(c, r);
    }

    /** The promise takes the region, and the runtime takes a count to schedule it. */
    method OpFulfill(cown: nat, src: nat) returns (ok: bool)
      requires Running()
      modifies this`stack, this`heap, this`counts, this`holds, this`hand
      ensures ok == Allowed(Fulfill(cown, src), old(Snapshot()))
      ensures ok ==> Running() && Effect(Fulfill(cown, src), old(Snapshot()), Snapshot())
    {
      hide Sound, FramesOk, Cleared;
      TopFits(frames, |stack|);
      if src >= Current().locals || cown >= Current().locals {
        return false;
      }
      var v := Operand(src);
      var k := stack[Slot(cown)];
      if !v.Iso? || !k.Cown? {
        return false;
      }
      RegisterSound(View(), Slot(cown));
      FillPromise(k.cown, v.target);
      ok := true;
    }

    /** The region in hand becomes the contents of the promise, and the runtime takes a count. */
    method FillPromise(c: CownId, r: Ref)
      requires Sound(View()) && c in counts && hand == [Iso(r)]
      modifies this`heap, this`counts, this`holds, this`hand
      ensures Sound(View()) && hand == [] && holds == old(holds) + multiset{c}
      ensures heap == old(heap).(contents := old(heap).contents[c := Some(r)])
    {
      hide Sound;
      FillCown(c, r);
      HoldSound(View(), c);
      counts := Acquired(counts, c);
      holds := holds + multiset{c};
    }

    /** All regions that are owned from inside a region. */
    method FindOwned(r: Ref) returns (regions: set<Ref>)
      requires Sound(View()) && hand != [] && hand[|hand| - 1] == Iso(r)
      ensures OwnedRegions(heap, r, regions)
    {
      hide Sound, Inner;
      HeldSound(View());
      ReleasingFirst(heap, r);
      regions := {};
      var work := {r};
      while work != {}
        invariant Releasing(heap, r, regions, regions + work) && work !! regions
        decreases heap.objects.Keys - regions
      {
        var q :| q in work;
        InnerSound(View(), q);
        ReleasingMore(heap, r, regions, regions + work, q);
        assert regions + {q} + (work + Inner(heap, q) - regions - {q}) == regions + work + Inner(heap, q);
        work := work + Inner(heap, q) - regions - {q};
        regions := regions + {q};
      }
      assert regions + work == regions;
      ReleasedAll(heap, r, regions);
    }

    /** The region and all regions inside it become immutable, and the value with them. */
    method OpFreeze(dst: nat, src: nat) returns (ok: bool)
      requires Running()
      modifies this`stack, this`heap, this`counts, this`hand, this`doomed
      ensures ok == Allowed(Freeze(dst, src), old(Snapshot()))
      ensures ok ==> Running() && Effect(Freeze(dst, src), old(Snapshot()), Snapshot())
    {
      hide Sound, FramesOk, OwnedRegions, Cleared;
      TopFits(frames, |stack|);
      if src >= Current().locals {
        return false;
      }
      var v := Operand(src);
      if !v.Iso? {
        return false;
      }
      var regions := FindOwned(v.target);
      ghost var s := View();
      FrozenSound(s, regions);
      heap := FreezeHeap(heap, regions);
      hand := [Imm(v.target)];
      assert View() == FrozenWith(s, regions);
      ok := Write(dst, Imm(v.target));
    }

    method OpClearList(registers: seq<nat>) returns (ok: bool)
      requires Running()
      modifies this`stack, this`heap, this`counts, this`hand, this`doomed
      ensures ok == Allowed(ClearList(registers), old(Snapshot()))
      ensures ok ==> Running() && Effect(ClearList(registers), old(Snapshot()), Snapshot())
    {
      hide Sound, FramesOk, Cleared, ClearedAll, Found, Blanked;
      TopFits(frames, |stack|);
      FoundNone(stack, Current().base, heap);
      var k := 0;
      while k < |registers|
        invariant k <= |registers| && Running() && |stack| == |old(stack)|
        invariant forall i :: 0 <= i < k ==> registers[i] < Current().locals
        invariant Blanked(old(stack), stack, Current().base, registers[..k])
        invariant ClearedAll(old(heap), Found(old(stack), Current().base, registers[..k]), heap)
      {
        if registers[k] >= Current().locals {
          return false;
        }
        ghost var held, between := stack[Slot(registers[k])], heap;
        BlankedMore(old(stack), stack, Current().base, registers, k);
        ClearRegister(Slot(registers[k]));
        FoundMore(old(stack), Current().base, registers, k, old(heap), between, heap, held);
        k := k + 1;
      }
      assert registers[..k] == registers;
      ok := true;
    }

    // ----- calls -----

    method PushFrame(header: Header, base: nat, halts: bool)
      requires Sound(View())
      modifies this`stack, this`frames
      ensures Sound(View())
      ensures frames == old(frames) + [Frame(base, header.locals, header.argc, header.retc, halts)]
      ensures base + header.locals <= |stack| && |old(stack)| <= |stack| && old(stack) == stack[..|old(stack)|]
      ensures forall j :: |old(stack)| <= j < |stack| ==> stack[j].Uninit?
    {
      hide Sound;
      var size := NextPow2(base + header.locals);
      if |stack| < size {
        GrownSound(View(), size - |stack|);
        stack := stack + Blank(size - |stack|);
      }
      frames := frames + [Frame(base, header.locals, header.argc, header.retc, halts)];
    }

    /** The callee's window starts at the call space of the caller. */
    method OpCall(callspace: nat, header: Header) returns (ok: bool)
      requires Running()
      modifies this`stack, this`frames
      ensures ok == Allowed(Call(callspace, header), old(Snapshot()))
      ensures ok ==> Running() && Effect(Call(callspace, header), old(Snapshot()), Snapshot())
      ensures ok && ClearAbove(old(frames), old(stack)) ==> ClearAbove(frames, stack)
    {
      hide Sound, FramesOk, ClearAbove;
      if callspace == 0 || callspace > Current().locals {
        return false;
      }
      TopFits(frames, |stack|);
      if stack[Slot(Current().locals - callspace)].Uninit? {
        return false;
      }
      var base := Top(Current()) - callspace;
      PushFrame(header, base, false);
      if callspace < header.argc || callspace < header.retc {
        return false;
      }
      CallFrames(old(frames), old(stack), stack, frames[|frames| - 1]);
      ok := true;
    }

    /** Clears the registers of a frame above its results, unless one of them owns something. */
    method ClearScratch(f: Frame) returns (ok: bool)
      requires Sound(View()) && hand == [] && doomed == {} && Top(f) <= |stack|
      modifies this`stack, this`heap, this`counts, this`hand, this`doomed
      ensures ok == Scratch(f, old(stack))
      ensures Sound(View()) && hand == [] && doomed == {}
      ensures ok ==> Returned(f, old(stack), stack) && heap == old(heap)
    {
      hide Sound;
      var i := f.base + f.retc;
      while i < Top(f)
        invariant f.base + f.retc <= i
        invariant Sound(View()) && hand == [] && doomed == {} && |stack| == |old(stack)| && heap == old(heap)
        invariant forall j :: f.base + f.retc <= j < i && j < Top(f) ==> Clearable(old(stack)[j])
        invariant forall j :: 0 <= j < |stack| ==>
          stack[j] == if f.base + f.retc <= j < i && j < Top(f) then Uninit else old(stack)[j]
      {
        assert stack[i] == old(stack)[i];
        if !Clearable(stack[i]) {
          return false;
        }
        ClearRegister(i);
        i := i + 1;
      }
      ok := true;
    }

    /**
     Only registers that own nothing may be left behind.  The caller continues with a clear stack
     above it; the return that ends the run leaves nothing but its return registers.
     */
    method OpReturn() returns (ok: bool)
      requires Running()
      modifies this`stack, this`heap, this`counts, this`hand, this`doomed, this`frames, this`halted
      ensures ok == Allowed(Return, old(Snapshot()))
      ensures ok ==> Effect(Return, old(Snapshot()), Snapshot())
      ensures ok ==> Sound(View()) && hand == [] && doomed == {} && FramesOk(frames, |stack|)
      ensures ok && frames != [] ==> Running()
      ensures ok && frames != [] && ClearAbove(old(frames), old(stack)) ==> ClearAbove(frames, stack)
    {
      hide Sound, FramesOk, Cleared;
      TopFits(frames, |stack|);
      var f := Current();
      ok := ClearScratch(f);
      if !ok || (!f.halts && |frames| < 2) {
        return false;
      }
      if f.halts {
        halted := true;
      }
      frames := frames[..|frames| - 1];
      ReturnFrames(old(frames), old(stack), stack);
    }

    // ----- messages -----

    /** The count in the register goes to the message at the end of the queue, with a reference to it. */
    method CaptureCown(i: nat, c: CownId)
      requires Sound(View()) && hand == [] && i < |stack| && stack[i] == Cown(c) && queue != []
      requires var m := queue[|queue| - 1]; 1 <= |m.args| == |m.cowns| + 1 && |m.args| <= m.cownCount
      modifies this`stack, this`queue, this`hand
      ensures Sound(View()) && hand == [] && stack == old(stack)[i := Uninit]
      ensures var m := old(queue)[|old(queue)| - 1];
        queue == old(queue)[|old(queue)| - 1 := Message(m.args + [Unowned(c)], m.cowns + [c], m.cownCount)]
    {
      hide Sound;
      ghost var last := |queue| - 1;
      TakenSound(View(), i);
      CownGivenSound(Taken(View(), i), last);
      ReferenceGivenSound(CownGiven(Taken(View(), i), last), last);
      ghost var after := ReferenceGiven(CownGiven(Taken(View(), i), last), last);
      stack := stack[i := Uninit];
      var m := queue[|queue| - 1];
      queue := queue[|queue| - 1 := Message(m.args + [Unowned(c)], m.cowns + [c], m.cownCount)];
      assert after.hand == [];
      assert View() == after;
    }

    /** Whatever the register holds moves to the message at the end of the queue. */
    method CaptureValue(i: nat)
      requires Sound(View()) && hand == [] && i < |stack| && queue != []
      requires |queue[|queue| - 1].args| > queue[|queue| - 1].cownCount
      modifies this`stack, this`queue, this`hand
      ensures Sound(View()) && hand == [] && stack == old(stack)[i := Uninit]
      ensures var m := old(queue)[|old(queue)| - 1];
        queue == old(queue)[|old(queue)| - 1 := Message(m.args + [old(stack)[i]], m.cowns, m.cownCount)]
    {
      hide Sound;
      ghost var last := |queue| - 1;
      TakenSound(View(), i);
      ArgumentGivenSound(Taken(View(), i), last);
      ghost var after := ArgumentGiven(Taken(View(), i), last);
      var m, v := queue[|queue| - 1], stack[i];
      stack := stack[i := Uninit];
      queue := queue[|queue| - 1 := Message(m.args + [v], m.cowns, m.cownCount)];
      assert after.hand == [];
      assert View() == after;
    }

    /** A message without cowns runs on a fresh one. */
    method AddFakeCown(c: CownId)
      requires Sound(View()) && hand == [] && queue != [] && c !in counts
      modifies this`queue, this`heap, this`counts, this`hand
      ensures Sound(View()) && hand == [] && heap == old(heap).(contents := old(heap).contents[c := None])
      ensures var m := old(queue)[|old(queue)| - 1];
        queue == old(queue)[|old(queue)| - 1 := Message(m.args, m.cowns + [c], m.cownCount)]
    {
      hide Sound;
      MakeCown(c);
      ghost var s := View();
      CownGivenSound(s, |queue| - 1);
      var m := queue[|queue| - 1];
      queue := queue[|queue| - 1 := Message(m.args, m.cowns + [c], m.cownCount)];
      hand := [];
      assert View() == CownGiven(s, |s.queue| - 1);
    }

    /** The registers of the cowns, from `b` on. */
    method CaptureCowns(b: nat, n: nat) returns (ok: bool)
      requires Sound(View()) && hand == [] && b + n <= |stack| && queue != []
      requires queue[|queue| - 1] == Message([Uninit], [], n)
      modifies this`stack, this`queue, this`hand
      ensures ok == AllCowns(old(stack)[b..b + n])
      ensures Sound(View()) && hand == [] && |queue| == |old(queue)| && queue[|queue| - 1].cownCount == n
      ensures queue[..|queue| - 1] == old(queue)[..|queue| - 1]
      ensures ok ==> Emptied(old(stack), stack, b, b + n) && CapturedCowns(old(stack), queue[|queue| - 1], b, n)
    {
      hide Sound;
      var k := 0;
      while k < n
        invariant k <= n && Sound(View()) && hand == []
        invariant |queue| == |old(queue)| && queue[..|queue| - 1] == old(queue)[..|queue| - 1]
        invariant queue[|queue| - 1].cownCount == n
        invariant Emptied(old(stack), stack, b, b + k) && CapturedCowns(old(stack), queue[|queue| - 1], b, k)
      {
        var v := stack[b + k];
        assert v == old(stack)[b + k] == old(stack)[b..b + n][k];
        if !v.Cown? {
          return false;
        }
        CaptureCown(b + k, v.cown);
        k := k + 1;
      }
      ghost var registers := old(stack)[b..b + n];
      forall j | 0 <= j < n ensures registers[j].Cown? {
        assert old(stack)[b + j] == Cown(queue[|queue| - 1].cowns[j]);
      }
      ok := true;
    }

    method CaptureValues(b: nat, n: nat)
      requires Sound(View()) && hand == [] && b + n <= |stack| && queue != []
      requires |queue[|queue| - 1].args| > queue[|queue| - 1].cownCount
      modifies this`stack, this`queue, this`hand
      ensures Sound(View()) && hand == []
      ensures |queue| == |old(queue)| && queue[..|queue| - 1] == old(queue)[..|queue| - 1]
      ensures Emptied(old(stack), stack, b, b + n)
      ensures var m := old(queue)[|queue| - 1];
        queue[|queue| - 1] == Message(m.args + old(stack)[b..b + n], m.cowns, m.cownCount)
    {
      hide Sound;
      var k := 0;
      ghost var m := queue[|queue| - 1];
      while k < n
        invariant k <= n && Sound(View()) && hand == []
        invariant |queue| == |old(queue)| && queue[..|queue| - 1] == old(queue)[..|queue| - 1]
        invariant Emptied(old(stack), stack, b, b + k)
        invariant queue[|queue| - 1] == Message(m.args + old(stack)[b..b + k], m.cowns, m.cownCount)
      {
        assert stack[b + k] == old(stack)[b + k];
        assert old(stack)[b..b + k + 1] == old(stack)[b..b + k] + [old(stack)[b + k]];
        CaptureValue(b + k);
        k := k + 1;
      }
    }

    /** Appends the message that is made of the cowns and captures in the registers from `b` on. */
    method BuildMessage(b: nat, cownCount: nat, captureCount: nat, c: CownId) returns (ok: bool)
      requires Sound(View()) && hand == [] && b + cownCount + captureCount <= |stack| && c !in counts
      modifies this`stack, this`queue, this`heap, this`counts, this`hand
      ensures ok == AllCowns(old(stack)[b..b + cownCount])
      ensures ok ==> Sound(View()) && hand == [] && Emptied(old(stack), stack, b, b + cownCount + captureCount)
      ensures ok ==> |queue| == |old(queue)| + 1 && queue[..|old(queue)|] == old(queue)
      ensures ok ==>
        heap == if cownCount == 0 then old(heap).(contents := old(heap).contents[c := None]) else old(heap)
      ensures ok ==> Sent(old(stack), queue[|old(queue)|], b, cownCount, captureCount, c)
    {
      hide Sound;
      NewMessageSound(View(), cownCount);
      queue := queue + [Message([Uninit], [], cownCount)];
      ok := CaptureCowns(b, cownCount);
      if !ok {
        return;
      }
      ghost var between := stack;
      ghost var message := queue[|queue| - 1];
      CaptureValues(b + cownCount, captureCount);
      EmptiedTwice(old(stack), between, stack, b, b + cownCount, b + cownCount + captureCount);
      SentIs(old(stack), between, message, b, cownCount, captureCount);
      if cownCount == 0 {
        AddFakeCown(c);
      }
    }

    /**
     Sends a message: the counts of the cowns and everything the captured registers hold move into
     it, and the message refers to its cowns without counts of its own.
     */
    method OpWhen(cownCount: nat, captureCount: nat, argc: nat, c: CownId) returns (ok: bool)
      requires Running() && c !in counts
      modifies this`stack, this`queue, this`heap, this`counts, this`hand
      ensures ok == Allowed(When(cownCount, captureCount, argc, c), old(Snapshot()))
      ensures ok ==> Running() && Effect(When(cownCount, captureCount, argc, c), old(Snapshot()), Snapshot())
    {
      hide Sound, FramesOk, Sent, Cleared;
      TopFits(frames, |stack|);
      if cownCount + captureCount + 1 > Current().locals || cownCount + captureCount + 1 > argc {
        return false;
      }
      var b := Top(Current()) - cownCount - captureCount;
      ok := BuildMessage(b, cownCount, captureCount, c);
    }

    /** Passes one argument of a message to the register of that number. */
    method PassArgument(m: nat, i: nat)
      requires Sound(View()) && hand == [] && doomed == {} && m < |queue| && i < |queue[m].args| && i < |stack|
      requires Deliverable(heap, queue[m])
      modifies this`stack, this`queue, this`heap, this`counts, this`hand, this`doomed
      ensures Sound(View()) && hand == [] && doomed == {}
      ensures stack == old(stack)[i := Passed(old(heap), old(queue)[m], i)]
      ensures heap.contents == old(heap).contents
      ensures |queue| == |old(queue)| && (forall k :: 0 <= k < |queue| && k != m ==> queue[k] == old(queue)[k])
      ensures queue[m] == Opened(old(queue)[m], i)
      ensures Cleared(old(heap), heap, old(stack)[i])
    {
      hide Sound, Cleared;
      var message := queue[m];
      if 1 <= i <= message.cownCount {
        ArgumentIs(View(), m, i);
        var v := Mut(heap.contents[message.args[i].cown].value);
        PlainSound(View(), v);
        hand := hand + [v];
        Overwrite(i, v);
      } else {
        ArgumentTakenSound(View(), m, i);
        ghost var taken := ArgumentTaken(View(), m, i);
        queue := queue[m := Message(message.args[i := Uninit], message.cowns, message.cownCount)];
        hand := hand + [message.args[i]];
        assert View() == taken;
        Overwrite(i, message.args[i]);
      }
    }

    /**
     Runs a message on an empty frame stack.  Its cowns are passed as borrows of their contents, and
     their counts stay with the message; everything else moves into the registers.  What an earlier
     run left behind stays above the frame exactly when it lay there.
     */
    method Run(m: nat, header: Header) returns (ok: bool)
      requires Sound(View()) && hand == [] && doomed == {} && frames == [] && m < |queue|
      requires Deliverable(heap, queue[m])
      modifies this
      ensures ok == (header.argc == |old(queue)[m].args| <= header.locals)
      ensures ok ==> Sound(View()) && hand == [] && doomed == {} && !halted
      ensures ok ==> frames == [Frame(0, header.locals, header.argc, header.retc, true)] && FramesOk(frames, |stack|)
      ensures ok ==> Started(m, header, old(Snapshot()), Snapshot())
      ensures ok ==> (ClearAbove(frames, stack) <==> forall j :: header.locals <= j < |old(stack)| ==>
        old(stack)[j].Uninit?)
      ensures ok ==> m < |queue| && OwnsNothing(queue[m].args) && queue[m].cowns == old(queue)[m].cowns
    {
      hide Sound, FramesOk, Cleared, ClearedAll;
      halted := false;
      PushFrame(header, 0, true);
      if header.argc != |queue[m].args| {
        return false;
      }
      ghost var message, grown := queue[m], stack;
      ok := PassArguments(m, header.locals);
      if !ok {
        return;
      }
      OpenedOwnsNothing(View(), m, message);
      RunFrame(frames[0], old(stack), stack, |message.args|);
      assert grown[..|message.args|] == Covered(old(stack), |message.args|);
    }

    /** Passes all arguments of a message, unless there are more than registers. */
    method PassArguments(m: nat, locals: nat) returns (ok: bool)
      requires Sound(View()) && hand == [] && doomed == {} && m < |queue| && locals <= |stack|
      requires Deliverable(heap, queue[m])
      modifies this`stack, this`queue, this`heap, this`counts, this`hand, this`doomed
      ensures ok == (|old(queue)[m].args| <= locals)
      ensures Sound(View()) && hand == [] && doomed == {} && |queue| == |old(queue)| && |stack| == |old(stack)|
      ensures forall k :: 0 <= k < |queue| && k != m ==> queue[k] == old(queue)[k]
      ensures var message := old(queue)[m]; var n := |message.args|;
        ok ==>
          && (forall j :: 0 <= j < |stack| ==>
                stack[j] == if j < n then Passed(old(heap), message, j) else old(stack)[j])
          && PartlyOpened(message, queue[m], n) && ClearedAll(old(heap), old(stack)[..n], heap)
    {
      hide Sound, Cleared, ClearedAll;
      ghost var message := queue[m];
      ClearedNone(heap);
      assert stack[..0] == [];
      var i := 0;
      while i < |queue[m].args|
        invariant i <= |message.args| && m < |queue| == |old(queue)| && |queue[m].args| == |message.args|
        invariant Sound(View()) && hand == [] && doomed == {} && heap.contents == old(heap).contents
        invariant |stack| == |old(stack)| && i <= locals
        invariant forall j :: 0 <= j < |stack| ==>
          stack[j] == if j < i then Passed(old(heap), message, j) else old(stack)[j]
        invariant PartlyOpened(message, queue[m], i)
        invariant forall k :: 0 <= k < |queue| && k != m ==> queue[k] == old(queue)[k]
        invariant ClearedAll(old(heap), old(stack)[..i], heap)
      {
        if i >= locals {
          return false;
        }
        ghost var between := heap;
        PassArgument(m, i);
        ClearedMore(old(heap), old(stack), i, between, heap);
        i := i + 1;
      }
      ok := true;
    }

    /** After the run the runtime gives back the counts of the message's cowns. */
    method Finish(m: nat)
      requires Sound(View()) && hand == [] && doomed == {} && m < |queue| && OwnsNothing(queue[m].args)
      modifies this`queue, this`counts, this`hand, this`heap, this`doomed
      ensures Sound(View()) && hand == [] && doomed == {} && heap == old(heap)
      ensures queue == old(queue)[m := Message([], [], 0)]
    {
      hide Sound;
      ArgumentsGoneSound(View(), m);
      queue := queue[m := Message([], queue[m].cowns, 0)];
      while queue[m].cowns != []
        invariant Sound(View()) && hand == [] && doomed == {} && heap == old(heap) && m < |queue|
        invariant queue == old(queue)[m := Message([], queue[m].cowns, 0)]
        decreases |queue[m].cowns|
      {
        var cowns := queue[m].cowns;
        CownTakenSound(View(), m);
        ghost var taken := CownTaken(View(), m);
        queue := queue[m := Message([], cowns[..|cowns| - 1], 0)];
        hand := hand + [Cown(cowns[|cowns| - 1])];
        assert View() == taken;
        ClearHeld(Cown(cowns[|cowns| - 1]));
      }
    }

    // ----- runs -----

    /** The opcodes that move values between registers and fields. */
    method StepValue(op: Op) returns (ok: bool)
      requires Running() && Fresh(op, heap) && MovesValues(op)
      modifies this`stack, this`heap, this`counts, this`hand, this`doomed
      ensures ok == Allowed(op, old(Snapshot()))
      ensures ok ==> Running() && Effect(op, old(Snapshot()), Snapshot())
    {
      hide Sound, FramesOk, Cleared, Wrote;
      match op {
        case Plain(dst, v) => ok := OpPlain(dst, v);
        case ClearList(registers) => ok := OpClearList(registers);
        case Copy(dst, src) => ok := OpCopy(dst, src);
        case Move(dst, src) => ok := OpMove(dst, src);
        case MutView(dst, src) => ok := OpMutView(dst, src);
        case Load(dst, base, index) => ok := OpLoad(dst, base, index);
        case Exchange(dst, base, index, src) => ok := OpStore(dst, base, index, src);
        case Skip => ok := true;
      }
    }

    /** The opcodes that make or pass on owners, and the others that keep to their frame. */
    method StepOwner(op: Op) returns (ok: bool)
      requires Running() && Fresh(op, heap) && !op.Call? && !op.Return?
      modifies this`stack, this`heap, this`counts, this`holds, this`queue, this`hand, this`doomed
      ensures ok == Allowed(op, old(Snapshot()))
      ensures ok ==> Running() && Effect(op, old(Snapshot()), Snapshot())
    {
      hide Sound, FramesOk, Allowed, Effect;
      if MovesValues(op) {
        ok := StepValue(op);
        return;
      }
      CountsKnown(View());
      match op {
        case NewRegion(dst, o, fields) => ok := OpNewRegion(dst, o, fields);
        case NewObject(dst, parent, o, fields) => ok := OpNewObject(dst, parent, o, fields);
        case NewCown(dst, src, c) => ok := OpNewCown(dst, src, c);
        case NewSleepingCown(dst, c) => ok := OpNewSleepingCown(dst, c);
        case Fulfill(cown, src) => ok := OpFulfill(cown, src);
        case Freeze(dst, src) => ok := OpFreeze(dst, src);
        case When(cownCount, captureCount, argc, c) => ok := OpWhen(cownCount, captureCount, argc, c);
      }
    }

    /** An opcode that keeps to the window of its frame. */
    method StepInFrame(op: Op) returns (ok: bool)
      requires Running() && Fresh(op, heap) && !op.Call? && !op.Return?
      modifies this`stack, this`heap, this`counts, this`holds, this`queue, this`hand, this`doomed
      ensures ok == Allowed(op, old(Snapshot()))
      ensures ok ==> Running() && Effect(op, old(Snapshot()), Snapshot())
      ensures ok ==> BelowKept(old(stack), stack, Current().base) && NextFrames(frames, frames) && old(queue) <= queue
      ensures ok && ClearAbove(frames, old(stack)) ==> ClearAbove(frames, stack)
    {
      hide Sound, FramesOk, ClearAbove, NextFrames, BelowKept, Allowed, Effect, OnlyWindow;
      TopFits(frames, |stack|);
      ok := StepOwner(op);
      if ok {
        EffectInWindow(op, old(Snapshot()), Snapshot());
        WindowClear(frames, old(stack), stack);
      }
    }

    /** A return pops its frame and leaves the registers below its results alone. */
    method StepReturn() returns (ok: bool)
      requires Running()
      modifies this`stack, this`heap, this`counts, this`hand, this`doomed, this`frames, this`halted
      ensures ok == Allowed(Return, old(Snapshot()))
      ensures ok ==> Effect(Return, old(Snapshot()), Snapshot())
      ensures ok ==> Sound(View()) && hand == [] && doomed == {} && FramesOk(frames, |stack|)
      ensures ok && frames != [] ==> Running()
      ensures ok ==> |frames| < |old(frames)| && NextFrames(old(frames), frames)
      ensures ok ==> BelowKept(old(stack), stack, old(Current().base))
      ensures ok ==> halted == (old(Current()).halts || old(halted)) && Returned(old(Current()), old(stack), stack)
      ensures ok && frames != [] && ClearAbove(old(frames), old(stack)) ==> ClearAbove(frames, stack)
    {
      hide Sound, FramesOk, ClearAbove, Returned, Scratch, NextFrames, BelowKept;
      ok := OpReturn();
      if ok {
        ReturnKeepsBelow(old(Current()), old(stack), stack);
        PopNext(old(frames));
      }
    }

    /** A call pushes its frame and leaves all registers alone. */
    method StepCall(callspace: nat, header: Header) returns (ok: bool)
      requires Running()
      modifies this`stack, this`frames
      ensures ok == Allowed(Call(callspace, header), old(Snapshot()))
      ensures ok ==> Running() && Effect(Call(callspace, header), old(Snapshot()), Snapshot())
      ensures ok ==> |frames| > |old(frames)| && NextFrames(old(frames), frames)
      ensures ok ==> BelowKept(old(stack), stack, old(Current().base))
      ensures ok && ClearAbove(old(frames), old(stack)) ==> ClearAbove(frames, stack)
    {
      hide Sound, FramesOk, ClearAbove, NextFrames, BelowKept;
      ok := OpCall(callspace, header);
      if ok {
        CallNext(old(frames), frames[|frames| - 1], old(stack), stack);
      }
    }

    /**
     One opcode, and no other: it stops the machine exactly where it may not be, and does what it is for.
     Whatever is on the stack, it keeps ownership sound, changes nothing below the base of its frame,
     and keeps the slots above the frames empty if they were.
     */
    method Step(op: Op) returns (ok: bool)
      requires Running() && Fresh(op, heap)
      modifies this
      ensures ok == Allowed(op, old(Snapshot()))
      ensures ok ==> Effect(op, old(Snapshot()), Snapshot())
      ensures ok ==> Sound(View()) && hand == [] && doomed == {} && FramesOk(frames, |stack|)
      ensures ok && frames != [] ==> Running()
      ensures ok ==> BelowKept(old(stack), stack, old(Current().base)) && NextFrames(old(frames), frames)
      ensures ok && |frames| >= |old(frames)| ==> halted == old(halted)
      ensures ok && |frames| < |old(frames)| ==>
        halted == (old(Current()).halts || old(halted)) && Returned(old(Current()), old(stack), stack)
      ensures ok && frames != [] && ClearAbove(old(frames), old(stack)) ==> ClearAbove(frames, stack)
      ensures ok ==> old(queue) <= queue
    {
      hide Sound, FramesOk, ClearAbove, Returned, NextFrames, BelowKept, Allowed, Effect;
      match op {
        case Call(callspace, header) => ok := StepCall(callspace, header);
        case Return => ok := StepReturn();
        case _ => ok := StepInFrame(op);
      }
    }

    /**
     A call and what follows, up to the matching return if it is reached.  Through any nested calls the
     frames of the callers stay, and the caller's registers below the call space keep their values.
     */
    method RunCall(callspace: nat, header: Header, ops: seq<Op>) returns (ok: bool, ghost configs: seq<Config>)
      requires Running()
      modifies this
      ensures ok ==> |frames| >= |old(frames)| && frames[..|old(frames)|] == old(frames)
      ensures ok ==> 0 < callspace <= old(Current().locals)
      ensures ok ==> BelowKept(old(stack), stack, old(Top(Current())) - callspace)
      ensures ok ==> Running() && halted == old(halted)
      ensures ok && ClearAbove(old(frames), old(stack)) ==> ClearAbove(frames, stack)
      ensures ok ==> Chain([Call(callspace, header)] + ops, configs)
      ensures ok ==> configs[0] == old(Snapshot()) && configs[|configs| - 1] == Snapshot()
    {
      hide Sound, FramesOk, NextFrames, ClearAbove, Allowed, Effect, Chain, BelowKept, Inside;
      TopFits(frames, |stack|);
      ok := OpCall(callspace, header);
      if !ok {
        return ok, [];
      }
      Called(callspace, header, old(Snapshot()), Snapshot());
      InsideFirst(old(frames), frames, old(stack), stack);
      ghost var entered, base := Snapshot(), Current().base;
      assert frames[..|old(frames)|] == old(frames);
      ok, configs := RunAbove(|frames| - 1, ops, base);
      if ok {
        InsideCallers(old(frames), frames, base);
        BelowTwice(old(stack), entered.stack, stack, base);
        ChainBefore(Call(callspace, header), old(Snapshot()), ops, configs);
        configs := [old(Snapshot())] + configs;
      }
    }

    /** Opcodes in turn, until the frames above `depth` have returned. */
    method RunAbove(depth: nat, ops: seq<Op>, ghost base: nat) returns (ok: bool, ghost configs: seq<Config>)
      requires Running() && 0 < depth < |frames| && Inside(frames[..depth], frames, base)
      modifies this
      ensures ok ==> Running() && halted == old(halted) && Inside(old(frames)[..depth], frames, base)
      ensures ok ==> BelowKept(old(stack), stack, base)
      ensures ok && ClearAbove(old(frames), old(stack)) ==> ClearAbove(frames, stack)
      ensures ok ==> configs != [] && Chain(ops, configs)
      ensures ok ==> configs[0] == old(Snapshot()) && configs[|configs| - 1] == Snapshot()
    {
      hide Sound, FramesOk, NextFrames, ClearAbove, Allowed, Effect, Chain, BelowKept, Inside;
      ghost var callers := frames[..depth];
      configs := [Snapshot()];
      ChainFirst(ops, Snapshot());
      BelowNow(stack, base);
      ok := true;
      var i := 0;
      while i < |ops| && |frames| > depth
        invariant 0 <= i <= |ops| && ok && Running() && halted == old(halted)
        invariant Inside(callers, frames, base) && BelowKept(old(stack), stack, base)
        invariant ClearAbove(old(frames), old(stack)) ==> ClearAbove(frames, stack)
        invariant |configs| == i + 1 && Chain(ops, configs)
        invariant configs[0] == old(Snapshot()) && configs[i] == Snapshot()
      {
        if !Fresh(ops[i], heap) {
          return false, configs;
        }
        ghost var before, held := frames, stack;
        TopFits(frames, |stack|);
        InsideCallers(callers, frames, base);
        ok := Step(ops[i]);
        if !ok {
          return;
        }
        NextInside(callers, before, frames, base);
        StillBelow(callers, before, old(stack), held, stack, base);
        InsideCallers(callers, frames, base);
        ChainMore(ops, configs, Snapshot());
        configs := configs + [Snapshot()];
        i := i + 1;
      }
    }

    /**
     A whole run, from its first frame on: a chain of the effects of its opcodes in turn, to the return that
     ends it, or up to the opcode that stops the machine.  Ownership stays sound throughout.  If the
     slots above the first frame were empty, those above the live frames stay so, and when the run has
     ended only its return registers may hold anything.
     */
    method Execute(ops: seq<Op>) returns (ok: bool, ghost configs: seq<Config>)
      requires Running() && |frames| == 1 && frames[0].halts && frames[0].base == 0 && !halted
      modifies this
      ensures Chain(ops, configs) && configs[0] == old(Snapshot())
      ensures ok ==> configs[|configs| - 1] == Snapshot() && (halted || |configs| == |ops| + 1)
      ensures !ok ==> |configs| <= |ops| && Stops(ops[|configs| - 1], configs[|configs| - 1])
      ensures ok ==> Sound(View()) && hand == [] && doomed == {} && old(queue) <= queue
      ensures ok && !halted ==> Running() && frames[0] == old(frames)[0]
      ensures ok && halted ==> frames == []
      ensures ok && ClearAbove(old(frames), old(stack)) ==>
        if !halted then ClearAbove(frames, stack)
        else forall j :: old(frames)[0].retc <= j < |stack| ==> stack[j].Uninit?
    {
      hide Sound, ClearAbove, Allowed, Effect, Chain;
      var i := 0;
      ok := true;
      ghost var first := frames[0];
      configs := [Snapshot()];
      ChainFirst(ops, Snapshot());
      while i < |ops| && !halted
        invariant 0 <= i <= |ops| && ok && Sound(View()) && hand == [] && doomed == {} && old(queue) <= queue
        invariant if halted then frames == [] else Running() && frames[0] == first
        invariant forall k :: 0 < k < |frames| ==> !frames[k].halts
        invariant ClearAbove(old(frames), old(stack)) ==>
          if !halted then ClearAbove(frames, stack) else forall j :: first.retc <= j < |stack| ==> stack[j].Uninit?
        invariant |configs| == i + 1 && Chain(ops, configs)
        invariant configs[0] == old(Snapshot()) && configs[i] == Snapshot()
      {
        if !Fresh(ops[i], heap) {
          return false, configs;
        }
        ghost var before, held := frames, stack;
        ok := Step(ops[i]);
        if !ok {
          return;
        }
        if frames == [] {
          assert before == [first];
          LastReturn(first, held, stack);
        } else {
          NextPrefix(before, frames, 1);
        }
        ChainMore(ops, configs, Snapshot());
        configs := configs + [Snapshot()];
        i := i + 1;
      }
    }

    /**
     Any number of messages, each run to its end and its cowns given back, in any order and whatever the
     runs before have left on the stack: ownership is sound after each, and no value is in hand.
     */
    method Serve(jobs: seq<Job>) returns (ok: bool, ghost configs: seq<Config>)
      requires Sound(View()) && hand == [] && doomed == {} && frames == []
      modifies this
      ensures ok ==> Sound(View()) && hand == [] && doomed == {} && frames == []
      ensures ok ==> |configs| == |jobs| + 1 && configs[0] == old(Snapshot()) && configs[|jobs|] == Snapshot()
      ensures ok ==> forall k :: 0 <= k < |jobs| ==> Served(jobs[k], configs[k], configs[k + 1])
    {
      hide Sound, FramesOk, ClearAbove, Served, Started, Chain;
      var i := 0;
      configs := [Snapshot()];
      while i < |jobs|
        invariant 0 <= i <= |jobs| && Sound(View()) && hand == [] && doomed == {} && frames == []
        invariant |configs| == i + 1 && configs[0] == old(Snapshot()) && configs[i] == Snapshot()
        invariant forall k :: 0 <= k < i ==> Served(jobs[k], configs[k], configs[k + 1])
      {
        var job := jobs[i];
        if job.message >= |queue| || !Deliverable(heap, queue[job.message]) {
          return false, configs;
        }
        ok := Run(job.message, job.header);
        if !ok {
          return;
        }
        ghost var run;
        ok, run := Execute(job.ops);
        if !ok || !halted {
          return false, configs;
        }
        Finish(job.message);
        JobServed(job, configs[i], run, Snapshot());
        configs := configs + [Snapshot()];
        i := i + 1;
      }
      ok := true;
    }
  }

  /** The stack after an operand has been consumed. */
  function After(stack: seq<Value>, i: nat): seq<Value>
    requires i < |stack|
  {
    if stack[i].Iso? then stack[i := Uninit] else stack
  }

  /** A reference that can be followed to a field; a borrow of something gone or frozen cannot. */
  predicate Readable(h: Heap, b: Value, index: nat) {
    && (b.Iso? || b.Mut? || b.Imm?) && b.target in h.objects && index < |h.objects[b.target].fields|
    && (b.Imm? || !Frozen(h, b.target))
  }

  predicate Writable(h: Heap, b: Value, index: nat, v: Value) {
    && (b.Iso? || b.Mut?) && b.target in h.objects && index < |h.objects[b.target].fields|
    && !Frozen(h, b.target) && Storable(h, b.target, v)
  }

  function FieldRead(f: Value, immutable: bool): (r: Value)
    ensures !r.Iso?
    ensures f.Iso? || f.Mut? ==> (r.Mut? || r.Imm?) && r.target == f.target && r.Imm? == immutable
    ensures !f.Iso? && !f.Mut? ==> r == f
  {
    match f
    case Iso(r) => if immutable then Imm(r) else Mut(r)
    case Mut(o) => if immutable then Imm(o) else Mut(o)
    case _ => f
  }

  lemma FieldReadSound(s: Store, i: nat, index: nat)
    requires Sound(s) && i < |s.stack| && Readable(s.heap, s.stack[i], index)
    ensures var v := FieldRead(s.heap.objects[s.stack[i].target].fields[index], s.stack[i].Imm?);
      SoundValue(s.heap, v, false) && (v.Cown? ==> v.cown in s.counts)
  {
    var o := s.stack[i].target;
    assert SoundValue(s.heap, s.stack[i], false);
    assert SoundObject(s.heap, o);
    assert SoundField(s.heap, s.heap.objects[o].region, s.heap.objects[o].fields[index]);
  }

  lemma ObjectSound(s: Store, o: Ref)
    requires Sound(s) && o in s.heap.objects
    ensures Entry(s.heap, s.heap.objects[o].region)
  {
    assert SoundObject(s.heap, o);
  }

  /** The heap without the objects of some regions, and without what those regions kept alive. */
  ghost predicate Without(before: Heap, after: Heap, gone: set<Ref>) {
    && (forall o :: o in after.objects <==> o in before.objects && before.objects[o].region !in gone)
    && (forall o :: o in after.objects ==> after.objects[o] == before.objects[o])
    && (forall p :: p in after.remembered <==> p in before.remembered && p.0 !in gone)
    && after.frozen == before.frozen && after.contents == before.contents
  }

  ghost predicate OwnedBy(h: Heap, regions: set<Ref>, q: Ref) {
    exists o, i :: InRegions(h, o, regions) && OwnedFrom(h, o, i, q)
  }

  ghost predicate ClosedUnder(h: Heap, regions: set<Ref>, all: set<Ref>) {
    forall o, i, q :: InRegions(h, o, regions) && OwnedFrom(h, o, i, q) ==> q in all
  }

  ghost predicate OwnedWithin(h: Heap, r: Ref, regions: set<Ref>, all: set<Ref>) {
    forall q :: q in all && q != r ==> OwnedBy(h, regions, q)
  }

  /** All regions seen so far are the region itself and those owned from inside the ones dealt with. */
  ghost predicate Releasing(h: Heap, r: Ref, done: set<Ref>, all: set<Ref>) {
    && r in all && done <= all
    && (forall q :: q in all ==> Entry(h, q) && q !in h.frozen)
    && ClosedUnder(h, done, all) && OwnedWithin(h, r, done, all)
  }

  lemma ReleasingFirst(h: Heap, r: Ref)
    requires Entry(h, r) && r !in h.frozen
    ensures Releasing(h, r, {}, {} + {r}) && Without(h, h, {})
  {
  }

  lemma ReleasedAll(h: Heap, r: Ref, regions: set<Ref>)
    requires Releasing(h, r, regions, regions)
    ensures OwnedRegions(h, r, regions)
  {
    forall q | q in regions && q != r ensures exists o, i :: InRegions(h, o, regions) && OwnedFrom(h, o, i, q) {
      assert OwnedBy(h, regions, q);
    }
  }

  lemma ClosedMore(h: Heap, done: set<Ref>, all: set<Ref>, q: Ref)
    requires ClosedUnder(h, done, all)
    ensures ClosedUnder(h, done + {q}, all + Inner(h, q))
  {
    forall o, i, p | InRegions(h, o, done + {q}) && OwnedFrom(h, o, i, p) ensures p in all + Inner(h, q) {
      assert InRegions(h, o, done) || h.objects[o].region == q;
    }
  }

  lemma OwnedMore(h: Heap, r: Ref, done: set<Ref>, all: set<Ref>, q: Ref)
    requires OwnedWithin(h, r, done, all)
    ensures OwnedWithin(h, r, done + {q}, all + Inner(h, q))
  {
    forall p | p in all + Inner(h, q) && p != r ensures OwnedBy(h, done + {q}, p) {
      if p in Inner(h, q) {
        var o, i := InnerField(h, q, p);
        assert InRegions(h, o, done + {q}) && OwnedFrom(h, o, i, p);
      } else {
        assert OwnedBy(h, done, p);
        var o, i :| InRegions(h, o, done) && OwnedFrom(h, o, i, p);
        assert InRegions(h, o, done + {q});
      }
    }
  }

  /** One more region is dealt with, and those owned from inside it are seen. */
  lemma ReleasingMore(h: Heap, r: Ref, done: set<Ref>, all: set<Ref>, q: Ref)
    requires Releasing(h, r, done, all) && q in all
    requires forall p :: p in Inner(h, q) ==> Entry(h, p) && p !in h.frozen
    ensures Releasing(h, r, done + {q}, all + Inner(h, q))
  {
    ClosedMore(h, done, all, q);
    OwnedMore(h, r, done, all, q);
    hide ClosedUnder, OwnedWithin, Inner;
  }

  lemma InnerSame(h: Heap, now: Heap, gone: set<Ref>, q: Ref)
    requires Without(h, now, gone) && Entry(now, q)
    requires forall p :: p in Inner(now, q) ==> Entry(now, p) && p !in now.frozen
    ensures Inner(now, q) == Inner(h, q)
    ensures forall p :: p in Inner(h, q) ==> Entry(h, p) && p !in h.frozen
  {
    forall p | p in Inner(h, q) ensures p in Inner(now, q) {
      var o, i := InnerField(h, q, p);
      assert OwnedFrom(now, o, i, p) && now.objects[o].region == q;
    }
    forall p | p in Inner(now, q) ensures p in Inner(h, q) {
      var o, i := InnerField(now, q, p);
      assert OwnedFrom(h, o, i, p) && h.objects[o].region == q;
    }
  }

  lemma WithoutMore(h: Heap, now: Heap, gone: set<Ref>, q: Ref)
    requires Without(h, now, gone)
    ensures Without(h, RemoveHeap(now, q), gone + {q})
  {
  }

  lemma RemovedFewer(h: Heap, q: Ref)
    requires Entry(h, q)
    ensures |RemoveHeap(h, q).objects| < |h.objects|
  {
    var smaller := RemoveHeap(h, q).objects;
    assert q in h.objects.Keys && smaller.Keys <= h.objects.Keys - {q};
    SubsetSize(smaller.Keys, h.objects.Keys - {q});
    assert |h.objects.Keys - {q}| == |h.objects.Keys| - 1;
    assert |smaller| == |smaller.Keys| && |h.objects| == |h.objects.Keys|;
  }

  lemma HeldSound(s: Store)
    requires Sound(s) && s.hand != []
    ensures SoundValue(s.heap, LastHeld(s), false)
    ensures LastHeld(s).Cown? ==> LastHeld(s).cown in s.counts
  {
  }

  lemma DoomedSound(s: Store, q: Ref)
    requires Sound(s) && q in s.doomed
    ensures Entry(s.heap, q) && q !in s.heap.frozen
    ensures forall p :: p in Inner(s.heap, q) ==> Entry(s.heap, p) && p !in s.heap.frozen
  {
    assert SoundValue(s.heap, Iso(q), false);
    InnerSound(s, q);
  }

  lemma RegisterSound(s: Store, i: nat)
    requires Sound(s) && i < |s.stack|
    ensures SoundValue(s.heap, s.stack[i], false)
    ensures s.stack[i].Cown? ==> s.stack[i].cown in s.counts
  {
  }

  lemma CountsKnown(s: Store)
    requires Sound(s)
    ensures s.counts.Keys == s.heap.contents.Keys
  {
  }

  lemma TopFits(frames: seq<Frame>, size: nat)
    requires FramesOk(frames, size) && frames != []
    ensures Top(frames[|frames| - 1]) <= size
  {
  }

  lemma InnerSound(s: Store, q: Ref)
    requires Sound(s) && Entry(s.heap, q) && q !in s.heap.frozen
    ensures forall p :: p in Inner(s.heap, q) ==> Entry(s.heap, p) && p !in s.heap.frozen
  {
    forall p | p in Inner(s.heap, q) ensures Entry(s.heap, p) && p !in s.heap.frozen {
      var o, i := InnerField(s.heap, q, p);
      assert SoundObject(s.heap, o);
      assert SoundField(s.heap, q, s.heap.objects[o].fields[i]);
    }
  }

  predicate Clearable(v: Value) {
    v.Uninit? || v.Descriptor? || v.U64?
  }

  /** All registers of the frame beyond its results own nothing. */
  ghost predicate Scratch(f: Frame, stack: seq<Value>)
    requires Top(f) <= |stack|
  {
    forall i :: f.base + f.retc <= i < Top(f) ==> Clearable(stack[i])
  }

  /** The registers of the frame beyond its results are empty, and nothing else has changed. */
  ghost predicate Returned(f: Frame, before: seq<Value>, after: seq<Value>) {
    |after| == |before| && forall j :: 0 <= j < |before| ==>
      after[j] == if f.base + f.retc <= j < Top(f) then Uninit else before[j]
  }

  lemma CallFrames(frames: seq<Frame>, stack: seq<Value>, stack': seq<Value>, f: Frame)
    requires FramesOk(frames, |stack|) && frames != []
    requires |stack| <= |stack'| && stack == stack'[..|stack|]
    requires forall j :: |stack| <= j < |stack'| ==> stack'[j].Uninit?
    requires Top(f) <= |stack'| && frames[|frames| - 1].base <= f.base && f.base + f.retc <= Top(frames[|frames| - 1])
    ensures FramesOk(frames + [f], |stack'|)
    ensures ClearAbove(frames, stack) ==> ClearAbove(frames + [f], stack')
  {
    var all := frames + [f];
    if ClearAbove(frames, stack) {
      forall j | 0 <= j < |stack'| && AboveAll(all, j) ensures stack'[j].Uninit? {
        forall i | 0 <= i < |frames| ensures Top(frames[i]) <= j {
          assert all[i] == frames[i];
        }
        assert AboveAll(frames, j);
        assert j < |stack| ==> stack'[j] == stack[j];
      }
    }
  }

  /** What the callee leaves above its caller is empty: its results lie in the window of the caller. */
  lemma ReturnFrames(frames: seq<Frame>, stack: seq<Value>, stack': seq<Value>)
    requires FramesOk(frames, |stack|) && frames != []
    requires Returned(frames[|frames| - 1], stack, stack')
    ensures FramesOk(frames[..|frames| - 1], |stack'|)
    ensures |frames| >= 2 && ClearAbove(frames, stack) ==> ClearAbove(frames[..|frames| - 1], stack')
  {
    var last := |frames| - 1;
    var rest, f := frames[..last], frames[last];
    if last >= 1 && ClearAbove(frames, stack) {
      forall j | 0 <= j < |stack'| && AboveAll(rest, j) ensures stack'[j].Uninit? {
        assert Top(rest[last - 1]) <= j;
        assert f.base + f.retc <= Top(frames[last - 1]);
        if Top(f) <= j {
          forall i | 0 <= i < |frames| ensures Top(frames[i]) <= j {
            assert i < last ==> rest[i] == frames[i];
          }
          assert AboveAll(frames, j);
        }
      }
    }
  }

  ghost predicate AllCowns(s: seq<Value>) {
    forall k :: 0 <= k < |s| ==> s[k].Cown?
  }

  /** These slots have become empty, and no others have changed. */
  ghost predicate Emptied(before: seq<Value>, after: seq<Value>, from: nat, to: nat) {
    |after| == |before| && forall j :: 0 <= j < |before| ==> after[j] == if from <= j < to then Uninit else before[j]
  }

  ghost predicate CapturedCowns(stack: seq<Value>, m: Message, b: nat, n: nat)
    requires b + n <= |stack|
  {
    && |m.cowns| == n && |m.args| == n + 1 && m.args[0] == Uninit
    && (forall k :: 0 <= k < n ==> stack[b + k] == Cown(m.cowns[k]) && m.args[k + 1] == Unowned(m.cowns[k]))
  }

  /** The message that a `when` sends. */
  ghost predicate Sent(stack: seq<Value>, m: Message, b: nat, cownCount: nat, captureCount: nat, c: CownId)
    requires b + cownCount + captureCount <= |stack|
  {
    && m.cownCount == cownCount && |m.args| == 1 + cownCount + captureCount && m.args[0] == Uninit
    && (forall k :: 0 <= k < cownCount ==>
          k < |m.cowns| && stack[b + k] == Cown(m.cowns[k]) && m.args[k + 1] == Unowned(m.cowns[k]))
    && m.args[1 + cownCount..] == stack[b + cownCount..b + cownCount + captureCount]
    && (if cownCount == 0 then m.cowns == [c] else |m.cowns| == cownCount)
  }

  lemma EmptiedTwice(a: seq<Value>, b: seq<Value>, c: seq<Value>, from: nat, mid: nat, to: nat)
    requires Emptied(a, b, from, mid) && Emptied(b, c, mid, to) && from <= mid <= to
    ensures Emptied(a, c, from, to)
  {
  }

  lemma SentIs(stack: seq<Value>, between: seq<Value>, m: Message, b: nat, cownCount: nat, captureCount: nat)
    requires b + cownCount + captureCount <= |stack| && Emptied(stack, between, b, b + cownCount)
    requires CapturedCowns(stack, m, b, cownCount)
    ensures var args := m.args + between[b + cownCount..b + cownCount + captureCount];
      && |args| == 1 + cownCount + captureCount && args[0] == Uninit
      && (forall k :: 0 <= k < cownCount ==> args[k + 1] == Unowned(m.cowns[k]))
      && args[1 + cownCount..] == stack[b + cownCount..b + cownCount + captureCount]
  {
    assert between[b + cownCount..b + cownCount + captureCount] == stack[b + cownCount..b + cownCount + captureCount];
  }

  /** The scheduler delivers a message when all its cowns have contents. */
  predicate Deliverable(h: Heap, m: Message) {
    m.cownCount < |m.args| && forall i :: 1 <= i <= m.cownCount ==>
      m.args[i].Unowned? && m.args[i].cown in h.contents && h.contents[m.args[i].cown].Some?
  }

  /** What the run finds in a register: the body of an acquired cown, or the argument itself. */
  function Passed(h: Heap, m: Message, i: nat): Value
    requires Deliverable(h, m) && i < |m.args|
  {
    if 1 <= i <= m.cownCount then Mut(h.contents[m.args[i].cown].value) else m.args[i]
  }

  /** The arguments are in the first registers; the rest of the stack is as it was, or new and empty. */
  ghost predicate Entered(before: seq<Value>, after: seq<Value>, h: Heap, m: Message)
    requires Deliverable(h, m)
  {
    && |before| <= |after|
    && (forall j :: 0 <= j < |after| && j < |m.args| ==> after[j] == Passed(h, m, j))
    && (forall j :: |m.args| <= j < |after| ==> after[j] == if j < |before| then before[j] else Uninit)
  }

  function Opened(m: Message, i: nat): Message
    requires i < |m.args|
  {
    if 1 <= i <= m.cownCount then m else Message(m.args[i := Uninit], m.cowns, m.cownCount)
  }

  ghost predicate PartlyOpened(m: Message, now: Message, i: nat) {
    && |now.args| == |m.args| && now.cowns == m.cowns && now.cownCount == m.cownCount
    && forall j :: 0 <= j < |m.args| ==>
         now.args[j] == if j < i && !(1 <= j <= m.cownCount) then Uninit else m.args[j]
  }

  lemma ArgumentIs(s: Store, m: nat, i: nat)
    requires Sound(s) && m < |s.queue| && 1 <= i <= s.queue[m].cownCount && i < |s.queue[m].args|
    ensures s.queue[m].args[i].Unowned?
  {
    assert SoundMessage(s.heap, s.queue[m]) && SoundArgument(s.heap, s.queue[m], i);
  }

  lemma OpenedOwnsNothing(s: Store, m: nat, message: Message)
    requires Sound(s) && m < |s.queue| && PartlyOpened(message, s.queue[m], |message.args|)
    ensures OwnsNothing(s.queue[m].args)
  {
    forall i | 0 <= i < |s.queue[m].args| && 1 <= i <= s.queue[m].cownCount ensures s.queue[m].args[i].Unowned? {
      ArgumentIs(s, m, i);
    }
  }

  lemma RunFrame(f: Frame, before: seq<Value>, after: seq<Value>, n: nat)
    requires n <= f.locals && f.base == 0 && f.locals <= |after| && |before| <= |after|
    requires forall j :: n <= j < |after| ==> after[j] == if j < |before| then before[j] else Uninit
    ensures ClearAbove([f], after) <==> forall j :: f.locals <= j < |before| ==> before[j].Uninit?
    ensures FramesOk([f], |after|)
  {
    forall j: nat ensures AboveAll([f], j) <==> f.locals <= j {
      assert AboveAll([f], j) ==> Top([f][0]) <= j;
    }
    if ClearAbove([f], after) {
      forall j | f.locals <= j < |before| ensures before[j].Uninit? {
        assert AboveAll([f], j) && after[j].Uninit?;
      }
    }
  }

  /** The opcodes by what they do to values; `Skip` stands for jumps, printing and protection. */
  datatype Op =
    | Skip
    | Plain(dst: nat, value: Value)
    | ClearList(registers: seq<nat>)
    | Copy(dst: nat, src: nat)
    | Move(dst: nat, src: nat)
    | MutView(dst: nat, src: nat)
    | Load(dst: nat, base: nat, index: nat)
    | Exchange(dst: nat, base: nat, index: nat, src: nat)
    | NewRegion(dst: nat, at: Ref, fields: nat)
    | NewObject(dst: nat, parent: nat, at: Ref, fields: nat)
    | NewCown(dst: nat, src: nat, cown: CownId)
    | NewSleepingCown(dst: nat, cown: CownId)
    | Fulfill(promise: nat, src: nat)
    | Freeze(dst: nat, src: nat)
    | When(cownCount: nat, captureCount: nat, argc: nat, cown: CownId)
    | Call(callspace: nat, header: Header)
    | Return

  /** What a program can see of the machine. */
  datatype Config = Config(
    stack: seq<Value>,
    frames: seq<Frame>,
    halted: bool,
    queue: seq<Message>,
    heap: Heap,
    holds: multiset<CownId>)

  /** Clearing a value: a region goes with exactly the regions owned from inside it, and nothing else goes. */
  ghost predicate Cleared(before: Heap, after: Heap, v: Value) {
    if v.Iso? then exists gone :: OwnedRegions(before, v.target, gone) && Without(before, after, gone)
    else after == before
  }

  /** Clearing these values one after the other. */
  ghost predicate ClearedAll(before: Heap, values: seq<Value>, after: Heap)
    decreases |values|
  {
    if values == [] then after == before
    else
      var n := |values| - 1;
      exists between :: ClearedAll(before, values[..n], between) && Cleared(between, after, values[n])
  }

  /** A machine that is in a frame, which lies on its stack. */
  ghost predicate InFrame(c: Config) {
    c.frames != [] && Top(c.frames[|c.frames| - 1]) <= |c.stack|
  }

  function Window(c: Config): Frame
    requires c.frames != []
  {
    c.frames[|c.frames| - 1]
  }

  function SlotOf(c: Config, r: nat): nat
    requires c.frames != []
  {
    Window(c).base + r
  }

  /** What a register of the current frame holds. */
  ghost function Register(c: Config, r: nat): Value
    requires InFrame(c) && r < Window(c).locals
  {
    c.stack[SlotOf(c, r)]
  }

  /** The values that clearing a list of registers finds: a register that comes twice is empty by then. */
  function Found(stack: seq<Value>, base: nat, registers: seq<nat>): seq<Value>
    requires forall i :: 0 <= i < |registers| ==> base + registers[i] < |stack|
  {
    if registers == [] then []
    else
      var n := |registers| - 1;
      Found(stack, base, registers[..n]) +
      [if registers[n] in registers[..n] then Uninit else stack[base + registers[n]]]
  }

  /** Exactly the listed registers have become empty. */
  ghost predicate Blanked(before: seq<Value>, after: seq<Value>, base: nat, registers: seq<nat>) {
    |after| == |before| && forall j :: 0 <= j < |before| ==>
      after[j] == if j >= base && j - base in registers then Uninit else before[j]
  }

  lemma BlankedMore(before: seq<Value>, between: seq<Value>, base: nat, registers: seq<nat>, k: nat)
    requires k < |registers| && Blanked(before, between, base, registers[..k]) && base + registers[k] < |before|
    ensures |between| == |before| && between[base + registers[k]] ==
      if registers[k] in registers[..k] then Uninit else before[base + registers[k]]
    ensures Blanked(before, between[base + registers[k] := Uninit], base, registers[..k + 1])
  {
    assert registers[..k + 1] == registers[..k] + [registers[k]];
  }

  lemma ClearedNone(heap: Heap)
    ensures ClearedAll(heap, [], heap)
  {
  }

  lemma ClearedMore(h: Heap, values: seq<Value>, i: nat, g: Heap, g': Heap)
    requires i < |values| && ClearedAll(h, values[..i], g) && Cleared(g, g', values[i])
    ensures ClearedAll(h, values[..i + 1], g')
  {
    hide Cleared;
    assert values[..i + 1][..i] == values[..i];
  }

  lemma FoundNone(stack: seq<Value>, base: nat, heap: Heap)
    ensures ClearedAll(heap, Found(stack, base, []), heap) && Blanked(stack, stack, base, [])
  {
  }

  lemma FoundMore(stack: seq<Value>, base: nat, registers: seq<nat>, k: nat, h: Heap, g: Heap, g': Heap, held: Value)
    requires k < |registers| && forall i :: 0 <= i <= k ==> base + registers[i] < |stack|
    requires ClearedAll(h, Found(stack, base, registers[..k]), g) && Cleared(g, g', held)
    requires held == if registers[k] in registers[..k] then Uninit else stack[base + registers[k]]
    ensures ClearedAll(h, Found(stack, base, registers[..k + 1]), g')
  {
    hide Cleared;
    assert registers[..k + 1][..k] == registers[..k];
    var front, all := Found(stack, base, registers[..k]), Found(stack, base, registers[..k + 1]);
    assert all == front + [held] && all[..|all| - 1] == front;
  }

  /** Where an opcode does not stop the machine. */
  ghost predicate Allowed(op: Op, c: Config)
    requires InFrame(c)
  {
    var locals := Window(c).locals;
    match op
    case Skip => true
    case Plain(dst, _) => dst < locals
    case ClearList(registers) => forall i :: 0 <= i < |registers| ==> registers[i] < locals
    case Copy(dst, src) => src < locals && dst < locals
    case Move(dst, src) => src < locals && dst < locals
    case MutView(dst, src) => src < locals && dst < locals && (Register(c, src).Iso? || Register(c, src).Mut?)
    case Load(dst, base, index) => base < locals && dst < locals && Readable(c.heap, Register(c, base), index)
    case Exchange(dst, base, index, src) =>
      && src < locals && base < locals && dst < locals
      && Writable(c.heap, After(c.stack, SlotOf(c, src))[SlotOf(c, base)], index, Register(c, src))
    case NewRegion(dst, _, _) => dst < locals
    case NewObject(dst, parent, _, _) =>
      && parent < locals && dst < locals && (Register(c, parent).Iso? || Register(c, parent).Mut?)
      && Register(c, parent).target in c.heap.objects && !Frozen(c.heap, Register(c, parent).target)
    case NewCown(dst, src, _) => src < locals && dst < locals && Register(c, src).Iso?
    case NewSleepingCown(dst, _) => dst < locals
    case Fulfill(promise, src) =>
      src < locals && promise < locals && Register(c, src).Iso? && Register(c, promise).Cown?
    case Freeze(dst, src) => src < locals && dst < locals && Register(c, src).Iso?
    case When(cownCount, captureCount, argc, _) =>
      && cownCount + captureCount + 1 <= locals && cownCount + captureCount + 1 <= argc
      && var b := Top(Window(c)) - cownCount - captureCount; AllCowns(c.stack[b..b + cownCount])
    case Call(callspace, header) =>
      && 0 < callspace <= locals && header.argc <= callspace && header.retc <= callspace
      && !c.stack[Top(Window(c)) - callspace].Uninit?
    case Return => Scratch(Window(c), c.stack) && (Window(c).halts || |c.frames| >= 2)
  }

  /** The result goes to its register and the old value of the register is cleared; nothing else changes. */
  ghost predicate Wrote(c: Config, stack: seq<Value>, heap: Heap, dst: nat, v: Value, d: Config)
    requires c.frames != [] && SlotOf(c, dst) < |stack|
  {
    var i := SlotOf(c, dst);
    d == c.(stack := stack[i := v], heap := d.heap) && Cleared(heap, d.heap, stack[i])
  }

  /** The heap once a field has taken a value; the region remembers a cown that it keeps. */
  function Stored(h: Heap, o: Ref, index: nat, v: Value): Heap
    requires o in h.objects && index < |h.objects[o].fields|
  {
    var region := h.objects[o].region;
    SetField(h.(remembered := h.remembered + if v.Cown? then {(region, v.cown)} else {}), o, index, v)
  }

  /** The region and all regions inside it are frozen, and the owner becomes an immutable reference. */
  ghost predicate Froze(c: Config, dst: nat, src: nat, d: Config)
    requires InFrame(c) && src < Window(c).locals && dst < Window(c).locals && Register(c, src).Iso?
  {
    var r := Register(c, src).target;
    exists regions :: OwnedRegions(c.heap, r, regions) &&
      Wrote(c, c.stack[SlotOf(c, src) := Uninit], FreezeHeap(c.heap, regions), dst, Imm(r), d)
  }

  /** What each opcode does to everything that a program can see. */
  ghost predicate Effect(op: Op, c: Config, d: Config)
    requires InFrame(c) && Allowed(op, c)
  {
    match op
    case Skip => d == c
    case Plain(dst, v) => Wrote(c, c.stack, c.heap, dst, v, d)
    case ClearList(registers) =>
      && d == c.(stack := d.stack, heap := d.heap) && Blanked(c.stack, d.stack, Window(c).base, registers)
      && ClearedAll(c.heap, Found(c.stack, Window(c).base, registers), d.heap)
    case Copy(dst, src) => Wrote(c, After(c.stack, SlotOf(c, src)), c.heap, dst, Register(c, src), d)
    case Move(dst, src) => Wrote(c, c.stack[SlotOf(c, src) := Uninit], c.heap, dst, Register(c, src), d)
    case MutView(dst, src) => Wrote(c, c.stack, c.heap, dst, Mut(Register(c, src).target), d)
    case Load(dst, base, index) =>
      var b := Register(c, base);
      Wrote(c, c.stack, c.heap, dst, FieldRead(c.heap.objects[b.target].fields[index], b.Imm?), d)
    case Exchange(dst, base, index, src) =>
      var stack := After(c.stack, SlotOf(c, src));
      var o := stack[SlotOf(c, base)].target;
      Wrote(c, stack, Stored(c.heap, o, index, Register(c, src)), dst, c.heap.objects[o].fields[index], d)
    case NewRegion(dst, o, fields) => Wrote(c, c.stack, WithObject(c.heap, o, o, fields), dst, Iso(o), d)
    case NewObject(dst, parent, o, fields) =>
      var region := c.heap.objects[Register(c, parent).target].region;
      Wrote(c, c.stack, WithObject(c.heap, o, region, fields), dst, Mut(o), d)
    case NewCown(dst, src, k) =>
      Wrote(c, c.stack[SlotOf(c, src) := Uninit],
            c.heap.(contents := c.heap.contents[k := Some(Register(c, src).target)]), dst, Cown(k), d)
    case NewSleepingCown(dst, k) =>
      Wrote(c, c.stack, c.heap.(contents := c.heap.contents[k := None]), dst, Cown(k), d)
    case Fulfill(promise, src) =>
      var k := Register(c, promise).cown;
      d == c.(stack := c.stack[SlotOf(c, src) := Uninit], holds := c.holds + multiset{k},
              heap := c.heap.(contents := c.heap.contents[k := Some(Register(c, src).target)]))
    case Freeze(dst, src) => Froze(c, dst, src, d)
    case When(cownCount, captureCount, _, k) =>
      var b := Top(Window(c)) - cownCount - captureCount;
      && d == c.(stack := d.stack, queue := d.queue,
                 heap := if cownCount == 0 then c.heap.(contents := c.heap.contents[k := None]) else c.heap)
      && Emptied(c.stack, d.stack, b, Top(Window(c)))
      && |d.queue| == |c.queue| + 1 && d.queue[..|c.queue|] == c.queue
      && Sent(c.stack, d.queue[|c.queue|], b, cownCount, captureCount, k)
    case Call(callspace, header) =>
      var base := Top(Window(c)) - callspace;
      && d == c.(stack := d.stack, frames := c.frames + [Frame(base, header.locals, header.argc, header.retc, false)])
      && Grown(c.stack, d.stack, base + header.locals)
    case Return =>
      && d == c.(stack := d.stack, frames := c.frames[..|c.frames| - 1], halted := c.halted || Window(c).halts)
      && Returned(Window(c), c.stack, d.stack)
  }

  /** The stack has grown by empty slots, if at all, and is large enough. */
  ghost predicate Grown(before: seq<Value>, after: seq<Value>, size: nat) {
    && |before| <= |after| && size <= |after| && after[..|before|] == before
    && forall j :: |before| <= j < |after| ==> after[j].Uninit?
  }

  /** One message of the queue, and the opcodes of its run. */
  datatype Job = Job(message: nat, header: Header, ops: seq<Op>)

  /** The opcodes that move values between registers and fields, and those that move none. */
  predicate MovesValues(op: Op) {
    || op.Skip? || op.Plain? || op.ClearList? || op.Copy? || op.Move? || op.MutView? || op.Load? || op.Exchange?
  }

  /** What the allocator gives out is not in use, and a plain result owns nothing. */
  predicate Fresh(op: Op, h: Heap) {
    match op
    case NewRegion(_, o, _) => o !in h.objects
    case NewObject(_, _, o, _) => o !in h.objects
    case NewCown(_, _, c) => c !in h.contents
    case NewSleepingCown(_, c) => c !in h.contents
    case When(_, _, _, c) => c !in h.contents
    case Plain(_, v) => v.Uninit? || v.U64? || v.String? || v.Descriptor?
    case _ => true
  }

  /** The opcode cannot be, or stops the machine. */
  ghost predicate Stops(op: Op, c: Config) {
    InFrame(c) && (Fresh(op, c.heap) ==> !Allowed(op, c))
  }

  ghost predicate Transition(op: Op, c: Config, d: Config) {
    InFrame(c) && Allowed(op, c) && Effect(op, c, d)
  }

  /** The machine goes through these configurations, one opcode after the other. */
  ghost predicate Chain(ops: seq<Op>, configs: seq<Config>) {
    && 0 < |configs| <= |ops| + 1
    && forall k :: 0 <= k < |configs| - 1 ==> Transition(ops[k], configs[k], configs[k + 1])
  }

  lemma ChainFirst(ops: seq<Op>, c: Config)
    ensures Chain(ops, [c])
  {
  }

  lemma ChainMore(ops: seq<Op>, configs: seq<Config>, d: Config)
    requires Chain(ops, configs) && |configs| <= |ops|
    requires Transition(ops[|configs| - 1], configs[|configs| - 1], d)
    ensures Chain(ops, configs + [d])
  {
    hide Transition;
  }

  lemma ChainBefore(op: Op, c: Config, ops: seq<Op>, configs: seq<Config>)
    requires Chain(ops, configs) && Transition(op, c, configs[0])
    ensures Chain([op] + ops, [c] + configs)
  {
    hide Transition;
    var all, steps := [op] + ops, [c] + configs;
    forall k | 0 <= k < |steps| - 1 ensures Transition(all[k], steps[k], steps[k + 1]) {
      assert k > 0 ==> all[k] == ops[k - 1] && steps[k] == configs[k - 1] && steps[k + 1] == configs[k];
    }
  }

  lemma Called(callspace: nat, header: Header, c: Config, d: Config)
    requires InFrame(c) && Allowed(Call(callspace, header), c) && Effect(Call(callspace, header), c, d)
    ensures 0 < callspace <= Window(c).locals && d.halted == c.halted && c.stack <= d.stack
    ensures d.frames == c.frames + [Frame(Top(Window(c)) - callspace, header.locals, header.argc, header.retc, false)]
  {
  }

  lemma InsideFirst(callers: seq<Frame>, frames: seq<Frame>, before: seq<Value>, after: seq<Value>)
    requires |frames| == |callers| + 1 && frames[..|callers|] == callers && !frames[|callers|].halts
    requires before <= after
    ensures var base := frames[|callers|].base; Inside(callers, frames, base) && BelowKept(before, after, base)
  {
  }

  lemma InsideCallers(callers: seq<Frame>, frames: seq<Frame>, base: nat)
    requires Inside(callers, frames, base)
    ensures |frames| >= |callers| && frames[..|callers|] == callers
    ensures |frames| > |callers| ==> !frames[|frames| - 1].halts
  {
  }

  lemma BelowNow(stack: seq<Value>, base: nat)
    ensures BelowKept(stack, stack, base)
  {
  }

  lemma BelowTwice(a: seq<Value>, b: seq<Value>, c: seq<Value>, base: nat)
    requires BelowKept(a, b, base) && BelowKept(b, c, base)
    ensures BelowKept(a, c, base)
  {
  }

  /** What an opcode of a frame above the callers leaves alone, lies below all of them. */
  lemma StillBelow(callers: seq<Frame>, frames: seq<Frame>, a: seq<Value>, b: seq<Value>, c: seq<Value>, base: nat)
    requires Inside(callers, frames, base) && |frames| > |callers| && BelowKept(a, b, base)
    requires BelowKept(b, c, frames[|frames| - 1].base)
    ensures BelowKept(a, c, base)
  {
  }

  /** What an opcode that keeps to its frame leaves alone. */
  lemma EffectInWindow(op: Op, c: Config, d: Config)
    requires InFrame(c) && Allowed(op, c) && Effect(op, c, d) && !op.Call? && !op.Return?
    ensures d.frames == c.frames && d.halted == c.halted && c.queue <= d.queue && |d.stack| == |c.stack|
    ensures OnlyWindow(c.stack, d.stack, Window(c).base, Top(Window(c)))
  {
    hide Cleared, ClearedAll, OwnedRegions, Sent;
  }

  /** The message has been passed to a run on an empty frame stack. */
  ghost predicate Started(m: nat, header: Header, c: Config, d: Config) {
    && m < |c.queue| && Deliverable(c.heap, c.queue[m]) && header.argc == |c.queue[m].args| <= header.locals
    && d.frames == [Frame(0, header.locals, header.argc, header.retc, true)] && !d.halted && d.holds == c.holds
    && Entered(c.stack, d.stack, c.heap, c.queue[m])
    && |d.queue| == |c.queue| && (forall k :: 0 <= k < |c.queue| && k != m ==> d.queue[k] == c.queue[k])
    && PartlyOpened(c.queue[m], d.queue[m], |c.queue[m].args|)
    && ClearedAll(c.heap, Covered(c.stack, |c.queue[m].args|), d.heap)
  }

  /** What the first registers held before a run. */
  function Covered(stack: seq<Value>, n: nat): (values: seq<Value>)
    ensures |values| == n
  {
    seq(n, i requires 0 <= i < n => if i < |stack| then stack[i] else Uninit)
  }

  /** The message has been delivered, its run has come to its end, and its cowns have been given back. */
  ghost predicate Served(job: Job, c: Config, d: Config) {
    exists run: seq<Config> ::
      && Chain(job.ops, run) && Started(job.message, job.header, c, run[0])
      && var end := run[|run| - 1];
         && end.halted && job.message < |end.queue|
         && d == end.(queue := end.queue[job.message := Message([], [], 0)])
  }

  lemma JobServed(job: Job, c: Config, run: seq<Config>, d: Config)
    requires Chain(job.ops, run) && Started(job.message, job.header, c, run[0])
    requires var end := run[|run| - 1];
      && end.halted && job.message < |end.queue|
      && d == end.(queue := end.queue[job.message := Message([], [], 0)])
    ensures Served(job, c, d)
  {
  }

  lemma ReturnKeepsBelow(f: Frame, before: seq<Value>, after: seq<Value>)
    requires Returned(f, before, after)
    ensures BelowKept(before, after, f.base)
  {
  }

  lemma PopNext(frames: seq<Frame>)
    requires frames != []
    ensures NextFrames(frames, frames[..|frames| - 1])
  {
  }

  lemma CallNext(frames: seq<Frame>, f: Frame, before: seq<Value>, after: seq<Value>)
    requires frames != [] && frames[|frames| - 1].base <= f.base && !f.halts
    requires |before| <= |after| && before == after[..|before|]
    ensures NextFrames(frames, frames + [f]) && BelowKept(before, after, frames[|frames| - 1].base)
  {
  }

  /** An opcode that keeps to the window of its frame leaves the slots above all frames alone. */
  lemma WindowClear(frames: seq<Frame>, before: seq<Value>, after: seq<Value>)
    requires frames != [] && |after| == |before|
    requires var f := frames[|frames| - 1]; OnlyWindow(before, after, f.base, Top(f))
    ensures ClearAbove(frames, before) ==> ClearAbove(frames, after)
    ensures NextFrames(frames, frames) && BelowKept(before, after, frames[|frames| - 1].base)
  {
    if ClearAbove(frames, before) {
      forall j | 0 <= j < |after| && AboveAll(frames, j) ensures after[j].Uninit? {
        assert Top(frames[|frames| - 1]) <= j;
      }
    }
  }

  ghost predicate BelowKept(before: seq<Value>, after: seq<Value>, base: nat) {
    |before| <= |after| && forall j :: 0 <= j < base && j < |before| ==> after[j] == before[j]
  }

  /** An opcode keeps the frames, pushes one that starts no lower, or pops one. */
  ghost predicate NextFrames(frames: seq<Frame>, frames': seq<Frame>)
    requires frames != []
  {
    var last := |frames| - 1;
    || frames' == frames
    || frames' == frames[..last]
    || (|frames'| == last + 2 && frames'[..last + 1] == frames &&
        frames[last].base <= frames'[last + 1].base && !frames'[last + 1].halts)
  }

  /** The frames of the callers are there, and those above them start no lower than `base`. */
  ghost predicate Inside(callers: seq<Frame>, frames: seq<Frame>, base: nat) {
    && |frames| >= |callers| && frames[..|callers|] == callers
    && forall k :: |callers| <= k < |frames| ==> !frames[k].halts && base <= frames[k].base
  }

  lemma NextInside(callers: seq<Frame>, frames: seq<Frame>, frames': seq<Frame>, base: nat)
    requires Inside(callers, frames, base) && |frames| > |callers| && NextFrames(frames, frames')
    ensures Inside(callers, frames', base)
  {
    NextPrefix(frames, frames', |callers|);
  }

  lemma NextPrefix(frames: seq<Frame>, frames': seq<Frame>, depth: nat)
    requires frames != [] && NextFrames(frames, frames') && depth <= |frames|
    requires |frames| > depth || frames' != frames[..|frames| - 1]
    ensures |frames'| >= depth && frames'[..depth] == frames[..depth]
    ensures forall k :: 0 <= k < |frames| && k < |frames'| ==> frames'[k] == frames[k]
  {
  }

  lemma LastReturn(f: Frame, before: seq<Value>, after: seq<Value>)
    requires f.base == 0 && Top(f) <= |before| && Returned(f, before, after)
    ensures ClearAbove([f], before) ==> forall j :: f.retc <= j < |after| ==> after[j].Uninit?
  {
    if ClearAbove([f], before) {
      forall j | f.retc <= j < |after| ensures after[j].Uninit? {
        assert Top(f) <= j ==> AboveAll([f], j);
      }
    }
  }

  /** A machine in a run with one register, which is also its result. */
  method RunningAlone() returns (m: Machine)
    ensures fresh(m) && m.Running() && m.frames == [Frame(0, 1, 0, 1, true)]
  {
    hide Sound;
    m := new Machine();
    m.PushFrame(Header(0, 1, 1), 0, true);
  }

  /**
   A return register that a run leaves behind lies above the frame of a later run with fewer registers:
   the stack of that run is not clear.
   */
  method ResultsStay() returns (stack: seq<Value>, frames: seq<Frame>)
    ensures stack != [] && stack[0] == U64(7) && frames == [Frame(0, 0, 0, 0, true)] && !ClearAbove(frames, stack)
  {
    hide Sound, SoundValue, Cleared, ClearedAll, Sent, OwnedRegions, Emptied, Found, Grown;
    var m := RunningAlone();
    var one := m.OpPlain(0, U64(7));
    assert one && m.stack[0] == U64(7);
    var two := m.OpReturn();
    assert two && m.stack[0] == U64(7);
    m.PushFrame(Header(0, 0, 0), 0, true);
    stack, frames := m.stack, m.frames;
    assert AboveAll(frames, 0) && stack[0] == U64(7);
  }
}
