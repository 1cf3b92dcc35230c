/**
 The runtime's bag: a list of aligned blocks with a freelist threaded through the holes.

 A pointer into a block is the block and the slot within it; `Addresses` below ties this to the
 masks the source uses.  Slot 0 of a block holds the link to the previous block.  A word is an
 element, a pointer, or a pointer with the low bit set, which marks a hole.
 */
module Bag {
  import opened Bits

  datatype Ptr = Null | At(block: nat, slot: nat)

  datatype Word<T> = Elem(item: T) | Link(ptr: Ptr) | HoleTo(ptr: Ptr)

  /** The statically allocated block that ends every bag. */
  const NULL_BLOCK: nat := 0

  // ----- addresses -----

  /** Blocks are 512 bytes, aligned to their size, and hold `512 / size` slots. */
  function Address(p: Ptr, size: nat): nat
    requires p.At?
  {
    512 * p.block + size * p.slot
  }

  /** `INDEX_MASK`: the number of the last slot, as an offset. */
  function IndexMask(size: nat): nat
    requires size == 8 || size == 16
  {
    if size == 8 then (64 - 1) * 8 else (32 - 1) * 16
  }

  /** `get_block`: the address with the bits below the size of a block masked off. */
  function BlockAddress(address: nat): nat {
    AndNot(address, Ones(9))
  }

  /**
   The mask tests and pointer arithmetic of the source say what block and slot say, for elements of
   one word (the thin bag) and of two.
   */
  lemma Addresses(p: Ptr, size: nat)
    requires p.At? && (size == 8 || size == 16) && p.slot < 512 / size
    ensures And(Address(p, size), IndexMask(size)) == 0 <==> p.slot == 0
    ensures And(Address(p, size), IndexMask(size)) == IndexMask(size) <==> p.slot == 512 / size - 1
    ensures BlockAddress(Address(p, size)) == Address(At(p.block, 0), size)
    ensures Address(p, size) + size == Address(At(p.block, p.slot + 1), size)
  {
    hide And, AndNot, Ones, Shl;
    if size == 8 {
      ThinAddress(p.block, p.slot);
      assert Address(p, 8) == 512 * p.block + 8 * p.slot && IndexMask(8) == 504;
    } else {
      WideAddress(p.block, p.slot);
      assert Address(p, 16) == 512 * p.block + 16 * p.slot && IndexMask(16) == 496;
    }
  }

  lemma ThinAddress(block: nat, slot: nat)
    requires slot < 64
    ensures var a := 512 * block + 8 * slot; And(a, 504) == 8 * slot && BlockAddress(a) == 512 * block
  {
    hide And, Ones, Shl;
    var x := 64 * block + slot;
    Low6(x);
    Mod64(x, block, slot);
    Eightfold(x, slot);
    AndShl(x, 63, 3);
    BlockPart(block, 8 * slot);
  }

  lemma WideAddress(block: nat, slot: nat)
    requires slot < 32
    ensures var a := 512 * block + 16 * slot; And(a, 496) == 16 * slot && BlockAddress(a) == 512 * block
  {
    hide And, Ones, Shl;
    var x := 32 * block + slot;
    Low5(x);
    Mod32(x, block, slot);
    Sixteenfold(x, slot);
    AndShl(x, 31, 4);
    BlockPart(block, 16 * slot);
  }

  lemma Eightfold(x: nat, slot: nat)
    ensures Shl(x, 3) == 8 * x && Shl(63, 3) == 504 && Shl(slot, 3) == 8 * slot
  {
    ShlTimes(x, 3);
    ShlTimes(slot, 3);
    assert Shl(1, 3) == 8;
  }

  lemma Sixteenfold(x: nat, slot: nat)
    ensures Shl(x, 4) == 16 * x && Shl(31, 4) == 496 && Shl(slot, 4) == 16 * slot
  {
    ShlTimes(x, 4);
    ShlTimes(slot, 4);
    assert Shl(1, 4) == 16;
  }

  lemma Low6(a: nat)
    ensures And(a, 63) == a % 64
  {
    hide And, Ones, Shl, Shr;
    Sizes();
    Parts(a, 6);
    ShlTimes(Shr(a, 6), 6);
    Mod64(a, Shr(a, 6), And(a, 63));
  }

  lemma Mod64(a: nat, q: nat, r: nat)
    requires a == r + q * 64 && r < 64
    ensures r == a % 64
  {
  }

  lemma Low5(a: nat)
    ensures And(a, 31) == a % 32
  {
    hide And, Ones, Shl, Shr;
    Sizes();
    Parts(a, 5);
    ShlTimes(Shr(a, 5), 5);
    Mod32(a, Shr(a, 5), And(a, 31));
  }

  lemma Mod32(a: nat, q: nat, r: nat)
    requires a == r + q * 32 && r < 32
    ensures r == a % 32
  {
  }

  lemma Low9(a: nat)
    ensures And(a, Ones(9)) == a % 512
  {
    hide And, Ones, Shl, Shr;
    Sizes();
    Parts(a, 9);
    ShlTimes(Shr(a, 9), 9);
    Mod512(a, Shr(a, 9), And(a, Ones(9)));
  }

  lemma Mod512(a: nat, q: nat, r: nat)
    requires a == r + q * 512 && r < 512
    ensures r == a % 512
  {
  }

  lemma Sizes()
    ensures Shl(1, 5) == 32 && Ones(5) == 31 && Shl(1, 6) == 64 && Ones(6) == 63 && Shl(1, 9) == 512
  {
    assert Shl(1, 8) == 256;
  }

  lemma BlockPart(block: nat, offset: nat)
    requires offset < 512
    ensures BlockAddress(512 * block + offset) == 512 * block
  {
    hide And, AndNot, Ones;
    Low9(512 * block + offset);
    Mod512(512 * block + offset, block, offset);
    Split(512 * block + offset, Ones(9));
  }

  // ----- the order in which a bag is walked -----

  /** Slots `slot`, ..., 1 of a block. */
  function Down(block: nat, slot: nat): (w: seq<Ptr>)
    ensures |w| == slot && forall i :: 0 <= i < slot ==> w[i] == At(block, slot - i)
  {
    if slot == 0 then [] else [At(block, slot)] + Down(block, slot - 1)
  }

  /** Every slot in use, newest block first; the newest block is used up to `top`, the others up to `last`. */
  function Walk(chain: seq<nat>, top: nat, last: nat): seq<Ptr>
    decreases |chain|
  {
    if chain == [] then []
    else Down(chain[|chain| - 1], top) + Walk(chain[..|chain| - 1], last, last)
  }

  /** Where a walk stands: its next slot, or the null block once it is over. */
  function HeadOf(walk: seq<Ptr>, last: nat): Ptr {
    if walk == [] then At(NULL_BLOCK, last) else walk[0]
  }

  ghost predicate Distinct(s: seq<Ptr>) {
    forall i, j :: 0 <= i < j < |s| ==> s[i] != s[j]
  }

  lemma {:induction false} WalkSlots(chain: seq<nat>, top: nat, last: nat, p: Ptr)
    requires 1 <= top <= last
    ensures p in Walk(chain, top, last) <==>
      p.At? && p.block in chain && 1 <= p.slot <= last &&
      (p.slot <= top || p.block in chain[..|chain| - 1])
    decreases |chain|
  {
    if chain != [] {
      var rest := chain[..|chain| - 1];
      WalkSlots(rest, last, last, p);
      if p.At? && p.block == chain[|chain| - 1] && 1 <= p.slot <= top {
        assert Down(p.block, top)[top - p.slot] == p;
      }
      assert chain == rest + [chain[|chain| - 1]];
    }
  }

  lemma {:induction false} WalkDistinct(chain: seq<nat>, top: nat, last: nat)
    requires 1 <= top <= last && forall i, j :: 0 <= i < j < |chain| ==> chain[i] != chain[j]
    ensures Distinct(Walk(chain, top, last))
    decreases |chain|
  {
    if chain != [] {
      var rest := chain[..|chain| - 1];
      WalkDistinct(rest, last, last);
      forall p | p in Walk(rest, last, last) ensures p.At? && p.block != chain[|chain| - 1] {
        WalkSlots(rest, last, last, p);
      }
    }
  }

  function Before(chain: seq<nat>, i: nat): nat
    requires i <= |chain|
  {
    if i == 0 then NULL_BLOCK else chain[i - 1]
  }

  ghost predicate Links<T>(memory: map<Ptr, Word<T>>, chain: seq<nat>, last: nat) {
    forall i :: 0 <= i < |chain| ==>
      && At(chain[i], 0) in memory
      && memory[At(chain[i], 0)] == Link(At(Before(chain, i), last))
  }

  lemma WalkStart(chain: seq<nat>, last: nat)
    requires 1 <= last
    ensures HeadOf(Walk(chain, last, last), last) == At(Before(chain, |chain|), last)
  {
  }

  /** What `step` makes of `p`: one slot down, or through the link to the end of the block before. */
  ghost predicate Follows<T>(memory: map<Ptr, Word<T>>, chain: seq<nat>, p: Ptr, q: Ptr) {
    && p.At? && 1 <= p.slot && p.block in chain
    && At(p.block, 0) in memory && memory[At(p.block, 0)].Link?
    && q == if p.slot > 1 then At(p.block, p.slot - 1) else memory[At(p.block, 0)].ptr
  }

  lemma LinksPrefix<T>(memory: map<Ptr, Word<T>>, chain: seq<nat>, last: nat)
    requires chain != [] && Links(memory, chain, last)
    ensures Links(memory, chain[..|chain| - 1], last)
  {
    var rest := chain[..|chain| - 1];
    assert forall i :: 0 <= i < |rest| ==> rest[i] == chain[i] && Before(rest, i) == Before(chain, i);
  }

  lemma DownNext<T>(memory: map<Ptr, Word<T>>, chain: seq<nat>, top: nat, last: nat, k: nat)
    requires chain != [] && 1 <= top <= last && Links(memory, chain, last) && k < top
    ensures var walk := Walk(chain, top, last);
      k < |walk| && Follows(memory, chain, walk[k], HeadOf(walk[k + 1..], last))
  {
    var n := |chain| - 1;
    var walk := Walk(chain, top, last);
    assert At(chain[n], 0) in memory;
    assert walk[k] == At(chain[n], top - k);
    if k + 1 == top {
      assert walk[k + 1..] == Walk(chain[..n], last, last);
      WalkStart(chain[..n], last);
      assert Before(chain, n) == Before(chain[..n], n);
    } else {
      assert walk[k + 1] == At(chain[n], top - k - 1);
    }
  }

  lemma {:induction false} WalkNext<T>(memory: map<Ptr, Word<T>>, chain: seq<nat>, top: nat, last: nat, k: nat)
    requires 1 <= top <= last && Links(memory, chain, last) && k < |Walk(chain, top, last)|
    ensures Follows(memory, chain, Walk(chain, top, last)[k], HeadOf(Walk(chain, top, last)[k + 1..], last))
    decreases |chain|
  {
    if k < top {
      DownNext(memory, chain, top, last, k);
    } else {
      var walk, deeper := Walk(chain, top, last), Walk(chain[..|chain| - 1], last, last);
      LinksPrefix(memory, chain, last);
      WalkNext(memory, chain[..|chain| - 1], last, last, k - top);
      assert walk[k] == deeper[k - top] && walk[k + 1..] == deeper[k - top + 1..];
    }
  }

  // ----- the representation -----

  ghost predicate IsHole<T>(memory: map<Ptr, Word<T>>, walk: seq<Ptr>, p: Ptr) {
    p in walk && p in memory && memory[p].HoleTo?
  }

  ghost function Live<T>(memory: map<Ptr, Word<T>>, walk: seq<Ptr>): map<Ptr, T> {
    map p | p in walk && p in memory && memory[p].Elem? :: memory[p].item
  }

  function After(free: seq<Ptr>, i: nat): Ptr {
    if i + 1 < |free| then free[i + 1] else Null
  }

  /** `free` lists the holes without repetition, each leading to the next. */
  ghost predicate Threaded<T>(memory: map<Ptr, Word<T>>, first: Ptr, free: seq<Ptr>) {
    && Distinct(free)
    && first == (if free == [] then Null else free[0])
    && forall i :: 0 <= i < |free| ==>
         free[i] in memory && memory[free[i]] == HoleTo(After(free, i))
  }

  /** Every slot of the walk holds an element or a hole, and the freelist is exactly the holes. */
  ghost predicate Tracked<T>(memory: map<Ptr, Word<T>>, walk: seq<Ptr>, first: Ptr, free: seq<Ptr>) {
    && (forall p :: p in walk ==> p in memory && !memory[p].Link?)
    && Threaded(memory, first, free)
    && (forall p :: p in free <==> IsHole(memory, walk, p))
  }

  lemma RemoveTracked<T>(memory: map<Ptr, Word<T>>, walk: seq<Ptr>, first: Ptr, free: seq<Ptr>, p: Ptr)
    requires Tracked(memory, walk, first, free) && p in Live(memory, walk)
    ensures Tracked(memory[p := HoleTo(first)], walk, p, [p] + free)
    ensures Live(memory[p := HoleTo(first)], walk) == Live(memory, walk) - {p}
  {
    var memory', free' := memory[p := HoleTo(first)], [p] + free;
    assert p !in free && !IsHole(memory, walk, p);
    forall i | 0 <= i < |free'|
      ensures free'[i] in memory' && memory'[free'[i]] == HoleTo(After(free', i))
    {
      if i > 0 {
        assert free'[i] == free[i - 1] && free[i - 1] in free;
        assert After(free', i) == After(free, i - 1);
      }
    }
    assert Threaded(memory', p, free');
    assert forall q :: q in free' <==> q == p || q in free;
    assert forall q :: IsHole(memory', walk, q) <==> q == p || IsHole(memory, walk, q);
  }

  lemma ReuseTracked<T>(memory: map<Ptr, Word<T>>, walk: seq<Ptr>, first: Ptr, free: seq<Ptr>, item: T)
    requires Tracked(memory, walk, first, free) && first != Null
    ensures free != [] && first in walk && first in memory && memory[first].HoleTo? && first !in Live(memory, walk)
    ensures Tracked(memory[first := Elem(item)], walk, memory[first].ptr, free[1..])
    ensures Live(memory[first := Elem(item)], walk) == Live(memory, walk)[first := item]
  {
    assert first in free;
    assert IsHole(memory, walk, first);
    var memory', free' := memory[first := Elem(item)], free[1..];
    forall i | 0 <= i < |free'|
      ensures free'[i] in memory' && memory'[free'[i]] == HoleTo(After(free', i))
    {
      assert free'[i] == free[i + 1] != free[0];
      assert After(free', i) == After(free, i + 1);
    }
    assert Threaded(memory', memory[first].ptr, free');
    assert free == [first] + free';
    assert forall q :: q in free' <==> q != first && q in free;
    assert forall q :: IsHole(memory', walk, q) <==> q != first && IsHole(memory, walk, q);
  }

  lemma BumpTracked<T>(memory: map<Ptr, Word<T>>, walk: seq<Ptr>, first: Ptr, free: seq<Ptr>, q: Ptr, item: T)
    requires Tracked(memory, walk, first, free) && q !in walk
    ensures Tracked(memory[q := Elem(item)], [q] + walk, first, free)
    ensures Live(memory[q := Elem(item)], [q] + walk) == Live(memory, walk)[q := item]
    ensures q !in Live(memory, walk)
  {
    var memory' := memory[q := Elem(item)];
    assert q !in free && !IsHole(memory, walk, q);
    assert forall r :: r in [q] + walk <==> r == q || r in walk;
    assert forall r :: IsHole(memory', [q] + walk, r) <==> IsHole(memory, walk, r);
  }

  /** Words outside the walk do not matter to it. */
  lemma OtherWord<T>(memory: map<Ptr, Word<T>>, walk: seq<Ptr>, first: Ptr, free: seq<Ptr>, q: Ptr, word: Word<T>)
    requires Tracked(memory, walk, first, free) && q !in walk
    ensures Tracked(memory[q := word], walk, first, free) && Live(memory[q := word], walk) == Live(memory, walk)
  {
    assert q !in free && !IsHole(memory, walk, q);
    assert forall r :: IsHole(memory[q := word], walk, r) <==> IsHole(memory, walk, r);
  }

  /** The chain of blocks and the bump index that end the walk. */
  ghost predicate Chained<T>(memory: map<Ptr, Word<T>>, chain: seq<nat>, index: Ptr, last: nat) {
    && 1 <= last
    && (forall i, j :: 0 <= i < j < |chain| ==> chain[i] != chain[j])
    && NULL_BLOCK !in chain
    && index.At? && 1 <= index.slot <= last
    && (if chain == [] then index == At(NULL_BLOCK, last) else index.block == chain[|chain| - 1])
    && Links(memory, chain, last)
  }

  lemma ChainedFrame<T>(memory: map<Ptr, Word<T>>, chain: seq<nat>, index: Ptr, last: nat, p: Ptr, word: Word<T>)
    requires Chained(memory, chain, index, last) && p.At? && (p.slot != 0 || p.block !in chain)
    ensures Chained(memory[p := word], chain, index, last)
  {
  }

  lemma LinksPush<T>(memory: map<Ptr, Word<T>>, chain: seq<nat>, index: Ptr, last: nat, block: nat)
    requires Links(memory, chain, last) && block !in chain && index == At(Before(chain, |chain|), last)
    ensures Links(memory[At(block, 0) := Link(index)], chain + [block], last)
  {
    var chain', memory' := chain + [block], memory[At(block, 0) := Link(index)];
    forall i | 0 <= i < |chain'|
      ensures At(chain'[i], 0) in memory' && memory'[At(chain'[i], 0)] == Link(At(Before(chain', i), last))
    {
      assert Before(chain', i) == Before(chain, i);
      if i < |chain| {
        assert chain'[i] == chain[i] && chain[i] in chain;
      }
    }
  }

  lemma ChainedPush<T>(memory: map<Ptr, Word<T>>, chain: seq<nat>, index: Ptr, last: nat, block: nat)
    requires Chained(memory, chain, index, last) && index.slot == last
    requires block != NULL_BLOCK && block !in chain
    ensures Chained(memory[At(block, 0) := Link(index)], chain + [block], At(block, 1), last)
  {
    LinksPush(memory, chain, index, last, block);
    assert forall i :: 0 <= i < |chain| ==> (chain + [block])[i] == chain[i] != block;
  }

  lemma WalkPush(chain: seq<nat>, last: nat, block: nat)
    ensures Walk(chain + [block], 1, last) == [At(block, 1)] + Walk(chain, last, last)
  {
    assert (chain + [block])[..|chain|] == chain;
    assert Down(block, 1) == [At(block, 1)];
  }

  lemma WalkBump(chain: seq<nat>, top: nat, last: nat)
    requires chain != []
    ensures Walk(chain, top + 1, last) == [At(chain[|chain| - 1], top + 1)] + Walk(chain, top, last)
  {
  }

  /** `visited` holds the elements found before position `j` of the walk, each once. */
  ghost predicate VisitedUpTo<T>(contents: map<Ptr, T>, walk: seq<Ptr>, visited: seq<Ptr>, j: nat)
    requires j <= |walk|
  {
    && Distinct(visited)
    && forall p :: p in visited <==> p in contents && p in walk[..j]
  }

  lemma VisitedStep<T>(contents: map<Ptr, T>, walk: seq<Ptr>, visited: seq<Ptr>, j: nat, next: nat)
    requires j < next <= |walk| && Distinct(walk) && VisitedUpTo(contents, walk, visited, j) && walk[j] in contents
    requires forall i :: j < i < next ==> walk[i] !in contents
    ensures VisitedUpTo(contents, walk, visited + [walk[j]], next)
  {
    assert walk[j] !in walk[..j];
    forall p ensures p in contents && p in walk[..next] <==> p in contents && (p in walk[..j] || p == walk[j]) {
      if p in contents && p in walk[..next] {
        var i :| 0 <= i < next && walk[i] == p;
        assert i < j ==> p == walk[..j][i];
      }
      if p in walk[..j] {
        var i :| 0 <= i < j && walk[..j][i] == p;
        assert walk[..next][i] == p;
      }
      assert walk[..next][j] == walk[j];
    }
  }

  lemma VisitedSkip<T>(contents: map<Ptr, T>, walk: seq<Ptr>, next: nat)
    requires next <= |walk| && forall i :: 0 <= i < next ==> walk[i] !in contents
    ensures VisitedUpTo(contents, walk, [], next)
  {
  }

  lemma VisitedAll<T>(contents: map<Ptr, T>, walk: seq<Ptr>, visited: seq<Ptr>, j: nat)
    requires j == |walk| && VisitedUpTo(contents, walk, visited, j) && forall p :: p in contents ==> p in walk
    ensures Distinct(visited) && forall p :: p in visited <==> p in contents
  {
    assert walk[..j] == walk;
  }

  class BagBase<T(==)> {
    /** The last slot of a block: `ITEM_COUNT - 1`. */
    const last: nat
    var memory: map<Ptr, Word<T>>
    var index: Ptr
    var nextFree: Ptr
    ghost var chain: seq<nat>
    ghost var free: seq<Ptr>

    ghost function Slots(): seq<Ptr>
      reads this
    {
      if index.At? then Walk(chain, index.slot, last) else []
    }

    /** The elements in the bag, by where they are. */
    ghost function Contents(): map<Ptr, T>
      reads this
    {
      Live(memory, Slots())
    }

    ghost predicate Valid()
      reads this
    {
      Chained(memory, chain, index, last) && Tracked(memory, Slots(), nextFree, free)
    }

    constructor (itemCount: nat)
      requires itemCount >= 2
      ensures Valid() && Contents() == map[] && last == itemCount - 1
    {
      last := itemCount - 1;
      memory := map[];
      index := At(NULL_BLOCK, itemCount - 1);
      nextFree := Null;
      chain := [];
      free := [];
    }

    /** The slot becomes the first hole of the freelist. */
    method Remove(p: Ptr)
      requires Valid() && p in Contents()
      modifies this`memory, this`nextFree, this`free
      ensures Valid() && Contents() == old(Contents()) - {p}
    {
      RemoveTracked(memory, Slots(), nextFree, free, p);
      WalkSlots(chain, index.slot, last, p);
      ChainedFrame(memory, chain, index, last, p, HoleTo(nextFree));
      memory := memory[p := HoleTo(nextFree)];
      nextFree := p;
      free := [p] + free;
    }

    /**
     Puts an element into a hole, or after the last slot in use, or into a new block; `block` is
     the block that the allocator hands out when asked.
     */
    method Insert(item: T, block: nat) returns (p: Ptr)
      requires Valid() && block != NULL_BLOCK && block !in chain
      modifies this
      ensures Valid() && p !in old(Contents()) && Contents() == old(Contents())[p := item]
    {
      if nextFree != Null {
        p := InsertHole(item);
      } else if index.slot != last {
        p := InsertBump(item);
      } else {
        p := InsertSlow(item, block);
      }
    }

    method InsertHole(item: T) returns (p: Ptr)
      requires Valid() && nextFree != Null
      modifies this
      ensures Valid() && p !in old(Contents()) && Contents() == old(Contents())[p := item]
    {
      ReuseTracked(memory, Slots(), nextFree, free, item);
      p := nextFree;
      WalkSlots(chain, index.slot, last, p);
      ChainedFrame(memory, chain, index, last, p, Elem(item));
      var prev := memory[p];
      memory := memory[p := Elem(item)];
      nextFree := prev.ptr;
      free := free[1..];
    }

    method InsertBump(item: T) returns (p: Ptr)
      requires Valid() && index.slot != last
      modifies this
      ensures Valid() && p !in old(Contents()) && Contents() == old(Contents())[p := item]
    {
      p := At(index.block, index.slot + 1);
      WalkSlots(chain, index.slot, last, p);
      BumpTracked(memory, Slots(), nextFree, free, p, item);
      WalkBump(chain, index.slot, last);
      ChainedFrame(memory, chain, index, last, p, Elem(item));
      index := p;
      memory := memory[p := Elem(item)];
    }

    /** The slow path: the new block links back to the full one. */
    method InsertSlow(item: T, block: nat) returns (p: Ptr)
      requires Valid() && block != NULL_BLOCK && block !in chain && index.slot == last
      modifies this
      ensures Valid() && p !in old(Contents()) && Contents() == old(Contents())[p := item]
    {
      var prev := At(block, 0);
      p := At(block, 1);
      WalkSlots(chain, last, last, prev);
      WalkSlots(chain, last, last, p);
      OtherWord(memory, Slots(), nextFree, free, prev, Link(index));
      ChainedPush(memory, chain, index, last, block);
      WalkPush(chain, last, block);
      BumpTracked(memory[prev := Link(index)], Slots(), nextFree, free, p, item);
      ChainedFrame(memory[prev := Link(index)], chain + [block], p, last, p, Elem(item));
      memory := memory[prev := Link(index)][p := Elem(item)];
      index := p;
      chain := chain + [block];
    }

    /** `step`: the next slot of the walk from position `k`. */
    method Step(p: Ptr, ghost k: nat) returns (q: Ptr)
      requires Valid() && k < |Slots()| && p == Slots()[k]
      ensures q == HeadOf(Slots()[k + 1..], last)
    {
      WalkNext(memory, chain, index.slot, last, k);
      q := At(p.block, p.slot - 1);
      if q.slot == 0 {
        assert exists i :: 0 <= i < |chain| && chain[i] == p.block;
        q := memory[q].ptr;
      }
    }

    /** `next_non_empty`: skips holes until an element or the null block. */
    method NextNonEmpty(p: Ptr, ghost k: nat) returns (q: Ptr, ghost j: nat)
      requires Valid() && k <= |Slots()| && p == HeadOf(Slots()[k..], last)
      ensures k <= j <= |Slots()| && q == HeadOf(Slots()[j..], last)
      ensures forall i :: k <= i < j ==> Slots()[i] !in Contents()
      ensures j < |Slots()| ==> q in Contents()
    {
      hide Valid, Slots, Contents;
      q, j := p, k;
      SlotsNotNull();
      while q != At(NULL_BLOCK, last) && memory[q].HoleTo?
        invariant k <= j <= |Slots()| && q == HeadOf(Slots()[j..], last)
        invariant forall i :: k <= i < j ==> Slots()[i] !in Contents()
        invariant j < |Slots()| ==> q in memory
        decreases |Slots()| - j
      {
        q := Step(q, j);
        j := j + 1;
      }
    }

    lemma SlotsNotNull()
      requires Valid()
      ensures forall i :: 0 <= i < |Slots()| ==>
        && Slots()[i] in memory && Slots()[i] != At(NULL_BLOCK, last)
        && (Slots()[i] in Contents() <==> !memory[Slots()[i]].HoleTo?)
    {
      forall i | 0 <= i < |Slots()|
        ensures Slots()[i] in memory && Slots()[i] != At(NULL_BLOCK, last)
        ensures Slots()[i] in Contents() <==> !memory[Slots()[i]].HoleTo?
      {
        WalkSlots(chain, index.slot, last, Slots()[i]);
        assert Slots()[i] in Slots();
      }
    }

    /** `operator++`: on from the element at position `k` to the next one. */
    method Advance(p: Ptr, ghost k: nat) returns (q: Ptr, ghost j: nat)
      requires Valid() && k < |Slots()| && p == Slots()[k]
      ensures k < j <= |Slots()| && q == HeadOf(Slots()[j..], last)
      ensures forall i :: k < i < j ==> Slots()[i] !in Contents()
      ensures j < |Slots()| ==> q in Contents()
    {
      q := Step(p, k);
      q, j := NextNonEmpty(q, k + 1);
    }

    /** Iterating from `begin` to `end` meets every element exactly once. */
    method Iterate() returns (visited: seq<Ptr>)
      requires Valid()
      ensures Distinct(visited) && forall p :: p in visited <==> p in Contents()
    {
      ghost var walk, contents := Slots(), Contents();
      assert walk[0..] == walk;
      WalkDistinct(chain, index.slot, last);
      SlotsNotNull();
      IndexStarts();
      visited := [];
      var p; ghost var j: nat;
      p, j := NextNonEmpty(index, 0);
      VisitedSkip(contents, walk, j);
      while p != At(NULL_BLOCK, last)
        invariant 0 <= j <= |walk| && p == HeadOf(walk[j..], last)
        invariant j < |walk| ==> p in contents
        invariant VisitedUpTo(contents, walk, visited, j)
        decreases |walk| - j
      {
        ghost var at := j;
        ghost var before := visited;
        visited := visited + [p];
        p, j := Advance(p, j);
        VisitedStep(contents, walk, before, at, j);
      }
      VisitedAll(contents, walk, visited, j);
    }

    lemma IndexStarts()
      requires Valid()
      ensures index == HeadOf(Slots(), last)
    {
    }
  }
}
