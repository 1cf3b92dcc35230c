/**
 Who owns what in the interpreter: registers, fields, cowns and messages hold regions and reference
 counts.  A value that an opcode has taken out of its place and not yet put back is in its hand.
 */
module Ownership {
  import opened Options

  type Ref = nat
  type CownId = nat

  /** `Mut` borrows; `Iso` owns a region, which is named by its entry object; `Cown` owns a count. */
  datatype Value =
    | Uninit
    | Iso(target: Ref)
    | Mut(target: Ref)
    | Imm(target: Ref)
    | Descriptor(descriptor: nat)
    | U64(number: nat)
    | Cown(cown: CownId)
    | Unowned(cown: CownId)
    | String(text: nat)

  datatype Object = Object(region: Ref, fields: seq<Value>)

  /**
   `frozen` holds regions that have become immutable, and `remembered` the cowns that each region
   keeps alive.
   */
  datatype Heap = Heap(
    objects: map<Ref, Object>,
    frozen: set<Ref>,
    remembered: set<(Ref, CownId)>,
    contents: map<CownId, Option<Ref>>)

  /** A message owns its cowns and its arguments; a delivered one is empty. */
  datatype Message = Message(args: seq<Value>, cowns: seq<CownId>, cownCount: nat)

  /**
   `counts` are the reference counts of cowns, and `holds` those kept by the runtime itself.  The
   regions in `doomed` are on the list of regions that are being released.
   */
  datatype Store = Store(
    stack: seq<Value>,
    hand: seq<Value>,
    queue: seq<Message>,
    heap: Heap,
    counts: map<CownId, nat>,
    holds: multiset<CownId>,
    doomed: set<Ref>)

  // ----- places -----

  datatype Place =
    | Register(index: nat)
    | Held(index: nat)
    | Argument(message: nat, index: nat)
    | Field(owner: Ref, index: nat)
    | Contents(cown: CownId)
    | Doomed(region: Ref)

  function Nth(s: seq<Value>, i: nat): Value {
    if i < |s| then s[i] else Uninit
  }

  function At(s: Store, p: Place): Value {
    match p
    case Register(i) => Nth(s.stack, i)
    case Held(i) => Nth(s.hand, i)
    case Argument(m, i) => if m < |s.queue| then Nth(s.queue[m].args, i) else Uninit
    case Field(o, i) => if o in s.heap.objects then Nth(s.heap.objects[o].fields, i) else Uninit
    case Contents(c) =>
      if c in s.heap.contents && s.heap.contents[c].Some? then Iso(s.heap.contents[c].value) else Uninit
    case Doomed(r) => if r in s.doomed then Iso(r) else Uninit
  }

  /** No two places own the same region. */
  ghost predicate Linear(s: Store) {
    forall p, q :: At(s, p).Iso? && At(s, p) == At(s, q) ==> p == q
  }

  // ----- what values may be where -----

  predicate Entry(h: Heap, r: Ref) {
    r in h.objects && h.objects[r].region == r
  }

  predicate Frozen(h: Heap, o: Ref) {
    o in h.objects && h.objects[o].region in h.frozen
  }

  /** A region is owned, an immutable is frozen, and a count belongs to a cown that exists. */
  predicate SoundValue(h: Heap, v: Value, inFrozen: bool) {
    match v
    case Iso(r) => Entry(h, r) && (r in h.frozen <==> inFrozen)
    case Imm(o) => Frozen(h, o)
    case Cown(c) => c in h.contents
    case Unowned(_) => false
    case _ => true
  }

  /** A field refers to mutable objects of its own region only, and its region remembers its cowns. */
  predicate SoundField(h: Heap, region: Ref, v: Value) {
    && SoundValue(h, v, region in h.frozen)
    && (v.Mut? ==> v.target in h.objects && h.objects[v.target].region == region)
    && (v.Cown? ==> (region, v.cown) in h.remembered)
  }

  ghost predicate SoundObject(h: Heap, o: Ref)
    requires o in h.objects
  {
    var region := h.objects[o].region;
    Entry(h, region) && forall i :: 0 <= i < |h.objects[o].fields| ==> SoundField(h, region, h.objects[o].fields[i])
  }

  ghost predicate SoundHeap(h: Heap) {
    && (forall o :: o in h.objects ==> SoundObject(h, o))
    && (forall r :: r in h.frozen ==> Entry(h, r))
    && (forall p :: p in h.remembered ==> Entry(h, p.0) && p.1 in h.contents)
    && (forall c :: c in h.contents && h.contents[c].Some? ==> SoundValue(h, Iso(h.contents[c].value), false))
  }

  ghost predicate SoundValues(h: Heap, s: seq<Value>) {
    forall i :: 0 <= i < |s| ==> SoundValue(h, s[i], false)
  }

  /** Only the places of acquired cowns hold them without a count. */
  predicate SoundArgument(h: Heap, m: Message, i: nat)
    requires i < |m.args|
  {
    if 1 <= i <= m.cownCount then i <= |m.cowns| && m.args[i] == Unowned(m.cowns[i - 1])
    else SoundValue(h, m.args[i], false)
  }

  ghost predicate SoundMessage(h: Heap, m: Message) {
    && (forall i :: 0 <= i < |m.args| ==> SoundArgument(h, m, i))
    && (forall i :: 0 <= i < |m.cowns| ==> m.cowns[i] in h.contents)
  }

  ghost predicate SoundPlaces(s: Store) {
    && SoundHeap(s.heap) && SoundValues(s.heap, s.stack) && SoundValues(s.heap, s.hand)
    && (forall m :: 0 <= m < |s.queue| ==> SoundMessage(s.heap, s.queue[m]))
    && (forall r :: r in s.doomed ==> SoundValue(s.heap, Iso(r), false))
    && s.counts.Keys == s.heap.contents.Keys && (forall c :: c in s.holds ==> c in s.counts)
  }

  // ----- counts -----

  function MessageOwners(m: Message, c: CownId): nat {
    multiset(m.args)[Cown(c)] + multiset(m.cowns)[c]
  }

  function QueueOwners(queue: seq<Message>, c: CownId): nat {
    if queue == [] then 0
    else QueueOwners(queue[..|queue| - 1], c) + MessageOwners(queue[|queue| - 1], c)
  }

  function RememberedBy(h: Heap, c: CownId): set<(Ref, CownId)> {
    set p | p in h.remembered && p.1 == c
  }

  /** Values in registers, in hand and in messages, the remembered sets, and the runtime. */
  function Owners(s: Store, c: CownId): nat {
    multiset(s.stack)[Cown(c)] + multiset(s.hand)[Cown(c)] + QueueOwners(s.queue, c) +
    |RememberedBy(s.heap, c)| + s.holds[c]
  }

  ghost predicate Counted(s: Store) {
    forall c :: c in s.counts ==> s.counts[c] == Owners(s, c)
  }

  ghost predicate Sound(s: Store) {
    SoundPlaces(s) && Linear(s) && Counted(s)
  }

  // ----- moving values -----

  /** Each region in the new store comes from a place of its own in the old one. */
  lemma LinearFrom(s: Store, t: Store, source: Place -> Place)
    requires Linear(s)
    requires forall p :: At(t, p).Iso? ==> At(s, source(p)) == At(t, p)
    requires forall p, q :: source(p) == source(q) ==> p == q
    ensures Linear(t)
  {
    forall p, q | At(t, p).Iso? && At(t, p) == At(t, q) ensures p == q {
      assert At(s, source(p)) == At(s, source(q));
    }
  }

  function Swap(a: Place, b: Place, p: Place): Place {
    if p == a then b else if p == b then a else p
  }

  lemma LinearSwapped(s: Store, t: Store, a: Place, b: Place)
    requires Linear(s)
    requires forall p :: At(t, p).Iso? ==> At(s, Swap(a, b, p)) == At(t, p)
    ensures Linear(t)
  {
    LinearFrom(s, t, p => Swap(a, b, p));
  }

  lemma LinearKept(s: Store, t: Store)
    requires Linear(s)
    requires forall p :: At(t, p).Iso? ==> At(s, p) == At(t, p)
    ensures Linear(t)
  {
    LinearFrom(s, t, p => p);
  }

  function Acquired(counts: map<CownId, nat>, c: CownId): map<CownId, nat>
    requires c in counts
  {
    counts[c := counts[c] + 1]
  }

  function Released(counts: map<CownId, nat>, c: CownId): map<CownId, nat>
    requires c in counts && counts[c] > 0
  {
    counts[c := counts[c] - 1]
  }

  /** The register is emptied into the hand. */
  function Taken(s: Store, i: nat): Store
    requires i < |s.stack|
  {
    s.(stack := s.stack[i := Uninit], hand := s.hand + [s.stack[i]])
  }

  lemma TakenSound(s: Store, i: nat)
    requires Sound(s) && i < |s.stack|
    ensures Sound(Taken(s, i))
  {
    var t := Taken(s, i);
    LinearSwapped(s, t, Register(i), Held(|s.hand|));
  }

  /** The stack grows by empty slots. */
  lemma GrownSound(s: Store, n: nat)
    requires Sound(s)
    ensures Sound(s.(stack := s.stack + Blank(n)))
  {
    var t := s.(stack := s.stack + Blank(n));
    LinearKept(s, t);
    forall c ensures Owners(t, c) == Owners(s, c) {
      assert Cown(c) !in Blank(n);
    }
    hide Owners, SoundHeap, SoundMessage, Linear;
  }

  /** A value that owns nothing comes to hand. */
  lemma PlainSound(s: Store, v: Value)
    requires Sound(s) && SoundValue(s.heap, v, false) && !v.Iso? && !v.Cown?
    ensures Sound(s.(hand := s.hand + [v]))
  {
    LinearKept(s, s.(hand := s.hand + [v]));
  }

  /** The owners of one cown change by as much as its count does. */
  lemma CountedBy(s: Store, t: Store, c: CownId)
    requires Counted(s) && c in s.counts && c in t.counts && t.counts == s.counts[c := t.counts[c]]
    requires t.counts[c] + Owners(s, c) == s.counts[c] + Owners(t, c)
    requires forall d :: d != c ==> Owners(t, d) == Owners(s, d)
    ensures Counted(t)
  {
  }

  /** A copy of a counted value comes to hand. */
  function Copied(s: Store, c: CownId): Store
    requires c in s.counts
  {
    s.(hand := s.hand + [Cown(c)], counts := Acquired(s.counts, c))
  }

  lemma CopiedCounted(s: Store, c: CownId)
    requires Counted(s) && c in s.counts
    ensures Counted(Copied(s, c))
  {
    CountedBy(s, Copied(s, c), c);
  }

  lemma CopiedPlaces(s: Store, c: CownId)
    requires SoundPlaces(s) && Linear(s) && c in s.counts
    ensures SoundPlaces(Copied(s, c)) && Linear(Copied(s, c))
  {
    LinearKept(s, Copied(s, c));
  }

  lemma CopiedSound(s: Store, c: CownId)
    requires Sound(s) && c in s.counts
    ensures Sound(Copied(s, c))
  {
    CopiedPlaces(s, c);
    CopiedCounted(s, c);
    hide SoundPlaces, Linear, Counted;
  }

  /** The last value in hand and a register change places. */
  function Swapped(s: Store, i: nat): Store
    requires i < |s.stack| && s.hand != []
  {
    var last := |s.hand| - 1;
    s.(stack := s.stack[i := s.hand[last]], hand := s.hand[last := s.stack[i]])
  }

  lemma SwappedSound(s: Store, i: nat)
    requires Sound(s) && i < |s.stack| && s.hand != []
    ensures Sound(Swapped(s, i))
  {
    LinearSwapped(s, Swapped(s, i), Register(i), Held(|s.hand| - 1));
  }

  // ----- letting go of values -----

  function Front(s: Store): Store
    requires s.hand != []
  {
    s.(hand := s.hand[..|s.hand| - 1])
  }

  function LastHeld(s: Store): Value
    requires s.hand != []
  {
    s.hand[|s.hand| - 1]
  }

  lemma FrontPlaces(s: Store)
    requires SoundPlaces(s) && Linear(s) && s.hand != []
    ensures SoundPlaces(Front(s)) && Linear(Front(s))
  {
    LinearKept(s, Front(s));
  }

  lemma FrontOwners(s: Store, c: CownId)
    requires s.hand != []
    ensures Owners(s, c) == Owners(Front(s), c) + if LastHeld(s) == Cown(c) then 1 else 0
  {
    assert s.hand == Front(s).hand + [LastHeld(s)];
  }

  /** A value that owns nothing may be dropped. */
  lemma DroppedPlain(s: Store)
    requires Sound(s) && s.hand != [] && !LastHeld(s).Cown?
    ensures Sound(Front(s))
  {
    FrontPlaces(s);
    forall c ensures Owners(Front(s), c) == Owners(s, c) {
      FrontOwners(s, c);
    }
    hide SoundPlaces, Linear, Owners;
  }

  function DroppedCown(s: Store): Store
    requires s.hand != [] && LastHeld(s).Cown?
    requires LastHeld(s).cown in s.counts && s.counts[LastHeld(s).cown] > 0
  {
    Front(s).(counts := Released(s.counts, LastHeld(s).cown))
  }

  /** A count that is in hand is positive, so that it can be given back. */
  lemma HeldCounted(s: Store, c: CownId)
    requires SoundPlaces(s) && Counted(s) && s.hand != [] && LastHeld(s) == Cown(c)
    ensures c in s.counts && s.counts[c] > 0
  {
    assert SoundValue(s.heap, LastHeld(s), false);
    FrontOwners(s, c);
  }

  lemma DroppedCownCounted(s: Store)
    requires SoundPlaces(s) && Counted(s) && s.hand != [] && LastHeld(s).Cown?
    ensures LastHeld(s).cown in s.counts && s.counts[LastHeld(s).cown] > 0 && Counted(DroppedCown(s))
  {
    var c := LastHeld(s).cown;
    HeldCounted(s, c);
    var t := DroppedCown(s);
    forall d ensures Owners(t, d) == Owners(Front(s), d) {
    }
    forall d ensures Owners(s, d) == Owners(t, d) + if d == c then 1 else 0 {
      FrontOwners(s, d);
    }
    hide SoundPlaces, Owners;
    CountedBy(s, t, c);
  }

  lemma DroppedCownPlaces(s: Store)
    requires SoundPlaces(s) && Linear(s) && s.hand != [] && LastHeld(s).Cown?
    requires LastHeld(s).cown in s.counts && s.counts[LastHeld(s).cown] > 0
    ensures SoundPlaces(DroppedCown(s)) && Linear(DroppedCown(s))
  {
    FrontPlaces(s);
    LinearKept(Front(s), DroppedCown(s));
  }

  lemma DroppedCownSound(s: Store)
    requires Sound(s) && s.hand != [] && LastHeld(s).Cown?
    ensures LastHeld(s).cown in s.counts && s.counts[LastHeld(s).cown] > 0 && Sound(DroppedCown(s))
  {
    DroppedCownCounted(s);
    DroppedCownPlaces(s);
    hide SoundPlaces, Linear, Counted;
  }

  /** The two topmost values in hand change places. */
  function Turned(s: Store): Store
    requires |s.hand| >= 2
  {
    var n := |s.hand|;
    s.(hand := s.hand[n - 1 := s.hand[n - 2]][n - 2 := s.hand[n - 1]])
  }

  lemma TurnedSound(s: Store)
    requires Sound(s) && |s.hand| >= 2
    ensures Sound(Turned(s))
  {
    TurnedLinear(s);
    TurnedCounted(s);
    hide Linear, Counted;
  }

  lemma TurnedLinear(s: Store)
    requires Linear(s) && |s.hand| >= 2
    ensures Linear(Turned(s))
  {
    LinearSwapped(s, Turned(s), Held(|s.hand| - 1), Held(|s.hand| - 2));
  }

  lemma TurnedCounted(s: Store)
    requires Counted(s) && |s.hand| >= 2
    ensures Counted(Turned(s))
  {
    var t := Turned(s);
    assert multiset(t.hand) == multiset(s.hand);
    forall c ensures Owners(t, c) == Owners(s, c) {
    }
    hide Owners;
  }

  // ----- regions and objects -----

  function Blank(n: nat): seq<Value> {
    seq(n, _ => Uninit)
  }

  function WithObject(h: Heap, o: Ref, region: Ref, n: nat): Heap {
    h.(objects := h.objects[o := Object(region, Blank(n))])
  }

  /** A new object disturbs nothing. */
  lemma HeapGrows(h: Heap, o: Ref, region: Ref, n: nat)
    requires SoundHeap(h) && o !in h.objects && (region == o || Entry(h, region))
    ensures var g := WithObject(h, o, region, n);
      && SoundHeap(g) && (forall v, f :: SoundValue(h, v, f) ==> SoundValue(g, v, f))
  {
    var g := WithObject(h, o, region, n);
    forall q | q in g.objects ensures SoundObject(g, q) {
      if q != o {
        assert SoundObject(h, q);
      }
    }
  }

  lemma MessageKept(h: Heap, g: Heap, m: Message)
    requires SoundMessage(h, m) && (forall v, f :: SoundValue(h, v, f) ==> SoundValue(g, v, f))
    requires forall c :: c in h.contents ==> c in g.contents
    ensures SoundMessage(g, m)
  {
    forall i | 0 <= i < |m.args| ensures SoundArgument(g, m, i) {
      assert SoundArgument(h, m, i);
    }
  }

  lemma QueueKept(s: Store, g: Heap)
    requires SoundPlaces(s) && (forall v, f :: SoundValue(s.heap, v, f) ==> SoundValue(g, v, f))
    requires forall c :: c in s.heap.contents ==> c in g.contents
    ensures SoundValues(g, s.stack) && SoundValues(g, s.hand)
    ensures forall m :: 0 <= m < |s.queue| ==> SoundMessage(g, s.queue[m])
  {
    forall m | 0 <= m < |s.queue| ensures SoundMessage(g, s.queue[m]) {
      MessageKept(s.heap, g, s.queue[m]);
    }
  }

  function WithRegion(s: Store, o: Ref, n: nat): Store {
    s.(heap := WithObject(s.heap, o, o, n), hand := s.hand + [Iso(o)])
  }

  lemma WithRegionPlaces(s: Store, o: Ref, n: nat)
    requires SoundPlaces(s) && o !in s.heap.objects
    ensures SoundPlaces(WithRegion(s, o, n))
  {
    HeapGrows(s.heap, o, o, n);
    QueueKept(s, WithObject(s.heap, o, o, n));
    hide SoundHeap, SoundMessage;
  }

  /** Regions that are owned exist. */
  lemma OwnedLive(s: Store, p: Place)
    requires SoundPlaces(s) && At(s, p).Iso?
    ensures Entry(s.heap, At(s, p).target)
  {
    match p
    case Register(_) =>
    case Held(_) =>
    case Argument(m, i) => assert SoundMessage(s.heap, s.queue[m]) && SoundArgument(s.heap, s.queue[m], i);
    case Field(o, _) => assert SoundObject(s.heap, o);
    case Contents(_) =>
    case Doomed(_) =>
  }

  lemma WithRegionLinear(s: Store, o: Ref, n: nat)
    requires SoundPlaces(s) && Linear(s) && o !in s.heap.objects
    ensures Linear(WithRegion(s, o, n))
  {
    var t := WithRegion(s, o, n);
    var spot := Held(|s.hand|);
    forall p ensures p != spot ==> At(t, p).Iso? ==> At(s, p) == At(t, p) && At(t, p).target != o {
      if p != spot && At(t, p).Iso? {
        assert At(s, p) == At(t, p);
        OwnedLive(s, p);
      }
    }
    hide SoundPlaces;
    forall p, q | At(t, p).Iso? && At(t, p) == At(t, q) ensures p == q {
    }
  }

  lemma WithRegionSound(s: Store, o: Ref, n: nat)
    requires Sound(s) && o !in s.heap.objects
    ensures Sound(WithRegion(s, o, n))
  {
    WithRegionPlaces(s, o, n);
    WithRegionLinear(s, o, n);
    var t := WithRegion(s, o, n);
    forall c ensures Owners(t, c) == Owners(s, c) {
    }
    hide SoundPlaces, Linear, Owners;
  }

  function WithMember(s: Store, o: Ref, region: Ref, n: nat): Store {
    s.(heap := WithObject(s.heap, o, region, n), hand := s.hand + [Mut(o)])
  }

  lemma WithMemberSound(s: Store, o: Ref, region: Ref, n: nat)
    requires Sound(s) && o !in s.heap.objects && Entry(s.heap, region)
    ensures Sound(WithMember(s, o, region, n))
  {
    WithMemberPlaces(s, o, region, n);
    WithMemberLinear(s, o, region, n);
    var t := WithMember(s, o, region, n);
    forall c ensures Owners(t, c) == Owners(s, c) {
    }
    hide SoundPlaces, Linear, Owners;
  }

  lemma WithMemberPlaces(s: Store, o: Ref, region: Ref, n: nat)
    requires SoundPlaces(s) && o !in s.heap.objects && Entry(s.heap, region)
    ensures SoundPlaces(WithMember(s, o, region, n))
  {
    HeapGrows(s.heap, o, region, n);
    QueueKept(s, WithObject(s.heap, o, region, n));
    hide SoundHeap, SoundMessage;
  }

  lemma WithMemberLinear(s: Store, o: Ref, region: Ref, n: nat)
    requires Linear(s) && o !in s.heap.objects
    ensures Linear(WithMember(s, o, region, n))
  {
    LinearKept(s, WithMember(s, o, region, n));
  }

  // ----- fields -----

  function SetField(h: Heap, o: Ref, i: nat, v: Value): Heap
    requires o in h.objects && i < |h.objects[o].fields|
  {
    h.(objects := h.objects[o := Object(h.objects[o].region, h.objects[o].fields[i := v])])
  }

  lemma SetFieldValues(h: Heap, o: Ref, i: nat, v: Value)
    requires o in h.objects && i < |h.objects[o].fields|
    ensures forall w, f :: SoundValue(SetField(h, o, i, v), w, f) == SoundValue(h, w, f)
    ensures forall w, r :: SoundField(SetField(h, o, i, v), r, w) == SoundField(h, r, w)
  {
  }

  lemma SetFieldHeap(h: Heap, o: Ref, i: nat, v: Value)
    requires SoundHeap(h) && o in h.objects && i < |h.objects[o].fields| && SoundField(h, h.objects[o].region, v)
    ensures SoundHeap(SetField(h, o, i, v))
    ensures forall w, f :: SoundValue(SetField(h, o, i, v), w, f) == SoundValue(h, w, f)
  {
    var g := SetField(h, o, i, v);
    SetFieldValues(h, o, i, v);
    hide SoundField, SoundValue;
    forall q | q in g.objects ensures SoundObject(g, q) {
      assert SoundObject(h, q);
    }
  }

  /** The field is emptied into the hand; a cown in it is kept alive by the region, so the hand gets a count. */
  function FieldTaken(s: Store, o: Ref, i: nat): Store
    requires o in s.heap.objects && i < |s.heap.objects[o].fields|
    requires s.heap.objects[o].fields[i].Cown? ==> s.heap.objects[o].fields[i].cown in s.counts
  {
    var v := s.heap.objects[o].fields[i];
    s.(heap := SetField(s.heap, o, i, Uninit), hand := s.hand + [v],
       counts := if v.Cown? then Acquired(s.counts, v.cown) else s.counts)
  }

  lemma FieldKnown(s: Store, o: Ref, i: nat)
    requires SoundPlaces(s) && o in s.heap.objects && i < |s.heap.objects[o].fields|
    ensures var v := s.heap.objects[o].fields[i];
      && SoundField(s.heap, s.heap.objects[o].region, v) && (v.Cown? ==> v.cown in s.counts)
  {
    assert SoundObject(s.heap, o);
  }

  lemma FieldTakenPlaces(s: Store, o: Ref, i: nat)
    requires SoundPlaces(s) && o in s.heap.objects && i < |s.heap.objects[o].fields|
    requires s.heap.objects[o].fields[i].Cown? ==> s.heap.objects[o].fields[i].cown in s.counts
    requires s.heap.objects[o].region !in s.heap.frozen
    ensures SoundPlaces(FieldTaken(s, o, i))
  {
    FieldKnown(s, o, i);
    SetFieldHeap(s.heap, o, i, Uninit);
    QueueKept(s, SetField(s.heap, o, i, Uninit));
    hide SoundHeap, SoundMessage;
  }

  lemma FieldTakenLinear(s: Store, o: Ref, i: nat)
    requires Linear(s) && o in s.heap.objects && i < |s.heap.objects[o].fields|
    requires s.heap.objects[o].fields[i].Cown? ==> s.heap.objects[o].fields[i].cown in s.counts
    ensures Linear(FieldTaken(s, o, i))
  {
    LinearSwapped(s, FieldTaken(s, o, i), Field(o, i), Held(|s.hand|));
  }

  lemma FieldTakenCounted(s: Store, o: Ref, i: nat)
    requires Counted(s) && o in s.heap.objects && i < |s.heap.objects[o].fields|
    requires s.heap.objects[o].fields[i].Cown? ==> s.heap.objects[o].fields[i].cown in s.counts
    ensures Counted(FieldTaken(s, o, i))
  {
    var t, v := FieldTaken(s, o, i), s.heap.objects[o].fields[i];
    forall c ensures Owners(t, c) == Owners(s, c) + if v == Cown(c) then 1 else 0 {
    }
    hide Owners;
    if v.Cown? {
      CountedBy(s, t, v.cown);
    }
  }

  lemma FieldTakenSound(s: Store, o: Ref, i: nat)
    requires Sound(s) && o in s.heap.objects && i < |s.heap.objects[o].fields|
    requires s.heap.objects[o].region !in s.heap.frozen
    ensures s.heap.objects[o].fields[i].Cown? ==> s.heap.objects[o].fields[i].cown in s.counts
    ensures Sound(FieldTaken(s, o, i))
  {
    FieldKnown(s, o, i);
    FieldTakenPlaces(s, o, i);
    FieldTakenLinear(s, o, i);
    FieldTakenCounted(s, o, i);
    hide SoundPlaces, Linear, Counted;
  }

  /** The value in hand goes into an empty field; its count goes to the region, which keeps one for each cown. */
  function FieldPut(s: Store, o: Ref, i: nat): Store
    requires s.hand != [] && o in s.heap.objects && i < |s.heap.objects[o].fields|
    requires LastHeld(s).Cown? ==> LastHeld(s).cown in s.counts && s.counts[LastHeld(s).cown] > 0
  {
    var v, region := LastHeld(s), s.heap.objects[o].region;
    var set' := SetField(s.heap, o, i, v);
    if v.Cown? then
      Front(s).(heap := set'.(remembered := s.heap.remembered + {(region, v.cown)}),
                counts := if (region, v.cown) in s.heap.remembered then Released(s.counts, v.cown) else s.counts)
    else Front(s).(heap := set')
  }

  /** What may be stored: nothing borrowed from another region. */
  predicate Storable(h: Heap, o: Ref, v: Value)
    requires o in h.objects
  {
    v.Mut? ==> v.target in h.objects && h.objects[v.target].region == h.objects[o].region
  }

  lemma RememberHeap(h: Heap, region: Ref, c: CownId)
    requires SoundHeap(h) && Entry(h, region) && c in h.contents
    ensures var g := h.(remembered := h.remembered + {(region, c)});
      SoundHeap(g) && (forall w, f :: SoundValue(g, w, f) == SoundValue(h, w, f)) && SoundField(g, region, Cown(c))
  {
    var g := h.(remembered := h.remembered + {(region, c)});
    forall q | q in g.objects ensures SoundObject(g, q) {
      assert SoundObject(h, q);
    }
  }

  lemma FieldPutHeap(s: Store, o: Ref, i: nat)
    requires SoundPlaces(s) && s.hand != [] && o in s.heap.objects && i < |s.heap.objects[o].fields|
    requires LastHeld(s).Cown? ==> LastHeld(s).cown in s.counts && s.counts[LastHeld(s).cown] > 0
    requires s.heap.objects[o].region !in s.heap.frozen && Storable(s.heap, o, LastHeld(s))
    ensures var g := FieldPut(s, o, i).heap;
      SoundHeap(g) && (forall w, f :: SoundValue(g, w, f) == SoundValue(s.heap, w, f))
  {
    var v, region := LastHeld(s), s.heap.objects[o].region;
    assert SoundValue(s.heap, v, false);
    assert SoundObject(s.heap, o);
    if v.Cown? {
      RememberHeap(s.heap, region, v.cown);
      var g := s.heap.(remembered := s.heap.remembered + {(region, v.cown)});
      SetFieldHeap(g, o, i, v);
      assert FieldPut(s, o, i).heap == SetField(g, o, i, v);
    } else {
      SetFieldHeap(s.heap, o, i, v);
    }
  }

  lemma FieldPutPlaces(s: Store, o: Ref, i: nat)
    requires SoundPlaces(s) && s.hand != [] && o in s.heap.objects && i < |s.heap.objects[o].fields|
    requires LastHeld(s).Cown? ==> LastHeld(s).cown in s.counts && s.counts[LastHeld(s).cown] > 0
    requires s.heap.objects[o].region !in s.heap.frozen && Storable(s.heap, o, LastHeld(s))
    ensures SoundPlaces(FieldPut(s, o, i))
  {
    FieldPutHeap(s, o, i);
    var t := FieldPut(s, o, i);
    QueueKept(s, t.heap);
    assert t.stack == s.stack && t.queue == s.queue && t.hand == s.hand[..|s.hand| - 1] && t.holds == s.holds;
    assert t.counts.Keys == s.counts.Keys && t.heap.contents == s.heap.contents;
    hide SoundHeap, SoundMessage, FieldPut;
  }

  lemma FieldPutLinear(s: Store, o: Ref, i: nat)
    requires Linear(s) && s.hand != [] && o in s.heap.objects && i < |s.heap.objects[o].fields|
    requires LastHeld(s).Cown? ==> LastHeld(s).cown in s.counts && s.counts[LastHeld(s).cown] > 0
    ensures Linear(FieldPut(s, o, i))
  {
    LinearSwapped(s, FieldPut(s, o, i), Field(o, i), Held(|s.hand| - 1));
  }

  lemma FieldPutCounted(s: Store, o: Ref, i: nat)
    requires Counted(s) && s.hand != [] && o in s.heap.objects && i < |s.heap.objects[o].fields|
    requires LastHeld(s).Cown? ==> LastHeld(s).cown in s.counts && s.counts[LastHeld(s).cown] > 0
    ensures Counted(FieldPut(s, o, i))
  {
    var t, v, region := FieldPut(s, o, i), LastHeld(s), s.heap.objects[o].region;
    forall c: CownId ensures Owners(s, c) == Owners(t, c) + PutExcess(s, region, c) {
      FieldPutOwners(s, o, i, c);
    }
    hide Owners;
    if v.Cown? {
      CountedBy(s, t, v.cown);
    }
  }

  /** One count is left over when the region has the cown already. */
  function PutExcess(s: Store, region: Ref, c: CownId): nat
    requires s.hand != []
  {
    if LastHeld(s) == Cown(c) && (region, c) in s.heap.remembered then 1 else 0
  }

  lemma SizeWith(pairs: set<(Ref, CownId)>, p: (Ref, CownId))
    ensures |pairs + {p}| == |pairs| + if p in pairs then 0 else 1
  {
    if p in pairs {
      assert pairs + {p} == pairs;
    }
  }

  lemma FieldPutOwners(s: Store, o: Ref, i: nat, c: CownId)
    requires s.hand != [] && o in s.heap.objects && i < |s.heap.objects[o].fields|
    requires LastHeld(s).Cown? ==> LastHeld(s).cown in s.counts && s.counts[LastHeld(s).cown] > 0
    ensures Owners(s, c) == Owners(FieldPut(s, o, i), c) + PutExcess(s, s.heap.objects[o].region, c)
  {
    var t, region := FieldPut(s, o, i), s.heap.objects[o].region;
    FrontOwners(s, c);
    if LastHeld(s) == Cown(c) {
      assert RememberedBy(t.heap, c) == RememberedBy(s.heap, c) + {(region, c)};
      SizeWith(RememberedBy(s.heap, c), (region, c));
    } else {
      assert RememberedBy(t.heap, c) == RememberedBy(s.heap, c);
    }
  }

  lemma FieldPutSound(s: Store, o: Ref, i: nat)
    requires Sound(s) && s.hand != [] && o in s.heap.objects && i < |s.heap.objects[o].fields|
    requires s.heap.objects[o].region !in s.heap.frozen && Storable(s.heap, o, LastHeld(s))
    ensures LastHeld(s).Cown? ==> LastHeld(s).cown in s.counts && s.counts[LastHeld(s).cown] > 0
    ensures Sound(FieldPut(s, o, i))
  {
    if LastHeld(s).Cown? {
      HeldCounted(s, LastHeld(s).cown);
    }
    FieldPutPlaces(s, o, i);
    FieldPutLinear(s, o, i);
    FieldPutCounted(s, o, i);
    hide SoundPlaces, Linear, Counted;
  }

  /** The value in hand and the field have changed places. */
  function Exchanged(s: Store, o: Ref, i: nat): Store
    requires |s.hand| == 1 && o in s.heap.objects && i < |s.heap.objects[o].fields|
    requires s.heap.objects[o].fields[i].Cown? ==> s.heap.objects[o].fields[i].cown in s.counts
    requires s.hand[0].Cown? ==> s.hand[0].cown in s.counts && s.counts[s.hand[0].cown] > 0
  {
    var v, f, region := s.hand[0], s.heap.objects[o].fields[i], s.heap.objects[o].region;
    var acquired := if f.Cown? then Acquired(s.counts, f.cown) else s.counts;
    if v.Cown? then
      s.(heap := SetField(s.heap, o, i, v).(remembered := s.heap.remembered + {(region, v.cown)}), hand := [f],
         counts := if (region, v.cown) in s.heap.remembered then Released(acquired, v.cown) else acquired)
    else s.(heap := SetField(s.heap, o, i, v), hand := [f], counts := acquired)
  }

  lemma ExchangedIs(s: Store, o: Ref, i: nat)
    requires |s.hand| == 1 && o in s.heap.objects && i < |s.heap.objects[o].fields|
    requires s.heap.objects[o].fields[i].Cown? ==> s.heap.objects[o].fields[i].cown in s.counts
    requires s.hand[0].Cown? ==> s.hand[0].cown in s.counts && s.counts[s.hand[0].cown] > 0
    ensures var turned := Turned(FieldTaken(s, o, i));
      && o in turned.heap.objects && i < |turned.heap.objects[o].fields| && LastHeld(turned) == s.hand[0]
      && (s.hand[0].Cown? ==> s.hand[0].cown in turned.counts && turned.counts[s.hand[0].cown] > 0)
      && FieldPut(turned, o, i) == Exchanged(s, o, i)
  {
    var v, fields := s.hand[0], s.heap.objects[o].fields;
    var turned := Turned(FieldTaken(s, o, i));
    assert turned.hand == [fields[i], v];
    assert fields[i := Uninit][i := v] == fields[i := v];
    assert Front(turned).hand == [fields[i]];
    assert SetField(SetField(s.heap, o, i, Uninit), o, i, v).objects == SetField(s.heap, o, i, v).objects;
  }

  /** Exchanging keeps every region owned once and every count exact. */
  lemma ExchangedSound(s: Store, o: Ref, i: nat)
    requires Sound(s) && |s.hand| == 1 && o in s.heap.objects && i < |s.heap.objects[o].fields|
    requires s.heap.objects[o].region !in s.heap.frozen && Storable(s.heap, o, s.hand[0])
    ensures s.heap.objects[o].fields[i].Cown? ==> s.heap.objects[o].fields[i].cown in s.counts
    ensures s.hand[0].Cown? ==> s.hand[0].cown in s.counts && s.counts[s.hand[0].cown] > 0
    ensures Sound(Exchanged(s, o, i))
  {
    FieldTakenSound(s, o, i);
    if s.hand[0].Cown? {
      HeldCounted(s, s.hand[0].cown);
    }
    var taken := FieldTaken(s, o, i);
    TurnedSound(taken);
    ExchangedIs(s, o, i);
    hide Sound, Exchanged;
    FieldPutSound(Turned(taken), o, i);
  }

  // ----- cowns -----

  function WithCown(s: Store, c: CownId): Store {
    s.(heap := s.heap.(contents := s.heap.contents[c := None]), hand := s.hand + [Cown(c)], counts := s.counts[c := 1])
  }

  lemma WithCownPlaces(s: Store, c: CownId)
    requires SoundPlaces(s) && c !in s.counts
    ensures SoundPlaces(WithCown(s, c))
  {
    var t := WithCown(s, c);
    assert forall v, f :: SoundValue(s.heap, v, f) ==> SoundValue(t.heap, v, f);
    WithCownHeap(s.heap, c);
    QueueKept(s, t.heap);
    hide SoundHeap, SoundMessage;
  }

  lemma WithCownHeap(h: Heap, c: CownId)
    requires SoundHeap(h) && c !in h.contents
    ensures SoundHeap(h.(contents := h.contents[c := None]))
  {
    var g := h.(contents := h.contents[c := None]);
    forall o | o in g.objects ensures SoundObject(g, o) {
      assert SoundObject(h, o);
    }
  }

  /** A cown that does not exist has no owner. */
  lemma {:induction false} UnknownInQueue(h: Heap, queue: seq<Message>, c: CownId)
    requires (forall m :: 0 <= m < |queue| ==> SoundMessage(h, queue[m])) && c !in h.contents
    ensures QueueOwners(queue, c) == 0
    decreases |queue|
  {
    if queue != [] {
      UnknownInQueue(h, queue[..|queue| - 1], c);
      var m := queue[|queue| - 1];
      assert SoundMessage(h, m);
      forall i | 0 <= i < |m.args| ensures m.args[i] != Cown(c) {
        assert SoundArgument(h, m, i);
      }
      assert Cown(c) !in m.args && c !in m.cowns;
    }
  }

  lemma UnknownUnowned(s: Store, c: CownId)
    requires SoundPlaces(s) && c !in s.counts
    ensures Owners(s, c) == 0
  {
    UnknownInQueue(s.heap, s.queue, c);
    assert Cown(c) !in s.stack && Cown(c) !in s.hand;
    assert RememberedBy(s.heap, c) == {};
  }

  lemma WithCownCounted(s: Store, c: CownId)
    requires SoundPlaces(s) && Counted(s) && c !in s.counts
    ensures Counted(WithCown(s, c))
  {
    UnknownUnowned(s, c);
    var t := WithCown(s, c);
    forall d ensures Owners(t, d) == Owners(s, d) + if d == c then 1 else 0 {
    }
    hide Owners, SoundPlaces;
  }

  lemma WithCownSound(s: Store, c: CownId)
    requires Sound(s) && c !in s.counts
    ensures Sound(WithCown(s, c))
  {
    WithCownPlaces(s, c);
    WithCownCounted(s, c);
    WithCownLinear(s, c);
    hide SoundPlaces, Counted, Linear;
  }

  lemma WithCownLinear(s: Store, c: CownId)
    requires Linear(s)
    ensures Linear(WithCown(s, c))
  {
    LinearKept(s, WithCown(s, c));
  }

  /** The cown takes the region that is in hand. */
  function Filled(s: Store, c: CownId): Store
    requires s.hand != [] && LastHeld(s).Iso?
  {
    Front(s).(heap := s.heap.(contents := s.heap.contents[c := Some(LastHeld(s).target)]))
  }

  lemma FilledSound(s: Store, c: CownId)
    requires Sound(s) && s.hand != [] && LastHeld(s).Iso? && c in s.counts
    ensures Sound(Filled(s, c))
  {
    FilledPlaces(s, c);
    FilledLinear(s, c);
    FilledCounted(s, c);
    hide SoundPlaces, Linear, Counted;
  }

  lemma FilledLinear(s: Store, c: CownId)
    requires Linear(s) && s.hand != [] && LastHeld(s).Iso?
    ensures Linear(Filled(s, c))
  {
    LinearSwapped(s, Filled(s, c), Held(|s.hand| - 1), Contents(c));
  }

  lemma FilledCounted(s: Store, c: CownId)
    requires Counted(s) && s.hand != [] && LastHeld(s).Iso?
    ensures Counted(Filled(s, c))
  {
    var t := Filled(s, c);
    forall d ensures Owners(t, d) == Owners(s, d) {
      FrontOwners(s, d);
    }
    hide Owners;
  }

  lemma FilledPlaces(s: Store, c: CownId)
    requires SoundPlaces(s) && s.hand != [] && LastHeld(s).Iso? && c in s.counts
    ensures SoundPlaces(Filled(s, c))
  {
    var t := Filled(s, c);
    assert forall v, f :: SoundValue(s.heap, v, f) ==> SoundValue(t.heap, v, f);
    forall o | o in t.heap.objects ensures SoundObject(t.heap, o) {
      assert SoundObject(s.heap, o);
    }
    assert SoundValue(s.heap, LastHeld(s), false);
    QueueKept(s, t.heap);
    hide SoundObject, SoundMessage;
  }

  /** The runtime takes a count of its own. */
  lemma HoldSound(s: Store, c: CownId)
    requires Sound(s) && c in s.counts
    ensures Sound(s.(counts := Acquired(s.counts, c), holds := s.holds + multiset{c}))
  {
    var t := s.(counts := Acquired(s.counts, c), holds := s.holds + multiset{c});
    HoldPlaces(s, c);
    HoldCounted(s, c);
    hide SoundPlaces, Counted, Linear;
  }

  lemma HoldPlaces(s: Store, c: CownId)
    requires SoundPlaces(s) && Linear(s) && c in s.counts
    ensures var t := s.(counts := Acquired(s.counts, c), holds := s.holds + multiset{c}); SoundPlaces(t) && Linear(t)
  {
    LinearKept(s, s.(counts := Acquired(s.counts, c), holds := s.holds + multiset{c}));
  }

  lemma HoldCounted(s: Store, c: CownId)
    requires Counted(s) && c in s.counts
    ensures Counted(s.(counts := Acquired(s.counts, c), holds := s.holds + multiset{c}))
  {
    CountedBy(s, s.(counts := Acquired(s.counts, c), holds := s.holds + multiset{c}), c);
  }

  // ----- freezing -----

  ghost predicate Owns(s: Store, p: Place, regions: set<Ref>) {
    At(s, p).Iso? && At(s, p).target in regions
  }

  /** Only the values that own one of these regions are affected. */
  ghost predicate KeptExcept(h: Heap, g: Heap, regions: set<Ref>) {
    && h.contents == g.contents
    && forall v, f :: SoundValue(h, v, f) && !(v.Iso? && v.target in regions) ==> SoundValue(g, v, f)
  }

  lemma ValuesKeptExcept(s: Store, g: Heap, regions: set<Ref>, k: nat)
    requires SoundPlaces(s) && KeptExcept(s.heap, g, regions) && k <= |s.hand|
    requires forall p: Place :: p.Register? || p.Argument? || (p.Held? && p.index < k) ==> !Owns(s, p, regions)
    ensures SoundValues(g, s.stack) && SoundValues(g, s.hand[..k])
    ensures forall m :: 0 <= m < |s.queue| ==> SoundMessage(g, s.queue[m])
  {
    forall i | 0 <= i < |s.stack| ensures SoundValue(g, s.stack[i], false) {
      assert !Owns(s, Register(i), regions);
    }
    forall i | 0 <= i < k ensures SoundValue(g, s.hand[i], false) {
      assert !Owns(s, Held(i), regions);
    }
    forall m | 0 <= m < |s.queue| ensures SoundMessage(g, s.queue[m]) {
      assert SoundMessage(s.heap, s.queue[m]);
      forall i | 0 <= i < |s.queue[m].args| ensures SoundArgument(g, s.queue[m], i) {
        assert SoundArgument(s.heap, s.queue[m], i) && !Owns(s, Argument(m, i), regions);
      }
    }
  }

  predicate InRegions(h: Heap, o: Ref, regions: set<Ref>) {
    o in h.objects && h.objects[o].region in regions
  }

  predicate OwnedFrom(h: Heap, o: Ref, i: nat, q: Ref) {
    o in h.objects && i < |h.objects[o].fields| && h.objects[o].fields[i] == Iso(q)
  }

  /** The region and all that are owned from inside these regions, and no others. */
  ghost predicate OwnedRegions(h: Heap, r: Ref, regions: set<Ref>) {
    && r in regions
    && (forall q :: q in regions ==> Entry(h, q) && q !in h.frozen)
    && (forall o, i, q :: InRegions(h, o, regions) && OwnedFrom(h, o, i, q) ==> q in regions)
    && (forall q :: q in regions && q != r ==> exists o, i :: InRegions(h, o, regions) && OwnedFrom(h, o, i, q))
  }

  function FreezeHeap(h: Heap, regions: set<Ref>): Heap {
    h.(frozen := h.frozen + regions)
  }

  function FrozenWith(s: Store, regions: set<Ref>): Store
    requires s.hand != [] && LastHeld(s).Iso?
  {
    s.(heap := FreezeHeap(s.heap, regions), hand := s.hand[|s.hand| - 1 := Imm(LastHeld(s).target)])
  }

  /** Only the hand and fields of the frozen objects own the regions that are frozen. */
  lemma FreezeOwners(s: Store, regions: set<Ref>, p: Place)
    requires Linear(s) && s.hand != [] && LastHeld(s).Iso? && OwnedRegions(s.heap, LastHeld(s).target, regions)
    requires Owns(s, p, regions)
    ensures p == Held(|s.hand| - 1) || (p.Field? && InRegions(s.heap, p.owner, regions))
  {
    hide OwnedRegions;
    var q := At(s, p).target;
    if q == LastHeld(s).target {
      assert At(s, Held(|s.hand| - 1)) == At(s, p);
    } else {
      var o, i := OwningField(s.heap, LastHeld(s).target, regions, q);
      assert At(s, Field(o, i)) == At(s, p);
    }
  }

  lemma OwningField(h: Heap, r: Ref, regions: set<Ref>, q: Ref) returns (o: Ref, i: nat)
    requires OwnedRegions(h, r, regions) && q in regions && q != r
    ensures InRegions(h, o, regions) && OwnedFrom(h, o, i, q)
  {
    o, i :| InRegions(h, o, regions) && OwnedFrom(h, o, i, q);
  }

  lemma FreezeObject(s: Store, regions: set<Ref>, o: Ref)
    requires SoundPlaces(s) && Linear(s) && s.hand != [] && LastHeld(s).Iso?
    requires OwnedRegions(s.heap, LastHeld(s).target, regions) && o in s.heap.objects
    ensures SoundObject(FreezeHeap(s.heap, regions), o)
  {
    var h, g := s.heap, FreezeHeap(s.heap, regions);
    assert SoundObject(h, o);
    var region := h.objects[o].region;
    forall i | 0 <= i < |h.objects[o].fields| ensures SoundField(g, region, h.objects[o].fields[i]) {
      var v := h.objects[o].fields[i];
      assert SoundField(h, region, v);
      if v.Iso? {
        assert OwnedFrom(h, o, i, v.target) && At(s, Field(o, i)) == v;
        if v.target in regions {
          FreezeOwners(s, regions, Field(o, i));
        }
      }
    }
  }

  lemma FreezeContents(s: Store, regions: set<Ref>, c: CownId)
    requires SoundPlaces(s) && Linear(s) && s.hand != [] && LastHeld(s).Iso?
    requires OwnedRegions(s.heap, LastHeld(s).target, regions) && c in s.heap.contents && s.heap.contents[c].Some?
    ensures SoundValue(FreezeHeap(s.heap, regions), Iso(s.heap.contents[c].value), false)
  {
    var p := Contents(c);
    if Owns(s, p, regions) {
      FreezeOwners(s, regions, p);
    }
    assert At(s, p) == Iso(s.heap.contents[c].value);
  }

  lemma FreezeSoundHeap(s: Store, regions: set<Ref>)
    requires SoundPlaces(s) && Linear(s) && s.hand != [] && LastHeld(s).Iso?
    requires OwnedRegions(s.heap, LastHeld(s).target, regions)
    ensures SoundHeap(FreezeHeap(s.heap, regions))
  {
    var g := FreezeHeap(s.heap, regions);
    forall o | o in g.objects ensures SoundObject(g, o) {
      FreezeObject(s, regions, o);
    }
    forall c | c in g.contents && g.contents[c].Some? ensures SoundValue(g, Iso(g.contents[c].value), false) {
      FreezeContents(s, regions, c);
    }
    hide SoundObject, SoundMessage, Linear;
  }

  lemma FrozenPlaces(s: Store, regions: set<Ref>)
    requires SoundPlaces(s) && Linear(s) && s.hand != [] && LastHeld(s).Iso?
    requires OwnedRegions(s.heap, LastHeld(s).target, regions)
    ensures SoundPlaces(FrozenWith(s, regions))
  {
    var g, k := FreezeHeap(s.heap, regions), |s.hand| - 1;
    FreezeSoundHeap(s, regions);
    forall p: Place ensures p.Register? || p.Argument? || (p.Held? && p.index < k) ==> !Owns(s, p, regions) {
      if Owns(s, p, regions) {
        FreezeOwners(s, regions, p);
      }
    }
    ValuesKeptExcept(s, g, regions, k);
    var t := FrozenWith(s, regions);
    forall r | r in s.doomed ensures SoundValue(g, Iso(r), false) {
      assert At(s, Doomed(r)) == Iso(r);
      if r in regions {
        FreezeOwners(s, regions, Doomed(r));
      }
    }
    assert t.hand == s.hand[..k] + [Imm(LastHeld(s).target)];
    assert SoundValue(g, Imm(LastHeld(s).target), false);
    hide SoundHeap, SoundMessage, Linear, OwnedRegions;
  }

  /** Freezing keeps regions owned once, and an immutable value stands for a frozen object. */
  lemma FrozenSound(s: Store, regions: set<Ref>)
    requires Sound(s) && s.hand != [] && LastHeld(s).Iso? && OwnedRegions(s.heap, LastHeld(s).target, regions)
    ensures Sound(FrozenWith(s, regions))
  {
    FrozenPlaces(s, regions);
    FrozenLinear(s, regions);
    FrozenCounted(s, regions);
    hide SoundPlaces, Linear, Counted;
  }

  lemma FrozenLinear(s: Store, regions: set<Ref>)
    requires Linear(s) && s.hand != [] && LastHeld(s).Iso?
    ensures Linear(FrozenWith(s, regions))
  {
    LinearKept(s, FrozenWith(s, regions));
  }

  lemma FrozenCounted(s: Store, regions: set<Ref>)
    requires Counted(s) && s.hand != [] && LastHeld(s).Iso?
    ensures Counted(FrozenWith(s, regions))
  {
    var t := FrozenWith(s, regions);
    forall c ensures Owners(t, c) == Owners(s, c) {
      assert RememberedBy(t.heap, c) == RememberedBy(s.heap, c);
    }
    hide Owners;
  }

  // ----- releasing a region -----

  /** The region in hand goes on the list. */
  function Condemned(s: Store): Store
    requires s.hand != [] && LastHeld(s).Iso?
  {
    Front(s).(doomed := s.doomed + {LastHeld(s).target})
  }

  lemma CondemnedSound(s: Store)
    requires Sound(s) && s.hand != [] && LastHeld(s).Iso?
    ensures Sound(Condemned(s))
  {
    assert SoundValue(s.heap, LastHeld(s), false);
    FrontPlaces(s);
    LinearSwapped(s, Condemned(s), Held(|s.hand| - 1), Doomed(LastHeld(s).target));
    forall c ensures Owners(Condemned(s), c) == Owners(s, c) {
      FrontOwners(s, c);
    }
    hide Owners, SoundHeap, SoundMessage, Linear;
  }

  /** The regions that are owned from inside a region. */
  function Inner(h: Heap, q: Ref): set<Ref> {
    set o, i | o in h.objects && h.objects[o].region == q && 0 <= i < |h.objects[o].fields| &&
      h.objects[o].fields[i].Iso? ::
      h.objects[o].fields[i].target
  }

  lemma InnerField(h: Heap, q: Ref, r: Ref) returns (o: Ref, i: nat)
    requires r in Inner(h, q)
    ensures OwnedFrom(h, o, i, r) && h.objects[o].region == q
  {
    o, i :| o in h.objects && h.objects[o].region == q && 0 <= i < |h.objects[o].fields| &&
            h.objects[o].fields[i].Iso? && h.objects[o].fields[i].target == r;
  }

  function RemoveHeap(h: Heap, q: Ref): Heap {
    h.(objects := map o | o in h.objects && h.objects[o].region != q :: h.objects[o],
       remembered := set p | p in h.remembered && p.0 != q)
  }

  /** The objects of the region go, and with them the counts it kept; the regions inside go on the list. */
  function Removed(s: Store, q: Ref): Store
    requires forall c :: c in s.counts && (q, c) in s.heap.remembered ==> s.counts[c] > 0
  {
    s.(heap := RemoveHeap(s.heap, q),
       counts := map c | c in s.counts :: s.counts[c] - if (q, c) in s.heap.remembered then 1 else 0,
       doomed := s.doomed - {q} + Inner(s.heap, q))
  }

  lemma OnlyDoomed(s: Store, q: Ref, p: Place)
    requires Linear(s) && q in s.doomed && At(s, p) == Iso(q)
    ensures p == Doomed(q)
  {
    assert At(s, Doomed(q)) == At(s, p);
  }

  lemma RemoveKept(h: Heap, q: Ref)
    requires SoundHeap(h) && q !in h.frozen
    ensures KeptExcept(h, RemoveHeap(h, q), {q})
  {
  }

  lemma RemoveObject(s: Store, q: Ref, o: Ref)
    requires SoundHeap(s.heap) && Linear(s) && q in s.doomed && q !in s.heap.frozen &&
      o in RemoveHeap(s.heap, q).objects
    ensures SoundObject(RemoveHeap(s.heap, q), o)
  {
    var h, g := s.heap, RemoveHeap(s.heap, q);
    assert SoundObject(h, o);
    var region := h.objects[o].region;
    forall i | 0 <= i < |h.objects[o].fields| ensures SoundField(g, region, h.objects[o].fields[i]) {
      assert SoundField(h, region, h.objects[o].fields[i]);
      assert At(s, Field(o, i)) == h.objects[o].fields[i];
      if h.objects[o].fields[i] == Iso(q) {
        OnlyDoomed(s, q, Field(o, i));
      }
    }
  }

  lemma RemoveSoundHeap(s: Store, q: Ref)
    requires SoundHeap(s.heap) && Linear(s) && q in s.doomed && q !in s.heap.frozen
    ensures SoundHeap(RemoveHeap(s.heap, q))
  {
    var h, g := s.heap, RemoveHeap(s.heap, q);
    forall o | o in g.objects ensures SoundObject(g, o) {
      RemoveObject(s, q, o);
    }
    forall c | c in g.contents && g.contents[c].Some? ensures SoundValue(g, Iso(g.contents[c].value), false) {
      assert At(s, Contents(c)) == Iso(h.contents[c].value);
      if h.contents[c].value == q {
        OnlyDoomed(s, q, Contents(c));
      }
    }
    hide SoundObject;
  }

  lemma RemovedDoomed(s: Store, q: Ref, r: Ref)
    requires SoundHeap(s.heap) && Linear(s) && q in s.doomed && q !in s.heap.frozen
    requires (forall r :: r in s.doomed ==> SoundValue(s.heap, Iso(r), false)) && r in s.doomed - {q} + Inner(s.heap, q)
    ensures SoundValue(RemoveHeap(s.heap, q), Iso(r), false)
  {
    if r in Inner(s.heap, q) {
      var o, i := InnerField(s.heap, q, r);
      assert SoundObject(s.heap, o) && At(s, Field(o, i)) == Iso(r);
      assert SoundField(s.heap, q, s.heap.objects[o].fields[i]);
      if r == q {
        OnlyDoomed(s, q, Field(o, i));
      }
    }
  }

  lemma RemovedPlaces(s: Store, q: Ref)
    requires SoundPlaces(s) && Linear(s) && q in s.doomed
    requires forall c :: c in s.counts && (q, c) in s.heap.remembered ==> s.counts[c] > 0
    ensures SoundPlaces(Removed(s, q))
  {
    assert q !in s.heap.frozen;
    RemoveSoundHeap(s, q);
    RemoveKept(s.heap, q);
    forall p: Place ensures p.Register? || p.Argument? || (p.Held? && p.index < |s.hand|) ==> !Owns(s, p, {q}) {
      if At(s, p) == Iso(q) {
        OnlyDoomed(s, q, p);
      }
    }
    ValuesKeptExcept(s, RemoveHeap(s.heap, q), {q}, |s.hand|);
    assert s.hand[..|s.hand|] == s.hand;
    var t := Removed(s, q);
    forall r | r in t.doomed ensures SoundValue(t.heap, Iso(r), false) {
      RemovedDoomed(s, q, r);
    }
    hide SoundHeap, SoundMessage, Linear;
  }

  lemma RememberedCounted(s: Store, q: Ref, c: CownId)
    requires Counted(s) && c in s.counts && (q, c) in s.heap.remembered
    ensures s.counts[c] > 0
  {
    assert (q, c) in RememberedBy(s.heap, c);
  }

  lemma RemovedCounted(s: Store, q: Ref)
    requires Counted(s)
    requires forall c :: c in s.counts && (q, c) in s.heap.remembered ==> s.counts[c] > 0
    ensures Counted(Removed(s, q))
  {
    var t := Removed(s, q);
    forall c: CownId ensures Owners(s, c) == Owners(t, c) + if (q, c) in s.heap.remembered then 1 else 0 {
      if (q, c) in s.heap.remembered {
        assert RememberedBy(s.heap, c) == RememberedBy(t.heap, c) + {(q, c)};
        SizeWith(RememberedBy(t.heap, c), (q, c));
      } else {
        assert RememberedBy(s.heap, c) == RememberedBy(t.heap, c);
      }
    }
    hide Owners;
  }

  lemma InnerOwner(s: Store, q: Ref, r: Ref, p: Place)
    requires Linear(s) && r in Inner(s.heap, q) && At(s, p) == Iso(r)
    ensures p.Field? && p.owner in s.heap.objects && s.heap.objects[p.owner].region == q
  {
    var o, i := InnerField(s.heap, q, r);
    assert At(s, Field(o, i)) == At(s, p);
  }

  /** A region that goes on the list was owned by a field that is gone. */
  lemma RemovedLinear(s: Store, q: Ref)
    requires Linear(s) && forall c :: c in s.counts && (q, c) in s.heap.remembered ==> s.counts[c] > 0
    ensures Linear(Removed(s, q))
  {
    var t := Removed(s, q);
    forall p, r | At(t, p) == Iso(r) && p != Doomed(r) ensures At(s, p) == Iso(r) && r !in t.doomed {
      assert At(s, p) == Iso(r);
      if r in Inner(s.heap, q) {
        InnerOwner(s, q, r, p);
      }
      if r in s.doomed {
        OnlyDoomed(s, r, p);
      }
    }
    forall p, p' | At(t, p).Iso? && At(t, p) == At(t, p') ensures p == p' {
      var r := At(t, p).target;
      assert At(t, p) == Iso(r) && At(t, p') == Iso(r);
      if p != Doomed(r) && p' != Doomed(r) {
        assert At(s, p) == At(s, p');
      }
    }
  }

  /** Releasing a region that only the list owns keeps every other region owned once, and all counts exact. */
  lemma RemovedSound(s: Store, q: Ref)
    requires Sound(s) && q in s.doomed
    ensures forall c :: c in s.counts && (q, c) in s.heap.remembered ==> s.counts[c] > 0
    ensures Sound(Removed(s, q))
  {
    forall c | c in s.counts && (q, c) in s.heap.remembered ensures s.counts[c] > 0 {
      RememberedCounted(s, q, c);
    }
    RemovedPlaces(s, q);
    RemovedCounted(s, q);
    RemovedLinear(s, q);
    hide SoundPlaces, Linear, Counted;
  }

  // ----- messages -----

  function WithMessage(s: Store, m: nat, message: Message): Store
    requires m < |s.queue|
  {
    s.(queue := s.queue[m := message])
  }

  lemma {:induction false} QueueOwnersAt(queue: seq<Message>, m: nat, message: Message, c: CownId)
    requires m < |queue|
    ensures QueueOwners(queue[m := message], c) + MessageOwners(queue[m], c) == QueueOwners(queue, c) +
      MessageOwners(message, c)
    decreases |queue|
  {
    var last := |queue| - 1;
    var changed := queue[m := message];
    if m == last {
      assert changed[..last] == queue[..last];
    } else {
      assert changed[..last] == queue[..last][m := message];
      QueueOwnersAt(queue[..last], m, message, c);
    }
  }

  function NewMessage(s: Store, cownCount: nat): Store {
    s.(queue := s.queue + [Message([Uninit], [], cownCount)])
  }

  lemma NewMessageSound(s: Store, cownCount: nat)
    requires Sound(s)
    ensures Sound(NewMessage(s, cownCount))
  {
    var t := NewMessage(s, cownCount);
    LinearKept(s, t);
    var message := Message([Uninit], [], cownCount);
    assert SoundMessage(s.heap, message);
    forall c ensures Owners(t, c) == Owners(s, c) {
      assert t.queue[..|s.queue|] == s.queue;
      assert MessageOwners(message, c) == 0;
    }
    hide Owners, SoundMessage, SoundHeap, Linear;
  }

  /** The count in hand goes to the message. */
  function CownGiven(s: Store, m: nat): Store
    requires m < |s.queue| && s.hand != [] && LastHeld(s).Cown?
  {
    var message := s.queue[m];
    WithMessage(Front(s), m, Message(message.args, message.cowns + [LastHeld(s).cown], message.cownCount))
  }

  lemma CownGivenPlaces(s: Store, m: nat)
    requires SoundPlaces(s) && Linear(s) && m < |s.queue| && s.hand != [] && LastHeld(s).Cown?
    ensures SoundPlaces(CownGiven(s, m)) && Linear(CownGiven(s, m))
  {
    var t := CownGiven(s, m);
    assert SoundValue(s.heap, LastHeld(s), false);
    assert SoundMessage(s.heap, s.queue[m]);
    forall i | 0 <= i < |t.queue[m].args| ensures SoundArgument(s.heap, t.queue[m], i) {
      assert SoundArgument(s.heap, s.queue[m], i);
    }
    FrontPlaces(s);
    LinearKept(s, t);
    hide SoundHeap, Linear;
  }

  lemma CownGivenCounted(s: Store, m: nat)
    requires Counted(s) && m < |s.queue| && s.hand != [] && LastHeld(s).Cown?
    ensures Counted(CownGiven(s, m))
  {
    var t := CownGiven(s, m);
    forall c ensures Owners(t, c) == Owners(s, c) {
      FrontOwners(s, c);
      QueueOwnersAt(s.queue, m, t.queue[m], c);
    }
    hide Owners;
  }

  lemma CownGivenSound(s: Store, m: nat)
    requires Sound(s) && m < |s.queue| && s.hand != [] && LastHeld(s).Cown?
    ensures Sound(CownGiven(s, m))
  {
    CownGivenPlaces(s, m);
    CownGivenCounted(s, m);
    hide SoundPlaces, Linear, Counted;
  }

  /** The message refers to a cown that it holds, without a count of its own. */
  function ReferenceGiven(s: Store, m: nat): Store
    requires m < |s.queue| && 1 <= |s.queue[m].args| <= |s.queue[m].cowns|
  {
    var message := s.queue[m];
    var i := |message.args|;
    WithMessage(s, m, Message(message.args + [Unowned(message.cowns[i - 1])], message.cowns, message.cownCount))
  }

  lemma ReferenceGivenPlaces(s: Store, m: nat)
    requires SoundPlaces(s) && Linear(s) && m < |s.queue|
    requires 1 <= |s.queue[m].args| <= |s.queue[m].cowns| && |s.queue[m].args| <= s.queue[m].cownCount
    ensures SoundPlaces(ReferenceGiven(s, m)) && Linear(ReferenceGiven(s, m))
  {
    var t := ReferenceGiven(s, m);
    assert SoundMessage(s.heap, s.queue[m]);
    forall i | 0 <= i < |t.queue[m].args| ensures SoundArgument(s.heap, t.queue[m], i) {
      if i < |s.queue[m].args| {
        assert SoundArgument(s.heap, s.queue[m], i);
      }
    }
    LinearKept(s, t);
    hide SoundHeap, Linear;
  }

  lemma ReferenceGivenCounted(s: Store, m: nat)
    requires Counted(s) && m < |s.queue| && 1 <= |s.queue[m].args| <= |s.queue[m].cowns|
    ensures Counted(ReferenceGiven(s, m))
  {
    var t := ReferenceGiven(s, m);
    forall c ensures Owners(t, c) == Owners(s, c) {
      QueueOwnersAt(s.queue, m, t.queue[m], c);
    }
    hide Owners;
  }

  lemma ReferenceGivenSound(s: Store, m: nat)
    requires Sound(s) && m < |s.queue|
    requires 1 <= |s.queue[m].args| <= |s.queue[m].cowns| && |s.queue[m].args| <= s.queue[m].cownCount
    ensures Sound(ReferenceGiven(s, m))
  {
    ReferenceGivenPlaces(s, m);
    ReferenceGivenCounted(s, m);
    hide SoundPlaces, Linear, Counted;
  }

  /** The value in hand becomes an argument. */
  function ArgumentGiven(s: Store, m: nat): Store
    requires m < |s.queue| && s.hand != []
  {
    var message := s.queue[m];
    WithMessage(Front(s), m, Message(message.args + [LastHeld(s)], message.cowns, message.cownCount))
  }

  lemma ArgumentGivenPlaces(s: Store, m: nat)
    requires SoundPlaces(s) && m < |s.queue| && s.hand != [] && |s.queue[m].args| > s.queue[m].cownCount
    ensures SoundPlaces(ArgumentGiven(s, m))
  {
    var t := ArgumentGiven(s, m);
    assert SoundMessage(s.heap, s.queue[m]);
    assert SoundValue(s.heap, LastHeld(s), false);
    forall i | 0 <= i < |t.queue[m].args| ensures SoundArgument(s.heap, t.queue[m], i) {
      if i < |s.queue[m].args| {
        assert SoundArgument(s.heap, s.queue[m], i);
      }
    }
    hide SoundHeap;
  }

  lemma ArgumentGivenLinear(s: Store, m: nat)
    requires Linear(s) && m < |s.queue| && s.hand != []
    ensures Linear(ArgumentGiven(s, m))
  {
    LinearSwapped(s, ArgumentGiven(s, m), Held(|s.hand| - 1), Argument(m, |s.queue[m].args|));
  }

  lemma ArgumentGivenCounted(s: Store, m: nat)
    requires Counted(s) && m < |s.queue| && s.hand != []
    ensures Counted(ArgumentGiven(s, m))
  {
    var t := ArgumentGiven(s, m);
    forall c ensures Owners(t, c) == Owners(s, c) {
      FrontOwners(s, c);
      QueueOwnersAt(s.queue, m, t.queue[m], c);
    }
    hide Owners;
  }

  lemma ArgumentGivenSound(s: Store, m: nat)
    requires Sound(s) && m < |s.queue| && s.hand != [] && |s.queue[m].args| > s.queue[m].cownCount
    ensures Sound(ArgumentGiven(s, m))
  {
    ArgumentGivenPlaces(s, m);
    ArgumentGivenLinear(s, m);
    ArgumentGivenCounted(s, m);
    hide SoundPlaces, Linear, Counted;
  }

  /** The argument is emptied into the hand. */
  function ArgumentTaken(s: Store, m: nat, i: nat): Store
    requires m < |s.queue| && i < |s.queue[m].args|
  {
    var message := s.queue[m];
    WithMessage(s, m, Message(message.args[i := Uninit], message.cowns, message.cownCount)).(hand := s.hand +
      [message.args[i]])
  }

  lemma ArgumentTakenPlaces(s: Store, m: nat, i: nat)
    requires SoundPlaces(s) && m < |s.queue| && i < |s.queue[m].args| && !(1 <= i <= s.queue[m].cownCount)
    ensures SoundPlaces(ArgumentTaken(s, m, i))
  {
    var t := ArgumentTaken(s, m, i);
    assert SoundMessage(s.heap, s.queue[m]) && SoundArgument(s.heap, s.queue[m], i);
    forall j | 0 <= j < |t.queue[m].args| ensures SoundArgument(s.heap, t.queue[m], j) {
      assert SoundArgument(s.heap, s.queue[m], j);
    }
    hide SoundHeap;
  }

  lemma ArgumentTakenLinear(s: Store, m: nat, i: nat)
    requires Linear(s) && m < |s.queue| && i < |s.queue[m].args|
    ensures Linear(ArgumentTaken(s, m, i))
  {
    LinearSwapped(s, ArgumentTaken(s, m, i), Held(|s.hand|), Argument(m, i));
  }

  lemma ArgumentTakenCounted(s: Store, m: nat, i: nat)
    requires Counted(s) && m < |s.queue| && i < |s.queue[m].args|
    ensures Counted(ArgumentTaken(s, m, i))
  {
    var t := ArgumentTaken(s, m, i);
    forall c ensures Owners(t, c) == Owners(s, c) {
      QueueOwnersAt(s.queue, m, t.queue[m], c);
    }
    hide Owners;
  }

  lemma ArgumentTakenSound(s: Store, m: nat, i: nat)
    requires Sound(s) && m < |s.queue| && i < |s.queue[m].args| && !(1 <= i <= s.queue[m].cownCount)
    ensures Sound(ArgumentTaken(s, m, i))
  {
    ArgumentTakenPlaces(s, m, i);
    ArgumentTakenLinear(s, m, i);
    ArgumentTakenCounted(s, m, i);
    hide SoundPlaces, Linear, Counted;
  }

  predicate OwnsNothing(args: seq<Value>) {
    forall i :: 0 <= i < |args| ==> args[i].Uninit? || args[i].Unowned?
  }

  /** A message whose arguments own nothing any more is left with its cowns. */
  function ArgumentsGone(s: Store, m: nat): Store
    requires m < |s.queue|
  {
    WithMessage(s, m, Message([], s.queue[m].cowns, 0))
  }

  lemma ArgumentsGonePlaces(s: Store, m: nat)
    requires SoundPlaces(s) && Linear(s) && m < |s.queue|
    ensures SoundPlaces(ArgumentsGone(s, m)) && Linear(ArgumentsGone(s, m))
  {
    assert SoundMessage(s.heap, s.queue[m]);
    LinearKept(s, ArgumentsGone(s, m));
  }

  lemma ArgumentsGoneCounted(s: Store, m: nat)
    requires Counted(s) && m < |s.queue| && OwnsNothing(s.queue[m].args)
    ensures Counted(ArgumentsGone(s, m))
  {
    var t := ArgumentsGone(s, m);
    forall c ensures Owners(t, c) == Owners(s, c) {
      QueueOwnersAt(s.queue, m, t.queue[m], c);
      assert Cown(c) !in s.queue[m].args;
    }
    hide Owners;
  }

  lemma ArgumentsGoneSound(s: Store, m: nat)
    requires Sound(s) && m < |s.queue| && OwnsNothing(s.queue[m].args)
    ensures Sound(ArgumentsGone(s, m))
  {
    ArgumentsGonePlaces(s, m);
    ArgumentsGoneCounted(s, m);
    hide SoundPlaces, Linear, Counted;
  }

  /** A cown of the message comes to hand with its count. */
  function CownTaken(s: Store, m: nat): Store
    requires m < |s.queue| && s.queue[m].cowns != []
  {
    var cowns := s.queue[m].cowns;
    WithMessage(s, m, Message([], cowns[..|cowns| - 1], 0)).(hand := s.hand + [Cown(cowns[|cowns| - 1])])
  }

  lemma CownTakenSound(s: Store, m: nat)
    requires Sound(s) && m < |s.queue| && s.queue[m].cowns != [] && s.queue[m].args == []
    ensures Sound(CownTaken(s, m))
  {
    CownTakenPlaces(s, m);
    CownTakenCounted(s, m);
    hide SoundPlaces, Counted, Linear;
  }

  lemma CownTakenPlaces(s: Store, m: nat)
    requires SoundPlaces(s) && Linear(s) && m < |s.queue| && s.queue[m].cowns != [] && s.queue[m].args == []
    ensures SoundPlaces(CownTaken(s, m)) && Linear(CownTaken(s, m))
  {
    assert SoundMessage(s.heap, s.queue[m]);
    LinearKept(s, CownTaken(s, m));
  }

  lemma CownTakenCounted(s: Store, m: nat)
    requires Counted(s) && m < |s.queue| && s.queue[m].cowns != [] && s.queue[m].args == []
    ensures Counted(CownTaken(s, m))
  {
    var t := CownTaken(s, m);
    var cowns := s.queue[m].cowns;
    assert cowns == cowns[..|cowns| - 1] + [cowns[|cowns| - 1]];
    forall c ensures Owners(t, c) == Owners(s, c) {
      QueueOwnersAt(s.queue, m, t.queue[m], c);
    }
    hide Owners;
  }

  // ----- what soundness means -----

  lemma {:induction false} QueueOwnersPositive(queue: seq<Message>, m: nat, c: CownId)
    requires m < |queue| && MessageOwners(queue[m], c) > 0
    ensures QueueOwners(queue, c) > 0
    decreases |queue|
  {
    if m < |queue| - 1 {
      QueueOwnersPositive(queue[..|queue| - 1], m, c);
    }
  }

  /** A cown that any place refers to with a count has not been given up, fields included. */
  lemma CownAlive(s: Store, p: Place, c: CownId)
    requires Sound(s) && At(s, p) == Cown(c)
    ensures c in s.counts && s.counts[c] > 0
  {
    match p {
      case Register(i) => assert SoundValue(s.heap, s.stack[i], false);
      case Held(i) => assert SoundValue(s.heap, s.hand[i], false);
      case Argument(m, i) =>
        assert SoundMessage(s.heap, s.queue[m]) && SoundArgument(s.heap, s.queue[m], i);
        QueueOwnersPositive(s.queue, m, c);
      case Field(o, i) =>
        assert SoundObject(s.heap, o) && SoundField(s.heap, s.heap.objects[o].region, s.heap.objects[o].fields[i]);
        assert (s.heap.objects[o].region, c) in RememberedBy(s.heap, c);
      case _ =>
    }
  }

  /** A cown that a message has acquired has not been given up either, although the argument has no count. */
  lemma AcquiredAlive(s: Store, m: nat, i: nat)
    requires Sound(s) && m < |s.queue| && 1 <= i <= s.queue[m].cownCount && i < |s.queue[m].args|
    ensures var v := s.queue[m].args[i]; v.Unowned? && v.cown in s.counts && s.counts[v.cown] > 0
  {
    var message := s.queue[m];
    assert SoundMessage(s.heap, message) && SoundArgument(s.heap, message, i);
    var c := message.cowns[i - 1];
    assert multiset(message.cowns)[c] > 0;
    QueueOwnersPositive(s.queue, m, c);
  }

  /**
   A place that owns a region is the only one, its region exists, and it is mutable unless a frozen
   object owns it.
   */
  lemma OwnerIs(s: Store, p: Place, r: Ref)
    requires Sound(s) && At(s, p) == Iso(r)
    ensures Entry(s.heap, r) && (forall q :: At(s, q) == Iso(r) ==> q == p)
    ensures r in s.heap.frozen <==> p.Field? && Frozen(s.heap, p.owner)
  {
    OwnedLive(s, p);
    match p
    case Register(_) =>
    case Held(_) =>
    case Argument(m, i) => assert SoundMessage(s.heap, s.queue[m]) && SoundArgument(s.heap, s.queue[m], i);
    case Field(o, i) =>
      assert SoundObject(s.heap, o) && SoundField(s.heap, s.heap.objects[o].region, s.heap.objects[o].fields[i]);
    case Contents(_) =>
    case Doomed(_) =>
  }
}
