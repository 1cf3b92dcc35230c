/**
 Source locations packed into 32 bits.

 A location whose file, line and column are small is a bit field; any other is an index into a
 table, marked by the top bit.  Words are numbers below 2^32, and every operation on them wraps.
 */
module SourceLocations {
  import opened Options
  import opened Bits

  const WORD_BITS: nat := 32
  const WORD_SIZE: nat := 0x1_0000_0000

  /** A field is named by its width and by the offset just above its most significant bit. */
  datatype Field = Field(high: nat, width: nat)

  const COLUMN_FIELD := Field(9, 9)
  const LINE_FIELD := Field(29, 20)
  const FILE_FIELD := Field(30, 1)
  const DISCRIMINATOR := Field(32, 1)
  const INDEX_FIELD := Field(30, 30)

  predicate InWord(f: Field) {
    f.width <= f.high <= WORD_BITS
  }

  /** What a shift leaves in a word. */
  function Truncated(a: nat): nat {
    And(a, Ones(WORD_BITS))
  }

  function ExtractBits(word: nat, f: Field): nat
    requires InWord(f)
  {
    And(Shr(word, f.high - f.width), Ones(f.width))
  }

  /** The bits that are cleared first are those above the field, not those of the field. */
  function SetBits(word: nat, f: Field, value: nat): nat
    requires InWord(f)
  {
    var mask := Ones(f.width);
    var cleared := AndNot(word, Truncated(Shl(mask, f.high)));
    Or(Truncated(Shl(And(value, mask), f.high - f.width)), cleared)
  }

  /** A file index, a line and a column. */
  datatype Triple = Triple(file: nat, line: nat, column: nat)

  predicate IsSmall(t: Triple) {
    && t.file < Shl(1, FILE_FIELD.width) && t.line < Shl(1, LINE_FIELD.width)
    && t.column < Shl(1, COLUMN_FIELD.width)
  }

  /** As the source has it: the column is the word to start from, and its field is set to zero. */
  function Pack(t: Triple): nat {
    SetBits(SetBits(SetBits(t.column, COLUMN_FIELD, 0), LINE_FIELD, t.line), FILE_FIELD, t.file)
  }

  function Unpack(word: nat): Triple {
    Triple(ExtractBits(word, FILE_FIELD), ExtractBits(word, LINE_FIELD), ExtractBits(word, COLUMN_FIELD))
  }

  predicate Packed(word: nat) {
    ExtractBits(word, DISCRIMINATOR) == 0
  }

  // ----- the bit field -----

  lemma ExtractBitsAt(word: nat, f: Field, i: nat)
    requires InWord(f)
    ensures Bit(ExtractBits(word, f), i) == (i < f.width && Bit(word, f.high - f.width + i))
  {
    var low := f.high - f.width;
    BitAnd(Shr(word, low), Ones(f.width), i);
    BitShr(word, low, i);
    BitOnes(f.width, i);
  }

  lemma TruncatedAt(a: nat, i: nat)
    ensures Bit(Truncated(a), i) == (i < WORD_BITS && Bit(a, i))
  {
    BitAnd(a, Ones(WORD_BITS), i);
    BitOnes(WORD_BITS, i);
  }

  /** The bits that `set_bits` writes, before they are merged. */
  lemma WrittenAt(f: Field, value: nat, i: nat)
    requires InWord(f)
    ensures var low := f.high - f.width;
      Bit(Truncated(Shl(And(value, Ones(f.width)), low)), i) == (low <= i < f.high && Bit(value, i - low))
  {
    var low := f.high - f.width;
    TruncatedAt(Shl(And(value, Ones(f.width)), low), i);
    BitShl(And(value, Ones(f.width)), low, i);
    if low <= i {
      BitAnd(value, Ones(f.width), i - low);
      BitOnes(f.width, i - low);
    }
  }

  lemma ClearedAt(word: nat, f: Field, i: nat)
    requires InWord(f)
    ensures Bit(AndNot(word, Truncated(Shl(Ones(f.width), f.high))), i) ==
      (Bit(word, i) && !(f.high <= i < f.high + f.width && i < WORD_BITS))
  {
    BitAndNot(word, Truncated(Shl(Ones(f.width), f.high)), i);
    TruncatedAt(Shl(Ones(f.width), f.high), i);
    BitShl(Ones(f.width), f.high, i);
    if f.high <= i {
      BitOnes(f.width, i - f.high);
    }
  }

  /**
   Every bit after `set_bits`, for every word, field and value: the field holds the bits of the old
   field or of the value, as many bits above it are cleared, and the rest is as it was.
   */
  lemma SetBitsAt(word: nat, f: Field, value: nat, i: nat)
    requires InWord(f)
    ensures var low := f.high - f.width;
      Bit(SetBits(word, f, value), i) ==
        if low <= i < f.high then Bit(word, i) || Bit(value, i - low)
        else Bit(word, i) && !(f.high <= i < f.high + f.width && i < WORD_BITS)
  {
    var written := Truncated(Shl(And(value, Ones(f.width)), f.high - f.width));
    var cleared := AndNot(word, Truncated(Shl(Ones(f.width), f.high)));
    BitOr(written, cleared, i);
    WrittenAt(f, value, i);
    ClearedAt(word, f, i);
  }

  /** Reading a field that was set gives the old field and the value together. */
  lemma SetBitsMerges(word: nat, f: Field, value: nat)
    requires InWord(f)
    ensures ExtractBits(SetBits(word, f, value), f) == Or(ExtractBits(word, f), And(value, Ones(f.width)))
  {
    var a, b := ExtractBits(SetBits(word, f, value), f), Or(ExtractBits(word, f), And(value, Ones(f.width)));
    forall i: nat ensures Bit(a, i) == Bit(b, i) {
      ExtractBitsAt(SetBits(word, f, value), f, i);
      SetBitsAt(word, f, value, f.high - f.width + i);
      BitOr(ExtractBits(word, f), And(value, Ones(f.width)), i);
      ExtractBitsAt(word, f, i);
      BitAnd(value, Ones(f.width), i);
      BitOnes(f.width, i);
    }
    SameBits(a, b);
  }

  lemma OrIsSecond(a: nat, b: nat)
    ensures Or(a, b) == b <==> AndNot(a, b) == 0
  {
    if Or(a, b) == b {
      forall i: nat ensures Bit(AndNot(a, b), i) == Bit(0, i) {
        BitAndNot(a, b, i);
        BitOr(a, b, i);
        BitZero(i);
      }
      SameBits(AndNot(a, b), 0);
    }
    if AndNot(a, b) == 0 {
      forall i: nat ensures Bit(Or(a, b), i) == Bit(b, i) {
        BitAndNot(a, b, i);
        BitOr(a, b, i);
        BitZero(i);
      }
      SameBits(Or(a, b), b);
    }
  }

  /** A value reads back as itself if and only if the field held no bit outside the value. */
  lemma SetBitsReadsBack(word: nat, f: Field, value: nat)
    requires InWord(f) && value < Shl(1, f.width)
    ensures ExtractBits(SetBits(word, f, value), f) == value <==> AndNot(ExtractBits(word, f), value) == 0
  {
    SetBitsMerges(word, f, value);
    Masked(value, f.width);
    OrIsSecond(ExtractBits(word, f), value);
  }

  /** Fields below the one that is set keep their values. */
  lemma SetBitsKeepsBelow(word: nat, f: Field, value: nat, g: Field)
    requires InWord(f) && InWord(g) && g.high <= f.high - f.width
    ensures ExtractBits(SetBits(word, f, value), g) == ExtractBits(word, g)
  {
    var a, b := ExtractBits(SetBits(word, f, value), g), ExtractBits(word, g);
    forall i: nat ensures Bit(a, i) == Bit(b, i) {
      ExtractBitsAt(SetBits(word, f, value), g, i);
      ExtractBitsAt(word, g, i);
      if i < g.width {
        SetBitsAt(word, f, value, g.high - g.width + i);
      }
    }
    SameBits(a, b);
  }

  /** A field in the bits just above is lost. */
  lemma SetBitsClearsAbove(word: nat, f: Field, value: nat, g: Field)
    requires InWord(f) && InWord(g) && f.high <= g.high - g.width && g.high <= f.high + f.width
    ensures ExtractBits(SetBits(word, f, value), g) == 0
  {
    var a := ExtractBits(SetBits(word, f, value), g);
    forall i: nat ensures Bit(a, i) == Bit(0, i) {
      ExtractBitsAt(SetBits(word, f, value), g, i);
      BitZero(i);
      if i < g.width {
        SetBitsAt(word, f, value, g.high - g.width + i);
      }
    }
    SameBits(a, 0);
  }

  /** Setting a field that is not empty mixes the two values. */
  lemma SetBitsDoesNotReplace()
    ensures ExtractBits(SetBits(SetBits(0, COLUMN_FIELD, 1), COLUMN_FIELD, 2), COLUMN_FIELD) == 3
  {
    ExtractZero(COLUMN_FIELD);
    SetBitsMerges(0, COLUMN_FIELD, 1);
    Masked(1, 9);
    Masked(2, 9);
    SetBitsMerges(SetBits(0, COLUMN_FIELD, 1), COLUMN_FIELD, 2);
    assert Or(0, 1) == 1 && Or(1, 2) == 3;
  }

  lemma ExtractZero(f: Field)
    requires InWord(f)
    ensures ExtractBits(0, f) == 0
  {
    forall i: nat ensures Bit(ExtractBits(0, f), i) == Bit(0, i) {
      ExtractBitsAt(0, f, i);
      BitZero(i);
      BitZero(f.high - f.width + i);
    }
    SameBits(ExtractBits(0, f), 0);
  }

  /** A word whose bits from the field on are not set. */
  ghost predicate ClearFrom(word: nat, low: nat) {
    forall i: nat :: low <= i ==> !Bit(word, i)
  }

  lemma SetBitsFresh(word: nat, f: Field, value: nat)
    requires InWord(f) && value < Shl(1, f.width) && ClearFrom(word, f.high - f.width)
    ensures ExtractBits(SetBits(word, f, value), f) == value && ClearFrom(SetBits(word, f, value), f.high)
  {
    var old' := ExtractBits(word, f);
    forall i: nat ensures Bit(AndNot(old', value), i) == Bit(0, i) {
      BitAndNot(old', value, i);
      ExtractBitsAt(word, f, i);
      BitZero(i);
    }
    SameBits(AndNot(old', value), 0);
    SetBitsReadsBack(word, f, value);
    forall i: nat | f.high <= i ensures !Bit(SetBits(word, f, value), i) {
      SetBitsAt(word, f, value, i);
    }
  }

  /** The bits of the word that setting the field clears are not set. */
  ghost predicate ClearAbove(word: nat, f: Field) {
    forall i: nat :: f.high <= i < f.high + f.width && i < WORD_BITS ==> !Bit(word, i)
  }

  /** Setting a field to zero changes a word exactly when the bits just above the field are not clear. */
  lemma SetZeroKeeps(word: nat, f: Field)
    requires InWord(f)
    ensures SetBits(word, f, 0) == word <==> ClearAbove(word, f)
  {
    hide SetBits, Bit;
    forall i: nat
      ensures Bit(SetBits(word, f, 0), i) == (Bit(word, i) && !(f.high <= i < f.high + f.width && i < WORD_BITS))
    {
      SetBitsAt(word, f, 0, i);
      if f.high - f.width <= i {
        BitZero(i - (f.high - f.width));
      }
    }
    if ClearAbove(word, f) {
      SameBits(SetBits(word, f, 0), word);
    } else {
      var i: nat :| f.high <= i < f.high + f.width && i < WORD_BITS && Bit(word, i);
      assert !Bit(SetBits(word, f, 0), i);
    }
  }

  /** The packed column is there because `set_bits` leaves the bits of its own field alone. */
  lemma ColumnStays(column: nat)
    requires column < Shl(1, COLUMN_FIELD.width)
    ensures SetBits(column, COLUMN_FIELD, 0) == column
    ensures ExtractBits(column, COLUMN_FIELD) == column && ClearFrom(column, COLUMN_FIELD.high)
  {
    hide Shl, SetBits, And;
    forall i: nat | COLUMN_FIELD.high <= i ensures !Bit(column, i) {
      HighBits(column, COLUMN_FIELD.width, i);
    }
    SetZeroKeeps(column, COLUMN_FIELD);
    Unshifted(column);
    Masked(column, COLUMN_FIELD.width);
  }

  /**
   Packing starts from the column, which `set_bits` does not clear, and sets the fields above it from
   low to high; so every field reads back.
   */
  lemma UnpackPack(t: Triple)
    requires IsSmall(t)
    ensures Unpack(Pack(t)) == t && Packed(Pack(t))
  {
    hide SetBits, ExtractBits, Shl;
    var one := t.column;
    ColumnStays(t.column);
    var two := SetBits(one, LINE_FIELD, t.line);
    SetBitsFresh(one, LINE_FIELD, t.line);
    SetBitsKeepsBelow(one, LINE_FIELD, t.line, COLUMN_FIELD);
    var three := SetBits(two, FILE_FIELD, t.file);
    SetBitsFresh(two, FILE_FIELD, t.file);
    SetBitsKeepsBelow(two, FILE_FIELD, t.file, COLUMN_FIELD);
    SetBitsKeepsBelow(two, FILE_FIELD, t.file, LINE_FIELD);
    ExtractClear(three, DISCRIMINATOR);
  }

  lemma ExtractClear(word: nat, f: Field)
    requires InWord(f) && ClearFrom(word, f.high - f.width)
    ensures ExtractBits(word, f) == 0
  {
    forall i: nat ensures Bit(ExtractBits(word, f), i) == Bit(0, i) {
      ExtractBitsAt(word, f, i);
      BitZero(i);
    }
    SameBits(ExtractBits(word, f), 0);
  }

  // ----- the table of oversized locations -----

  const FIRST: nat := 0x8000_0000
  const LIMIT: nat := 0x4000_0000

  /** `index` maps each triple of `entries` to the location given out for it, and `next` is the next to give out. */
  datatype Table = Table(entries: seq<Triple>, index: map<Triple, nat>, next: nat)

  const EMPTY := Table([], map[], FIRST)

  /** The word handed out for the entry at `i`. */
  function WordAt(i: nat): nat {
    (FIRST + i) % WORD_SIZE
  }

  ghost predicate TableOk(t: Table) {
    && t.next == WordAt(|t.entries|)
    && (forall i :: 0 <= i < |t.entries| ==>
          !IsSmall(t.entries[i]) && t.entries[i] in t.index && t.index[t.entries[i]] == WordAt(i))
    && (forall x :: x in t.index ==> x in t.entries)
    && (forall i, j :: 0 <= i < j < |t.entries| ==> t.entries[i] != t.entries[j])
  }

  function ExpandTriple(entries: seq<Triple>, l: nat): Option<Triple> {
    if Packed(l) then Some(Unpack(l))
    else
      var i := ExtractBits(l, INDEX_FIELD);
      if i < |entries| then Some(entries[i]) else None
  }

  /** The location that a triple has been given. */
  function LocationOf(t: Table, x: Triple): Option<nat> {
    if IsSmall(x) then Some(Pack(x))
    else if x in t.index then Some(t.index[x])
    else None
  }

  function Added(t: Table, x: Triple): Table {
    Table(t.entries + [x], t.index[x := t.next], (t.next + 1) % WORD_SIZE)
  }

  /** The table once the location of a triple has been asked for. */
  function Asked(t: Table, x: Triple): (r: Table)
    ensures LocationOf(r, x).Some?
  {
    if LocationOf(t, x).Some? then t else Added(t, x)
  }

  lemma AddedOk(t: Table, x: Triple)
    requires TableOk(t) && !IsSmall(x) && x !in t.index
    ensures TableOk(Added(t, x))
  {
    hide IsSmall, WordAt;
    var a := Added(t, x);
    NextWord(|t.entries|);
    forall i | 0 <= i < |a.entries|
      ensures !IsSmall(a.entries[i]) && a.entries[i] in a.index && a.index[a.entries[i]] == WordAt(i)
    {
      assert i < |t.entries| ==> a.entries[i] == t.entries[i] && t.entries[i] != x;
    }
    forall i, j | 0 <= i < j < |a.entries| ensures a.entries[i] != a.entries[j] {
      assert a.entries[i] == t.entries[i] && t.entries[i] in t.index;
    }
  }

  lemma NextWord(i: nat)
    ensures (WordAt(i) + 1) % WORD_SIZE == WordAt(i + 1)
  {
  }

  /** The table once the locations of all these triples have been asked for, in order. */
  function AskedAll(t: Table, xs: seq<Triple>): Table {
    if xs == [] then t else Asked(AskedAll(t, xs[..|xs| - 1]), xs[|xs| - 1])
  }

  /** Whatever has been asked for, the table is in order, only grows, and keeps the locations it gave out. */
  lemma {:induction false} AskedAllOk(t: Table, xs: seq<Triple>)
    requires TableOk(t)
    ensures var r := AskedAll(t, xs); TableOk(r) && t.entries <= r.entries
    ensures forall x :: LocationOf(t, x).Some? ==> LocationOf(AskedAll(t, xs), x) == LocationOf(t, x)
    decreases |xs|
  {
    if xs != [] {
      AskedAllOk(t, xs[..|xs| - 1]);
      AskedOk(AskedAll(t, xs[..|xs| - 1]), xs[|xs| - 1]);
      hide TableOk, LocationOf, Asked;
    }
  }

  lemma AskedOk(t: Table, x: Triple)
    requires TableOk(t)
    ensures TableOk(Asked(t, x)) && t.entries <= Asked(t, x).entries
    ensures forall y :: LocationOf(t, y).Some? ==> LocationOf(Asked(t, x), y) == LocationOf(t, y)
  {
    hide IsSmall, Pack;
    if LocationOf(t, x).None? {
      AddedOk(t, x);
    }
  }

  lemma WordAtIs(i: nat)
    ensures var w := WordAt(i);
      && (Packed(w) <==> w < FIRST)
      && (i < LIMIT ==> !Packed(w) && ExtractBits(w, INDEX_FIELD) == i)
      && (i >= LIMIT && !Packed(w) ==> ExtractBits(w, INDEX_FIELD) < i)
  {
    hide ExtractBits, Packed;
    var w := WordAt(i);
    TopBit(w);
    IndexBits(w);
  }

  lemma Powers()
    ensures Shl(1, 30) == 0x4000_0000 && Shl(1, 31) == 0x8000_0000
  {
    assert Shl(1, 8) == 0x100;
    assert Shl(1, 16) == 0x1_0000;
    assert Shl(1, 24) == 0x100_0000;
  }

  lemma IndexBits(w: nat)
    ensures ExtractBits(w, INDEX_FIELD) == w % LIMIT
  {
    hide Shl, Shr, And, Ones;
    Parts(w, 30);
    ShlTimes(Shr(w, 30), 30);
    Powers();
    Unshifted(w);
  }

  lemma TopBit(w: nat)
    requires w < WORD_SIZE
    ensures Packed(w) <==> w < FIRST
  {
    hide Shl, Shr, And, Ones;
    Parts(w, 31);
    ShlTimes(Shr(w, 31), 31);
    Powers();
    var top := Shr(w, 31);
    assert top < 2;
    OneBit(top);
  }

  lemma Unshifted(w: nat)
    ensures Shr(w, 0) == w
  {
  }

  lemma OneBit(b: nat)
    requires b < 2
    ensures And(b, Ones(1)) == b
  {
    assert Ones(1) == 1 && And(0, 0) == 0;
  }

  lemma UnpackedSmall(w: nat)
    ensures IsSmall(Unpack(w))
  {
    hide ExtractBits, Shl;
    ExtractBound(w, FILE_FIELD);
    ExtractBound(w, LINE_FIELD);
    ExtractBound(w, COLUMN_FIELD);
  }

  lemma ExtractBound(w: nat, f: Field)
    requires InWord(f)
    ensures ExtractBits(w, f) < Shl(1, f.width)
  {
    Parts(Shr(w, f.high - f.width), f.width);
  }

  /**
   Expanding the location of a triple gives the triple back exactly when the triple is small, or
   is one of the first 2^30 in the table.
   */
  lemma ExpandLocation(t: Table, x: Triple)
    requires TableOk(t) && LocationOf(t, x).Some?
    ensures ExpandTriple(t.entries, LocationOf(t, x).value) == Some(x) <==>
      IsSmall(x) || x in t.entries[..if |t.entries| <= LIMIT then |t.entries| else LIMIT]
  {
    if IsSmall(x) {
      UnpackPack(x);
    } else {
      var i :| 0 <= i < |t.entries| && t.entries[i] == x;
      WordAtIs(i);
      ExpandEntry(t, i);
      var known := t.entries[..if |t.entries| <= LIMIT then |t.entries| else LIMIT];
      if i < LIMIT {
        assert known[i] == x;
      }
    }
  }

  lemma ExpandEntry(t: Table, i: nat)
    requires TableOk(t) && i < |t.entries|
    ensures ExpandTriple(t.entries, WordAt(i)) == Some(t.entries[i]) <==> i < LIMIT
  {
    WordAtIs(i);
    if Packed(WordAt(i)) {
      UnpackedSmall(WordAt(i));
    }
    hide Packed, ExtractBits, IsSmall, Unpack;
  }

  /** Up to 2^31 entries, two locations are equal exactly when their triples are. */
  lemma EqualLocations(t: Table, x: Triple, y: Triple)
    requires TableOk(t) && |t.entries| <= FIRST && LocationOf(t, x).Some? && LocationOf(t, y).Some?
    ensures LocationOf(t, x) == LocationOf(t, y) <==> x == y
  {
    hide Pack, IsSmall, Unpack, TableOk, Packed, LocationOf;
    LocationIs(t, x);
    LocationIs(t, y);
  }

  /** Small triples have packed words, and the others the words of the table. */
  lemma EntryWord(i: nat)
    requires i < FIRST
    ensures WordAt(i) == FIRST + i && !Packed(WordAt(i))
  {
    hide Packed, ExtractBits;
    WordAtIs(i);
  }

  lemma LocationIs(t: Table, x: Triple)
    requires TableOk(t) && |t.entries| <= FIRST && LocationOf(t, x).Some?
    ensures var l := LocationOf(t, x).value;
      if IsSmall(x) then Packed(l) && Unpack(l) == x
      else FIRST <= l < FIRST + |t.entries| && t.entries[l - FIRST] == x && !Packed(l)
  {
    hide Packed, IsSmall, Pack, Unpack, WordAt;
    if IsSmall(x) {
      UnpackPack(x);
    } else {
      var i :| 0 <= i < |t.entries| && t.entries[i] == x;
      EntryWord(i);
    }
  }

  /** The next entry collides with the very first packed word. */
  lemma NextEntryCollides(t: Table)
    requires TableOk(t) && |t.entries| > FIRST
    ensures LocationOf(t, t.entries[FIRST]) == LocationOf(t, Triple(0, 0, 0)) == Some(0)
  {
    hide Pack, IsSmall;
    assert t.index[t.entries[FIRST]] == WordAt(FIRST) == 0;
    PackZero();
    OriginIsSmall();
  }

  lemma OriginIsSmall()
    ensures IsSmall(Triple(0, 0, 0))
  {
  }

  lemma PackZero()
    ensures Pack(Triple(0, 0, 0)) == 0
  {
    SetZero(COLUMN_FIELD);
    SetZero(LINE_FIELD);
    SetZero(FILE_FIELD);
    hide SetBits;
  }

  lemma SetZero(f: Field)
    requires InWord(f)
    ensures SetBits(0, f, 0) == 0
  {
    forall i: nat ensures Bit(SetBits(0, f, 0), i) == Bit(0, i) {
      SetBitsAt(0, f, 0, i);
      BitZero(i);
      if f.high - f.width <= i {
        BitZero(i - (f.high - f.width));
      }
    }
    SameBits(SetBits(0, f, 0), 0);
  }

  /** A table of `n` oversized triples, as asking for them in order makes it. */
  function Filled(n: nat): Table {
    Table(seq(n, (i: nat) => Oversized(i)), map x | x in Numbers(n) :: WordAt(x.file - 2), WordAt(n))
  }

  function Oversized(i: nat): Triple {
    Triple(i + 2, 0, 0)
  }

  function Numbers(n: nat): set<Triple> {
    set i | 0 <= i < n :: Oversized(i)
  }

  lemma FilledOk(n: nat)
    ensures TableOk(Filled(n))
  {
    var t := Filled(n);
    assert Shl(1, FILE_FIELD.width) == 2;
    forall i | 0 <= i < n ensures t.entries[i] in t.index && t.index[t.entries[i]] == WordAt(i) {
      assert Oversized(i) in Numbers(n);
    }
    forall x | x in t.index ensures x in t.entries {
      var i :| 0 <= i < n && x == Oversized(i);
      assert t.entries[i] == x;
    }
  }

  lemma FilledAt(n: nat, i: nat)
    requires i < n
    ensures var t := Filled(n); var x := Oversized(i);
      |t.entries| == n && t.entries[i] == x && !IsSmall(x) && LocationOf(t, x) == Some(WordAt(i))
  {
    assert Oversized(i) in Numbers(n);
    assert Shl(1, FILE_FIELD.width) == 2;
  }

  lemma MisreadWord()
    ensures !Packed(WordAt(LIMIT)) && ExtractBits(WordAt(LIMIT), INDEX_FIELD) == 0
  {
    hide ExtractBits, Packed;
    TopBit(WordAt(LIMIT));
    IndexBits(WordAt(LIMIT));
  }

  /** With 2^30 entries and one more, the last one made expands to the first. */
  lemma OverfullTableMisreads()
    ensures var t := Filled(LIMIT + 1); var x := Oversized(LIMIT);
      TableOk(t) && LocationOf(t, x).Some? && ExpandTriple(t.entries, LocationOf(t, x).value) == Some(Oversized(0))
  {
    hide Filled, TableOk, WordAt;
    FilledOk(LIMIT + 1);
    FilledAt(LIMIT + 1, LIMIT);
    FilledAt(LIMIT + 1, 0);
    MisreadWord();
    hide ExtractBits, Packed;
  }

  /** A location still expands to the same triple however many are asked for after it. */
  lemma ExpandKept(t: Table, xs: seq<Triple>, l: nat)
    requires TableOk(t) && ExpandTriple(t.entries, l).Some?
    ensures ExpandTriple(AskedAll(t, xs).entries, l) == ExpandTriple(t.entries, l)
  {
    AskedAllOk(t, xs);
    ExpandMore(t.entries, AskedAll(t, xs).entries, l);
  }

  /** What a call that asks for a location leaves behind: the location expands, and so do all older ones. */
  lemma AskedExpands(t: Table, x: Triple)
    requires TableOk(t)
    ensures var asked := Asked(t, x);
      |asked.entries| <= LIMIT ==> ExpandTriple(asked.entries, LocationOf(asked, x).value) == Some(x)
    ensures forall k :: ExpandTriple(t.entries, k).Some? ==>
      ExpandTriple(Asked(t, x).entries, k) == ExpandTriple(t.entries, k)
  {
    hide LocationOf, Asked, ExpandTriple, IsSmall;
    var asked := Asked(t, x);
    AskedOk(t, x);
    if |asked.entries| <= LIMIT {
      assert asked.entries[..|asked.entries|] == asked.entries;
      AskedKnown(t, x);
      ExpandLocation(asked, x);
    }
    forall k | ExpandTriple(t.entries, k).Some? ensures ExpandTriple(asked.entries, k) == ExpandTriple(t.entries, k) {
      ExpandMore(t.entries, asked.entries, k);
    }
  }

  /** The three cases of a call: a small triple, one that is in the table, and a new one. */
  lemma AskedIs(t: Table, x: Triple)
    ensures IsSmall(x) ==> Asked(t, x) == t && LocationOf(t, x) == Some(Pack(x))
    ensures !IsSmall(x) && x in t.index ==> Asked(t, x) == t && LocationOf(t, x) == Some(t.index[x])
    ensures !IsSmall(x) && x !in t.index ==>
      Asked(t, x) == Added(t, x) && LocationOf(Added(t, x), x) == Some(t.next)
  {
    hide IsSmall, Pack;
  }

  lemma AskedKnown(t: Table, x: Triple)
    requires TableOk(t)
    ensures IsSmall(x) || x in Asked(t, x).entries
  {
    hide IsSmall, Pack;
  }

  lemma ExpandMore(entries: seq<Triple>, more: seq<Triple>, l: nat)
    requires entries <= more && ExpandTriple(entries, l).Some?
    ensures ExpandTriple(more, l) == ExpandTriple(entries, l)
  {
    hide Packed, ExtractBits, Unpack;
  }

  // ----- the source manager -----

  datatype Location = Location(filename: string, line: nat, column: nat)

  class SourceManager {
    var fileIndexes: map<string, nat>
    var fileNames: seq<string>
    var largeLocationIndex: map<Triple, nat>
    var largeLocations: seq<Triple>
    var nextSourceLocation: nat

    ghost function Large(): Table
      reads this
    {
      Table(largeLocations, largeLocationIndex, nextSourceLocation)
    }

    ghost predicate Valid()
      reads this
    {
      && TableOk(Large())
      && (forall i :: 0 <= i < |fileNames| ==> fileNames[i] in fileIndexes && fileIndexes[fileNames[i]] == i)
      && (forall name :: name in fileIndexes ==>
            fileIndexes[name] < |fileNames| && fileNames[fileIndexes[name]] == name)
    }

    constructor ()
      ensures Valid() && Large() == EMPTY && fileNames == []
    {
      fileIndexes, fileNames := map[], [];
      largeLocationIndex, largeLocations, nextSourceLocation := map[], [], FIRST;
    }

    /** The caller adds a file once. */
    method AddSourceFile(name: string)
      requires Valid() && name !in fileIndexes
      modifies this`fileIndexes, this`fileNames
      ensures Valid() && fileNames == old(fileNames) + [name]
    {
      fileIndexes := fileIndexes[name := |fileNames|];
      fileNames := fileNames + [name];
    }

    /** Every location given out so far keeps its meaning, and the new one expands to its triple. */
    method MakeSourceLocation(file: nat, line: nat, column: nat) returns (l: nat)
      requires Valid()
      modifies this`largeLocationIndex, this`largeLocations, this`nextSourceLocation
      ensures Valid()
      ensures Large() == Asked(old(Large()), Triple(file, line, column))
      ensures LocationOf(Large(), Triple(file, line, column)) == Some(l)
      ensures |largeLocations| <= LIMIT ==> ExpandTriple(largeLocations, l) == Some(Triple(file, line, column))
      ensures forall k :: old(ExpandTriple(largeLocations, k)).Some? ==>
        ExpandTriple(largeLocations, k) == old(ExpandTriple(largeLocations, k))
    {
      hide ExpandTriple, Pack, TableOk, IsSmall, LocationOf, Asked;
      var x := Triple(file, line, column);
      AskedOk(Large(), x);
      AskedExpands(Large(), x);
      AskedIs(Large(), x);
      if IsSmall(x) {
        return Pack(x);
      }
      if x in largeLocationIndex {
        return largeLocationIndex[x];
      }
      l := nextSourceLocation;
      largeLocationIndex := largeLocationIndex[x := l];
      largeLocations := largeLocations + [x];
      nextSourceLocation := (nextSourceLocation + 1) % WORD_SIZE;
    }

    /** `None` is the exception of an index that is out of range. */
    method Expand(l: nat) returns (r: Option<Location>)
      requires Valid()
      ensures r == match ExpandTriple(largeLocations, l)
        case None => None
        case Some(x) => if x.file < |fileNames| then Some(Location(fileNames[x.file], x.line, x.column)) else None
    {
      var file, line, column;
      if Packed(l) {
        file, line, column := ExtractBits(l, FILE_FIELD), ExtractBits(l, LINE_FIELD), ExtractBits(l, COLUMN_FIELD);
      } else {
        var i := ExtractBits(l, INDEX_FIELD);
        if i >= |largeLocations| {
          return None;
        }
        file, line, column := largeLocations[i].file, largeLocations[i].line, largeLocations[i].column;
      }
      return if file < |fileNames| then Some(Location(fileNames[file], line, column)) else None;
    }
  }
}
