// Page-table entries: the mask macros of paging.c and paging.h, and what they decode.
//
// An entry is flags | frame << 12 | XD << 63. `PML4E_TO_PDPT` and its sisters keep bits 12 to 38, `ENTRY_TO_ADDR`
// keeps bits 12 to 62.
module Entries {
  import opened Words

  const PRESENT: nat := 0x1
  const WRITABLE: nat := 0x2
  const PAGE_SIZE: nat := 0x80
  const SAFE_FLAGS: nat := 0x8000_0000_0000_001E   // RW | USER | PWT | PCD | XD
  const COPY_FLAGS: nat := 0x8000_0000_0000_001F   // SAFE_FLAGS | PRESENT
  const TABLE_MASK: nat := 0x7F_FFFF_F000
  const ADDRESS_MASK: nat := 0x7FFF_FFFF_FFFF_F000
  const XD: nat := 0x8000_0000_0000_0000
  const WIDE: nat := 0x8_0000_0000_0000

  predicate Present(e: Word) {
    And(e, PRESENT) > 0
  }

  predicate Large(e: Word) {
    And(e, PAGE_SIZE) > 0
  }

  // PML4E_TO_PDPT, PDPTE_TO_PDT, PDTE_TO_PT, as a frame number
  function TableFrame(e: Word): nat {
    And(e, TABLE_MASK) / PAGE_BYTES
  }

  // ENTRY_TO_ADDR, as a frame number
  function LeafFrame(e: Word): nat {
    And(e, ADDRESS_MASK) / PAGE_BYTES
  }

  function CopyFlags(e: Word): Word {
    And(e, COPY_FLAGS)
  }

  function SafeFlags(flags: Word): Word {
    And(flags, SAFE_FLAGS)
  }

  // What the macros extract
  lemma Fields(e: Word)
    ensures Present(e) <==> e % 2 == 1
    ensures Large(e) <==> e / 0x80 % 2 == 1
    ensures TableFrame(e) == e / 0x1000 % MAX_FRAMES
    ensures LeafFrame(e) == e / 0x1000 % WIDE
    ensures CopyFlags(e) == e % 0x20 + e / XD % 2 * XD
    ensures SafeFlags(e) == e % 0x20 - e % 2 + e / XD % 2 * XD
  {
    hide And;
    MaskValues(e);
  }

  // The mask expressions, as arithmetic
  lemma MaskValues(e: Word)
    ensures And(e, 0x1) == e % 2
    ensures And(e, 0x80) == e / 0x80 % 2 * 0x80
    ensures And(e, 0x7F_FFFF_F000) == e / 0x1000 % 0x800_0000 * 0x1000
    ensures And(e, 0x7FFF_FFFF_FFFF_F000) == e / 0x1000 % 0x8_0000_0000_0000 * 0x1000
    ensures And(e, 0x8000_0000_0000_001F) == e % 0x20 + e / 0x8000_0000_0000_0000 % 2 * 0x8000_0000_0000_0000
    ensures And(e, 0x8000_0000_0000_001E) == e % 0x20 - e % 2 + e / 0x8000_0000_0000_0000 % 2 * 0x8000_0000_0000_0000
  {
    hide And, Shr, Low, Shl;
    LowMask(e);
    HighMask(e, 1, 7);
    HighMask(e, 27, 12);
    HighMask(e, 51, 12);
    Shift7(e); Shift1(e / 0x80); Shift12(e); Shift27(e / 0x1000); Shift51(e / 0x1000);
    ShlValues(1); ShlValues(0x7FF_FFFF); ShlValues(0x7_FFFF_FFFF_FFFF);
    ShlValues(e / 0x80 % 2);
    ShlValues(e / 0x1000 % 0x800_0000);
    ShlValues(e / 0x1000 % 0x8_0000_0000_0000);
    FlagMask(e);
  }

  lemma LowMask(e: Word)
    ensures And(e, 1) == e % 2
  {
    AndBits(e, 1);
  }

  lemma OnesValue(k: nat)
    ensures Ones(k) == Shl(1, k) - 1
  {
  }

  lemma OnesMask(e: Word, k: nat)
    ensures And(e, Shl(1, k) - 1) == Low(e, k)
  {
    OnesValue(k);
    AndOnes(e, k);
  }

  lemma {:induction false} ShlParts(a: nat, k: nat)
    ensures Shr(Shl(a, k), k) == a && Low(Shl(a, k), k) == 0
  {
    if k > 0 { ShlParts(a, k - 1); }
  }

  // Masking with n ones above k zeros
  lemma HighMask(e: Word, n: nat, k: nat)
    ensures And(e, Shl(Shl(1, n) - 1, k)) == Shl(Low(Shr(e, k), n), k)
  {
    var m := Shl(Shl(1, n) - 1, k);
    ShlParts(Shl(1, n) - 1, k);
    AndSplit(e, m, k);
    OnesMask(Shr(e, k), n);
    Recompose(And(e, m), k);
    assert And(Low(e, k), 0) == 0;
  }

  lemma FlagMask(e: Word)
    ensures And(e, 0x8000_0000_0000_001F) == e % 0x20 + e / 0x8000_0000_0000_0000 % 2 * 0x8000_0000_0000_0000
    ensures And(e, 0x8000_0000_0000_001E) == e % 0x20 - e % 2 + e / 0x8000_0000_0000_0000 % 2 * 0x8000_0000_0000_0000
  {
    hide *;
    var x := e % 0x8000_0000_0000_0000;
    LowFlags(x);
    LowPart(e);
    SplitFlags(e, 0x1F);
    SplitFlags(e, 0x1E);
  }

  lemma LowFlags(x: nat)
    ensures And(x, 0x1F) == x % 0x20 && And(x, 0x1E) == x % 0x20 - x % 2
  {
    hide And, Shl, Shr, Low;
    OnesMask(x, 5);
    ShlValues(1);
    Shift5(x);
    AndBits(x, 0x1F);
    AndBits(x, 0x1E);
    assert And(x, 0x1F) == 2 * And(x / 2, 0xF) + x % 2;
    assert And(x, 0x1E) == 2 * And(x / 2, 0xF);
  }

  // The low bits of a word are those of its lower 63 bits.
  lemma LowPart(e: nat)
    ensures e % 0x8000_0000_0000_0000 % 0x20 == e % 0x20 && e % 0x8000_0000_0000_0000 % 2 == e % 2
  {
    var h, l := e / 0x8000_0000_0000_0000, e % 0x8000_0000_0000_0000;
    assert e == 0x20 * (0x400_0000_0000_0000 * h) + l;
    SumFlags(0x400_0000_0000_0000 * h, l);
  }

  lemma SumFlags(h: nat, l: nat)
    ensures (0x20 * h + l) % 0x20 == l % 0x20 && (0x20 * h + l) % 2 == l % 2
  {
    assert 0x20 * h + l == 0x20 * (h + l / 0x20) + l % 0x20;
    Mod20(h + l / 0x20, l % 0x20);
    assert 0x20 * h + l == 2 * (16 * h + l / 2) + l % 2;
    Mod2(16 * h + l / 2, l % 2);
  }

  lemma Mod20(q: nat, r: nat)
    requires r < 0x20
    ensures (0x20 * q + r) % 0x20 == r
  {
  }

  lemma Mod2(q: nat, r: nat)
    requires r < 2
    ensures (2 * q + r) % 2 == r
  {
  }

  lemma SplitFlags(e: Word, m: nat)
    requires m < 0x20
    ensures And(e, 0x8000_0000_0000_0000 + m)
      == And(e % 0x8000_0000_0000_0000, m) + e / 0x8000_0000_0000_0000 % 2 * 0x8000_0000_0000_0000
  {
    hide *;
    var a := 0x8000_0000_0000_0000 + m;
    AndSplit(e, a, 63);
    Shift63(a);
    Shift63(e);
    Shift63(And(e, a));
    LowMask(e / 0x8000_0000_0000_0000);
    TopBit(m);
  }

  lemma TopBit(m: nat)
    requires m < 0x20
    ensures (0x8000_0000_0000_0000 + m) / 0x8000_0000_0000_0000 == 1 &&
      (0x8000_0000_0000_0000 + m) % 0x8000_0000_0000_0000 == m
  {
  }

  // ---------------------------------------------------------------------------------------------
  // Entries the code writes

  // flags (12 bits), frame and XD, put together
  function Entry(frame: nat, low: nat, xd: nat): Word {
    frame * PAGE_BYTES + low + xd * XD
  }

  lemma Decode(frame: nat, low: nat, xd: nat)
    requires frame < MAX_FRAMES && low < 0x1000 && xd < 2
    ensures var e := Entry(frame, low, xd);
      && (Present(e) <==> low % 2 == 1)
      && (Large(e) <==> low / 0x80 % 2 == 1)
      && TableFrame(e) == frame && LeafFrame(e) == frame
      && CopyFlags(e) == low % 0x20 + xd * XD
  {
    hide *;
    var e := Entry(frame, low, xd);
    Fields(e);
    EntryParts(frame, low, xd);
    EntryBits(e, frame, low, xd);
  }

  lemma EntryBits(e: Word, frame: nat, low: nat, xd: nat)
    requires frame < MAX_FRAMES && low < 0x1000 && xd < 2 && e % 0x1000 == low && e / 0x1000 == frame + xd * WIDE
    ensures e % 2 == low % 2 && e / 0x80 % 2 == low / 0x80 % 2 && e % 0x20 == low % 0x20
    ensures e / XD % 2 == xd && e / 0x1000 % MAX_FRAMES == frame && e / 0x1000 % WIDE == frame
  {
    LowBits(e);
    HighBits(e, frame, xd);
  }

  lemma LowBits(e: Word)
    ensures e % 2 == e % 0x1000 % 2 && e % 0x20 == e % 0x1000 % 0x20
    ensures e / 0x80 % 2 == e % 0x1000 / 0x80 % 2
  {
    SumBits(e / 0x1000, e % 0x1000);
    SumFlag(e / 0x1000, e % 0x1000);
    assert e == 0x1000 * (e / 0x1000) + e % 0x1000;
  }

  lemma SumBits(h: nat, l: nat)
    ensures (0x1000 * h + l) % 2 == l % 2 && (0x1000 * h + l) % 0x20 == l % 0x20
  {
    assert 0x1000 * h + l == 0x20 * (0x80 * h) + l;
    SumFlags(0x80 * h, l);
  }

  lemma SumFlag(h: nat, l: nat)
    ensures (0x1000 * h + l) / 0x80 % 2 == l / 0x80 % 2
  {
    assert (0x1000 * h + l) / 0x80 == 0x20 * h + l / 0x80;
  }

  lemma HighBits(e: Word, frame: nat, xd: nat)
    requires frame < MAX_FRAMES && xd < 2 && e / 0x1000 == frame + xd * WIDE
    ensures e / XD % 2 == xd && e / 0x1000 % MAX_FRAMES == frame && e / 0x1000 % WIDE == frame
  {
    assert e == 0x1000 * (frame + xd * WIDE) + e % 0x1000;
    assert e == xd * XD + (0x1000 * frame + e % 0x1000);
    assert e / XD == xd;
  }

  lemma OrHigh(frame: nat, xd: nat, xd': nat)
    requires frame < MAX_FRAMES && xd < 2 && xd' < 2
    ensures Or(frame + xd * WIDE, xd' * WIDE) == frame + (if xd == 1 || xd' == 1 then WIDE else 0)
  {
    hide Or, Shr, Low, Shl;
    var h, h' := frame + xd * WIDE, xd' * WIDE;
    OrZero(frame);
    OrBit(xd, xd');
    OrSplit(h, h', 51);
    WideHalves(frame, xd);
    WideHalves(0, xd');
    WideMake(Or(h, h'), frame, if xd == 1 || xd' == 1 then 1 else 0);
  }

  lemma OrBit(x: nat, y: nat)
    requires x < 2 && y < 2
    ensures Or(x, y) == if x == 1 || y == 1 then 1 else 0
  {
  }

  lemma WideHalves(frame: nat, xd: nat)
    requires frame < MAX_FRAMES
    ensures Shr(frame + xd * WIDE, 51) == xd && Low(frame + xd * WIDE, 51) == frame
  {
    hide Shr, Low;
    Shift51(frame + xd * WIDE);
  }

  lemma WideMake(e: nat, frame: nat, xd: nat)
    requires Shr(e, 51) == xd && Low(e, 51) == frame
    ensures e == frame + xd * WIDE
  {
    hide Shr, Low;
    Shift51(e);
  }

  lemma OrBelow(low: nat, low': nat)
    requires low < 0x1000 && low' < 0x1000
    ensures Or(low, low') < 0x1000
  {
    assert Or(0, 0) == 0;
    hide Or, Shr, Low;
    OrSplit(low, low', 12);
    Shift12(low); Shift12(low'); Shift12(Or(low, low'));
  }

  lemma OrEntry(frame: nat, low: nat, xd: nat, low': nat, xd': nat)
    requires frame < MAX_FRAMES && low < 0x1000 && low' < 0x1000 && xd < 2 && xd' < 2
    ensures Or(low, low') < 0x1000
    ensures Or(Entry(frame, low, xd), Entry(0, low', xd')) ==
      Entry(frame, Or(low, low'), if xd == 1 || xd' == 1 then 1 else 0)
  {
    hide Or, Shr, Low, Entry;
    var a, b := Entry(frame, low, xd), Entry(0, low', xd');
    OrSplit(a, b, 12);
    EntryHalves(frame, low, xd);
    EntryHalves(0, low', xd');
    OrHigh(frame, xd, xd');
    OrBelow(low, low');
    HalvesMake(Or(a, b), frame, Or(low, low'), if xd == 1 || xd' == 1 then 1 else 0);
  }

  lemma EntryHalves(frame: nat, low: nat, xd: nat)
    requires low < 0x1000
    ensures Shr(Entry(frame, low, xd), 12) == frame + xd * WIDE && Low(Entry(frame, low, xd), 12) == low
  {
    hide Shr, Low, Entry;
    EntryParts(frame, low, xd);
    Shift12(Entry(frame, low, xd));
  }

  lemma HalvesMake(e: Word, frame: nat, low: nat, xd: nat)
    requires Shr(e, 12) == frame + xd * WIDE && Low(e, 12) == low
    ensures e == Entry(frame, low, xd)
  {
    hide Shr, Low, Entry;
    Shift12(e);
    EntryIs(e, frame, low, xd);
  }

  lemma EntryParts(frame: nat, low: nat, xd: nat)
    requires low < 0x1000
    ensures Entry(frame, low, xd) % 0x1000 == low && Entry(frame, low, xd) / 0x1000 == frame + xd * WIDE
  {
  }

  lemma EntryIs(e: Word, frame: nat, low: nat, xd: nat)
    requires e % 0x1000 == low && e / 0x1000 == frame + xd * WIDE
    ensures e == Entry(frame, low, xd)
  {
  }

  // virt_map_phys: an entry for a new table, a 4KiB leaf, a 2MiB leaf
  function NewTableEntry(frame: nat, flags: Word): Word {
    Or(Or(Or(frame * PAGE_BYTES, WRITABLE), PRESENT), SafeFlags(flags))
  }

  function SmallEntry(frame: nat, flags: Word): Word {
    Or(Or(frame * PAGE_BYTES, PRESENT), SafeFlags(flags))
  }

  function LargeEntry(frame: nat, flags: Word): Word {
    Or(Or(Or(Or(frame * PAGE_BYTES, PAGE_SIZE), PRESENT), SafeFlags(flags)), SafeFlags(flags))
  }

  // The flags of an entry for a new table: those asked for, and it is always writable.
  function TableFlags(flags: Word): Word {
    Or(3, SafeFlags(flags))
  }

  // clone_*: the copy of a 4KiB leaf, of a 2MiB leaf, of an entry for the table at old
  function CopiedSmall(frame: nat, e: Word): Word {
    Or(frame * PAGE_BYTES, CopyFlags(e))
  }

  function CopiedLarge(frame: nat, e: Word): Word {
    Or(Or(frame * PAGE_BYTES, CopyFlags(e)), PAGE_SIZE)
  }

  function CopiedTable(frame: nat, old_: nat, e: Word): Word {
    Or(Or(frame * PAGE_BYTES, CopyFlags(old_ * PAGE_BYTES)), CopyFlags(e))
  }

  lemma OrFlags(low: nat, c: nat)
    requires low < 0x1000 && c < 0x20
    ensures Or(low, c) < 0x1000 && Or(low, c) / 0x80 == low / 0x80
    ensures Or(low, c) % 2 == 1 <==> low % 2 == 1 || c % 2 == 1
    ensures Or(low, c) % 0x20 == Or(low % 0x20, c) < 0x20
  {
    OrBelow(low, c);
    OrBits(low, c);
    OrSplit(low, c, 5);
    OrSplit(low, c, 7);
    assert Or(low / 0x80, 0) == low / 0x80;
    hide Or;
    Shift5(low); Shift5(c); Shift5(Or(low, c));
    Shift7(low); Shift7(c); Shift7(Or(low, c));
  }

  // The flag bits of an entry
  lemma CopyParts(e: Word) returns (c: nat, x: nat)
    ensures c < 0x20 && x < 2 && CopyFlags(e) == Entry(0, c, x) == c + x * XD
    ensures Present(e) <==> c % 2 == 1
  {
    Fields(e);
    c, x := e % 0x20, e / XD % 2;
  }

  lemma SafeParts(e: Word) returns (s: nat, x: nat)
    ensures s < 0x20 && s % 2 == 0 && x < 2 && SafeFlags(e) == Entry(0, s, x) == s + x * XD
  {
    Fields(e);
    s, x := e % 0x20 - e % 2, e / XD % 2;
  }

  lemma SmallFrames(frame: nat)
    ensures frame * PAGE_BYTES == Entry(frame, 0, 0)
    ensures frame < MAX_FRAMES ==> CopyFlags(frame * PAGE_BYTES) == 0
    ensures WRITABLE == Entry(0, 2, 0) && PRESENT == Entry(0, 1, 0) && PAGE_SIZE == Entry(0, 0x80, 0)
  {
    if frame < MAX_FRAMES {
      FrameFlags(frame);
    }
    hide CopyFlags;
  }

  lemma FrameFlags(frame: nat)
    requires frame < MAX_FRAMES
    ensures CopyFlags(frame * PAGE_BYTES) == 0
  {
    hide CopyFlags, And;
    Fields(frame * PAGE_BYTES);
    Mod20(128 * frame, 0);
    assert frame * PAGE_BYTES == 0x20 * (128 * frame) + 0;
    NoHighBit(frame * PAGE_BYTES);
  }

  lemma NoHighBit(a: nat)
    requires a < XD
    ensures a / XD == 0
  {
  }

  lemma OrEven(s: nat)
    requires s % 2 == 0
    ensures Or(1, s) == s + 1 && Or(0, s) == s
  {
    OrBits(1, s);
    assert Or(0, s / 2) == s / 2;
  }

  lemma OrZero(a: nat)
    ensures Or(0, a) == a && Or(a, 0) == a
  {
  }

  lemma {:induction false} OrTwice(a: nat, s: nat)
    ensures Or(Or(a, s), s) == Or(a, s)
    decreases a + s
  {
    if a != 0 || s != 0 {
      OrTwice(a / 2, s / 2);
      OrBits(a, s);
      OrBits(Or(a, s), s);
    }
  }

  lemma NewTable(frame: nat, flags: Word)
    requires frame < MAX_FRAMES
    ensures var e := NewTableEntry(frame, flags);
      Present(e) && !Large(e) && TableFrame(e) == frame && CopyFlags(e) == TableFlags(flags)
  {
    var s, x := SafeParts(flags);
    NewTableIs(frame, flags, s, x);
    TableFlagsAre(flags, s, x);
    hide *;
    OrFlags(3, s);
    Decode(frame, Or(3, s), x);
  }

  lemma NewTableIs(frame: nat, flags: Word, s: nat, x: nat)
    requires frame < MAX_FRAMES && s < 0x20 && x < 2 && SafeFlags(flags) == Entry(0, s, x)
    ensures NewTableEntry(frame, flags) == Entry(frame, Or(3, s), x)
  {
    hide Or, And, Entry, CopyFlags, SafeFlags;
    OrSmall();
    SmallFrames(frame);
    OrEntry(frame, 0, 0, 2, 0);
    OrEntry(frame, 2, 0, 1, 0);
    OrEntry(frame, 3, 0, s, x);
  }

  lemma TableFlagsAre(flags: Word, s: nat, x: nat)
    requires s < 0x20 && x < 2 && SafeFlags(flags) == Entry(0, s, x)
    ensures TableFlags(flags) == Or(3, s) + x * XD
  {
    assert Entry(0, 3, 0) == 3;
    OrEntry(0, 3, 0, s, x);
    hide Or;
  }

  lemma SmallLeaf(frame: nat, flags: Word)
    requires frame < MAX_FRAMES
    ensures var e := SmallEntry(frame, flags);
      Present(e) && LeafFrame(e) == frame && CopyFlags(e) == SafeFlags(flags) + 1
  {
    hide Or, And, Entry, CopyFlags, SafeFlags, Present, Large, LeafFrame;
    var s, x := SafeParts(flags);
    OrSmall();
    OrEven(s);
    SmallFrames(frame);
    OrEntry(frame, 0, 0, 1, 0);
    OrEntry(frame, 1, 0, s, x);
    Decode(frame, s + 1, x);
  }

  lemma OrSmall()
    ensures Or(0, 1) == 1 && Or(0, 2) == 2 && Or(2, 1) == 3 && Or(0, 0x80) == 0x80 && Or(0x80, 1) == 0x81
  {
    OrBits(0x80, 1);
    assert Or(0x40, 0) == 0x40;
  }

  lemma LargeLeaf(frame: nat, flags: Word)
    requires frame < MAX_FRAMES
    ensures var e := LargeEntry(frame, flags);
      Present(e) && Large(e) && LeafFrame(e) == frame && CopyFlags(e) == SafeFlags(flags) + 1
  {
    hide Or, And, Entry, CopyFlags, SafeFlags, Present, Large, LeafFrame;
    var s, x := SafeParts(flags);
    OrSmall();
    OrEven(s);
    OrTwice(0x81, s);
    SmallFrames(frame);
    OrEntry(frame, 0, 0, 0x80, 0);
    OrEntry(frame, 0x80, 0, 1, 0);
    OrEntry(frame, 0x81, 0, s, x);
    OrFlags(0x81, s);
    OrEntry(frame, Or(0x81, s), x, s, x);
    Decode(frame, Or(0x81, s), x);
  }

  lemma SmallCopied(frame: nat, e: Word)
    requires frame < MAX_FRAMES && Present(e)
    ensures var e' := CopiedSmall(frame, e); Present(e') && LeafFrame(e') == frame && CopyFlags(e') == CopyFlags(e)
  {
    hide Or, And, Entry, CopyFlags, SafeFlags, Present, Large, LeafFrame;
    var c, x := CopyParts(e);
    OrZero(c);
    SmallFrames(frame);
    OrEntry(frame, 0, 0, c, x);
    Decode(frame, c, x);
  }

  lemma LargeCopied(frame: nat, e: Word)
    requires frame < MAX_FRAMES && Present(e)
    ensures var e' := CopiedLarge(frame, e);
      Present(e') && Large(e') && LeafFrame(e') == frame && CopyFlags(e') == CopyFlags(e)
  {
    hide Or, And, Entry, CopyFlags, SafeFlags, Present, Large, LeafFrame;
    var c, x := CopyParts(e);
    OrZero(c);
    OrFlagsLarge(c);
    SmallFrames(frame);
    OrEntry(frame, 0, 0, c, x);
    OrEntry(frame, c, x, 0x80, 0);
    Decode(frame, c + 0x80, x);
  }

  lemma OrFlagsLarge(c: nat)
    requires c < 0x20
    ensures Or(c, 0x80) == c + 0x80
  {
    OrSplit(c, 0x80, 7);
    assert Or(0, 1) == 1 && Or(c, 0) == c;
    hide Or, Shr, Low, Shl;
    Recompose(c, 7); Recompose(0x80, 7); Recompose(Or(c, 0x80), 7);
    ShlValues(Shr(c, 7)); ShlValues(Shr(0x80, 7)); ShlValues(Shr(Or(c, 0x80), 7)); ShlValues(1);
  }

  lemma TableCopied(frame: nat, old_: nat, e: Word)
    requires frame < MAX_FRAMES && old_ < MAX_FRAMES && Present(e)
    ensures var e' := CopiedTable(frame, old_, e);
      Present(e') && !Large(e') && TableFrame(e') == frame && CopyFlags(e') == CopyFlags(e)
  {
    hide Or, And, Entry, CopyFlags, SafeFlags, Present, Large, TableFrame;
    var c, x := CopyParts(e);
    OrZero(c);
    OrZero(frame * PAGE_BYTES);
    SmallFrames(frame);
    SmallFrames(old_);
    OrEntry(frame, 0, 0, c, x);
    Decode(frame, c, x);
  }

  // ---------------------------------------------------------------------------------------------
  // What the flags of an entry allow: bit 1 writing, bit 2 use by user code; bit 63 forbids execution.

  datatype Permission = Permission(write: bool, user: bool, execute: bool)

  function Allowed(flags: Word): Permission {
    Permission(Bit(flags, 1), Bit(flags, 2), !Bit(flags, 63))
  }

  function Both(p: Permission, q: Permission): Permission {
    Permission(p.write && q.write, p.user && q.user, p.execute && q.execute)
  }

  lemma FlagBits()
    ensures Bit(SAFE_FLAGS, 1) && Bit(SAFE_FLAGS, 2) && Bit(SAFE_FLAGS, 63)
    ensures Bit(3, 1) && !Bit(3, 2) && !Bit(3, 63) && !Bit(1, 1) && !Bit(1, 2) && !Bit(1, 63)
  {
    hide Bit;
    BitsOf(SAFE_FLAGS);
    BitsOf(3);
    BitsOf(1);
  }

  lemma BitsOf(a: nat)
    ensures Bit(a, 1) <==> a / 2 % 2 == 1
    ensures Bit(a, 2) <==> a / 2 / 2 % 2 == 1
    ensures Bit(a, 63) <==> a / 0x8000_0000_0000_0000 % 2 == 1
  {
    Shift63(a);
    assert Shr(a / 2, 1) == a / 2 / 2;
    assert Shr(a, 1) == a / 2 && Shr(a, 2) == Shr(a / 2, 1);
    hide Shr;
  }

  lemma SafeBit(flags: Word, k: nat)
    requires Bit(SAFE_FLAGS, k)
    ensures Bit(SafeFlags(flags), k) <==> Bit(flags, k)
    ensures Bit(TableFlags(flags), k) <==> Bit(3, k) || Bit(flags, k)
    ensures Bit(SafeFlags(flags) + 1, k) <==> Bit(1, k) || Bit(flags, k)
  {
    hide Bit, And, Or;
    BitOfAnd(flags, SAFE_FLAGS, k);
    BitOfOr(3, SafeFlags(flags), k);
    BitOfOr(1, SafeFlags(flags), k);
    var s, x := SafeParts(flags);
    hide Bit;
    EvenFlags(s, x);
    OrEven(SafeFlags(flags));
  }

  lemma EvenFlags(s: nat, x: nat)
    requires s % 2 == 0
    ensures (s + x * XD) % 2 == 0
  {
    assert s + x * XD == 2 * (s / 2 + x * 0x4000_0000_0000_0000);
  }

  // A new table allows writing and whatever else is asked for; a page allows what is asked for.
  lemma AllowedFlags(flags: Word)
    ensures Allowed(TableFlags(flags)) == Allowed(flags).(write := true)
    ensures Allowed(SafeFlags(flags) + 1) == Allowed(flags)
  {
    FlagBits();
    hide Bit, TableFlags, SafeFlags;
    SafeBit(flags, 1);
    SafeBit(flags, 2);
    SafeBit(flags, 63);
  }
}
