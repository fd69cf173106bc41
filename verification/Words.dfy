// 64-bit words, the C mask expressions on them, and the kernel's view of physical memory.
//
// Words are natural numbers. `&` and `|` are defined bit by bit, so every mask expression of paging.c
// is written here as it stands there and then related to plain arithmetic.
module Words {

  type Word = nat

  const TWO_64: nat := 0x1_0000_0000_0000_0000
  const KERNEL_BASE: nat := 0xFFFF_8000_0000_0000
  const PAGE_BYTES: nat := 0x1000

  // Physical memory lies below 2^39 bytes: 2^27 frames of 4KiB.
  const MAX_FRAMES: nat := 0x800_0000

  // PHYS_TO_VIRT and VIRT_TO_PHYS wrap like the uint64_t arithmetic they are.
  function PhysToVirt(addr: nat): Word {
    (addr + KERNEL_BASE) % TWO_64
  }

  function VirtToPhys(addr: nat): Word {
    (addr - KERNEL_BASE) % TWO_64
  }

  // The kernel pointer to the first byte of a frame.
  function Ptr(frame: nat): (p: Word)
    ensures frame <= MAX_FRAMES ==> FrameOf(p) == frame && p != 0
  {
    KERNEL_BASE + frame * PAGE_BYTES
  }

  lemma PtrIsVirtual(frame: nat)
    requires frame <= MAX_FRAMES
    ensures Ptr(frame) == PhysToVirt(frame * PAGE_BYTES) && Ptr(frame) < TWO_64
  {
  }

  // The frame a kernel pointer points into.
  function FrameOf(p: Word): nat {
    VirtToPhys(p) / PAGE_BYTES
  }

  // The frame of the 2MiB chunk a frame lies in (MASK_2MIB on frame numbers).
  function ChunkOf(frame: nat): (c: nat)
    ensures c % 512 == 0 && c <= frame < c + 512
  {
    frame - frame % 512
  }

  lemma ChunkOfUnique(c: nat, frame: nat)
    requires c % 512 == 0 && c <= frame < c + 512
    ensures ChunkOf(frame) == c
  {
  }

  // ---------------------------------------------------------------------------------------------
  // Bitwise operators

  function And(a: nat, b: nat): nat {
    if a == 0 || b == 0 then 0 else 2 * And(a / 2, b / 2) + (if a % 2 == 1 && b % 2 == 1 then 1 else 0)
  }

  function Or(a: nat, b: nat): nat
    decreases a + b
  {
    if a == 0 then b else if b == 0 then a
    else 2 * Or(a / 2, b / 2) + (if a % 2 == 1 || b % 2 == 1 then 1 else 0)
  }

  // a >> k, and the low k bits of a
  function Shr(a: nat, k: nat): nat {
    if k == 0 then a else Shr(a / 2, k - 1)
  }

  function Low(a: nat, k: nat): nat {
    if k == 0 then 0 else 2 * Low(a / 2, k - 1) + a % 2
  }

  lemma AndBits(a: nat, b: nat)
    ensures And(a, b) / 2 == And(a / 2, b / 2)
    ensures And(a, b) % 2 == if a % 2 == 1 && b % 2 == 1 then 1 else 0
  {
  }

  lemma OrBits(a: nat, b: nat)
    ensures Or(a, b) / 2 == Or(a / 2, b / 2)
    ensures Or(a, b) % 2 == if a % 2 == 1 || b % 2 == 1 then 1 else 0
  {
  }

  // `&` and `|` work on the low k bits and on the rest separately.
  lemma {:induction false} AndShr(a: nat, b: nat, k: nat)
    ensures Shr(And(a, b), k) == And(Shr(a, k), Shr(b, k))
  {
    if k > 0 {
      AndShr(a / 2, b / 2, k - 1);
      AndBits(a, b);
    }
  }

  lemma LowParts(a: nat, k: nat)
    requires k > 0
    ensures Low(a, k) / 2 == Low(a / 2, k - 1) && Low(a, k) % 2 == a % 2
    ensures Low(a, k) == 2 * Low(a / 2, k - 1) + a % 2
  {
  }

  lemma {:induction false} AndLow(a: nat, b: nat, k: nat)
    ensures Low(And(a, b), k) == And(Low(a, k), Low(b, k))
  {
    if k > 0 {
      AndLow(a / 2, b / 2, k - 1);
      LowParts(a, k); LowParts(b, k); LowParts(And(a, b), k);
      AndBits(a, b);
      AndBits(Low(a, k), Low(b, k));
      hide And, Low;
    }
  }

  lemma {:induction false} OrShr(a: nat, b: nat, k: nat)
    ensures Shr(Or(a, b), k) == Or(Shr(a, k), Shr(b, k))
  {
    if k > 0 {
      OrShr(a / 2, b / 2, k - 1);
      OrBits(a, b);
    }
  }

  lemma {:induction false} OrLow(a: nat, b: nat, k: nat)
    ensures Low(Or(a, b), k) == Or(Low(a, k), Low(b, k))
  {
    if k > 0 {
      OrLow(a / 2, b / 2, k - 1);
      LowParts(a, k); LowParts(b, k); LowParts(Or(a, b), k);
      OrBits(a, b);
      OrBits(Low(a, k), Low(b, k));
      hide Or, Low;
    }
  }

  lemma AndSplit(a: nat, b: nat, k: nat)
    ensures Shr(And(a, b), k) == And(Shr(a, k), Shr(b, k))
    ensures Low(And(a, b), k) == And(Low(a, k), Low(b, k))
  {
    AndShr(a, b, k);
    AndLow(a, b, k);
  }

  lemma OrSplit(a: nat, b: nat, k: nat)
    ensures Shr(Or(a, b), k) == Or(Shr(a, k), Shr(b, k))
    ensures Low(Or(a, b), k) == Or(Low(a, k), Low(b, k))
  {
    OrShr(a, b, k);
    OrLow(a, b, k);
  }

  // Bit k of a word
  predicate Bit(a: nat, k: nat) {
    Shr(a, k) % 2 == 1
  }

  lemma BitOfAnd(a: nat, b: nat, k: nat)
    ensures Bit(And(a, b), k) <==> Bit(a, k) && Bit(b, k)
  {
    AndShr(a, b, k);
    AndBits(Shr(a, k), Shr(b, k));
  }

  lemma BitOfOr(a: nat, b: nat, k: nat)
    ensures Bit(Or(a, b), k) <==> Bit(a, k) || Bit(b, k)
  {
    OrShr(a, b, k);
    OrBits(Shr(a, k), Shr(b, k));
  }

  // Masking with k ones keeps the low k bits.
  function Ones(k: nat): nat {
    if k == 0 then 0 else 2 * Ones(k - 1) + 1
  }

  lemma {:induction false} AndOnes(a: nat, k: nat)
    ensures And(a, Ones(k)) == Low(a, k)
  {
    if k > 0 {
      AndOnes(a / 2, k - 1);
      AndBits(a, Ones(k));
    }
  }

  lemma {:induction false} ShrLow(a: nat, i: nat, j: nat)
    ensures Shr(a, i + j) == Shr(Shr(a, i), j)
    ensures Low(Low(a, i + j), i) == Low(a, i) && Shr(Low(a, i + j), i) == Low(Shr(a, i), j)
  {
    if i > 0 {
      ShrLow(a / 2, i - 1, j);
      assert i - 1 + j == i + j - 1;
    }
  }

  // a << k
  function Shl(a: nat, k: nat): (b: nat)
    ensures a > 0 ==> b > 0
  {
    if k == 0 then a else 2 * Shl(a, k - 1)
  }

  lemma {:induction false} Recompose(a: nat, k: nat)
    ensures a == Shl(Shr(a, k), k) + Low(a, k) && Low(a, k) < Shl(1, k)
  {
    if k > 0 {
      Recompose(a / 2, k - 1);
    }
  }

  // Shifting is multiplying and dividing, for the amounts the masks use.
  lemma ShlValues(a: nat)
    ensures Shl(a, 1) == 2 * a && Shl(a, 5) == 0x20 * a && Shl(a, 7) == 0x80 * a && Shl(a, 12) == 0x1000 * a
    ensures Shl(a, 27) == 0x800_0000 * a && Shl(a, 51) == 0x8_0000_0000_0000 * a
    ensures Shl(a, 63) == 0x8000_0000_0000_0000 * a
  {
    Shl4(a, 1); Shl4(a, 3); Shl4(a, 4); Shl4(a, 8); Shl4(a, 12); Shl4(a, 16); Shl4(a, 20); Shl4(a, 23);
    Shl4(a, 27); Shl4(a, 31); Shl4(a, 35); Shl4(a, 39); Shl4(a, 43); Shl4(a, 47); Shl4(a, 51); Shl4(a, 55); Shl4(a, 59);
    assert Shl(a, 1) == 2 * a;
    assert Shl(a, 3) == 8 * a by { assert Shl(a, 2) == 4 * a; }
    assert Shl(a, 4) == 16 * a;
    assert Shl(a, 20) == 0x10_0000 * a;
    assert Shl(a, 23) == 0x80_0000 * a by { assert Shl(a, 21) == 0x20_0000 * a; assert Shl(a, 22) == 0x40_0000 * a; }
  }

  lemma Shl4(a: nat, k: nat)
    ensures Shl(a, k + 4) == 16 * Shl(a, k)
  {
    assert Shl(a, k + 2) == 4 * Shl(a, k);
  }

  lemma Shift12(a: nat)
    ensures Shr(a, 12) == a / 0x1000 && Low(a, 12) == a % 0x1000
  {
    hide Shr, Low, Shl;
    Recompose(a, 12); ShlValues(1); ShlValues(Shr(a, 12));
  }

  lemma Shift51(a: nat)
    ensures Shr(a, 51) == a / 0x8_0000_0000_0000 && Low(a, 51) == a % 0x8_0000_0000_0000
  {
    hide Shr, Low, Shl;
    Recompose(a, 51); ShlValues(1); ShlValues(Shr(a, 51));
  }

  lemma Shift1(a: nat)
    ensures Low(a, 1) == a % 2
  {
    hide Shr, Low, Shl;
    Recompose(a, 1); ShlValues(1); ShlValues(Shr(a, 1));
  }

  lemma Shift5(a: nat)
    ensures Shr(a, 5) == a / 0x20 && Low(a, 5) == a % 0x20
  {
    hide Shr, Low, Shl;
    Recompose(a, 5); ShlValues(1); ShlValues(Shr(a, 5));
  }

  lemma Shift7(a: nat)
    ensures Shr(a, 7) == a / 0x80
  {
    hide Shr, Low, Shl;
    Recompose(a, 7); ShlValues(1); ShlValues(Shr(a, 7));
  }

  lemma Shift27(a: nat)
    ensures Low(a, 27) == a % 0x800_0000
  {
    hide Shr, Low, Shl;
    Recompose(a, 27); ShlValues(1); ShlValues(Shr(a, 27));
  }

  lemma Shift63(a: nat)
    ensures Shr(a, 63) == a / 0x8000_0000_0000_0000 && Low(a, 63) == a % 0x8000_0000_0000_0000
  {
    hide Shr, Low, Shl;
    Recompose(a, 63); ShlValues(1); ShlValues(Shr(a, 63));
  }
}
