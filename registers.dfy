/**
 * The register bit-maintenance layer of the IST8308 driver: the 8-bit
 * register file, the read-modify-write that sets and clears bits, and the
 * success predicate of a register-configuration check.
 */
module Registers {

  /** A register address on the sensor's bus (an 8-bit value). */
  type Reg = r: int | 0 <= r < 256

  /** The sensor's register file: one byte per 8-bit address. */
  type RegisterFile = s: seq<bv8> | |s| == 256 witness seq(256, _ => 0 as bv8)

  /** One entry of the configuration table: bits that must be set, bits that must be clear. */
  datatype RegisterConfig = RegisterConfig(reg: Reg, setBits: bv8, clearBits: bv8)

  /** The single-bit mask of bit i. */
  function Mask(i: nat): bv8
    requires i < 8
  {
    match i
    case 0 => 0x01
    case 1 => 0x02
    case 2 => 0x04
    case 3 => 0x08
    case 4 => 0x10
    case 5 => 0x20
    case 6 => 0x40
    case _ => 0x80
  }

  /** Bit i of x is 1. */
  predicate Bit(x: bv8, i: nat)
    requires i < 8
  {
    x & Mask(i) != 0
  }

  /** The value a set-and-clear read-modify-write stores: `(orig | set) & ~clear`. */
  function SetAndClear(v: bv8, setBits: bv8, clearBits: bv8): bv8
  {
    (v | setBits) & !clearBits
  }

  /**
   * The success predicate of a register check, as written: the set-bits
   * requirement fails only when NONE of the required set bits is present,
   * the clear-bits requirement fails when ANY required clear bit is present.
   */
  predicate CheckPasses(v: bv8, e: RegisterConfig)
  {
    (e.setBits == 0 || v & e.setBits != 0) && (e.clearBits == 0 || v & e.clearBits == 0)
  }

  /** What a register check leaves in the register: unchanged if it passed, corrected otherwise. */
  function Fix(v: bv8, e: RegisterConfig): bv8
  {
    if CheckPasses(v, e) then v else SetAndClear(v, e.setBits, e.clearBits)
  }

  /** A correction of entry e makes e pass: some required set bit survives the clearing. */
  predicate Correctable(e: RegisterConfig)
  {
    e.setBits == 0 || e.setBits & !e.clearBits != 0
  }

  /** Bit-level meaning of the read-modify-write: clear wins, then set, then the original bit. */
  lemma {:induction false} SetAndClearBit(v: bv8, setBits: bv8, clearBits: bv8, i: nat)
    requires i < 8
    ensures Bit(SetAndClear(v, setBits, clearBits), i) <==>
              !Bit(clearBits, i) && (Bit(setBits, i) || Bit(v, i))
  {
    var m := Mask(i);
    assert m == 1 || m == 2 || m == 4 || m == 8 || m == 16 || m == 32 || m == 64 || m == 128;
  }

  /** Bits of a conjunction are conjunctions of bits. */
  lemma {:induction false} AndBit(x: bv8, y: bv8, i: nat)
    requires i < 8
    ensures Bit(x & y, i) <==> Bit(x, i) && Bit(y, i)
  {
    var m := Mask(i);
    assert m == 1 || m == 2 || m == 4 || m == 8 || m == 16 || m == 32 || m == 64 || m == 128;
  }

  /** A nonzero byte has some bit set; a byte with a bit set is nonzero. */
  lemma {:induction false} NonzeroIffSomeBit(x: bv8)
    ensures x != 0 <==> exists i: nat :: i < 8 && Bit(x, i)
  {
    if x != 0 {
      var i: nat;
      if x & 0x01 != 0 { i := 0; }
      else if x & 0x02 != 0 { i := 1; }
      else if x & 0x04 != 0 { i := 2; }
      else if x & 0x08 != 0 { i := 3; }
      else if x & 0x10 != 0 { i := 4; }
      else if x & 0x20 != 0 { i := 5; }
      else if x & 0x40 != 0 { i := 6; }
      else { i := 7; }
      assert Bit(x, i);
    } else {
      forall i: nat | i < 8 ensures !Bit(x, i) {
      }
    }
  }

  /** Two bytes share a set bit exactly when their conjunction is nonzero. */
  lemma {:induction false} CommonBit(x: bv8, y: bv8)
    ensures x & y != 0 <==> exists i: nat :: i < 8 && Bit(x, i) && Bit(y, i)
  {
    NonzeroIffSomeBit(x & y);
    forall i: nat | i < 8 ensures Bit(x & y, i) <==> Bit(x, i) && Bit(y, i) {
      AndBit(x, y, i);
    }
  }

  /** Some bit is set in both x and y. */
  predicate SomeCommonBit(x: bv8, y: bv8)
  {
    exists i: nat :: i < 8 && Bit(x, i) && Bit(y, i)
  }

  /** No bit is set in both x and y. */
  predicate NoCommonBit(x: bv8, y: bv8)
  {
    forall i: nat :: i < 8 && Bit(x, i) ==> !Bit(y, i)
  }

  /** The set-bits half of the check: empty, or some required set bit is present. */
  lemma {:induction false} SetRequirementMeaning(v: bv8, setBits: bv8)
    ensures (setBits == 0 || v & setBits != 0) <==> (setBits == 0 || SomeCommonBit(v, setBits))
  {
    CommonBit(v, setBits);
  }

  /** The clear-bits half of the check: no required clear bit is present. */
  lemma {:induction false} ClearRequirementMeaning(v: bv8, clearBits: bv8)
    ensures (clearBits == 0 || v & clearBits == 0) <==> NoCommonBit(v, clearBits)
  {
    CommonBit(v, clearBits);
  }

  /**
   * The check, stated bit by bit: it passes iff the set requirement is empty
   * or at least one required set bit is present, and no required clear bit is present.
   */
  lemma {:induction false} CheckPassesMeaning(v: bv8, e: RegisterConfig)
    ensures CheckPasses(v, e) <==>
              (e.setBits == 0 || SomeCommonBit(v, e.setBits)) && NoCommonBit(v, e.clearBits)
  {
    SetRequirementMeaning(v, e.setBits);
    ClearRequirementMeaning(v, e.clearBits);
  }

  /** Applying the same set-and-clear twice stores what applying it once stores. */
  lemma SetAndClearIdempotent(v: bv8, setBits: bv8, clearBits: bv8)
    ensures SetAndClear(SetAndClear(v, setBits, clearBits), setBits, clearBits) ==
              SetAndClear(v, setBits, clearBits)
  {
  }

  /** After the correction of a failed check, an immediate re-check passes iff the entry is correctable. */
  lemma RecheckAfterCorrection(v: bv8, e: RegisterConfig)
    ensures CheckPasses(SetAndClear(v, e.setBits, e.clearBits), e) <==> Correctable(e)
  {
  }

  /** Whatever the check finds, the register passes afterwards when the entry is correctable. */
  lemma {:induction false} FixPasses(v: bv8, e: RegisterConfig)
    requires Correctable(e)
    ensures CheckPasses(Fix(v, e), e)
  {
    RecheckAfterCorrection(v, e);
  }

  /** An entry whose set bits and clear bits share no bit is correctable. */
  lemma NonOverlappingIsCorrectable(e: RegisterConfig)
    requires e.setBits & e.clearBits == 0
    ensures Correctable(e)
  {
  }

  /**
   * The quirk of the set-bits test: an entry requiring two bits passes while
   * one of them is missing.
   */
  lemma PartialSetBitsPass()
    ensures CheckPasses(0x01, RegisterConfig(0, 0x03, 0))
    ensures !Bit(0x01, 1) && Bit(0x03, 1)
  {
  }
}
