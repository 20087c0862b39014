/**
 * Protocol rules: the fixed barcode/UMI layout of each supported
 * single-cell chemistry (struct Rule and the presets derived from it).
 */
module Rules {
  import opened Tags

  /** The source's size_t. */
  type U64 = x: int | 0 <= x < 0x1_0000_0000_0000_0000

  /** Which end of the read the barcode and UMI are anchored to. */
  datatype BarcodeEnd = FIVE | THREE

  /** Largest value a uint32_t holds. */
  const MaxU32: nat := 0xFFFF_FFFF

  /**
   * A chemistry's layout: barcode length, UMI length, the anchoring end and
   * the largest barcode value downstream code may encode.
   */
  datatype Rule = Rule(barcodeLength: U32, umiLength: U32, end: BarcodeEnd, maxValue: U32)
  {
    /** Rule::set_umi_geo: present only so that a Rule can stand where a CustomGeometry does. */
    function SetUmiGeo(g: TagGeometry): (r: Rule)
      ensures r == this
    {
      this
    }

    /** Rule::set_bc_geo: likewise a no-op. */
    function SetBcGeo(g: TagGeometry): (r: Rule)
      ensures r == this
    {
      this
    }
  }

  const DropSeq: Rule := Rule(12, 8, FIVE, 16777216)
  const ChromiumV3: Rule := Rule(16, 12, FIVE, 4294967295)
  const Chromium: Rule := Rule(16, 10, FIVE, 4294967295)
  const Gemcode: Rule := Rule(14, 10, FIVE, 268435456)
  const QuartzSeq2: Rule := Rule(15, 8, FIVE, 1073741824)
  const CELSeq: Rule := Rule(8, 6, FIVE, 65536)
  const CELSeq2: Rule := Rule(6, 6, FIVE, 4096)
  /** The all-zero placeholder rule (the source's dummy class). */
  const Custom: Rule := Rule(0, 0, FIVE, 0)

  /** inDrop: variable-length barcodes, so the length given covers the whole barcode including the W1 linker. */
  class InDrop {
    static const Base: Rule := Rule(42, 6, FIVE, 22347776)

    const rule: Rule
    /** The W1 adapter sequence that delimits the two barcode halves. */
    var w1: string

    constructor ()
      ensures rule == Base && w1 == []
    {
      rule := Base;
      w1 := [];
    }

    /** InDrop::setW1: stores the adapter as given, without any check. */
    method SetW1(w: string)
      modifies this
      ensures w1 == w
    {
      w1 := w;
    }
  }

  /** CITE-seq: 10x-style barcode and UMI plus a feature (antibody) tag region. */
  class CITESeq {
    static const Base: Rule := Rule(16, 10, FIVE, 4294967295)

    const rule: Rule
    var featureLength: U64
    var featureStart: U64

    constructor ()
      ensures rule == Base && featureLength == 15 && featureStart == 10
    {
      rule := Base;
      featureLength := 15;
      featureStart := 10;
    }

    /** CITESeq::setFeatureLength: changes the feature length and nothing else. */
    method SetFeatureLength(length: U64)
      modifies this
      ensures featureLength == length && featureStart == old(featureStart)
    {
      featureLength := length;
    }

    /** CITESeq::setFeatureStart: changes the feature start and nothing else. */
    method SetFeatureStart(startIdx: U64)
      modifies this
      ensures featureStart == startIdx && featureLength == old(featureLength)
    {
      featureStart := startIdx;
    }
  }

  /** Number of distinct barcodes of length n over A, C, G, T. */
  function Pow4(n: nat): (r: nat)
    ensures r >= 1
    ensures n > 0 ==> r >= 4
  {
    if n == 0 then 1 else 4 * Pow4(n - 1)
  }

  /** Longer barcodes have at least as many values. */
  lemma {:induction false} Pow4Monotone(m: nat, n: nat)
    requires m <= n
    ensures Pow4(m) <= Pow4(n)
  {
    if m < n {
      Pow4Monotone(m, n - 1);
    }
  }

  /** Every preset anchors its barcode and UMI at the 5' end. */
  lemma PresetsAreFivePrime()
    ensures DropSeq.end == InDrop.Base.end == CITESeq.Base.end == ChromiumV3.end == Chromium.end == FIVE
    ensures Gemcode.end == QuartzSeq2.end == CELSeq.end == CELSeq2.end == Custom.end == FIVE
  {
  }

  /**
   * For the presets with a fixed barcode, maxValue is the number of distinct
   * barcodes of that length, 4^barcodeLength; the 16-base ones have 2^32
   * barcodes, one more than a uint32_t holds, and store 2^32 - 1 instead.
   */
  lemma MaxValueIsBarcodeSpace()
    ensures DropSeq.maxValue == Pow4(DropSeq.barcodeLength)
    ensures Gemcode.maxValue == Pow4(Gemcode.barcodeLength)
    ensures QuartzSeq2.maxValue == Pow4(QuartzSeq2.barcodeLength)
    ensures CELSeq.maxValue == Pow4(CELSeq.barcodeLength)
    ensures CELSeq2.maxValue == Pow4(CELSeq2.barcodeLength)
    ensures Pow4(16) == MaxU32 + 1
    ensures ChromiumV3.barcodeLength == Chromium.barcodeLength == CITESeq.Base.barcodeLength == 16
    ensures ChromiumV3.maxValue == Chromium.maxValue == CITESeq.Base.maxValue == MaxU32
  {
  }

  /** InDrop's maxValue is no power of four: it lies strictly between 4^12 and 4^13. */
  lemma {:induction false} InDropMaxValueNotPowerOfFour(n: nat)
    ensures Pow4(n) != InDrop.Base.maxValue
  {
    assert Pow4(12) == 16777216;
    assert Pow4(13) == 67108864;
    if n <= 12 {
      Pow4Monotone(n, 12);
    } else {
      Pow4Monotone(13, n);
    }
  }

  /**
   * InDrop's maxValue counts the barcodes of every length from 8 to 12 bases,
   * in keeping with its variable-length barcodes.
   */
  lemma InDropMaxValueIsVariableBarcodeSpace()
    ensures InDrop.Base.maxValue == Pow4(8) + Pow4(9) + Pow4(10) + Pow4(11) + Pow4(12)
  {
  }

  /** Custom's maxValue, 0, is no power of four either. */
  lemma CustomMaxValueNotPowerOfFour(n: nat)
    ensures Pow4(n) != Custom.maxValue
  {
  }
}
