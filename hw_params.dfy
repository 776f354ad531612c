/**
 * The hardware-parameter set of a PCM substream (struct snd_pcm_hw_params):
 * three masks of eight 32-bit words, twelve intervals, the request,
 * change and capability words, and the scalar outputs the device fills in.
 * Both programs that negotiate parameters share these helpers.
 */
module HwParams {
  import opened Asound

  /** A snd_mask: eight 32-bit words. */
  type Mask = m: seq<Word> | |m| == MASK_WORDS witness [NO_BITS, NO_BITS, NO_BITS, NO_BITS, NO_BITS, NO_BITS, NO_BITS, NO_BITS]

  /** A snd_interval. The four flags are one-bit fields in the structure. */
  datatype Interval = Interval(min: U32, max: U32, openmin: bool, openmax: bool, integer: bool, empty: bool)

  /** The mask array of the structure, one entry per mask parameter. */
  type MaskTable = t: seq<Mask> | |t| == MASK_COUNT
    witness [ZeroMask, ZeroMask, ZeroMask]

  /** The interval array of the structure, one entry per interval parameter. */
  type IntervalTable = t: seq<Interval> | |t| == INTERVAL_COUNT
    witness [ZeroInterval, ZeroInterval, ZeroInterval, ZeroInterval, ZeroInterval, ZeroInterval,
             ZeroInterval, ZeroInterval, ZeroInterval, ZeroInterval, ZeroInterval, ZeroInterval]

  /** The value of a whole struct snd_pcm_hw_params (reserved areas and fifo_size left out). */
  datatype Snapshot = Snapshot(
    flags: Word,
    masks: MaskTable,
    intervals: IntervalTable,
    rmask: Word,
    cmask: Word,
    info: Word,
    msbits: U32,
    rateNum: U32,
    rateDen: U32)

  const ZeroMask: Mask := [NO_BITS, NO_BITS, NO_BITS, NO_BITS, NO_BITS, NO_BITS, NO_BITS, NO_BITS]
  const FullMask: Mask := [ALL_ONES, ALL_ONES, ALL_ONES, ALL_ONES, ALL_ONES, ALL_ONES, ALL_ONES, ALL_ONES]
  const ZeroInterval := Interval(0, 0, false, false, false, false)
  const ZeroIntervals: IntervalTable :=
    [ZeroInterval, ZeroInterval, ZeroInterval, ZeroInterval, ZeroInterval, ZeroInterval,
     ZeroInterval, ZeroInterval, ZeroInterval, ZeroInterval, ZeroInterval, ZeroInterval]
  /** The closed range [0, UINT_MAX] with none of the flags set. */
  const Unbounded := Interval(0, UINT_MAX, false, false, false, false)
  const FullMasks: MaskTable := [FullMask, FullMask, FullMask]
  const UnboundedIntervals: IntervalTable :=
    [Unbounded, Unbounded, Unbounded, Unbounded, Unbounded, Unbounded,
     Unbounded, Unbounded, Unbounded, Unbounded, Unbounded, Unbounded]

  /**
   * The outcome of an ioctl that reads and rewrites the whole structure
   * (HW_REFINE, HW_PARAMS): the structure the device copied back, or errno.
   */
  datatype Answer = Accepted(params: Snapshot) | Rejected(errno: Errno)

  /** The structure as `= {0}` leaves it. */
  const ZeroSnapshot := Snapshot({}, [ZeroMask, ZeroMask, ZeroMask], ZeroIntervals, {}, {}, {}, 0, 0, 0)

  // ---------------------------------------------------------------------------
  // Slot arithmetic between parameter identifiers and array positions.

  /** get_mask_count: the number of mask parameters, the length of the mask array. */
  const MASK_COUNT: nat := LAST_MASK - FIRST_MASK + 1

  /** get_interval_count: the number of interval parameters, the length of the interval array. */
  const INTERVAL_COUNT: nat := LAST_INTERVAL - FIRST_INTERVAL + 1

  /** The array position get_mask uses for a mask parameter identifier. */
  function MaskSlot(t: int): (i: nat)
    requires FIRST_MASK <= t <= LAST_MASK
    ensures i < MASK_COUNT
  {
    t - FIRST_MASK
  }

  /** The array position get_interval uses for an interval parameter identifier. */
  function IntervalSlot(t: int): (i: nat)
    requires FIRST_INTERVAL <= t <= LAST_INTERVAL
    ensures i < INTERVAL_COUNT
  {
    t - FIRST_INTERVAL
  }

  /** get_mask_index: the parameter identifier of mask position `i`; get_mask maps it back to `i`. */
  function MaskIndex(i: nat): (t: nat)
    requires i < MASK_COUNT
    ensures FIRST_MASK <= t <= LAST_MASK && MaskSlot(t) == i
  {
    i + FIRST_MASK
  }

  /** get_interval_index: the parameter identifier of interval position `i`; get_interval maps it back to `i`. */
  function IntervalIndex(i: nat): (t: nat)
    requires i < INTERVAL_COUNT
    ensures FIRST_INTERVAL <= t <= LAST_INTERVAL && IntervalSlot(t) == i
  {
    i + FIRST_INTERVAL
  }

  /** get_mask: the mask of parameter `t`. */
  function GetMask(s: Snapshot, t: int): Mask
    requires FIRST_MASK <= t <= LAST_MASK
  {
    s.masks[MaskSlot(t)]
  }

  /** get_interval: the interval of parameter `t`. */
  function GetInterval(s: Snapshot, t: int): Interval
    requires FIRST_INTERVAL <= t <= LAST_INTERVAL
  {
    s.intervals[IntervalSlot(t)]
  }

  /** Position and identifier are inverse to each other over the whole range of both. */
  lemma SlotsRoundTrip()
    ensures MASK_COUNT == 3 && INTERVAL_COUNT == 12
    ensures forall t :: FIRST_MASK <= t <= LAST_MASK ==> MaskIndex(MaskSlot(t)) == t
    ensures forall t :: FIRST_INTERVAL <= t <= LAST_INTERVAL ==> IntervalIndex(IntervalSlot(t)) == t
  {
  }

  // ---------------------------------------------------------------------------
  // Bit positions in a mask.

  /**
   * Bits per word in the simple read/write program's mask helpers: it
   * multiplies the word size in bytes by 4 instead of 8, so only the low
   * half of every word is addressed.
   */
  const HALF_WORD_BITS := 16

  /** check_mask of the simple read/write program: bit index % 16 of word index / 16. */
  predicate CheckMask(m: Mask, index: nat)
    requires index < HALF_WORD_BITS * MASK_WORDS
  {
    index % HALF_WORD_BITS in m[index / HALF_WORD_BITS]
  }

  /** The bit the capability dumper tests for enumerant `index`: bit index % 32 of word index / 32. */
  predicate MaskBit(m: Mask, index: nat)
    requires index < 32 * MASK_WORDS
  {
    index % 32 in m[index / 32]
  }

  /** The mask set_mask leaves: bit index % 16 ORed into word index / 16. */
  function WithMaskBit(m: Mask, index: nat): Mask
    requires index < HALF_WORD_BITS * MASK_WORDS
  {
    var w := index / HALF_WORD_BITS;
    m[w := m[w] + {index % HALF_WORD_BITS}]
  }

  /**
   * Setting a bit makes check_mask hold for it, and every other bit of
   * every word keeps its value.
   */
  lemma WithMaskBitOnlyThatBit(m: Mask, index: nat)
    requires index < HALF_WORD_BITS * MASK_WORDS
    ensures CheckMask(WithMaskBit(m, index), index)
    ensures forall w, b :: 0 <= w < MASK_WORDS && b < 32 ==>
      (b in WithMaskBit(m, index)[w] <==>
       b in m[w] || (w == index / HALF_WORD_BITS && b == index % HALF_WORD_BITS))
  {
  }

  /** Below 16 the two bit layouts address the same bit. */
  lemma CheckMaskAgreesBelow16(m: Mask, index: nat)
    requires index < 16
    ensures CheckMask(m, index) == MaskBit(m, index)
  {
  }

  /**
   * From 16 on they never do: for every enumerant from 16 up there is a
   * mask holding it in the 32-bit layout that check_mask reads as empty,
   * and a mask set by the 16-bit layout that the 32-bit layout reads as empty.
   */
  lemma CheckMaskDisagreesFrom16(k: nat)
    requires 16 <= k < HALF_WORD_BITS * MASK_WORDS
    ensures var m := ZeroMask[k / 32 := {k % 32}]; MaskBit(m, k) && !CheckMask(m, k)
    ensures var m := ZeroMask[k / HALF_WORD_BITS := {k % HALF_WORD_BITS}]; CheckMask(m, k) && !MaskBit(m, k)
  {
    assert k / HALF_WORD_BITS != k / 32;
  }

  /** A full mask permits every enumerant under both bit layouts. */
  lemma FullMaskPermitsAll()
    ensures forall k: nat :: k < HALF_WORD_BITS * MASK_WORDS ==> CheckMask(FullMask, k)
    ensures forall k: nat :: k < 32 * MASK_WORDS ==> MaskBit(FullMask, k)
  {
  }

  // ---------------------------------------------------------------------------
  // The structure as a mutable object.

  class Params {
    var flags: Word
    var masks: MaskTable
    var intervals: IntervalTable
    var rmask: Word
    var cmask: Word
    var info: Word
    var msbits: U32
    var rateNum: U32
    var rateDen: U32

    /** The structure zero-initialised, as `struct snd_pcm_hw_params params = {0}`. */
    constructor ()
      ensures Value() == ZeroSnapshot
    {
      flags, masks, intervals := {}, [ZeroMask, ZeroMask, ZeroMask], ZeroIntervals;
      rmask, cmask, info, msbits, rateNum, rateDen := {}, {}, {}, 0, 0, 0;
    }

    function Value(): Snapshot
      reads this
    {
      Snapshot(flags, masks, intervals, rmask, cmask, info, msbits, rateNum, rateDen)
    }

    /** The device copying a whole structure back to the caller at the end of an ioctl. */
    method Load(s: Snapshot)
      modifies this
      ensures Value() == s
    {
      flags, masks, intervals := s.flags, s.masks, s.intervals;
      rmask, cmask, info, msbits, rateNum, rateDen := s.rmask, s.cmask, s.info, s.msbits, s.rateNum, s.rateDen;
    }
  }

  /** The word with the bits lo .. hi - 1 set. */
  function BitRange(lo: nat, hi: nat): (w: Word)
    requires hi <= 32
    ensures forall b :: b in w <==> lo <= b < hi
    decreases hi
  {
    if hi <= lo then {} else BitRange(lo, hi - 1) + {hi - 1}
  }

  /** rmask bits of every mask (0..2) and every interval (8..19) parameter. */
  function AllParams(): Word
  {
    BitRange(FIRST_MASK, LAST_MASK + 1) + BitRange(FIRST_INTERVAL, LAST_INTERVAL + 1)
  }

  /** The structure after initialize_hw_params, in terms of the one before. */
  function Initialized(s: Snapshot): Snapshot
  {
    s.(masks := FullMasks,
       intervals := UnboundedIntervals,
       rmask := s.rmask + AllParams(),
       cmask := {},
       info := {})
  }

  /** After initialization every word of every mask is all-ones: every enumerant is permitted. */
  lemma InitializedMasksFull(s: Snapshot)
    ensures forall k, w :: 0 <= k < MASK_COUNT && 0 <= w < MASK_WORDS ==> Initialized(s).masks[k][w] == ALL_ONES
    ensures forall k, i :: 0 <= k < MASK_COUNT && 0 <= i < 32 * MASK_WORDS ==> MaskBit(Initialized(s).masks[k], i)
    ensures forall k, i :: 0 <= k < MASK_COUNT && 0 <= i < HALF_WORD_BITS * MASK_WORDS ==> CheckMask(Initialized(s).masks[k], i)
  {
    FullMaskPermitsAll();
  }

  /** After initialization every interval is the closed range [0, UINT_MAX] with no flag set. */
  lemma InitializedIntervalsUnbounded(s: Snapshot)
    ensures forall k :: 0 <= k < INTERVAL_COUNT ==>
      var iv := Initialized(s).intervals[k];
      iv.min == 0 && iv.max == UINT_MAX && !iv.openmin && !iv.openmax && !iv.integer && !iv.empty
  {
  }

  /**
   * After initialization every mask (0..2) and interval (8..19) parameter
   * is requested on top of whatever was requested before, nothing is
   * marked changed and no capability is reported; the scalar outputs are
   * as they were.
   */
  lemma InitializedRequestsAll(s: Snapshot)
    ensures var r := Initialized(s);
      (forall b :: b in r.rmask <==> b in s.rmask || 0 <= b <= 2 || 8 <= b <= 19) &&
      r.cmask == {} && r.info == {} &&
      r.flags == s.flags && r.msbits == s.msbits && r.rateNum == s.rateNum && r.rateDen == s.rateDen
  {
  }

  /** initialize_hw_params: both loops, writing every mask, every interval and the rmask bits in place. */
  method InitializeHwParams(p: Params)
    modifies p
    ensures p.Value() == Initialized(old(p.Value()))
  {
    ghost var s := p.Value();
    var i := 0;
    while i < MASK_COUNT
      invariant 0 <= i <= MASK_COUNT
      invariant forall k :: 0 <= k < i ==> p.masks[k] == FullMask
      invariant forall k :: i <= k < MASK_COUNT ==> p.masks[k] == s.masks[k]
      invariant forall b :: b in p.rmask <==> b in s.rmask || FIRST_MASK <= b < FIRST_MASK + i
      invariant p.intervals == s.intervals && p.flags == s.flags && p.cmask == s.cmask && p.info == s.info
      invariant p.msbits == s.msbits && p.rateNum == s.rateNum && p.rateDen == s.rateDen
    {
      p.masks := p.masks[i := FullMask];
      p.rmask := p.rmask + {MaskIndex(i)};
      i := i + 1;
    }
    assert p.masks == FullMasks;

    i := 0;
    while i < INTERVAL_COUNT
      invariant 0 <= i <= INTERVAL_COUNT
      invariant forall k :: 0 <= k < i ==> p.intervals[k] == Unbounded
      invariant forall k :: i <= k < INTERVAL_COUNT ==> p.intervals[k] == s.intervals[k]
      invariant forall b :: b in p.rmask <==> b in s.rmask || FIRST_MASK <= b <= LAST_MASK || FIRST_INTERVAL <= b < FIRST_INTERVAL + i
      invariant p.masks == FullMasks && p.flags == s.flags && p.cmask == s.cmask && p.info == s.info
      invariant p.msbits == s.msbits && p.rateNum == s.rateNum && p.rateDen == s.rateDen
    {
      p.intervals := p.intervals[i := Interval(0, UINT_MAX, false, false, false, false)];
      p.rmask := p.rmask + {IntervalIndex(i)};
      i := i + 1;
    }

    assert p.intervals == UnboundedIntervals;
    p.cmask := {};
    p.info := {};
    assert p.rmask == s.rmask + AllParams();
  }

  /** set_mask: ORs bit index % 16 into word index / 16 of mask `slot`; nothing else changes. */
  method SetMask(p: Params, slot: nat, index: nat)
    requires slot < MASK_COUNT && index < HALF_WORD_BITS * MASK_WORDS
    modifies p
    ensures p.masks == old(p.masks)[slot := WithMaskBit(old(p.masks[slot]), index)]
    ensures p.intervals == old(p.intervals) && p.flags == old(p.flags) && p.rmask == old(p.rmask)
    ensures p.cmask == old(p.cmask) && p.info == old(p.info)
    ensures p.msbits == old(p.msbits) && p.rateNum == old(p.rateNum) && p.rateDen == old(p.rateDen)
  {
    var i, j := index / HALF_WORD_BITS, index % HALF_WORD_BITS;
    var m := p.masks[slot];
    p.masks := p.masks[slot := m[i := m[i] + {j}]];
  }
}
