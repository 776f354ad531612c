/**
 * The capability dumper: initialize a parameter set to "anything goes",
 * let the device refine it once, and decode what came back, parameter by
 * parameter. Each decoder reports the indices of the labels it would
 * print; the text itself is not modelled.
 */
module RefinePcmParams {
  import opened Asound
  import opened HwParams
  import opened Indices

  // ---------------------------------------------------------------------------
  // Label tables, as which entries are present (non-NULL).

  /** A run of `n` present entries. */
  function Present(n: nat): (r: seq<bool>)
    ensures |r| == n && forall i :: 0 <= i < n ==> r[i]
  {
    if n == 0 then [] else Present(n - 1) + [true]
  }

  /** A run of `n` absent entries. */
  function Absent(n: nat): (r: seq<bool>)
    ensures |r| == n && forall i :: 0 <= i < n ==> !r[i]
  {
    if n == 0 then [] else Absent(n - 1) + [false]
  }

  /** access_labels: the five access modes. */
  const ACCESS_LABELS: seq<bool> := Present(5)

  /** format_labels: formats 0..52, with no entry for 25..30. */
  const FORMAT_LABELS: seq<bool> := Present(25) + Absent(6) + Present(22)

  /** subformat_labels: only the standard subformat. */
  const SUBFORMAT_LABELS: seq<bool> := Present(1)

  // ---------------------------------------------------------------------------
  // dump_mask_param

  /** Enumerant `idx` of mask `m` is printed: it is within the label table and the 32-bit layout, its bit is set and it has a label. */
  predicate Reported(m: Mask, labels: seq<bool>, idx: nat)
  {
    idx < 32 * MASK_WORDS && idx < |labels| && MaskBit(m, idx) && labels[idx]
  }

  /** `Reported` as a selector for `Enumerates`. */
  function ReportedBy(m: Mask, labels: seq<bool>): nat -> bool
  {
    (idx: nat) => Reported(m, labels, idx)
  }

  /** How far the scan of a mask gets: the end of the label table, or the end of the mask. */
  function ScanBound(labels: seq<bool>): nat
  {
    if |labels| < 32 * MASK_WORDS then |labels| else 32 * MASK_WORDS
  }

  /** A mask parameter the dumper accepts: a mask identifier that also has an entry in the parameter label table. */
  predicate DumpableMask(t: int)
  {
    FIRST_MASK <= t <= LAST_MASK && t < PARAM_LABEL_ENTRIES
  }

  /**
   * dump_mask_param: nothing for a type outside the mask range; otherwise
   * the indices of the set, labelled enumerants, scanning word by word and
   * bit by bit and stopping at the end of the label table.
   */
  method DumpMaskParam(s: Snapshot, t: int, labels: seq<bool>) returns (r: Option<seq<nat>>)
    ensures r.None? <==> !DumpableMask(t)
    ensures r.Some? ==> Enumerates(r.value, ScanBound(labels), ReportedBy(GetMask(s, t), labels))
  {
    if t < FIRST_MASK || t > LAST_MASK || t >= PARAM_LABEL_ENTRIES {
      return None;
    }
    var m := GetMask(s, t);
    var report: seq<nat> := [];
    var i := 0;
    while i < MASK_WORDS
      invariant 0 <= i <= MASK_WORDS
      invariant i * 32 <= |labels|
      invariant Ascending(report)
      invariant forall k :: 0 <= k < |report| ==> report[k] < i * 32 && Reported(m, labels, report[k])
      invariant forall x: nat :: x < i * 32 && Reported(m, labels, x) ==> x in report
    {
      var j := 0;
      while j < 32
        invariant 0 <= j <= 32
        invariant i * 32 + j <= |labels|
        invariant Ascending(report)
        invariant forall k :: 0 <= k < |report| ==> report[k] < i * 32 + j && Reported(m, labels, report[k])
        invariant forall x: nat :: x < i * 32 + j && Reported(m, labels, x) ==> x in report
      {
        var index := i * 32 + j;
        if index >= |labels| {
          return Some(report);
        }
        assert index / 32 == i && index % 32 == j;
        if j in m[i] && labels[index] {
          report := report + [index];
        }
        j := j + 1;
      }
      i := i + 1;
    }
    return Some(report);
  }

  /** Format codes 25..30 have no label: the dumper never reports them, whatever the mask. */
  lemma FormatHolesNeverReported(m: Mask, r: seq<nat>)
    requires Enumerates(r, ScanBound(FORMAT_LABELS), ReportedBy(m, FORMAT_LABELS))
    ensures forall k :: 0 <= k < |r| ==> !(25 <= r[k] <= 30)
  {
    forall k | 0 <= k < |r| ensures !(25 <= r[k] <= 30) {
      assert Reported(m, FORMAT_LABELS, r[k]);
    }
  }

  /** Every labelled format whose bit is set is reported, also those from 32 on, in the second word. */
  lemma FormatReportComplete(m: Mask, r: seq<nat>, f: nat)
    requires Enumerates(r, ScanBound(FORMAT_LABELS), ReportedBy(m, FORMAT_LABELS))
    requires f < 53 && !(25 <= f <= 30) && f % 32 in m[f / 32]
    ensures f in r
  {
    assert ScanBound(FORMAT_LABELS) == 53;
    assert Reported(m, FORMAT_LABELS, f);
  }

  // ---------------------------------------------------------------------------
  // dump_interval_param

  /** Markers printed after the range of an interval. */
  datatype Marker = IntegerMarker | EmptyMarker

  /** One printed interval: opening bracket, bounds, closing bracket and markers. */
  datatype IntervalLine = IntervalLine(opening: char, min: U32, max: U32, closing: char, markers: seq<Marker>)

  /** An interval parameter the dumper accepts. */
  predicate DumpableInterval(t: int)
  {
    FIRST_INTERVAL <= t <= LAST_INTERVAL && t < PARAM_LABEL_ENTRIES
  }

  /** The line printed for an interval: '(' or '[' by openmin, ')' or ']' by openmax, then the integer and empty markers. */
  function IntervalText(iv: Interval): IntervalLine
  {
    IntervalLine(
      if iv.openmin then '(' else '[',
      iv.min, iv.max,
      if iv.openmax then ')' else ']',
      (if iv.integer then [IntegerMarker] else []) + (if iv.empty then [EmptyMarker] else []))
  }

  /** Reading a printed line back: the interval it describes, or None when it is not a line the dumper prints. */
  function ReadInterval(line: IntervalLine): (r: Option<Interval>)
    ensures r.Some? ==> r.value.min == line.min && r.value.max == line.max
  {
    var flags :=
      if line.markers == [] then Some((false, false))
      else if line.markers == [IntegerMarker] then Some((true, false))
      else if line.markers == [EmptyMarker] then Some((false, true))
      else if line.markers == [IntegerMarker, EmptyMarker] then Some((true, true))
      else None;
    if line.opening != '(' && line.opening != '[' then None
    else if line.closing != ')' && line.closing != ']' then None
    else if flags.None? then None
    else Some(Interval(line.min, line.max, line.opening == '(', line.closing == ')', flags.value.0, flags.value.1))
  }

  /** dump_interval_param: nothing outside the interval range, otherwise the line of that interval. */
  function DumpIntervalParam(s: Snapshot, t: int): (r: Option<IntervalLine>)
    ensures r.None? <==> !DumpableInterval(t)
    ensures r.Some? ==> ReadInterval(r.value) == Some(GetInterval(s, t))
  {
    if t < FIRST_INTERVAL || t > LAST_INTERVAL || t >= PARAM_LABEL_ENTRIES then None
    else
      IntervalTextReadsBack(GetInterval(s, t));
      Some(IntervalText(GetInterval(s, t)))
  }

  /** Reading back a printed line gives the interval that was printed. */
  lemma IntervalTextReadsBack(iv: Interval)
    ensures ReadInterval(IntervalText(iv)) == Some(iv)
  {
    var ms := IntervalText(iv).markers;
    if iv.integer && iv.empty {
      assert ms == [IntegerMarker, EmptyMarker];
    } else if iv.integer {
      assert ms == [IntegerMarker];
    } else if iv.empty {
      assert ms == [EmptyMarker];
    } else {
      assert ms == [];
    }
  }

  /** The printed line shows every field: '(' iff openmin, ')' iff openmax, each marker iff its flag. */
  lemma IntervalTextShowsFlags(iv: Interval)
    ensures IntervalText(iv).opening == '(' <==> iv.openmin
    ensures IntervalText(iv).opening == '[' <==> !iv.openmin
    ensures IntervalText(iv).closing == ')' <==> iv.openmax
    ensures IntervalText(iv).closing == ']' <==> !iv.openmax
    ensures IntegerMarker in IntervalText(iv).markers <==> iv.integer
    ensures EmptyMarker in IntervalText(iv).markers <==> iv.empty
  {
  }

  /** Printing loses nothing: two intervals print alike only when they are equal. */
  lemma IntervalTextInjective(a: Interval, b: Interval)
    requires IntervalText(a) == IntervalText(b)
    ensures a == b
  {
    IntervalTextReadsBack(a);
    IntervalTextReadsBack(b);
  }

  /** Reading back is exact on printed lines: every line that reads back is the one its interval prints. */
  lemma ReadIntervalOnlyPrinted(line: IntervalLine)
    requires ReadInterval(line).Some?
    ensures IntervalText(ReadInterval(line).value) == line
  {
  }

  /** The interval parameters dump_pcm_caps prints, in order: all but PERIOD_BYTES. */
  const DUMPED_INTERVALS: seq<int> := [
    PARAM_SAMPLE_BITS, PARAM_FRAME_BITS, PARAM_CHANNELS, PARAM_RATE,
    PARAM_PERIOD_TIME, PARAM_PERIOD_SIZE, PARAM_PERIODS, PARAM_BUFFER_TIME,
    PARAM_BUFFER_SIZE, PARAM_BUFFER_BYTES, PARAM_TICK_TIME]

  /** Every interval parameter but PERIOD_BYTES is dumped, exactly once. */
  lemma DumpedIntervalsAllButPeriodBytes()
    ensures forall t :: t in DUMPED_INTERVALS <==> FIRST_INTERVAL <= t <= LAST_INTERVAL && t != PARAM_PERIOD_BYTES
    ensures forall a, b :: 0 <= a < b < |DUMPED_INTERVALS| ==> DUMPED_INTERVALS[a] < DUMPED_INTERVALS[b]
  {
  }

  // ---------------------------------------------------------------------------
  // The word scans of dump_pcm_caps

  /** Bit `i` of word `w`, as a selector for `Enumerates`. */
  function BitOf(w: Word): nat -> bool
  {
    (i: nat) => i in w
  }

  /** Info label `i` is printed: entry `i` of the info table shares a bit with the info word. */
  function InfoSelected(info: Word): nat -> bool
  {
    (i: nat) => i < |INFO_FLAGS| && info * INFO_FLAGS[i] != {}
  }

  /**
   * The changed-parameter scan: the indices below 20 (the size of the
   * parameter label table) whose cmask bit is set. The label is not
   * consulted, so the holes 3..7 of that table are reported too.
   */
  method ChangedParams(cmask: Word) returns (r: seq<nat>)
    ensures Enumerates(r, PARAM_LABEL_ENTRIES, BitOf(cmask))
  {
    r := [];
    var i := 0;
    while i < PARAM_LABEL_ENTRIES
      invariant 0 <= i <= PARAM_LABEL_ENTRIES
      invariant Ascending(r)
      invariant forall k :: 0 <= k < |r| ==> r[k] < i && r[k] in cmask
      invariant forall x: nat :: x < i && x in cmask ==> x in r
    {
      if i in cmask {
        r := r + [i];
      }
      i := i + 1;
    }
  }

  /** The info scan: the indices of the capability entries that share a bit with the info word. */
  method InfoLabels(info: Word) returns (r: seq<nat>)
    ensures Enumerates(r, |INFO_FLAGS|, InfoSelected(info))
  {
    r := [];
    var i := 0;
    while i < |INFO_FLAGS|
      invariant 0 <= i <= |INFO_FLAGS|
      invariant Ascending(r)
      invariant forall k :: 0 <= k < |r| ==> r[k] < i && info * INFO_FLAGS[r[k]] != {}
      invariant forall x: nat :: x < i && info * INFO_FLAGS[x] != {} ==> x in r
    {
      if info * INFO_FLAGS[i] != {} {
        r := r + [i];
      }
      i := i + 1;
    }
  }

  /** HAS_WALL_CLOCK and HAS_LINK_ATIME are the same bit, so their labels (15 and 16) are printed together or not at all. */
  lemma {:induction false} WallClockAndLinkAtimeTogether(info: Word, r: seq<nat>)
    requires Enumerates(r, |INFO_FLAGS|, InfoSelected(info))
    ensures 15 in r <==> 16 in r
    ensures 15 in r <==> 24 in info
  {
    assert INFO_FLAGS[15] == {24} && INFO_FLAGS[16] == {24};
    if 15 in r {
      var k :| 0 <= k < |r| && r[k] == 15;
      assert InfoSelected(info)(r[k]);
    }
    if 16 in r {
      var k :| 0 <= k < |r| && r[k] == 16;
      assert InfoSelected(info)(r[k]);
    }
    if 24 in info {
      assert 24 in info * INFO_FLAGS[15] && InfoSelected(info)(15);
      assert 24 in info * INFO_FLAGS[16] && InfoSelected(info)(16);
    }
  }

  /** The flags scan: nothing when the flags word is zero; otherwise the indices below 3 whose bit is set (possibly none). */
  method FlagLabels(flags: Word) returns (r: Option<seq<nat>>)
    ensures r.None? <==> flags == {}
    ensures r.Some? ==> Enumerates(r.value, HW_FLAG_ENTRIES, BitOf(flags))
  {
    if flags == {} {
      return None;
    }
    var labels: seq<nat> := [];
    var i := 0;
    while i < HW_FLAG_ENTRIES
      invariant 0 <= i <= HW_FLAG_ENTRIES
      invariant Ascending(labels)
      invariant forall k :: 0 <= k < |labels| ==> labels[k] < i && labels[k] in flags
      invariant forall x: nat :: x < i && x in flags ==> x in labels
    {
      if i in flags {
        labels := labels + [i];
      }
      i := i + 1;
    }
    return Some(labels);
  }

  /** A non-zero flags word whose bits are all above the table prints the heading and no label. */
  lemma FlagsHeadingWithoutLabels(flags: Word, r: seq<nat>)
    requires forall b :: b in flags ==> b >= HW_FLAG_ENTRIES
    requires Enumerates(r, HW_FLAG_ENTRIES, BitOf(flags))
    ensures r == []
  {
    EnumeratesUnique(r, [], HW_FLAG_ENTRIES, BitOf(flags));
  }

  /** most-significant-bits is printed only when positive; one part of the report that DecodeCaps assembles and DumpPcmCaps returns. */
  function MsbitsLine(msbits: U32): (r: Option<U32>)
    ensures r.Some? <==> msbits > 0
    ensures r.Some? ==> r.value == msbits
  {
    if msbits > 0 then Some(msbits) else None
  }

  /** rate_num and rate_den are printed only when both are positive; like MsbitsLine, a part of the report of DecodeCaps and DumpPcmCaps. */
  function RateLines(num: U32, den: U32): (r: Option<(U32, U32)>)
    ensures r.Some? <==> num > 0 && den > 0
    ensures r.Some? ==> r.value == (num, den)
  {
    if num > 0 && den > 0 then Some((num, den)) else None
  }

  // ---------------------------------------------------------------------------
  // dump_pcm_caps

  /** Everything dump_pcm_caps prints after a successful refine, as label indices and values. */
  datatype CapsReport = CapsReport(
    changed: seq<nat>,
    access: Option<seq<nat>>,
    formats: Option<seq<nat>>,
    subformats: Option<seq<nat>>,
    intervals: seq<Option<IntervalLine>>,
    flags: Option<seq<nat>>,
    info: seq<nat>,
    msbits: Option<U32>,
    rate: Option<(U32, U32)>)

  /** The three mask reports: the labelled, set enumerants of access, format and subformat. */
  ghost predicate DescribesMasks(c: CapsReport, s: Snapshot)
  {
    c.access.Some? && Enumerates(c.access.value, ScanBound(ACCESS_LABELS), ReportedBy(s.masks[0], ACCESS_LABELS)) &&
    c.formats.Some? && Enumerates(c.formats.value, ScanBound(FORMAT_LABELS), ReportedBy(s.masks[1], FORMAT_LABELS)) &&
    c.subformats.Some? && Enumerates(c.subformats.value, ScanBound(SUBFORMAT_LABELS), ReportedBy(s.masks[2], SUBFORMAT_LABELS))
  }

  /** The interval reports: one line per dumped interval parameter, each reading back as that interval. */
  ghost predicate DescribesIntervals(c: CapsReport, s: Snapshot)
  {
    |c.intervals| == |DUMPED_INTERVALS| &&
    forall k :: 0 <= k < |c.intervals| ==>
      c.intervals[k].Some? && ReadInterval(c.intervals[k].value) == Some(GetInterval(s, DUMPED_INTERVALS[k]))
  }

  /** The word reports and scalars: changed parameters, flags, info, msbits and rate. */
  ghost predicate DescribesWords(c: CapsReport, s: Snapshot)
  {
    Enumerates(c.changed, PARAM_LABEL_ENTRIES, BitOf(s.cmask)) &&
    (c.flags.None? <==> s.flags == {}) &&
    (c.flags.Some? ==> Enumerates(c.flags.value, HW_FLAG_ENTRIES, BitOf(s.flags))) &&
    Enumerates(c.info, |INFO_FLAGS|, InfoSelected(s.info)) &&
    c.msbits == MsbitsLine(s.msbits) &&
    c.rate == RateLines(s.rateNum, s.rateDen)
  }

  /** What a report says about the refined structure `s`, field by field. */
  ghost predicate Describes(c: CapsReport, s: Snapshot)
  {
    DescribesMasks(c, s) && DescribesIntervals(c, s) && DescribesWords(c, s)
  }

  /** The decoding half of dump_pcm_caps: every decoder in turn on the refined structure. */
  method DecodeCaps(s: Snapshot) returns (c: CapsReport)
    ensures Describes(c, s)
  {
    var changed := ChangedParams(s.cmask);

    var access := DumpMaskParam(s, PARAM_ACCESS, ACCESS_LABELS);
    var formats := DumpMaskParam(s, PARAM_FORMAT, FORMAT_LABELS);
    var subformats := DumpMaskParam(s, PARAM_SUBFORMAT, SUBFORMAT_LABELS);

    var intervals := [
      DumpIntervalParam(s, PARAM_SAMPLE_BITS),
      DumpIntervalParam(s, PARAM_FRAME_BITS),
      DumpIntervalParam(s, PARAM_CHANNELS),
      DumpIntervalParam(s, PARAM_RATE),
      DumpIntervalParam(s, PARAM_PERIOD_TIME),
      DumpIntervalParam(s, PARAM_PERIOD_SIZE),
      DumpIntervalParam(s, PARAM_PERIODS),
      DumpIntervalParam(s, PARAM_BUFFER_TIME),
      DumpIntervalParam(s, PARAM_BUFFER_SIZE),
      DumpIntervalParam(s, PARAM_BUFFER_BYTES),
      DumpIntervalParam(s, PARAM_TICK_TIME)];

    var flags := FlagLabels(s.flags);
    var info := InfoLabels(s.info);

    c := CapsReport(changed, access, formats, subformats, intervals, flags, info,
                    MsbitsLine(s.msbits), RateLines(s.rateNum, s.rateDen));
  }

  /**
   * dump_pcm_caps on a device whose HW_REFINE is `refine`: a zeroed
   * structure is initialized and refined once; a rejected refine returns
   * minus errno with nothing decoded, an accepted one returns 0 and the
   * report of the refined structure.
   */
  method DumpPcmCaps(refine: Snapshot -> Answer) returns (err: int, report: Option<CapsReport>)
    ensures match refine(Initialized(ZeroSnapshot))
      case Rejected(e) => err == -(e as int) && report == None
      case Accepted(s) => err == 0 && report.Some? && Describes(report.value, s)
  {
    var p := new Params();
    InitializeHwParams(p);
    var answer := refine(p.Value());
    if answer.Rejected? {
      return -(answer.errno as int), None;
    }
    p.Load(answer.params);
    var c := DecodeCaps(p.Value());
    return 0, Some(c);
  }
}
