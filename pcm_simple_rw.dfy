/**
 * The simple read/write PCM program: it resets a substream's parameter
 * set, lets the device refine it, narrows the access mode to the two
 * read/write modes and commits it; it then sizes a buffer of one period and
 * runs the wait-and-transfer loop until something stops it.
 *
 * The device (HW_REFINE, HW_PARAMS, PREPARE, START, the transfer ioctls),
 * calloc and epoll are not modelled: each call's outcome is an input.
 */
module PcmSimpleRw {
  import opened Asound
  import opened HwParams

  // ---------------------------------------------------------------------------
  // set_params

  /** The refined access mask permits at least one of the two read/write access modes. */
  predicate PermitsReadWrite(s: Snapshot)
  {
    var access := GetMask(s, PARAM_ACCESS);
    CheckMask(access, ACCESS_RW_INTERLEAVED) || CheckMask(access, ACCESS_RW_NONINTERLEAVED)
  }

  /** The access mask cleared and then both read/write modes set, as set_params leaves it before HW_PARAMS. */
  function NarrowAccess(s: Snapshot): Snapshot
  {
    s.(masks := s.masks[MaskSlot(PARAM_ACCESS) :=
      WithMaskBit(WithMaskBit(ZeroMask, ACCESS_RW_INTERLEAVED), ACCESS_RW_NONINTERLEAVED)])
  }

  /**
   * After narrowing exactly the two read/write access modes are permitted,
   * whichever of them the device permitted before, under both bit layouts;
   * the other masks, the intervals and every other word are untouched.
   */
  lemma NarrowAccessExact(s: Snapshot)
    ensures var a := GetMask(NarrowAccess(s), PARAM_ACCESS);
      (forall k :: 0 <= k < HALF_WORD_BITS * MASK_WORDS ==>
         (CheckMask(a, k) <==> k == ACCESS_RW_INTERLEAVED || k == ACCESS_RW_NONINTERLEAVED)) &&
      (forall k :: 0 <= k < 32 * MASK_WORDS ==>
         (MaskBit(a, k) <==> k == ACCESS_RW_INTERLEAVED || k == ACCESS_RW_NONINTERLEAVED))
    ensures PermitsReadWrite(NarrowAccess(s))
    ensures forall t :: FIRST_MASK <= t <= LAST_MASK && t != PARAM_ACCESS ==> GetMask(NarrowAccess(s), t) == GetMask(s, t)
    ensures NarrowAccess(s).intervals == s.intervals
    ensures NarrowAccess(s).(masks := s.masks) == s
  {
    var once := WithMaskBit(ZeroMask, ACCESS_RW_INTERLEAVED);
    assert once[0] == {3};
    assert once == ZeroMask[0 := {3}];
    var a := WithMaskBit(once, ACCESS_RW_NONINTERLEAVED);
    assert a[0] == {3, 4};
    assert a == ZeroMask[0 := {3, 4}];
  }

  /**
   * set_params: reset the structure, refine it, give up with -ENXIO when no
   * read/write access mode survives, otherwise narrow the access mask and
   * commit. `sent` is the structure handed to HW_PARAMS, None when that
   * ioctl is never issued.
   */
  method SetParams(p: Params, refine: Snapshot -> Answer, commit: Snapshot -> Answer) returns (err: int, sent: Option<Snapshot>)
    modifies p
    ensures var init := Initialized(old(p.Value()));
      match refine(init)
      case Rejected(e) => err == -(e as int) && sent == None && p.Value() == init
      case Accepted(refined) =>
        if !PermitsReadWrite(refined) then
          err == -ENXIO && sent == None && p.Value() == refined
        else
          sent == Some(NarrowAccess(refined)) &&
          match commit(NarrowAccess(refined))
          case Rejected(e) => err == -(e as int) && p.Value() == NarrowAccess(refined)
          case Accepted(committed) => err == 0 && p.Value() == committed
  {
    InitializeHwParams(p);
    var answer := refine(p.Value());
    if answer.Rejected? {
      return -(answer.errno as int), None;
    }
    p.Load(answer.params);

    var slot := MaskSlot(PARAM_ACCESS);
    if !CheckMask(p.masks[slot], ACCESS_RW_INTERLEAVED) && !CheckMask(p.masks[slot], ACCESS_RW_NONINTERLEAVED) {
      return -ENXIO, None;
    }
    p.masks := p.masks[slot := ZeroMask];
    SetMask(p, slot, ACCESS_RW_INTERLEAVED);
    SetMask(p, slot, ACCESS_RW_NONINTERLEAVED);
    assert p.Value() == NarrowAccess(answer.params);

    sent := Some(p.Value());
    answer := commit(p.Value());
    if answer.Rejected? {
      return -(answer.errno as int), sent;
    }
    p.Load(answer.params);
    err := 0;
  }

  // ---------------------------------------------------------------------------
  // keep_one_period

  /** Bytes per sample of a format code below FLOAT_LE: 8-, 16- and 24/32-bit linear formats. */
  function FormatWidth(code: nat): nat
    requires code < FORMAT_FLOAT_LE
  {
    if code <= FORMAT_U8 then 1 else if code <= FORMAT_U16_BE then 2 else 4
  }

  /**
   * The byte width keep_one_period picks from the format mask: the groups
   * are tried in order 8-bit, 16-bit, 24/32-bit, and the first group with a
   * permitted format wins; None when no linear integer format is permitted.
   */
  function SampleWidth(m: Mask): Option<nat>
  {
    if CheckMask(m, FORMAT_S8) || CheckMask(m, FORMAT_U8) then Some(1)
    else if CheckMask(m, FORMAT_S16_LE) || CheckMask(m, FORMAT_S16_BE) ||
            CheckMask(m, FORMAT_U16_LE) || CheckMask(m, FORMAT_U16_BE) then Some(2)
    else if CheckMask(m, FORMAT_S24_LE) || CheckMask(m, FORMAT_S24_BE) ||
            CheckMask(m, FORMAT_U24_LE) || CheckMask(m, FORMAT_U24_BE) ||
            CheckMask(m, FORMAT_S32_LE) || CheckMask(m, FORMAT_S32_BE) ||
            CheckMask(m, FORMAT_U32_LE) || CheckMask(m, FORMAT_U32_BE) then Some(4)
    else None
  }

  /**
   * The first-match chain picks the width of the lowest permitted format
   * code, and nothing exactly when no code below FLOAT_LE is permitted.
   */
  lemma SampleWidthOfLowestFormat(m: Mask)
    ensures SampleWidth(m) == None <==> forall c :: 0 <= c < FORMAT_FLOAT_LE ==> !CheckMask(m, c)
    ensures forall c :: (0 <= c < FORMAT_FLOAT_LE && CheckMask(m, c) && (forall d :: 0 <= d < c ==> !CheckMask(m, d)))
                        ==> SampleWidth(m) == Some(FormatWidth(c))
  {
    if SampleWidth(m) == None {
      forall c | 0 <= c < FORMAT_FLOAT_LE ensures !CheckMask(m, c) {
        assert c in {0, 1, 2, 3, 4, 5, 6, 7, 8, 9, 10, 11, 12, 13};
      }
    }
  }

  /** A mask with both U8 and S16_LE picks one byte; FLOAT_LE alone picks nothing. */
  lemma SampleWidthExamples()
    ensures SampleWidth(WithMaskBit(WithMaskBit(ZeroMask, FORMAT_U8), FORMAT_S16_LE)) == Some(1)
    ensures SampleWidth(WithMaskBit(ZeroMask, FORMAT_FLOAT_LE)) == None
  {
    var both := WithMaskBit(WithMaskBit(ZeroMask, FORMAT_U8), FORMAT_S16_LE);
    assert CheckMask(both, FORMAT_U8);
    var float := WithMaskBit(ZeroMask, FORMAT_FLOAT_LE);
    assert float[0] == {14};
    assert float == ZeroMask[0 := {14}];
  }

  /** An interval keep_one_period accepts: closed at its minimum, integer, not empty (openmax is not looked at). */
  predicate Usable(iv: Interval)
  {
    !iv.openmin && iv.integer && !iv.empty
  }

  /**
   * The element count handed to calloc: bytes per sample times samples per
   * frame times frames per period, each product taken in 32-bit unsigned
   * arithmetic. It is the exact product whenever that fits in 32 bits.
   */
  function ElementCount(width: U32, channels: U32, frames: U32): (n: U32)
    ensures width * channels * frames < 0x1_0000_0000 ==> n == width * channels * frames
  {
    var bytesPerFrame := (width * channels) % 0x1_0000_0000;
    ProductFits(width * channels, frames);
    (bytesPerFrame * frames) % 0x1_0000_0000
  }

  lemma ProductFits(a: nat, b: nat)
    ensures a * b < 0x1_0000_0000 ==> (a % 0x1_0000_0000) * b == a * b
  {
    if a * b < 0x1_0000_0000 && b > 0 {
      assert a <= a * b;
    }
  }

  /** The buffer one period needs: calloc's element count and the frames per transfer. */
  datatype Period = Period(elements: U32, frames: U32)

  /**
   * The period the parameters determine: the sample width, the channels
   * interval's minimum and the period-size interval's minimum; None when
   * any of the three is unusable.
   */
  function PeriodOf(s: Snapshot): Option<Period>
  {
    match SampleWidth(GetMask(s, PARAM_FORMAT))
    case None => None
    case Some(w) =>
      var channels := GetInterval(s, PARAM_CHANNELS);
      var period := GetInterval(s, PARAM_PERIOD_SIZE);
      if !Usable(channels) || !Usable(period) then None
      else Some(Period(ElementCount(w, channels.min, period.min), period.min))
  }

  /**
   * A period exists exactly when a width is found and both intervals are
   * usable; its frames are the period-size minimum and its element count is
   * width times channels times frames whenever that product fits in 32 bits.
   */
  lemma PeriodOfMeaning(s: Snapshot)
    ensures PeriodOf(s).Some? <==>
      SampleWidth(GetMask(s, PARAM_FORMAT)).Some? &&
      Usable(GetInterval(s, PARAM_CHANNELS)) && Usable(GetInterval(s, PARAM_PERIOD_SIZE))
    ensures PeriodOf(s).Some? ==> PeriodOf(s).value.frames == GetInterval(s, PARAM_PERIOD_SIZE).min
    ensures PeriodOf(s).Some? ==>
      var w := SampleWidth(GetMask(s, PARAM_FORMAT)).value;
      var product := w * GetInterval(s, PARAM_CHANNELS).min * GetInterval(s, PARAM_PERIOD_SIZE).min;
      product < 0x1_0000_0000 ==> PeriodOf(s).value.elements == product
  {
  }

  /**
   * keep_one_period: pick the width, check both intervals, allocate the
   * buffer. `buf` is the element count of the allocated buffer (None: the
   * buffer stays NULL) and `frames` is written only on success; the caller
   * passes both zeroed. `allocOk` is whether calloc succeeds.
   */
  method KeepOnePeriod(s: Snapshot, allocOk: bool) returns (err: int, buf: Option<U32>, frames: U32)
    ensures match PeriodOf(s)
      case None => err == -ENXIO && buf == None && frames == 0
      case Some(period) =>
        if allocOk then err == 0 && buf == Some(period.elements) && frames == period.frames
        else err == -ENOMEM && buf == None && frames == 0
  {
    buf, frames := None, 0;
    var format := GetMask(s, PARAM_FORMAT);
    var bytesPerSample: U32;
    if CheckMask(format, FORMAT_S8) || CheckMask(format, FORMAT_U8) {
      bytesPerSample := 1;
    } else if CheckMask(format, FORMAT_S16_LE) || CheckMask(format, FORMAT_S16_BE) ||
              CheckMask(format, FORMAT_U16_LE) || CheckMask(format, FORMAT_U16_BE) {
      bytesPerSample := 2;
    } else if CheckMask(format, FORMAT_S24_LE) || CheckMask(format, FORMAT_S24_BE) ||
              CheckMask(format, FORMAT_U24_LE) || CheckMask(format, FORMAT_U24_BE) ||
              CheckMask(format, FORMAT_S32_LE) || CheckMask(format, FORMAT_S32_BE) ||
              CheckMask(format, FORMAT_U32_LE) || CheckMask(format, FORMAT_U32_BE) {
      bytesPerSample := 4;
    } else {
      return -ENXIO, buf, frames;
    }

    var interval := GetInterval(s, PARAM_CHANNELS);
    if interval.openmin || !interval.integer || interval.empty {
      return -ENXIO, buf, frames;
    }
    var samplesPerFrame := interval.min;

    interval := GetInterval(s, PARAM_PERIOD_SIZE);
    if interval.openmin || !interval.integer || interval.empty {
      return -ENXIO, buf, frames;
    }
    var framesPerPeriod := interval.min;

    var bytesPerFrame := (bytesPerSample * samplesPerFrame) % 0x1_0000_0000;
    var elements := (bytesPerFrame * framesPerPeriod) % 0x1_0000_0000;
    if !allocOk {
      return -ENOMEM, buf, frames;
    }
    buf := Some(elements);
    frames := framesPerPeriod;
    err := 0;
  }

  // ---------------------------------------------------------------------------
  // run_io

  /** The four frame-transfer ioctls. */
  datatype Command = WriteI | ReadI | WriteN | ReadN

  /** The transfer ioctl and the epoll events it waits for. */
  datatype Mode = Mode(cmd: Command, events: Word)

  /**
   * The transfer mode for the committed access mask and the stream
   * direction: interleaved is tried before non-interleaved; playback writes
   * and waits for EPOLLOUT, any other direction reads and waits for EPOLLIN.
   */
  function SelectTransfer(access: Mask, stream: int): Option<Mode>
  {
    if CheckMask(access, ACCESS_RW_INTERLEAVED) then
      Some(if stream == STREAM_PLAYBACK then Mode(WriteI, {EPOLLOUT}) else Mode(ReadI, {EPOLLIN}))
    else if CheckMask(access, ACCESS_RW_NONINTERLEAVED) then
      Some(if stream == STREAM_PLAYBACK then Mode(WriteN, {EPOLLOUT}) else Mode(ReadN, {EPOLLIN}))
    else None
  }

  /** What SelectTransfer decides, stated per access bit and direction. */
  lemma SelectTransferChoice(access: Mask, stream: int)
    ensures SelectTransfer(access, stream) == None <==>
      !CheckMask(access, ACCESS_RW_INTERLEAVED) && !CheckMask(access, ACCESS_RW_NONINTERLEAVED)
    ensures CheckMask(access, ACCESS_RW_INTERLEAVED) ==>
      SelectTransfer(access, stream).Some? && SelectTransfer(access, stream).value.cmd in {WriteI, ReadI}
    ensures !CheckMask(access, ACCESS_RW_INTERLEAVED) && CheckMask(access, ACCESS_RW_NONINTERLEAVED) ==>
      SelectTransfer(access, stream).Some? && SelectTransfer(access, stream).value.cmd in {WriteN, ReadN}
    ensures SelectTransfer(access, stream).Some? ==>
      var mode := SelectTransfer(access, stream).value;
      if stream == STREAM_PLAYBACK then mode.cmd in {WriteI, WriteN} && mode.events == {EPOLLOUT}
      else mode.cmd in {ReadI, ReadN} && mode.events == {EPOLLIN}
  {
  }

  /** The result of one epoll_wait: an error with errno, a timeout (count 0), or one ready event. */
  datatype WaitResult = WaitFailed(errno: Errno) | TimedOut | Ready(events: Word)

  /**
   * What the device does in one pass of the loop: the wait result, then
   * the transfer result (looked at only after an event without EPOLLERR),
   * then the re-prepare result (looked at only after an EPIPE transfer).
   */
  datatype Round = Round(wait: WaitResult, transfer: Reply, reprepare: Reply)

  /** Everything run_io asks of the outside world, in the order it asks. */
  datatype Device = Device(allocOk: bool, epollCreate: Reply, epollCtl: Reply, prepare: Reply, start: Reply, rounds: seq<Round>)

  /** The calls run_io issues after choosing a mode and allocating the buffer. */
  datatype Call = EpollCreate | EpollCtl(events: Word) | Prepare | Start | Wait
                | Transfer(cmd: Command, frames: U32) | CloseEpoll | Free

  /** Why run_io stopped. Pending: the device's script ran out while the loop still runs. */
  datatype Exit =
    | NoMode
    | NoPeriod(err: int)
    | EpollCreateFailed(errno: Errno)
    | EpollCtlFailed(errno: Errno)
    | PrepareFailed(errno: Errno)
    | StartFailed(errno: Errno)
    | WaitError(errno: Errno)
    | EventError
    | TransferError(errno: Errno)
    | Underrun
    | ReprepareFailed(errno: Errno)
    | Pending

  /** One pass of the loop: go round again after these calls, or leave with an exit. */
  datatype Step = Continue(calls: seq<Call>) | Stop(calls: seq<Call>, exit: Exit)

  /** One pass of the loop of run_io. */
  function RoundStep(cmd: Command, frames: U32, r: Round): Step
  {
    match r.wait
    case WaitFailed(e) => if e == EINTR then Continue([Wait]) else Stop([Wait], WaitError(e))
    case TimedOut => Continue([Wait])
    case Ready(events) =>
      if EPOLLERR in events then Stop([Wait], EventError)
      else
        var moved := [Wait, Transfer(cmd, frames)];
        match r.transfer
        case Done => Continue(moved)
        case Failed(e) =>
          if e == EINTR then Continue(moved)
          else if e == EPIPE then
            match r.reprepare
            case Done => Stop(moved + [Prepare], Underrun)
            case Failed(e2) => Stop(moved + [Prepare], ReprepareFailed(e2))
          else Stop(moved, TransferError(e))
  }

  /** Which passes go round again: a wait that was interrupted or timed out, a transfer that succeeded or was interrupted. */
  lemma RoundStepCalls(cmd: Command, frames: U32, r: Round)
    ensures RoundStep(cmd, frames, r).Continue? <==>
      r.wait == WaitFailed(EINTR) || r.wait == TimedOut ||
      (r.wait.Ready? && EPOLLERR !in r.wait.events && (r.transfer == Done || r.transfer == Failed(EINTR)))
    ensures RoundStep(cmd, frames, r).calls[0] == Wait
    ensures multiset(RoundStep(cmd, frames, r).calls)[Wait] == 1
    ensures forall c :: c in RoundStep(cmd, frames, r).calls ==> c == Wait || c == Transfer(cmd, frames) || c == Prepare
  {
  }

  /** A pass transfers when its wait saw an event without EPOLLERR. */
  predicate Transfers(r: Round)
  {
    r.wait.Ready? && EPOLLERR !in r.wait.events
  }

  /** A pass re-prepares when its transfer failed with EPIPE. */
  predicate Reprepares(r: Round)
  {
    Transfers(r) && r.transfer == Failed(EPIPE)
  }

  /**
   * The calls of one pass, exactly: the wait; then one transfer, only after
   * an event without EPOLLERR; then one PREPARE, only after that transfer
   * failed with EPIPE.
   */
  lemma RoundStepCallSequence(cmd: Command, frames: U32, r: Round)
    ensures RoundStep(cmd, frames, r).calls ==
      [Wait] + (if Transfers(r) then [Transfer(cmd, frames)] else []) + (if Reprepares(r) then [Prepare] else [])
  {
  }

  /** A pass transfers at most once, exactly when the wait saw an event without EPOLLERR, and re-prepares at most once, only after EPIPE. */
  lemma RoundStepTransfersOnce(cmd: Command, frames: U32, r: Round)
    ensures Transfer(cmd, frames) in RoundStep(cmd, frames, r).calls <==> Transfers(r)
    ensures Prepare in RoundStep(cmd, frames, r).calls <==> Reprepares(r)
    ensures multiset(RoundStep(cmd, frames, r).calls)[Transfer(cmd, frames)] <= 1
    ensures multiset(RoundStep(cmd, frames, r).calls)[Prepare] <= 1
  {
    RoundStepCallSequence(cmd, frames, r);
  }

  /** A pass that leaves the loop leaves it with one of the loop's own exits. */
  lemma RoundStepExit(cmd: Command, frames: U32, r: Round)
    ensures RoundStep(cmd, frames, r).Stop? ==> LoopExit(RoundStep(cmd, frames, r).exit)
  {
  }

  /** An EPIPE transfer issues exactly one PREPARE and the loop is left whether or not it succeeds. */
  lemma RoundStepUnderrun(cmd: Command, frames: U32, r: Round)
    requires r.wait.Ready? && EPOLLERR !in r.wait.events && r.transfer == Failed(EPIPE)
    ensures RoundStep(cmd, frames, r) ==
      Stop([Wait, Transfer(cmd, frames), Prepare], if r.reprepare.Done? then Underrun else ReprepareFailed(r.reprepare.errno))
  {
  }

  datatype LoopOutcome = LoopOutcome(calls: seq<Call>, exit: Exit)

  /**
   * The loop of run_io from pass `i` of the device's script on, after the
   * calls `done` of the passes before it, up to the first pass that leaves it.
   */
  function LoopFrom(cmd: Command, frames: U32, rounds: seq<Round>, i: nat, done: seq<Call>): LoopOutcome
    requires i <= |rounds|
    decreases |rounds| - i
  {
    if i == |rounds| then LoopOutcome(done, Pending)
    else
      match RoundStep(cmd, frames, rounds[i])
      case Continue(calls) => LoopFrom(cmd, frames, rounds, i + 1, done + calls)
      case Stop(calls, exit) => LoopOutcome(done + calls, exit)
  }

  /** The loop of run_io over the whole script. */
  function Loop(cmd: Command, frames: U32, rounds: seq<Round>): LoopOutcome
  {
    LoopFrom(cmd, frames, rounds, 0, [])
  }

  /** Only a pass that leaves the loop gives an exit other than Pending. */
  predicate LoopExit(e: Exit)
  {
    e.WaitError? || e.EventError? || e.TransferError? || e.Underrun? || e.ReprepareFailed?
  }

  /** The loop adds only waits, transfers and re-prepares, and never closes or frees anything. */
  lemma {:induction false} LoopCalls(cmd: Command, frames: U32, rounds: seq<Round>, i: nat, done: seq<Call>)
    requires i <= |rounds|
    ensures forall c :: c in LoopFrom(cmd, frames, rounds, i, done).calls ==>
      c in done || c == Wait || c == Transfer(cmd, frames) || c == Prepare
    ensures LoopFrom(cmd, frames, rounds, i, done).exit == Pending || LoopExit(LoopFrom(cmd, frames, rounds, i, done).exit)
    decreases |rounds| - i
  {
    if i < |rounds| {
      var step := RoundStep(cmd, frames, rounds[i]);
      RoundStepCalls(cmd, frames, rounds[i]);
      if step.Continue? {
        LoopCalls(cmd, frames, rounds, i + 1, done + step.calls);
      }
    }
  }

  /**
   * The loop is left at the first pass that leaves it, for that pass's
   * reason, after one wait per pass up to and including that one.
   */
  lemma {:induction false} LoopStopsAtFirstFatal(cmd: Command, frames: U32, rounds: seq<Round>, i: nat, done: seq<Call>, k: nat)
    requires i <= k < |rounds| && RoundStep(cmd, frames, rounds[k]).Stop?
    requires forall j :: i <= j < k ==> RoundStep(cmd, frames, rounds[j]).Continue?
    ensures LoopFrom(cmd, frames, rounds, i, done).exit == RoundStep(cmd, frames, rounds[k]).exit
    ensures multiset(LoopFrom(cmd, frames, rounds, i, done).calls)[Wait] == multiset(done)[Wait] + (k - i) + 1
    decreases k - i
  {
    var step := RoundStep(cmd, frames, rounds[i]);
    RoundStepCalls(cmd, frames, rounds[i]);
    assert multiset(done + step.calls) == multiset(done) + multiset(step.calls);
    if i < k {
      LoopStopsAtFirstFatal(cmd, frames, rounds, i + 1, done + step.calls, k);
    }
  }

  /** Without a pass that leaves it, the loop is still running when the script ends, after one wait per pass. */
  lemma {:induction false} LoopPending(cmd: Command, frames: U32, rounds: seq<Round>, i: nat, done: seq<Call>)
    requires i <= |rounds|
    requires forall j :: i <= j < |rounds| ==> RoundStep(cmd, frames, rounds[j]).Continue?
    ensures LoopFrom(cmd, frames, rounds, i, done).exit == Pending
    ensures multiset(LoopFrom(cmd, frames, rounds, i, done).calls)[Wait] == multiset(done)[Wait] + |rounds| - i
    decreases |rounds| - i
  {
    if i < |rounds| {
      var step := RoundStep(cmd, frames, rounds[i]);
      RoundStepCalls(cmd, frames, rounds[i]);
      assert multiset(done + step.calls) == multiset(done) + multiset(step.calls);
      LoopPending(cmd, frames, rounds, i + 1, done + step.calls);
    }
  }

  /** What run_io returns (None: it has not returned), the calls it made, and why it stopped. */
  datatype Outcome = Outcome(result: Option<int>, calls: seq<Call>, exit: Exit)

  /** The setup calls and the loop once the buffer is allocated, each failure jumping to its cleanup label. */
  function Session(mode: Mode, frames: U32, dev: Device): Outcome
  {
    if dev.epollCreate.Failed? then Outcome(Some(0), [EpollCreate, Free], EpollCreateFailed(dev.epollCreate.errno))
    else
      var setupCalls := [EpollCreate, EpollCtl(mode.events)];
      var cleanup := [CloseEpoll, Free];
      if dev.epollCtl.Failed? then Outcome(Some(0), setupCalls + cleanup, EpollCtlFailed(dev.epollCtl.errno))
      else if dev.prepare.Failed? then Outcome(Some(0), setupCalls + [Prepare] + cleanup, PrepareFailed(dev.prepare.errno))
      else if dev.start.Failed? then Outcome(Some(0), setupCalls + [Prepare, Start] + cleanup, StartFailed(dev.start.errno))
      else
        var loop := Loop(mode.cmd, frames, dev.rounds);
        if loop.exit == Pending then Outcome(None, setupCalls + [Prepare, Start] + loop.calls, Pending)
        else Outcome(Some(0), setupCalls + [Prepare, Start] + loop.calls + cleanup, loop.exit)
  }

  /** run_io as a function of the committed parameters, the stream direction and the device. */
  function RunIoSpec(s: Snapshot, stream: int, dev: Device): Outcome
  {
    match SelectTransfer(GetMask(s, PARAM_ACCESS), stream)
    case None => Outcome(Some(-ENXIO), [], NoMode)
    case Some(mode) =>
      match PeriodOf(s)
      case None => Outcome(Some(-ENXIO), [], NoPeriod(-ENXIO))
      case Some(period) =>
        if !dev.allocOk then Outcome(Some(-ENOMEM), [], NoPeriod(-ENOMEM))
        else Session(mode, period.frames, dev)
  }

  /** The buffer was allocated: run_io got past keep_one_period. */
  predicate Allocated(e: Exit)
  {
    !e.NoMode? && !e.NoPeriod?
  }

  /**
   * `calls` ends with the release calls `tail`, and neither the epoll
   * instance nor the buffer was released before them.
   */
  predicate ReleasedAtEnd(calls: seq<Call>, tail: seq<Call>)
  {
    |tail| <= |calls| && calls[|calls| - |tail|..] == tail &&
    Free !in calls[..|calls| - |tail|] && CloseEpoll !in calls[..|calls| - |tail|]
  }

  /** Appending `tail` to calls that release nothing releases exactly once, at the end. */
  lemma ReleasedAtEndAppend(head: seq<Call>, tail: seq<Call>)
    requires Free !in head && CloseEpoll !in head
    ensures ReleasedAtEnd(head + tail, tail)
  {
    assert (head + tail)[..|head|] == head;
    assert (head + tail)[|head|..] == tail;
  }

  /**
   * Once the buffer is allocated, run_io returns 0 on every path it leaves
   * by. It closes the epoll instance (if it was created) and then frees the
   * buffer, as its last calls and only there; while the loop still runs
   * neither has happened.
   */
  lemma SessionCleanup(mode: Mode, frames: U32, dev: Device)
    ensures var o := Session(mode, frames, dev);
      Allocated(o.exit) &&
      (o.result == None <==> o.exit == Pending) &&
      (o.exit != Pending ==> o.result == Some(0)) &&
      (o.exit == Pending ==> Free !in o.calls && CloseEpoll !in o.calls) &&
      (o.exit.EpollCreateFailed? ==> ReleasedAtEnd(o.calls, [Free])) &&
      (o.exit != Pending && !o.exit.EpollCreateFailed? ==> ReleasedAtEnd(o.calls, [CloseEpoll, Free]))
  {
    var setupCalls := [EpollCreate, EpollCtl(mode.events)];
    if dev.epollCreate.Failed? {
      ReleasedAtEndAppend([EpollCreate], [Free]);
    } else if dev.epollCtl.Failed? {
      ReleasedAtEndAppend(setupCalls, [CloseEpoll, Free]);
    } else if dev.prepare.Failed? {
      ReleasedAtEndAppend(setupCalls + [Prepare], [CloseEpoll, Free]);
    } else if dev.start.Failed? {
      ReleasedAtEndAppend(setupCalls + [Prepare, Start], [CloseEpoll, Free]);
    } else {
      var loop := Loop(mode.cmd, frames, dev.rounds);
      LoopCalls(mode.cmd, frames, dev.rounds, 0, []);
      var head := setupCalls + [Prepare, Start] + loop.calls;
      assert Free !in head && CloseEpoll !in head;
      if loop.exit != Pending {
        ReleasedAtEndAppend(head, [CloseEpoll, Free]);
      }
    }
  }

  /**
   * run_io returns -ENXIO when it cannot choose a mode, and keep_one_period's
   * error when it cannot size the period (-ENXIO) or allocate it (-ENOMEM),
   * all before any other call; on every other path the cleanup facts of
   * SessionCleanup hold.
   */
  lemma RunIoCleanup(s: Snapshot, stream: int, dev: Device)
    ensures var o := RunIoSpec(s, stream, dev);
      (o.exit == NoMode <==> SelectTransfer(GetMask(s, PARAM_ACCESS), stream) == None) &&
      (o.exit == NoMode ==> o.result == Some(-ENXIO)) &&
      (!Allocated(o.exit) ==> o.calls == [] && o.result.Some? && o.result.value in {-ENXIO, -ENOMEM}) &&
      (o.exit.NoPeriod? ==> o.result == Some(o.exit.err)) &&
      (o.exit == NoPeriod(-ENXIO) <==> SelectTransfer(GetMask(s, PARAM_ACCESS), stream).Some? && PeriodOf(s).None?) &&
      (o.exit == NoPeriod(-ENOMEM) <==>
        SelectTransfer(GetMask(s, PARAM_ACCESS), stream).Some? && PeriodOf(s).Some? && !dev.allocOk) &&
      (Allocated(o.exit) && o.exit != Pending ==> o.result == Some(0)) &&
      (o.result == None <==> o.exit == Pending) &&
      (o.exit == Pending ==> Free !in o.calls && CloseEpoll !in o.calls) &&
      (o.exit.EpollCreateFailed? ==> ReleasedAtEnd(o.calls, [Free])) &&
      (Allocated(o.exit) && o.exit != Pending && !o.exit.EpollCreateFailed? ==> ReleasedAtEnd(o.calls, [CloseEpoll, Free]))
  {
    var mode := SelectTransfer(GetMask(s, PARAM_ACCESS), stream);
    var period := PeriodOf(s);
    if mode.Some? && period.Some? && dev.allocOk {
      SessionCleanup(mode.value, period.value.frames, dev);
    }
  }

  /**
   * Once set up, run_io leaves at the first pass of the loop that leaves it,
   * for that pass's reason, returning 0.
   */
  lemma SessionStopsAtFirstFatal(mode: Mode, frames: U32, dev: Device, k: nat)
    requires dev.epollCreate.Done? && dev.epollCtl.Done? && dev.prepare.Done? && dev.start.Done?
    requires k < |dev.rounds| && RoundStep(mode.cmd, frames, dev.rounds[k]).Stop?
    requires forall j :: 0 <= j < k ==> RoundStep(mode.cmd, frames, dev.rounds[j]).Continue?
    ensures Session(mode, frames, dev).exit == RoundStep(mode.cmd, frames, dev.rounds[k]).exit
    ensures Session(mode, frames, dev).result == Some(0)
  {
    LoopStopsAtFirstFatal(mode.cmd, frames, dev.rounds, 0, [], k);
    RoundStepExit(mode.cmd, frames, dev.rounds[k]);
    assert Loop(mode.cmd, frames, dev.rounds).exit != Pending;
  }

  /** Up to the first pass that leaves the loop, run_io waits once per pass and nowhere else. */
  lemma SessionWaitsUpToFirstFatal(mode: Mode, frames: U32, dev: Device, k: nat)
    requires dev.epollCreate.Done? && dev.epollCtl.Done? && dev.prepare.Done? && dev.start.Done?
    requires k < |dev.rounds| && RoundStep(mode.cmd, frames, dev.rounds[k]).Stop?
    requires forall j :: 0 <= j < k ==> RoundStep(mode.cmd, frames, dev.rounds[j]).Continue?
    ensures multiset(Session(mode, frames, dev).calls)[Wait] == k + 1
  {
    LoopStopsAtFirstFatal(mode.cmd, frames, dev.rounds, 0, [], k);
    RoundStepExit(mode.cmd, frames, dev.rounds[k]);
    var loop := Loop(mode.cmd, frames, dev.rounds);
    assert loop.exit != Pending;
    var head := [EpollCreate, EpollCtl(mode.events)] + [Prepare, Start];
    assert Session(mode, frames, dev).calls == head + loop.calls + [CloseEpoll, Free];
    assert multiset(head)[Wait] == 0;
    assert multiset([CloseEpoll, Free])[Wait] == 0;
    assert multiset(head + loop.calls + [CloseEpoll, Free]) == multiset(head) + multiset(loop.calls) + multiset([CloseEpoll, Free]);
  }

  /**
   * Once set up, if no pass of the script leaves the loop, run_io has not
   * returned when the script ends, after one wait per pass.
   */
  lemma SessionPending(mode: Mode, frames: U32, dev: Device)
    requires dev.epollCreate.Done? && dev.epollCtl.Done? && dev.prepare.Done? && dev.start.Done?
    requires forall j :: 0 <= j < |dev.rounds| ==> RoundStep(mode.cmd, frames, dev.rounds[j]).Continue?
    ensures Session(mode, frames, dev).exit == Pending && Session(mode, frames, dev).result == None
    ensures multiset(Session(mode, frames, dev).calls)[Wait] == |dev.rounds|
  {
    LoopPending(mode.cmd, frames, dev.rounds, 0, []);
    var loop := Loop(mode.cmd, frames, dev.rounds);
    var head := [EpollCreate, EpollCtl(mode.events)] + [Prepare, Start];
    assert multiset(head)[Wait] == 0;
    assert multiset(head + loop.calls) == multiset(head) + multiset(loop.calls);
  }

  /**
   * The `while (1)` loop of run_io over the device's script: wait, look at
   * the event, transfer, and on EPIPE re-prepare, until a pass leaves the
   * loop (exit other than Pending) or the script ends (Pending).
   */
  method WaitAndTransfer(cmd: Command, frames: U32, rounds: seq<Round>) returns (calls: seq<Call>, exit: Exit)
    ensures LoopOutcome(calls, exit) == Loop(cmd, frames, rounds)
  {
    calls, exit := [], Pending;
    var i := 0;
    while i < |rounds|
      invariant 0 <= i <= |rounds| && exit == Pending
      invariant Loop(cmd, frames, rounds) == LoopFrom(cmd, frames, rounds, i, calls)
    {
      var r := rounds[i];
      ghost var before := calls;
      i := i + 1;
      calls := calls + [Wait];
      if r.wait.WaitFailed? {
        if r.wait.errno == EINTR {
          continue;
        }
        exit := WaitError(r.wait.errno);
        break;
      }
      if r.wait.TimedOut? {
        continue;
      }
      if EPOLLERR in r.wait.events {
        exit := EventError;
        break;
      }
      calls := calls + [Transfer(cmd, frames)];
      assert calls == before + [Wait, Transfer(cmd, frames)];
      if r.transfer.Failed? {
        if r.transfer.errno == EINTR {
          continue;
        }
        if r.transfer.errno == EPIPE {
          calls := calls + [Prepare];
          assert calls == before + ([Wait, Transfer(cmd, frames)] + [Prepare]);
          if r.reprepare.Failed? {
            exit := ReprepareFailed(r.reprepare.errno);
            break;
          }
          exit := Underrun;
          break;
        }
        exit := TransferError(r.transfer.errno);
        break;
      }
    }
  }

  /**
   * run_io: choose the transfer mode, size the period, open epoll, prepare
   * and start the substream, then wait and transfer until a pass leaves the
   * loop, and release what was acquired.
   */
  method RunIo(s: Snapshot, stream: int, dev: Device) returns (result: Option<int>, calls: seq<Call>, exit: Exit)
    ensures Outcome(result, calls, exit) == RunIoSpec(s, stream, dev)
  {
    var access := GetMask(s, PARAM_ACCESS);
    var cmd: Command;
    var events: Word;
    if CheckMask(access, ACCESS_RW_INTERLEAVED) {
      if stream == STREAM_PLAYBACK {
        cmd, events := WriteI, {EPOLLOUT};
      } else {
        cmd, events := ReadI, {EPOLLIN};
      }
    } else if CheckMask(access, ACCESS_RW_NONINTERLEAVED) {
      if stream == STREAM_PLAYBACK {
        cmd, events := WriteN, {EPOLLOUT};
      } else {
        cmd, events := ReadN, {EPOLLIN};
      }
    } else {
      return Some(-ENXIO), [], NoMode;
    }

    ghost var mode := Mode(cmd, events);
    assert SelectTransfer(access, stream) == Some(mode);
    var err, buf, frames := KeepOnePeriod(s, dev.allocOk);
    if err < 0 {
      return Some(err), [], NoPeriod(err);
    }

    assert RunIoSpec(s, stream, dev) == Session(mode, frames, dev);
    calls := [EpollCreate];
    if dev.epollCreate.Failed? {
      calls := calls + [Free];
      return Some(0), calls, EpollCreateFailed(dev.epollCreate.errno);
    }

    calls := calls + [EpollCtl(events)];
    exit := Pending;
    if dev.epollCtl.Failed? {
      exit := EpollCtlFailed(dev.epollCtl.errno);
    } else {
      calls := calls + [Prepare];
      assert calls == [EpollCreate, EpollCtl(events)] + [Prepare];
      if dev.prepare.Failed? {
        exit := PrepareFailed(dev.prepare.errno);
      } else {
        calls := calls + [Start];
        assert calls == [EpollCreate, EpollCtl(events)] + [Prepare, Start];
        if dev.start.Failed? {
          exit := StartFailed(dev.start.errno);
        } else {
          var loopCalls;
          loopCalls, exit := WaitAndTransfer(cmd, frames, dev.rounds);
          calls := calls + loopCalls;
        }
      }
    }

    if exit == Pending {
      result := None;
    } else {
      calls := calls + [CloseEpoll, Free];
      result := Some(0);
    }
  }
}
