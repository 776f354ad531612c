# ALSA userspace probes: hardware-parameter negotiation, capability dump and control-element listing

This project models, in Dafny, the logic of three small programs that talk
to the Linux sound subsystem through its ioctl interface:

- **pcm-simple-rw.c** negotiates the hardware parameters of a PCM
  substream and then transfers one period at a time. It resets
  `struct snd_pcm_hw_params` to "everything permitted", has the device
  refine it, and narrows the access mask to the two read/write modes
  before committing. It derives the sample width and the period buffer
  from the committed set. It then runs an epoll-driven wait/transfer loop
  with re-prepare on underrun and cleanup through `goto` labels.
- **refine-pcm-params.c** initializes the same structure and has the
  device refine it once. It then decodes the result: changed parameters,
  mask enumerants, intervals, flags, capability bits, msbits and rate.
- **ctl-elems.c** fetches the ids of every control element in batches of
  at most 1000, then dumps each element until one dump returns a
  negative value.

The modules follow the programs:

| module | file | contents |
|---|---|---|
| `Asound` | `asound.dfy` | UAPI constants of `sound/asound.h`, errno and epoll values; 32-bit flag words as sets of bit positions |
| `Indices` | `indices.dfy` | "reports exactly these indices, ascending" (`Enumerates`) and its uniqueness |
| `HwParams` | `hw_params.dfy` | the parameter structure (`Snapshot` value, `Params` object), slot arithmetic, both bit layouts, `initialize_hw_params`, `set_mask` |
| `PcmSimpleRw` | `pcm_simple_rw.dfy` | `set_params`, `keep_one_period`, `run_io` and its loop |
| `RefinePcmParams` | `refine_pcm_params.dfy` | `dump_mask_param`, `dump_interval_param`, the scans of `dump_pcm_caps`, `dump_pcm_caps` |
| `CtlElems` | `ctl_elems.dfy` | `allocate_elem_ids`, `dump_elem`, `dump_elems` |

The kernel is never modelled; its answers are parameters of each method:

- HW_REFINE and HW_PARAMS are total functions from the structure sent to
  an `Answer`.
- `run_io` takes a `Device` record. It holds the calloc, epoll_create1,
  epoll_ctl, PREPARE and START outcomes, plus a finite script of loop
  passes.
- ELEM_LIST and ELEM_INFO answers are passed in the same way.

The methods are proved against specification functions. `RunIo` matches
`RunIoSpec`, `WaitAndTransfer` matches `Loop`, `KeepOnePeriod` matches
`PeriodOf` and `AllocateElemIds` matches `AllocateSpec`. The lemmas state
what the programs promise about those functions.

Both programs that negotiate have the same `get_*` helpers and the same
`initialize_hw_params`: pcm-simple-rw.c:23-54 and 76-98, and
refine-pcm-params.c:189-220 and 272-295. `HwParams` models them once.
The table below cites the first copy.

Behaviours of the code that the model keeps as written:

- `check_mask` and `set_mask` use 16 bits per 32-bit word (pcm-simple-rw.c:60-61, 70-71).
  `dump_mask_param` uses 32 (refine-pcm-params.c:239-240). The two agree only below 16.
- On EPIPE, `run_io` re-prepares and then leaves the loop whether or not
  the re-prepare succeeded (pcm-simple-rw.c:282-292). After a successful
  re-prepare nothing goes back to the wait; the model follows the code
  and ends with exit `Underrun`.
- `run_io` returns 0 on every path through its cleanup labels, errors
  included (pcm-simple-rw.c:295-299).
- Two failure paths return a positive errno where the others return a
  negative one. A refused ELEM_LIST batch makes `allocate_elem_ids` return
  one (ctl-elems.c:215-219). A failed item query in `dump_enumerated_elem`
  returns one (ctl-elems.c:96-97), and `dump_elem` passes it on
  (ctl-elems.c:163-168). `dump_elems` stops only on a negative result, so
  it does not stop on the second.
- `dump_elem` returns -EIO for a negative type too (ctl-elems.c:136-138).
  The `int` type is compared against a `size_t`.
- `dump_elems` with no element returns an uninitialised value
  (ctl-elems.c:171-183). The model gives `None`.

## Model

| member | source | states |
|---|---|---|
| HwParams.GetMask | pcm-simple-rw.c:23-27 | the mask of a parameter; MaskSlot and SlotsRoundTrip say which entry it reads |
| HwParams.GetInterval | pcm-simple-rw.c:29-33 | the interval of a parameter; IntervalSlot and SlotsRoundTrip say which entry it reads |
| HwParams.CheckMask | pcm-simple-rw.c:56-64 | check_mask's bit test; CheckMaskAgreesBelow16 and CheckMaskDisagreesFrom16 relate it to the 32-bit layout |
| HwParams.WithMaskBit | pcm-simple-rw.c:66-74 | the mask set_mask leaves; WithMaskBitOnlyThatBit states that exactly one bit is added |
| HwParams.MaskSlot | pcm-simple-rw.c:23-27 | get_mask maps every mask identifier to a position inside the three-entry mask array |
| HwParams.IntervalSlot | pcm-simple-rw.c:29-33 | get_interval maps every interval identifier to a position inside the twelve-entry interval array |
| HwParams.MaskIndex | pcm-simple-rw.c:46-49 | get_mask_index of a position is a mask identifier whose position is that position again |
| HwParams.IntervalIndex | pcm-simple-rw.c:51-54 | get_interval_index of a position is an interval identifier whose position is that position again |
| HwParams.SlotsRoundTrip | pcm-simple-rw.c:35-54 | the counts are 3 and 12, and identifier → position → identifier is the identity on both ranges |
| HwParams.WithMaskBitOnlyThatBit | pcm-simple-rw.c:66-74 | after set_mask check_mask holds for that index, and every other bit of every word keeps its value |
| HwParams.CheckMaskAgreesBelow16 | pcm-simple-rw.c:56-64 | below 16 the 16-bit-per-word layout of check_mask and the true 32-bit layout address the same bit |
| HwParams.CheckMaskDisagreesFrom16 | pcm-simple-rw.c:60-61 | for every enumerant from 16 to 127 the layouts differ, in both directions: a mask holding it in the 32-bit layout that check_mask reads as empty, and a mask set by the 16-bit layout that the 32-bit layout reads as empty |
| HwParams.FullMaskPermitsAll | pcm-simple-rw.c:81 | an all-ones mask permits every enumerant under both layouts |
| HwParams.Params.constructor | pcm-simple-rw.c:307 | a new structure is the zero structure |
| HwParams.Params.Load | pcm-simple-rw.c:106 | an ioctl that copies the structure back leaves exactly the copied value |
| HwParams.InitializedMasksFull | pcm-simple-rw.c:80-83 | after initialization every mask word is all-ones, so every enumerant is permitted under both layouts |
| HwParams.InitializedIntervalsUnbounded | pcm-simple-rw.c:85-94 | after initialization every interval is the closed range [0, UINT_MAX] with openmin, openmax, integer and empty clear |
| HwParams.InitializedRequestsAll | pcm-simple-rw.c:76-98 | rmask gains exactly the bits 0..2 and 8..19 on top of the old ones; cmask and info are 0; flags, msbits and rate are untouched |
| HwParams.InitializeHwParams | pcm-simple-rw.c:76-98 | the two loops leave the structure equal to `Initialized` of the old one |
| HwParams.SetMask | pcm-simple-rw.c:66-74 | only word index/16 of the chosen mask changes, gaining bit index%16; every other field is unchanged |
| PcmSimpleRw.NarrowAccessExact | pcm-simple-rw.c:116-118 | after the memset and the two set_mask calls exactly RW_INTERLEAVED and RW_NONINTERLEAVED are permitted, under both layouts; nothing else in the structure changes |
| PcmSimpleRw.SetParams | pcm-simple-rw.c:100-126 | a refused refine returns minus its errno; without a read/write access mode it returns -ENXIO and never commits; otherwise the narrowed structure is committed and the result is 0 or minus the commit's errno |
| PcmSimpleRw.SampleWidth | pcm-simple-rw.c:138-157 | keep_one_period's format chain; SampleWidthOfLowestFormat states which width it picks |
| PcmSimpleRw.SampleWidthOfLowestFormat | pcm-simple-rw.c:138-157 | the first-match chain yields the width (1, 2 or 4) of the lowest permitted format code below FLOAT_LE, and no width exactly when none is permitted |
| PcmSimpleRw.SampleWidthExamples | pcm-simple-rw.c:139-157 | U8 together with S16_LE gives one byte; FLOAT_LE alone gives no width |
| PcmSimpleRw.ElementCount | pcm-simple-rw.c:171-172 | calloc's element count, computed in 32-bit unsigned arithmetic, is the exact product whenever that fits in 32 bits |
| PcmSimpleRw.PeriodOfMeaning | pcm-simple-rw.c:128-180 | a period exists iff a width is found and the channels and period-size intervals are closed at min, integer and non-empty; its frames are the period-size minimum and its element count the product when it fits |
| PcmSimpleRw.KeepOnePeriod | pcm-simple-rw.c:128-180 | -ENXIO when no period exists, -ENOMEM when calloc fails, otherwise 0 with the buffer sized and frames set; out-parameters stay zero on failure |
| PcmSimpleRw.SelectTransfer | pcm-simple-rw.c:202-225 | run_io's choice of transfer ioctl and poll events; SelectTransferChoice states the choice |
| PcmSimpleRw.SelectTransferChoice | pcm-simple-rw.c:202-225 | no mode iff neither read/write bit is set; interleaved is preferred; playback writes and waits for EPOLLOUT, any other stream reads and waits for EPOLLIN |
| PcmSimpleRw.RoundStep | pcm-simple-rw.c:258-294 | one pass of the loop; RoundStepCalls and RoundStepExit state when it continues and how it leaves, RoundStepCallSequence and RoundStepTransfersOnce which calls it makes, RoundStepUnderrun the EPIPE path |
| PcmSimpleRw.RoundStepCalls | pcm-simple-rw.c:258-294 | a pass goes round again iff the wait was interrupted or timed out, or the transfer succeeded or was interrupted; each pass waits exactly once, first, and issues only waits, transfers and re-prepares |
| PcmSimpleRw.RoundStepCallSequence | pcm-simple-rw.c:258-294 | the calls of a pass are exactly the wait, then the transfer when the wait saw an event without EPOLLERR, then PREPARE when that transfer failed with EPIPE |
| PcmSimpleRw.RoundStepTransfersOnce | pcm-simple-rw.c:264-292 | a pass transfers iff its wait saw an event without EPOLLERR and re-prepares iff the transfer failed with EPIPE, each at most once |
| PcmSimpleRw.RoundStepExit | pcm-simple-rw.c:258-294 | a pass that leaves the loop leaves it with a wait error, EPOLLERR, a transfer error, an underrun or a failed re-prepare |
| PcmSimpleRw.RoundStepUnderrun | pcm-simple-rw.c:282-292 | an EPIPE transfer issues exactly one PREPARE and then leaves the loop, whether or not PREPARE succeeded |
| PcmSimpleRw.LoopCalls | pcm-simple-rw.c:258-294 | the loop never closes epoll or frees the buffer, and ends either with a loop exit or still running |
| PcmSimpleRw.LoopStopsAtFirstFatal | pcm-simple-rw.c:258-294 | the loop leaves at the first pass that leaves it, for that pass's reason, after exactly one wait per pass up to it |
| PcmSimpleRw.LoopPending | pcm-simple-rw.c:258 | without a leaving pass the loop is still running when the script ends, after one wait per pass |
| PcmSimpleRw.SessionCleanup | pcm-simple-rw.c:233-299 | once the buffer exists every return is 0; the buffer is freed (after closing epoll when it was created) as the last calls and only there; while running neither happened |
| PcmSimpleRw.RunIoCleanup | pcm-simple-rw.c:182-299 | no mode iff neither read/write bit, and then -ENXIO; no period gives -ENXIO, a failed calloc -ENOMEM; all three before any call; on all other paths the cleanup facts hold |
| PcmSimpleRw.SessionStopsAtFirstFatal | pcm-simple-rw.c:252-299 | after a successful setup run_io returns 0 at the first leaving pass, for that pass's reason |
| PcmSimpleRw.SessionWaitsUpToFirstFatal | pcm-simple-rw.c:258-299 | after a successful setup run_io waits exactly once per pass up to and including the first leaving pass, and nowhere else |
| PcmSimpleRw.SessionPending | pcm-simple-rw.c:258-294 | after a successful setup with no leaving pass run_io has not returned when the script ends |
| PcmSimpleRw.WaitAndTransfer | pcm-simple-rw.c:258-294 | the loop's calls and exit are those of the specification `Loop` |
| PcmSimpleRw.RunIo | pcm-simple-rw.c:182-300 | result, calls and exit are those of the specification `RunIoSpec` |
| RefinePcmParams.DumpMaskParam | refine-pcm-params.c:222-247 | nothing iff the type is not a mask parameter with a label; otherwise exactly the indices below the label count (and 256) whose bit idx%32 of word idx/32 is set and whose label exists, ascending |
| RefinePcmParams.FormatHolesNeverReported | refine-pcm-params.c:96 | the unlabelled format codes 25..30 are never reported |
| RefinePcmParams.FormatReportComplete | refine-pcm-params.c:238-246 | every labelled format below 53 whose bit is set is reported, including those in the second word |
| RefinePcmParams.ReadInterval | refine-pcm-params.c:261-269 | a line that reads back keeps the printed bounds |
| RefinePcmParams.DumpIntervalParam | refine-pcm-params.c:249-270 | nothing iff the type is not an interval parameter; otherwise a line that reads back as exactly the interval |
| RefinePcmParams.IntervalText | refine-pcm-params.c:261-269 | the printed form of an interval; IntervalTextReadsBack, IntervalTextShowsFlags and IntervalTextInjective state what it shows |
| RefinePcmParams.IntervalTextReadsBack | refine-pcm-params.c:261-269 | reading back the printed line of any interval gives that interval |
| RefinePcmParams.IntervalTextShowsFlags | refine-pcm-params.c:261-267 | '(' iff openmin, else '['; ')' iff openmax, else ']'; the integer marker iff integer; the empty marker iff empty |
| RefinePcmParams.IntervalTextInjective | refine-pcm-params.c:261-269 | two intervals print the same line only when they are equal |
| RefinePcmParams.ReadIntervalOnlyPrinted | refine-pcm-params.c:261-269 | every line that reads back is the line its interval prints |
| RefinePcmParams.DumpedIntervalsAllButPeriodBytes | refine-pcm-params.c:325-335 | exactly the interval parameters other than PERIOD_BYTES are dumped, in ascending order |
| RefinePcmParams.ChangedParams | refine-pcm-params.c:311-314 | exactly the indices below 20 whose cmask bit is set, ascending |
| RefinePcmParams.InfoLabels | refine-pcm-params.c:346-349 | exactly the indices of the 22 capability entries that share a bit with info, ascending |
| RefinePcmParams.WallClockAndLinkAtimeTogether | refine-pcm-params.c:175-177 | has-wall-clock and has-link-atime are the same bit, so those two labels are printed together, exactly when bit 24 is set |
| RefinePcmParams.FlagLabels | refine-pcm-params.c:337-343 | nothing iff flags is zero; otherwise exactly the indices below 3 whose bit is set |
| RefinePcmParams.FlagsHeadingWithoutLabels | refine-pcm-params.c:337-343 | a flags word whose bits all lie at 3 or above gets no label (the heading is still printed when it is non-zero) |
| RefinePcmParams.MsbitsLine | refine-pcm-params.c:351-352 | msbits is printed iff it is positive, with its value |
| RefinePcmParams.RateLines | refine-pcm-params.c:354-357 | rate_num and rate_den are printed iff both are positive, with their values |
| RefinePcmParams.DecodeCaps | refine-pcm-params.c:309-357 | the report describes the refined structure field by field (`Describes`) |
| RefinePcmParams.DumpPcmCaps | refine-pcm-params.c:297-360 | a refused refine of the initialized zero structure returns minus its errno with nothing decoded; an accepted one returns 0 and a report that describes the refined structure |
| CtlElems.ElemList.constructor | ctl-elems.c:261 | a new list is the zero list with pids NULL |
| CtlElems.BatchSpace | ctl-elems.c:208-211 | each batch asks for 1 to 1000 ids and never past count; it is 1000 unless it reaches count |
| CtlElems.BatchesFromPartition | ctl-elems.c:202-222 | the batches partition [offset, count) in order: first at offset, each starting where the previous ended, the last ending at count, ceil((count-offset)/1000) of them; each batch's pids is the buffer at its own offset |
| CtlElems.BatchesCover | ctl-elems.c:202-222 | every id index below count lies in some batch |
| CtlElems.RunBatches | ctl-elems.c:202-227 | the batch loop of allocate_elem_ids; RunBatchesSucceeds, RunBatchesStopsAt and RunBatchesEnds state how it ends |
| CtlElems.AllocateSpec | ctl-elems.c:185-228 | allocate_elem_ids as a function; AllocateEarlyReturns, AllocateSucceeds and AllocateStopsAtFailedBatch state its outcomes |
| CtlElems.RunBatchesSucceeds | ctl-elems.c:203-227 | with every batch answered, all batches are requested and the list ends with offset = space = count and pids at the buffer start |
| CtlElems.RunBatchesStopsAt | ctl-elems.c:215-219 | the first refused batch ends the loop with its errno, the buffer freed, pids NULL, and the batches up to it requested |
| CtlElems.RunBatchesEnds | ctl-elems.c:202-227 | the batch loop ends either with a positive errno, the buffer freed and pids NULL, or with result 0, the whole buffer owned and pids at its start |
| CtlElems.AllocateEarlyReturns | ctl-elems.c:190-200 | a failed first ELEM_LIST returns minus errno; count 0 returns 0 with no buffer and no batch; a failed calloc returns -ENOMEM |
| CtlElems.AllocateSucceeds | ctl-elems.c:202-227 | when every batch is answered the result is 0, every batch was requested with pids at its own offset into the buffer, and pids is at the buffer start with space and offset equal to count afterwards |
| CtlElems.AllocateStopsAtFailedBatch | ctl-elems.c:215-219 | a refused batch returns its errno, which is positive; the buffer is freed, pids is NULL, and the batches up to that one were requested |
| CtlElems.AllocateElemIds | ctl-elems.c:185-228 | result, requested batches (each with the list's pids at the time of the request), final list state and buffer state are those of the specification `AllocateSpec` |
| CtlElems.RefusedBatchPassesMainCheck | ctl-elems.c:215-286 | one element whose batch is refused with EIO gives a result that main's `err < 0` test lets through, with no ids fetched |
| CtlElems.IntendedAllocateSpec | ctl-elems.c:185-228 | allocate_elem_ids with a refused batch returning minus its errno; IntendedMainCheckSound states what main may then rely on |
| CtlElems.IntendedMainCheckSound | ctl-elems.c:277-286 | with the intended result, it is never positive, 0 means the ids are ready for dump_elems, and a failure leaves no buffer owned |
| CtlElems.DumperResult | ctl-elems.c:76-104 | what a type's dumper returns; ElemResultCases states its cases |
| CtlElems.ElemResult | ctl-elems.c:115-169 | what dump_elem returns; ElemResultCases states its cases |
| CtlElems.DumperTable | ctl-elems.c:117-125 | the dumper table has 7 entries, and only INTEGER, ENUMERATED and INTEGER64 have a dumper |
| CtlElems.ElemResultCases | ctl-elems.c:115-169 | negative iff ELEM_INFO fails (minus errno) or the type is outside 0..6 (-EIO); positive iff an enumerated element's item query fails; otherwise 0 |
| CtlElems.DumpElem | ctl-elems.c:115-169 | returns `ElemResult`; reports iff the info was read and the type is in range; the access labels are exactly the flags that share a bit with access, ascending; a type-dependent part iff the type has a dumper |
| CtlElems.AccessLabelBits | ctl-elems.c:150-153 | access label i is printed iff its single flag bit is set |
| CtlElems.DumpElemsFrom | ctl-elems.c:171-183 | the dump_elems loop as a function; DumpElemsStopsAtFirstNegative and DumpElemsDumpsAll state where it stops |
| CtlElems.DumpElemsStopsAtFirstNegative | ctl-elems.c:176-180 | the first negative result is returned and no later element is dumped |
| CtlElems.DumpElemsDumpsAll | ctl-elems.c:176-182 | without a negative result every element is dumped and the last result is returned; positive errnos do not stop the loop |
| CtlElems.DumpElems | ctl-elems.c:171-183 | the result and the number of elements dumped are those of the specification `DumpElemsFrom` |

## Left out

- All printing is left out: label text, `printf`/`strerror` output, and the element id, iface, name, count, owner and dimension lines. Decoders report label indices, interval lines as bracket/bound/marker values, and scalar lines as values.
- `main` of each program is left out: argument handling, `open`/`close`, and the order in which it calls the modelled functions. The one exception is the test of allocate_elem_ids's result in ctl-elems.c, which the finding below states.
- `deallocate_elem_ids` (ctl-elems.c:230-234) is left out. It is one conditional `free`, and the model keeps no heap.
- `dump_pcm_info` in refine-pcm-params.c and `dump_card_info` in ctl-elems.c are left out. Each is one ioctl followed by printing.
- The kernel's side of every ioctl is an input. This covers refine and commit constraint solving, PREPARE, START, epoll, the transfer ioctls and ELEM_LIST/ELEM_INFO. Each outcome is a parameter, not a model of ALSA internals.
- PcmSimpleRw.RunIo: the real `while (1)` loop runs forever. The model runs a finite script of passes and ends with exit `Pending` (result None) when the script runs out.
- PcmSimpleRw.KeepOnePeriod: the `sizeof(*buf)` multiplier of calloc is left out. The element count is bytes per sample times channels times frames, in 32-bit arithmetic.
- PcmSimpleRw.RunIo: the buffer contents and the union layout of the transfer argument are not modelled. Only the calls and their order are.
- CtlElems.AllocateElemIds: the ids the kernel writes into the buffer, the `used` field, and any change of `count` by the batch calls are not modelled. Every batch answer is accepted or refused as a whole.
- CtlElems.DumpElem: the item re-query loop of the enumerated dumper (ctl-elems.c:93-100) is left out. Its outcome is one input: every query succeeds (0), or the first failure's errno is returned.
- refine-pcm-params.c selects some table entries by kernel version (`LINUX_VERSION_CODE`). The model uses the full tables, for kernels from 4.1 on.
- Flag words are sets of bit positions, not 32-bit integers. The out-of-range shift `1 << 31` of the source is therefore not modelled.
- Mask and interval arrays, the list fields and the loop accumulators are sequence values that the methods reassign, not C arrays updated in place. Aliasing between `pids` and the id buffer is modelled as an offset into a buffer that is owned or released.

## Findings

| source | as written | input that shows it | evidently intended | confidence | as-written member | corrected member |
|---|---|---|---|---|---|---|
| ctl-elems.c:215-219, 277-281 | a refused ELEM_LIST batch returns `errno`, which is positive, and main treats only `err < 0` as failure, so it goes on to dump_elems with the buffer freed and pids NULL | one element, its batch refused with EIO: the result is 5 | return `-errno`, like the other failures at ctl-elems.c:191 and 200 | not executed | CtlElems.RefusedBatchPassesMainCheck | CtlElems.IntendedAllocateSpec |

AllocateElemIds keeps the code as written, because it models that one function. IntendedAllocateSpec states the corrected result, and IntendedMainCheckSound proves what main's test then guarantees.
