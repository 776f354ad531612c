/**
 * The control-element lister: fetch the ids of every element of a control
 * device in batches of at most 1000, then dump each element's information
 * until one of them fails. The device's answers to ELEM_LIST and
 * ELEM_INFO are parameters.
 */
module CtlElems {
  import opened Asound
  import opened Indices

  // ---------------------------------------------------------------------------
  // allocate_elem_ids

  /** Where the list's pids field refers: nowhere, or at entry `offset` of the id buffer. */
  datatype Pids = Null | IdsAt(offset: nat)

  /** The id buffer of the lister: never allocated, owned by the list, or freed again. */
  datatype Buffer = NoBuffer | Owned(entries: nat) | Released

  /** The fields of struct snd_ctl_elem_list the lister reads and writes. */
  datatype ListState = ListState(count: U32, offset: nat, space: nat, pids: Pids)

  /** struct snd_ctl_elem_list. */
  class ElemList {
    var count: U32
    var offset: nat
    var space: nat
    var pids: Pids

    /** The list as `= {0}` leaves it. */
    constructor ()
      ensures State() == ListState(0, 0, 0, Null)
    {
      count, offset, space, pids := 0, 0, 0, Null;
    }

    function State(): ListState
      reads this
    {
      ListState(count, offset, space, pids)
    }
  }

  /** The answer to the first ELEM_LIST, which asks only for the number of elements. */
  datatype ListReply = ListFailed(errno: Errno) | Counted(count: U32)

  /** One ELEM_LIST request for ids: `space` ids from index `offset`, written where `pids` refers. */
  datatype Batch = Batch(offset: nat, space: nat, pids: Pids)

  /** The size of the batch at `offset`: the rest of the elements, but no more than 1000. */
  function BatchSpace(count: nat, offset: nat): (space: nat)
    requires offset < count
    ensures 1 <= space <= ELEM_LIST_BATCH && offset + space <= count
    ensures space == ELEM_LIST_BATCH || offset + space == count
  {
    if count - offset > ELEM_LIST_BATCH then ELEM_LIST_BATCH else count - offset
  }

  /** The batches the lister requests from `offset` on. */
  function BatchesFrom(count: nat, offset: nat): seq<Batch>
    decreases count - offset
  {
    if offset >= count then []
    else [Batch(offset, BatchSpace(count, offset), IdsAt(offset))] + BatchesFrom(count, offset + BatchSpace(count, offset))
  }

  /** All batches of a device with `count` elements. */
  function Batches(count: nat): seq<Batch>
  {
    BatchesFrom(count, 0)
  }

  /**
   * The batches from `offset` partition [offset, count) in order: each
   * holds 1 to 1000 ids, the first starts at `offset`, each starts where
   * the one before ends, and the last ends at `count`. Each batch's ids are
   * written into the buffer at its own offset.
   */
  lemma {:induction false} BatchesFromPartition(count: nat, offset: nat)
    requires offset <= count
    ensures var bs := BatchesFrom(count, offset);
      (bs == [] <==> offset == count) &&
      (forall k :: 0 <= k < |bs| ==> 1 <= bs[k].space <= ELEM_LIST_BATCH && bs[k].pids == IdsAt(bs[k].offset)) &&
      (bs != [] ==> bs[0].offset == offset && bs[|bs| - 1].offset + bs[|bs| - 1].space == count) &&
      (forall k :: 0 <= k < |bs| - 1 ==> bs[k + 1].offset == bs[k].offset + bs[k].space)
    ensures |BatchesFrom(count, offset)| == (count - offset + ELEM_LIST_BATCH - 1) / ELEM_LIST_BATCH
    decreases count - offset
  {
    if offset < count {
      var space := BatchSpace(count, offset);
      BatchesFromPartition(count, offset + space);
      var rest := BatchesFrom(count, offset + space);
      var bs := BatchesFrom(count, offset);
      assert bs == [Batch(offset, space, IdsAt(offset))] + rest;
      forall k | 0 <= k < |bs| - 1 ensures bs[k + 1].offset == bs[k].offset + bs[k].space {
        if k > 0 {
          assert bs[k] == rest[k - 1] && bs[k + 1] == rest[k];
        }
      }
      if space == ELEM_LIST_BATCH {
        assert count - offset + ELEM_LIST_BATCH - 1 == (count - offset - space + ELEM_LIST_BATCH - 1) + ELEM_LIST_BATCH;
      } else {
        assert offset + space == count;
      }
    }
  }

  /** Every id index below `count` lies in some batch. */
  lemma BatchesCover(count: nat, x: nat)
    requires x < count
    ensures exists k :: 0 <= k < |Batches(count)| && Batches(count)[k].offset <= x < Batches(count)[k].offset + Batches(count)[k].space
  {
    BatchesFromPartition(count, 0);
    var bs := Batches(count);
    var k := 0;
    while bs[k].offset + bs[k].space <= x
      invariant 0 <= k < |bs| && bs[k].offset <= x
      decreases |bs| - k
    {
      k := k + 1;
    }
  }

  /** The outcome of allocate_elem_ids: its result, the batches it requested, the list and the id buffer. */
  datatype AllocOutcome = AllocOutcome(ret: int, requests: seq<Batch>, list: ListState, buffer: Buffer)

  /**
   * The batch loop from list state `s`, with the batches `done` already
   * answered: each batch sets space and pids and is requested; a refused
   * batch frees the buffer, clears pids and returns errno (positive); when
   * every batch is answered pids points at the buffer and space is count.
   */
  function RunBatches(batch: Batch -> Reply, s: ListState, done: seq<Batch>): AllocOutcome
    requires s.offset <= s.count
    decreases s.count - s.offset
  {
    if s.offset >= s.count then
      AllocOutcome(0, done, s.(space := s.count, pids := IdsAt(0)), Owned(s.count))
    else
      var b := Batch(s.offset, BatchSpace(s.count, s.offset), IdsAt(s.offset));
      var t := s.(space := b.space, pids := b.pids);
      match batch(b)
      case Failed(e) => AllocOutcome(e, done + [b], t.(pids := Null), Released)
      case Done => RunBatches(batch, t.(offset := s.offset + b.space), done + [b])
  }

  /**
   * allocate_elem_ids on a list in state `s`: the first ELEM_LIST's answer,
   * whether calloc succeeds, and the answer to each batch request.
   */
  function AllocateSpec(first: ListReply, allocOk: bool, batch: Batch -> Reply, s: ListState): AllocOutcome
  {
    match first
    case ListFailed(e) => AllocOutcome(-(e as int), [], s, NoBuffer)
    case Counted(c) =>
      if c == 0 then AllocOutcome(0, [], s.(count := c), NoBuffer)
      else if !allocOk then AllocOutcome(-ENOMEM, [], s.(count := c), NoBuffer)
      else RunBatches(batch, s.(count := c, offset := 0), [])
  }

  /** When every batch is answered the lister has requested them all and the list owns the whole buffer. */
  lemma {:induction false} RunBatchesSucceeds(batch: Batch -> Reply, s: ListState, done: seq<Batch>)
    requires s.offset <= s.count
    requires forall b :: b in BatchesFrom(s.count, s.offset) ==> batch(b).Done?
    ensures RunBatches(batch, s, done) ==
      AllocOutcome(0, done + BatchesFrom(s.count, s.offset), s.(offset := s.count, space := s.count, pids := IdsAt(0)), Owned(s.count))
    decreases s.count - s.offset
  {
    if s.offset < s.count {
      var b := Batch(s.offset, BatchSpace(s.count, s.offset), IdsAt(s.offset));
      var t := s.(space := b.space, pids := IdsAt(s.offset), offset := s.offset + b.space);
      assert BatchesFrom(s.count, s.offset) == [b] + BatchesFrom(s.count, t.offset);
      assert batch(b).Done?;
      RunBatchesSucceeds(batch, t, done + [b]);
      assert done + [b] + BatchesFrom(s.count, t.offset) == done + BatchesFrom(s.count, s.offset);
    }
  }

  /** The first refused batch `k` ends the loop: the batches up to it are requested, its errno is returned, the buffer freed. */
  lemma {:induction false} RunBatchesStopsAt(batch: Batch -> Reply, s: ListState, done: seq<Batch>, k: nat)
    requires s.offset <= s.count
    requires k < |BatchesFrom(s.count, s.offset)| && batch(BatchesFrom(s.count, s.offset)[k]).Failed?
    requires forall j :: 0 <= j < k ==> batch(BatchesFrom(s.count, s.offset)[j]).Done?
    ensures var bs := BatchesFrom(s.count, s.offset);
      RunBatches(batch, s, done) ==
      AllocOutcome(batch(bs[k]).errno, done + bs[..k + 1], s.(offset := bs[k].offset, space := bs[k].space, pids := Null), Released)
    decreases s.count - s.offset
  {
    var bs := BatchesFrom(s.count, s.offset);
    var b := Batch(s.offset, BatchSpace(s.count, s.offset), IdsAt(s.offset));
    var t := s.(space := b.space, pids := IdsAt(s.offset), offset := s.offset + b.space);
    var rest := BatchesFrom(s.count, t.offset);
    assert bs == [b] + rest;
    if k > 0 {
      assert batch(bs[0]).Done?;
      forall j | 0 <= j < k - 1 ensures batch(rest[j]).Done? {
        assert rest[j] == bs[j + 1];
      }
      assert rest[k - 1] == bs[k];
      RunBatchesStopsAt(batch, t, done + [b], k - 1);
      assert done + [b] + rest[..k] == done + bs[..k + 1];
    } else {
      assert bs[..1] == [b];
    }
  }

  /** A failed first ELEM_LIST returns minus errno; no elements means no buffer and no batch. */
  lemma AllocateEarlyReturns(first: ListReply, allocOk: bool, batch: Batch -> Reply, s: ListState)
    ensures first.ListFailed? ==> AllocateSpec(first, allocOk, batch, s) == AllocOutcome(-(first.errno as int), [], s, NoBuffer)
    ensures first == Counted(0) ==> AllocateSpec(first, allocOk, batch, s) == AllocOutcome(0, [], s.(count := 0), NoBuffer)
    ensures first.Counted? && first.count > 0 && !allocOk ==>
      AllocateSpec(first, allocOk, batch, s) == AllocOutcome(-ENOMEM, [], s.(count := first.count), NoBuffer)
  {
  }

  /**
   * When allocation succeeds and every batch is answered, the result is 0,
   * every batch is requested, each with pids at its own offset into the
   * buffer, and the list points at the whole buffer: pids at index 0,
   * space and offset equal to count.
   */
  lemma AllocateSucceeds(c: U32, batch: Batch -> Reply, s: ListState)
    requires c > 0
    requires forall b :: b in Batches(c) ==> batch(b).Done?
    ensures AllocateSpec(Counted(c), true, batch, s) ==
      AllocOutcome(0, Batches(c), ListState(c, c, c, IdsAt(0)), Owned(c))
    ensures forall k :: 0 <= k < |Batches(c)| ==> Batches(c)[k].pids == IdsAt(Batches(c)[k].offset)
  {
    RunBatchesSucceeds(batch, s.(count := c, offset := 0), []);
    BatchesFromPartition(c, 0);
  }

  /**
   * When batch `k` is the first refused, the result is its errno, which is
   * positive unlike the other failures. The buffer is freed and the list's
   * pids cleared, and the batches up to `k` were requested.
   */
  lemma AllocateStopsAtFailedBatch(c: U32, batch: Batch -> Reply, s: ListState, k: nat)
    requires c > 0
    requires k < |Batches(c)| && batch(Batches(c)[k]).Failed?
    requires forall j :: 0 <= j < k ==> batch(Batches(c)[j]).Done?
    ensures var r := AllocateSpec(Counted(c), true, batch, s);
      r.ret == batch(Batches(c)[k]).errno && r.ret > 0 &&
      r.requests == Batches(c)[..k + 1] && r.buffer == Released &&
      r.list == ListState(c, Batches(c)[k].offset, Batches(c)[k].space, Null)
  {
    RunBatchesStopsAt(batch, s.(count := c, offset := 0), [], k);
  }

  /**
   * allocate_elem_ids: ask for the count, allocate the buffer, then fetch
   * the ids batch by batch, moving pids along the buffer.
   */
  method AllocateElemIds(list: ElemList, first: ListReply, allocOk: bool, batch: Batch -> Reply)
    returns (ret: int, requests: seq<Batch>, buffer: Buffer)
    modifies list
    ensures AllocOutcome(ret, requests, list.State(), buffer) == AllocateSpec(first, allocOk, batch, old(list.State()))
  {
    if first.ListFailed? {
      return -(first.errno as int), [], NoBuffer;
    }
    list.count := first.count;
    if list.count == 0 {
      return 0, [], NoBuffer;
    }
    if !allocOk {
      return -ENOMEM, [], NoBuffer;
    }
    buffer := Owned(list.count);
    requests := [];

    list.offset := 0;
    while list.offset < list.count
      invariant list.offset <= list.count && buffer == Owned(list.count)
      invariant AllocateSpec(first, allocOk, batch, old(list.State())) == RunBatches(batch, list.State(), requests)
      decreases list.count - list.offset
    {
      if list.count - list.offset > ELEM_LIST_BATCH {
        list.space := ELEM_LIST_BATCH;
      } else {
        list.space := list.count - list.offset;
      }
      list.pids := IdsAt(list.offset);

      var b := Batch(list.offset, list.space, list.pids);
      requests := requests + [b];
      if batch(b).Failed? {
        buffer := Released;
        list.pids := Null;
        return batch(b).errno, requests, buffer;
      }

      list.offset := list.offset + list.space;
    }

    list.pids := IdsAt(0);
    list.space := list.count;
    ret := 0;
  }

  /**
   * Every batch run ends in one of two ways: a refused batch (positive
   * errno, buffer freed, pids cleared) or the whole buffer owned with pids
   * at its start.
   */
  lemma {:induction false} RunBatchesEnds(batch: Batch -> Reply, s: ListState, done: seq<Batch>)
    requires s.offset <= s.count
    ensures var o := RunBatches(batch, s, done);
      (o.ret > 0 && o.buffer == Released && o.list.pids == Null) ||
      (o.ret == 0 && o.buffer == Owned(s.count) && o.list.count == s.count && o.list.pids == IdsAt(0))
    decreases s.count - s.offset
  {
    if s.offset < s.count {
      var b := Batch(s.offset, BatchSpace(s.count, s.offset), IdsAt(s.offset));
      if batch(b).Done? {
        RunBatchesEnds(batch, s.(space := b.space, pids := b.pids, offset := s.offset + b.space), done + [b]);
      }
    }
  }

  /** The list main hands to dump_elems: no elements, or every id fetched into the owned buffer. */
  predicate IdsReady(o: AllocOutcome)
  {
    (o.buffer == NoBuffer && o.list.count == 0) || (o.buffer == Owned(o.list.count) && o.list.pids == IdsAt(0))
  }

  /**
   * As written, main's test `err < 0` lets a refused batch through: one
   * element whose batch is refused with EIO gives result EIO, and the list
   * has no ids.
   */
  lemma RefusedBatchPassesMainCheck()
    ensures var o := AllocateSpec(Counted(1), true, (b: Batch) => Failed(EIO), ListState(0, 0, 0, Null));
      !(o.ret < 0) && !IdsReady(o)
  {
    var s := ListState(1, 0, 0, Null);
    var b := Batch(0, 1, IdsAt(0));
    assert BatchSpace(1, 0) == 1;
    assert RunBatches((b: Batch) => Failed(EIO), s, []) == AllocOutcome(EIO, [b], s.(space := 1, pids := Null), Released);
  }

  /** allocate_elem_ids as evidently intended: a refused batch returns minus errno like every other failure. */
  function IntendedAllocateSpec(first: ListReply, allocOk: bool, batch: Batch -> Reply, s: ListState): AllocOutcome
  {
    var o := AllocateSpec(first, allocOk, batch, s);
    if o.buffer == Released then o.(ret := -o.ret) else o
  }

  /**
   * With the intended result main's test is sound: the result is never
   * positive, a result of 0 means the ids are ready, and a failure leaves
   * no buffer owned.
   */
  lemma IntendedMainCheckSound(first: ListReply, allocOk: bool, batch: Batch -> Reply, s: ListState)
    ensures var o := IntendedAllocateSpec(first, allocOk, batch, s);
      o.ret <= 0 && (o.ret == 0 ==> IdsReady(o)) && (o.ret < 0 ==> !o.buffer.Owned?)
  {
    if first.Counted? && first.count > 0 && allocOk {
      RunBatchesEnds(batch, s.(count := first.count, offset := 0), []);
    }
  }

  // ---------------------------------------------------------------------------
  // dump_elem

  /** The fields of struct snd_ctl_elem_info the dumper decides on. */
  datatype ElemInfo = ElemInfo(elemType: int, access: Word)

  /** The answer to ELEM_INFO for one element. */
  datatype InfoReply = InfoFailed(errno: Errno) | InfoFilled(info: ElemInfo)

  /** The device as one element sees it: the ELEM_INFO answer, and how the enumerated-item queries end. */
  datatype ElemDevice = ElemDevice(info: InfoReply, enumerated: Reply)

  /** Entries of the per-type dumper table. */
  datatype Dumper = NoDumper | IntegerDumper | EnumeratedDumper | Integer64Dumper

  /** The dumper table, indexed by element type: only INTEGER, ENUMERATED and INTEGER64 have one. */
  const TYPE_DUMPERS: seq<Dumper> :=
    [NoDumper, NoDumper, IntegerDumper, EnumeratedDumper, NoDumper, NoDumper, Integer64Dumper]

  /** The value a dumper returns: 0, except an enumerated dump whose item query fails returns errno. */
  function DumperResult(d: Dumper, enumerated: Reply): int
  {
    match d
    case EnumeratedDumper => (match enumerated case Done => 0 case Failed(e) => e)
    case _ => 0
  }

  /** The value dump_elem returns for an element. */
  function ElemResult(d: ElemDevice): int
  {
    match d.info
    case InfoFailed(e) => -(e as int)
    case InfoFilled(info) =>
      if info.elemType < 0 || info.elemType >= |TYPE_DUMPERS| then -EIO
      else DumperResult(TYPE_DUMPERS[info.elemType], d.enumerated)
  }

  /** What dump_elem prints about an element: its type, the indices of its access labels, and whether a type-dependent part follows. */
  datatype ElemReport = ElemReport(elemType: nat, access: seq<nat>, typeDependent: bool)

  /** Access label `i` is printed: entry `i` of the access table shares a bit with the access word. */
  function AccessSelected(access: Word): nat -> bool
  {
    (i: nat) => i < |ELEM_ACCESS_FLAGS| && access * ELEM_ACCESS_FLAGS[i] != {}
  }

  /** Only INTEGER, ENUMERATED and INTEGER64 have a type dependent part. */
  lemma DumperTable()
    ensures |TYPE_DUMPERS| == ELEM_TYPE_ENTRIES
    ensures forall t :: 0 <= t < ELEM_TYPE_ENTRIES ==>
      (TYPE_DUMPERS[t] != NoDumper <==> t == ELEM_TYPE_INTEGER || t == ELEM_TYPE_ENUMERATED || t == ELEM_TYPE_INTEGER64)
  {
  }

  /**
   * The return value of dump_elem: negative exactly when ELEM_INFO fails
   * (minus errno) or the type is outside the table (-EIO, negative types
   * included); positive exactly when an enumerated element's item query
   * fails (its errno); 0 otherwise.
   */
  lemma ElemResultCases(d: ElemDevice)
    ensures ElemResult(d) < 0 <==> d.info.InfoFailed? || d.info.info.elemType < 0 || d.info.info.elemType >= ELEM_TYPE_ENTRIES
    ensures d.info.InfoFailed? ==> ElemResult(d) == -(d.info.errno as int)
    ensures d.info.InfoFilled? && (d.info.info.elemType < 0 || d.info.info.elemType >= ELEM_TYPE_ENTRIES) ==> ElemResult(d) == -EIO
    ensures ElemResult(d) > 0 <==> d.info.InfoFilled? && d.info.info.elemType == ELEM_TYPE_ENUMERATED && d.enumerated.Failed?
  {
  }

  /**
   * dump_elem: query the element, refuse a type outside the dumper table,
   * scan the twelve access flags, and run the type's dumper if it has one.
   */
  method DumpElem(d: ElemDevice) returns (err: int, report: Option<ElemReport>)
    ensures err == ElemResult(d)
    ensures report.Some? <==> d.info.InfoFilled? && 0 <= d.info.info.elemType < ELEM_TYPE_ENTRIES
    ensures report.Some? ==>
      report.value.elemType == d.info.info.elemType &&
      Enumerates(report.value.access, |ELEM_ACCESS_FLAGS|, AccessSelected(d.info.info.access)) &&
      (report.value.typeDependent <==> TYPE_DUMPERS[report.value.elemType] != NoDumper)
  {
    if d.info.InfoFailed? {
      return -(d.info.errno as int), None;
    }
    var info := d.info.info;
    if info.elemType < 0 || info.elemType >= |TYPE_DUMPERS| {
      return -EIO, None;
    }

    var access: seq<nat> := [];
    var i := 0;
    while i < |ELEM_ACCESS_FLAGS|
      invariant 0 <= i <= |ELEM_ACCESS_FLAGS|
      invariant Ascending(access)
      invariant forall k :: 0 <= k < |access| ==> access[k] < i && info.access * ELEM_ACCESS_FLAGS[access[k]] != {}
      invariant forall x: nat :: x < i && info.access * ELEM_ACCESS_FLAGS[x] != {} ==> x in access
    {
      if info.access * ELEM_ACCESS_FLAGS[i] != {} {
        access := access + [i];
      }
      i := i + 1;
    }

    err := 0;
    var dumper := TYPE_DUMPERS[info.elemType];
    if dumper != NoDumper {
      err := DumperResult(dumper, d.enumerated);
    }
    report := Some(ElemReport(info.elemType, access, dumper != NoDumper));
  }

  /** The access labels are the flags' bits: label `i` is printed iff its single bit is set. */
  lemma AccessLabelBits(access: Word, r: seq<nat>, i: nat, bit: nat)
    requires Enumerates(r, |ELEM_ACCESS_FLAGS|, AccessSelected(access))
    requires i < |ELEM_ACCESS_FLAGS| && ELEM_ACCESS_FLAGS[i] == {bit}
    ensures i in r <==> bit in access
  {
    if i in r {
      var k :| 0 <= k < |r| && r[k] == i;
      assert AccessSelected(access)(r[k]);
    }
    if bit in access {
      assert bit in access * ELEM_ACCESS_FLAGS[i];
      assert AccessSelected(access)(i);
    }
  }

  // ---------------------------------------------------------------------------
  // dump_elems

  /**
   * dump_elems from element `i` on, `last` being the latest result: stop
   * after the first negative result; with no element at all the result is
   * left unset (None).
   */
  function DumpElemsFrom(elems: seq<ElemDevice>, i: nat, last: Option<int>): (Option<int>, nat)
    requires i <= |elems|
    decreases |elems| - i
  {
    if i == |elems| then (last, i)
    else if ElemResult(elems[i]) < 0 then (Some(ElemResult(elems[i])), i + 1)
    else DumpElemsFrom(elems, i + 1, Some(ElemResult(elems[i])))
  }

  /** The first negative result `k` ends the dump: it is returned and no element after `k` is queried. */
  lemma {:induction false} DumpElemsStopsAtFirstNegative(elems: seq<ElemDevice>, i: nat, last: Option<int>, k: nat)
    requires i <= k < |elems| && ElemResult(elems[k]) < 0
    requires forall j :: i <= j < k ==> ElemResult(elems[j]) >= 0
    ensures DumpElemsFrom(elems, i, last) == (Some(ElemResult(elems[k])), k + 1)
    decreases k - i
  {
    if i < k {
      DumpElemsStopsAtFirstNegative(elems, i + 1, Some(ElemResult(elems[i])), k);
    }
  }

  /** Without a negative result every element is dumped and the result is the last element's (positive errnos do not stop it). */
  lemma {:induction false} DumpElemsDumpsAll(elems: seq<ElemDevice>, i: nat, last: Option<int>)
    requires i <= |elems|
    requires forall j :: i <= j < |elems| ==> ElemResult(elems[j]) >= 0
    ensures DumpElemsFrom(elems, i, last) == (if i == |elems| then last else Some(ElemResult(elems[|elems| - 1])), |elems|)
    decreases |elems| - i
  {
    if i < |elems| {
      DumpElemsDumpsAll(elems, i + 1, Some(ElemResult(elems[i])));
    }
  }

  /** dump_elems: dump each listed element in turn, stopping at the first negative result. */
  method DumpElems(elems: seq<ElemDevice>) returns (ret: Option<int>, dumped: nat)
    ensures (ret, dumped) == DumpElemsFrom(elems, 0, None)
  {
    ret, dumped := None, 0;
    while dumped < |elems|
      invariant dumped <= |elems|
      invariant DumpElemsFrom(elems, 0, None) == DumpElemsFrom(elems, dumped, ret)
    {
      var err, _ := DumpElem(elems[dumped]);
      ret := Some(err);
      dumped := dumped + 1;
      if err < 0 {
        return;
      }
    }
  }
}
