/** `TxDriverThread::run_batch` and its submit loops, against the kernel of `TxKernel`. */
module TxDriver {
  import opened Common
  import opened TxUserData
  import opened TxBatch
  import opened TxKernel
  import opened TxRuns

  datatype TxBatchResponse = TxBatchResponse(bufs: seq<Bytes>, results: seq<Option<IoResult>>)

  /** `deadline` is the round in which the deadline is first found passed, if a timeout was given, and
      `dropAt` that in which the sender's future is first found dropped, if it is. */
  datatype TxBatchRequest = TxBatchRequest(bufs: seq<Bytes>, keepOrder: bool, deadline: Option<nat>, dropAt: Option<nat>) {
    function Cut(): Option<nat> { CutRound(deadline, dropAt) }

    function Reason(): IoError { CutReason(deadline, dropAt) }
  }

  /** The caller's buffers come back, each with a result. */
  predicate Answers(r: TxBatchResponse, q: TxBatchRequest) {
    r.bufs == q.bufs && |r.results| == |q.bufs| && forall i :: 0 <= i < |q.bufs| ==> r.results[i].Some?
  }

  /** One cancellation for each pending entry below `count`, in index order. */
  function CancelTags(epoch: nat, pending: seq<bool>, count: nat): seq<Tag>
    requires count <= |pending|
  {
    if count == 0 then []
    else
      CancelTags(epoch, pending, count - 1)
      + if pending[count - 1] then [Tag(CancelUserData(count - 1), epoch)] else []
  }

  lemma {:induction false} NoneAsked(epoch: nat, asked: seq<bool>, count: nat)
    requires count <= |asked| && forall i :: 0 <= i < |asked| ==> !asked[i]
    ensures CancelTags(epoch, asked, count) == []
    decreases count
  {
    if count > 0 {
      NoneAsked(epoch, asked, count - 1);
    }
  }

  lemma {:induction false} AskedShows(epoch: nat, asked: seq<bool>, count: nat, i: nat)
    requires i < count <= |asked| && asked[i]
    ensures CancelTags(epoch, asked, count) != []
    decreases count
  {
    if i < count - 1 {
      AskedShows(epoch, asked, count - 1, i);
    }
  }

  lemma NoTags()
    ensures Tags([]) == []
  {
  }

  lemma TagsAppend(sq: seq<Req>, r: Req)
    ensures Tags(sq + [r]) == Tags(sq) + [r.tag]
  {
  }

  ghost predicate Shrinks(before: seq<bool>, after: seq<bool>) {
    |before| == |after| && forall i :: 0 <= i < |after| && after[i] ==> before[i]
  }

  predicate NoWrites(s: seq<Req>) { forall r :: r in s ==> !IsWrite(r.tag) }

  lemma QueueTail(sq: seq<Req>)
    requires |sq| > 0
    ensures Tags(sq) == [sq[0].tag] + Tags(sq[1..])
    ensures NoWrites(sq) ==> !IsWrite(sq[0].tag) && NoWrites(sq[1..])
    ensures AllWrites(sq) ==> IsWrite(sq[0].tag) && AllWrites(sq[1..])
  {
    hide IsWrite;
  }

  predicate AllWrites(s: seq<Req>) { forall r :: r in s ==> IsWrite(r.tag) }

  /** Between batches: nothing queued and no write of any batch anywhere in the ring. */
  ghost predicate Idle(k: Kernel) {
    k.sq == [] && k.pool == [] && forall t :: t in Outstanding(k) ==> !IsWrite(t)
  }

  class TxDriverThread {
    const submitChunkSize: nat
    const capacity: nat
    /** No ring call fails. */
    const reliable: bool
    var k: Kernel
    var epoch: nat
    ghost var chains: seq<nat>
    ghost var lo: nat
    ghost var hi: nat
    /** The cancellations the kernel has accepted, in order. */
    ghost var cancelled: seq<Tag>
    /** The entries that were in flight when the batch was cut short. */
    ghost var asked: seq<bool>

    ghost function Snapshot(b: ActiveTxBatch): View
      reads this, b
    {
      View(k, epoch, b.keepOrder, b.nextToSubmit, b.pending, b.results, chains, lo, hi,
           b.cancelRequested, asked, Min(submitChunkSize, capacity))
    }

    ghost predicate Inv(b: ActiveTxBatch)
      reads this, b
    {
      b.Valid() && submitChunkSize > 0 && capacity > 0 && Good(Snapshot(b))
    }

    constructor (submitChunkSize: nat, capacity: nat, reliable: bool)
      ensures this.submitChunkSize == submitChunkSize && this.capacity == capacity && this.reliable == reliable
      ensures Idle(k)
    {
      this.submitChunkSize, this.capacity, this.reliable := submitChunkSize, capacity, reliable;
      k, epoch, chains, lo, hi, cancelled, asked := Kernel([], [], [], [], []), 0, [], 0, 0, [], [];
    }

    // ----- the kernel acting on its own -----

    method KernelStep(b: ActiveTxBatch, p: nat, res: int, proceed: bool)
      requires Inv(b) && Startable(k, p) && (proceed ==> res >= 0)
      modifies this`k, this`lo, this`hi
      ensures Inv(b) && k == Run(old(k), p, res, proceed)
    {
      hide Good, Run;
      ghost var v' := GoodRun(Snapshot(b), p, res, proceed);
      k := Run(k, p, res, proceed);
      lo, hi := v'.lo, v'.hi;
    }

    /** Any number of kernel steps. */
    method KernelRun(b: ActiveTxBatch)
      requires Inv(b)
      modifies this`k, this`lo, this`hi
      ensures Inv(b) && k.sq == old(k.sq)
    {
      hide Good;
      var n: nat := *;
      while n > 0
        invariant Inv(b) && k.sq == old(k.sq)
      {
        var p: nat := *;
        var res: int := *;
        var proceed: bool := *;
        if Startable(k, p) && (proceed ==> res >= 0) {
          KernelStep(b, p, res, proceed);
        }
        n := n - 1;
      }
    }

    // ----- system calls -----

    /** Whether a ring call fails. */
    method Fails() returns (failed: bool)
      ensures reliable ==> !failed
    {
      failed := *;
      failed := failed && !reliable;
    }

    /** `submit()`: hands the queue to the kernel in order, or fails part way. The kernel acts before
        and after each entry. */
    method Submit(b: ActiveTxBatch) returns (ok: bool)
      requires Inv(b) && (b.keepOrder ==> NoWrites(k.sq))
      modifies this`k, this`lo, this`hi, this`cancelled
      ensures reliable ==> ok
      ensures ok ==> Inv(b) && k.sq == []
      ensures ok && old(NoWrites(k.sq)) ==> cancelled == old(cancelled) + Tags(old(k.sq))
      ensures old(AllWrites(k.sq)) ==> cancelled == old(cancelled)
    {
      hide Good, IsWrite, Tags, NoWrites, AllWrites;
      ghost var cancels, writes := NoWrites(k.sq), AllWrites(k.sq);
      ok := true;
      KernelRun(b);
      while |k.sq| > 0
        invariant Inv(b) && (b.keepOrder ==> NoWrites(k.sq))
        invariant cancels ==> NoWrites(k.sq) && cancelled + Tags(k.sq) == old(cancelled) + Tags(old(k.sq))
        invariant writes ==> AllWrites(k.sq) && cancelled == old(cancelled)
        decreases |k.sq|
      {
        var failed := Fails();
        if failed {
          return false;
        }
        QueueTail(k.sq);
        if IsWrite(k.sq[0].tag) {
          AcceptWrite(b);
        } else {
          AcceptCancel(b);
        }
        KernelRun(b);
      }
    }

    method AcceptWrite(b: ActiveTxBatch)
      requires Inv(b) && !b.keepOrder && |k.sq| > 0 && IsWrite(k.sq[0].tag)
      modifies this`k
      ensures Inv(b) && k == old(k).(sq := old(k.sq)[1..], pool := old(k.pool) + [old(k.sq)[0]])
    {
      hide Good, IsWrite;
      GoodAccept(Snapshot(b));
      k := k.(sq := k.sq[1..], pool := k.pool + [k.sq[0]]);
    }

    /** A cancellation acts when it is submitted: it may hit a request with its target's user_data. */
    method AcceptCancel(b: ActiveTxBatch)
      requires Inv(b) && |k.sq| > 0 && !IsWrite(k.sq[0].tag)
      modifies this`k, this`hi, this`cancelled
      ensures Inv(b) && k.sq == old(k.sq)[1..] && cancelled == old(cancelled) + [old(k.sq)[0].tag]
    {
      hide Good, IsWrite, CancelHit, UserDataKind, WriteUserData;
      var head := k.sq[0];
      var p: int := *;
      var error: int := *;
      var kind := UserDataKind(head.tag.userData);
      if kind.Cancel? && 0 <= p < |k.pool| && k.pool[p].tag.userData == WriteUserData(kind.index) && error < 0 {
        ghost var v' := GoodCancelHit(Snapshot(b), p, error);
        CancelHitFrame(k, p, error);
        k := CancelHit(k, p, error);
        hi := v'.hi;
      }
      var res: int := *;
      GoodCancelDone(Snapshot(b), res);
      k := k.(sq := k.sq[1..], cq := k.cq + [Cqe(head.tag, res)]);
      cancelled := cancelled + [head.tag];
    }

    /** `submit()` of one linked chain, which the kernel starts only when it has all of it. */
    method SubmitWholeChain() returns (ok: bool)
      requires AllWrites(k.sq)
      modifies this`k
      ensures reliable ==> ok
      ensures ok ==> k == old(k).(sq := [], pool := old(k.pool) + old(k.sq))
    {
      hide IsWrite;
      ok := true;
      while |k.sq| > 0
        invariant k == old(k).(sq := k.sq, pool := k.pool) && k.pool + k.sq == old(k.pool) + old(k.sq)
        decreases |k.sq|
      {
        var failed := Fails();
        if failed {
          return false;
        }
        k := k.(sq := k.sq[1..], pool := k.pool + [k.sq[0]]);
      }
    }

    // ----- submitting -----

    method SubmitWrite(b: ActiveTxBatch) returns (ok: bool)
      requires Inv(b) && !b.keepOrder && !b.cancelRequested && AllWrites(k.sq)
      requires b.nextToSubmit < |b.bufs| && b.results[b.nextToSubmit].None?
      modifies this`k, this`lo, this`hi, this`cancelled, b`submitted, b`pending, b`nextToSubmit, b`inFlight
      ensures reliable ==> ok
      ensures b.Valid() && b.Work() <= old(b.Work())
      ensures ok ==> Inv(b) && b.nextToSubmit == old(b.nextToSubmit) + 1 && b.inFlight > 0
      ensures ok ==> AllWrites(k.sq) && cancelled == old(cancelled)
      ensures !ok ==> unchanged(b)
    {
      hide Good, WriteTag, IsWrite;
      while |k.sq| >= capacity
        invariant Inv(b) && AllWrites(k.sq) && cancelled == old(cancelled)
        decreases |k.sq|
        modifies this`k, this`lo, this`hi, this`cancelled
      {
        ok := Submit(b);
        if !ok {
          return;
        }
      }
      KernelRun(b);
      ghost var v := Snapshot(b);
      GoodPushWrite(v);
      SizeFits(v);
      WriteTagDecodes(epoch, b.nextToSubmit);
      k := k.(sq := k.sq + [Req(WriteTag(epoch, b.nextToSubmit), false)]);
      b.MarkSubmitted();
      assert PushWrite(v) == Snapshot(b);
      ok := true;
    }

    /** The rest of the batch is still to be submitted and nothing about it is decided. */
    ghost predicate Fresh(b: ActiveTxBatch)
      reads b
    {
      |b.results| == |b.bufs| && forall i :: b.nextToSubmit <= i < |b.bufs| ==> b.results[i].None?
    }

    method SubmitUnordered(b: ActiveTxBatch) returns (ok: bool)
      requires Inv(b) && !b.keepOrder && !b.cancelRequested && Fresh(b)
      requires k.sq == []
      modifies this`k, this`lo, this`hi, this`cancelled, b`submitted, b`pending, b`nextToSubmit, b`inFlight
      ensures reliable ==> ok
      ensures b.Valid() && Fresh(b) && b.Work() <= old(b.Work())
      ensures ok ==> Inv(b) && k.sq == [] && (b.inFlight > 0 || b.nextToSubmit == |b.bufs|)
      ensures ok ==> b.nextToSubmit == Min(|b.bufs|, old(b.nextToSubmit) + submitChunkSize)
      ensures ok ==> cancelled == old(cancelled)
    {
      hide Good, IsWrite;
      var submittedThisRound := 0;
      while b.nextToSubmit < |b.bufs| && submittedThisRound < submitChunkSize
        invariant Inv(b) && Fresh(b) && b.Work() <= old(b.Work())
        invariant submittedThisRound > 0 ==> b.inFlight > 0
        invariant b.nextToSubmit == old(b.nextToSubmit) + submittedThisRound && submittedThisRound <= submitChunkSize
        invariant submittedThisRound == 0 ==> k.sq == []
        invariant AllWrites(k.sq) && cancelled == old(cancelled)
        decreases |b.bufs| - b.nextToSubmit
      {
        ok := SubmitWrite(b);
        if !ok {
          return;
        }
        submittedThisRound := submittedThisRound + 1;
      }
      ok := true;
      if submittedThisRound > 0 {
        ok := Submit(b);
      }
    }

    /** The entries of a chunk, each linked to the next one. */
    method BuildEntries(b: ActiveTxBatch, len: nat) returns (entries: seq<Req>)
      ensures entries == Chunk(epoch, b.nextToSubmit, len)
    {
      hide WriteTag;
      entries := [];
      var offset := 0;
      while offset < len
        invariant 0 <= offset <= len == |entries| + (len - offset)
        invariant forall i :: 0 <= i < offset ==> entries[i] == Req(WriteTag(epoch, b.nextToSubmit + i), i + 1 < len)
      {
        entries := entries + [Req(WriteTag(epoch, b.nextToSubmit + offset), offset + 1 < len)];
        offset := offset + 1;
      }
    }

    method MarkChunk(b: ActiveTxBatch, len: nat)
      requires b.Valid() && !b.cancelRequested && Fresh(b) && b.nextToSubmit + len <= |b.bufs|
      modifies b`submitted, b`pending, b`nextToSubmit, b`inFlight
      ensures b.Valid() && Fresh(b) && b.Work() <= old(b.Work())
      ensures b.nextToSubmit == old(b.nextToSubmit) + len
      ensures b.pending == SetRange(old(b.pending), old(b.nextToSubmit), len)
      ensures len > 0 ==> b.inFlight > 0
    {
      var offset := 0;
      assert b.pending == SetRange(b.pending, b.nextToSubmit, 0);
      while offset < len
        invariant 0 <= offset <= len && b.Valid() && Fresh(b) && b.Work() <= old(b.Work())
        invariant b.nextToSubmit == old(b.nextToSubmit) + offset
        invariant b.pending == SetRange(old(b.pending), old(b.nextToSubmit), offset)
        invariant offset > 0 ==> b.inFlight > 0
      {
        b.MarkSubmitted();
        offset := offset + 1;
      }
    }

    method SubmitNextOrdered(b: ActiveTxBatch) returns (ok: bool)
      requires Inv(b) && b.keepOrder && !b.cancelRequested && Fresh(b)
      requires k.sq == []
      modifies this`k, this`lo, this`hi, this`cancelled, this`chains, b`submitted, b`pending, b`nextToSubmit, b`inFlight
      ensures cancelled == old(cancelled)
      ensures reliable ==> ok
      ensures b.Valid() && Fresh(b) && b.Work() <= old(b.Work())
      ensures ok ==> Inv(b) && k.sq == [] && (b.inFlight > 0 || b.nextToSubmit == |b.bufs|)
      ensures ok ==> b.nextToSubmit == if old(b.inFlight) > 0 then old(b.nextToSubmit)
                                       else Min(|b.bufs|, old(b.nextToSubmit) + Min(submitChunkSize, capacity))
    {
      if b.inFlight != 0 || b.nextToSubmit >= |b.bufs| {
        return true;
      }
      ok := SubmitOrderedLinked(b);
    }

    method SubmitOrderedLinked(b: ActiveTxBatch) returns (ok: bool)
      requires Inv(b) && b.keepOrder && !b.cancelRequested && Fresh(b)
      requires k.sq == [] && b.inFlight == 0 && b.nextToSubmit < |b.bufs|
      modifies this`k, this`lo, this`hi, this`cancelled, this`chains, b`submitted, b`pending, b`nextToSubmit, b`inFlight
      ensures cancelled == old(cancelled)
      ensures reliable ==> ok
      ensures b.Valid() && Fresh(b) && b.Work() <= old(b.Work())
      ensures ok ==> Inv(b) && k.sq == [] && b.inFlight > 0
      ensures ok ==> b.nextToSubmit == Min(|b.bufs|, old(b.nextToSubmit) + Min(submitChunkSize, capacity))
    {
      hide Good, Chunk, IsWrite, SetRange, NoWrites, AllWrites, ActiveTxBatch.Work;
      var available := capacity - |k.sq|;
      var chunkLen := Min(|b.bufs| - b.nextToSubmit, Min(submitChunkSize, available));
      ghost var v := Snapshot(b);
      CountExtremes(b.pending);
      GoodSubmitChain(v, chunkLen);
      var entries := BuildEntries(b, chunkLen);
      AllChunkWrites(v, chunkLen, entries);
      k := k.(sq := k.sq + entries);
      assert k.sq == entries;
      MarkChunk(b, chunkLen);
      ok := SubmitWholeChain();
      if ok {
        chains, lo, hi := chains + [v.next], v.next, v.next + chunkLen;
        assert Snapshot(b) == SubmitChain(v, chunkLen);
        KernelRun(b);
      }
    }

    /** `submit_entry` of the cancellation of one entry. */
    method PushCancel(b: ActiveTxBatch, index: nat) returns (ok: bool)
      requires Inv(b) && NoWrites(k.sq) && index < |b.pending|
      modifies this`k, this`lo, this`hi, this`cancelled
      ensures reliable ==> ok
      ensures ok ==> Inv(b) && NoWrites(k.sq)
      ensures ok ==> cancelled + Tags(k.sq) == old(cancelled + Tags(k.sq)) + [Tag(CancelUserData(index), epoch)]
    {
      hide Good, IsWrite, CancelUserData, Tags;
      while |k.sq| >= capacity
        invariant Inv(b) && NoWrites(k.sq) && cancelled + Tags(k.sq) == old(cancelled + Tags(k.sq))
        decreases |k.sq|
      {
        ok := Submit(b);
        if !ok {
          return;
        }
        NoTags();
      }
      KernelRun(b);
      SizeFits(Snapshot(b));
      GoodPushCancel(Snapshot(b), index);
      TagsAppend(k.sq, Req(Tag(CancelUserData(index), epoch), false));
      k := k.(sq := k.sq + [Req(Tag(CancelUserData(index), epoch), false)]);
      ok := true;
    }

    /** Cancels every pending entry. */
    method SubmitCancels(b: ActiveTxBatch) returns (ok: bool)
      requires Inv(b) && k.sq == []
      modifies this`k, this`lo, this`hi, this`cancelled
      ensures reliable ==> ok
      ensures ok ==> Inv(b) && k.sq == []
      ensures ok ==> cancelled == old(cancelled) + CancelTags(epoch, b.pending, |b.pending|)
    {
      hide Good, IsWrite, CancelUserData, Tags;
      NoTags();
      var index := 0;
      while index < |b.pending|
        invariant 0 <= index <= |b.pending| && Inv(b) && NoWrites(k.sq)
        invariant cancelled + Tags(k.sq) == old(cancelled) + CancelTags(epoch, b.pending, index)
      {
        if b.pending[index] {
          ok := PushCancel(b, index);
          if !ok {
            return;
          }
        }
        index := index + 1;
      }
      ok := Submit(b);
    }

    // ----- reaping -----

    /** Applies the completions that are in the queue now. */
    method ProcessCqes(b: ActiveTxBatch)
      requires Inv(b)
      modifies this`k, b
      ensures Inv(b) && k.sq == old(k.sq) && k.cq == []
      ensures Snapshot(b) == ReapAll(old(Snapshot(b)))
      ensures b.nextToSubmit == old(b.nextToSubmit) && b.cancelRequested == old(b.cancelRequested)
      ensures Keeps(old(b.results), b.results) && Shrinks(old(b.pending), b.pending)
      ensures old(Fresh(b)) ==> Fresh(b)
      ensures b.Work() <= old(b.Work())
      ensures (exists j :: 0 <= j < |old(k.cq)| && IsWrite(old(k.cq)[j].tag)) ==> b.Work() < old(b.Work())
    {
      hide Good, Reap, UserDataKind;
      var n := |k.cq|;
      var i := 0;
      while i < n
        invariant 0 <= i <= n && Inv(b) && k == old(k).(cq := old(k.cq)[i..])
        invariant ReapAll(Snapshot(b)) == ReapAll(old(Snapshot(b)))
        invariant b.nextToSubmit == old(b.nextToSubmit) && b.cancelRequested == old(b.cancelRequested)
        invariant Keeps(old(b.results), b.results) && Shrinks(old(b.pending), b.pending)
        invariant old(Fresh(b)) ==> Fresh(b)
        invariant b.Work() <= old(b.Work())
        invariant forall j :: 0 <= j < i && IsWrite(old(k.cq)[j].tag) ==> b.Work() < old(b.Work())
      {
        ReapOne(b);
        i := i + 1;
      }
    }

    /** One completion; a write completion always finds its entry pending. */
    method ReapOne(b: ActiveTxBatch)
      requires Inv(b) && |k.cq| > 0
      modifies this`k, b
      ensures Inv(b) && k == old(k).(cq := old(k.cq)[1..])
      ensures b.nextToSubmit == old(b.nextToSubmit) && b.cancelRequested == old(b.cancelRequested)
      ensures Keeps(old(b.results), b.results) && Shrinks(old(b.pending), b.pending)
      ensures old(Fresh(b)) ==> Fresh(b)
      ensures b.Work() <= old(b.Work())
      ensures IsWrite(old(k.cq[0]).tag) ==> b.Work() < old(b.Work())
      ensures Snapshot(b) == Reap(old(Snapshot(b)))
    {
      hide Good, UserDataKind;
      ghost var v := Snapshot(b);
      GoodReap(v);
      var entry := k.cq[0];
      k := k.(cq := k.cq[1..]);
      match UserDataKind(entry.tag.userData) {
        case Write(index) =>
          ReapedBelongs(v);
          b.CompleteWrite(index, entry.res);
        case Cancel(_) =>
        case Unknown =>
      }
      assert Snapshot(b) == Reap(v);
    }

    /**
     `wait_for_activity`: fails, or returns without a write completion (a command, a poll timeout;
     `spurious` bounds how often that happens), or returns with one in the queue.
     */
    method WaitForActivity(b: ActiveTxBatch, spurious: nat) returns (ok: bool, left: nat)
      requires Inv(b) && k.sq == [] && b.inFlight > 0 && Cancels(b)
      modifies this`k, this`lo, this`hi
      ensures reliable ==> ok
      ensures ok ==> Inv(b) && k.sq == [] && left <= spurious
      ensures ok && left == spurious ==> exists j :: 0 <= j < |k.cq| && IsWrite(k.cq[j].tag)
    {
      hide Good, Run;
      left := spurious;
      KernelRun(b);
      var failed := Fails();
      var idle: bool := *;
      if failed {
        return false, left;
      }
      if idle && spurious > 0 {
        return true, spurious - 1;
      }
      ok := true;
      CountExtremes(b.pending);
      WriteSomewhere(Snapshot(b));
      if |k.pool| > 0 {
        var p: int := *;
        var res: int := *;
        var proceed: bool := *;
        if p < 0 || !Startable(k, p) {
          p := 0;
        }
        RunPosts(k, p, res, proceed && res >= 0);
        ghost var before := k;
        PoolIsWrites(Snapshot(b));
        KernelStep(b, p, res, proceed && res >= 0);
        assert k.cq[|before.cq|].tag == before.pool[p].tag;
      }
    }

    // ----- the batch -----

    method GiveUp(b: ActiveTxBatch, error: IoError)
      requires Inv(b)
      modifies b`results, b`completed
      ensures Inv(b) && b.Work() <= old(b.Work())
      ensures forall i :: 0 <= i < |b.bufs| ==>
                b.results[i] == if !b.submitted[i] && old(b.results[i]).None? then Some(Err(error)) else old(b.results[i])
    {
      hide Good;
      ghost var v := Snapshot(b);
      b.MarkUnsubmittedError(error);
      GoodMark(v, b.results);
      assert Snapshot(b) == v.(results := b.results);
    }

    /** Exactly the entries in flight when the batch was cut short have been cancelled, and nothing else
        is in flight after that. */
    ghost predicate Cancels(b: ActiveTxBatch)
      reads this, b
    {
      && |asked| == |b.pending| && cancelled == CancelTags(epoch, asked, |asked|)
      && (forall i :: 0 <= i < |asked| && asked[i] ==> i < b.nextToSubmit)
      && (!b.cancelRequested ==> forall i :: 0 <= i < |asked| ==> !asked[i])
      && (b.cancelRequested ==> forall i :: 0 <= i < |asked| && b.pending[i] ==> asked[i])
    }

    /** Gives up on what was not submitted and asks the kernel to cancel the rest. */
    method CancelBatch(b: ActiveTxBatch, error: IoError) returns (ok: bool)
      requires Inv(b) && k.sq == [] && !b.cancelRequested && Cancels(b)
      modifies this`k, this`lo, this`hi, this`cancelled, this`asked, b`results, b`completed, b`cancelRequested
      ensures reliable ==> ok
      ensures b.Valid() && b.cancelRequested && b.Work() <= old(b.Work())
      ensures Keeps(old(b.results), b.results)
      ensures forall i :: b.nextToSubmit <= i < |b.bufs| ==>
                b.results[i] == if old(b.results[i]).None? then Some(Err(error)) else old(b.results[i])
      ensures ok ==> Inv(b) && k.sq == [] && asked == b.pending && Cancels(b)
    {
      hide Good;
      NoneAsked(epoch, asked, |asked|);
      GiveUp(b, error);
      GoodCancelRequest(Snapshot(b));
      b.cancelRequested := true;
      asked := b.pending;
      ok := SubmitCancels(b);
    }

    /** Not complete means something is pending, so the driver never waits for nothing. */
    lemma SomethingPending(b: ActiveTxBatch)
      requires b.Valid()
      requires !(forall i :: 0 <= i < |b.bufs| ==> b.results[i].Some?)
      requires b.cancelRequested || b.inFlight > 0 || b.nextToSubmit == |b.bufs|
      ensures b.inFlight > 0
    {
      CountExtremes(b.pending);
    }

    method SubmitMore(b: ActiveTxBatch) returns (ok: bool)
      requires Inv(b) && !b.cancelRequested && Fresh(b) && k.sq == []
      modifies this`k, this`lo, this`hi, this`cancelled, this`chains, b`submitted, b`pending, b`nextToSubmit, b`inFlight
      ensures reliable ==> ok
      ensures b.Valid() && Fresh(b) && b.Work() <= old(b.Work())
      ensures ok ==> Inv(b) && k.sq == [] && (b.inFlight > 0 || b.nextToSubmit == |b.bufs|)
      ensures ok ==> b.nextToSubmit <= old(b.nextToSubmit) + submitChunkSize && cancelled == old(cancelled)
      ensures ok ==> old(b.nextToSubmit) <= b.nextToSubmit
    {
      hide Good, ActiveTxBatch.Work;
      if b.keepOrder {
        ok := SubmitNextOrdered(b);
      } else {
        ok := SubmitUnordered(b);
      }
    }

    /** Cancels and, if that fails, fails the batch; says whether the batch is complete. */
    method CancelAndCheck(b: ActiveTxBatch, error: IoError) returns (complete: bool, ok: bool)
      requires Inv(b) && k.sq == [] && !b.cancelRequested && GivenUp(b) && Cancels(b)
      requires CutRound(b.deadline, b.dropAt).Some? && error == CutReason(b.deadline, b.dropAt)
      modifies this`k, this`lo, this`hi, this`cancelled, this`asked,
               b`results, b`completed, b`cancelRequested, b`pending, b`inFlight
      ensures reliable ==> ok
      ensures Keeps(old(b.results), b.results)
      ensures b.Valid() && b.cancelRequested
      ensures complete <==> forall i :: 0 <= i < |b.bufs| ==> b.results[i].Some?
      ensures ok ==> Inv(b) && k.sq == [] && GivenUp(b) && b.Work() <= old(b.Work())
      ensures ok ==> asked == b.pending && Cancels(b)
      ensures !ok ==> complete
    {
      hide Good, ActiveTxBatch.Work, CutRound, CutReason;
      ok := CancelBatch(b, error);
      if !ok {
        b.MarkDriverError(Os(0));
      }
      complete := b.IsComplete();
    }

    ghost predicate Serves(b: ActiveTxBatch, q: TxBatchRequest) {
      b.bufs == q.bufs && b.keepOrder == q.keepOrder && b.deadline == q.deadline && b.dropAt == q.dropAt
    }

    /** A new batch on an idle ring starts out right. */
    method Begin(q: TxBatchRequest) returns (b: ActiveTxBatch)
      requires Idle(k) && submitChunkSize > 0 && capacity > 0 && |q.bufs| <= INDEX_LIMIT
      modifies this
      ensures fresh(b) && Serves(b, q) && epoch == old(epoch) + 1
      ensures Inv(b) && k.sq == [] && GivenUp(b) && Fresh(b) && !b.cancelRequested && Cancels(b)
      ensures b.inFlight == 0 && b.nextToSubmit == 0 && cancelled == []
    {
      hide Good, Idle;
      b := new ActiveTxBatch(q.bufs, q.keepOrder, q.deadline, q.dropAt);
      epoch := epoch + 1;
      IdleStart(k, epoch, q.keepOrder, b.pending, b.results, Min(submitChunkSize, capacity));
      k := k.(issued := [], posted := []);
      chains, lo, hi, cancelled, asked := [], 0, 0, [], b.pending;
      NoneAsked(epoch, asked, |asked|);
    }

    /** A complete batch leaves the ring idle. */
    lemma Conclude(b: ActiveTxBatch, q: TxBatchRequest)
      requires Inv(b) && k.sq == [] && GivenUp(b) && Serves(b, q)
      requires forall i :: 0 <= i < |b.bufs| ==> b.results[i].Some?
      ensures Idle(k)
      ensures Report(b.results, k, epoch, q, chains, Min(submitChunkSize, capacity), b.nextToSubmit, asked)
    {
      hide Good, Report, Abandoned, IsWrite;
      CountExtremes(b.pending);
      NothingPending(Snapshot(b));
      Reported(Snapshot(b), q);
    }

    /** What an unsubmitted entry may end with. */
    ghost predicate GivenUp(b: ActiveTxBatch)
      reads b
    {
      && |b.results| == |b.bufs|
      && (forall i :: b.nextToSubmit <= i < |b.bufs| && b.results[i].Some? ==>
            Abandoned(b.results[i], b.deadline, b.dropAt))
      && (b.cancelRequested ==> CutRound(b.deadline, b.dropAt).Some?)
    }

    ghost predicate SomeAsked()
      reads this`asked
    {
      exists i :: 0 <= i < |asked| && asked[i]
    }

    /** The part of the loop of `run_batch` before the wait. A batch that is still unfinished is cut
        short in its round and not earlier. */
    method SubmitOrCancel(b: ActiveTxBatch, round: nat) returns (done: bool, ok: bool)
      requires Inv(b) && k.sq == [] && GivenUp(b) && (!b.cancelRequested ==> Fresh(b)) && Cancels(b)
      requires round > 0 && (b.cancelRequested <==> Reached(CutRound(b.deadline, b.dropAt), round - 1))
      modifies this`k, this`lo, this`hi, this`cancelled, this`asked, this`chains, b
      ensures reliable ==> ok
      ensures b.Valid() && Keeps(old(b.results), b.results)
      ensures ok ==> Inv(b) && k.sq == [] && GivenUp(b) && b.Work() <= old(b.Work()) && Cancels(b)
      ensures done <==> forall i :: 0 <= i < |b.bufs| ==> b.results[i].Some?
      ensures ok && !b.cancelRequested ==> Fresh(b)
      ensures ok && b.cancelRequested ==> Reached(CutRound(b.deadline, b.dropAt), round)
      ensures !done ==> ok && b.inFlight > 0 && (b.cancelRequested <==> Reached(CutRound(b.deadline, b.dropAt), round))
      ensures !done && b.cancelRequested && !old(b.cancelRequested) ==> asked == b.pending
      ensures ok && (old(b.cancelRequested) || !b.cancelRequested) ==> asked == old(asked) && cancelled == old(cancelled)
      ensures ok ==> b.nextToSubmit <= old(b.nextToSubmit) + (if old(b.cancelRequested) then 0 else submitChunkSize)
      ensures ok ==> old(b.nextToSubmit) <= b.nextToSubmit
    {
      hide Good, ActiveTxBatch.Work, CutRound, CutReason, Abandoned, CancelTags;
      ok := true;
      KernelRun(b);
      if !b.cancelRequested {
        ok := SubmitMore(b);
        if !ok {
          b.MarkDriverError(Os(0));
        }
      }
      done := b.IsComplete();
      if done {
        return;
      }
      SomethingPending(b);
      done, ok := CutIfDue(b, round);
    }

    /** The two checks of a round: a dropped future first, then the deadline. */
    method CutIfDue(b: ActiveTxBatch, round: nat) returns (done: bool, ok: bool)
      requires Inv(b) && k.sq == [] && GivenUp(b) && (!b.cancelRequested ==> Fresh(b)) && Cancels(b) && b.inFlight > 0
      requires round > 0 && (b.cancelRequested <==> Reached(CutRound(b.deadline, b.dropAt), round - 1))
      modifies this`k, this`lo, this`hi, this`cancelled, this`asked,
               b`results, b`completed, b`cancelRequested, b`pending, b`inFlight
      ensures reliable ==> ok
      ensures b.Valid() && Keeps(old(b.results), b.results)
      ensures ok ==> Inv(b) && k.sq == [] && GivenUp(b) && b.Work() <= old(b.Work()) && Cancels(b)
      ensures done <==> forall i :: 0 <= i < |b.bufs| ==> b.results[i].Some?
      ensures ok && !b.cancelRequested ==> Fresh(b)
      ensures ok && b.cancelRequested ==> Reached(CutRound(b.deadline, b.dropAt), round)
      ensures !done ==> ok && b.inFlight > 0 && (b.cancelRequested <==> Reached(CutRound(b.deadline, b.dropAt), round))
      ensures !done && b.cancelRequested && !old(b.cancelRequested) ==> asked == b.pending
      ensures ok && (old(b.cancelRequested) || !b.cancelRequested) ==> asked == old(asked) && cancelled == old(cancelled)
    {
      hide Good, ActiveTxBatch.Work, CutRound, CutReason, Abandoned, CancelTags;
      done, ok := false, true;
      CountExtremes(b.pending);
      if !b.cancelRequested {
        CutHappens(b.deadline, b.dropAt, round);
      }
      if Reached(b.dropAt, round) && !b.cancelRequested {
        done, ok := CancelAndCheck(b, Interrupted);
      }
      if !done && Reached(b.deadline, round) && !b.cancelRequested {
        done, ok := CancelAndCheck(b, TimedOut);
      }
      if !done {
        CountExtremes(b.pending);
        SomethingPendingStill(b);
      }
    }

    lemma SomethingPendingStill(b: ActiveTxBatch)
      requires b.Valid() && (b.cancelRequested || b.inFlight > 0)
      ensures !(forall i :: 0 <= i < |b.bufs| ==> b.results[i].Some?) ==> b.inFlight > 0
      ensures b.inFlight > 0 ==> !(forall i :: 0 <= i < |b.bufs| ==> b.results[i].Some?)
    {
      CountExtremes(b.pending);
    }

    lemma PendingAsked(b: ActiveTxBatch)
      requires b.Valid() && b.inFlight > 0
      ensures asked == b.pending ==> SomeAsked()
    {
      CountExtremes(b.pending);
    }

    /** One trip around the loop of `run_batch`. */
    method Iterate(b: ActiveTxBatch, round: nat, spurious: nat) returns (done: bool, ok: bool, left: nat)
      requires Inv(b) && k.sq == [] && GivenUp(b) && (!b.cancelRequested ==> Fresh(b)) && Cancels(b)
      requires round > 0 && (b.cancelRequested <==> Reached(CutRound(b.deadline, b.dropAt), round - 1))
      modifies this`k, this`lo, this`hi, this`cancelled, this`asked, this`chains, b
      ensures reliable ==> ok
      ensures b.Valid() && Keeps(old(b.results), b.results)
      ensures ok ==> Inv(b) && k.sq == [] && GivenUp(b) && Cancels(b)
      ensures done ==> forall i :: 0 <= i < |b.bufs| ==> b.results[i].Some?
      ensures ok && !b.cancelRequested ==> Fresh(b)
      ensures ok && b.cancelRequested ==> Reached(CutRound(b.deadline, b.dropAt), round)
      ensures !done ==> ok && (b.cancelRequested <==> Reached(CutRound(b.deadline, b.dropAt), round))
      ensures !done && b.cancelRequested && !old(b.cancelRequested) ==> SomeAsked()
      ensures ok && old(b.cancelRequested) ==> asked == old(asked)
      ensures ok ==> b.nextToSubmit <= old(b.nextToSubmit) + (if old(b.cancelRequested) then 0 else submitChunkSize)
      ensures ok ==> old(b.nextToSubmit) <= b.nextToSubmit
      ensures !done ==> left < spurious || (left == spurious && b.Work() < old(b.Work()))
    {
      hide Good, ActiveTxBatch.Work, CutRound, CutReason, CancelTags, SomeAsked, ReapAll, Abandoned;
      left := spurious;
      done, ok := SubmitOrCancel(b, round);
      if done {
        return;
      }
      PendingAsked(b);
      ok, left := WaitAndReap(b, spurious);
      done := !ok;
    }

    /** Waits and applies what arrived; a failure to wait fails the batch. */
    method WaitAndReap(b: ActiveTxBatch, spurious: nat) returns (ok: bool, left: nat)
      requires Inv(b) && k.sq == [] && b.inFlight > 0 && GivenUp(b) && (!b.cancelRequested ==> Fresh(b)) && Cancels(b)
      modifies this`k, this`lo, this`hi, b
      ensures reliable ==> ok
      ensures b.Valid() && Keeps(old(b.results), b.results)
      ensures b.nextToSubmit == old(b.nextToSubmit) && b.cancelRequested == old(b.cancelRequested)
      ensures ok ==> Inv(b) && k.sq == [] && GivenUp(b) && (!b.cancelRequested ==> Fresh(b)) && Cancels(b)
      ensures ok ==> left < spurious || (left == spurious && b.Work() < old(b.Work()))
      ensures ok ==> b.Work() <= old(b.Work())
      ensures !ok ==> forall i :: 0 <= i < |b.bufs| ==> b.results[i].Some?
    {
      hide Good, ActiveTxBatch.Work, CancelTags, ReapAll, Abandoned;
      ok, left := WaitForActivity(b, spurious);
      if !ok {
        b.MarkDriverError(Os(0));
        return;
      }
      ProcessCqes(b);
    }

    /** How many entries may have been submitted after that many rounds. */
    ghost predicate Within(q: TxBatchRequest, sent: nat, rounds: nat) {
      && sent <= rounds * submitChunkSize
      && (q.Cut().Some? ==> sent <= q.Cut().value * submitChunkSize)
    }

    lemma WithinZero(q: TxBatchRequest)
      ensures Within(q, 0, 0)
    {
    }

    lemma WithinNext(q: TxBatchRequest, sent: nat, rounds: nat, more: nat)
      requires Within(q, sent, rounds) && more <= (if Reached(q.Cut(), rounds) then 0 else submitChunkSize)
      ensures Within(q, sent + more, rounds + 1)
    {
      assert (rounds + 1) * submitChunkSize == rounds * submitChunkSize + submitChunkSize;
      if q.Cut().Some? && rounds < q.Cut().value {
        MulMonotone(rounds + 1, q.Cut().value, submitChunkSize);
      }
    }

    /** What a finished batch shows of its deadline and its dropped future. */
    lemma CutAccounts(b: ActiveTxBatch, q: TxBatchRequest, rounds: nat, t: Trace)
      requires b.Valid() && Serves(b, q) && Cancels(b) && GivenUp(b) && (!b.cancelRequested ==> Fresh(b))
      requires forall i :: 0 <= i < |b.bufs| ==> b.results[i].Some?
      requires Within(q, b.nextToSubmit, rounds) && (b.cancelRequested ==> Reached(q.Cut(), rounds))
      requires rounds > 0 && Reached(q.Cut(), rounds - 1) ==> SomeAsked()
      requires t.sent == b.nextToSubmit && t.rounds == rounds && t.asked == asked && t.cancelled == cancelled
      ensures CutShort(t, q, epoch, submitChunkSize)
    {
      hide CutRound, CutReason, CancelTags;
      assert b.nextToSubmit < |b.bufs| ==> b.results[b.nextToSubmit].Some?;
      if SomeAsked() {
        var i :| 0 <= i < |asked| && asked[i];
        AskedShows(epoch, asked, |asked|, i);
      }
    }

    /** The deadline has passed before anything was submitted. */
    method ExpireAtOnce(b: ActiveTxBatch, q: TxBatchRequest) returns (ghost t: Trace)
      requires Inv(b) && k.sq == [] && GivenUp(b) && Fresh(b) && !b.cancelRequested && Cancels(b) && Serves(b, q)
      requires b.nextToSubmit == 0 && cancelled == [] && Reached(b.deadline, 0)
      modifies b`results, b`completed
      ensures b.Valid() && forall i :: 0 <= i < |b.bufs| ==> b.results[i].Some?
      ensures Idle(k) && t == Trace(k, chains, 0, 0, asked, cancelled)
      ensures Accounts(t, TxBatchResponse(b.bufs, b.results), q, epoch, submitChunkSize, Min(submitChunkSize, capacity))
    {
      hide Good, Report, Idle, ActiveTxBatch.Work, CutRound, CutReason, CutShort;
      CutAtOnce(b.deadline, b.dropAt);
      GiveUp(b, TimedOut);
      Conclude(b, q);
      t := Trace(k, chains, 0, 0, asked, cancelled);
      CutAtZero(q, t);
    }

    /**
     `run_batch`. `fine` is false only if a ring call failed, and `rounds` counts the trips around the
     loop. The first loop variant, `budget`, is the number of wake-ups without a completion still to
     come: the loop ends under every kernel that keeps delivering completions.
     */
    method RunBatch(request: TxBatchRequest, spurious: nat)
      returns (r: TxBatchResponse, fine: bool, rounds: nat, ghost t: Trace)
      requires Idle(k) && submitChunkSize > 0 && capacity > 0 && |request.bufs| <= INDEX_LIMIT
      modifies this
      ensures reliable ==> fine
      ensures epoch == old(epoch) + 1
      ensures Answers(r, request)
      ensures fine ==> Idle(k) && t.k == k && t.rounds == rounds && t.cancelled == cancelled
      ensures fine ==> Accounts(t, r, request, epoch, submitChunkSize, Min(submitChunkSize, capacity))
    {
      hide Good, Report, Idle, ActiveTxBatch.Work, CutRound, CutReason, CancelTags, Within, CutShort, Abandoned, SomeAsked;
      var b := Begin(request);
      rounds := 0;
      WithinZero(request);
      if Reached(b.deadline, 0) {
        t := ExpireAtOnce(b, request);
        return TxBatchResponse(b.bufs, b.results), true, rounds, t;
      }
      NoCutYet(b.deadline, b.dropAt);
      var budget := spurious;
      var done, ok := false, true;
      while !done
        invariant fresh(b) && Serves(b, request) && epoch == old(epoch) + 1
        invariant b.Valid()
        invariant ok ==> Inv(b) && k.sq == [] && GivenUp(b) && (!b.cancelRequested ==> Fresh(b)) && Cancels(b)
        invariant done ==> forall i :: 0 <= i < |b.bufs| ==> b.results[i].Some?
        invariant !done || reliable ==> ok
        invariant !done ==> (b.cancelRequested <==> Reached(request.Cut(), rounds))
        invariant ok && b.cancelRequested ==> Reached(request.Cut(), rounds)
        invariant ok && Reached(request.Cut(), if done && rounds > 0 then rounds - 1 else rounds) ==> SomeAsked()
        invariant ok ==> Within(request, b.nextToSubmit, rounds)
        invariant done ==> rounds > 0
        decreases !done, budget, b.Work()
      {
        ghost var before, cancelling := b.nextToSubmit, b.cancelRequested;
        rounds := rounds + 1;
        done, ok, budget := Iterate(b, rounds, budget);
        if ok {
          WithinNext(request, before, rounds - 1, b.nextToSubmit - before);
        }
      }
      t := Trace(k, chains, b.nextToSubmit, rounds, asked, cancelled);
      if ok {
        Conclude(b, request);
        CutAccounts(b, request, rounds, t);
      }
      return TxBatchResponse(b.bufs, b.results), ok, rounds, t;
    }

    /**
     The commands of the driver thread, one batch after the other, until a ring call fails. Every
     batch finds an idle ring, so no completion of an earlier batch is ever reaped by a later one:
     the results of batch j come from completions of requests that batch j submitted. `traces` holds
     what the kernel did during each batch that ended without a failure.
     */
    method RunBatches(requests: seq<TxBatchRequest>, spurious: nat)
      returns (responses: seq<TxBatchResponse>, ghost traces: seq<Trace>)
      requires Idle(k) && submitChunkSize > 0 && capacity > 0
      requires forall r :: r in requests ==> |r.bufs| <= INDEX_LIMIT
      modifies this
      ensures |traces| <= |responses| <= |requests|
      ensures |traces| == |requests| ==> Idle(k)
      ensures |traces| < |requests| ==> !reliable && |responses| == |traces| + 1
      ensures epoch == old(epoch) + |responses|
      ensures forall j :: 0 <= j < |responses| ==> Answers(responses[j], requests[j])
      ensures forall j :: 0 <= j < |traces| ==>
                Accounts(traces[j], responses[j], requests[j], old(epoch) + j + 1, submitChunkSize, Min(submitChunkSize, capacity))
    {
      hide Idle, Accounts;
      responses, traces := [], [];
      var ok := true;
      while |responses| < |requests| && ok
        invariant |responses| <= |requests| && epoch == old(epoch) + |responses|
        invariant |traces| == |responses| - (if ok then 0 else 1)
        invariant (ok ==> Idle(k)) && (reliable ==> ok)
        invariant forall j :: 0 <= j < |responses| ==> Answers(responses[j], requests[j])
        invariant forall j :: 0 <= j < |traces| ==>
                    Accounts(traces[j], responses[j], requests[j], old(epoch) + j + 1, submitChunkSize, Min(submitChunkSize, capacity))
        decreases |requests| - |responses|
      {
        var request := requests[|responses|];
        var response, rounds;
        ghost var t;
        response, ok, rounds, t := RunBatch(request, spurious);
        responses := responses + [response];
        if ok {
          traces := traces + [t];
        }
      }
    }
  }

  /** What one batch did: the kernel at its end, with everything issued and posted since it began, the
      entries submitted, the trips around the loop, the entries in flight when it was cut short, and
      the cancellations the kernel accepted. */
  datatype Trace = Trace(k: Kernel, chains: seq<nat>, sent: nat, rounds: nat, asked: seq<bool>, cancelled: seq<Tag>)

  /** How a deadline or a dropped future shows. Without either everything is submitted and nothing
      cancelled. Otherwise no entry is submitted after the round of the cut, and if the batch went on
      after that round, exactly the entries then in flight, at least one, were cancelled. */
  ghost predicate CutShort(t: Trace, q: TxBatchRequest, epoch: nat, chunk: nat) {
    && |t.asked| == |q.bufs| && t.cancelled == CancelTags(epoch, t.asked, |t.asked|)
    && t.sent <= t.rounds * chunk
    && (forall i :: 0 <= i < |t.asked| && t.asked[i] ==> i < t.sent && Reached(q.Cut(), t.rounds))
    && match q.Cut()
       case None => t.sent == |q.bufs|
       case Some(round) => t.sent <= round * chunk && (t.rounds > round ==> t.cancelled != [])
  }

  /** A batch without driver failure: its report, the idle ring it left, and how it was cut short. */
  ghost predicate Accounts(t: Trace, r: TxBatchResponse, q: TxBatchRequest, epoch: nat, chunk: nat, size: nat) {
    && Report(r.results, t.k, epoch, q, t.chains, size, t.sent, t.asked)
    && Idle(t.k)
    && CutShort(t, q, epoch, chunk)
  }

  function Min(a: int, b: int): int { if a < b then a else b }

  lemma AllChunkWrites(v: View, len: nat, entries: seq<Req>)
    requires Good(v) && v.next + len <= |v.pending| && entries == Chunk(v.epoch, v.next, len)
    ensures AllWrites(entries)
  {
    ChunkWrites(v.epoch, v.next, len);
  }

  lemma IdleStart(k: Kernel, epoch: nat, keepOrder: bool, pending: seq<bool>, results: seq<Option<IoResult>>, size: nat)
    requires Idle(k) && |pending| == |results| <= INDEX_LIMIT
    requires forall i :: 0 <= i < |pending| ==> !pending[i] && results[i].None?
    ensures Good(View(k.(issued := [], posted := []), epoch, keepOrder, 0, pending, results, [], 0, 0, false, pending, size))
    ensures k.sq == []
  {
    hide IsWrite, Index, WriteTag;
    var k' := k.(issued := [], posted := []);
    assert Outstanding(k') == Outstanding(k);
    forall c | c in k.cq
      ensures !IsWrite(c.tag)
    {
      var j :| 0 <= j < |k.cq| && k.cq[j] == c;
      assert Reaped(k.cq)[j] == c.tag;
      assert c.tag in multiset(Reaped(k.cq));
      assert c.tag in Outstanding(k);
    }
  }

  lemma EntryWritten(v: View, i: nat)
    requires Recorded(v) && Executed(v.k) && i < v.next && v.results[i].Some?
    ensures Written(v.results, v.k, v.epoch, v.asked[i], i)
  {
    hide WriteTag, IsWrite;
    assert Answered(v.k.posted, v.epoch, i, v.results[i].value, v.asked[i]);
  }

  lemma Reported(v: View, q: TxBatchRequest)
    requires Good(v) && forall i :: 0 <= i < |v.pending| ==> !v.pending[i] && v.results[i].Some?
    requires q.keepOrder == v.keepOrder
    requires forall i :: v.next <= i < |v.results| ==> Abandoned(v.results[i], q.deadline, q.dropAt)
    ensures Report(v.results, v.k, v.epoch, q, v.chains, v.size, v.next, v.asked)
  {
    hide IsWrite, Index, WriteTag, Exact;
    forall i | 0 <= i < v.next
      ensures Written(v.results, v.k, v.epoch, v.asked[i], i)
    {
      EntryWritten(v, i);
    }
    if v.keepOrder {
      NothingPending(v);
      forall j | 0 <= j < |v.chains|
        ensures ChainReport(v.results, v.chains, v.next, j)
      {
        assert v.chains[j] <= Start(v.chains) <= v.next;
        if j + 1 < |v.chains| {
          assert v.chains[j + 1] <= Start(v.chains);
          ChainResults(v, v.chains[j], v.chains[j + 1]);
        } else {
          FinishedChain(v.k, v.epoch, Start(v.chains), v.lo, v.next);
          ChainResults(v, v.chains[j], v.next);
        }
      }
      assert Increasing(v.k.issued, v.epoch, v.next);
      assert |v.chains| > 0 ==> v.chains[0] == 0;
    }
  }

  /** The shape of a chain's completions carries over to its results. */
  lemma ChainResults(v: View, a: nat, b: nat)
    requires Recorded(v) && a <= b <= v.next <= INDEX_LIMIT && ChainShape(v.k.posted, v.epoch, a, b)
    requires forall i :: 0 <= i < |v.results| ==> v.results[i].Some?
    ensures OkPrefix(v.results, a, b)
  {
    hide IsWrite, Index, WriteTag;
    var mid :| SuccessesThenErrors(v.k.posted, v.epoch, a, mid, b);
    forall i | a <= i < b
      ensures v.results[i].value.Ok? <==> i < mid
    {
      WriteTagDecodes(v.epoch, i);
      WriteTagEpoch(v.epoch, i);
      var c :| c in v.k.posted && c.tag == WriteTag(v.epoch, i) && From(v.results[i].value, c.res, v.asked[i]);
    }
    assert OkUpTo(v.results, a, mid, b);
  }

  /** A pending entry's request is in the kernel or completed, once the queue is flushed. */
  lemma WriteSomewhere(v: View)
    requires Good(v) && v.k.sq == [] && exists i :: 0 <= i < |v.pending| && v.pending[i]
    ensures v.k.pool == [] ==> exists j :: 0 <= j < |v.k.cq| && IsWrite(v.k.cq[j].tag)
  {
    hide IsWrite, Recorded, InOrder, WriteTag;
    var i :| 0 <= i < |v.pending| && v.pending[i];
    var t := WriteTag(v.epoch, i);
    WriteTagDecodes(v.epoch, i);
    assert t in Outstanding(v.k);
    if v.k.pool == [] {
      assert Tags(v.k.sq) == [] && Tags(v.k.pool) == [];
      assert t in Reaped(v.k.cq);
      var j :| 0 <= j < |v.k.cq| && Reaped(v.k.cq)[j] == t;
    }
  }

  lemma PoolIsWrites(v: View)
    requires Good(v)
    ensures forall p :: 0 <= p < |v.k.pool| ==> IsWrite(v.k.pool[p].tag)
  {
    hide IsWrite, Recorded, InOrder, Exact;
    forall p | 0 <= p < |v.k.pool|
      ensures IsWrite(v.k.pool[p].tag)
    {
      assert v.k.pool[p] in v.k.pool;
    }
  }

  lemma RunPosts(k: Kernel, p: nat, res: int, proceed: bool)
    requires Startable(k, p) && (proceed ==> res >= 0)
    ensures |Run(k, p, res, proceed).cq| > |k.cq|
    ensures Run(k, p, res, proceed).cq[|k.cq|].tag == k.pool[p].tag
    ensures Run(k, p, res, proceed).sq == k.sq
  {
  }

  lemma GoodMark(v: View, results: seq<Option<IoResult>>)
    requires Good(v) && |results| == |v.results|
    requires forall i :: 0 <= i < v.next ==> results[i] == v.results[i]
    ensures Good(v.(results := results))
  {
    hide IsWrite, WriteTag, From, Exact, Ordered, History;
  }

  /** Results of entries a..b: successes up to some entry, errors from there on. */
  ghost predicate OkPrefix(results: seq<Option<IoResult>>, a: nat, b: nat) {
    exists mid :: OkUpTo(results, a, mid, b)
  }

  ghost predicate OkUpTo(results: seq<Option<IoResult>>, a: nat, mid: nat, b: nat) {
    && a <= mid <= b <= |results|
    && forall i :: a <= i < b ==> results[i].Some? && (results[i].value.Ok? <==> i < mid)
  }

  /** Chain j, which runs to the start of the next chain or to the last submitted entry. */
  ghost predicate ChainReport(results: seq<Option<IoResult>>, chains: seq<nat>, sent: nat, j: nat)
    requires j < |chains|
  {
    chains[j] <= sent && OkPrefix(results, chains[j], if j + 1 < |chains| then chains[j + 1] else sent)
  }

  /** An entry that was not submitted carries the reason why the batch was cut short. */
  predicate Abandoned(r: Option<IoResult>, deadline: Option<nat>, dropAt: Option<nat>) {
    CutRound(deadline, dropAt).Some? && r == Some(Err(CutReason(deadline, dropAt)))
  }

  /** Entry i got the result of its own write, and was written if that was a success. */
  ghost predicate Written(results: seq<Option<IoResult>>, k: Kernel, epoch: nat, asked: bool, i: nat)
    requires i < |results|
  {
    && results[i].Some?
    && Answered(k.posted, epoch, i, results[i].value, asked)
    && (results[i].value.Ok? ==> WriteTag(epoch, i) in k.issued)
  }

  /** What a batch that ended without a driver failure has done: the first `sent` entries were written
      or failed on their own, the others carry the reason why the batch was cut short. An ordered batch
      was executed in strictly increasing index, in chains of `size` entries, each of which reads as
      successes, then errors. */
  ghost predicate Report(results: seq<Option<IoResult>>, k: Kernel, epoch: nat, q: TxBatchRequest,
                         chains: seq<nat>, size: nat, sent: nat, asked: seq<bool>)
  {
    && sent <= |results| == |asked|
    && (forall i :: 0 <= i < sent ==> Written(results, k, epoch, asked[i], i))
    && (forall i :: sent <= i < |results| ==> Abandoned(results[i], q.deadline, q.dropAt))
    && (q.keepOrder ==>
          && Increasing(k.issued, epoch, sent)
          && Chunked(chains, sent, sent, size)
          && (forall j :: 0 <= j < |chains| ==> ChainReport(results, chains, sent, j)))
  }

  /** A submitted entry never ends Interrupted, and ends TimedOut only if it was cancelled. */
  lemma SubmittedEnds(results: seq<Option<IoResult>>, k: Kernel, epoch: nat, q: TxBatchRequest,
                      chains: seq<nat>, size: nat, sent: nat, asked: seq<bool>, i: nat)
    requires Report(results, k, epoch, q, chains, size, sent, asked) && i < sent
    ensures results[i] != Some(Err(Interrupted))
    ensures results[i] == Some(Err(TimedOut)) ==> asked[i]
  {
    hide WriteTag;
    assert Written(results, k, epoch, asked[i], i);
  }

  lemma CutAtZero(q: TxBatchRequest, t: Trace)
    requires q.Cut() == Some(0) && t.sent == 0 && t.rounds == 0 && t.cancelled == []
    requires |t.asked| == |q.bufs| && forall i :: 0 <= i < |t.asked| ==> !t.asked[i]
    ensures forall epoch, chunk :: CutShort(t, q, epoch, chunk)
  {
    forall epoch: nat, chunk: nat
      ensures CutShort(t, q, epoch, chunk)
    {
      NoneAsked(epoch, t.asked, |t.asked|);
    }
  }

  lemma MulMonotone(a: nat, b: nat, c: nat)
    requires a <= b
    ensures a * c <= b * c
  {
  }

  lemma CutAtOnce(deadline: Option<nat>, dropAt: Option<nat>)
    requires Reached(deadline, 0)
    ensures CutRound(deadline, dropAt) == Some(0) && CutReason(deadline, dropAt) == TimedOut
  {
  }

  lemma NoCutYet(deadline: Option<nat>, dropAt: Option<nat>)
    requires !Reached(deadline, 0)
    ensures !Reached(CutRound(deadline, dropAt), 0)
  {
  }

  lemma SizeFits(v: View)
    requires Good(v)
    ensures |v.pending| <= INDEX_LIMIT
  {
  }

  lemma CancelHitFrame(k: Kernel, p: nat, res: int)
    requires p < |k.pool| && res < 0
    ensures CancelHit(k, p, res).sq == k.sq
  {
  }
}
