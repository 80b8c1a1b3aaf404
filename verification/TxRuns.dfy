/** What every step of driver and kernel keeps, as long as no driver call has failed. */
module TxRuns {
  import opened Common
  import opened TxUserData
  import opened TxBatch
  import opened TxKernel

  // ----- outstanding requests and pending entries -----

  /** The outstanding writes are exactly the pending entries of the current batch, each once. */
  ghost predicate Exact(out: multiset<Tag>, epoch: nat, pending: seq<bool>) {
    && (forall i :: 0 <= i < |pending| && pending[i] ==> out[WriteTag(epoch, i)] == 1)
    && (forall t :: t in out && IsWrite(t) ==>
          t.epoch == epoch && Index(t) < |pending| && pending[Index(t)] && t == WriteTag(epoch, Index(t)))
  }

  lemma ExactPush(out: multiset<Tag>, epoch: nat, pending: seq<bool>, i: nat)
    requires Exact(out, epoch, pending) && i < |pending| <= INDEX_LIMIT && !pending[i]
    ensures Exact(out + multiset{WriteTag(epoch, i)}, epoch, pending[i := true])
  {
    hide IsWrite, Index, WriteTag;
    WriteTagDecodes(epoch, i);
    WriteTagEpoch(epoch, i);
    forall j | 0 <= j < |pending| && j != i
      ensures WriteTag(epoch, j) != WriteTag(epoch, i)
    {
      WriteTagDecodes(epoch, j);
    }
  }

  lemma ExactReap(out: multiset<Tag>, epoch: nat, pending: seq<bool>, i: nat)
    requires Exact(out, epoch, pending) && i < |pending| <= INDEX_LIMIT && pending[i]
    ensures Exact(out - multiset{WriteTag(epoch, i)}, epoch, pending[i := false])
  {
    hide IsWrite, Index, WriteTag;
    WriteTagDecodes(epoch, i);
    forall j | 0 <= j < |pending| && j != i
      ensures WriteTag(epoch, j) != WriteTag(epoch, i)
    {
      WriteTagDecodes(epoch, j);
    }
  }

  lemma ExactOther(out: multiset<Tag>, epoch: nat, pending: seq<bool>, t: Tag)
    requires Exact(out, epoch, pending) && !IsWrite(t)
    requires |pending| <= INDEX_LIMIT
    ensures Exact(out + multiset{t}, epoch, pending) && Exact(out - multiset{t}, epoch, pending)
  {
    hide IsWrite, Index, WriteTag;
    forall j | 0 <= j < |pending|
      ensures WriteTag(epoch, j) != t
    {
      WriteTagDecodes(epoch, j);
    }
  }

  // ----- the joint invariant -----

  /** `size` is the longest chain the driver submits, `cancelled` whether the batch is being cancelled,
      and `asked` which entries were in flight then. */
  datatype View = View(
    k: Kernel, epoch: nat, keepOrder: bool, next: nat, pending: seq<bool>, results: seq<Option<IoResult>>,
    chains: seq<nat>, lo: nat, hi: nat, cancelled: bool, asked: seq<bool>, size: nat)

  /** What a completion means for its entry: a count, the error number, or, for an entry that was
      asked to cancel, a timeout in place of ECANCELED. */
  ghost predicate From(r: IoResult, res: int, asked: bool) {
    || (res >= 0 && r == Ok(res))
    || (res < 0 && r == Err(Os(-res)))
    || (asked && res == -ECANCELED && r == Err(TimedOut))
  }

  /** The kernel posted a completion for entry i of this batch from which the result was made. */
  ghost predicate Answered(posted: seq<Cqe>, epoch: nat, i: nat, r: IoResult, asked: bool) {
    exists c :: c in posted && c.tag == WriteTag(epoch, i) && From(r, c.res, asked)
  }

  /** Reaped results come from completions the kernel posted for that very entry. */
  ghost predicate Recorded(v: View) {
    && |v.pending| == |v.results| == |v.asked| && v.next <= |v.results|
    && (forall c :: c in v.k.cq && IsWrite(c.tag) ==> c in v.k.posted)
    && (forall i :: 0 <= i < v.next && v.results[i].Some? ==>
          Answered(v.k.posted, v.epoch, i, v.results[i].value, v.asked[i]))
  }

  function Start(chains: seq<nat>): nat { if |chains| == 0 then 0 else chains[|chains| - 1] }

  /** The completions of entries a..b are successes up to some entry and errors from there on. */
  ghost predicate ChainShape(posted: seq<Cqe>, epoch: nat, a: nat, b: nat) {
    exists mid :: SuccessesThenErrors(posted, epoch, a, mid, b)
  }

  /** Every finished chain reads as successes, then errors. */
  ghost predicate History(posted: seq<Cqe>, epoch: nat, chains: seq<nat>) {
    && (|chains| > 0 ==> chains[0] == 0)
    && (forall i, j :: 0 <= i < j < |chains| ==> chains[i] <= chains[j])
    && (forall j :: 0 <= j < |chains| - 1 ==>
          ChainShape(posted, epoch, chains[j], chains[j + 1]))
  }

  /** The chains cut the first `next` of `total` entries into chunks of `size`; only the chain that
      reaches the end of the batch may be shorter. */
  ghost predicate Chunked(chains: seq<nat>, next: nat, total: nat, size: nat) {
    && (|chains| == 0 <==> next == 0)
    && (|chains| > 0 ==>
          && chains[0] == 0
          && Start(chains) < next <= Start(chains) + size
          && (next < total ==> next == Start(chains) + size))
    && (forall j :: 0 <= j < |chains| - 1 ==> chains[j + 1] == chains[j] + size)
  }

  ghost predicate InOrder(v: View) {
    && Ordered(v.k, v.epoch, Start(v.chains), v.lo, v.hi, v.next)
    && History(v.k.posted, v.epoch, v.chains)
    && Chunked(v.chains, v.next, |v.pending|, v.size)
  }

  ghost predicate Good(v: View) {
    && v.next <= |v.pending| == |v.results| <= INDEX_LIMIT
    && Recorded(v)
    && (forall i :: v.next <= i < |v.pending| ==> !v.pending[i])
    && Exact(Outstanding(v.k), v.epoch, v.pending)
    && (forall r :: r in v.k.pool ==> IsWrite(r.tag))
    && Executed(v.k)
    && (v.cancelled ==> forall i :: 0 <= i < |v.pending| && v.pending[i] ==> v.asked[i])
    && (v.keepOrder ==> InOrder(v))
  }

  lemma HistoryGrows(posted: seq<Cqe>, more: seq<Cqe>, epoch: nat, chains: seq<nat>)
    requires History(posted, epoch, chains)
    requires forall c :: c in more ==> IsWrite(c.tag) && Index(c.tag) >= Start(chains)
    ensures History(posted + more, epoch, chains)
  {
    hide IsWrite, Index;
    forall j | 0 <= j < |chains| - 1
      ensures ChainShape(posted + more, epoch, chains[j], chains[j + 1])
    {
      var mid :| SuccessesThenErrors(posted, epoch, chains[j], mid, chains[j + 1]);
      assert chains[j + 1] <= Start(chains);
      assert SuccessesThenErrors(posted + more, epoch, chains[j], mid, chains[j + 1]);
    }
  }

  lemma RecordedGrows(v: View, k: Kernel)
    requires Recorded(v)
    requires forall c :: c in v.k.posted ==> c in k.posted
    requires forall c :: c in k.cq && IsWrite(c.tag) ==> c in k.posted
    ensures Recorded(v.(k := k))
  {
    hide IsWrite, WriteTag, From;
    forall i | 0 <= i < v.next && v.results[i].Some?
      ensures Answered(k.posted, v.epoch, i, v.results[i].value, v.asked[i])
    {
      var c :| c in v.k.posted && c.tag == WriteTag(v.epoch, i) && From(v.results[i].value, c.res, v.asked[i]);
      assert c in k.posted;
    }
  }

  /** Dropping requests from the pool keeps everything but the order, which is checked apart. */
  lemma DropRecorded(v: View, p: nat, q: nat, first: int, k: Kernel)
    requires Good(v) && p < q <= |v.k.pool| && k == Drop(v.k, p, q, first).(issued := k.issued)
    ensures Recorded(v.(k := k)) && Exact(Outstanding(k), v.epoch, v.pending)
    ensures forall r :: r in k.pool ==> IsWrite(r.tag)
  {
    hide IsWrite, WriteTag, From, Completions, Exact, Index;
    DropConserves(v.k, p, q, first);
    RecordedGrows(v, k);
    forall r | r in k.pool
      ensures IsWrite(r.tag)
    {
      PoolShrinks(v.k.pool, p, q, r);
    }
  }

  lemma PoolShrinks(pool: seq<Req>, p: nat, q: nat, r: Req)
    requires p < q <= |pool| && r in Cut(pool, p, q)
    ensures exists r' :: r' in pool && r'.tag == r.tag
  {
    var i :| 0 <= i < |Cut(pool, p, q)| && Cut(pool, p, q)[i] == r;
    if i < p {
      assert pool[i].tag == r.tag;
    } else {
      assert pool[q + i - p] == r;
    }
  }

  lemma GoodRun(v: View, p: nat, res: int, proceed: bool) returns (v': View)
    requires Good(v) && Startable(v.k, p) && (proceed ==> res >= 0)
    ensures Good(v') && v' == v.(k := Run(v.k, p, res, proceed), lo := v'.lo, hi := v'.hi)
  {
    hide IsWrite, WriteTag, Recorded, Exact, Index, Ordered, History, Completions;
    var k := Run(v.k, p, res, proceed);
    var q := if proceed then p + 1 else ChainEnd(v.k.pool, p);
    DropRecorded(v, p, q, res, k);
    RunExecuted(v.k, p, res, proceed);
    v' := v.(k := k);
    if v.keepOrder {
      var lo', hi' := RunOrdered(v.k, v.epoch, Start(v.chains), v.lo, v.hi, v.next, p, res, proceed);
      v' := v.(k := k, lo := lo', hi := hi');
      DropHistory(v, p, q, res);
    }
    assert Recorded(v') by { RecordedGhost(v.(k := k), v'); }
  }

  lemma RecordedGhost(v: View, v': View)
    requires Recorded(v) && v' == v.(chains := v'.chains, lo := v'.lo, hi := v'.hi)
    ensures Recorded(v')
  {
  }

  lemma DropHistory(v: View, p: nat, q: nat, first: int)
    requires InOrder(v) && p < q <= |v.k.pool| && v.next <= INDEX_LIMIT
    ensures History(Drop(v.k, p, q, first).posted, v.epoch, v.chains)
  {
    hide IsWrite, WriteTag, Index, History, Completions;
    DroppedTail(v.k.pool, v.epoch, v.lo, v.hi, p, q, first);
    HistoryGrows(v.k.posted, Completions(v.k.pool[p..q], first), v.epoch, v.chains);
  }

  lemma GoodCancelHit(v: View, p: nat, res: int) returns (v': View)
    requires Good(v) && p < |v.k.pool| && res < 0
    ensures Good(v') && v' == v.(k := CancelHit(v.k, p, res), hi := v'.hi)
  {
    hide IsWrite, WriteTag, Recorded, Exact, Index, Ordered, History, Completions;
    var k := CancelHit(v.k, p, res);
    var q := ChainEnd(v.k.pool, p);
    DropRecorded(v, p, q, res, k);
    CancelExecuted(v.k, p, res);
    v' := v.(k := k);
    if v.keepOrder {
      var hi' := CancelOrdered(v.k, v.epoch, Start(v.chains), v.lo, v.hi, v.next, p, res);
      v' := v.(k := k, hi := hi');
      DropHistory(v, p, q, res);
    }
    assert Recorded(v') by { RecordedGhost(v.(k := k), v'); }
  }

  // ----- driver steps -----

  /** From now on ECANCELED reads as a timeout for the entries in flight. */
  lemma GoodCancelRequest(v: View)
    requires Good(v) && forall i :: 0 <= i < |v.asked| ==> !v.asked[i]
    ensures Good(v.(cancelled := true, asked := v.pending))
  {
    hide IsWrite, WriteTag, Exact, Index, Ordered, History, Executed;
    forall i | 0 <= i < v.next && v.results[i].Some?
      ensures Answered(v.k.posted, v.epoch, i, v.results[i].value, v.pending[i])
    {
      var c :| c in v.k.posted && c.tag == WriteTag(v.epoch, i) && From(v.results[i].value, c.res, v.asked[i]);
      assert From(v.results[i].value, c.res, v.pending[i]);
    }
  }

  /** A cancellation request leaves the submission queue and completes. */
  lemma GoodCancelDone(v: View, res: int)
    requires Good(v) && |v.k.sq| > 0 && !IsWrite(v.k.sq[0].tag)
    ensures var c := Cqe(v.k.sq[0].tag, res);
            Good(v.(k := v.k.(sq := v.k.sq[1..], cq := v.k.cq + [c])))
  {
    hide IsWrite, WriteTag, Exact, Index, Ordered, History, From;
    var k := v.k.(sq := v.k.sq[1..], cq := v.k.cq + [Cqe(v.k.sq[0].tag, res)]);
    SqHeadMoves(v.k);
    assert Reaped(k.cq) == Reaped(v.k.cq) + [v.k.sq[0].tag];
    assert Outstanding(k) == Outstanding(v.k);
    RecordedGrows(v, k);
    assert v.keepOrder ==> Ordered(k, v.epoch, Start(v.chains), v.lo, v.hi, v.next) by {
      if v.keepOrder { OrderedIgnoresQueues(v.k, k, v.epoch, Start(v.chains), v.lo, v.hi, v.next); }
    }
  }

  lemma SqHeadMoves(k: Kernel)
    requires |k.sq| > 0
    ensures multiset(Tags(k.sq)) == multiset(Tags(k.sq[1..])) + multiset{k.sq[0].tag}
  {
    assert Tags(k.sq) == [k.sq[0].tag] + Tags(k.sq[1..]);
  }

  lemma OrderedIgnoresQueues(k: Kernel, k': Kernel, epoch: nat, start: nat, lo: nat, hi: nat, next: nat)
    requires Ordered(k, epoch, start, lo, hi, next)
    requires k'.pool == k.pool && k'.issued == k.issued && k'.posted == k.posted
    ensures Ordered(k', epoch, start, lo, hi, next)
  {
  }

  /** An unordered write goes from the submission queue to the kernel. */
  lemma GoodAccept(v: View)
    requires Good(v) && !v.keepOrder && |v.k.sq| > 0 && IsWrite(v.k.sq[0].tag)
    ensures Good(v.(k := v.k.(sq := v.k.sq[1..], pool := v.k.pool + [v.k.sq[0]])))
  {
    hide IsWrite, WriteTag, Exact, Index, From;
    var k := v.k.(sq := v.k.sq[1..], pool := v.k.pool + [v.k.sq[0]]);
    SqHeadMoves(v.k);
    assert Tags(k.pool) == Tags(v.k.pool) + [v.k.sq[0].tag];
    assert Outstanding(k) == Outstanding(v.k);
    RecordedGrows(v, k);
  }

  /** Pushing the next entry of an unordered batch. */
  function PushWrite(v: View): View
    requires v.next < |v.pending|
  {
    v.(k := v.k.(sq := v.k.sq + [Req(WriteTag(v.epoch, v.next), false)]), next := v.next + 1,
       pending := v.pending[v.next := true])
  }

  lemma GoodPushWrite(v: View)
    requires Good(v) && !v.cancelled && !v.keepOrder && v.next < |v.pending| && v.results[v.next].None?
    ensures Good(PushWrite(v))
  {
    hide IsWrite, WriteTag, Exact, Index, Recorded, InOrder, Outstanding;
    RecordedChain(v, PushWrite(v));
    PushedOutstanding(v.k, WriteTag(v.epoch, v.next));
    ExactPush(Outstanding(v.k), v.epoch, v.pending, v.next);
  }

  lemma PushedOutstanding(k: Kernel, t: Tag)
    ensures Outstanding(k.(sq := k.sq + [Req(t, false)])) == Outstanding(k) + multiset{t}
  {
    assert Tags(k.sq + [Req(t, false)]) == Tags(k.sq) + [t];
  }

  /** Pushing a cancellation. */
  lemma GoodPushCancel(v: View, index: nat)
    requires Good(v) && index < INDEX_LIMIT
    ensures Good(v.(k := v.k.(sq := v.k.sq + [Req(Tag(CancelUserData(index), v.epoch), false)])))
    ensures !IsWrite(Tag(CancelUserData(index), v.epoch))
  {
    hide WriteTag, Exact, Index, From, Ordered, History, CancelUserData, UserDataKind;
    CancelRoundTrip(index);
    var t := Tag(CancelUserData(index), v.epoch);
    var k := v.k.(sq := v.k.sq + [Req(t, false)]);
    PushedOutstanding(v.k, t);
    ExactOther(Outstanding(v.k), v.epoch, v.pending, t);
    RecordedGrows(v, k);
    assert v.keepOrder ==> Ordered(k, v.epoch, Start(v.chains), v.lo, v.hi, v.next) by {
      if v.keepOrder { OrderedIgnoresQueues(v.k, k, v.epoch, Start(v.chains), v.lo, v.hi, v.next); }
    }
  }

  /** The linked requests of entries from..from+len. */
  function Chunk(epoch: nat, from: nat, len: nat): (r: seq<Req>)
    ensures IsChain(r, epoch, from, from + len)
  {
    seq(len, i requires 0 <= i < len => Req(WriteTag(epoch, from + i), i + 1 < len))
  }

  function SetRange(pending: seq<bool>, from: nat, len: nat): (r: seq<bool>)
    requires from + len <= |pending|
    ensures |r| == |pending|
    ensures forall i :: 0 <= i < |r| ==> r[i] == (pending[i] || from <= i < from + len)
  {
    seq(|pending|, i requires 0 <= i < |pending| => pending[i] || from <= i < from + len)
  }

  lemma {:induction false} ExactChunk(out: multiset<Tag>, epoch: nat, pending: seq<bool>, from: nat, len: nat)
    requires Exact(out, epoch, pending) && from + len <= |pending| <= INDEX_LIMIT
    requires forall i :: from <= i < from + len ==> !pending[i]
    ensures Exact(out + multiset(Tags(Chunk(epoch, from, len))), epoch, SetRange(pending, from, len))
    decreases len
  {
    hide IsWrite, Index, WriteTag, Exact;
    if len == 0 {
      assert SetRange(pending, from, 0) == pending;
      assert Tags(Chunk(epoch, from, 0)) == [];
      assert out + multiset(Tags(Chunk(epoch, from, 0))) == out;
    } else {
      ExactChunk(out, epoch, pending, from, len - 1);
      var before := SetRange(pending, from, len - 1);
      ExactPush(out + multiset(Tags(Chunk(epoch, from, len - 1))), epoch, before, from + len - 1);
      assert before[from + len - 1 := true] == SetRange(pending, from, len);
      assert Tags(Chunk(epoch, from, len)) == Tags(Chunk(epoch, from, len - 1)) + [WriteTag(epoch, from + len - 1)];
      assert out + multiset(Tags(Chunk(epoch, from, len)))
             == out + multiset(Tags(Chunk(epoch, from, len - 1))) + multiset{WriteTag(epoch, from + len - 1)};
    }
  }

  /** Submitting the next chain of an ordered batch. */
  function SubmitChain(v: View, len: nat): View
    requires v.next + len <= |v.pending|
  {
    v.(k := v.k.(pool := v.k.pool + Chunk(v.epoch, v.next, len)), next := v.next + len,
       pending := SetRange(v.pending, v.next, len), chains := v.chains + [v.next], lo := v.next, hi := v.next + len)
  }

  lemma ChainExact(v: View, len: nat)
    requires Good(v) && v.next + len <= |v.pending|
    ensures Exact(Outstanding(SubmitChain(v, len).k), v.epoch, SetRange(v.pending, v.next, len))
  {
    hide Exact, Recorded, InOrder, IsWrite;
    var chunk := Chunk(v.epoch, v.next, len);
    ExactChunk(Outstanding(v.k), v.epoch, v.pending, v.next, len);
    assert Tags(v.k.pool + chunk) == Tags(v.k.pool) + Tags(chunk);
    assert Outstanding(SubmitChain(v, len).k) == Outstanding(v.k) + multiset(Tags(chunk));
  }

  lemma ChunkWrites(epoch: nat, from: nat, len: nat)
    requires from + len <= INDEX_LIMIT
    ensures forall r :: r in Chunk(epoch, from, len) ==> IsWrite(r.tag)
  {
    hide IsWrite, WriteTag;
    forall i | 0 <= i < len
      ensures IsWrite(Chunk(epoch, from, len)[i].tag)
    {
      WriteTagDecodes(epoch, from + i);
    }
  }

  /** No chain is submitted until every earlier entry has its result, so the order is kept. */
  lemma GoodSubmitChain(v: View, len: nat)
    requires Good(v) && !v.cancelled && v.keepOrder && v.next + len <= |v.pending|
    requires 0 < len <= v.size && (len == v.size || v.next + len == |v.pending|)
    requires forall i :: 0 <= i < |v.pending| ==> !v.pending[i]
    requires forall i :: v.next <= i < |v.pending| ==> v.results[i].None?
    ensures Good(SubmitChain(v, len))
  {
    var v' := SubmitChain(v, len);
    assert Recorded(v') by { RecordedChain(v, v'); }
    hide IsWrite, WriteTag, Exact, InOrder, Recorded, Chunk, Outstanding;
    ChainExact(v, len);
    NothingPending(v);
    assert v'.k.pool == Chunk(v.epoch, v.next, len);
    ChunkWrites(v.epoch, v.next, len);
    NextChainOrdered(v, len);
  }

  lemma RecordedChain(v: View, v': View)
    requires Recorded(v) && v.next <= v'.next <= |v.pending| == |v'.pending|
    requires v'.results == v.results && v'.epoch == v.epoch && v'.asked == v.asked
    requires v'.k.cq == v.k.cq && v'.k.posted == v.k.posted
    requires forall i :: v.next <= i < v'.next && i < |v.results| ==> v.results[i].None?
    ensures Recorded(v')
  {
    hide IsWrite, WriteTag, From;
  }

  /** With no entry pending no write of any batch is left in the kernel. */
  lemma NothingPending(v: View)
    requires Good(v) && forall i :: 0 <= i < |v.pending| ==> !v.pending[i]
    ensures forall t :: t in Outstanding(v.k) ==> !IsWrite(t)
    ensures v.k.pool == []
    ensures v.keepOrder ==> v.lo == v.hi
  {
    hide IsWrite, WriteTag, Index, Recorded;
    HeadOutstanding(v.k);
  }

  lemma HeadOutstanding(k: Kernel)
    ensures |k.pool| > 0 ==> k.pool[0] in k.pool && k.pool[0].tag in Outstanding(k)
  {
    if |k.pool| > 0 {
      assert k.pool[0].tag == Tags(k.pool)[0];
      assert k.pool[0].tag in multiset(Tags(k.pool));
    }
  }

  lemma NextChainOrdered(v: View, len: nat)
    requires Good(v) && !v.cancelled && v.keepOrder && v.next + len <= |v.pending|
    requires 0 < len <= v.size && (len == v.size || v.next + len == |v.pending|)
    requires v.k.pool == [] && v.lo == v.hi
    ensures InOrder(SubmitChain(v, len))
  {
    hide IsWrite, WriteTag, Exact, Index, Recorded;
    var v' := SubmitChain(v, len);
    assert v'.k.pool == Chunk(v.epoch, v.next, len);
    assert Start(v'.chains) == v.next;
    if |v.chains| > 0 {
      FinishedChain(v.k, v.epoch, Start(v.chains), v.lo, v.next);
      assert ChainShape(v.k.posted, v.epoch, Start(v.chains), v.next);
    }
    assert History(v.k.posted, v.epoch, v'.chains);
  }

  /** Reaping the oldest completion. */
  function Reap(v: View): (r: View)
    requires |v.k.cq| > 0 && |v.pending| == |v.results|
    ensures |r.pending| == |r.results| && r.k == v.k.(cq := v.k.cq[1..])
  {
    var c := v.k.cq[0];
    var v0 := v.(k := v.k.(cq := v.k.cq[1..]));
    match UserDataKind(c.tag.userData)
    case Write(i) =>
      if i < |v.pending| && v.pending[i]
      then v0.(pending := v.pending[i := false], results := v.results[i := Some(CqeResult(c.res, v.cancelled))])
      else v0
    case _ => v0
  }

  /** Reaping everything in the queue, oldest first. */
  function ReapAll(v: View): View
    requires |v.pending| == |v.results|
    decreases |v.k.cq|
  {
    if |v.k.cq| == 0 then v else ReapAll(Reap(v))
  }

  /** Every reaped write completion belongs to the current batch and to the entry it decodes to. */
  lemma ReapedBelongs(v: View)
    requires Good(v) && |v.k.cq| > 0 && IsWrite(v.k.cq[0].tag)
    ensures var t := v.k.cq[0].tag;
            t.epoch == v.epoch && Index(t) < v.next && v.pending[Index(t)] && t == WriteTag(v.epoch, Index(t))
  {
    hide IsWrite, WriteTag, Index, Recorded;
    var t := v.k.cq[0].tag;
    assert t == Reaped(v.k.cq)[0];
    assert t in multiset(Reaped(v.k.cq));
    assert t in Outstanding(v.k);
  }

  lemma ReapExact(v: View)
    requires Good(v) && |v.k.cq| > 0
    ensures var v' := Reap(v); Exact(Outstanding(v'.k), v'.epoch, v'.pending)
  {
    hide WriteTag, Exact, InOrder, UserDataKind, Recorded;
    var v' := Reap(v);
    var c := v.k.cq[0];
    assert Reaped(v.k.cq) == [c.tag] + Reaped(v'.k.cq);
    assert Outstanding(v'.k) == Outstanding(v.k) - multiset{c.tag};
    if IsWrite(c.tag) {
      ReapedBelongs(v);
      ExactReap(Outstanding(v.k), v.epoch, v.pending, Index(c.tag));
    } else {
      ExactOther(Outstanding(v.k), v.epoch, v.pending, c.tag);
    }
  }

  lemma GoodReap(v: View)
    requires Good(v) && |v.k.cq| > 0
    ensures Good(Reap(v))
  {
    hide WriteTag, Exact, Ordered, History, UserDataKind, Recorded, Outstanding;
    var v' := Reap(v);
    ReapExact(v);
    ReapRecorded(v);
    if v.keepOrder {
      OrderedIgnoresQueues(v.k, v'.k, v.epoch, Start(v.chains), v.lo, v.hi, v.next);
    }
  }

  lemma ReapRecorded(v: View)
    requires Good(v) && |v.k.cq| > 0
    ensures Recorded(Reap(v))
  {
    hide WriteTag, Exact, Ordered, History, UserDataKind;
    var v' := Reap(v);
    var c := v.k.cq[0];
    if IsWrite(c.tag) {
      ReapedBelongs(v);
    }
    forall i | 0 <= i < v'.next && v'.results[i].Some?
      ensures Answered(v'.k.posted, v.epoch, i, v'.results[i].value, v.asked[i])
    {
      if v'.results[i] == v.results[i] {
        var d :| d in v.k.posted && d.tag == WriteTag(v.epoch, i) && From(v.results[i].value, d.res, v.asked[i]);
      } else {
        assert c in v.k.posted && c.tag == WriteTag(v.epoch, i) && From(v'.results[i].value, c.res, v.asked[i]);
      }
    }
  }
}
