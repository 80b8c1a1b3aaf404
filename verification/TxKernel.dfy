/**
 The kernel side of the TX ring as the driver relies on it: a submission queue, the accepted
 requests, and the completion queue. Accepted requests sit in one sequence in which a request with
 the IO_LINK flag is followed by its successor.
 */
module TxKernel {
  import opened Common
  import opened TxUserData

  /** A request, identified by what the driver sees (`userData`) and by the batch that pushed it
      (`epoch`, which the driver cannot see). */
  datatype Tag = Tag(userData: nat, epoch: nat)
  datatype Req = Req(tag: Tag, link: bool)
  datatype Cqe = Cqe(tag: Tag, res: int)

  /** `issued` records the writes in the order the kernel starts them, `posted` every completion. */
  datatype Kernel = Kernel(sq: seq<Req>, pool: seq<Req>, cq: seq<Cqe>, issued: seq<Tag>, posted: seq<Cqe>)

  function WriteTag(epoch: nat, index: nat): Tag { Tag(WriteUserData(index), epoch) }

  predicate IsWrite(t: Tag) { UserDataKind(t.userData).Write? }

  function Index(t: Tag): nat
    requires IsWrite(t)
  {
    UserDataKind(t.userData).index
  }

  lemma WriteTagDecodes(epoch: nat, index: nat)
    requires index < INDEX_LIMIT
    ensures IsWrite(WriteTag(epoch, index)) && Index(WriteTag(epoch, index)) == index
  {
    hide WriteUserData, UserDataKind;
    WriteRoundTrip(index);
  }

  // ----- what is outstanding -----

  function Tags(s: seq<Req>): (r: seq<Tag>)
    ensures |r| == |s|
  {
    seq(|s|, i requires 0 <= i < |s| => s[i].tag)
  }

  function Reaped(s: seq<Cqe>): (r: seq<Tag>)
    ensures |r| == |s|
  {
    seq(|s|, i requires 0 <= i < |s| => s[i].tag)
  }

  /** Every request that was pushed and whose completion has not been reaped. */
  function Outstanding(k: Kernel): multiset<Tag> {
    multiset(Tags(k.sq)) + multiset(Tags(k.pool)) + multiset(Reaped(k.cq))
  }

  // ----- kernel steps -----

  /** A request may start when it is not the linked successor of another one. */
  predicate Startable(k: Kernel, p: nat) {
    p < |k.pool| && (p == 0 || !k.pool[p - 1].link)
  }

  /** One past the last request of the chain that p belongs to. */
  function ChainEnd(pool: seq<Req>, p: nat): (q: nat)
    requires p < |pool|
    ensures p < q <= |pool|
    ensures forall i :: p <= i < q - 1 ==> pool[i].link
    ensures q < |pool| ==> !pool[q - 1].link
    decreases |pool| - p
  {
    if !pool[p].link || p + 1 == |pool| then p + 1 else ChainEnd(pool, p + 1)
  }

  /** Completions for requests that are dropped together: the first result, then ECANCELED. */
  function Completions(reqs: seq<Req>, first: int): (r: seq<Cqe>)
    ensures Reaped(r) == Tags(reqs)
  {
    seq(|reqs|, i requires 0 <= i < |reqs| => Cqe(reqs[i].tag, if i == 0 then first else -ECANCELED))
  }

  /** Cutting p..q out of the pool; a predecessor left without successor loses its link. */
  function Cut(pool: seq<Req>, p: nat, q: nat): (r: seq<Req>)
    requires p < q <= |pool|
  {
    Unlinked(pool[..p]) + pool[q..]
  }

  function Unlinked(s: seq<Req>): (r: seq<Req>)
    ensures |r| == |s| && Tags(r) == Tags(s)
  {
    if |s| == 0 then s else s[..|s| - 1] + [s[|s| - 1].(link := false)]
  }

  /** Dropping p..q from the pool with the given result for p. */
  function Drop(k: Kernel, p: nat, q: nat, first: int): Kernel
    requires p < q <= |k.pool|
  {
    k.(pool := Cut(k.pool, p, q), cq := k.cq + Completions(k.pool[p..q], first),
       posted := k.posted + Completions(k.pool[p..q], first))
  }

  /** Running request p: on `proceed` its successor becomes startable, otherwise the rest of its
      chain is cancelled. A short write has a result >= 0 and does not proceed. */
  function Run(k: Kernel, p: nat, res: int, proceed: bool): Kernel
    requires Startable(k, p) && (proceed ==> res >= 0)
  {
    var q := if proceed then p + 1 else ChainEnd(k.pool, p);
    Drop(k, p, q, res).(issued := k.issued + [k.pool[p].tag])
  }

  /** A cancellation that finds its target: the target and its successors fail. */
  function CancelHit(k: Kernel, p: nat, res: int): Kernel
    requires p < |k.pool| && res < 0
  {
    Drop(k, p, ChainEnd(k.pool, p), res)
  }

  // ----- conservation -----

  lemma CutTags(pool: seq<Req>, p: nat, q: nat)
    requires p < q <= |pool|
    ensures multiset(Tags(Cut(pool, p, q))) + multiset(Tags(pool[p..q])) == multiset(Tags(pool))
  {
    assert Tags(Cut(pool, p, q)) == Tags(pool)[..p] + Tags(pool)[q..];
    assert Tags(pool[p..q]) == Tags(pool)[p..q];
    assert Tags(pool) == Tags(pool)[..p] + Tags(pool)[p..q] + Tags(pool)[q..];
  }

  lemma DropConserves(k: Kernel, p: nat, q: nat, first: int)
    requires p < q <= |k.pool|
    ensures Outstanding(Drop(k, p, q, first)) == Outstanding(k)
  {
    hide Cut;
    CutTags(k.pool, p, q);
    var done := Completions(k.pool[p..q], first);
    assert Reaped(k.cq + done) == Reaped(k.cq) + Reaped(done);
  }

  // ----- executed writes -----

  /** A write that succeeded was started by the kernel. */
  ghost predicate Executed(k: Kernel) {
    forall c :: c in k.posted && c.res >= 0 ==> c.tag in k.issued
  }

  lemma DroppedErrors(k: Kernel, p: nat, q: nat, first: int)
    requires p < q <= |k.pool|
    ensures forall c :: c in Completions(k.pool[p..q], first) && c.res >= 0 ==> c == Cqe(k.pool[p].tag, first)
  {
    var done := Completions(k.pool[p..q], first);
    forall c | c in done && c.res >= 0
      ensures c == Cqe(k.pool[p].tag, first)
    {
      var i :| 0 <= i < |done| && done[i] == c;
      assert i == 0;
    }
  }

  lemma RunExecuted(k: Kernel, p: nat, res: int, proceed: bool)
    requires Executed(k) && Startable(k, p) && (proceed ==> res >= 0)
    ensures Executed(Run(k, p, res, proceed))
  {
    hide Completions, Cut;
    DroppedErrors(k, p, if proceed then p + 1 else ChainEnd(k.pool, p), res);
  }

  lemma CancelExecuted(k: Kernel, p: nat, res: int)
    requires Executed(k) && p < |k.pool| && res < 0
    ensures Executed(CancelHit(k, p, res))
  {
    hide Completions, Cut;
    DroppedErrors(k, p, ChainEnd(k.pool, p), res);
  }

  // ----- ordered batches: one chain at a time -----

  /** The pool is the linked chain of entries lo..hi of this batch. */
  predicate IsChain(pool: seq<Req>, epoch: nat, lo: nat, hi: nat) {
    && lo <= hi && |pool| == hi - lo
    && forall p :: 0 <= p < |pool| ==> pool[p] == Req(WriteTag(epoch, lo + p), p + 1 < |pool|)
  }

  /** Everything issued belongs to this batch, in strictly increasing index below `bound`. */
  ghost predicate Increasing(issued: seq<Tag>, epoch: nat, bound: nat) {
    && (forall i :: 0 <= i < |issued| ==> IsWrite(issued[i]) && issued[i].epoch == epoch && Index(issued[i]) < bound)
    && (forall i, j :: 0 <= i < j < |issued| ==> Index(issued[i]) < Index(issued[j]))
  }

  /** Among the completions posted for entries a..b of this batch, those below mid are successes
      and the others are errors. */
  ghost predicate SuccessesThenErrors(posted: seq<Cqe>, epoch: nat, a: nat, mid: nat, b: nat) {
    && a <= mid <= b
    && forall c :: c in posted && IsWrite(c.tag) && c.tag.epoch == epoch && a <= Index(c.tag) < b ==>
                     (c.res >= 0 <==> Index(c.tag) < mid)
  }

  ghost predicate PostedBelow(posted: seq<Cqe>, epoch: nat, next: nat) {
    forall c :: c in posted && IsWrite(c.tag) && c.tag.epoch == epoch ==> Index(c.tag) < next
  }

  /** The state of an ordered batch whose current chain started at `start`: entries start..lo have
      succeeded, lo..hi are in the kernel, hi..next have failed. */
  ghost predicate Ordered(k: Kernel, epoch: nat, start: nat, lo: nat, hi: nat, next: nat) {
    && start <= lo <= hi <= next
    && IsChain(k.pool, epoch, lo, hi)
    && Increasing(k.issued, epoch, if lo == hi then next else lo)
    && PostedBelow(k.posted, epoch, next)
    && (forall c :: c in k.posted && IsWrite(c.tag) && c.tag.epoch == epoch && start <= Index(c.tag) ==>
          if c.res >= 0 then Index(c.tag) < lo else hi <= Index(c.tag))
  }

  lemma {:induction false} ChainEndOfChain(pool: seq<Req>, epoch: nat, lo: nat, hi: nat, p: nat)
    requires IsChain(pool, epoch, lo, hi) && p < |pool|
    ensures ChainEnd(pool, p) == |pool|
    decreases |pool| - p
  {
    if p + 1 < |pool| {
      ChainEndOfChain(pool, epoch, lo, hi, p + 1);
    }
  }

  lemma CutChain(pool: seq<Req>, epoch: nat, lo: nat, hi: nat, p: nat)
    requires IsChain(pool, epoch, lo, hi) && p < |pool|
    ensures IsChain(Cut(pool, p, |pool|), epoch, lo, lo + p)
    ensures IsChain(Cut(pool, 0, 1), epoch, lo + 1, hi)
  {
  }

  /** What dropping a tail of the chain posts. */
  lemma DroppedTail(pool: seq<Req>, epoch: nat, lo: nat, hi: nat, p: nat, q: nat, first: int)
    requires IsChain(pool, epoch, lo, hi) && p < q <= |pool| && hi <= INDEX_LIMIT
    ensures forall c :: c in Completions(pool[p..q], first) ==>
              && IsWrite(c.tag) && c.tag.epoch == epoch && lo + p <= Index(c.tag) < lo + q
              && c.res == if Index(c.tag) == lo + p then first else -ECANCELED
  {
    hide IsWrite, Index, WriteTag;
    var done := Completions(pool[p..q], first);
    forall i | 0 <= i < |done|
      ensures var c := done[i];
              && IsWrite(c.tag) && c.tag.epoch == epoch && Index(c.tag) == lo + p + i
              && c.res == if i == 0 then first else -ECANCELED
    {
      WriteTagDecodes(epoch, lo + p + i);
      WriteTagEpoch(epoch, lo + p + i);
    }
  }

  lemma WriteTagEpoch(epoch: nat, index: nat)
    ensures WriteTag(epoch, index).epoch == epoch
  {
  }

  /** Running a startable request keeps an ordered batch ordered. */
  lemma RunOrdered(k: Kernel, epoch: nat, start: nat, lo: nat, hi: nat, next: nat, p: nat, res: int, proceed: bool)
    returns (lo': nat, hi': nat)
    requires Ordered(k, epoch, start, lo, hi, next) && next <= INDEX_LIMIT
    requires Startable(k, p) && (proceed ==> res >= 0)
    ensures Ordered(Run(k, p, res, proceed), epoch, start, lo', hi', next)
  {
    hide IsWrite, Index, WriteTag, Completions, Cut, ChainEnd;
    assert p == 0;
    ChainEndOfChain(k.pool, epoch, lo, hi, 0);
    CutChain(k.pool, epoch, lo, hi, 0);
    lo' := if res >= 0 then lo + 1 else lo;
    hi' := if proceed then hi else lo';
    var q := if proceed then 1 else |k.pool|;
    DroppedTail(k.pool, epoch, lo, hi, 0, q, res);
    WriteTagDecodes(epoch, lo);
    WriteTagEpoch(epoch, lo);
    assert k.pool[0].tag == WriteTag(epoch, lo);
    if !proceed {
      EmptyChain(Cut(k.pool, 0, |k.pool|), epoch, lo, lo');
    }
  }

  lemma EmptyChain(pool: seq<Req>, epoch: nat, at: nat, at': nat)
    requires IsChain(pool, epoch, at, at)
    ensures IsChain(pool, epoch, at', at')
  {
  }

  /** So does a cancellation, wherever in the chain it hits. */
  lemma CancelOrdered(k: Kernel, epoch: nat, start: nat, lo: nat, hi: nat, next: nat, p: nat, res: int)
    returns (hi': nat)
    requires Ordered(k, epoch, start, lo, hi, next) && next <= INDEX_LIMIT
    requires p < |k.pool| && res < 0
    ensures Ordered(CancelHit(k, p, res), epoch, start, lo, hi', next)
  {
    hide IsWrite, Index, WriteTag, Completions, Cut, ChainEnd;
    ChainEndOfChain(k.pool, epoch, lo, hi, p);
    CutChain(k.pool, epoch, lo, hi, p);
    DroppedTail(k.pool, epoch, lo, hi, p, |k.pool|, res);
    hi' := lo + p;
  }

  /** A chain with nothing left in the kernel reads as successes, then errors. */
  lemma FinishedChain(k: Kernel, epoch: nat, start: nat, lo: nat, next: nat)
    requires Ordered(k, epoch, start, lo, lo, next)
    ensures SuccessesThenErrors(k.posted, epoch, start, lo, next)
  {
  }
}
