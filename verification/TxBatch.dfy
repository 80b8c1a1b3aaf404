/** The bookkeeping of one batch: `ActiveTxBatch` of `src/core/tx.rs`. */
module TxBatch {
  import opened Common

  type Bytes = seq<Byte>

  datatype IoError = TimedOut | Interrupted | Os(code: int)
  datatype IoResult = Ok(written: nat) | Err(error: IoError)

  /** `cqe_result_to_io_result`. */
  function CqeResult(res: int, cancelRequested: bool): (r: IoResult)
    ensures r.Ok? <==> res >= 0
    ensures r.Ok? ==> r.written == res
    ensures r == Err(TimedOut) <==> cancelRequested && res == -ECANCELED
    ensures res < 0 && r != Err(TimedOut) ==> r == Err(Os(-res))
  {
    if res >= 0 then Ok(res)
    else if cancelRequested && -res == ECANCELED then Err(TimedOut)
    else Err(Os(-res))
  }

  // ----- counting -----

  function Count(s: seq<bool>): nat {
    if |s| == 0 then 0 else (if s[0] then 1 else 0) + Count(s[1..])
  }

  lemma {:induction false} CountUpdate(s: seq<bool>, i: nat, b: bool)
    requires i < |s|
    ensures Count(s[i := b]) == Count(s) - (if s[i] then 1 else 0) + (if b then 1 else 0)
    decreases |s|
  {
    if i == 0 {
      assert s[i := b][1..] == s[1..];
    } else {
      assert s[i := b][1..] == s[1..][i - 1 := b];
      CountUpdate(s[1..], i - 1, b);
    }
  }

  lemma {:induction false} CountExtremes(s: seq<bool>)
    ensures Count(s) <= |s|
    ensures Count(s) == |s| <==> forall i :: 0 <= i < |s| ==> s[i]
    ensures Count(s) == 0 <==> forall i :: 0 <= i < |s| ==> !s[i]
    decreases |s|
  {
    if |s| > 0 {
      CountExtremes(s[1..]);
      assert forall i :: 1 <= i < |s| ==> s[i] == s[1..][i - 1];
    }
  }

  function SaturatingSub(a: nat, b: nat): nat { if a < b then 0 else a - b }

  function Set(results: seq<Option<IoResult>>): (r: seq<bool>)
    ensures |r| == |results|
  {
    seq(|results|, i requires 0 <= i < |results| => results[i].Some?)
  }

  /** Results still missing on entries that were never submitted. */
  function Waiting(results: seq<Option<IoResult>>, submitted: seq<bool>): (r: seq<bool>)
    requires |results| == |submitted|
    ensures |r| == |results|
  {
    seq(|results|, i requires 0 <= i < |results| => results[i].None? && !submitted[i])
  }

  /** Every result that was there is still there, unchanged. */
  ghost predicate Keeps(before: seq<Option<IoResult>>, after: seq<Option<IoResult>>) {
    |before| == |after| && forall i :: 0 <= i < |before| && before[i].Some? ==> after[i] == before[i]
  }

  // ----- when a batch is cut short -----

  /** Time runs in rounds: round 0 is the check before the first submission, round i the checks of the
      i-th trip around the loop. */
  predicate Reached(at: Option<nat>, round: nat) { at.Some? && at.value <= round }

  /** The round in which a batch that is still unfinished is cut short. Round 0 looks at the deadline
      alone. */
  function CutRound(deadline: Option<nat>, dropAt: Option<nat>): Option<nat> {
    var drop := if dropAt == Some(0) then Some(1) else dropAt;
    if deadline.None? then drop
    else if drop.None? || deadline.value <= drop.value then deadline
    else drop
  }

  /** What becomes of the entries that were not submitted by then; a dropped future is looked at
      first. */
  function CutReason(deadline: Option<nat>, dropAt: Option<nat>): IoError {
    if deadline != Some(0) && dropAt.Some? && (deadline.None? || dropAt.value <= deadline.value) then Interrupted
    else TimedOut
  }

  lemma CutHappens(deadline: Option<nat>, dropAt: Option<nat>, round: nat)
    requires round > 0 && !Reached(CutRound(deadline, dropAt), round - 1)
    ensures Reached(deadline, round) || Reached(dropAt, round) <==> Reached(CutRound(deadline, dropAt), round)
    ensures Reached(dropAt, round) ==> CutReason(deadline, dropAt) == Interrupted
    ensures !Reached(dropAt, round) && Reached(deadline, round) ==> CutReason(deadline, dropAt) == TimedOut
  {
  }

  class ActiveTxBatch {
    const bufs: seq<Bytes>
    const keepOrder: bool
    /** When the deadline is found passed, and when the future is found dropped, in rounds. */
    const deadline: Option<nat>
    const dropAt: Option<nat>
    var results: seq<Option<IoResult>>
    var submitted: seq<bool>
    var pending: seq<bool>
    var nextToSubmit: nat
    var inFlight: nat
    var completed: nat
    var cancelRequested: bool

    ghost predicate Valid()
      reads this
    {
      && |results| == |submitted| == |pending| == |bufs|
      && nextToSubmit <= |bufs|
      && completed == Count(Set(results))
      && inFlight == Count(pending)
      && (forall i :: 0 <= i < |bufs| ==> (submitted[i] <==> i < nextToSubmit))
      && (forall i :: 0 <= i < |bufs| && pending[i] ==> submitted[i] && results[i].None?)
      && (forall i :: 0 <= i < |bufs| && submitted[i] ==> pending[i] || results[i].Some?)
      && (cancelRequested ==> forall i :: nextToSubmit <= i < |bufs| ==> results[i].Some?)
    }

    /** The measure that falls with every submission and every completion. */
    ghost function Work(): nat
      requires |results| == |submitted|
      reads this
    {
      2 * Count(Waiting(results, submitted)) + inFlight
    }

    constructor (bufs: seq<Bytes>, keepOrder: bool, deadline: Option<nat>, dropAt: Option<nat>)
      ensures Valid()
      ensures this.bufs == bufs && this.keepOrder == keepOrder
      ensures this.deadline == deadline && this.dropAt == dropAt
      ensures nextToSubmit == 0 && inFlight == 0 && completed == 0 && !cancelRequested
      ensures forall i :: 0 <= i < |bufs| ==> results[i].None? && !pending[i]
    {
      this.bufs, this.keepOrder := bufs, keepOrder;
      this.deadline, this.dropAt := deadline, dropAt;
      results := seq(|bufs|, _ => None);
      submitted, pending := seq(|bufs|, _ => false), seq(|bufs|, _ => false);
      nextToSubmit, inFlight, completed, cancelRequested := 0, 0, 0, false;
      new;
      CountExtremes(pending);
      CountExtremes(Set(results));
    }

    method IsComplete() returns (r: bool)
      requires Valid()
      ensures r <==> forall i :: 0 <= i < |bufs| ==> results[i].Some?
    {
      CountExtremes(Set(results));
      assert forall i :: 0 <= i < |bufs| ==> Set(results)[i] == results[i].Some?;
      r := completed == |bufs|;
    }

    /** Reaping a completion: ignored unless that entry is pending. */
    method CompleteWrite(index: nat, res: int)
      requires Valid()
      modifies this
      ensures Valid()
      ensures submitted == old(submitted) && nextToSubmit == old(nextToSubmit) && cancelRequested == old(cancelRequested)
      ensures if index < |bufs| && old(pending[index]) then
                && pending == old(pending)[index := false]
                && results == old(results)[index := Some(CqeResult(res, cancelRequested))]
                && Work() < old(Work())
              else pending == old(pending) && results == old(results) && Work() == old(Work())
    {
      if index >= |bufs| || !pending[index] {
        return;
      }
      CountUpdate(pending, index, false);
      CountUpdate(Set(results), index, true);
      ghost var waiting := Waiting(results, submitted);
      pending := pending[index := false];
      inFlight := SaturatingSub(inFlight, 1);
      completed := completed + 1;
      ghost var before := results;
      results := results[index := Some(CqeResult(res, cancelRequested))];
      assert Set(results) == Set(before)[index := true];
      assert Waiting(results, submitted) == waiting;
    }

    /** Entries never submitted get the error; nothing else changes. */
    method MarkUnsubmittedError(error: IoError)
      requires Valid()
      modifies this`results, this`completed
      ensures Valid()
      ensures forall i :: 0 <= i < |bufs| ==>
                results[i] == if !submitted[i] && old(results[i]).None? then Some(Err(error)) else old(results[i])
      ensures Work() <= old(Work())
    {
      ghost var waiting := Waiting(results, submitted);
      var index := 0;
      while index < |bufs|
        invariant 0 <= index <= |bufs| == |results|
        invariant completed == Count(Set(results))
        invariant forall i :: 0 <= i < index ==>
                    results[i] == if !submitted[i] && old(results[i]).None? then Some(Err(error)) else old(results[i])
        invariant forall i :: index <= i < |bufs| ==> results[i] == old(results[i])
      {
        if !submitted[index] && results[index].None? {
          CountUpdate(Set(results), index, true);
          assert Set(results[index := Some(Err(error))]) == Set(results)[index := true];
          results := results[index := Some(Err(error))];
          completed := completed + 1;
        }
        index := index + 1;
      }
      CountExtremes(Waiting(results, submitted));
    }

    /** Every missing result gets the error and nothing is pending any more. */
    method MarkDriverError(error: IoError)
      requires Valid()
      modifies this`results, this`completed, this`pending, this`inFlight
      ensures Valid()
      ensures forall i :: 0 <= i < |bufs| ==>
                !pending[i] && results[i] == if old(results[i]).None? then Some(Err(error)) else old(results[i])
    {
      var index := 0;
      while index < |bufs|
        invariant 0 <= index <= |bufs| == |results| == |pending|
        invariant completed == Count(Set(results)) && inFlight == Count(pending)
        invariant forall i :: 0 <= i < index ==>
                    !pending[i] && results[i] == if old(results[i]).None? then Some(Err(error)) else old(results[i])
        invariant forall i :: index <= i < |bufs| ==> results[i] == old(results[i]) && pending[i] == old(pending[i])
      {
        if results[index].None? {
          CountUpdate(Set(results), index, true);
          assert Set(results[index := Some(Err(error))]) == Set(results)[index := true];
          results := results[index := Some(Err(error))];
          if pending[index] {
            CountUpdate(pending, index, false);
            pending := pending[index := false];
            inFlight := SaturatingSub(inFlight, 1);
          }
          completed := completed + 1;
        }
        index := index + 1;
      }
    }

    /** The next entry went into the submission queue. */
    method MarkSubmitted()
      requires Valid() && !cancelRequested && nextToSubmit < |bufs| && results[nextToSubmit].None?
      modifies this`submitted, this`pending, this`nextToSubmit, this`inFlight
      ensures Valid()
      ensures nextToSubmit == old(nextToSubmit) + 1 && inFlight == old(inFlight) + 1
      ensures pending == old(pending)[old(nextToSubmit) := true]
      ensures Work() < old(Work())
    {
      var index := nextToSubmit;
      CountUpdate(pending, index, true);
      CountUpdate(Waiting(results, submitted), index, false);
      assert Waiting(results, submitted[index := true]) == Waiting(results, submitted)[index := false];
      submitted := submitted[index := true];
      pending := pending[index := true];
      nextToSubmit := nextToSubmit + 1;
      inFlight := inFlight + 1;
    }
  }
}
