/**
 * The historical sampling loop, `sample_historical_data` in
 * evm/src/samples/utils.rs, with the node's replies given as oracles.
 */
module Sampler {
  import opened Wrappers
  import opened SolValues
  import opened Samples

  /** alloy's `BlockNumberOrTag`: a block number or one of the symbolic tags. */
  datatype BlockTag = Latest | Finalized | Safe | Earliest | Pending | Number(n: u64)

  /** What the node answers when asked for its latest block. */
  datatype HeadReply =
    | Head(number: u64)       // the latest block, of which only the number is used
    | NoBlock                 // the node answered, but with no block
    | HeadTransportFailure    // the request itself failed

  /**
   * The node, seen through the three questions the sampler asks it: its
   * latest block, the contract's bytecode at a block (None: the request
   * failed), and the bound function's decoded result at a block (None: the
   * call failed, whether by revert, decoding error or transport error).
   */
  datatype Chain = Chain(
    head: HeadReply,
    codeAt: u64 -> Option<seq<byte>>,
    callAt: u64 -> Option<seq<Value>>)

  /** Why a scan ends without a result. */
  datatype Error =
    | UnknownFunction      // `contract.function(..)` found no matching function
    | UnsupportedBlockTag  // the end block was a tag other than Latest
    | TransportError       // a request to the node failed
    | NoLatestBlock        // the node had no latest block (a panic in the source)
    | EndBeforeStart       // `end - start` underflows u64 (a panic in a debug build)
    | ZeroInterval         // division by a zero interval (a panic in the source)
    | CallReverted         // a call failed while reverts are not ignored

  /** The end block the scan runs to: `Number(n)` is n, `Latest` is the node's head. */
  function ResolveEnd(head: HeadReply, tag: BlockTag): Result<u64, Error>
  {
    match tag
    case Latest =>
      (match head
       case Head(n) => Ok(n)
       case NoBlock => Err(NoLatestBlock)
       case HeadTransportFailure => Err(TransportError))
    case Number(n) => Ok(n)
    case _ => Err(UnsupportedBlockTag)
  }

  /** The blocks a scan visits: `start + n * interval` for n below `Steps()`. */
  datatype Schedule = Schedule(start: u64, end: u64, interval: u64)
  {
    predicate Valid() {
      interval > 0 && start <= end
    }

    /** The number of iterations: the whole intervals that fit between start and end. */
    function Steps(): (k: nat)
      requires Valid()
      ensures k * interval <= end - start < (k + 1) * interval
    {
      (end - start) / interval
    }

    /** The block of iteration `i`; a whole interval still fits after it. */
    function BlockAt(i: nat): (b: u64)
      requires Valid() && i < Steps()
      ensures start <= b && b + interval <= end
      ensures b - start == i * interval
    {
      MulMonotone(i + 1, Steps(), interval);
      start + i * interval
    }
  }

  lemma MulMonotone(a: nat, b: nat, c: nat)
    requires a <= b
    ensures a * c <= b * c
  {
  }

  /** Later iterations visit later blocks, at least one interval apart. */
  lemma BlockAtIncreasing(s: Schedule, i: nat, j: nat)
    requires s.Valid() && i < j < s.Steps()
    ensures s.BlockAt(i) + s.interval <= s.BlockAt(j)
  {
    MulMonotone(i + 1, j, s.interval);
  }

  /** What the loop carries between iterations: the cached bytecode and the samples so far. */
  datatype Scan = Scan(code: seq<byte>, results: seq<Sample>)

  /**
   * One loop iteration at `block`: while no bytecode is cached it fetches
   * the bytecode instead of sampling; otherwise it calls the function and
   * keeps the result, skips the failure, or aborts.
   */
  function Iterate(chain: Chain, ignoreReverts: bool, st: Scan, block: u64): Result<Scan, Error>
  {
    if |st.code| == 0 then
      match chain.codeAt(block)
      case None => Err(TransportError)
      case Some(code) => Ok(Scan(code, st.results))
    else
      match chain.callAt(block)
      case Some(values) => Ok(Scan(st.code, st.results + [Sample(block, values)]))
      case None => if ignoreReverts then Ok(st) else Err(CallReverted)
  }

  /** The state after the first `k` iterations, or the error that ended the loop. */
  function Run(chain: Chain, s: Schedule, ignoreReverts: bool, k: nat): Result<Scan, Error>
    requires s.Valid() && k <= s.Steps()
  {
    if k == 0 then Ok(Scan([], []))
    else
      match Run(chain, s, ignoreReverts, k - 1)
      case Err(e) => Err(e)
      case Ok(st) => Iterate(chain, ignoreReverts, st, s.BlockAt(k - 1))
  }

  /** An error ends the loop: later iteration counts give the same error. */
  lemma {:induction false} RunStaysFailed(chain: Chain, s: Schedule, ignoreReverts: bool, k: nat, m: nat)
    requires s.Valid() && k <= m <= s.Steps()
    requires Run(chain, s, ignoreReverts, k).Err?
    ensures Run(chain, s, ignoreReverts, m) == Run(chain, s, ignoreReverts, k)
    decreases m
  {
    if k < m {
      RunStaysFailed(chain, s, ignoreReverts, k, m - 1);
    }
  }

  /**
   * `sample_historical_data` as a value: function binding, end-block
   * resolution, the step count, then the loop.
   */
  function SampleHistorical(chain: Chain, binds: bool, start: u64, endBlock: BlockTag,
                            interval: u64, ignoreReverts: bool): Result<seq<Sample>, Error>
  {
    if !binds then Err(UnknownFunction)
    else
      match ResolveEnd(chain.head, endBlock)
      case Err(e) => Err(e)
      case Ok(end) =>
        if end < start then Err(EndBeforeStart)
        else if interval == 0 then Err(ZeroInterval)
        else
          var s := Schedule(start, end, interval);
          match Run(chain, s, ignoreReverts, s.Steps())
          case Err(e) => Err(e)
          case Ok(st) => Ok(st.results)
  }

  /**
   * `sample_historical_data`: the loop keeps the samples gathered so far
   * and the bytecode cache in local variables and returns early on error.
   */
  method SampleHistoricalData(chain: Chain, binds: bool, start: u64, endBlock: BlockTag,
                              interval: u64, ignoreReverts: bool)
    returns (r: Result<seq<Sample>, Error>)
    ensures r == SampleHistorical(chain, binds, start, endBlock, interval, ignoreReverts)
  {
    var results: seq<Sample> := [];
    if !binds {
      return Err(UnknownFunction);
    }
    var trueEnd: u64;
    match ResolveEnd(chain.head, endBlock) {
      case Err(e) =>
        return Err(e);
      case Ok(n) =>
        trueEnd := n;
    }
    if trueEnd < start {
      return Err(EndBeforeStart);
    }
    if interval == 0 {
      return Err(ZeroInterval);
    }
    var schedule := Schedule(start, trueEnd, interval);
    var code: seq<byte> := [];
    for n := 0 to (trueEnd - start) / interval
      invariant Run(chain, schedule, ignoreReverts, n) == Ok(Scan(code, results))
    {
      var block := schedule.BlockAt(n);
      if |code| == 0 {
        match chain.codeAt(block) {
          case None =>
            RunStaysFailed(chain, schedule, ignoreReverts, n + 1, schedule.Steps());
            return Err(TransportError);
          case Some(c) =>
            code := c;
        }
        continue;
      }
      var callResult := chain.callAt(block);
      if callResult.Some? {
        results := results + [Sample(block, callResult.value)];
      } else if !ignoreReverts {
        RunStaysFailed(chain, schedule, ignoreReverts, n + 1, schedule.Steps());
        return Err(CallReverted);
      }
    }
    return Ok(results);
  }

  // A declarative description of the loop's outcome, and the proof that the loop meets it.

  /**
   * The iteration whose bytecode probe ends the probing: the first one at or
   * after `from` whose probe did not return empty bytecode, or `Steps()`
   * when every probe did.
   */
  function FirstCodeProbe(chain: Chain, s: Schedule, from: nat): (p: nat)
    requires s.Valid() && from <= s.Steps()
    ensures from <= p <= s.Steps()
    ensures forall i | from <= i < p :: chain.codeAt(s.BlockAt(i)) == Some([])
    ensures p < s.Steps() ==> chain.codeAt(s.BlockAt(p)) != Some([])
    decreases s.Steps() - from
  {
    if from == s.Steps() then from
    else if chain.codeAt(s.BlockAt(from)) == Some([]) then FirstCodeProbe(chain, s, from + 1)
    else from
  }

  /** Every call of iterations `lo` to `hi - 1` succeeds. */
  predicate CallsSucceed(chain: Chain, s: Schedule, lo: nat, hi: nat)
    requires s.Valid() && hi <= s.Steps()
  {
    forall i | lo <= i < hi :: chain.callAt(s.BlockAt(i)).Some?
  }

  /** The sample that a successful call at iteration `i` yields. */
  function Sampled(chain: Chain, s: Schedule, i: nat): Option<Sample>
    requires s.Valid() && i < s.Steps()
  {
    match chain.callAt(s.BlockAt(i))
    case Some(values) => Some(Sample(s.BlockAt(i), values))
    case None => None
  }

  /** The samples of the successful calls among iterations `lo` to `hi - 1`, in iteration order. */
  function Successes(chain: Chain, s: Schedule, lo: nat, hi: nat): seq<Sample>
    requires s.Valid() && lo <= hi <= s.Steps()
    decreases hi - lo
  {
    if hi == lo then []
    else
      Successes(chain, s, lo, hi - 1)
      + match Sampled(chain, s, hi - 1) case Some(x) => [x] case None => []
  }

  /**
   * The outcome of the loop, described without the loop: iterations up to
   * the first probe that finds bytecode only probe; every later iteration
   * calls the function; failed calls abort unless reverts are ignored.
   */
  function Reference(chain: Chain, s: Schedule, ignoreReverts: bool): Result<seq<Sample>, Error>
    requires s.Valid()
  {
    var p := FirstCodeProbe(chain, s, 0);
    if p == s.Steps() then Ok([])
    else if chain.codeAt(s.BlockAt(p)).None? then Err(TransportError)
    else if !ignoreReverts && !CallsSucceed(chain, s, p + 1, s.Steps()) then Err(CallReverted)
    else Ok(Successes(chain, s, p + 1, s.Steps()))
  }

  /** The state after `k` iterations, in the terms of `Reference`. */
  lemma {:induction false} RunPrefix(chain: Chain, s: Schedule, ignoreReverts: bool, k: nat)
    requires s.Valid() && k <= s.Steps()
    ensures var p := FirstCodeProbe(chain, s, 0);
      Run(chain, s, ignoreReverts, k) ==
        if k <= p then Ok(Scan([], []))
        else if chain.codeAt(s.BlockAt(p)).None? then Err(TransportError)
        else if !ignoreReverts && !CallsSucceed(chain, s, p + 1, k) then Err(CallReverted)
        else Ok(Scan(chain.codeAt(s.BlockAt(p)).value, Successes(chain, s, p + 1, k)))
  {
    var p := FirstCodeProbe(chain, s, 0);
    if k > 0 {
      RunPrefix(chain, s, ignoreReverts, k - 1);
      var block := s.BlockAt(k - 1);
      if k - 1 < p {
        // a probe that finds no bytecode
        assert chain.codeAt(block) == Some([]);
      } else if k - 1 == p {
        // the probe that ends the probing
        assert Successes(chain, s, p + 1, k) == [];
        assert CallsSucceed(chain, s, p + 1, k);
      } else if chain.codeAt(s.BlockAt(p)).None? {
        assert Run(chain, s, ignoreReverts, k - 1) == Err(TransportError);
      } else if !ignoreReverts && !CallsSucceed(chain, s, p + 1, k - 1) {
        assert Run(chain, s, ignoreReverts, k - 1) == Err(CallReverted);
        assert !CallsSucceed(chain, s, p + 1, k);
      } else {
        // a call
        var code := chain.codeAt(s.BlockAt(p)).value;
        var prev := Successes(chain, s, p + 1, k - 1);
        assert Run(chain, s, ignoreReverts, k - 1) == Ok(Scan(code, prev));
        assert code != [];
        match chain.callAt(block)
        case Some(values) =>
          assert Successes(chain, s, p + 1, k) == prev + [Sample(block, values)];
          assert CallsSucceed(chain, s, p + 1, k) == CallsSucceed(chain, s, p + 1, k - 1);
        case None =>
          assert Successes(chain, s, p + 1, k) == prev;
          assert !CallsSucceed(chain, s, p + 1, k);
      }
    }
  }

  /** The loop's outcome is the one `Reference` describes. */
  lemma ScanMatchesReference(chain: Chain, binds: bool, start: u64, endBlock: BlockTag,
                             interval: u64, ignoreReverts: bool, end: u64)
    requires binds && ResolveEnd(chain.head, endBlock) == Ok(end)
    requires start <= end && interval > 0
    ensures SampleHistorical(chain, binds, start, endBlock, interval, ignoreReverts)
         == Reference(chain, Schedule(start, end, interval), ignoreReverts)
  {
    var s := Schedule(start, end, interval);
    RunPrefix(chain, s, ignoreReverts, s.Steps());
  }

  /**
   * `Successes` holds exactly the samples of the successful calls in its
   * range, in strictly increasing block order.
   */
  lemma {:induction false} SuccessesExactly(chain: Chain, s: Schedule, lo: nat, hi: nat)
    requires s.Valid() && lo <= hi <= s.Steps()
    ensures var rs := Successes(chain, s, lo, hi);
      && |rs| <= hi - lo
      && (forall j | 0 <= j < |rs| :: exists i | lo <= i < hi :: Sampled(chain, s, i) == Some(rs[j]))
      && (forall i | lo <= i < hi && Sampled(chain, s, i).Some? :: Sampled(chain, s, i).value in rs)
      && (forall j1, j2 | 0 <= j1 < j2 < |rs| :: rs[j1].block < rs[j2].block)
    decreases hi - lo
  {
    if hi > lo {
      SuccessesExactly(chain, s, lo, hi - 1);
      var prev := Successes(chain, s, lo, hi - 1);
      var rs := Successes(chain, s, lo, hi);
      forall j | 0 <= j < |prev|
        ensures prev[j].block < s.BlockAt(hi - 1)
      {
        var i :| lo <= i < hi - 1 && Sampled(chain, s, i) == Some(prev[j]);
        BlockAtIncreasing(s, i, hi - 1);
      }
      forall j | 0 <= j < |rs|
        ensures exists i | lo <= i < hi :: Sampled(chain, s, i) == Some(rs[j])
      {
        if j < |prev| {
          assert rs[j] == prev[j];
        } else {
          assert Sampled(chain, s, hi - 1) == Some(rs[j]);
        }
      }
    }
  }

  /** When every call succeeds, every iteration of the range yields a sample. */
  lemma {:induction false} SuccessesAllCalls(chain: Chain, s: Schedule, lo: nat, hi: nat)
    requires s.Valid() && lo <= hi <= s.Steps()
    requires CallsSucceed(chain, s, lo, hi)
    ensures |Successes(chain, s, lo, hi)| == hi - lo
    decreases hi - lo
  {
    if hi > lo {
      SuccessesAllCalls(chain, s, lo, hi - 1);
      assert chain.callAt(s.BlockAt(hi - 1)).Some?;
    }
  }

  /** `x` is the sample of a successful call at an iteration after the first probe that found bytecode. */
  ghost predicate CalledAfterProbing(chain: Chain, s: Schedule, x: Sample)
    requires s.Valid()
  {
    exists i | FirstCodeProbe(chain, s, 0) < i < s.Steps() :: Sampled(chain, s, i) == Some(x)
  }

  /**
   * Every returned sample is the successful call of an iteration after the
   * first one whose probe found bytecode: its block is `start + i * interval`
   * for such an iteration i >= 1, so never the start block, a whole interval
   * still fits after it before the end block, and blocks strictly increase.
   */
  lemma ScanSamplesOnSchedule(chain: Chain, binds: bool, start: u64, endBlock: BlockTag,
                              interval: u64, ignoreReverts: bool, end: u64, rs: seq<Sample>)
    requires binds && ResolveEnd(chain.head, endBlock) == Ok(end)
    requires start <= end && interval > 0
    requires SampleHistorical(chain, binds, start, endBlock, interval, ignoreReverts) == Ok(rs)
    ensures forall j | 0 <= j < |rs| :: CalledAfterProbing(chain, Schedule(start, end, interval), rs[j])
    ensures forall j | 0 <= j < |rs| :: start < rs[j].block && rs[j].block + interval <= end
    ensures forall j1, j2 | 0 <= j1 < j2 < |rs| :: rs[j1].block < rs[j2].block
  {
    var s := Schedule(start, end, interval);
    ScanMatchesReference(chain, binds, start, endBlock, interval, ignoreReverts, end);
    var p := FirstCodeProbe(chain, s, 0);
    if p < s.Steps() {
      SuccessesExactly(chain, s, p + 1, s.Steps());
      forall j | 0 <= j < |rs|
        ensures start < rs[j].block && rs[j].block + interval <= end
      {
        var i :| p + 1 <= i < s.Steps() && Sampled(chain, s, i) == Some(rs[j]);
        BlockAtIncreasing(s, 0, i);
      }
    }
  }

  /**
   * A probing iteration never contributes a sample: no returned block is the
   * block of an iteration up to and including the first probe that found
   * bytecode, and every probe before that one found empty bytecode.
   */
  lemma ProbedBlocksNotSampled(chain: Chain, binds: bool, start: u64, endBlock: BlockTag,
                               interval: u64, ignoreReverts: bool, end: u64, rs: seq<Sample>)
    requires binds && ResolveEnd(chain.head, endBlock) == Ok(end)
    requires start <= end && interval > 0
    requires SampleHistorical(chain, binds, start, endBlock, interval, ignoreReverts) == Ok(rs)
    ensures var s := Schedule(start, end, interval);
      var p := FirstCodeProbe(chain, s, 0);
      && (forall i | 0 <= i < p :: chain.codeAt(s.BlockAt(i)) == Some([]))
      && (forall i, j | 0 <= i <= p && i < s.Steps() && 0 <= j < |rs| :: rs[j].block != s.BlockAt(i))
  {
    var s := Schedule(start, end, interval);
    var p := FirstCodeProbe(chain, s, 0);
    ScanSamplesOnSchedule(chain, binds, start, endBlock, interval, ignoreReverts, end, rs);
    assert forall j | 0 <= j < |rs| :: CalledAfterProbing(chain, s, rs[j]);
    forall i, j | 0 <= i <= p && i < s.Steps() && 0 <= j < |rs|
      ensures rs[j].block != s.BlockAt(i)
    {
      var k :| p < k < s.Steps() && Sampled(chain, s, k) == Some(rs[j]);
      BlockAtIncreasing(s, i, k);
    }
  }

  /**
   * With reverts not ignored, once probing found bytecode, a single failed
   * call makes the scan fail with `CallReverted`; no partial samples are returned.
   */
  lemma FailedCallAborts(chain: Chain, binds: bool, start: u64, endBlock: BlockTag,
                         interval: u64, end: u64, i: nat)
    requires binds && ResolveEnd(chain.head, endBlock) == Ok(end)
    requires start <= end && interval > 0
    requires var s := Schedule(start, end, interval);
      var p := FirstCodeProbe(chain, s, 0);
      p < i < s.Steps() && chain.codeAt(s.BlockAt(p)).Some? && chain.callAt(s.BlockAt(i)).None?
    ensures SampleHistorical(chain, binds, start, endBlock, interval, false) == Err(CallReverted)
  {
    ScanMatchesReference(chain, binds, start, endBlock, interval, false, end);
  }

  /**
   * With reverts not ignored and every call succeeding, each iteration after
   * the first probe that found bytecode yields one sample.
   */
  lemma AllCallsSampled(chain: Chain, binds: bool, start: u64, endBlock: BlockTag,
                        interval: u64, end: u64)
    requires binds && ResolveEnd(chain.head, endBlock) == Ok(end)
    requires start <= end && interval > 0
    requires var s := Schedule(start, end, interval);
      var p := FirstCodeProbe(chain, s, 0);
      p < s.Steps() && chain.codeAt(s.BlockAt(p)).Some? && CallsSucceed(chain, s, p + 1, s.Steps())
    ensures var s := Schedule(start, end, interval);
      SampleHistorical(chain, binds, start, endBlock, interval, false)
        == Ok(Successes(chain, s, FirstCodeProbe(chain, s, 0) + 1, s.Steps()))
    ensures var s := Schedule(start, end, interval);
      var r := SampleHistorical(chain, binds, start, endBlock, interval, false);
      r.Ok? && |r.value| == s.Steps() - FirstCodeProbe(chain, s, 0) - 1
  {
    var s := Schedule(start, end, interval);
    ScanMatchesReference(chain, binds, start, endBlock, interval, false, end);
    SuccessesAllCalls(chain, s, FirstCodeProbe(chain, s, 0) + 1, s.Steps());
  }

  /**
   * With reverts ignored, once probing found bytecode the scan succeeds and
   * returns exactly the samples of the successful calls, in loop order.
   */
  lemma FailedCallsSkipped(chain: Chain, binds: bool, start: u64, endBlock: BlockTag,
                           interval: u64, end: u64)
    requires binds && ResolveEnd(chain.head, endBlock) == Ok(end)
    requires start <= end && interval > 0
    requires var s := Schedule(start, end, interval);
      var p := FirstCodeProbe(chain, s, 0);
      p < s.Steps() && chain.codeAt(s.BlockAt(p)).Some?
    ensures var s := Schedule(start, end, interval);
      SampleHistorical(chain, binds, start, endBlock, interval, true)
        == Ok(Successes(chain, s, FirstCodeProbe(chain, s, 0) + 1, s.Steps()))
  {
    ScanMatchesReference(chain, binds, start, endBlock, interval, true, end);
  }

  /** When no whole interval fits between start and end, the scan returns no samples. */
  lemma ShortRangeIsEmpty(chain: Chain, binds: bool, start: u64, endBlock: BlockTag,
                          interval: u64, ignoreReverts: bool, end: u64)
    requires binds && ResolveEnd(chain.head, endBlock) == Ok(end)
    requires start <= end && 0 < interval && end - start < interval
    ensures SampleHistorical(chain, binds, start, endBlock, interval, ignoreReverts) == Ok([])
  {
    assert Schedule(start, end, interval).Steps() == 0;
  }

  /**
   * The end block: `Number(n)` scans to n, `Latest` to the node's head, and
   * any other tag fails before any probe or call, whatever the node would answer.
   */
  lemma EndBlockResolution(chain: Chain, start: u64, interval: u64, ignoreReverts: bool, tag: BlockTag)
    ensures tag.Number? ==> ResolveEnd(chain.head, tag) == Ok(tag.n)
    ensures tag.Latest? && chain.head.Head? ==> ResolveEnd(chain.head, tag) == Ok(chain.head.number)
    ensures tag.Latest? && chain.head.HeadTransportFailure? ==> SampleHistorical(chain, true, start, tag, interval, ignoreReverts) == Err(TransportError)
    ensures tag.Latest? && chain.head.NoBlock? ==> SampleHistorical(chain, true, start, tag, interval, ignoreReverts) == Err(NoLatestBlock)
    ensures !tag.Latest? && !tag.Number? ==> SampleHistorical(chain, true, start, tag, interval, ignoreReverts) == Err(UnsupportedBlockTag)
  {
  }

  /**
   * The step count's arithmetic fails only after the end block is resolved
   * and before any probe or call: an end block below the start block, then
   * a zero interval.
   */
  lemma StepCountFailures(chain: Chain, start: u64, endBlock: BlockTag, interval: u64,
                          ignoreReverts: bool, end: u64)
    requires ResolveEnd(chain.head, endBlock) == Ok(end)
    ensures end < start ==> SampleHistorical(chain, true, start, endBlock, interval, ignoreReverts) == Err(EndBeforeStart)
    ensures start <= end && interval == 0 ==> SampleHistorical(chain, true, start, endBlock, interval, ignoreReverts) == Err(ZeroInterval)
  {
  }
}
