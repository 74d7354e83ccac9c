/** The consensus rules that the chain takes as parameters: the time and the target of a header in
    its branch, and the claim of a coinbase.  Proof of work stays a parameter. */
module ChainConsensus {
  import opened Prelude
  import opened Ledger
  import opened ChainTypes
  import opened ChainBlocks
  import opened ChainStore
  import opened ChainSteps
  import opened ChainInvariant
  import opened ChainBranch
  import opened Asert

  // ----- The median time -----

  function Insert(t: u64, times: seq<u64>): (r: seq<u64>)
    ensures multiset(r) == multiset(times) + multiset{t}
  {
    if times == [] then [t]
    else if t <= times[0] then [t] + times
    else
      assert times == [times[0]] + times[1..];
      [times[0]] + Insert(t, times[1..])
  }

  function Sort(times: seq<u64>): (r: seq<u64>)
    ensures multiset(r) == multiset(times) && |r| == |times|
  {
    if times == [] then []
    else
      assert times == [times[0]] + times[1..];
      var r := Insert(times[0], Sort(times[1..]));
      assert |r| == |multiset(r)|;
      r
  }

  function MedianTimePast(window: seq<u64>): Result<u64, ConsensusError> {
    if |window| == 0 || |window| > MTP_WINDOW then Failure(InvalidMtpWindow) else Success(Sort(window)[|window| / 2])
  }

  ghost predicate Sorted(times: seq<u64>) {
    forall i, j | 0 <= i < j < |times| :: times[i] <= times[j]
  }

  lemma SortedBehind(first: u64, rest: seq<u64>)
    requires Sorted(rest) && forall t | t in rest :: first <= t
    ensures Sorted([first] + rest)
  {
    var all := [first] + rest;
    forall i, j | 0 <= i < j < |all|
      ensures all[i] <= all[j]
    {
      assert all[j] == rest[j - 1] && rest[j - 1] in rest;
      if i > 0 {
        assert all[i] == rest[i - 1];
      }
    }
  }

  lemma InsertedIn(t: u64, times: seq<u64>, x: u64)
    requires x in Insert(t, times)
    ensures x == t || x in times
  {
    assert x in multiset(Insert(t, times));
  }

  lemma {:induction false} InsertSorts(t: u64, times: seq<u64>)
    requires Sorted(times)
    ensures Sorted(Insert(t, times))
  {
    if times != [] && t <= times[0] {
      SortedBehind(t, times);
    } else if times != [] {
      InsertSorts(t, times[1..]);
      forall x | x in Insert(t, times[1..])
        ensures times[0] <= x
      {
        InsertedIn(t, times[1..], x);
      }
      SortedBehind(times[0], Insert(t, times[1..]));
    }
  }

  lemma {:induction false} SortSorts(times: seq<u64>)
    ensures Sorted(Sort(times))
  {
    if times != [] {
      SortSorts(times[1..]);
      InsertSorts(times[0], Sort(times[1..]));
    }
  }

  lemma SameHead(a: seq<u64>, b: seq<u64>)
    requires Sorted(a) && Sorted(b) && multiset(a) == multiset(b) && a != [] && b != []
    ensures a[0] == b[0]
  {
    assert a[0] in multiset(a) && b[0] in multiset(b);
    assert a[0] in b && b[0] in a;
  }

  lemma Behind(times: seq<u64>)
    requires times != []
    ensures multiset(times[1..]) == multiset(times) - multiset{times[0]}
    ensures Sorted(times) ==> Sorted(times[1..])
  {
    assert times == [times[0]] + times[1..];
    forall i, j | 0 <= i < j < |times[1..]|
      ensures times[1..][i] == times[i + 1] && times[1..][j] == times[j + 1]
    {
    }
  }

  lemma SameLength(a: seq<u64>, b: seq<u64>)
    requires multiset(a) == multiset(b)
    ensures |a| == |b|
  {
    assert |a| == |multiset(a)| && |b| == |multiset(b)|;
  }

  /** There is only one sorted arrangement. */
  lemma {:induction false} SortedUnique(a: seq<u64>, b: seq<u64>)
    requires Sorted(a) && Sorted(b) && multiset(a) == multiset(b)
    ensures a == b
  {
    hide Sorted;
    SameLength(a, b);
    if a != [] {
      SameHead(a, b);
      Behind(a);
      Behind(b);
      SortedUnique(a[1..], b[1..]);
      assert a == [a[0]] + a[1..] && b == [b[0]] + b[1..];
    }
  }

  /** The median is the middle of the sorted window, the upper one if there are two. */
  lemma MedianMeans(window: seq<u64>, sorted: seq<u64>)
    requires 0 < |window| <= MTP_WINDOW && Sorted(sorted) && multiset(sorted) == multiset(window)
    ensures |sorted| == |window| && MedianTimePast(window) == Success(sorted[|window| / 2])
  {
    SortSorts(window);
    SortedUnique(Sort(window), sorted);
  }

  lemma MedianIsInside(window: seq<u64>)
    requires 0 < |window| <= MTP_WINDOW
    ensures MedianTimePast(window).Success? && MedianTimePast(window).value in window
  {
    var m := Sort(window)[|window| / 2];
    assert m in multiset(Sort(window));
  }

  // ----- A header in its branch -----

  /** The work of a header whose time and target fit its branch. */
  function PrePow(header: Header, height: u64, parent: Header, genesisTime: u64, window: seq<u64>, params: Params)
    : Result<nat, ConsensusError>
  {
    if height == 0 then Failure(ConsensusError.InvalidHeight)
    else if header.previous != IdOf(parent) then Failure(PreviousBlockMismatch)
    else
      var median :- MedianTimePast(window);
      if header.timestamp <= median then Failure(TimestampNotAfterMtp)
      else
        var expected :- RequiredTarget(height, parent.timestamp, genesisTime, params);
        if header.difficulty == 0 then Failure(ZeroTarget)
        else if header.difficulty > params.powLimit then Failure(TargetAbovePowLimit)
        else if header.difficulty != expected then Failure(UnexpectedTarget)
        else Success(BlockWork(header.difficulty))
  }

  /** A header fits its branch if and only if it names its parent, is later than the middle of the sorted
      times of its window, and has the required target. */
  lemma PrePowMeans(header: Header, height: u64, parent: Header, genesisTime: u64, window: seq<u64>, params: Params,
                    sorted: seq<u64>)
    requires ParamsOk(params) && Sorted(sorted) && multiset(sorted) == multiset(window)
    ensures PrePow(header, height, parent, genesisTime, window, params).Success? <==>
              && height > 0 && header.previous == IdOf(parent) && 0 < |window| <= 11
              && |sorted| == |window| && header.timestamp > sorted[|window| / 2]
              && RequiredTarget(height, parent.timestamp, genesisTime, params) == Success(header.difficulty)
  {
    hide RequiredTarget, Sorted, Sort, BlockWork;
    if height > 0 {
      NeverFails(height, parent.timestamp, genesisTime, params);
    }
    if 0 < |window| <= MTP_WINDOW {
      MedianMeans(window, sorted);
    }
  }

  /** The rules for a header on its parent, but for proof of work. */
  predicate HeaderRule(s: Store, header: Header, genesisTime: u64, params: Params) {
    && header.previous in s.index && s.index[header.previous].height < U64_MAX
    && BranchTimes(s, header.previous, MTP_WINDOW).Success?
    && PrePow(header, s.index[header.previous].height + 1, s.index[header.previous].header, genesisTime,
              BranchTimes(s, header.previous, MTP_WINDOW).value, params).Success?
  }

  /** The target that a node requires above a parent of this height and time. */
  function TargetAbove(params: Params, genesisTime: u64, height: nat, parentTime: u64): Bits256 {
    if height == 0 then params.initialTarget else TargetAt(Exponent(Drift(height + 1, parentTime, genesisTime)), params)
  }

  /** Two headers on the same parent that the rule accepts have the same target. */
  lemma OneTarget(s: Store, header: Header, genesisTime: u64, params: Params)
    requires HeaderRule(s, header, genesisTime, params)
    ensures header.difficulty == TargetAbove(params, genesisTime, s.index[header.previous].height,
                                             s.index[header.previous].header.timestamp)
  {
    hide RequiredTarget, TargetAt, Exponent, Sort, BranchTimes;
    var parent := s.index[header.previous];
    NeverFails(parent.height + 1, parent.header.timestamp, genesisTime, params);
  }

  lemma ExpectedTarget(params: Params, genesisTime: u64, height: nat, parentTime: u64)
    requires height < U64_MAX && ParamsOk(params)
    ensures RequiredTarget(height + 1, parentTime, genesisTime, params)
         == Success(TargetAbove(params, genesisTime, height, parentTime))
    ensures 0 < TargetAbove(params, genesisTime, height, parentTime) <= params.powLimit
  {
    hide RequiredTarget, TargetAt, Exponent;
    NeverFails(height + 1, parentTime, genesisTime, params);
  }

  lemma LaterFits(header: Header, height: nat, parent: Header, genesisTime: u64, window: seq<u64>, params: Params)
    requires ParamsOk(params) && height < U64_MAX && header.previous == IdOf(parent)
    requires 0 < |window| <= MTP_WINDOW && forall t | t in window :: t <= parent.timestamp
    requires header.timestamp > parent.timestamp
    requires header.difficulty == TargetAbove(params, genesisTime, height, parent.timestamp)
    ensures PrePow(header, height + 1, parent, genesisTime, window, params).Success?
  {
    hide RequiredTarget, TargetAbove, MedianTimePast, BlockWork;
    ExpectedTarget(params, genesisTime, height, parent.timestamp);
    MedianIsInside(window);
  }

  lemma ParentNamed(s: Store, anchor: BlockId, id: BlockId)
    requires IndexOk(s.index, anchor) && id in s.index
    ensures id == IdOf(s.index[id].header)
  {
    hide Follows;
  }

  /** On an index whose times ascend, a later time and that target are enough. */
  lemma LaterPasses(s: Store, anchor: BlockId, header: Header, genesisTime: u64, params: Params)
    requires IndexOk(s.index, anchor) && Ascends(s.index) && ParamsOk(params)
    requires header.previous in s.index && s.index[header.previous].height < U64_MAX
    requires header.timestamp > s.index[header.previous].header.timestamp
    requires header.difficulty == TargetAbove(params, genesisTime, s.index[header.previous].height,
                                              s.index[header.previous].header.timestamp)
    ensures HeaderRule(s, header, genesisTime, params)
  {
    hide IndexOk, TargetAbove, MedianTimePast, BranchTimes, Ascends, PrePow;
    var parent := s.index[header.previous];
    ParentNamed(s, anchor, header.previous);
    WindowAscends(s, anchor, header.previous, MTP_WINDOW);
    LaterFits(header, parent.height, parent.header, genesisTime, BranchTimes(s, header.previous, MTP_WINDOW).value,
              params);
  }

  // ----- The claim of a coinbase -----

  const FOUNDER_ALLOCATION := 5_000_000_000_000
  const INITIAL_SUBSIDY := 237_500_000
  const HALVING_INTERVAL := 200_000

  function Subsidy(height: nat): nat {
    if height == 0 then 0
    else
      var era := (height - 1) / HALVING_INTERVAL;
      if era >= 64 then 0 else Over(INITIAL_SUBSIDY, Pow2(era))
  }

  /** The first coinbase pays the founder; beyond that a coinbase claims at most the subsidy and the
      fees. */
  function CheckClaim(founder: seq<byte>, tx: Tx<TxId>, height: nat, fees: nat): Result<(), BlockError> {
    if height == 1 && (tx.outputs == [] || tx.outputs[0] != TxOutput(FOUNDER_ALLOCATION, [0x01] + founder)) then
      Failure(InvalidFounderOutput)
    else
      var claim := SumOutputs<TxId>(if height == 1 then tx.outputs[1..] else tx.outputs);
      if claim.Failure? || Subsidy(height) + fees > U64_MAX then Failure(ClaimOverflow)
      else if claim.value > Subsidy(height) + fees then Failure(CoinbaseOverClaim)
      else Success(())
  }

  /** The configuration of a node, for a given proof-of-work check. */
  function NodeConfig(anchor: Header, genesisTime: u64, params: Params, founder: seq<byte>,
                      pow: (Store, Header) -> bool): Config {
    Config(anchor, genesisTime, params.powLimit,
           Rules((tx: ChainTx, height: nat, fees: nat) => CheckClaim(founder, tx, height, fees)),
               (s: Store, header: Header) => HeaderRule(s, header, genesisTime, params) && pow(s, header))
  }
}
