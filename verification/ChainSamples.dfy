/** Branches of blocks that follow every rule but proof of work: their times ascend, their targets
    are the required ones, and their coinbases have their encoded length and claim what they may. */
module ChainSamples {
  import opened Prelude
  import opened Encoding
  import opened Ledger
  import opened MerkleRoot
  import opened ChainTypes
  import opened ChainBlocks
  import opened ChainStore
  import opened ChainSteps
  import opened ChainConsensus
  import Asert
  import WireFormat

  /** A node, and a main branch whose clock jumps ahead by `late` above the height `fork`.  A side
      branch leaves it at `fork`; its first block carries the transactions `extra`. */
  datatype World = World(genesis: u64, params: Asert.Params, founder: WireFormat.Bytes32, fork: nat, late: nat,
                         extra: seq<ChainTx>)

  // ----- Transactions -----

  ghost function Outputs(w: World, height: nat): seq<TxOutput> {
    if height == 1 then [TxOutput(FOUNDER_ALLOCATION, [0x01] + w.founder)] else []
  }

  ghost function ZeroHash(): WireFormat.Bytes32 {
    seq(32, _ => 0)
  }

  ghost function CoinbaseBytes(w: World, height: nat): seq<byte> {
    WireFormat.EncodeTransaction(
      WireFormat.Transaction(1, [WireFormat.TxInput(ZeroHash(), U32_MAX, U32_MAX, [Varint(height)])],
                             Outputs(w, height), 0))
  }

  ghost function Coinbase(w: World, height: nat): ChainTx {
    var inputs, rest := [OutPoint(NullTx, U32_MAX)], Rest(1, [U32_MAX], [[Varint(height)]], 0);
    var size: Positive := |CoinbaseBytes(w, height)|;
    Tx(TxDigest(inputs, Outputs(w, height), size, rest), inputs, Outputs(w, height), size, rest)
  }

  const STRAY_OUTPUT := TxOutput(1, [])

  ghost function StrayBytes(): seq<byte> {
    WireFormat.EncodeTransaction(WireFormat.Transaction(1, [WireFormat.TxInput(ZeroHash(), 0, U32_MAX, [])],
                                                        [STRAY_OUTPUT], 0))
  }

  /** A transaction that spends what no transaction creates. */
  ghost function Stray(): ChainTx {
    var inputs, rest := [OutPoint(NullTx, 0)], Rest(1, [U32_MAX], [[]], 0);
    var size: Positive := |StrayBytes()|;
    Tx(TxDigest(inputs, [STRAY_OUTPUT], size, rest), inputs, [STRAY_OUTPUT], size, rest)
  }

  lemma OneListed<T>(encode: T -> seq<byte>, value: T)
    ensures |Listed(encode, [value])| == 1 + |encode(value)|
  {
    assert EncodeAll(encode, [value]) == encode(value) + EncodeAll(encode, [value][1..]);
    assert [value][1..] == [];
    assert EncodeAll(encode, []) == [];
  }

  lemma NoneListed<T>(encode: T -> seq<byte>)
    ensures |Listed(encode, [])| == 1
  {
    assert EncodeAll(encode, []) == [];
  }

  lemma VarintIsShort(n: nat)
    ensures |Varint(n)| <= 9
  {
  }

  lemma CoinbaseIsSmall(w: World, height: nat)
    ensures 0 < |CoinbaseBytes(w, height)| <= 200
  {
    hide Varint, Listed, LeBytes;
    var input := WireFormat.TxInput(ZeroHash(), U32_MAX, U32_MAX, [Varint(height)]);
    VarintIsShort(height);
    VarintIsShort(|Varint(height)|);
    OneListed(Blob, Varint(height));
    OneListed(WireFormat.EncodeInput, input);
    if height == 1 {
      VarintIsShort(33);
      OneListed(WireFormat.EncodeOutput, Outputs(w, height)[0]);
    } else {
      NoneListed(WireFormat.EncodeOutput);
    }
  }

  lemma StrayIsSmall()
    ensures 0 < |StrayBytes()| <= 200
  {
    hide Varint, Listed, LeBytes;
    VarintIsShort(0);
    NoneListed(Blob);
    OneListed(WireFormat.EncodeInput, WireFormat.TxInput(ZeroHash(), 0, U32_MAX, []));
    OneListed(WireFormat.EncodeOutput, STRAY_OUTPUT);
  }

  // ----- Blocks -----

  /** A block with its height and the work up to it. */
  datatype Link = Link(block: Block, height: nat, work: nat)

  ghost function IdAt(link: Link): BlockId {
    IdOf(link.block.header)
  }

  ghost function Anchor(w: World): Header {
    Header(1, ZeroId, Tree(LeafHashes(TxIds([Coinbase(w, 0)]))), w.genesis, w.params.initialTarget, 0)
  }

  ghost function Setup(w: World): Config {
    NodeConfig(Anchor(w), w.genesis, w.params, w.founder, (store, header) => true)
  }

  /** The block on a parent with a given time, the required target and further transactions. */
  ghost function Child(w: World, parent: Link, time: u64, nonce: u64, extra: seq<ChainTx>): Link {
    var height, txs := parent.height + 1, [Coinbase(w, parent.height + 1)] + extra;
    var target := TargetAbove(w.params, w.genesis, parent.height, parent.block.header.timestamp);
    Link(Block(Header(1, IdAt(parent), Tree(LeafHashes(TxIds(txs))), time, target, nonce), txs), height,
         parent.work + BlockWork(target))
  }

  lemma ChildFacts(w: World, parent: Link, time: u64, nonce: u64, extra: seq<ChainTx>)
    ensures var c := Child(w, parent, time, nonce, extra);
            var target := TargetAbove(w.params, w.genesis, parent.height, parent.block.header.timestamp);
            && target > 0 && c.height == parent.height + 1 && c.work == parent.work + BlockWork(target) > parent.work
            && c.block.header.previous == IdAt(parent) && c.block.header.timestamp == time
               && c.block.header.nonce == nonce
            && c.block.header.difficulty == target
  {
    hide Tree, LeafHashes, BlockWork, Asert.TargetAt, Asert.Exponent, Coinbase;
  }

  lemma SmallSizes(coinbase: ChainTx, extra: seq<ChainTx>)
    requires |extra| <= 1
    ensures SizeOf([coinbase] + extra) == coinbase.size + if extra == [] then 0 else extra[0].size
  {
    var txs := [coinbase] + extra;
    assert [coinbase][..0] == [];
    assert SizeOf([coinbase]) == coinbase.size;
    if extra == [] {
      assert txs == [coinbase];
    } else {
      assert txs[..1] == [coinbase];
    }
  }

  /** Without further transactions, or with the stray one, a block passes its context-free checks. */
  lemma ChildFits(w: World, parent: Link, time: u64, nonce: u64, extra: seq<ChainTx>)
    requires extra == [] || extra == [Stray()]
    ensures SkeletonOk(Child(w, parent, time, nonce, extra).block, parent.height + 1)
  {
    hide Tree, LeafHashes, BlockWork, Asert.TargetAt, Asert.Exponent, CoinbaseBytes, StrayBytes, Varint, Outputs;
    var coinbase := Coinbase(w, parent.height + 1);
    CoinbaseIsSmall(w, parent.height + 1);
    StrayIsSmall();
    VarintIsShort(1);
    VarintIsShort(2);
    SmallSizes(coinbase, extra);
  }

  lemma NoSum()
    ensures SumOutputs<TxId>([]) == Success(0)
  {
  }

  lemma SubsidyFits(height: nat)
    ensures Subsidy(height) <= U64_MAX
  {
  }

  lemma ClaimPasses(w: World, height: nat)
    requires 0 < height
    ensures CheckClaim(w.founder, Coinbase(w, height), height, 0).Success?
  {
    hide CoinbaseBytes, Varint, Asert.Pow2, SumOutputs;
    NoSum();
    SubsidyFits(height);
    assert height == 1 ==> Coinbase(w, height).outputs[1..] == [];
  }

  lemma FreshOutputs(w: World, height: nat, u: Coins)
    requires height > 0 && (height == 1 ==> u == map[])
    ensures CheckOutputs(u, Coinbase(w, height), |Coinbase(w, height).outputs|).Success?
  {
    hide CoinbaseBytes, Varint;
  }

  /** A block that is nothing but a coinbase connects to every ledger; the first one to the empty. */
  lemma BareConnects(w: World, parent: Link, time: u64, nonce: u64, u: Coins, verify: Spend)
    requires parent.height < U64_MAX && (parent.height == 0 ==> u == map[])
    ensures Connect(u, Child(w, parent, time, nonce, []).block, parent.height + 1, Setup(w).rules, verify).Success?
  {
    hide Tree, LeafHashes, BlockWork, Asert.TargetAt, Asert.Exponent, CoinbaseBytes, Varint, CheckClaim, CheckOutputs,
         Created, Outputs, CheckBlock, SkeletonOk;
    var height := parent.height + 1;
    var coinbase, block := Coinbase(w, height), Child(w, parent, time, nonce, []).block;
    assert block.transactions == [coinbase] && block.transactions[1..] == [];
    ChildFits(w, parent, time, nonce, []);
    CheckBlockMeans(block, height);
    ClaimPasses(w, height);
    FreshOutputs(w, height, u);
  }

  /** A block with the stray transaction connects to no ledger that lacks its input. */
  lemma StrayRefused(w: World, parent: Link, time: u64, nonce: u64, u: Coins, verify: Spend)
    requires OutPoint(NullTx, 0) !in u
    ensures Connect(u, Child(w, parent, time, nonce, [Stray()]).block, parent.height + 1, Setup(w).rules, verify)
         == Failure(MissingUtxo(OutPoint(NullTx, 0)))
  {
    hide Tree, LeafHashes, BlockWork, Asert.TargetAt, Asert.Exponent, CoinbaseBytes, StrayBytes, Varint, CheckClaim,
         SkeletonOk, CheckBlock, CheckCoinbase;
    var block := Child(w, parent, time, nonce, [Stray()]).block;
    ChildFits(w, parent, time, nonce, [Stray()]);
    CheckBlockMeans(block, parent.height + 1);
    assert block.transactions[1..] == [Stray()];
    assert RunNormals(u, [Stray()], 0, parent.height + 1, verify) == Success(Overlay(u, 0));
    assert ScanInputs(u, Stray(), parent.height + 1, verify, 0) == Success(0);
  }

  // ----- The two branches -----

  ghost function Clock(w: World, t: nat): u64 {
    if w.genesis + t <= U64_MAX then w.genesis + t else U64_MAX
  }

  ghost function Main(w: World, n: nat): Link {
    if n == 0 then Link(Block(Anchor(w), []), 0, 0)
    else Child(w, Main(w, n - 1), Clock(w, n + if n > w.fork then w.late else 0), 0, [])
  }

  ghost function FirstSide(w: World): Link {
    Child(w, Main(w, w.fork), Clock(w, w.fork + 1), 1, w.extra)
  }

  ghost function SecondSide(w: World): Link {
    Child(w, FirstSide(w), Clock(w, w.fork + 2), 1, [])
  }

  /** The main branch has `n` blocks, the side branch two, and no clock runs over. */
  ghost predicate Fits(w: World, n: nat) {
    && Asert.ParamsOk(w.params) && (w.extra == [] || w.extra == [Stray()])
    && 0 < w.fork < n && w.genesis + n + w.late + 2 <= U64_MAX
  }

  lemma {:induction false} MainFacts(w: World, n: nat)
    ensures var m := Main(w, n);
            && m.height == n && m.block.header.nonce == 0
            && m.block.header.timestamp == Clock(w, n + if n > w.fork then w.late else 0)
            && m.block.header.previous == if n == 0 then ZeroId else IdAt(Main(w, n - 1))
  {
    hide Child, Tree, LeafHashes, Coinbase;
    if n > 0 {
      MainFacts(w, n - 1);
      ChildFacts(w, Main(w, n - 1), Clock(w, n + if n > w.fork then w.late else 0), 0, []);
    }
  }

  lemma {:induction false} MainIdsDiffer(w: World, a: nat, b: nat)
    requires a < b
    ensures IdAt(Main(w, a)) != IdAt(Main(w, b))
  {
    hide Main;
    MainFacts(w, a);
    MainFacts(w, b);
    if a > 0 {
      MainIdsDiffer(w, a - 1, b - 1);
    }
  }

  lemma SideFacts(w: World)
    ensures var a, b := FirstSide(w), SecondSide(w);
            && a.height == w.fork + 1 && b.height == w.fork + 2
            && a.block.header.nonce == 1 && b.block.header.nonce == 1
            && a.block.header.previous == IdAt(Main(w, w.fork)) && b.block.header.previous == IdAt(a)
            && a.block.header.timestamp == Clock(w, w.fork + 1) && b.block.header.timestamp == Clock(w, w.fork + 2)
            && Main(w, w.fork).work < a.work < b.work
  {
    hide Child, Main;
    MainFacts(w, w.fork);
    ChildFacts(w, Main(w, w.fork), Clock(w, w.fork + 1), 1, w.extra);
    ChildFacts(w, FirstSide(w), Clock(w, w.fork + 2), 1, []);
  }

  lemma SidesAreNew(w: World, h: nat)
    ensures IdAt(FirstSide(w)) != IdAt(Main(w, h)) && IdAt(SecondSide(w)) != IdAt(Main(w, h))
    ensures IdAt(FirstSide(w)) != IdAt(SecondSide(w))
  {
    hide Main, FirstSide, SecondSide;
    MainFacts(w, h);
    MainFacts(w, w.fork);
    SideFacts(w);
  }

  /** Siblings have the same target. */
  lemma SameWork(w: World)
    ensures FirstSide(w).work == Main(w, w.fork + 1).work
  {
    hide Tree, LeafHashes, BlockWork, Asert.TargetAt, Asert.Exponent, Coinbase;
  }
}
