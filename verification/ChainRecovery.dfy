/** Opening a store: a new one, or the checks of the stored metadata, the scan of the active chain and
    the preferred header tip. */
module ChainRecovery {
  import opened Prelude
  import opened ChainTypes
  import opened ChainStore
  import opened ChainReorg
  import opened ChainSteps
  import opened ChainPrune
  import opened ChainBranch

  datatype Reopened = Reopened(tip: Tip, headerTip: Tip, utxos: Coins)

  /** One height of the scan: the block found there, with its work. */
  function CheckHeight(s: Store, config: Config, safe: nat, h: nat, previous: Tip): Result<Tip, ChainError> {
    if h !in s.active then Failure(CorruptState)
    else if s.active[h] !in s.index then Failure(CorruptState)
    else
      var id, record := s.active[h], s.index[s.active[h]];
      if record.height != h || record.status != FullyValidated then Failure(CorruptState)
      else if h == 0 then
        if id != IdOf(config.anchorHeader) || record.header != config.anchorHeader then Failure(ConfigMismatch)
        else if record.work != 0 || record.bodyRetained then Failure(CorruptState)
        else Success(Tip(id, 0, 0))
      else if record.parent != previous.id then Failure(CorruptState)
      else if !(0 < record.header.difficulty <= config.powLimit) then Failure(CorruptState)
      else if record.work != previous.work + BlockWork(record.header.difficulty) then Failure(CorruptState)
      else if h > safe && !record.bodyRetained then Failure(CorruptState)
      else if record.bodyRetained && (id !in s.blocks || id !in s.undos) then Failure(CorruptState)
      else Success(Tip(id, h, record.work))
  }

  function Scan(s: Store, config: Config, safe: nat, h: nat): Result<Tip, ChainError> {
    if h == 0 then CheckHeight(s, config, safe, 0, Tip(ZeroId, 0, 0))
    else
      var previous :- Scan(s, config, safe, h - 1);
      CheckHeight(s, config, safe, h, previous)
  }

  function CheckMeta(s: Store, config: Config, safe: nat): Result<(), ChainError> {
    if s.anchor.None? then Failure(CorruptState)
    else if s.anchor.value != IdOf(config.anchorHeader) then Failure(ConfigMismatch)
    else if s.genesisTime.None? then Failure(CorruptState)
    else if s.genesisTime.value != config.genesisTime then Failure(ConfigMismatch)
    else if s.health.None? then Failure(CorruptState)
    else if s.health.value == ReindexRequired then Failure(ReindexNeeded)
    else if s.pruneCursor.None? || s.pruneCursor.value > safe then Failure(CorruptState)
    else Success(())
  }

  function Reopen(s: Store, config: Config, tip: Point): Result<Reopened, ChainError> {
    var _ :- CheckMeta(s, config, SafeCursor(tip.height));
    var scanned :- Scan(s, config, SafeCursor(tip.height), tip.height);
    if scanned.id != tip.id then Failure(CorruptState)
    else
      var headerTip :- LoadHeaderTip(s, IdOf(config.anchorHeader));
      Success(Reopened(scanned, headerTip, s.utxos))
  }

  lemma {:induction false} ScanStaysFailed(s: Store, config: Config, safe: nat, h: nat, n: nat)
    requires h <= n && Scan(s, config, safe, h).Failure?
    ensures Scan(s, config, safe, n) == Scan(s, config, safe, h)
    decreases n
  {
    if h < n {
      ScanStaysFailed(s, config, safe, h, n - 1);
    }
  }

  /** The scan as the loop over heights. */
  method ReopenStore(s: Store, config: Config, tip: Point) returns (r: Result<Reopened, ChainError>)
    ensures r == Reopen(s, config, tip)
  {
    hide CheckHeight;
    var safe := SafeCursor(tip.height);
    var meta := CheckMeta(s, config, safe);
    if meta.Failure? {
      return Failure(meta.error);
    }
    var previous := CheckHeight(s, config, safe, 0, Tip(ZeroId, 0, 0));
    if previous.Failure? {
      ScanStaysFailed(s, config, safe, 0, tip.height);
      return Failure(previous.error);
    }
    var height := 0;
    while height < tip.height
      invariant height <= tip.height && Scan(s, config, safe, height) == previous && previous.Success?
    {
      height := height + 1;
      previous := CheckHeight(s, config, safe, height, previous.value);
      if previous.Failure? {
        ScanStaysFailed(s, config, safe, height, tip.height);
        return Failure(previous.error);
      }
    }
    if previous.value.id != tip.id {
      return Failure(CorruptState);
    }
    var headerTip := PreferredHeaderTip(s, IdOf(config.anchorHeader));
    if headerTip.Failure? {
      return Failure(headerTip.error);
    }
    return Success(Reopened(previous.value, headerTip.value, s.utxos));
  }

  // ----- Opening -----

  function ValidateConfig(config: Config): Result<(), ChainError> {
    if config.anchorHeader.previous != ZeroId
        || config.anchorHeader.timestamp != config.genesisTime then Failure(ConfigMismatch)
    else if !(0 < config.anchorHeader.difficulty <= config.powLimit) then Failure(ConfigMismatch)
    else Success(())
  }

  /** No trace of an earlier bootstrap. */
  predicate Untouched(s: Store, config: Config) {
    && s.anchor.None? && s.genesisTime.None? && s.health.None? && s.pruneCursor.None?
    && 0 !in s.active && s.headerTip.None? && IdOf(config.anchorHeader) !in s.index
  }

  function WithAnchor(s: Store, config: Config): Store {
    var id := IdOf(config.anchorHeader);
    var record := Record(config.anchorHeader, config.anchorHeader.previous, 0, 0, FullyValidated, false);
    s.(index := s.index[id := record], active := s.active[0 := id], tip := Some(Point(id, 0)),
       headerTip := Some(Point(id, 0)), anchor := Some(id), genesisTime := Some(config.genesisTime),
                    health := Some(Healthy), pruneCursor := Some(0))
  }

  /** The session on a store: a new one with the anchor alone, or the one the store was left by. */
  function Open(s: Store, config: Config, commitOk: bool): Result<State, ChainError> {
    var _ :- ValidateConfig(config);
    if s.tip.None? then
      if !Untouched(s, config) then Failure(CorruptState)
      else if !commitOk then Failure(Storage)
      else
        var tip := Tip(IdOf(config.anchorHeader), 0, 0);
        Success(State(WithAnchor(s, config), tip, tip, map[], SessionHealthy))
    else
      var r :- Reopen(s, config, s.tip.value);
      Success(State(s, r.tip, r.headerTip, r.utxos, SessionHealthy))
  }

  const EMPTY_STORE := Store(map[], map[], map[], map[], map[], None, None, None, None, None, None)

  /** A fresh store opens, exactly for a valid configuration, to the state every run starts from; and
      that state opens again to itself. */
  lemma FreshOpens(config: Config)
    ensures Open(EMPTY_STORE, config, true)
         == if ValidateConfig(config).Success? then Success(Bootstrapped(config)) else Failure(ConfigMismatch)
    ensures ValidateConfig(config).Success? ==>
              Open(Bootstrapped(config).store, config, true) == Success(Bootstrapped(config))
  {
  }
}
