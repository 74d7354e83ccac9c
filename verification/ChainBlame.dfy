/** What a reorganization leaves behind, exactly: the new branch when it goes through, and when it
    fails the marks on the part of it that does not connect. */
module ChainBlame {
  import opened Prelude
  import opened ChainTypes
  import opened ChainBlocks
  import opened ChainHistory
  import opened ChainStore
  import opened ChainReorg
  import opened ChainSteps
  import opened ChainInvariant
  import opened ChainExtend
  import opened ChainSwitch
  import opened ChainPlan
  import opened ChainWitness

  // ----- Marks -----

  ghost predicate Among(bodies: seq<Body>, p: nat, id: BlockId) {
    exists i :: p <= i < |bodies| && bodies[i].id == id
  }

  ghost function MarkedRecord(body: Body, candidate: BlockId): Record {
    body.record.(status := Invalid, bodyRetained := body.id != candidate && body.record.bodyRetained)
  }

  /** The bodies from `p` on are invalid, the candidate without its body; everything else is as it was. */
  ghost predicate IndexMarked(before: Index, after: Index, bodies: seq<Body>, p: nat, candidate: BlockId) {
    && (forall i | p <= i < |bodies| ::
          bodies[i].id in after && after[bodies[i].id] == MarkedRecord(bodies[i], candidate))
    && (forall id | !Among(bodies, p, id) ::
          (id in after <==> id in before) && (id in before ==> after[id] == before[id]))
  }

  ghost predicate DistinctIds(bodies: seq<Body>) {
    && (forall i | 0 <= i < |bodies| :: bodies[i].id == IdOf(bodies[i].record.header))
    && forall i, j | 0 <= i < j < |bodies| :: bodies[i].id != bodies[j].id
  }

  lemma AmongSnoc(front: seq<Body>, last: Body, id: BlockId)
    ensures Among(front + [last], 0, id) <==> Among(front, 0, id) || id == last.id
  {
    var bodies := front + [last];
    if Among(front, 0, id) {
      var i :| 0 <= i < |front| && front[i].id == id;
      assert bodies[i].id == id;
    }
    assert bodies[|front|].id == last.id;
  }

  lemma AmongHere(bodies: seq<Body>, i: nat)
    requires i < |bodies|
    ensures Among(bodies, 0, bodies[i].id)
  {
  }

  lemma MarkOne(before: Index, middle: Index, front: seq<Body>, last: Body, candidate: BlockId)
    requires IndexMarked(before, middle, front, 0, candidate) && !Among(front, 0, last.id)
    ensures IndexMarked(before, middle[last.id := MarkedRecord(last, candidate)], front + [last], 0, candidate)
  {
    hide Among;
    var bodies, after := front + [last], middle[last.id := MarkedRecord(last, candidate)];
    forall i | 0 <= i < |front|
      ensures front[i].id != last.id
    {
      AmongHere(front, i);
    }
    forall id | !Among(bodies, 0, id)
      ensures (id in after <==> id in before) && (id in before ==> after[id] == before[id])
    {
      AmongSnoc(front, last, id);
    }
  }

  lemma NoMarks(index: Index, candidate: BlockId)
    ensures IndexMarked(index, index, [], 0, candidate)
  {
  }

  lemma {:induction false} MarkExact(s: Store, bodies: seq<Body>, candidate: BlockId)
    requires DistinctIds(bodies)
    ensures var marked := MarkInvalid(s, bodies, candidate);
            marked == s.(index := marked.index) && IndexMarked(s.index, marked.index, bodies, 0, candidate)
  {
    hide IndexMarked;
    if bodies == [] {
      NoMarks(s.index, candidate);
    } else {
      var front, last := bodies[..|bodies| - 1], bodies[|bodies| - 1];
      MarkExact(s, front, candidate);
      MarkOne(s.index, MarkInvalid(s, front, candidate).index, front, last, candidate);
      assert front + [last] == bodies;
    }
  }

  lemma MarkSuffix(before: Index, after: Index, bodies: seq<Body>, p: nat, candidate: BlockId)
    requires p <= |bodies| && IndexMarked(before, after, bodies[p..], 0, candidate)
    ensures IndexMarked(before, after, bodies, p, candidate)
  {
    var rest := bodies[p..];
    forall i | p <= i < |bodies|
      ensures bodies[i] == rest[i - p]
    {
    }
    assert forall i | 0 <= i < |rest| :: rest[i] == bodies[p + i];
  }

  /** Different heights, different blocks. */
  lemma BodiesDiffer(state: State, config: Config, plan: Plan, record: Record)
    requires PlanFits(state, config, plan, record)
    ensures DistinctIds(plan.bodies)
  {
    hide Attachable, WorkFollows;
    var s, anchor, start := state.store, IdOf(config.anchorHeader), ForkTip(state, plan);
    forall i | 0 <= i < |plan.bodies|
      ensures plan.bodies[i].id == IdOf(plan.bodies[i].record.header)
    {
      assert BodyFits(s.index, anchor, start, record.work, plan.bodies, i);
    }
    forall i, j | 0 <= i < j < |plan.bodies|
      ensures plan.bodies[i].id != plan.bodies[j].id
    {
      assert BodyFits(s.index, anchor, start, record.work, plan.bodies, i);
      assert BodyFits(s.index, anchor, start, record.work, plan.bodies, j);
    }
  }

  lemma DistinctSuffix(bodies: seq<Body>, p: nat)
    requires DistinctIds(bodies) && p <= |bodies|
    ensures DistinctIds(bodies[p..])
  {
  }

  /** The body at `p` is the first that does not connect on the chain below it. */
  ghost predicate FirstRefused(chain: seq<Block>, plan: Plan, p: nat, rules: Rules, verify: Spend)
    requires plan.forkHeight <= |chain|
  {
    && p < |plan.bodies| && FirstConnect(chain, plan, p, rules, verify)
    && RefusedWith(Below(chain, plan, p), plan.bodies[p].block, rules, verify)
  }

  /** What a failed plan leaves: the marks from the first refused body on, and nothing else. */
  ghost predicate LeavesMarks(before: State, after: State, chain: seq<Block>, plan: Plan, p: nat, candidate: BlockId) {
    && after == before.(store := before.store.(index := after.store.index))
    && IndexMarked(before.store.index, after.store.index, plan.bodies, p, candidate)
    && forall i | 0 <= i < p && i < |plan.bodies| ::
         && plan.bodies[i].id in before.store.index && plan.bodies[i].id in after.store.index
         && after.store.index[plan.bodies[i].id] == before.store.index[plan.bodies[i].id]
  }

  lemma UnmarkedBelow(state: State, config: Config, plan: Plan, record: Record, after: Index, p: nat,
                      candidate: BlockId)
    requires PlanFits(state, config, plan, record) && DistinctIds(plan.bodies) && p < |plan.bodies|
    requires IndexMarked(state.store.index, after, plan.bodies, p, candidate)
    ensures forall i | 0 <= i < p ::
              && plan.bodies[i].id in state.store.index && plan.bodies[i].id in after
              && after[plan.bodies[i].id] == state.store.index[plan.bodies[i].id]
  {
    hide Attachable, Follows;
    forall i | 0 <= i < p
      ensures plan.bodies[i].id in state.store.index && !Among(plan.bodies, p, plan.bodies[i].id)
    {
      assert BodyFits(state.store.index, IdOf(config.anchorHeader), ForkTip(state, plan), record.work, plan.bodies, i);
    }
  }

  /** A plan whose write goes through fails if and only if some body does not connect on the chain
      below it.  Then it names the fault of the first such body and marks exactly that body and those
      above it. */
  lemma PlanExact(state: State, chain: seq<Block>, config: Config, plan: Plan, record: Record, candidate: BlockId,
                  verify: Spend) returns (p: nat)
    requires Inv(state, chain, config) && PlanFits(state, config, plan, record) && state.tip.work < record.work
    ensures plan.forkHeight <= |chain|
    ensures var r := ApplyPlan(state, plan, candidate, config, verify, true);
            && (r.result.Success? <==> FirstConnect(chain, plan, |plan.bodies|, config.rules, verify))
            && (r.result.Failure? ==>
                  && FirstRefused(chain, plan, p, config.rules, verify)
                  && var below := Below(chain, plan, p);
                     && Connect(Replayed(below), plan.bodies[p].block, |below| + 1, config.rules, verify).Failure?
                     && r.result == Failure(UtxoFault(Connect(Replayed(below), plan.bodies[p].block, |below| + 1,
                                                              config.rules, verify).error))
                     && LeavesMarks(state, r.state, chain, plan, p, candidate))
  {
    hide Inv, PlanFits, Unwind, Wind, Connect, ChainGood, Replayed, Below, FirstConnect, MarkInvalid, SwitchedStore,
         IndexMarked;
    var n := |plan.bodies|;
    ForkInside(state, chain, config, plan, record);
    WindConnects(state, chain, config, plan, record, verify, n);
    var w := Wind(Unwind(state.utxos, plan.undos, |plan.undos|).value, plan.bodies, n, config.rules, verify);
    p := 0;
    if w.Stuck? {
      p := w.position;
      WindSticksAt(state, chain, config, plan, record, verify, n);
      BodiesDiffer(state, config, plan, record);
      DistinctSuffix(plan.bodies, p);
      MarkExact(state.store, plan.bodies[p..], candidate);
      var marked := MarkInvalid(state.store, plan.bodies[p..], candidate);
      MarkSuffix(state.store.index, marked.index, plan.bodies, p, candidate);
      UnmarkedBelow(state, config, plan, record, marked.index, p, candidate);
    }
  }

  // ----- The witnesses stay -----

  lemma {:induction false} BodiesDescend(state: State, chain: seq<Block>, config: Config, plan: Plan, record: Record,
                                         p: nat, i: nat)
    requires Inv(state, chain, config) && PlanFits(state, config, plan, record) && plan.forkHeight <= |chain|
    requires p <= i < |plan.bodies|
    ensures Descends(plan.bodies[i].id, plan.bodies[p].id)
  {
    hide Inv, PlanFits, Below;
    if p < i {
      BodiesDescend(state, chain, config, plan, record, p, i - 1);
      BodyNames(state, chain, config, plan, record, i);
      BodyNames(state, chain, config, plan, record, i - 1);
      BelowNext(chain, plan, i - 1);
    }
  }

  lemma MarksKeepBest(before: Index, after: Index, bodies: seq<Body>, p: nat, candidate: BlockId, best: nat)
    requires IndexMarked(before, after, bodies, p, candidate) && HeaderIsBest(before, best)
    ensures HeaderIsBest(after, best)
  {
    forall id | id in after && after[id].status != Invalid
      ensures after[id].work <= best
    {
      assert !Among(bodies, p, id);
    }
  }

  /** Every mark has its reason. */
  lemma ProvenMarks(state: State, after: State, chain: seq<Block>, config: Config, plan: Plan, record: Record, p: nat,
                    candidate: BlockId, verify: Spend)
    requires Inv(state, chain, config) && PlanFits(state, config, plan, record) && plan.forkHeight <= |chain|
    requires ProvenState(state, chain, config) && FirstRefused(chain, plan, p, config.rules, verify)
    requires LeavesMarks(state, after, chain, plan, p, candidate)
    ensures ProvenState(after, chain, config)
  {
    hide Inv, PlanFits, Below, FirstConnect, AllConnect, Branch, Top, RefusedWith, Descends;
    var anchor, below, block := IdOf(config.anchorHeader), Below(chain, plan, p), plan.bodies[p].block;
    BelowConnects(state, chain, config, plan, record, verify, p);
    BodyNames(state, chain, config, plan, record, p);
    assert RefusedOn(below, block, anchor, config.rules);
    hide RefusedOn;
    forall id | id in after.store.index && after.store.index[id].status == Invalid
      ensures Blamed(id, anchor, config.rules)
    {
      if Among(plan.bodies, p, id) {
        var i :| p <= i < |plan.bodies| && plan.bodies[i].id == id;
        BodiesDescend(state, chain, config, plan, record, p, i);
      }
    }
    MarksKeepBest(state.store.index, after.store.index, plan.bodies, p, candidate, state.headerTip.work);
  }

  lemma BestGrowsTo(chain: seq<Block>, index: Index, best: nat, more: nat, anchor: BlockId, rules: Rules)
    requires Proven(chain, index, best, anchor, rules) && best <= more
    ensures Proven(chain, index, more, anchor, rules)
  {
    hide AllConnect, BlameOk;
  }

  lemma {:induction false} ProvenBodies(chain: seq<Block>, s: Store, best: nat, more: nat, anchor: BlockId,
                                        rules: Rules, bodies: seq<Body>, undos: seq<BlockUndo>, k: nat)
    requires Proven(chain, s.index, best, anchor, rules) && best <= more && k <= |bodies| && k <= |undos|
    requires forall i | 0 <= i < |bodies| :: bodies[i].record.work <= more
    ensures Proven(chain, PutBodies(s, bodies, undos, k).index, more, anchor, rules)
  {
    hide Proven;
    if k == 0 {
      BestGrowsTo(chain, s.index, best, more, anchor, rules);
    } else {
      ProvenBodies(chain, s, best, more, anchor, rules, bodies, undos, k - 1);
      ProvenPut(chain, PutBodies(s, bodies, undos, k - 1).index, more, more, anchor, rules,
                bodies[k - 1].record.(status := FullyValidated, bodyRetained := true));
    }
  }

  lemma OtherChain(chain: seq<Block>, next: seq<Block>, index: Index, best: nat, anchor: BlockId, rules: Rules)
    requires Proven(chain, index, best, anchor, rules) && AllConnect(next, rules)
    ensures Proven(next, index, best, anchor, rules)
  {
    hide AllConnect, BlameOk, HeaderIsBest;
  }

  lemma ProvenChain(state: State, chain: seq<Block>, config: Config)
    requires ProvenState(state, chain, config)
    ensures AllConnect(chain, config.rules)
  {
    hide AllConnect, BlameOk, HeaderIsBest;
  }

  lemma WorkOfBodies(state: State, config: Config, plan: Plan, record: Record)
    requires PlanFits(state, config, plan, record)
    ensures plan.bodies != [] && plan.bodies[|plan.bodies| - 1].record.work == record.work
    ensures forall i | 0 <= i < |plan.bodies| :: plan.bodies[i].record.work <= record.work
  {
    hide Attachable, Follows;
    forall i | 0 <= i < |plan.bodies|
      ensures plan.bodies[i].record.work <= record.work
    {
      assert BodyFits(state.store.index, IdOf(config.anchorHeader), ForkTip(state, plan), record.work, plan.bodies, i);
    }
  }

  lemma ProvenSwitch(state: State, chain: seq<Block>, config: Config, plan: Plan, record: Record, candidate: BlockId,
                     verify: Spend)
    requires Inv(state, chain, config) && PlanFits(state, config, plan, record) && plan.forkHeight <= |chain|
    requires ProvenState(state, chain, config) && FirstConnect(chain, plan, |plan.bodies|, config.rules, verify)
    requires ApplyPlan(state, plan, candidate, config, verify, true).result.Success?
    ensures ProvenState(ApplyPlan(state, plan, candidate, config, verify, true).state,
                        Below(chain, plan, |plan.bodies|), config)
  {
    hide Inv, PlanFits, Below, FirstConnect, Unwind, Wind, PutBodies, DropActive, Proven, Patched, AllConnect;
    var s, anchor, n := state.store, IdOf(config.anchorHeader), |plan.bodies|;
    var next := Below(chain, plan, n);
    WorkOfBodies(state, config, plan, record);
    var w := Wind(Unwind(state.utxos, plan.undos, |plan.undos|).value, plan.bodies, n, config.rules, verify);
    var best, cut := state.headerTip.work, DropActive(s, plan.forkHeight, state.tip.height);
    var more := if record.work > best then record.work else best;
    DropActiveFrame(s, plan.forkHeight, state.tip.height);
    ProvenBodies(chain, cut, best, more, anchor, config.rules, plan.bodies, w.undos, n);
    ProvenChain(state, chain, config);
    BelowConnects(state, chain, config, plan, record, verify, n);
    OtherChain(chain, next, PutBodies(cut, plan.bodies, w.undos, n).index, more, anchor, config.rules);
  }

  /** A plan, whatever comes of it, leaves witnesses for the chain it leads to. */
  lemma ProvenPlan(state: State, chain: seq<Block>, config: Config, plan: Plan, record: Record, candidate: BlockId,
                   verify: Spend, commitOk: bool)
    requires Inv(state, chain, config) && PlanFits(state, config, plan, record) && state.tip.work < record.work
    requires ProvenState(state, chain, config)
    ensures plan.forkHeight <= |chain|
    ensures var r := ApplyPlan(state, plan, candidate, config, verify, commitOk);
            ProvenState(r.state, if r.result.Success? then Below(chain, plan, |plan.bodies|) else chain, config)
  {
    hide Inv, PlanFits, Below, FirstRefused, LeavesMarks, Connect, ProvenState, Unwind, Wind;
    ForkInside(state, chain, config, plan, record);
    var p := PlanExact(state, chain, config, plan, record, candidate, verify);
    if commitOk {
      var r := ApplyPlan(state, plan, candidate, config, verify, true);
      if r.result.Failure? {
        ProvenMarks(state, r.state, chain, config, plan, record, p, candidate, verify);
      } else {
        ProvenSwitch(state, chain, config, plan, record, candidate, verify);
      }
    }
  }

  lemma ProvenExtend(state: State, chain: seq<Block>, config: Config, block: Block, record: Record, verify: Spend,
                     commitOk: bool)
    requires Inv(state, chain, config) && Follows(state.store.index, record) && record.parent == state.tip.id
    requires record.header == block.header && ProvenState(state, chain, config)
    ensures var r := Extend(state, block, record.height, record.work, config, verify, commitOk);
            ProvenState(r.state, if r.result.Success? then chain + [block] else chain, config)
  {
    hide IndexOk, ActiveOk, BodiesOk, TipIsBest, LedgerOk, HeaderTipOk, Follows, Connect, ConnectDelta, Patched,
         Proven, AllConnect, ChainGood, Replayed;
    var s, anchor := state.store, IdOf(config.anchorHeader);
    LedgerFacts(s.active, s.undos, s.utxos, state.utxos, state.tip.height, chain);
    TipFollows(s.active, s.index, s.tip, state.tip, anchor, record);
    var r := Extend(state, block, record.height, record.work, config, verify, commitOk);
    if r.result.Success? {
      var full := Record(block.header, block.header.previous, record.height, record.work, FullyValidated, true);
      ProvenChain(state, chain, config);
      assert ConnectsWith(chain, block, config.rules, verify);
      AllConnectSnoc(chain, block, config.rules);
      ProvenPut(chain, s.index, state.headerTip.work, r.state.headerTip.work, anchor, config.rules, full);
      OtherChain(chain, chain + [block], r.state.store.index, r.state.headerTip.work, anchor, config.rules);
    }
  }

  lemma ProvenSide(state: State, chain: seq<Block>, config: Config, block: Block, record: Record)
    requires Inv(state, chain, config) && record.status != Invalid && record.work <= state.tip.work
    requires ProvenState(state, chain, config)
    ensures ProvenState(state.(store := WithIndex(state.store, record)
                                          .(blocks := state.store.blocks[IdOf(block.header) := block])), chain, config)
  {
    hide IndexOk, ActiveOk, BodiesOk, TipIsBest, LedgerOk, Proven;
    ProvenPut(chain, state.store.index, state.headerTip.work, state.headerTip.work, IdOf(config.anchorHeader),
              config.rules, record);
  }

  lemma ProvenHeader(state: State, chain: seq<Block>, config: Config, header: Header, commitOk: bool)
    requires ProvenState(state, chain, config)
    ensures ProvenState(AcceptHealthyHeader(state, header, config, commitOk).state, chain, config)
  {
    hide Proven, ValidateHeader;
    var record := ValidateHeader(state.store, header, config);
    if record.Success? {
      ValidatedFollows(state.store, header, config);
      var best := if record.value.work > state.headerTip.work then record.value.work else state.headerTip.work;
      ProvenPut(chain, state.store.index, state.headerTip.work, best, IdOf(config.anchorHeader), config.rules,
                record.value);
    }
  }
}
