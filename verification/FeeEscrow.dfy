/** Execution fees: funding capabilities, fee terms, the escrow book and its settlements.

    Identifiers are domain-separated hashes, modelled as free constructors. */
module FeeEscrow {
  import opened Prelude
  import opened Arithmetic
  import opened Ledger

  const MAX_ESCROW_HISTORY_ENTRIES := 65_536

  datatype SourceKind = NativeUtxo | ExecutionBalance

  datatype Outcome = Committed | Reverted | ResourceExhausted

  datatype Capability = Capability(kind: SourceKind, payer: nat, commitment: nat, available: u64, sequence: u64,
                                   authorization: nat)

  datatype FeeTerms = FeeTerms(baseFee: u64, maxFee: u64, priorityFee: u64, maxWeight: u64, maxEscrow: u64)

  datatype Ticket = Ticket(txid: nat, payer: nat, kind: SourceKind, capability: FeeId, terms: FeeTerms)

  datatype FeeId =
    | CapabilityId(content: Capability)
    | SourceId(kind: SourceKind, payer: nat, commitment: nat, sequence: u64)
    | EscrowId(ticket: Ticket)

  datatype ReceiptError =
    | InvalidActualWeight | ReceiptMaxFeeBelowBaseFee | ReceiptPriorityExceedsMaxFee | ReceiptOverflow
    | ReceiptAboveSupply | InconsistentArithmetic

  datatype FeeError =
    | ZeroMaxWeight | MaxFeeBelowBaseFee | PriorityFeeExceedsMaxFee | ArithmeticOverflow | AmountExceedsMaximumSupply
    | ZeroEscrowCapacity | EscrowCapacityExceeded | InsufficientFunding | CapabilityAlreadyConsumed | StaleFundingSource
    | EscrowAlreadyExists | EscrowHistoryCapacityExceeded | UnknownEscrow | EscrowAlreadySettled
    | ActualWeightOutOfRange | InvalidReceipt(error: ReceiptError)

  datatype Receipt = Receipt(txid: nat, escrow: FeeId, payer: nat, kind: SourceKind, outcome: Outcome, terms: FeeTerms,
                             actualWeight: u64, effectivePrice: nat, baseComponent: nat, priorityComponent: nat,
                             charged: nat, refund: nat)

  // ----- Capabilities and terms -----

  function SourceOf(c: Capability): FeeId {
    SourceId(c.kind, c.payer, c.commitment, c.sequence)
  }

  /** The escrow covers the whole weight at the maximum fee, within the money supply. */
  ghost predicate TermsOk(t: FeeTerms) {
    && t.maxWeight > 0 && t.baseFee <= t.maxFee && t.priorityFee <= t.maxFee
    && t.maxEscrow == t.maxWeight * t.maxFee && t.maxEscrow <= MAX_SUPPLY_BASE_UNITS
  }

  lemma NonNegative(a: nat, b: nat)
    ensures a * b >= 0
  {
  }

  function NewTerms(baseFee: u64, maxFee: u64, priorityFee: u64, maxWeight: u64): (r: Result<FeeTerms, FeeError>)
    ensures r.Success? <==>
              && maxWeight > 0 && baseFee <= maxFee && priorityFee <= maxFee
              && maxWeight * maxFee <= MAX_SUPPLY_BASE_UNITS
    ensures r.Success? ==> TermsOk(r.value)
  {
    if maxWeight == 0 then Failure(ZeroMaxWeight)
    else if maxFee < baseFee then Failure(MaxFeeBelowBaseFee)
    else if priorityFee > maxFee then Failure(PriorityFeeExceedsMaxFee)
    else if maxWeight * maxFee > U64_MAX then Failure(ArithmeticOverflow)
    else if maxWeight * maxFee > MAX_SUPPLY_BASE_UNITS then Failure(AmountExceedsMaximumSupply)
    else
      NonNegative(maxWeight, maxFee);
      Success(FeeTerms(baseFee, maxFee, priorityFee, maxWeight, maxWeight * maxFee))
  }

  // ----- Settlement arithmetic -----

  function EffectivePrice(t: FeeTerms): nat {
    if t.maxFee <= t.baseFee + t.priorityFee then t.maxFee else t.baseFee + t.priorityFee
  }

  /** The receipt's own check: it recomputes every amount from the terms and the weight. */
  function CheckReceipt(r: Receipt): Result<(), ReceiptError> {
    var t := r.terms;
    if t.maxWeight == 0 || r.actualWeight == 0 || r.actualWeight > t.maxWeight then Failure(InvalidActualWeight)
    else if t.maxFee < t.baseFee then Failure(ReceiptMaxFeeBelowBaseFee)
    else if t.priorityFee > t.maxFee then Failure(ReceiptPriorityExceedsMaxFee)
    else if t.maxWeight * t.maxFee > U64_MAX then Failure(ReceiptOverflow)
    else if t.maxWeight * t.maxFee > MAX_SUPPLY_BASE_UNITS then Failure(ReceiptAboveSupply)
    else
      var charged, baseComponent := r.actualWeight * EffectivePrice(t), r.actualWeight * t.baseFee;
      if charged < baseComponent || t.maxWeight * t.maxFee < charged then Failure(InconsistentArithmetic)
      else if EffectivePrice(t) != r.effectivePrice || baseComponent != r.baseComponent
              || charged - baseComponent != r.priorityComponent || charged != r.charged
              || t.maxWeight * t.maxFee - charged != r.refund then Failure(InconsistentArithmetic)
      else Success(())
  }

  function Settlement(ticket: Ticket, escrow: FeeId, outcome: Outcome, actualWeight: u64): Result<Receipt, FeeError> {
    var t := ticket.terms;
    var price := EffectivePrice(t);
    NonNegative(actualWeight, price);
    NonNegative(actualWeight, t.baseFee);
    var charged: nat, baseComponent: nat := actualWeight * price, actualWeight * t.baseFee;
    if charged < baseComponent || t.maxEscrow < charged then Failure(ArithmeticOverflow)
    else if price > U64_MAX || charged > U64_MAX || baseComponent > U64_MAX then Failure(ArithmeticOverflow)
    else
      var receipt := Receipt(ticket.txid, escrow, ticket.payer, ticket.kind, outcome, t, actualWeight,
                             price, baseComponent, charged - baseComponent, charged, t.maxEscrow - charged);
      var check := CheckReceipt(receipt);
      if check.Failure? then Failure(InvalidReceipt(check.error)) else Success(receipt)
  }

  lemma Product(a: nat, b: nat, k: nat)
    requires a <= b
    ensures k * a <= k * b && a * k <= b * k
  {
    MulMonotone(a, b, k);
  }

  ghost function Min(a: nat, b: nat): nat {
    if a < b then a else b
  }

  /** The receipt charges the weight at the base and priority fees, or at the maximum fee if that is
      less, and refunds the rest of the escrow. */
  ghost predicate Charges(receipt: Receipt, terms: FeeTerms, weight: nat) {
    && receipt.charged == weight * Min(terms.maxFee, terms.baseFee + terms.priorityFee)
    && receipt.charged + receipt.refund == terms.maxEscrow
  }

  /** The receipt is made out for the escrow and its ticket. */
  ghost predicate MadeFor(receipt: Receipt, ticket: Ticket, escrow: FeeId, outcome: Outcome, weight: nat) {
    && receipt.txid == ticket.txid && receipt.payer == ticket.payer && receipt.kind == ticket.kind
    && receipt.terms == ticket.terms
    && receipt.escrow == escrow && receipt.outcome == outcome && receipt.actualWeight == weight
  }

  /** Within the terms the settlement always succeeds: it charges the effective price for the
      actual weight, at least the base fee and never more than the escrow, and refunds the rest. */
  lemma SettlementSucceeds(ticket: Ticket, escrow: FeeId, outcome: Outcome, actualWeight: u64)
    requires TermsOk(ticket.terms) && 1 <= actualWeight <= ticket.terms.maxWeight
    ensures var r := Settlement(ticket, escrow, outcome, actualWeight);
            && r.Success?
            && Charges(r.value, ticket.terms, actualWeight) && MadeFor(r.value, ticket, escrow, outcome, actualWeight)
            && r.value.baseComponent + r.value.priorityComponent == r.value.charged
            && r.value.baseComponent == actualWeight * ticket.terms.baseFee
            && r.value.charged <= actualWeight * ticket.terms.maxFee
  {
    var t := ticket.terms;
    Product(t.baseFee, EffectivePrice(t), actualWeight);
    Product(EffectivePrice(t), t.maxFee, actualWeight);
    Product(actualWeight, t.maxWeight, t.maxFee);
  }

  // ----- The book as a value -----

  datatype Book = Book(maxOpen: nat, open: map<FeeId, Ticket>, capabilities: set<FeeId>, sources: set<FeeId>,
                       settled: set<FeeId>)

  function Opened(book: Book, txid: nat, capability: Capability, terms: FeeTerms): Result<(Book, Ticket), FeeError> {
    if CapabilityId(capability) in book.capabilities then Failure(CapabilityAlreadyConsumed)
    else if SourceOf(capability) in book.sources then Failure(StaleFundingSource)
    else if |book.open| >= book.maxOpen then Failure(EscrowCapacityExceeded)
    else if |book.capabilities| >= MAX_ESCROW_HISTORY_ENTRIES || |book.sources| >= MAX_ESCROW_HISTORY_ENTRIES then
      Failure(EscrowHistoryCapacityExceeded)
    else if capability.available < terms.maxEscrow then Failure(InsufficientFunding)
    else
      var ticket := Ticket(txid, capability.payer, capability.kind, CapabilityId(capability), terms);
      if EscrowId(ticket) in book.open || EscrowId(ticket) in book.settled then Failure(EscrowAlreadyExists)
      else Success((book.(open := book.open[EscrowId(ticket) := ticket],
                          capabilities := book.capabilities + {CapabilityId(capability)},
                          sources := book.sources + {SourceOf(capability)}), ticket))
  }

  function Settled(book: Book, escrow: FeeId, outcome: Outcome, actualWeight: u64): Result<(Book, Receipt), FeeError> {
    if escrow in book.settled then Failure(EscrowAlreadySettled)
    else if escrow !in book.open then Failure(UnknownEscrow)
    else if actualWeight == 0 || actualWeight > book.open[escrow].terms.maxWeight then Failure(ActualWeightOutOfRange)
    else if |book.settled| >= MAX_ESCROW_HISTORY_ENTRIES then Failure(EscrowHistoryCapacityExceeded)
    else
      var receipt :- Settlement(book.open[escrow], escrow, outcome, actualWeight);
      Success((book.(open := book.open - {escrow}, settled := book.settled + {escrow}), receipt))
  }

  /** Every escrow ever opened used up one capability and one source, and is open or settled. */
  ghost predicate CountsOk(book: Book) {
    && book.open.Keys !! book.settled
    && |book.capabilities| == |book.sources| == |book.open| + |book.settled|
    && |book.capabilities| <= MAX_ESCROW_HISTORY_ENTRIES
    && |book.open| <= book.maxOpen
  }

  ghost predicate IdsOk(book: Book) {
    && (forall id | id in book.open :: id == EscrowId(book.open[id]) && TermsOk(book.open[id].terms)
                                       && book.open[id].capability in book.capabilities)
    && (forall id | id in book.settled :: id.EscrowId? && id.ticket.capability in book.capabilities)
  }

  /** What every reachable book satisfies. */
  ghost predicate BookOk(book: Book) {
    CountsOk(book) && IdsOk(book)
  }

  function EmptyBook(maxOpen: nat): Book {
    Book(maxOpen, map[], {}, {}, {})
  }

  lemma NewTicketIsNew(book: Book, ticket: Ticket)
    requires IdsOk(book) && ticket.capability !in book.capabilities
    ensures EscrowId(ticket) !in book.open && EscrowId(ticket) !in book.settled
  {
  }

  ghost function WithTicket(book: Book, ticket: Ticket, source: FeeId): Book {
    book.(open := book.open[EscrowId(ticket) := ticket], capabilities := book.capabilities + {ticket.capability},
          sources := book.sources + {source})
  }

  lemma OpenKeepsIds(book: Book, ticket: Ticket)
    requires IdsOk(book) && TermsOk(ticket.terms)
    ensures forall source :: IdsOk(WithTicket(book, ticket, source))
  {
    hide TermsOk;
  }

  lemma OpenKeepsCounts(book: Book, ticket: Ticket, source: FeeId)
    requires CountsOk(book) && EscrowId(ticket) !in book.open && EscrowId(ticket) !in book.settled
    requires ticket.capability !in book.capabilities && source !in book.sources
    requires |book.open| < book.maxOpen && |book.capabilities| < MAX_ESCROW_HISTORY_ENTRIES
    ensures CountsOk(WithTicket(book, ticket, source))
  {
    OneMoreKey(book.open, EscrowId(ticket), ticket);
  }

  lemma OpenKeepsOk(book: Book, txid: nat, capability: Capability, terms: FeeTerms)
    requires BookOk(book) && TermsOk(terms)
    ensures var r := Opened(book, txid, capability, terms);
            && r != Failure(EscrowAlreadyExists)
            && (r.Success? ==> BookOk(r.value.0) && r.value.1.terms == terms
                               && EscrowId(r.value.1) !in book.open
                                  && r.value.0.open == book.open[EscrowId(r.value.1) := r.value.1])
  {
    hide TermsOk, CountsOk, IdsOk;
    if CapabilityId(capability) !in book.capabilities {
      var ticket := Ticket(txid, capability.payer, capability.kind, CapabilityId(capability), terms);
      NewTicketIsNew(book, ticket);
      OpenKeepsIds(book, ticket);
      if SourceOf(capability) !in book.sources && |book.open| < book.maxOpen
          && |book.capabilities| < MAX_ESCROW_HISTORY_ENTRIES {
        OpenKeepsCounts(book, ticket, SourceOf(capability));
      }
    }
  }

  /** An escrow opens if and only if its capability and its source are unused, there is room for it, and
      the capability covers it. */
  lemma OpenIsExact(book: Book, txid: nat, capability: Capability, terms: FeeTerms)
    requires BookOk(book) && TermsOk(terms)
    ensures Opened(book, txid, capability, terms).Success? <==>
              && CapabilityId(capability) !in book.capabilities && SourceOf(capability) !in book.sources
              && |book.open| < book.maxOpen && |book.open| + |book.settled| < MAX_ESCROW_HISTORY_ENTRIES
              && terms.maxEscrow <= capability.available
    ensures Opened(book, txid, capability, terms).Success? ==>
              var ticket := Opened(book, txid, capability, terms).value.1;
              && ticket.txid == txid && ticket.payer == capability.payer && ticket.kind == capability.kind
              && ticket.capability == CapabilityId(capability) && ticket.terms == terms
  {
    hide TermsOk, IdsOk;
    OpenKeepsOk(book, txid, capability, terms);
  }

  lemma OpenFacts(book: Book, escrow: FeeId)
    requires BookOk(book) && escrow in book.open
    ensures escrow !in book.settled && |book.settled| < MAX_ESCROW_HISTORY_ENTRIES && TermsOk(book.open[escrow].terms)
  {
    hide TermsOk;
    assert book.open.Keys != {} && |book.open.Keys| == |book.open|;
  }

  lemma SettledCounts(book: Book, escrow: FeeId)
    requires escrow in book.open && escrow !in book.settled
    ensures (book.open - {escrow}).Keys == book.open.Keys - {escrow}
    ensures |book.open - {escrow}| == |book.open| - 1 && |book.settled + {escrow}| == |book.settled| + 1
  {
    assert |(book.open - {escrow}).Keys| == |book.open - {escrow}| && |book.open.Keys| == |book.open|;
  }

  lemma SettleKeepsOk(book: Book, escrow: FeeId)
    requires BookOk(book) && escrow in book.open
    ensures BookOk(book.(open := book.open - {escrow}, settled := book.settled + {escrow}))
  {
    hide TermsOk;
    assert escrow !in book.settled;
    SettledCounts(book, escrow);
  }

  /** Settling an open escrow with a weight in range always succeeds, and is refused for exactly
      one of three reasons otherwise. */
  lemma SettleIsExact(book: Book, escrow: FeeId, outcome: Outcome, actualWeight: u64)
    requires BookOk(book)
    ensures var r := Settled(book, escrow, outcome, actualWeight);
            && (r.Success? <==> escrow in book.open && 1 <= actualWeight <= book.open[escrow].terms.maxWeight)
            && (r.Failure? ==> r.error == if escrow in book.settled then EscrowAlreadySettled
                                          else if escrow !in book.open then UnknownEscrow
                                          else ActualWeightOutOfRange)
            && (r.Success? ==> BookOk(r.value.0) && r.value.0.open == book.open - {escrow}
                               && Charges(r.value.1, book.open[escrow].terms, actualWeight)
                               && MadeFor(r.value.1, book.open[escrow], escrow, outcome, actualWeight))
  {
    hide TermsOk, Settlement, CountsOk, IdsOk;
    if escrow in book.open {
      OpenFacts(book, escrow);
      SettleKeepsOk(book, escrow);
      if 1 <= actualWeight <= book.open[escrow].terms.maxWeight {
        SettlementSucceeds(book.open[escrow], escrow, outcome, actualWeight);
      }
    }
  }

  // ----- Conservation over whole runs -----

  /** The money held in open escrows. */
  ghost function Held(open: map<FeeId, Ticket>): nat {
    if open == map[] then 0
    else
      var id :| id in open;
      open[id].terms.maxEscrow + Held(open - {id})
  }

  lemma Shrinks(open: map<FeeId, Ticket>, id: FeeId)
    requires id in open
    ensures |open - {id}| < |open|
  {
    assert (open - {id}).Keys == open.Keys - {id};
    assert |(open - {id}).Keys| == |open - {id}| && |open.Keys| == |open|;
  }

  lemma {:induction false} HeldRemove(open: map<FeeId, Ticket>, id: FeeId)
    requires id in open
    ensures Held(open) == open[id].terms.maxEscrow + Held(open - {id})
    decreases |open|
  {
    var x :| x in open && Held(open) == open[x].terms.maxEscrow + Held(open - {x});
    if x != id {
      Shrinks(open, x);
      Shrinks(open, id);
      HeldRemove(open - {x}, id);
      HeldRemove(open - {id}, x);
      assert open - {x} - {id} == open - {id} - {x};
    }
  }

  lemma HeldInsert(open: map<FeeId, Ticket>, id: FeeId, ticket: Ticket)
    requires id !in open
    ensures Held(open[id := ticket]) == Held(open) + ticket.terms.maxEscrow
  {
    HeldRemove(open[id := ticket], id);
    assert open[id := ticket] - {id} == open;
  }

  datatype Call =
    | OpenCall(txid: nat, capability: Capability, terms: FeeTerms)
    | SettleCall(escrow: FeeId, outcome: Outcome, actualWeight: u64)

  datatype Account = Account(book: Book, escrowed: nat, charged: nat, refunded: nat)

  ghost predicate CallsOk(calls: seq<Call>) {
    forall i | 0 <= i < |calls| && calls[i].OpenCall? :: TermsOk(calls[i].terms)
  }

  function Next(a: Account, call: Call): Account {
    match call
    case OpenCall(txid, capability, terms) =>
      var r := Opened(a.book, txid, capability, terms);
      if r.Failure? then a else a.(book := r.value.0, escrowed := a.escrowed + terms.maxEscrow)
    case SettleCall(escrow, outcome, actualWeight) =>
      var r := Settled(a.book, escrow, outcome, actualWeight);
      if r.Failure? then a
      else a.(book := r.value.0, charged := a.charged + r.value.1.charged, refunded := a.refunded + r.value.1.refund)
  }

  function Run(maxOpen: nat, calls: seq<Call>): Account {
    if calls == [] then Account(EmptyBook(maxOpen), 0, 0, 0)
    else Next(Run(maxOpen, calls[..|calls| - 1]), calls[|calls| - 1])
  }

  ghost predicate Balanced(a: Account) {
    BookOk(a.book) && a.escrowed == Held(a.book.open) + a.charged + a.refunded
  }

  lemma NextBalanced(a: Account, call: Call)
    requires Balanced(a) && (call.OpenCall? ==> TermsOk(call.terms))
    ensures Balanced(Next(a, call))
  {
    hide BookOk, TermsOk, Held, Opened, Settled;
    match call
    case OpenCall(txid, capability, terms) =>
      OpenKeepsOk(a.book, txid, capability, terms);
      var r := Opened(a.book, txid, capability, terms);
      if r.Success? {
        HeldInsert(a.book.open, EscrowId(r.value.1), r.value.1);
      }
    case SettleCall(escrow, outcome, actualWeight) =>
      SettleIsExact(a.book, escrow, outcome, actualWeight);
      if Settled(a.book, escrow, outcome, actualWeight).Success? {
        HeldRemove(a.book.open, escrow);
      }
  }

  lemma StartBalanced(maxOpen: nat)
    ensures Balanced(Account(EmptyBook(maxOpen), 0, 0, 0))
  {
  }

  /** Over every run the counts agree, open and settled are disjoint, and the money ever escrowed
      is what is still held plus what was charged and refunded. */
  lemma {:induction false} RunBalanced(maxOpen: nat, calls: seq<Call>)
    requires CallsOk(calls)
    ensures Balanced(Run(maxOpen, calls))
  {
    hide BookOk, TermsOk, Next;
    if calls == [] {
      StartBalanced(maxOpen);
    } else {
      RunBalanced(maxOpen, calls[..|calls| - 1]);
      NextBalanced(Run(maxOpen, calls[..|calls| - 1]), calls[|calls| - 1]);
    }
  }

  // ----- The object -----

  class EscrowBook {
    const maxOpen: nat
    var open: map<FeeId, Ticket>
    var capabilities: set<FeeId>
    var sources: set<FeeId>
    var settled: set<FeeId>

    ghost function View(): Book
      reads this
    {
      Book(maxOpen, open, capabilities, sources, settled)
    }

    constructor (maxOpen: nat)
      ensures View() == EmptyBook(maxOpen)
    {
      this.maxOpen := maxOpen;
      open, capabilities, sources, settled := map[], {}, {}, {};
    }

    static method Create(maxOpen: nat) returns (r: Result<EscrowBook, FeeError>)
      ensures r.Failure? <==> maxOpen == 0
      ensures r.Failure? ==> r.error == ZeroEscrowCapacity
      ensures r.Success? ==> fresh(r.value) && r.value.View() == EmptyBook(maxOpen) && BookOk(r.value.View())
    {
      if maxOpen == 0 {
        return Failure(ZeroEscrowCapacity);
      }
      var book := new EscrowBook(maxOpen);
      return Success(book);
    }

    method OpenEscrow(txid: nat, capability: Capability, terms: FeeTerms) returns (r: Result<Ticket, FeeError>)
      requires BookOk(View()) && TermsOk(terms)
      modifies this
      ensures BookOk(View())
      ensures var spec := Opened(old(View()), txid, capability, terms);
              && (r.Failure? <==> spec.Failure?)
              && (r.Failure? ==> r.error == spec.error && View() == old(View()))
              && (r.Success? ==> View() == spec.value.0 && r.value == spec.value.1)
    {
      hide BookOk, TermsOk;
      OpenKeepsOk(View(), txid, capability, terms);
      if CapabilityId(capability) in capabilities {
        return Failure(CapabilityAlreadyConsumed);
      }
      if SourceOf(capability) in sources {
        return Failure(StaleFundingSource);
      }
      if |open| >= maxOpen {
        return Failure(EscrowCapacityExceeded);
      }
      if |capabilities| >= MAX_ESCROW_HISTORY_ENTRIES || |sources| >= MAX_ESCROW_HISTORY_ENTRIES {
        return Failure(EscrowHistoryCapacityExceeded);
      }
      if capability.available < terms.maxEscrow {
        return Failure(InsufficientFunding);
      }
      var ticket := Ticket(txid, capability.payer, capability.kind, CapabilityId(capability), terms);
      if EscrowId(ticket) in open || EscrowId(ticket) in settled {
        return Failure(EscrowAlreadyExists);
      }
      capabilities, sources := capabilities + {CapabilityId(capability)}, sources + {SourceOf(capability)};
      open := open[EscrowId(ticket) := ticket];
      return Success(ticket);
    }

    method Settle(escrow: FeeId, outcome: Outcome, actualWeight: u64) returns (r: Result<Receipt, FeeError>)
      requires BookOk(View())
      modifies this
      ensures BookOk(View())
      ensures var spec := Settled(old(View()), escrow, outcome, actualWeight);
              && (r.Failure? <==> spec.Failure?)
              && (r.Failure? ==> r.error == spec.error && View() == old(View()))
              && (r.Success? ==> View() == spec.value.0 && r.value == spec.value.1)
    {
      hide BookOk, TermsOk, Settlement;
      SettleIsExact(View(), escrow, outcome, actualWeight);
      if escrow in settled {
        return Failure(EscrowAlreadySettled);
      }
      if escrow !in open {
        return Failure(UnknownEscrow);
      }
      var ticket := open[escrow];
      if actualWeight == 0 || actualWeight > ticket.terms.maxWeight {
        return Failure(ActualWeightOutOfRange);
      }
      if |settled| >= MAX_ESCROW_HISTORY_ENTRIES {
        return Failure(EscrowHistoryCapacityExceeded);
      }
      var receipt := Settlement(ticket, escrow, outcome, actualWeight);
      open, settled := open - {escrow}, settled + {escrow};
      return Success(receipt.value);
    }
  }
}
