/**
 * The ledger's operations as functions of the record. Each gives the result
 * of the operation together with the record as the operation leaves it in
 * memory; on some error paths that record already holds the mutations made
 * before the failing check. `InstructionStep` is the entry point: it stores
 * the new record only when the operation succeeded.
 */
module IcoSpec {
  import opened IcoTypes
  import opened Balances
  import opened Rosters
  import LeBytes

  /**
   * `intialize_ico`. `adminAccount` is the next account of the instruction,
   * `None` when there is none. Only the program's own key may initialize.
   * The admin's supply is appended to the balance list, whatever it held.
   */
  function InitializeStep(s: IcoState, programId: Pubkey, adminAccount: Option<Pubkey>): (r: Step)
    ensures r.outcome.Ok? <==> adminAccount == Some(programId)
    ensures r.outcome.Err? ==> r.state == s
  {
    match adminAccount
    case None => Step(Err(NotEnoughAccountKeys), s)
    case Some(admin) =>
      if admin != programId then Step(Err(InvalidAccountData), s)
      else Step(Ok, s.(
        admin := admin,
        totalSupply := INITIAL_SUPPLY,
        preSalePrice := PRE_SALE_PRICE,
        preSaleLimit := PRE_SALE_LIMIT,
        salePrice := SALE_PRICE,
        saleLimit := SALE_LIMIT,
        saleStartTime := SALE_START_TIME,
        saleEndTime := SALE_END_TIME,
        balance := s.balance + [(admin, INITIAL_SUPPLY)]))
  }

  /** `mint_tokens`: find-or-insert credit of `amount` to `recipient`; never fails. */
  function MintStep(s: IcoState, recipient: Pubkey, amount: nat): (r: Step)
    ensures r.outcome == Ok
    ensures r.state.(balance := s.balance) == s
    ensures IndexOf(r.state.balance, recipient).Some?
  {
    Step(Ok, s.(balance := Credit(s.balance, recipient, amount)))
  }

  /** `whitelist_account`: flip the flag of the first roster entry of `target`. */
  function WhitelistStep(s: IcoState, target: Pubkey): (r: Step)
    ensures r.outcome.Err? <==> PreSaleIndexOf(s.preSaleAccount, target).None?
    ensures r.outcome.Err? ==> r.state == s
    ensures r.state.(preSaleAccount := s.preSaleAccount) == s
  {
    match Toggle(s.preSaleAccount, target)
    case None => Step(Err(InvalidAccountData), s)
    case Some(roster) => Step(Ok, s.(preSaleAccount := roster))
  }

  /**
   * The admin entry that a settlement debits holds at least `amount` once the
   * buyer has been credited. The source subtracts in `u64`; this is what keeps
   * that subtraction from going below zero.
   */
  predicate AdminCovers(bal: seq<Entry>, buyer: Pubkey, admin: Pubkey, amount: nat) {
    match IndexOf(bal, buyer)
    case None => true
    case Some(i) =>
      var credited := AddAt(bal, i, amount);
      match IndexOf(credited, admin)
      case None => true
      case Some(j) => credited[j].1 >= amount
  }

  /**
   * The tail shared by both purchases: credit the buyer's balance entry, then
   * debit the admin's, then add the cost to the proceeds. A missing buyer entry
   * fails before any change; a missing admin entry fails after the buyer's
   * credit.
   */
  function Settle(s: IcoState, buyer: Pubkey, amount: nat, cost: nat): (r: Step)
    requires AdminCovers(s.balance, buyer, s.admin, amount)
    ensures |r.state.balance| == |s.balance|
    ensures r.state.totalPriceEarned == if r.outcome.Ok? then s.totalPriceEarned + cost else s.totalPriceEarned
  {
    match IndexOf(s.balance, buyer)
    case None => Step(Err(InvalidAccountData), s)
    case Some(i) =>
      var credited := AddAt(s.balance, i, amount);
      match IndexOf(credited, s.admin)
      case None => Step(Err(InvalidAccountData), s.(balance := credited))
      case Some(j) =>
        Step(Ok, s.(balance := SubAt(credited, j, amount),
                    totalPriceEarned := s.totalPriceEarned + cost))
  }

  /** The pre-sale checks all pass, so the purchase reaches its settlement. */
  predicate PreSaleGatesPass(s: IcoState, buyer: Pubkey, now: nat, amount: nat, lamports: nat) {
    now <= s.saleStartTime
    && IsWhitelisted(s.preSaleAccount, buyer)
    && amount * s.preSalePrice == lamports
  }

  /** The public-sale checks all pass, so the purchase reaches its settlement. */
  predicate SaleGatesPass(s: IcoState, now: nat, amount: nat, lamports: nat) {
    now >= s.saleStartTime
    && s.saleStartTime < s.saleEndTime
    && amount * s.salePrice == lamports
  }

  /**
   * `pre_sale`, with the buyer's key, the clock, the decoded amount and the
   * buyer's lamports as inputs. Rejects, in this order: a time after the sale
   * start, a buyer without a whitelisted roster entry, a payment other than
   * `amount * preSalePrice`. Then every roster entry of the buyer is credited,
   * the payment is debited, and the settlement runs.
   */
  function PreSaleStep(s: IcoState, buyer: Pubkey, now: nat, amount: nat, lamports: nat): (r: Purchase)
    requires PreSaleGatesPass(s, buyer, now, amount, lamports) ==> AdminCovers(s.balance, buyer, s.admin, amount)
    ensures !PreSaleGatesPass(s, buyer, now, amount, lamports) ==>
      r.step.outcome.Err? && r.step.state == s && r.debited == 0
    ensures PreSaleGatesPass(s, buyer, now, amount, lamports) ==> r.debited == lamports
  {
    if now > s.saleStartTime then Purchase(Step(Err(InvalidInstructionData), s), 0)
    else if !IsWhitelisted(s.preSaleAccount, buyer) then Purchase(Step(Err(InvalidAccountData), s), 0)
    else
      var cost := amount * s.preSalePrice;
      if cost != lamports then Purchase(Step(Err(InvalidAccountData), s), 0)
      else
        var entered := s.(preSaleAccount := CreditPreSale(s.preSaleAccount, buyer, amount));
        Purchase(Settle(entered, buyer, amount, cost), cost)
  }

  /**
   * `sale`: rejects a time before the sale start or a window whose start is not
   * before its end (the end itself is never compared with the clock), then a
   * payment other than `amount * salePrice`. Then every sale roster entry of the
   * buyer is credited, the payment is debited, and the settlement runs.
   */
  function SaleStep(s: IcoState, buyer: Pubkey, now: nat, amount: nat, lamports: nat): (r: Purchase)
    requires SaleGatesPass(s, now, amount, lamports) ==> AdminCovers(s.balance, buyer, s.admin, amount)
    ensures !SaleGatesPass(s, now, amount, lamports) ==>
      r.step.outcome.Err? && r.step.state == s && r.debited == 0
    ensures SaleGatesPass(s, now, amount, lamports) ==> r.debited == lamports
  {
    if now < s.saleStartTime || s.saleStartTime >= s.saleEndTime then
      Purchase(Step(Err(InvalidInstructionData), s), 0)
    else
      var cost := amount * s.salePrice;
      if cost != lamports then Purchase(Step(Err(InvalidAccountData), s), 0)
      else
        var entered := s.(saleAccount := CreditSale(s.saleAccount, buyer, amount));
        Purchase(Settle(entered, buyer, amount, cost), cost)
  }

  /**
   * The inputs on which `process_instruction` neither panics nor underflows:
   * an opcode byte is present, a mint carries its 8 amount bytes, and a purchase
   * finds 8 amount bytes in the buyer's data and an admin balance that covers
   * the amount when it gets that far.
   */
  predicate CallDefined(stored: IcoState, programId: Pubkey, accounts: seq<AccountInfo>,
                        data: seq<bv8>, now: nat)
  {
    |accounts| > 0 && accounts[0].owner == programId ==>
      && |data| >= 1
      && (data[0] == 1 && |accounts| >= 2 ==> |data| >= 9)
      && (data[0] == 2 || data[0] == 3 ==> |accounts[0].data| >= 8)
      && (data[0] == 2 && |accounts[0].data| >= 8 ==>
            var amount := LeBytes.DecodeU64(accounts[0].data[..8]);
            PreSaleGatesPass(stored, accounts[0].key, now, amount, accounts[0].lamports) ==>
              AdminCovers(stored.balance, accounts[0].key, stored.admin, amount))
      && (data[0] == 3 && |accounts[0].data| >= 8 ==>
            var amount := LeBytes.DecodeU64(accounts[0].data[..8]);
            SaleGatesPass(stored, now, amount, accounts[0].lamports) ==>
              AdminCovers(stored.balance, accounts[0].key, stored.admin, amount))
  }

  /**
   * The record is written back only when the operation succeeded. A failed
   * instruction's changes are discarded by the runtime, including a lamport
   * debit the operation made before it failed, so nothing is reported taken.
   */
  function Commit(stored: IcoState, step: Step, debited: nat): (r: Invocation)
    ensures r.outcome == step.outcome
    ensures r.stored == if step.outcome.Ok? then step.state else stored
    ensures r.outcome.Err? ==> r.debited == 0
  {
    if step.outcome.Ok? then Invocation(Ok, step.state, debited)
    else Invocation(step.outcome, stored, 0)
  }

  /**
   * `process_instruction`. `accounts[0]` is the ledger's own account, whose
   * decoded data is `stored`. Its owner must be the program. The first byte of
   * `data` selects the operation. Both purchases take their buyer from a fresh
   * iterator over the accounts, so the buyer is `accounts[0]` itself: its key,
   * the first 8 bytes of its data as the amount, and its lamports as the payment.
   * The result of initialization is ignored.
   */
  function InstructionStep(stored: IcoState, programId: Pubkey, accounts: seq<AccountInfo>,
                           data: seq<bv8>, now: nat): (r: Invocation)
    requires CallDefined(stored, programId, accounts, data, now)
    ensures |accounts| == 0 || accounts[0].owner != programId ==>
      r.outcome.Err? && r.stored == stored && r.debited == 0
    ensures |accounts| > 0 && accounts[0].owner == programId && data[0] == 0 ==> r.outcome == Ok
  {
    if |accounts| == 0 then Invocation(Err(NotEnoughAccountKeys), stored, 0)
    else if accounts[0].owner != programId then Invocation(Err(IncorrectProgramId), stored, 0)
    else if data[0] == 0 then
      var next := if |accounts| >= 2 then Some(accounts[1].key) else None;
      Invocation(Ok, InitializeStep(stored, programId, next).state, 0)
    else if data[0] == 1 then
      if |accounts| < 2 then Invocation(Err(NotEnoughAccountKeys), stored, 0)
      else Commit(stored, MintStep(stored, accounts[1].key, LeBytes.DecodeU64(data[1..9])), 0)
    else if data[0] == 2 then
      var buyer := accounts[0];
      var p := PreSaleStep(stored, buyer.key, now, LeBytes.DecodeU64(buyer.data[..8]), buyer.lamports);
      Commit(stored, p.step, p.debited)
    else if data[0] == 3 then
      var buyer := accounts[0];
      var p := SaleStep(stored, buyer.key, now, LeBytes.DecodeU64(buyer.data[..8]), buyer.lamports);
      Commit(stored, p.step, p.debited)
    else if data[0] == 4 then
      if |accounts| < 2 then Invocation(Err(NotEnoughAccountKeys), stored, 0)
      else Commit(stored, WhitelistStep(stored, accounts[1].key), 0)
    else Invocation(Err(InvalidInstructionData), stored, 0)
  }
}
