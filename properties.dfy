/**
 * What the ledger's operations guarantee, stated over the functions of
 * `IcoSpec`: the outcomes of initialization, the find-or-insert of minting,
 * the whitelist toggle, the order of the purchase checks, the zero-sum
 * settlement of a purchase, and the all-or-nothing write-back of an
 * instruction.
 */
module IcoProperties {
  import opened IcoTypes
  import opened Balances
  import opened Rosters
  import opened IcoSpec
  import LeBytes

  /** The balances add up to the recorded supply. */
  ghost predicate Conserved(s: IcoState) {
    Sum(s.balance) == s.totalSupply
  }

  // ---------------------------------------------------------------- initialize

  /**
   * Initialization by the program's own key writes the fixed configuration and
   * appends `(admin, 10000)`; any other key, or no account, is rejected with
   * the record unchanged.
   */
  lemma InitializeOutcomes(s: IcoState, programId: Pubkey, adminAccount: Option<Pubkey>)
    ensures adminAccount == Some(programId) ==>
      var t := InitializeStep(s, programId, adminAccount);
      && t.outcome == Ok
      && t.state.admin == programId
      && t.state.totalSupply == 10000
      && t.state.preSalePrice == 100 && t.state.salePrice == 200
      && t.state.preSaleLimit == 50 && t.state.saleLimit == 100
      && t.state.saleStartTime == 0 && t.state.saleEndTime == 100
      && t.state.balance == s.balance + [(programId, 10000)]
      && t.state.totalPriceEarned == s.totalPriceEarned
      && t.state.preSaleAccount == s.preSaleAccount
      && t.state.saleAccount == s.saleAccount
    ensures adminAccount.Some? && adminAccount.value != programId ==>
      InitializeStep(s, programId, adminAccount) == Step(Err(InvalidAccountData), s)
    ensures adminAccount.None? ==>
      InitializeStep(s, programId, adminAccount) == Step(Err(NotEnoughAccountKeys), s)
  {
  }

  /**
   * A successful initialization adds the whole supply to the sum of balances,
   * keeps the keys unique exactly when the admin held no entry before, and on
   * an empty balance list leaves a conserved record with the admin as sole
   * holder.
   */
  lemma InitializeBalances(s: IcoState, programId: Pubkey)
    ensures var t := InitializeStep(s, programId, Some(programId)).state;
      && Sum(t.balance) == Sum(s.balance) + INITIAL_SUPPLY
      && (UniqueKeys(t.balance) <==> UniqueKeys(s.balance) && IndexOf(s.balance, programId).None?)
      && (s.balance == [] ==> Conserved(t) && UniqueKeys(t.balance)
                              && BalanceOf(t.balance, programId) == INITIAL_SUPPLY)
  {
    SumAppend(s.balance, (programId, INITIAL_SUPPLY));
    UniqueAppend(s.balance, (programId, INITIAL_SUPPLY));
  }

  // ---------------------------------------------------------------------- mint

  /**
   * Minting always succeeds. An existing entry of the recipient grows by
   * `amount` and the list keeps its length; otherwise exactly
   * `(recipient, amount)` is appended. Every other holder's balance, the
   * supply, the rosters and the proceeds are unchanged; the sum of balances
   * grows by `amount`; unique keys stay unique.
   */
  lemma MintFacts(s: IcoState, recipient: Pubkey, amount: nat)
    ensures var t := MintStep(s, recipient, amount);
      && t.outcome == Ok
      && t.state.(balance := s.balance) == s
      && (IndexOf(s.balance, recipient).Some? ==>
            var i := IndexOf(s.balance, recipient).value;
            |t.state.balance| == |s.balance|
            && t.state.balance == s.balance[i := (recipient, s.balance[i].1 + amount)])
      && (IndexOf(s.balance, recipient).None? ==>
            t.state.balance == s.balance + [(recipient, amount)])
      && BalanceOf(t.state.balance, recipient) == BalanceOf(s.balance, recipient) + amount
      && (forall k :: k != recipient ==> BalanceOf(t.state.balance, k) == BalanceOf(s.balance, k))
      && Sum(t.state.balance) == Sum(s.balance) + amount
      && (UniqueKeys(s.balance) ==> UniqueKeys(t.state.balance))
  {
    CreditFacts(s.balance, recipient, amount);
  }

  /** Minting a positive amount breaks the match between supply and balances. */
  lemma MintBreaksConservation(s: IcoState, recipient: Pubkey, amount: nat)
    requires Conserved(s) && amount > 0
    ensures !Conserved(MintStep(s, recipient, amount).state)
  {
    CreditFacts(s.balance, recipient, amount);
  }

  // ----------------------------------------------------------------- whitelist

  /**
   * The toggle fails with `InvalidAccountData`, leaving the record unchanged,
   * exactly when `target` has no roster entry; otherwise it flips the flag of
   * the first entry of `target` and changes nothing else.
   */
  lemma WhitelistFacts(s: IcoState, target: Pubkey)
    ensures var t := WhitelistStep(s, target);
      && (t.outcome.Err? <==> forall j :: 0 <= j < |s.preSaleAccount| ==> s.preSaleAccount[j].address != target)
      && (t.outcome.Err? ==> t == Step(Err(InvalidAccountData), s))
      && (t.outcome.Ok? ==>
            var i := PreSaleIndexOf(s.preSaleAccount, target).value;
            && t.state.(preSaleAccount := s.preSaleAccount) == s
            && |t.state.preSaleAccount| == |s.preSaleAccount|
            && t.state.preSaleAccount[i].whitelistAccount == !s.preSaleAccount[i].whitelistAccount
            && t.state.preSaleAccount[i].(whitelistAccount := s.preSaleAccount[i].whitelistAccount)
                 == s.preSaleAccount[i]
            && (forall j :: 0 <= j < |s.preSaleAccount| && j != i ==>
                  t.state.preSaleAccount[j] == s.preSaleAccount[j]))
  {
    ToggleFacts(s.preSaleAccount, target);
  }

  /** Toggling the same address twice restores the record, and repeats the outcome. */
  lemma WhitelistInvolution(s: IcoState, target: Pubkey)
    ensures var once := WhitelistStep(s, target);
      WhitelistStep(once.state, target) == Step(once.outcome, s)
  {
    if Toggle(s.preSaleAccount, target).Some? {
      ToggleInvolution(s.preSaleAccount, target);
    }
  }

  // ---------------------------------------------------------------- settlement

  /**
   * The settlement succeeds exactly when both the buyer and the admin hold a
   * balance entry. On failure only the buyer's credit may have been applied,
   * and the proceeds are unchanged; on success the proceeds grow by `cost`.
   */
  lemma SettleOutcome(s: IcoState, buyer: Pubkey, amount: nat, cost: nat)
    requires AdminCovers(s.balance, buyer, s.admin, amount)
    ensures var t := Settle(s, buyer, amount, cost);
      && (t.outcome.Ok? <==> IndexOf(s.balance, buyer).Some? && IndexOf(s.balance, s.admin).Some?)
      && (t.outcome.Err? ==> t.outcome == Err(InvalidAccountData)
                             && t.state.(balance := s.balance) == s)
      && (t.outcome.Ok? ==>
            && t.state.(balance := s.balance, totalPriceEarned := s.totalPriceEarned) == s
            && t.state.totalPriceEarned == s.totalPriceEarned + cost)
  {
    if IndexOf(s.balance, buyer).Some? {
      var credited := AddAt(s.balance, IndexOf(s.balance, buyer).value, amount);
      assert SameKeys(s.balance, credited);
      IndexOfSameKeys(s.balance, credited, s.admin);
    }
  }

  /**
   * A successful settlement moves `amount` from the admin to the buyer: the
   * buyer gains it, the admin loses it, no one else changes, and the sum of
   * balances and the keys are unchanged.
   */
  lemma SettleMovesTokens(s: IcoState, buyer: Pubkey, amount: nat, cost: nat)
    requires AdminCovers(s.balance, buyer, s.admin, amount)
    requires Settle(s, buyer, amount, cost).outcome.Ok?
    ensures var after := Settle(s, buyer, amount, cost).state.balance;
      && Sum(after) == Sum(s.balance)
      && SameKeys(s.balance, after)
      && (buyer != s.admin ==>
            && BalanceOf(after, buyer) == BalanceOf(s.balance, buyer) + amount
            && BalanceOf(after, s.admin) + amount == BalanceOf(s.balance, s.admin))
      && (buyer == s.admin ==> BalanceOf(after, buyer) == BalanceOf(s.balance, buyer))
      && (forall k :: k != buyer && k != s.admin ==> BalanceOf(after, k) == BalanceOf(s.balance, k))
  {
    var i := IndexOf(s.balance, buyer).value;
    var credited := AddAt(s.balance, i, amount);
    assert SameKeys(s.balance, credited);
    IndexOfSameKeys(s.balance, credited, s.admin);
    var j := IndexOf(s.balance, s.admin).value;
    assert Settle(s, buyer, amount, cost).state.balance == SubAt(credited, j, amount);
    TransferBalances(s.balance, buyer, s.admin, amount);
    TransferFacts(s.balance, i, j, amount);
  }

  // ------------------------------------------------------------------ pre-sale

  /**
   * The pre-sale checks run in order and the first failure decides: a time
   * after the sale start gives `InvalidInstructionData`; then a buyer without a
   * whitelisted entry, then a payment other than exactly `amount * price`, give
   * `InvalidAccountData`. Each rejection leaves the record untouched and takes
   * no lamports.
   */
  lemma PreSaleRejections(s: IcoState, buyer: Pubkey, now: nat, amount: nat, lamports: nat)
    requires PreSaleGatesPass(s, buyer, now, amount, lamports) ==> AdminCovers(s.balance, buyer, s.admin, amount)
    ensures now > s.saleStartTime ==>
      PreSaleStep(s, buyer, now, amount, lamports) == Purchase(Step(Err(InvalidInstructionData), s), 0)
    ensures now <= s.saleStartTime && !IsWhitelisted(s.preSaleAccount, buyer) ==>
      PreSaleStep(s, buyer, now, amount, lamports) == Purchase(Step(Err(InvalidAccountData), s), 0)
    ensures now <= s.saleStartTime && IsWhitelisted(s.preSaleAccount, buyer)
            && amount * s.preSalePrice != lamports ==>
      PreSaleStep(s, buyer, now, amount, lamports) == Purchase(Step(Err(InvalidAccountData), s), 0)
  {
  }

  /**
   * A pre-sale purchase succeeds exactly when its checks pass and both the
   * buyer and the admin hold balance entries. Then the buyer gains `amount`
   * tokens and the admin loses them (no change when they are the same holder),
   * the sum of balances and the keys are unchanged, the proceeds grow by
   * exactly `amount * preSalePrice`, which is what is taken from the buyer's
   * lamports, every roster entry of the buyer is credited with `amount`, no
   * roster entry is added, and the public-sale roster and configuration are
   * unchanged.
   */
  lemma PreSaleSuccess(s: IcoState, buyer: Pubkey, now: nat, amount: nat, lamports: nat)
    requires PreSaleGatesPass(s, buyer, now, amount, lamports) ==> AdminCovers(s.balance, buyer, s.admin, amount)
    ensures var p := PreSaleStep(s, buyer, now, amount, lamports);
      p.step.outcome.Ok? <==>
        PreSaleGatesPass(s, buyer, now, amount, lamports)
        && IndexOf(s.balance, buyer).Some? && IndexOf(s.balance, s.admin).Some?
    ensures var p := PreSaleStep(s, buyer, now, amount, lamports);
      var t := p.step.state;
      p.step.outcome.Ok? ==>
        && p.debited == amount * s.preSalePrice == lamports
        && t.totalPriceEarned == s.totalPriceEarned + amount * s.preSalePrice
        && Sum(t.balance) == Sum(s.balance)
        && SameKeys(s.balance, t.balance)
        && (UniqueKeys(s.balance) ==> UniqueKeys(t.balance))
        && (buyer != s.admin ==>
              && BalanceOf(t.balance, buyer) == BalanceOf(s.balance, buyer) + amount
              && BalanceOf(t.balance, s.admin) + amount == BalanceOf(s.balance, s.admin))
        && (buyer == s.admin ==> BalanceOf(t.balance, buyer) == BalanceOf(s.balance, buyer))
        && (forall k :: k != buyer && k != s.admin ==> BalanceOf(t.balance, k) == BalanceOf(s.balance, k))
        && t.preSaleAccount == CreditPreSale(s.preSaleAccount, buyer, amount)
        && |t.preSaleAccount| == |s.preSaleAccount|
        && t.(balance := s.balance, totalPriceEarned := s.totalPriceEarned,
              preSaleAccount := s.preSaleAccount) == s
  {
    if PreSaleGatesPass(s, buyer, now, amount, lamports) {
      var entered := s.(preSaleAccount := CreditPreSale(s.preSaleAccount, buyer, amount));
      var cost := amount * s.preSalePrice;
      SettleOutcome(entered, buyer, amount, cost);
      if Settle(entered, buyer, amount, cost).outcome.Ok? {
        SettleMovesTokens(entered, buyer, amount, cost);
        SameKeysUnique(s.balance, Settle(entered, buyer, amount, cost).state.balance);
      }
    }
  }

  // ---------------------------------------------------------------- public sale

  /**
   * The public sale fails with `InvalidInstructionData`, untouched record and
   * no lamports taken, whenever the clock is before the start or the window's
   * start is not before its end, whatever the buyer and payment.
   */
  lemma SaleWindowRejects(s: IcoState, buyer: Pubkey, now: nat, amount: nat, lamports: nat)
    requires now < s.saleStartTime || s.saleStartTime >= s.saleEndTime
    ensures SaleStep(s, buyer, now, amount, lamports) == Purchase(Step(Err(InvalidInstructionData), s), 0)
  {
  }

  /**
   * The end of the window is never compared with the clock: once the sale has
   * started, any two readings of the clock give the same purchase.
   */
  lemma SaleIgnoresEndTime(s: IcoState, buyer: Pubkey, now1: nat, now2: nat, amount: nat, lamports: nat)
    requires now1 >= s.saleStartTime && now2 >= s.saleStartTime
    requires SaleGatesPass(s, now1, amount, lamports) ==> AdminCovers(s.balance, buyer, s.admin, amount)
    ensures SaleGatesPass(s, now2, amount, lamports) ==> AdminCovers(s.balance, buyer, s.admin, amount)
    ensures SaleStep(s, buyer, now1, amount, lamports) == SaleStep(s, buyer, now2, amount, lamports)
  {
  }

  /**
   * A public-sale purchase succeeds exactly when the window and payment checks
   * pass and both the buyer and the admin hold balance entries; then it moves
   * `amount` tokens from the admin to the buyer with the sum unchanged, adds
   * exactly `amount * salePrice` to the proceeds, credits every sale roster
   * entry of the buyer without adding one, and leaves the pre-sale roster and
   * the configuration unchanged.
   */
  lemma SaleSuccess(s: IcoState, buyer: Pubkey, now: nat, amount: nat, lamports: nat)
    requires SaleGatesPass(s, now, amount, lamports) ==> AdminCovers(s.balance, buyer, s.admin, amount)
    ensures var p := SaleStep(s, buyer, now, amount, lamports);
      p.step.outcome.Ok? <==>
        SaleGatesPass(s, now, amount, lamports)
        && IndexOf(s.balance, buyer).Some? && IndexOf(s.balance, s.admin).Some?
    ensures var p := SaleStep(s, buyer, now, amount, lamports);
      var t := p.step.state;
      p.step.outcome.Ok? ==>
        && p.debited == amount * s.salePrice == lamports
        && t.totalPriceEarned == s.totalPriceEarned + amount * s.salePrice
        && Sum(t.balance) == Sum(s.balance)
        && SameKeys(s.balance, t.balance)
        && (UniqueKeys(s.balance) ==> UniqueKeys(t.balance))
        && (buyer != s.admin ==>
              && BalanceOf(t.balance, buyer) == BalanceOf(s.balance, buyer) + amount
              && BalanceOf(t.balance, s.admin) + amount == BalanceOf(s.balance, s.admin))
        && (buyer == s.admin ==> BalanceOf(t.balance, buyer) == BalanceOf(s.balance, buyer))
        && (forall k :: k != buyer && k != s.admin ==> BalanceOf(t.balance, k) == BalanceOf(s.balance, k))
        && t.saleAccount == CreditSale(s.saleAccount, buyer, amount)
        && |t.saleAccount| == |s.saleAccount|
        && t.(balance := s.balance, totalPriceEarned := s.totalPriceEarned,
              saleAccount := s.saleAccount) == s
  {
    if SaleGatesPass(s, now, amount, lamports) {
      var entered := s.(saleAccount := CreditSale(s.saleAccount, buyer, amount));
      var cost := amount * s.salePrice;
      SettleOutcome(entered, buyer, amount, cost);
      if Settle(entered, buyer, amount, cost).outcome.Ok? {
        SettleMovesTokens(entered, buyer, amount, cost);
        SameKeysUnique(s.balance, Settle(entered, buyer, amount, cost).state.balance);
      }
    }
  }

  // --------------------------------------------------------------- instruction

  /** A ledger account owned by another program is refused before anything else. */
  lemma InstructionWrongOwner(stored: IcoState, programId: Pubkey, accounts: seq<AccountInfo>,
                              data: seq<bv8>, now: nat)
    requires |accounts| > 0 && accounts[0].owner != programId
    ensures CallDefined(stored, programId, accounts, data, now)
    ensures InstructionStep(stored, programId, accounts, data, now)
      == Invocation(Err(IncorrectProgramId), stored, 0)
  {
  }

  /** An opcode above 4 is refused with `InvalidInstructionData`. */
  lemma InstructionBadOpcode(stored: IcoState, programId: Pubkey, accounts: seq<AccountInfo>,
                             data: seq<bv8>, now: nat)
    requires |accounts| > 0 && accounts[0].owner == programId
    requires |data| >= 1 && data[0] > 4
    ensures CallDefined(stored, programId, accounts, data, now)
    ensures InstructionStep(stored, programId, accounts, data, now)
      == Invocation(Err(InvalidInstructionData), stored, 0)
  {
  }

  /** A failed instruction stores nothing and takes no lamports. */
  lemma InstructionFailureKeepsStore(stored: IcoState, programId: Pubkey, accounts: seq<AccountInfo>,
                                     data: seq<bv8>, now: nat)
    requires CallDefined(stored, programId, accounts, data, now)
    ensures var v := InstructionStep(stored, programId, accounts, data, now);
      v.outcome.Err? ==> v.stored == stored && v.debited == 0
  {
  }

  /**
   * A successful instruction stores what the operation its opcode selects left
   * in memory: initialization with the next account as admin, a mint of the
   * decoded amount to the next account, a purchase by the ledger's own account
   * (which then takes exactly that account's lamports), or a toggle of the next
   * account. Only a purchase takes lamports.
   */
  lemma InstructionSuccessStores(stored: IcoState, programId: Pubkey, accounts: seq<AccountInfo>,
                                 data: seq<bv8>, now: nat)
    requires CallDefined(stored, programId, accounts, data, now)
    requires |accounts| > 0 && accounts[0].owner == programId
    ensures var v := InstructionStep(stored, programId, accounts, data, now);
      v.outcome.Ok? && data[0] == 0 ==>
        v.stored == InitializeStep(stored, programId,
                                   if |accounts| >= 2 then Some(accounts[1].key) else None).state
        && v.debited == 0
    ensures var v := InstructionStep(stored, programId, accounts, data, now);
      v.outcome.Ok? && data[0] == 1 ==>
        |accounts| >= 2
        && v.stored == MintStep(stored, accounts[1].key, LeBytes.DecodeU64(data[1..9])).state
        && v.debited == 0
    ensures var v := InstructionStep(stored, programId, accounts, data, now);
      v.outcome.Ok? && data[0] == 2 ==>
        var buyer := accounts[0];
        var p := PreSaleStep(stored, buyer.key, now, LeBytes.DecodeU64(buyer.data[..8]), buyer.lamports);
        v.stored == p.step.state && v.debited == buyer.lamports
    ensures var v := InstructionStep(stored, programId, accounts, data, now);
      v.outcome.Ok? && data[0] == 3 ==>
        var buyer := accounts[0];
        var p := SaleStep(stored, buyer.key, now, LeBytes.DecodeU64(buyer.data[..8]), buyer.lamports);
        v.stored == p.step.state && v.debited == buyer.lamports
    ensures var v := InstructionStep(stored, programId, accounts, data, now);
      v.outcome.Ok? && data[0] == 4 ==>
        |accounts| >= 2
        && v.stored == WhitelistStep(stored, accounts[1].key).state
        && v.debited == 0
    ensures InstructionStep(stored, programId, accounts, data, now).outcome.Ok? ==> data[0] <= 4
  {
  }

  /**
   * Initialization's own failure is ignored: with the right owner, opcode 0
   * always succeeds, and a missing or foreign admin account stores the record
   * unchanged.
   */
  lemma InstructionInitializeIgnoresResult(stored: IcoState, programId: Pubkey,
                                           accounts: seq<AccountInfo>, data: seq<bv8>, now: nat)
    requires |accounts| > 0 && accounts[0].owner == programId
    requires |data| >= 1 && data[0] == 0
    ensures CallDefined(stored, programId, accounts, data, now)
    ensures InstructionStep(stored, programId, accounts, data, now).outcome == Ok
    ensures |accounts| < 2 || accounts[1].key != programId ==>
      InstructionStep(stored, programId, accounts, data, now) == Invocation(Ok, stored, 0)
  {
  }

  /**
   * A pre-sale whose checks pass for a buyer with a roster entry but without a
   * balance entry fails after it has already credited the roster in memory;
   * the instruction still stores the record unchanged.
   */
  lemma InstructionDiscardsPartialPreSale(stored: IcoState, programId: Pubkey,
                                          accounts: seq<AccountInfo>, data: seq<bv8>, now: nat)
    requires |accounts| > 0 && accounts[0].owner == programId
    requires |data| >= 1 && data[0] == 2 && |accounts[0].data| >= 8
    requires var amount := LeBytes.DecodeU64(accounts[0].data[..8]);
      && amount > 0
      && PreSaleGatesPass(stored, accounts[0].key, now, amount, accounts[0].lamports)
    requires IndexOf(stored.balance, accounts[0].key).None?
    ensures CallDefined(stored, programId, accounts, data, now)
    ensures var amount := LeBytes.DecodeU64(accounts[0].data[..8]);
      var p := PreSaleStep(stored, accounts[0].key, now, amount, accounts[0].lamports);
      p.step.outcome == Err(InvalidAccountData) && p.step.state.preSaleAccount != stored.preSaleAccount
    ensures InstructionStep(stored, programId, accounts, data, now)
      == Invocation(Err(InvalidAccountData), stored, 0)
  {
    var buyer := accounts[0].key;
    var amount := LeBytes.DecodeU64(accounts[0].data[..8]);
    var j :| 0 <= j < |stored.preSaleAccount| && stored.preSaleAccount[j].address == buyer
             && stored.preSaleAccount[j].whitelistAccount;
    var credited := CreditPreSale(stored.preSaleAccount, buyer, amount);
    assert credited[j].tokenAmount == stored.preSaleAccount[j].tokenAmount + amount;
  }

  /**
   * An instruction keeps the balance keys unique, except that initializing
   * appends the admin's entry even when the admin already holds one: unique
   * keys stay unique exactly when that does not happen.
   */
  lemma InstructionKeepsKeysUnique(stored: IcoState, programId: Pubkey, accounts: seq<AccountInfo>,
                                   data: seq<bv8>, now: nat)
    requires CallDefined(stored, programId, accounts, data, now)
    requires UniqueKeys(stored.balance)
    ensures var reinitializes :=
      |accounts| >= 2 && accounts[0].owner == programId && data[0] == 0
      && accounts[1].key == programId && IndexOf(stored.balance, programId).Some?;
      UniqueKeys(InstructionStep(stored, programId, accounts, data, now).stored.balance) <==> !reinitializes
  {
    if |accounts| > 0 && accounts[0].owner == programId {
      var buyer := accounts[0];
      if data[0] == 0 && |accounts| >= 2 && accounts[1].key == programId {
        InitializeBalances(stored, programId);
      } else if data[0] == 1 && |accounts| >= 2 {
        MintFacts(stored, accounts[1].key, LeBytes.DecodeU64(data[1..9]));
      } else if data[0] == 2 {
        PreSaleSuccess(stored, buyer.key, now, LeBytes.DecodeU64(buyer.data[..8]), buyer.lamports);
      } else if data[0] == 3 {
        SaleSuccess(stored, buyer.key, now, LeBytes.DecodeU64(buyer.data[..8]), buyer.lamports);
      } else if data[0] == 4 && |accounts| >= 2 {
        WhitelistFacts(stored, accounts[1].key);
      }
    }
  }

  /**
   * Purchases and the whitelist toggle never change the sum of balances, so
   * they keep a conserved record conserved; a successful mint adds its amount.
   */
  lemma InstructionSupply(stored: IcoState, programId: Pubkey, accounts: seq<AccountInfo>,
                          data: seq<bv8>, now: nat)
    requires CallDefined(stored, programId, accounts, data, now)
    ensures var v := InstructionStep(stored, programId, accounts, data, now);
      |data| >= 1 && 2 <= data[0] <= 4 ==>
        Sum(v.stored.balance) == Sum(stored.balance)
        && v.stored.totalSupply == stored.totalSupply
        && (Conserved(stored) ==> Conserved(v.stored))
    ensures var v := InstructionStep(stored, programId, accounts, data, now);
      |data| >= 9 && data[0] == 1 && v.outcome.Ok? ==>
        Sum(v.stored.balance) == Sum(stored.balance) + LeBytes.DecodeU64(data[1..9])
  {
    if |accounts| > 0 && accounts[0].owner == programId {
      var buyer := accounts[0];
      if data[0] == 1 && |accounts| >= 2 {
        MintFacts(stored, accounts[1].key, LeBytes.DecodeU64(data[1..9]));
      } else if data[0] == 2 {
        PreSaleSuccess(stored, buyer.key, now, LeBytes.DecodeU64(buyer.data[..8]), buyer.lamports);
      } else if data[0] == 3 {
        SaleSuccess(stored, buyer.key, now, LeBytes.DecodeU64(buyer.data[..8]), buyer.lamports);
      }
    }
  }
}
