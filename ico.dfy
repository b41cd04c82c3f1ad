/**
 * The ledger record as the program holds it while it runs one instruction:
 * a mutable object whose operations change its fields in place, each proved to
 * leave the object, and return, what the matching function of `IcoSpec` says.
 */
module Ico {
  import opened IcoTypes
  import opened Balances
  import opened Rosters
  import opened IcoSpec
  import LeBytes

  class IcoAccount {
    var totalSupply: nat
    var admin: Pubkey
    var balance: seq<Entry>
    var preSalePrice: nat
    var preSaleLimit: nat
    var salePrice: nat
    var saleLimit: nat
    var saleStartTime: nat
    var saleEndTime: nat
    var totalPriceEarned: nat
    var preSaleAccount: seq<PreSaleAccount>
    var saleAccount: seq<SaleAccount>

    /** The record the fields hold. */
    function State(): IcoState
      reads this
    {
      IcoState(totalSupply, admin, balance, preSalePrice, preSaleLimit, salePrice,
               saleLimit, saleStartTime, saleEndTime, totalPriceEarned,
               preSaleAccount, saleAccount)
    }

    /** Loads a stored record (decoding of the stored bytes is not modelled). */
    constructor Load(s: IcoState)
      ensures State() == s
    {
      totalSupply, admin, balance := s.totalSupply, s.admin, s.balance;
      preSalePrice, preSaleLimit := s.preSalePrice, s.preSaleLimit;
      salePrice, saleLimit := s.salePrice, s.saleLimit;
      saleStartTime, saleEndTime := s.saleStartTime, s.saleEndTime;
      totalPriceEarned := s.totalPriceEarned;
      preSaleAccount, saleAccount := s.preSaleAccount, s.saleAccount;
    }

    /** `intialize_ico`; `adminAccount` is the next account, if any. */
    method InitializeIco(programId: Pubkey, adminAccount: Option<Pubkey>) returns (r: Outcome)
      modifies this
      ensures Step(r, State()) == InitializeStep(old(State()), programId, adminAccount)
    {
      if adminAccount.None? {
        return Err(NotEnoughAccountKeys);
      }
      var adminKey := adminAccount.value;
      if adminKey != programId {
        return Err(InvalidAccountData);
      }
      admin := adminKey;
      totalSupply := INITIAL_SUPPLY;
      preSalePrice := PRE_SALE_PRICE;
      preSaleLimit := PRE_SALE_LIMIT;
      salePrice := SALE_PRICE;
      saleLimit := SALE_LIMIT;
      saleStartTime := SALE_START_TIME;
      saleEndTime := SALE_END_TIME;
      balance := balance + [(adminKey, totalSupply)];
      return Ok;
    }

    /** `mint_tokens`: add to the recipient's entry, or append one. */
    method MintTokens(recipient: Pubkey, amount: nat) returns (r: Outcome)
      modifies this
      ensures Step(r, State()) == MintStep(old(State()), recipient, amount)
    {
      var found := Find(balance, recipient);
      if found.Some? {
        var i := found.value;
        balance := balance[i := (balance[i].0, balance[i].1 + amount)];
        return Ok;
      }
      balance := balance + [(recipient, amount)];
      return Ok;
    }

    /** `whitelist_account`: flip the flag of the first roster entry of `target`. */
    method WhitelistAccount(target: Pubkey) returns (r: Outcome)
      modifies this
      ensures Step(r, State()) == WhitelistStep(old(State()), target)
    {
      var i := 0;
      while i < |preSaleAccount|
        invariant 0 <= i <= |preSaleAccount|
        invariant State() == old(State())
        invariant forall j :: 0 <= j < i ==> preSaleAccount[j].address != target
      {
        if preSaleAccount[i].address == target {
          preSaleAccount := preSaleAccount[i := preSaleAccount[i].Whitelist()];
          return Ok;
        }
        i := i + 1;
      }
      return Err(InvalidAccountData);
    }

    /**
     * `pre_sale`. The buyer's key, its raw data (whose first 8 bytes are the
     * amount) and its lamports (the payment) are inputs, as is the clock.
     * `debited` is what is taken from the buyer's lamports.
     */
    method PreSale(buyer: Pubkey, now: nat, buyerData: seq<bv8>, lamports: nat)
      returns (r: Outcome, debited: nat)
      requires |buyerData| >= 8
      requires PreSaleGatesPass(State(), buyer, now, LeBytes.DecodeU64(buyerData[..8]), lamports) ==>
        AdminCovers(balance, buyer, admin, LeBytes.DecodeU64(buyerData[..8]))
      modifies this
      ensures Purchase(Step(r, State()), debited)
        == PreSaleStep(old(State()), buyer, now, LeBytes.DecodeU64(buyerData[..8]), lamports)
    {
      if now > saleStartTime {
        return Err(InvalidInstructionData), 0;
      }
      var whitelisted := FindWhitelisted(preSaleAccount, buyer);
      if !whitelisted {
        return Err(InvalidAccountData), 0;
      }
      var amount := LeBytes.DecodeU64(buyerData[..8]);
      var totalCost := amount * preSalePrice;
      if totalCost != lamports {
        return Err(InvalidAccountData), 0;
      }
      var i := 0;
      while i < |preSaleAccount|
        invariant 0 <= i <= |preSaleAccount| == |old(preSaleAccount)|
        invariant forall j :: 0 <= j < i ==> preSaleAccount[j] == old(preSaleAccount)[j].Credited(buyer, amount)
        invariant forall j :: i <= j < |preSaleAccount| ==> preSaleAccount[j] == old(preSaleAccount)[j]
        invariant State() == old(State()).(preSaleAccount := preSaleAccount)
      {
        if preSaleAccount[i].address == buyer {
          var e := preSaleAccount[i];
          preSaleAccount := preSaleAccount[i := e.(tokenAmount := e.tokenAmount + amount)];
        }
        i := i + 1;
      }
      assert preSaleAccount == CreditPreSale(old(preSaleAccount), buyer, amount);
      debited := totalCost;
      r := SettlePurchase(buyer, amount, totalCost);
    }

    /**
     * `sale`: as `PreSale`, gated by the sale window instead of the whitelist,
     * priced at `salePrice`, and crediting the public-sale roster.
     */
    method Sale(buyer: Pubkey, now: nat, buyerData: seq<bv8>, lamports: nat)
      returns (r: Outcome, debited: nat)
      requires |buyerData| >= 8
      requires SaleGatesPass(State(), now, LeBytes.DecodeU64(buyerData[..8]), lamports) ==>
        AdminCovers(balance, buyer, admin, LeBytes.DecodeU64(buyerData[..8]))
      modifies this
      ensures Purchase(Step(r, State()), debited)
        == SaleStep(old(State()), buyer, now, LeBytes.DecodeU64(buyerData[..8]), lamports)
    {
      if now < saleStartTime || saleStartTime >= saleEndTime {
        return Err(InvalidInstructionData), 0;
      }
      var amount := LeBytes.DecodeU64(buyerData[..8]);
      var totalCost := amount * salePrice;
      if totalCost != lamports {
        return Err(InvalidAccountData), 0;
      }
      var i := 0;
      while i < |saleAccount|
        invariant 0 <= i <= |saleAccount| == |old(saleAccount)|
        invariant forall j :: 0 <= j < i ==> saleAccount[j] == old(saleAccount)[j].Credited(buyer, amount)
        invariant forall j :: i <= j < |saleAccount| ==> saleAccount[j] == old(saleAccount)[j]
        invariant State() == old(State()).(saleAccount := saleAccount)
      {
        if saleAccount[i].address == buyer {
          var e := saleAccount[i];
          saleAccount := saleAccount[i := e.(tokenAmount := e.tokenAmount + amount)];
        }
        i := i + 1;
      }
      assert saleAccount == CreditSale(old(saleAccount), buyer, amount);
      debited := totalCost;
      r := SettlePurchase(buyer, amount, totalCost);
    }

    /** Credit the buyer's entry, debit the admin's, add the cost to the proceeds. */
    method SettlePurchase(buyer: Pubkey, amount: nat, cost: nat) returns (r: Outcome)
      requires AdminCovers(balance, buyer, admin, amount)
      modifies this
      ensures Step(r, State()) == Settle(old(State()), buyer, amount, cost)
    {
      var buyerIndex := Find(balance, buyer);
      if buyerIndex.None? {
        return Err(InvalidAccountData);
      }
      var i := buyerIndex.value;
      balance := balance[i := (balance[i].0, balance[i].1 + amount)];
      var adminIndex := Find(balance, admin);
      if adminIndex.None? {
        return Err(InvalidAccountData);
      }
      var j := adminIndex.value;
      balance := balance[j := (balance[j].0, balance[j].1 - amount)];
      totalPriceEarned := totalPriceEarned + cost;
      return Ok;
    }
  }
}
