/**
 * The two participant rosters of the ledger: the pre-sale roster whose
 * entries carry the whitelist flag, and the public-sale roster. Lookup,
 * the whitelist test of `pre_sale`, the flag toggle of `whitelist_account`
 * and the per-entry credit of a purchase.
 */
module Rosters {
  import opened IcoTypes

  /** The position of the first pre-sale entry for `key`, if there is one. */
  function PreSaleIndexOf(roster: seq<PreSaleAccount>, key: Pubkey): (r: Option<nat>)
    ensures r.Some? ==> r.value < |roster| && roster[r.value].address == key
    ensures r.Some? ==> forall j :: 0 <= j < r.value ==> roster[j].address != key
    ensures r.None? <==> forall j :: 0 <= j < |roster| ==> roster[j].address != key
  {
    if |roster| == 0 then None
    else if roster[0].address == key then Some(0)
    else match PreSaleIndexOf(roster[1..], key)
      case None => None
      case Some(i) => Some(i + 1)
  }

  /** Some entry for `key` has its whitelist flag set (not necessarily the first). */
  predicate IsWhitelisted(roster: seq<PreSaleAccount>, key: Pubkey) {
    exists j :: 0 <= j < |roster| && roster[j].address == key && roster[j].whitelistAccount
  }

  /** The flag-setting loop of `pre_sale` that decides whether the buyer may buy. */
  method FindWhitelisted(roster: seq<PreSaleAccount>, key: Pubkey) returns (found: bool)
    ensures found <==> IsWhitelisted(roster, key)
  {
    found := false;
    var i := 0;
    while i < |roster|
      invariant 0 <= i <= |roster|
      invariant !found
      invariant forall j :: 0 <= j < i ==> !(roster[j].address == key && roster[j].whitelistAccount)
    {
      if roster[i].address == key && roster[i].whitelistAccount {
        found := true;
        break;
      }
      i := i + 1;
    }
  }

  /**
   * The roster after `whitelist_account`: the first entry for `key` has its flag
   * flipped; `None` when no entry is for `key`.
   */
  function Toggle(roster: seq<PreSaleAccount>, key: Pubkey): (r: Option<seq<PreSaleAccount>>)
    ensures r.None? <==> PreSaleIndexOf(roster, key).None?
    ensures r.Some? ==> |r.value| == |roster|
  {
    match PreSaleIndexOf(roster, key)
    case None => None
    case Some(i) => Some(roster[i := roster[i].Whitelist()])
  }

  /** Every pre-sale entry of `buyer` credited with `amount` tokens. */
  function CreditPreSale(roster: seq<PreSaleAccount>, buyer: Pubkey, amount: nat): (r: seq<PreSaleAccount>)
    ensures |r| == |roster|
    ensures forall j :: 0 <= j < |r| ==> r[j].address == roster[j].address
  {
    seq(|roster|, j requires 0 <= j < |roster| => roster[j].Credited(buyer, amount))
  }

  /** Every public-sale entry of `buyer` credited with `amount` tokens. */
  function CreditSale(roster: seq<SaleAccount>, buyer: Pubkey, amount: nat): (r: seq<SaleAccount>)
    ensures |r| == |roster|
    ensures forall j :: 0 <= j < |r| ==> r[j].address == roster[j].address
  {
    seq(|roster|, j requires 0 <= j < |roster| => roster[j].Credited(buyer, amount))
  }

  /**
   * The toggle fails exactly when `key` has no entry; otherwise it flips the
   * flag of the first entry for `key`, changes nothing else in that entry, and
   * leaves every other entry alone.
   */
  lemma ToggleFacts(roster: seq<PreSaleAccount>, key: Pubkey)
    ensures Toggle(roster, key).None? <==> forall j :: 0 <= j < |roster| ==> roster[j].address != key
    ensures Toggle(roster, key).Some? ==>
      var r := Toggle(roster, key).value;
      var i := PreSaleIndexOf(roster, key).value;
      && |r| == |roster|
      && r[i].whitelistAccount == !roster[i].whitelistAccount
      && r[i].(whitelistAccount := roster[i].whitelistAccount) == roster[i]
      && (forall j :: 0 <= j < |roster| && j != i ==> r[j] == roster[j])
  {
  }

  /** Toggling the same key twice restores the roster. */
  lemma ToggleInvolution(roster: seq<PreSaleAccount>, key: Pubkey)
    requires Toggle(roster, key).Some?
    ensures Toggle(Toggle(roster, key).value, key) == Some(roster)
  {
    var i := PreSaleIndexOf(roster, key).value;
    var once := Toggle(roster, key).value;
    assert forall j :: 0 <= j < |roster| ==> once[j].address == roster[j].address;
    assert PreSaleIndexOf(once, key) == Some(i);
    assert once[i].Whitelist() == roster[i];
    assert once[i := once[i].Whitelist()] == roster;
  }

  /**
   * A purchase credit keeps the pre-sale roster's length, adds `amount` to the
   * tokens of every entry of `buyer` and leaves every other field and every
   * other entry unchanged; in particular who is whitelisted does not change.
   */
  lemma CreditPreSaleFacts(roster: seq<PreSaleAccount>, buyer: Pubkey, amount: nat)
    ensures |CreditPreSale(roster, buyer, amount)| == |roster|
    ensures forall j :: 0 <= j < |roster| && roster[j].address == buyer ==>
      CreditPreSale(roster, buyer, amount)[j]
        == roster[j].(tokenAmount := roster[j].tokenAmount + amount)
    ensures forall j :: 0 <= j < |roster| && roster[j].address != buyer ==>
      CreditPreSale(roster, buyer, amount)[j] == roster[j]
    ensures forall k :: IsWhitelisted(CreditPreSale(roster, buyer, amount), k) <==> IsWhitelisted(roster, k)
  {
    var r := CreditPreSale(roster, buyer, amount);
    forall k ensures IsWhitelisted(r, k) <==> IsWhitelisted(roster, k) {
      if IsWhitelisted(roster, k) {
        var j :| 0 <= j < |roster| && roster[j].address == k && roster[j].whitelistAccount;
        assert r[j].address == k && r[j].whitelistAccount;
      }
      if IsWhitelisted(r, k) {
        var j :| 0 <= j < |r| && r[j].address == k && r[j].whitelistAccount;
        assert roster[j].address == k && roster[j].whitelistAccount;
      }
    }
  }

  /**
   * A purchase credit keeps the public-sale roster's length, adds `amount` to
   * the tokens of every entry of `buyer` and leaves everything else unchanged.
   */
  lemma CreditSaleFacts(roster: seq<SaleAccount>, buyer: Pubkey, amount: nat)
    ensures |CreditSale(roster, buyer, amount)| == |roster|
    ensures forall j :: 0 <= j < |roster| && roster[j].address == buyer ==>
      CreditSale(roster, buyer, amount)[j]
        == roster[j].(tokenAmount := roster[j].tokenAmount + amount)
    ensures forall j :: 0 <= j < |roster| && roster[j].address != buyer ==>
      CreditSale(roster, buyer, amount)[j] == roster[j]
  {
  }
}
