/**
 * The balance list `Vec<(Pubkey, u64)>` of the ledger: lookup by key as
 * `iter_mut().find` does it, the find-or-insert credit of `mint_tokens`, and
 * the facts about key uniqueness and the sum of all balances that the
 * operations rely on.
 */
module Balances {
  import opened IcoTypes

  /** The position of the first entry held by `key`, if there is one. */
  function IndexOf(bal: seq<Entry>, key: Pubkey): (r: Option<nat>)
    ensures r.Some? ==> r.value < |bal| && bal[r.value].0 == key
    ensures r.Some? ==> forall j :: 0 <= j < r.value ==> bal[j].0 != key
    ensures r.None? <==> forall j :: 0 <= j < |bal| ==> bal[j].0 != key
  {
    if |bal| == 0 then None
    else if bal[0].0 == key then Some(0)
    else match IndexOf(bal[1..], key)
      case None => None
      case Some(i) => Some(i + 1)
  }

  /** The linear search `iter_mut().find(|(account, _)| *account == key)`. */
  method Find(bal: seq<Entry>, key: Pubkey) returns (r: Option<nat>)
    ensures r == IndexOf(bal, key)
  {
    var i := 0;
    while i < |bal|
      invariant 0 <= i <= |bal|
      invariant forall j :: 0 <= j < i ==> bal[j].0 != key
    {
      if bal[i].0 == key {
        return Some(i);
      }
      i := i + 1;
    }
    return None;
  }

  /** Tokens held by `key`, as found by the first matching entry (0 if none). */
  function BalanceOf(bal: seq<Entry>, key: Pubkey): nat {
    match IndexOf(bal, key)
    case None => 0
    case Some(i) => bal[i].1
  }

  /** No holder appears in two entries. */
  ghost predicate UniqueKeys(bal: seq<Entry>) {
    forall i, j :: 0 <= i < j < |bal| ==> bal[i].0 != bal[j].0
  }

  /** Sum of all balances. */
  function Sum(bal: seq<Entry>): nat {
    if |bal| == 0 then 0 else bal[0].1 + Sum(bal[1..])
  }

  /** The list with `amount` added to entry `i` (`*balance += amount`). */
  function AddAt(bal: seq<Entry>, i: nat, amount: nat): seq<Entry>
    requires i < |bal|
  {
    bal[i := (bal[i].0, bal[i].1 + amount)]
  }

  /** The list with `amount` taken from entry `i` (`*balance -= amount`). */
  function SubAt(bal: seq<Entry>, i: nat, amount: nat): seq<Entry>
    requires i < |bal| && bal[i].1 >= amount
  {
    bal[i := (bal[i].0, bal[i].1 - amount)]
  }

  /**
   * The find-or-insert of `mint_tokens`: the first entry of `key` grows by
   * `amount`, or a new entry `(key, amount)` is appended.
   */
  function Credit(bal: seq<Entry>, key: Pubkey, amount: nat): (r: seq<Entry>)
    ensures IndexOf(r, key).Some?
    ensures |bal| <= |r| <= |bal| + 1
  {
    match IndexOf(bal, key)
    case Some(i) =>
      assert AddAt(bal, i, amount)[i].0 == key;
      AddAt(bal, i, amount)
    case None =>
      assert (bal + [(key, amount)])[|bal|].0 == key;
      bal + [(key, amount)]
  }

  /** Two lists with the same key at every position. */
  ghost predicate SameKeys(a: seq<Entry>, b: seq<Entry>) {
    |a| == |b| && forall j :: 0 <= j < |a| ==> a[j].0 == b[j].0
  }

  /** Lookup depends on the keys alone. */
  lemma IndexOfSameKeys(a: seq<Entry>, b: seq<Entry>, key: Pubkey)
    requires SameKeys(a, b)
    ensures IndexOf(a, key) == IndexOf(b, key)
  {
    assert forall j :: 0 <= j < |a| ==> (a[j].0 == key <==> b[j].0 == key);
  }

  /** Adding to entry `i` adds the same amount to the sum. */
  lemma {:induction false} SumAddAt(bal: seq<Entry>, i: nat, amount: nat)
    requires i < |bal|
    ensures Sum(AddAt(bal, i, amount)) == Sum(bal) + amount
  {
    if i > 0 {
      SumAddAt(bal[1..], i - 1, amount);
      assert AddAt(bal, i, amount)[1..] == AddAt(bal[1..], i - 1, amount);
    } else {
      assert AddAt(bal, i, amount)[1..] == bal[1..];
    }
  }

  /** Taking from entry `i` takes the same amount from the sum. */
  lemma {:induction false} SumSubAt(bal: seq<Entry>, i: nat, amount: nat)
    requires i < |bal| && bal[i].1 >= amount
    ensures Sum(SubAt(bal, i, amount)) + amount == Sum(bal)
  {
    if i > 0 {
      SumSubAt(bal[1..], i - 1, amount);
      assert SubAt(bal, i, amount)[1..] == SubAt(bal[1..], i - 1, amount);
    } else {
      assert SubAt(bal, i, amount)[1..] == bal[1..];
    }
  }

  /** Appending an entry adds its amount to the sum. */
  lemma {:induction false} SumAppend(bal: seq<Entry>, e: Entry)
    ensures Sum(bal + [e]) == Sum(bal) + e.1
  {
    if |bal| > 0 {
      SumAppend(bal[1..], e);
      assert (bal + [e])[1..] == bal[1..] + [e];
    }
  }

  /** An appended entry keeps the keys unique exactly when its key is new. */
  lemma UniqueAppend(bal: seq<Entry>, e: Entry)
    ensures UniqueKeys(bal + [e]) <==> UniqueKeys(bal) && IndexOf(bal, e.0).None?
  {
    var s := bal + [e];
    if UniqueKeys(s) {
      forall j | 0 <= j < |bal| ensures bal[j].0 != e.0 {
        assert s[j] == bal[j] && s[|bal|] == e;
      }
      forall i, j | 0 <= i < j < |bal| ensures bal[i].0 != bal[j].0 {
        assert s[i] == bal[i] && s[j] == bal[j];
      }
    }
  }

  /**
   * Mint's find-or-insert: the holder's balance grows by `amount`, every other
   * holder's is unchanged, the sum grows by `amount`, the list grows only when
   * the holder was absent, and unique keys stay unique.
   */
  lemma CreditFacts(bal: seq<Entry>, key: Pubkey, amount: nat)
    ensures BalanceOf(Credit(bal, key, amount), key) == BalanceOf(bal, key) + amount
    ensures forall other :: other != key ==>
      BalanceOf(Credit(bal, key, amount), other) == BalanceOf(bal, other)
    ensures Sum(Credit(bal, key, amount)) == Sum(bal) + amount
    ensures |Credit(bal, key, amount)| == if IndexOf(bal, key).Some? then |bal| else |bal| + 1
    ensures UniqueKeys(bal) ==> UniqueKeys(Credit(bal, key, amount))
  {
    if IndexOf(bal, key).Some? {
      CreditExisting(bal, key, amount);
    } else {
      CreditNew(bal, key, amount);
    }
  }

  /** The find half of `CreditFacts`: an existing entry grows in place. */
  lemma CreditExisting(bal: seq<Entry>, key: Pubkey, amount: nat)
    requires IndexOf(bal, key).Some?
    ensures forall k :: (BalanceOf(Credit(bal, key, amount), k)
      == if k == key then BalanceOf(bal, k) + amount else BalanceOf(bal, k))
    ensures Sum(Credit(bal, key, amount)) == Sum(bal) + amount
    ensures SameKeys(bal, Credit(bal, key, amount))
  {
    var i := IndexOf(bal, key).value;
    forall k ensures BalanceOf(Credit(bal, key, amount), k)
      == if k == key then BalanceOf(bal, k) + amount else BalanceOf(bal, k)
    {
      BalanceOfAddAt(bal, key, amount, k);
    }
    SumAddAt(bal, i, amount);
  }

  /** The insert half of `CreditFacts`: a new entry is appended at the end. */
  lemma CreditNew(bal: seq<Entry>, key: Pubkey, amount: nat)
    requires IndexOf(bal, key).None?
    ensures forall k :: (BalanceOf(Credit(bal, key, amount), k)
      == if k == key then BalanceOf(bal, k) + amount else BalanceOf(bal, k))
    ensures Sum(Credit(bal, key, amount)) == Sum(bal) + amount
    ensures |Credit(bal, key, amount)| == |bal| + 1
    ensures UniqueKeys(bal) ==> UniqueKeys(Credit(bal, key, amount))
  {
    var r := bal + [(key, amount)];
    assert forall j :: 0 <= j < |bal| ==> r[j] == bal[j];
    forall k ensures BalanceOf(r, k)
      == if k == key then BalanceOf(bal, k) + amount else BalanceOf(bal, k)
    {
      if k == key {
        assert r[|bal|].0 == key;
        assert IndexOf(r, key) == Some(|bal|);
      } else {
        match IndexOf(bal, k)
        case Some(j) =>
          assert r[j] == bal[j];
        case None =>
          assert r[|bal|].0 != k;
      }
    }
    SumAppend(bal, (key, amount));
    UniqueAppend(bal, (key, amount));
  }

  /**
   * The zero-sum move of a purchase: `amount` added to entry `i` and then
   * taken from entry `j` leaves the sum and every key unchanged.
   */
  lemma {:induction false} TransferFacts(bal: seq<Entry>, i: nat, j: nat, amount: nat)
    requires i < |bal| && j < |bal|
    requires AddAt(bal, i, amount)[j].1 >= amount
    ensures Sum(SubAt(AddAt(bal, i, amount), j, amount)) == Sum(bal)
    ensures SameKeys(bal, SubAt(AddAt(bal, i, amount), j, amount))
  {
    SumAddAt(bal, i, amount);
    SumSubAt(AddAt(bal, i, amount), j, amount);
  }

  /** Lists with the same keys have unique keys together. */
  lemma SameKeysUnique(a: seq<Entry>, b: seq<Entry>)
    requires SameKeys(a, b)
    ensures UniqueKeys(a) <==> UniqueKeys(b)
  {
  }

  /**
   * Adding `amount` to the first entry of `key` adds it to the balance of
   * `key`, leaves the balance of every other holder `k` unchanged, and moves
   * no entry.
   */
  lemma BalanceOfAddAt(bal: seq<Entry>, key: Pubkey, amount: nat, k: Pubkey)
    requires IndexOf(bal, key).Some?
    ensures IndexOf(AddAt(bal, IndexOf(bal, key).value, amount), k) == IndexOf(bal, k)
    ensures BalanceOf(AddAt(bal, IndexOf(bal, key).value, amount), k)
      == if k == key then BalanceOf(bal, k) + amount else BalanceOf(bal, k)
  {
    var r := AddAt(bal, IndexOf(bal, key).value, amount);
    assert SameKeys(bal, r);
    IndexOfSameKeys(bal, r, k);
  }

  /**
   * Taking `amount` from the first entry of `key` takes it from the balance of
   * `key` and leaves the balance of every other holder `k` unchanged.
   */
  lemma BalanceOfSubAt(bal: seq<Entry>, key: Pubkey, amount: nat, k: Pubkey)
    requires IndexOf(bal, key).Some? && bal[IndexOf(bal, key).value].1 >= amount
    ensures BalanceOf(SubAt(bal, IndexOf(bal, key).value, amount), k)
      == if k == key then BalanceOf(bal, k) - amount else BalanceOf(bal, k)
  {
    var r := SubAt(bal, IndexOf(bal, key).value, amount);
    assert SameKeys(bal, r);
    IndexOfSameKeys(bal, r, k);
  }

  /**
   * The balances after a purchase's settlement: `amount` added to the first
   * entry of `buyer`, then taken from the first entry of `admin`. The buyer
   * gains it and the admin loses it (no change when they are the same holder),
   * and no one else's balance changes.
   */
  lemma TransferBalances(bal: seq<Entry>, buyer: Pubkey, admin: Pubkey, amount: nat)
    requires IndexOf(bal, buyer).Some? && IndexOf(bal, admin).Some?
    requires AddAt(bal, IndexOf(bal, buyer).value, amount)[IndexOf(bal, admin).value].1 >= amount
    ensures var credited := AddAt(bal, IndexOf(bal, buyer).value, amount);
      var after := SubAt(credited, IndexOf(bal, admin).value, amount);
      && (buyer != admin ==>
            && BalanceOf(after, buyer) == BalanceOf(bal, buyer) + amount
            && BalanceOf(after, admin) + amount == BalanceOf(bal, admin))
      && (buyer == admin ==> BalanceOf(after, buyer) == BalanceOf(bal, buyer))
      && (forall k :: k != buyer && k != admin ==> BalanceOf(after, k) == BalanceOf(bal, k))
  {
    var credited := AddAt(bal, IndexOf(bal, buyer).value, amount);
    BalanceOfAddAt(bal, buyer, amount, admin);
    BalanceOfAddAt(bal, buyer, amount, buyer);
    BalanceOfSubAt(credited, admin, amount, buyer);
    BalanceOfSubAt(credited, admin, amount, admin);
    forall k | k != buyer && k != admin
      ensures BalanceOf(SubAt(credited, IndexOf(bal, admin).value, amount), k) == BalanceOf(bal, k)
    {
      BalanceOfAddAt(bal, buyer, amount, k);
      BalanceOfSubAt(credited, admin, amount, k);
    }
  }
}
