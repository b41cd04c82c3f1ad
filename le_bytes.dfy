/**
 * Little-endian unsigned integers over bytes, as `u64::from_le_bytes` reads
 * the 8-byte amounts of the mint and purchase instructions.
 */
module LeBytes {

  /** 256 to the power `n`: one more than the largest `n`-byte value. */
  function Pow256(n: nat): (r: nat)
    ensures r >= 1
  {
    if n == 0 then 1 else 256 * Pow256(n - 1)
  }

  /** The value of `b` read least significant byte first. */
  function FromLe(b: seq<bv8>): (r: nat)
    ensures r < Pow256(|b|)
  {
    if |b| == 0 then 0
    else
      var rest := FromLe(b[1..]);
      assert rest <= Pow256(|b| - 1) - 1;
      b[0] as nat + 256 * rest
  }

  /** The `n` low-order bytes of `x`, least significant first. */
  function ToLe(x: nat, n: nat): (b: seq<bv8>)
    ensures |b| == n
  {
    if n == 0 then [] else [(x % 256) as bv8] + ToLe(x / 256, n - 1)
  }

  /** `u64::from_le_bytes` on an 8-byte slice. */
  function DecodeU64(b: seq<bv8>): (r: nat)
    requires |b| == 8
    ensures r < 0x1_0000_0000_0000_0000
    ensures ToLe(r, 8) == b
  {
    ToLeFromLe(b);
    FromLe(b)
  }

  /** Encoding a value that fits in `n` bytes and decoding it gives it back. */
  lemma {:induction false} FromLeToLe(x: nat, n: nat)
    requires x < Pow256(n)
    ensures FromLe(ToLe(x, n)) == x
  {
    if n > 0 {
      QuotientBound(x, Pow256(n - 1));
      FromLeToLe(x / 256, n - 1);
      ToLeParts(x, n);
      FromLeUnfold(ToLe(x, n));
      DivMod256(x % 256, x / 256);
    }
  }

  /** Decoding bytes and encoding the value at the same width gives them back. */
  lemma {:induction false} ToLeFromLe(b: seq<bv8>)
    ensures ToLe(FromLe(b), |b|) == b
  {
    if |b| > 0 {
      var x := FromLe(b);
      FromLeUnfold(b);
      DivMod256(b[0] as nat, FromLe(b[1..]));
      ToLeFromLe(b[1..]);
      ToLeParts(x, |b|);
      assert ToLe(x, |b|) == [ToLe(x, |b|)[0]] + ToLe(x, |b|)[1..];
    }
  }

  // Arithmetic and unfolding steps, kept apart so that the inductive proofs
  // above stay within the solver's budget.

  lemma FromLeUnfold(b: seq<bv8>)
    requires |b| > 0
    ensures FromLe(b) == b[0] as nat + 256 * FromLe(b[1..])
  {
  }

  lemma ToLeParts(x: nat, n: nat)
    requires n > 0
    ensures ToLe(x, n)[0] as nat == x % 256
    ensures ToLe(x, n)[1..] == ToLe(x / 256, n - 1)
  {
    assert ToLe(x, n)[1..] == ToLe(x / 256, n - 1);
  }

  lemma DivMod256(low: nat, high: nat)
    requires low < 256
    ensures (low + 256 * high) % 256 == low
    ensures (low + 256 * high) / 256 == high
  {
  }

  lemma QuotientBound(x: nat, p: nat)
    requires x < 256 * p
    ensures x / 256 < p
  {
  }
}
