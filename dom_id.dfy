/**
 * `next_dom_id`: ids for `<label for>` built from a prefix and a per-thread
 * `u32` counter that wraps around.
 */
module DomId {
  import opened Strings

  const U32Modulus: nat := 0x1_0000_0000

  newtype u32 = x: int | 0 <= x < 0x1_0000_0000

  /** `wrapping_add(1)`. */
  function WrappingInc(x: u32): (r: u32)
    ensures r as int == (x as int + 1) % U32Modulus
  {
    if x == 0xFFFF_FFFF then 0 else x + 1
  }

  /** The counter after `k` more ids. */
  function CounterAfter(start: u32, k: nat): (r: u32)
    ensures r as int == (start as int + k) % U32Modulus
  {
    if k == 0 then start else WrappingInc(CounterAfter(start, k - 1))
  }

  /** The id made from a counter value. */
  function IdOf(prefix: string, id: u32): (r: string)
    ensures StartsWith(r, prefix) && ParseDecimal(r[|prefix|..]) == id as nat
  {
    DecimalRoundTrip(id as nat);
    assert (prefix + Decimal(id as nat))[|prefix|..] == Decimal(id as nat);
    prefix + Decimal(id as nat)
  }

  /** The thread-local counter. */
  class Counter {
    var next: u32

    constructor()
      ensures next == 0
    {
      next := 0;
    }

    method NextDomId(prefix: string) returns (s: string)
      modifies this
      ensures s == IdOf(prefix, old(next)) && next == WrappingInc(old(next))
    {
      var id := next;
      next := WrappingInc(id);
      s := prefix + Decimal(id as nat);
    }
  }

  // ---------------------------------------------------------------------------
  // Properties

  /** A fresh counter's first id is the prefix followed by "0". */
  lemma FirstIdIsZero(prefix: string)
    ensures IdOf(prefix, 0) == prefix + "0"
  {
  }

  /** Every id starts with its prefix and has at least one digit after it. */
  lemma IdExtendsPrefix(prefix: string, id: u32)
    ensures |IdOf(prefix, id)| > |prefix| && IdOf(prefix, id)[..|prefix|] == prefix
  {
  }

  /** Different counter values give different ids under one prefix. */
  lemma IdOfInjective(prefix: string, a: u32, b: u32)
    requires IdOf(prefix, a) == IdOf(prefix, b)
    ensures a == b
  {
    assert Decimal(a as nat) == IdOf(prefix, a)[|prefix|..];
    assert Decimal(b as nat) == IdOf(prefix, b)[|prefix|..];
    DecimalInjective(a as nat, b as nat);
  }

  /** Any 2^32 consecutive ids under one prefix are distinct. */
  lemma IdsDistinctWithinPeriod(prefix: string, start: u32, i: nat, j: nat)
    requires i < j < U32Modulus
    ensures IdOf(prefix, CounterAfter(start, i)) != IdOf(prefix, CounterAfter(start, j))
  {
    if IdOf(prefix, CounterAfter(start, i)) == IdOf(prefix, CounterAfter(start, j)) {
      IdOfInjective(prefix, CounterAfter(start, i), CounterAfter(start, j));
      ModDistinct(start as int, i, j);
    }
  }

  lemma ModDistinct(s: int, i: nat, j: nat)
    requires 0 <= s < U32Modulus && i < j < U32Modulus
    ensures (s + i) % U32Modulus != (s + j) % U32Modulus
  {
  }

  /** After 2^32 ids the counter is back where it started, so the next id repeats. */
  lemma WrapsAfterPeriod(start: u32)
    ensures CounterAfter(start, U32Modulus) == start
  {
  }
}
