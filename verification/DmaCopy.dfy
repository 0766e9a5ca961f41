/** The byte-by-byte copy of the DMA controller, on any two ranges, overlapping or not. */
module DmaCopy {
  import opened LittleEndian

  /** The address `i` steps on, in 32 bits. */
  function Address(base: nat, i: nat): nat { (base + i) % 0x1_0000_0000 }

  /** Addresses count up from the register and wrap at 2^32. */
  lemma AddressesCountUp(base: nat, i: nat)
    requires base < 0x1_0000_0000
    ensures Address(base, 0) == base
    ensures Address(base, i + 1) == if Address(base, i) == 0xFFFF_FFFF then 0 else Address(base, i) + 1
  {
  }

  /** The bus answers both accesses of turn `i`. */
  predicate Reaches(size: nat, src: nat, dst: nat, i: nat) {
    Address(src, i) < size && Address(dst, i) < size
  }

  /** The memory after `n` turns of the copy loop. */
  function After(memory: seq<Byte>, src: nat, dst: nat, n: nat): (r: seq<Byte>)
    requires forall i | 0 <= i < n :: Reaches(|memory|, src, dst, i)
    ensures |r| == |memory|
  {
    if n == 0 then memory
    else
      var m := After(memory, src, dst, n - 1);
      assert Reaches(|memory|, src, dst, n - 1);
      m[Address(dst, n - 1) := m[Address(src, n - 1)]]
  }

  /** Which source byte arrives at place `k`: with the target ahead of the source, the first bytes repeat. */
  function Source(src: nat, dst: nat, length: nat, k: nat): (o: nat)
    requires k < length
    ensures src <= o < src + length
  {
    if src < dst < src + length then src + Rest(k, dst - src) else src + k
  }

  function Rest(k: nat, p: nat): (r: nat)
    requires p > 0
    ensures r == k % p && r <= k && r < p
  {
    k % p
  }

  lemma {:induction false} Gap(p: int, d: int)
    requires p > 0 && d != 0
    ensures p * d >= p || p * d <= -p
    decreases if d > 0 then d else -d
  {
    if d > 1 {
      Gap(p, d - 1);
      assert p * d == p * (d - 1) + p;
    } else if d < -1 {
      Gap(p, d + 1);
      assert p * d == p * (d + 1) - p;
    }
  }

  lemma ModUnique(a: int, p: nat, q: int, r: nat)
    requires p > 0 && r < p && a == p * q + r
    ensures a % p == r
  {
    assert p * (q - a / p) == a % p - r;
    if q != a / p { Gap(p, q - a / p); }
  }

  lemma ModStep(i: nat, p: nat)
    requires 0 < p <= i
    ensures (i - p) % p == i % p
  {
    assert i - p == p * (i / p - 1) + i % p;
    ModUnique(i - p, p, i / p - 1, i % p);
  }

  /** A place the copy has already filled holds what its own place of origin held. */
  lemma SourceStep(src: nat, dst: nat, length: nat, k: nat)
    requires src < dst < src + length && dst - src <= k < length
    ensures Source(src, dst, length, k) == Source(src, dst, length, k - (dst - src))
  {
    ModStep(k, dst - src);
  }

  lemma SourceFirst(src: nat, dst: nat, length: nat, k: nat)
    requires k < length && (src < dst < src + length ==> k < dst - src)
    ensures Source(src, dst, length, k) == src + k
  {
  }

  lemma NoWrap(base: nat, i: nat)
    requires base + i < 0x1_0000_0000
    ensures Address(base, i) == base + i
  {
  }

  /** One turn, when no address wraps. */
  lemma Turn(memory: seq<Byte>, src: nat, dst: nat, n: nat)
    requires src + n < |memory| && dst + n < |memory| <= 0x1_0000_0000
    requires forall i | 0 <= i < n :: Reaches(|memory|, src, dst, i)
    ensures forall i | 0 <= i < n + 1 :: Reaches(|memory|, src, dst, i)
    ensures var m := After(memory, src, dst, n); After(memory, src, dst, n + 1) == m[dst + n := m[src + n]]
  {
    NoWrap(src, n);
    NoWrap(dst, n);
  }

  /** What every byte of the memory is after `n` turns. */
  predicate Copied(memory: seq<Byte>, m: seq<Byte>, src: nat, dst: nat, length: nat, n: nat, a: nat)
    requires a < |memory| == |m| && n <= length && src + length <= |memory|
  {
    m[a] == if dst <= a < dst + n then memory[Source(src, dst, length, a - dst)] else memory[a]
  }

  lemma TurnCopies(memory: seq<Byte>, m: seq<Byte>, src: nat, dst: nat, length: nat, n: nat, a: nat)
    requires n < length && src + length <= |memory| && dst + length <= |memory| == |m| && a < |memory|
    requires Copied(memory, m, src, dst, length, n, a) && Copied(memory, m, src, dst, length, n, src + n)
    ensures Copied(memory, m[dst + n := m[src + n]], src, dst, length, n + 1, a)
  {
    if a == dst + n {
      if src < dst < src + length && dst - src <= n {
        SourceStep(src, dst, length, n);
      } else {
        SourceFirst(src, dst, length, n);
      }
    }
  }

  lemma {:induction false} AfterCopies(memory: seq<Byte>, src: nat, dst: nat, length: nat, n: nat, a: nat)
    requires n <= length && src + length <= |memory| && dst + length <= |memory| <= 0x1_0000_0000 && a < |memory|
    ensures forall i | 0 <= i < n :: Reaches(|memory|, src, dst, i)
    ensures Copied(memory, After(memory, src, dst, n), src, dst, length, n, a)
  {
    if n > 0 {
      AfterCopies(memory, src, dst, length, n - 1, a);
      AfterCopies(memory, src, dst, length, n - 1, src + n - 1);
      Turn(memory, src, dst, n - 1);
      TurnCopies(memory, After(memory, src, dst, n - 1), src, dst, length, n - 1, a);
    }
  }

  lemma {:induction false} AllReach(size: nat, src: nat, dst: nat, length: nat)
    requires src + length <= size && dst + length <= size <= 0x1_0000_0000
    ensures forall i | 0 <= i < length :: Reaches(size, src, dst, i)
  {
    forall i | 0 <= i < length ensures Reaches(size, src, dst, i) {
      NoWrap(src, i);
      NoWrap(dst, i);
    }
  }

  /**
   A copy of `length` bytes without address wrap puts at every place of the target the byte that `Source` names, and
   changes nothing else.
   */
  lemma CopyResult(memory: seq<Byte>, src: nat, dst: nat, length: nat)
    requires src + length <= |memory| && dst + length <= |memory| <= 0x1_0000_0000
    ensures forall i | 0 <= i < length :: Reaches(|memory|, src, dst, i)
    ensures forall a: nat | a < |memory| :: Copied(memory, After(memory, src, dst, length), src, dst, length, length, a)
  {
    AllReach(|memory|, src, dst, length);
    forall a: nat | a < |memory| ensures Copied(memory, After(memory, src, dst, length), src, dst, length, length, a) {
      AfterCopies(memory, src, dst, length, length, a);
    }
  }

  /** When the target does not begin inside the source after its first byte, it receives the old source bytes. */
  lemma CopyMoves(memory: seq<Byte>, src: nat, dst: nat, length: nat)
    requires src + length <= |memory| && dst + length <= |memory| <= 0x1_0000_0000
    requires dst <= src || src + length <= dst
    ensures forall i | 0 <= i < length :: Reaches(|memory|, src, dst, i)
    ensures After(memory, src, dst, length) == memory[..dst] + memory[src..src + length] + memory[dst + length..]
  {
    CopyResult(memory, src, dst, length);
    var m := After(memory, src, dst, length);
    forall a: nat | a < |memory|
      ensures m[a] == (memory[..dst] + memory[src..src + length] + memory[dst + length..])[a]
    {
      assert Copied(memory, m, src, dst, length, length, a);
      if dst <= a < dst + length { SourceFirst(src, dst, length, a - dst); }
    }
  }

  /** Otherwise the first dst - src bytes of the source repeat. */
  lemma CopyRepeats(memory: seq<Byte>, src: nat, dst: nat, length: nat, k: nat)
    requires src + length <= |memory| && dst + length <= |memory| <= 0x1_0000_0000
    requires src < dst < src + length && k < length
    ensures forall i | 0 <= i < length :: Reaches(|memory|, src, dst, i)
    ensures After(memory, src, dst, length)[dst + k] == memory[src + k % (dst - src)]
  {
    CopyResult(memory, src, dst, length);
    assert Copied(memory, After(memory, src, dst, length), src, dst, length, length, dst + k);
  }
}
