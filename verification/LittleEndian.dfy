/** Little-endian words, as `memcpy` between an integer and a byte array reads and writes them. */
module LittleEndian {
  type Byte = x: int | 0 <= x < 256

  function Power(n: nat): nat { if n == 0 then 1 else 256 * Power(n - 1) }

  /** The number that the bytes spell, lowest byte first. */
  function Value(s: seq<Byte>): nat { if s == [] then 0 else s[0] + 256 * Value(s[1..]) }

  /** The `n` lowest bytes of a number. */
  function Bytes(v: nat, n: nat): (s: seq<Byte>)
    ensures |s| == n
  {
    if n == 0 then [] else [v % 256] + Bytes(v / 256, n - 1)
  }

  lemma {:induction false} ValueOfBytes(v: nat, n: nat)
    requires v < Power(n)
    ensures Value(Bytes(v, n)) == v
  {
    if n > 0 {
      ValueOfBytes(v / 256, n - 1);
      assert Bytes(v, n)[1..] == Bytes(v / 256, n - 1);
    }
  }

  lemma {:induction false} BytesOfValue(s: seq<Byte>)
    ensures Bytes(Value(s), |s|) == s && Value(s) < Power(|s|)
  {
    if s != [] {
      BytesOfValue(s[1..]);
      assert s == [s[0]] + s[1..];
    }
  }

  /** The lowest byte comes first. */
  lemma FourBytes(s: seq<Byte>)
    requires |s| == 4
    ensures Value(s) == s[0] as int + 0x100 * s[1] as int + 0x1_0000 * s[2] as int + 0x100_0000 * s[3] as int
  {
    assert s[1..][1..] == s[2..] && s[2..][1..] == s[3..] && s[3..][1..] == [];
    assert Value([]) == 0 && Value(s[3..]) == s[3] as int + 256 * Value([]);
    assert Value(s[2..]) == s[2] as int + 256 * Value(s[3..]);
    assert Value(s[1..]) == s[1] as int + 256 * Value(s[2..]);
  }

  lemma EightBytes(s: seq<Byte>)
    requires |s| == 8
    ensures Value(s) == Value(s[..4]) + 0x1_0000_0000 * Value(s[4..])
  {
    FourBytes(s[..4]);
    assert s[1..][1..] == s[2..] && s[2..][1..] == s[3..] && s[3..][1..] == s[4..];
    assert Value(s[3..]) == s[3] as int + 256 * Value(s[4..]);
    assert Value(s[2..]) == s[2] as int + 256 * Value(s[3..]);
    assert Value(s[1..]) == s[1] as int + 256 * Value(s[2..]);
  }

  /** The bank after a write of `data` at `offset`. */
  function Splice(bank: seq<Byte>, offset: nat, data: seq<Byte>): (r: seq<Byte>)
    requires offset + |data| <= |bank|
    ensures |r| == |bank|
  {
    bank[..offset] + data + bank[offset + |data|..]
  }

  /** A write leaves every stretch alone that it does not overlap. */
  lemma SpliceApart(bank: seq<Byte>, offset: nat, data: seq<Byte>, start: nat, size: nat)
    requires offset + |data| <= |bank| && start + size <= |bank|
    requires start + size <= offset || offset + |data| <= start
    ensures Splice(bank, offset, data)[start..start + size] == bank[start..start + size]
  {
  }

  lemma SpliceAt(bank: seq<Byte>, offset: nat, data: seq<Byte>)
    requires offset + |data| <= |bank|
    ensures Splice(bank, offset, data)[offset..offset + |data|] == data
  {
  }
}
