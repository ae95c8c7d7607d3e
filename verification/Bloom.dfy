/** The bloom filter: double hashing over an array of 64-bit words. */
module Bloom {

  /** FNV-128a split into two 64-bit halves. */
  type DoubleHash = string -> (nat, nat)

  const WORD: nat := 0x1_0000_0000_0000_0000

  /** The i-th bit position of a key; the sum wraps around at 64 bits. */
  function Position(hash: DoubleHash, key: string, i: nat, m: nat): (pos: nat)
    requires m > 0
    ensures pos < m
  {
    ((hash(key).0 + i * hash(key).1) % WORD) % m
  }

  function Mask(j: bv6): bv64 {
    1 << j
  }

  lemma MaskNonZero(j: bv6)
    ensures Mask(j) != 0
  {
  }

  lemma SetBit(word: bv64, mask: bv64)
    requires mask != 0
    ensures (word | mask) & mask != 0
  {
    assert (word | mask) & mask == mask;
  }

  lemma KeepBit(word: bv64, mask: bv64, other: bv64)
    requires word & other != 0
    ensures (word | mask) & other != 0
  {
    assert ((word | mask) & other) & (word & other) == word & other;
  }

  function MaskAt(pos: nat): bv64 {
    Mask((pos % 64) as bv6)
  }

  predicate BitIn(words: seq<bv64>, index: nat, mask: bv64) {
    index < |words| && words[index] & mask != 0
  }

  /** Bit `pos` of the array is set. */
  predicate IsSet(words: seq<bv64>, pos: nat) {
    BitIn(words, pos / 64, MaskAt(pos))
  }

  lemma BitInKept(words: seq<bv64>, index: nat, mask: bv64, other: nat, otherMask: bv64)
    requires index < |words| && BitIn(words, other, otherMask)
    ensures BitIn(words[index := words[index] | mask], other, otherMask)
  {
    if index == other { KeepBit(words[index], mask, otherMask); }
  }

  /** All bits of a key are set. */
  ghost predicate Marked(words: seq<bv64>, hash: DoubleHash, key: string, m: nat, k: nat)
    requires m > 0
  {
    forall i | 0 <= i < k :: IsSet(words, Position(hash, key, i, m))
  }

  lemma SetKeeps(words: seq<bv64>, pos: nat, other: nat)
    requires pos / 64 < |words| && IsSet(words, other)
    ensures IsSet(words[pos / 64 := words[pos / 64] | MaskAt(pos)], other)
  {
    BitInKept(words, pos / 64, MaskAt(pos), other / 64, MaskAt(other));
  }

  lemma SetSets(words: seq<bv64>, pos: nat)
    requires pos / 64 < |words|
    ensures IsSet(words[pos / 64 := words[pos / 64] | MaskAt(pos)], pos)
  {
    MaskNonZero((pos % 64) as bv6);
    SetBit(words[pos / 64], MaskAt(pos));
  }

  class BloomFilter {
    const hash: DoubleHash
    const bits: array<bv64>
    const m: nat
    const k: nat
    ghost var added: set<string>

    /** No false negatives: every added key is marked. */
    ghost predicate Valid()
      reads this, bits
    {
      && m > 0 && bits.Length == (m + 63) / 64
      && forall key | key in added :: Marked(bits[..], hash, key, m, k)
    }

    constructor (hash: DoubleHash, m: nat, k: nat)
      requires m > 0
      ensures Valid() && added == {} && fresh(bits) && this.hash == hash
    {
      this.hash, this.m, this.k, added := hash, m, k, {};
      bits := new bv64[(m + 63) / 64](_ => 0);
    }

    method Add(key: string)
      requires Valid()
      modifies this`added, bits
      ensures Valid() && added == old(added) + {key}
    {
      for i := 0 to k
        invariant Valid() && added == old(added)
        invariant forall j | 0 <= j < i :: IsSet(bits[..], Position(hash, key, j, m))
      {
        var pos := Position(hash, key, i, m);
        ghost var before := bits[..];
        bits[pos / 64] := bits[pos / 64] | MaskAt(pos);
        assert bits[..] == before[pos / 64 := before[pos / 64] | MaskAt(pos)];
        SetSets(before, pos);
        forall other | IsSet(before, other) ensures IsSet(bits[..], other) { SetKeeps(before, pos, other); }
      }
      added := added + {key};
    }

    method MayContain(key: string) returns (r: bool)
      requires Valid()
      ensures r <==> Marked(bits[..], hash, key, m, k)
      ensures key in added ==> r
    {
      for i := 0 to k
        invariant forall j | 0 <= j < i :: IsSet(bits[..], Position(hash, key, j, m))
      {
        var pos := Position(hash, key, i, m);
        if bits[pos / 64] & MaskAt(pos) == 0 {
          assert !IsSet(bits[..], Position(hash, key, i, m));
          return false;
        }
      }
      return true;
    }
  }
}
