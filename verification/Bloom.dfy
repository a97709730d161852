/** The Bloom filter over a byte array, and the entity guard built on it. SHA-256 and MD5 enter as two 32-bit hashes. */
module Bloom {
  type Word = x: int | 0 <= x < 0x1_0000_0000

  // ---- Bits of bytes ---------------------------------------------------------------------------------

  /** 1 << bitOffset */
  function Mask(offset: nat): bv8
    requires offset < 8
  {
    match offset
    case 0 => 1
    case 1 => 2
    case 2 => 4
    case 3 => 8
    case 4 => 16
    case 5 => 32
    case 6 => 64
    case 7 => 128
  }

  predicate Bit(b: bv8, offset: nat)
    requires offset < 8
  {
    b & Mask(offset) != 0
  }

  lemma OrSetsOneBit(b: bv8, k: nat, j: nat)
    requires k < 8 && j < 8
    ensures Bit(b | Mask(k), j) <==> Bit(b, j) || j == k
  {
  }

  ghost predicate IsSet(bytes: seq<bv8>, index: nat) {
    index < 8 * |bytes| && Bit(bytes[index / 8], index % 8)
  }

  /** The set of bit indexes that a byte array stands for. */
  ghost function BitsOf(bytes: seq<bv8>): (bits: set<nat>)
    ensures forall i: nat :: i in bits <==> IsSet(bytes, i)
  {
    set i: nat | i < 8 * |bytes| && IsSet(bytes, i)
  }

  lemma SetOneBit(bytes: seq<bv8>, index: nat)
    requires index < 8 * |bytes|
    ensures BitsOf(bytes[index / 8 := bytes[index / 8] | Mask(index % 8)]) == BitsOf(bytes) + {index}
  {
    var after := bytes[index / 8 := bytes[index / 8] | Mask(index % 8)];
    forall i: nat ensures IsSet(after, i) <==> IsSet(bytes, i) || i == index {
      if i < 8 * |bytes| && i / 8 == index / 8 {
        OrSetsOneBit(bytes[index / 8], index % 8, i % 8);
      }
    }
  }

  // ---- The filter --------------------------------------------------------------------------------------

  /** The i-th position by double hashing: (h1 + i * h2) >>> 0, modulo the size. */
  function Position(h1: Word, h2: Word, i: nat, size: nat): (index: nat)
    requires size > 0
    ensures index < size
  {
    (h1 + i * (if h2 == 0 then 1 else h2)) % 0x1_0000_0000 % size
  }

  class BloomFilter {
    const size: nat
    const hashCount: nat
    const sha256: string -> Word
    const md5: string -> Word
    const bitArray: array<bv8>
    /** The non-empty items added since the filter was last cleared. */
    ghost var added: set<string>

    constructor (size: nat, hashCount: nat, sha256: string -> Word, md5: string -> Word)
      requires size >= 1024 && 1 <= hashCount <= 16
      ensures Valid() && added == {} && fresh(bitArray)
      ensures this.size == size && this.hashCount == hashCount && this.sha256 == sha256 && this.md5 == md5
      ensures 8 * bitArray.Length - 8 < size <= 8 * bitArray.Length
    {
      this.size, this.hashCount, this.sha256, this.md5 := size, hashCount, sha256, md5;
      bitArray := new bv8[(size + 7) / 8](_ => 0);
      added := {};
    }

    ghost function IndexSet(item: string): set<nat>
      requires size > 0
    {
      set i | 0 <= i < hashCount :: Position(sha256(item), md5(item), i, size)
    }

    ghost predicate Covered(items: set<string>, index: nat)
      requires size > 0
    {
      exists x :: x in items && index in IndexSet(x)
    }

    lemma CoveredGrows(items: set<string>, item: string, index: nat)
      requires size > 0
      ensures Covered(items + {item}, index) <==> Covered(items, index) || index in IndexSet(item)
    {
      if index in IndexSet(item) {
        assert item in items + {item};
      }
      if Covered(items, index) {
        var x :| x in items && index in IndexSet(x);
        assert x in items + {item};
      }
    }

    lemma AddCovers(items: set<string>, item: string, before: set<nat>, after: set<nat>)
      requires size > 0 && after == before + IndexSet(item)
      requires forall i: nat :: i in before <==> Covered(items, i)
      ensures forall i: nat :: i in after <==> Covered(items + {item}, i)
    {
      forall i: nat ensures i in after <==> Covered(items + {item}, i) {
        CoveredGrows(items, item, i);
      }
    }

    /** The byte array holds exactly the indexes of the items added: it refines a set. */
    ghost predicate Valid()
      reads this, bitArray
    {
      && size >= 1024 && 1 <= hashCount <= 16
      && bitArray.Length == (size + 7) / 8
      && "" !in added
      && (forall i: nat :: i in BitsOf(bitArray[..]) <==> Covered(added, i))
    }

    method GetIndexes(item: string) returns (indexes: seq<nat>)
      requires size > 0
      ensures |indexes| == hashCount
      ensures forall i :: 0 <= i < hashCount ==> indexes[i] == Position(sha256(item), md5(item), i, size)
      ensures forall i :: 0 <= i < hashCount ==>
                indexes[i] == (if md5(item) == 0 then sha256(item) + i else sha256(item) + i * md5(item))
                              % 0x1_0000_0000 % size
    {
      indexes := [];
      for i := 0 to hashCount
        invariant |indexes| == i
        invariant forall k :: 0 <= k < i ==> indexes[k] == Position(sha256(item), md5(item), k, size)
      {
        indexes := indexes + [Position(sha256(item), md5(item), i, size)];
      }
    }

    method Add(item: string)
      requires Valid()
      modifies this, bitArray
      ensures Valid() && added == old(added) + (if item == "" then {} else {item})
      ensures BitsOf(bitArray[..]) == old(BitsOf(bitArray[..])) + if item == "" then {} else IndexSet(item)
    {
      if item == "" {
        return;
      }
      var indexes := GetIndexes(item);
      ghost var before := BitsOf(bitArray[..]);
      for k := 0 to |indexes|
        modifies bitArray
        invariant BitsOf(bitArray[..]) == before + Taken(indexes, k)
      {
        SetBit(indexes[k]);
        TakenNext(indexes, k, before);
      }
      assert Taken(indexes, |indexes|) == IndexSet(item);
      AddCovers(added, item, before, BitsOf(bitArray[..]));
      added := added + {item};
    }

    ghost function Taken(indexes: seq<nat>, k: nat): set<nat>
      requires k <= |indexes|
    {
      set j | 0 <= j < k :: indexes[j]
    }

    lemma TakenNext(indexes: seq<nat>, k: nat, before: set<nat>)
      requires k < |indexes|
      ensures (before + Taken(indexes, k)) + {indexes[k]} == before + Taken(indexes, k + 1)
    {
      assert Taken(indexes, k + 1) == Taken(indexes, k) + {indexes[k]};
    }

    /** bitArray[byteIndex] = currentByte | (1 << bitOffset) */
    method SetBit(index: nat)
      requires index < 8 * bitArray.Length
      modifies bitArray
      ensures BitsOf(bitArray[..]) == old(BitsOf(bitArray[..])) + {index}
    {
      var byteIndex, bitOffset := index / 8, index % 8;
      SetOneBit(bitArray[..], index);
      ghost var after := bitArray[..][byteIndex := bitArray[byteIndex] | Mask(bitOffset)];
      bitArray[byteIndex] := bitArray[byteIndex] | Mask(bitOffset);
      assert bitArray[..] == after;
    }

    lemma AddedIsSet(item: string)
      requires Valid() && item in added
      ensures IndexSet(item) <= BitsOf(bitArray[..])
    {
      forall i | i in IndexSet(item) ensures i in BitsOf(bitArray[..]) {
        assert Covered(added, i);
      }
    }

    /** True exactly when every index of the item is an index of some item added since the last clear. */
    method Has(item: string) returns (possibly: bool)
      requires Valid()
      ensures possibly <==> item != "" && IndexSet(item) <= BitsOf(bitArray[..])
      ensures item in added ==> possibly
    {
      if item == "" {
        return false;
      }
      var indexes := GetIndexes(item);
      if item in added {
        AddedIsSet(item);
      }
      for k := 0 to |indexes|
        invariant forall j :: 0 <= j < k ==> indexes[j] in BitsOf(bitArray[..])
      {
        var byteIndex, bitOffset := indexes[k] / 8, indexes[k] % 8;
        if !Bit(bitArray[byteIndex], bitOffset) {
          assert !IsSet(bitArray[..], indexes[k]) && indexes[k] in IndexSet(item);
          return false;
        }
        assert IsSet(bitArray[..], indexes[k]);
      }
      return true;
    }

    method Clear()
      requires Valid()
      modifies this, bitArray
      ensures Valid() && added == {} && BitsOf(bitArray[..]) == {}
    {
      for k := 0 to bitArray.Length
        modifies bitArray
        invariant forall j :: 0 <= j < k ==> bitArray[j] == 0
      {
        bitArray[k] := 0;
      }
      added := {};
    }
  }
}
