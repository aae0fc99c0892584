/**
  Byte-level building blocks shared by the chunk storage and the block logic:
  the byte type, an optional value, and the packed four-bit ("nibble") array
  that backs a chunk's metadata, block-light and sky-light fields.

  Assumed packing of the nibble array (its source file is not part of this
  model): logical slot `i` lives in backing byte `Data[i / 2]`; an even slot
  is the low four bits of that byte, an odd slot the high four bits; a
  stored value is masked to its low four bits.
*/
module Utils {

  type byte = bv8

  datatype Option<T> = None | Some(value: T)

  /** The nibble stored at logical slot `i` of the packed bytes `data`. */
  function NibbleAt(data: seq<byte>, i: nat): (v: byte)
    requires i / 2 < |data|
    ensures v <= 0x0F
  {
    if i % 2 == 0 then data[i / 2] & 0x0F else data[i / 2] >> 4
  }

  /** `b` with the half selected by `odd` replaced by the low four bits of `value`. */
  function PutNibble(b: byte, odd: bool, value: byte): (r: byte)
  {
    if odd then (b & 0x0F) | ((value & 0x0F) << 4) else (b & 0xF0) | (value & 0x0F)
  }

  /** The packed bytes after writing `value` into logical slot `i`. */
  function WithNibble(data: seq<byte>, i: nat, value: byte): (r: seq<byte>)
    requires i / 2 < |data|
    ensures |r| == |data|
    ensures NibbleAt(r, i) == value & 0x0F
    ensures forall j: nat :: j / 2 < |data| && j != i ==> NibbleAt(r, j) == NibbleAt(data, j)
    ensures forall k :: 0 <= k < |data| && k != i / 2 ==> r[k] == data[k]
  {
    var r := data[i / 2 := PutNibble(data[i / 2], i % 2 == 1, value)];
    assert forall j: nat :: j / 2 == i / 2 && j != i ==> j % 2 != i % 2;
    r
  }

  /** Every element of `s` equals `v`. */
  predicate AllEqual(s: seq<byte>, v: byte)
  {
    forall k :: 0 <= k < |s| ==> s[k] == v
  }

  /** A packed byte equal to `v` in every position holds the same nibble in both halves. */
  lemma NibbleOfUniform(data: seq<byte>, v: byte, i: nat)
    requires AllEqual(data, v) && i / 2 < |data|
    ensures NibbleAt(data, i) == if i % 2 == 0 then v & 0x0F else v >> 4
  {
  }

  /** Bulk assignment of one value to every byte of an array (`Array.Clear`, `Fill<byte>`). */
  method Fill(a: array<byte>, v: byte)
    modifies a
    ensures AllEqual(a[..], v)
  {
    forall k | 0 <= k < a.Length {
      a[k] := v;
    }
  }

  /** Bulk copy of one array into another of the same length (`Array.CopyTo`). */
  method CopyTo(src: array<byte>, dst: array<byte>)
    requires src.Length == dst.Length
    modifies dst
    ensures dst[..] == old(src[..])
  {
    forall k | 0 <= k < src.Length {
      dst[k] := src[k];
    }
  }

  /**
    A dense array of 4-bit values, two per backing byte (`NibbleArray`).
    Only `Data` is kept: the array object itself is never replaced.
  */
  class NibbleArray {
    const Data: array<byte>

    /** `new NibbleArray(length)`: `length / 2` zeroed backing bytes. */
    constructor (length: nat)
      ensures fresh(Data) && Data.Length == length / 2
      ensures AllEqual(Data[..], 0)
    {
      Data := new byte[length / 2](_ => 0);
    }

    /** Indexer read: one nibble, the low half of the backing byte for an even index, the high half for an odd one. */
    function Get(i: nat): (r: byte)
      reads Data
      requires i / 2 < Data.Length
      ensures r <= 0x0F
    {
      NibbleAt(Data[..], i)
    }

    /** Indexer write: only the addressed half of one backing byte changes. */
    method Set(i: nat, value: byte)
      requires i / 2 < Data.Length
      modifies Data
      ensures Data[..] == WithNibble(old(Data[..]), i, value)
      ensures Get(i) == value & 0x0F
    {
      Data[i / 2] := PutNibble(Data[i / 2], i % 2 == 1, value);
    }
  }
}
