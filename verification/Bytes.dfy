/** Little-endian fields in byte buffers: the copies and reads every record codec is made of. */
module Bytes {
  import opened Common

  function Pow256(n: nat): nat {
    if n == 0 then 1 else 256 * Pow256(n - 1)
  }

  function LeBytes(n: nat, v: nat): (b: seq<byte>)
    ensures |b| == n
    decreases n, v
  {
    if n == 0 then [] else [v % 256] + LeBytes(n - 1, v / 256)
  }

  function LeNat(b: seq<byte>): nat {
    if b == [] then 0 else b[0] + 256 * LeNat(b[1..])
  }

  lemma {:induction false} LeNatBound(b: seq<byte>)
    ensures LeNat(b) < Pow256(|b|)
  {
    if b != [] { LeNatBound(b[1..]); }
  }

  lemma {:induction false} LeNatOfBytes(n: nat, v: nat)
    requires v < Pow256(n)
    ensures LeNat(LeBytes(n, v)) == v
  {
    if n > 0 { LeNatOfBytes(n - 1, v / 256); }
  }

  lemma {:induction false} LeBytesOfNat(b: seq<byte>)
    ensures LeBytes(|b|, LeNat(b)) == b
  {
    if b != [] {
      LeBytesOfNat(b[1..]);
      assert LeNat(b) % 256 == b[0] && LeNat(b) / 256 == LeNat(b[1..]);
    }
  }

  lemma {:induction false} Pow256Sum(m: nat, n: nat)
    ensures Pow256(m + n) == Pow256(m) * Pow256(n)
  {
    if m > 0 { Pow256Sum(m - 1, n); }
  }

  lemma Widths()
    ensures Pow256(4) == U32_MAX + 1 && Pow256(8) == U64_MAX + 1 && Pow256(32) == PUBKEY_SPACE
  {
    assert Pow256(2) == 0x1_0000 && Pow256(4) == 0x1_0000_0000;
    Pow256Sum(4, 4);
    Pow256Sum(8, 8);
    Pow256Sum(16, 16);
  }

  lemma Fits4(b: seq<byte>)
    requires |b| == 4
    ensures LeNat(b) <= U32_MAX
  {
    LeNatBound(b);
    Widths();
  }

  lemma Fits8(b: seq<byte>)
    requires |b| == 8
    ensures LeNat(b) <= U64_MAX
  {
    LeNatBound(b);
    Widths();
  }

  lemma Fits32(b: seq<byte>)
    requires |b| == 32
    ensures LeNat(b) < PUBKEY_SPACE
  {
    LeNatBound(b);
    Widths();
  }

  function U32Bytes(v: u32): seq<byte> { LeBytes(4, v) }
  function U64Bytes(v: u64): seq<byte> { LeBytes(8, v) }
  function I64Bytes(v: i64): seq<byte> { LeBytes(8, AsU64(v)) }
  function PubkeyBytes(k: Pubkey): seq<byte> { LeBytes(32, k) }

  function FieldAt(data: seq<byte>, off: nat, n: nat): (b: seq<byte>)
    requires off + n <= |data|
    ensures |b| == n
  {
    data[off..off + n]
  }

  function U32At(data: seq<byte>, off: nat): u32
    requires off + 4 <= |data|
  {
    Fits4(FieldAt(data, off, 4));
    LeNat(FieldAt(data, off, 4))
  }

  function U64At(data: seq<byte>, off: nat): u64
    requires off + 8 <= |data|
  {
    Fits8(FieldAt(data, off, 8));
    LeNat(FieldAt(data, off, 8))
  }

  function I64At(data: seq<byte>, off: nat): i64
    requires off + 8 <= |data|
  {
    AsI64(U64At(data, off))
  }

  function PubkeyAt(data: seq<byte>, off: nat): Pubkey
    requires off + 32 <= |data|
  {
    Fits32(FieldAt(data, off, 32));
    LeNat(FieldAt(data, off, 32))
  }

  /** The number four bytes spell, the first one counting least. */
  function Spelled(b0: int, b1: int, b2: int, b3: int): int {
    b0 + 0x100 * b1 + 0x1_0000 * b2 + 0x100_0000 * b3
  }

  /** The first byte of a number is its lowest: each width is two halves of the one before. */
  lemma LittleEndian(data: seq<byte>, off: nat)
    ensures off + 4 <= |data| ==>
      U32At(data, off) == Spelled(data[off], data[off + 1], data[off + 2], data[off + 3])
    ensures off + 8 <= |data| ==> U64At(data, off) == U32At(data, off) + 0x1_0000_0000 * U32At(data, off + 4)
    ensures off + 32 <= |data| ==>
      PubkeyAt(data, off)
        == U64At(data, off) + 0x1_0000_0000_0000_0000 * U64At(data, off + 8)
           + 0x1_0000_0000_0000_0000_0000_0000_0000_0000 * LeNat(FieldAt(data, off + 16, 16))
  {
    if off + 4 <= |data| { FourBytes(FieldAt(data, off, 4)); }
    if off + 8 <= |data| { LeNatSplit(FieldAt(data, off, 8), 4, FieldAt(data, off, 4), FieldAt(data, off + 4, 4)); }
    if off + 32 <= |data| {
      LeNatSplit(FieldAt(data, off, 16), 8, FieldAt(data, off, 8), FieldAt(data, off + 8, 8));
      LeNatSplit(FieldAt(data, off, 32), 16, FieldAt(data, off, 16), FieldAt(data, off + 16, 16));
    }
  }

  lemma FourBytes(b: seq<byte>)
    requires |b| == 4
    ensures LeNat(b) == Spelled(b[0], b[1], b[2], b[3])
  {
    assert LeNat(b[1..]) == b[1] + 256 * LeNat(b[2..]) by { assert b[1..][1..] == b[2..]; }
    assert LeNat(b[2..]) == b[2] + 256 * LeNat(b[3..]) by { assert b[2..][1..] == b[3..]; }
    assert LeNat(b[3..]) == b[3] + 256 * LeNat(b[4..]) by { assert b[3..][1..] == b[4..]; }
  }

  lemma {:induction false} LeNatJoin(a: seq<byte>, b: seq<byte>)
    ensures LeNat(a + b) == LeNat(a) + Pow256(|a|) * LeNat(b)
  {
    if a == [] {
      assert a + b == b;
    } else {
      assert (a + b)[1..] == a[1..] + b;
      LeNatJoin(a[1..], b);
      calc {
        LeNat(a + b);
        a[0] + 256 * (LeNat(a[1..]) + Pow256(|a| - 1) * LeNat(b));
        a[0] + 256 * LeNat(a[1..]) + 256 * Pow256(|a| - 1) * LeNat(b);
      }
    }
  }

  lemma LeNatSplit(whole: seq<byte>, n: nat, low: seq<byte>, high: seq<byte>)
    requires n in {4, 8, 16} && |low| == n && whole == low + high
    ensures LeNat(whole) == LeNat(low)
      + (if n == 4 then 0x1_0000_0000 else if n == 8 then 0x1_0000_0000_0000_0000
         else 0x1_0000_0000_0000_0000_0000_0000_0000_0000) * LeNat(high)
  {
    LeNatJoin(low, high);
    Widths();
    Pow256Sum(8, 8);
  }

  function Zeroes(n: nat): (b: seq<byte>)
    ensures |b| == n
  {
    seq(n, _ => 0)
  }

  /** The buffer holds b at the offset. */
  predicate Holds(data: seq<byte>, off: nat, b: seq<byte>) {
    off + |b| <= |data| && data[off..off + |b|] == b
  }

  lemma ReadU32(data: seq<byte>, off: nat, v: u32)
    requires Holds(data, off, U32Bytes(v))
    ensures U32At(data, off) == v
  {
    Widths();
    LeNatOfBytes(4, v);
  }

  lemma ReadByte(data: seq<byte>, off: nat, b: byte)
    requires Holds(data, off, [b])
    ensures data[off] == b
  {
    assert data[off..off + 1][0] == data[off];
  }

  lemma ReadU64(data: seq<byte>, off: nat, v: u64)
    requires Holds(data, off, U64Bytes(v))
    ensures U64At(data, off) == v
  {
    Widths();
    LeNatOfBytes(8, v);
  }

  lemma ReadI64(data: seq<byte>, off: nat, v: i64)
    requires Holds(data, off, I64Bytes(v))
    ensures I64At(data, off) == v
  {
    ReadU64(data, off, AsU64(v));
  }

  lemma ReadPubkey(data: seq<byte>, off: nat, k: Pubkey)
    requires Holds(data, off, PubkeyBytes(k))
    ensures PubkeyAt(data, off) == k
  {
    Widths();
    LeNatOfBytes(32, k);
  }

  /** `data[off..off + b.len()].copy_from_slice(b)` */
  function Put(data: seq<byte>, off: nat, b: seq<byte>): (r: seq<byte>)
    requires off + |b| <= |data|
    ensures |r| == |data|
  {
    data[..off] + b + data[off + |b|..]
  }

  /** Two adjacent copies are one copy. */
  lemma PutAdjacent(data: seq<byte>, off: nat, a: seq<byte>, b: seq<byte>)
    requires off + |a| + |b| <= |data|
    ensures Put(Put(data, off, a), off + |a|, b) == Put(data, off, a + b)
  {
  }

  /** A later, longer copy hides an earlier one at the same place. */
  lemma PutOver(data: seq<byte>, off: nat, a: seq<byte>, b: seq<byte>)
    requires off + |a| <= |data| && |a| <= |b| && off + |b| <= |data|
    ensures Put(Put(data, off, a), off, b) == Put(data, off, b)
  {
  }

  lemma PutHolds(data: seq<byte>, off: nat, b: seq<byte>)
    requires off + |b| <= |data|
    ensures Holds(Put(data, off, b), off, b)
  {
  }

  /** A buffer that holds two fields in a row holds each of them. */
  lemma HoldsBoth(data: seq<byte>, off: nat, a: seq<byte>, b: seq<byte>)
    requires Holds(data, off, a + b)
    ensures Holds(data, off, a) && Holds(data, off + |a|, b)
  {
    var ab := data[off..off + |a + b|];
    assert ab[..|a|] == a && ab[|a|..] == b;
    assert ab[..|a|] == data[off..off + |a|] && ab[|a|..] == data[off + |a|..off + |a| + |b|];
  }

  lemma HoldsInSecond(a: seq<byte>, b: seq<byte>, m: nat, f: seq<byte>, off: nat)
    requires Holds(b, m, f) && off == |a| + m
    ensures Holds(a + b, off, f)
  {
  }

  lemma SliceOfFirst(a: seq<byte>, b: seq<byte>, m: nat, n: nat)
    requires m + n <= |a|
    ensures (a + b)[m..m + n] == a[m..m + n]
  {
  }

  method CopyInto(data: array<byte>, off: nat, b: seq<byte>)
    requires off + |b| <= data.Length
    modifies data
    ensures data[..] == Put(old(data[..]), off, b)
  {
    for i := 0 to |b|
      invariant forall j :: 0 <= j < data.Length ==>
        data[j] == if off <= j < off + i then b[j - off] else old(data[j])
    {
      data[off + i] := b[i];
    }
  }

  /** Copy the next field of a record that is being written front to back over clean. */
  method CopyNext(data: array<byte>, off: nat, b: seq<byte>, ghost clean: seq<byte>, ghost done: seq<byte>)
    requires off == |done| && off + |b| <= data.Length == |clean| && data[..] == Put(clean, 0, done)
    modifies data
    ensures data[..] == Put(clean, 0, done + b)
  {
    CopyInto(data, off, b);
    PutAdjacent(clean, 0, done, b);
  }
}
