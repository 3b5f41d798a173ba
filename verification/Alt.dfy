/** Address lookup tables (src/alt.rs): a 56-byte header and packed 32-byte addresses. */
module Alt {
  import opened Common
  import opened Bytes

  const LOOKUP_TABLE_META_SIZE: nat := 56
  const LOOKUP_TABLE_MAX_ADDRESSES: nat := 256
  const DEACTIVATION_COOLDOWN_SLOTS: u64 := 513
  const LOOKUP_TABLE_DISCRIMINATOR: u32 := 1
  const ACTIVE_DEACTIVATION_SLOT: u64 := U64_MAX

  datatype TableMeta = TableMeta(
    deactivationSlot: u64,
    lastExtendedSlot: u64,
    startIndex: byte,
    authority: Option<Pubkey>)

  function NewMeta(authority: Pubkey): TableMeta {
    TableMeta(ACTIVE_DEACTIVATION_SLOT, 0, 0, Some(authority))
  }

  predicate IsDeactivated(m: TableMeta) {
    m.deactivationSlot != ACTIVE_DEACTIVATION_SLOT
  }

  predicate IsCloseable(m: TableMeta, slot: u64) {
    IsDeactivated(m) && SatSub(slot, m.deactivationSlot) > DEACTIVATION_COOLDOWN_SLOTS
  }

  function ReadMeta(data: seq<byte>): Option<TableMeta> {
    if |data| < LOOKUP_TABLE_META_SIZE then None
    else if U32At(data, 0) != LOOKUP_TABLE_DISCRIMINATOR then None
    else Some(TableMeta(
      U64At(data, 4), U64At(data, 12), data[20],
      if data[21] == 1 then Some(PubkeyAt(data, 22)) else None))
  }

  function AuthorityBytes(authority: Option<Pubkey>): (b: seq<byte>)
    ensures |b| == 33
  {
    match authority
    case Some(k) => [1] + PubkeyBytes(k)
    case None => [0] + Zeroes(32)
  }

  function MetaBytes(m: TableMeta): (b: seq<byte>)
    ensures |b| == LOOKUP_TABLE_META_SIZE
  {
    U32Bytes(LOOKUP_TABLE_DISCRIMINATOR) + U64Bytes(m.deactivationSlot) + U64Bytes(m.lastExtendedSlot)
    + [m.startIndex] + AuthorityBytes(m.authority) + [0, 0]
  }

  function WrittenMeta(data: seq<byte>, m: TableMeta): (r: seq<byte>)
    ensures |r| == |data|
  {
    if |data| < LOOKUP_TABLE_META_SIZE then data else Put(data, 0, MetaBytes(m))
  }

  method WriteMeta(data: array<byte>, m: TableMeta)
    modifies data
    ensures data[..] == WrittenMeta(old(data[..]), m)
  {
    if data.Length < LOOKUP_TABLE_META_SIZE {
      return;
    }
    ghost var clean := data[..];
    ghost var b1 := U32Bytes(LOOKUP_TABLE_DISCRIMINATOR);
    ghost var b2 := b1 + U64Bytes(m.deactivationSlot);
    ghost var b3 := b2 + U64Bytes(m.lastExtendedSlot);
    ghost var b4 := b3 + [m.startIndex];
    CopyInto(data, 0, U32Bytes(LOOKUP_TABLE_DISCRIMINATOR));
    CopyNext(data, 4, U64Bytes(m.deactivationSlot), clean, b1);
    CopyNext(data, 12, U64Bytes(m.lastExtendedSlot), clean, b2);
    CopyNext(data, 20, [m.startIndex], clean, b3);
    WriteAuthority(data, m.authority, clean, b4);
    CopyNext(data, 54, [0, 0], clean, b4 + AuthorityBytes(m.authority));
  }

  /** The option tag and the key, zeroed when there is none. */
  method WriteAuthority(data: array<byte>, authority: Option<Pubkey>, ghost clean: seq<byte>, ghost done: seq<byte>)
    requires |done| == 21 && LOOKUP_TABLE_META_SIZE <= data.Length == |clean| && data[..] == Put(clean, 0, done)
    modifies data
    ensures data[..] == Put(clean, 0, done + AuthorityBytes(authority))
  {
    match authority
    case Some(k) =>
      CopyNext(data, 21, [1], clean, done);
      CopyNext(data, 22, PubkeyBytes(k), clean, done + [1]);
      assert done + [1] + PubkeyBytes(k) == done + AuthorityBytes(authority);
    case None =>
      CopyNext(data, 21, [0], clean, done);
      CopyNext(data, 22, Zeroes(32), clean, done + [0]);
      assert done + [0] + Zeroes(32) == done + AuthorityBytes(authority);
  }

  /** A written header reads back whatever was there, and the addresses are untouched. */
  lemma ReadWrittenMeta(data: seq<byte>, m: TableMeta)
    requires LOOKUP_TABLE_META_SIZE <= |data|
    ensures ReadMeta(WrittenMeta(data, m)) == Some(m)
    ensures WrittenMeta(data, m)[LOOKUP_TABLE_META_SIZE..] == data[LOOKUP_TABLE_META_SIZE..]
  {
    var out := WrittenMeta(data, m);
    var b1 := U32Bytes(LOOKUP_TABLE_DISCRIMINATOR);
    var b2 := b1 + U64Bytes(m.deactivationSlot);
    var b3 := b2 + U64Bytes(m.lastExtendedSlot);
    var b4 := b3 + [m.startIndex];
    PutHolds(data, 0, MetaBytes(m));
    HoldsBoth(out, 0, b4 + AuthorityBytes(m.authority), [0, 0]);
    HoldsBoth(out, 0, b4, AuthorityBytes(m.authority));
    HoldsBoth(out, 0, b3, [m.startIndex]);
    HoldsBoth(out, 0, b2, U64Bytes(m.lastExtendedSlot));
    HoldsBoth(out, 0, b1, U64Bytes(m.deactivationSlot));
    ReadU32(out, 0, LOOKUP_TABLE_DISCRIMINATOR);
    ReadU64(out, 4, m.deactivationSlot);
    ReadU64(out, 12, m.lastExtendedSlot);
    ReadByte(out, 20, m.startIndex);
    ReadAuthority(out, m.authority);
  }

  lemma ReadAuthority(data: seq<byte>, authority: Option<Pubkey>)
    requires Holds(data, 21, AuthorityBytes(authority))
    ensures authority == if data[21] == 1 then Some(PubkeyAt(data, 22)) else None
  {
    match authority
    case Some(k) =>
      HoldsBoth(data, 21, [1], PubkeyBytes(k));
      ReadByte(data, 21, 1);
      ReadPubkey(data, 22, k);
    case None =>
      HoldsBoth(data, 21, [0], Zeroes(32));
      ReadByte(data, 21, 0);
  }

  function AddressCount(data: seq<byte>): nat {
    if |data| < LOOKUP_TABLE_META_SIZE then 0 else (|data| - LOOKUP_TABLE_META_SIZE) / 32
  }

  function ReadAddress(data: seq<byte>, index: nat): Option<Pubkey> {
    var off := LOOKUP_TABLE_META_SIZE + index * 32;
    if off + 32 > |data| then None else Some(PubkeyAt(data, off))
  }

  function PackedKeys(keys: seq<Pubkey>): (b: seq<byte>)
    ensures |b| == 32 * |keys|
  {
    if keys == [] then [] else PackedKeys(keys[..|keys| - 1]) + PubkeyBytes(keys[|keys| - 1])
  }

  /** `append_addresses`: all the addresses or, past the cap, none. */
  function Appended(data: seq<byte>, keys: seq<Pubkey>): Result<seq<byte>> {
    if AddressCount(data) + |keys| > LOOKUP_TABLE_MAX_ADDRESSES then Err(BuiltinError)
    else Ok(data + PackedKeys(keys))
  }

  /** The grown buffer and the new number of addresses. */
  method AppendAddresses(data: seq<byte>, keys: seq<Pubkey>) returns (total: Result<nat>, grown: seq<byte>)
    ensures total.Ok? <==> Appended(data, keys).Ok?
    ensures total.Ok? ==> Ok(grown) == Appended(data, keys) && total.value == AddressCount(data) + |keys|
    ensures total.Err? ==> grown == data && total.error == BuiltinError
  {
    var current := AddressCount(data);
    var sum := current + |keys|;
    grown := data;
    if sum > LOOKUP_TABLE_MAX_ADDRESSES {
      return Err(BuiltinError), grown;
    }
    assert data + [] == data;
    for i := 0 to |keys|
      invariant grown == data + PackedKeys(keys[..i])
    {
      assert keys[..i + 1][..i] == keys[..i];
      grown := grown + PubkeyBytes(keys[i]);
    }
    assert keys[..|keys|] == keys;
    total := Ok(sum);
  }

  lemma {:induction false} PackedKeyAt(keys: seq<Pubkey>, i: nat)
    requires i < |keys|
    ensures Holds(PackedKeys(keys), 32 * i, PubkeyBytes(keys[i]))
  {
    var n := |keys| - 1;
    if i < n {
      PackedKeyAt(keys[..n], i);
      SliceOfFirst(PackedKeys(keys[..n]), PubkeyBytes(keys[n]), 32 * i, 32);
    }
  }

  /** The bytes are the keys, one after the other. */
  ghost predicate Packs(packed: seq<byte>, keys: seq<Pubkey>) {
    && |packed| == 32 * |keys|
    && forall i :: 0 <= i < |keys| ==> Holds(packed, 32 * i, PubkeyBytes(keys[i]))
  }

  lemma PackedKeysPack(keys: seq<Pubkey>)
    ensures Packs(PackedKeys(keys), keys)
  {
    forall i | 0 <= i < |keys| ensures Holds(PackedKeys(keys), 32 * i, PubkeyBytes(keys[i])) {
      PackedKeyAt(keys, i);
    }
  }

  /** A header and count whole addresses, nothing else. */
  predicate Holding(data: seq<byte>, count: nat) {
    |data| == LOOKUP_TABLE_META_SIZE + 32 * count
  }

  lemma CountOf(data: seq<byte>, count: nat)
    requires Holding(data, count)
    ensures AddressCount(data) == count
    ensures forall i: nat :: ReadAddress(data, i).Some? <==> i < count
  {
  }

  lemma SameBytesRead(a: seq<byte>, b: seq<byte>, i: nat)
    requires var off := LOOKUP_TABLE_META_SIZE + i * 32;
      off + 32 <= |a| && off + 32 <= |b| && a[off..off + 32] == b[off..off + 32]
    ensures ReadAddress(a, i) == ReadAddress(b, i)
  {
  }

  /** Appending keeps every address readable at its index. */
  lemma AppendedKeeps(data: seq<byte>, count: nat, packed: seq<byte>, i: nat)
    requires Holding(data, count) && i < count
    ensures ReadAddress(data + packed, i) == ReadAddress(data, i)
  {
    SliceOfFirst(data, packed, LOOKUP_TABLE_META_SIZE + i * 32, 32);
    SameBytesRead(data + packed, data, i);
  }

  /** The new addresses follow in order. */
  lemma AppendedAdds(data: seq<byte>, count: nat, packed: seq<byte>, i: nat, k: Pubkey)
    requires Holding(data, count) && Holds(packed, 32 * i, PubkeyBytes(k))
    ensures ReadAddress(data + packed, count + i) == Some(k)
  {
    HoldsInSecond(data, packed, 32 * i, PubkeyBytes(k), LOOKUP_TABLE_META_SIZE + (count + i) * 32);
    ReadAddressAt(data + packed, count + i, k);
  }

  lemma ReadAddressAt(data: seq<byte>, i: nat, k: Pubkey)
    requires Holds(data, LOOKUP_TABLE_META_SIZE + i * 32, PubkeyBytes(k))
    ensures ReadAddress(data, i) == Some(k)
  {
    ReadPubkey(data, LOOKUP_TABLE_META_SIZE + i * 32, k);
  }

  /** The addresses at the given indexes, if every one of them is in the table. */
  function ReadAll(data: seq<byte>, indexes: seq<byte>): Option<seq<Pubkey>> {
    if indexes == [] then Some([])
    else
      var n := |indexes| - 1;
      var init, last := ReadAll(data, indexes[..n]), ReadAddress(data, indexes[n]);
      if init.Some? && last.Some? then Some(init.value + [last.value]) else None
  }

  datatype Resolution = Resolution(writable: seq<Pubkey>, readonly: seq<Pubkey>)

  /** `resolve_lookup`: writable addresses, then read-only ones; any index out of bounds
      fails the whole lookup. */
  function Lookups(data: seq<byte>, writable: seq<byte>, readonly: seq<byte>): Result<Resolution> {
    var w, r := ReadAll(data, writable), ReadAll(data, readonly);
    if w.Some? && r.Some? then Ok(Resolution(w.value, r.value)) else Err(BuiltinError)
  }

  lemma {:induction false} OneMissing(data: seq<byte>, indexes: seq<byte>, i: nat)
    requires i < |indexes| && ReadAddress(data, indexes[i]).None?
    ensures ReadAll(data, indexes).None?
  {
    if i < |indexes| - 1 { OneMissing(data, indexes[..|indexes| - 1], i); }
  }

  /** The keys are those at the indexes, in order. */
  ghost predicate KeysAt(data: seq<byte>, indexes: seq<byte>, keys: seq<Pubkey>) {
    && |keys| == |indexes|
    && forall i :: 0 <= i < |indexes| ==> ReadAddress(data, indexes[i]) == Some(keys[i])
  }

  ghost predicate AllPresent(data: seq<byte>, indexes: seq<byte>) {
    forall i :: 0 <= i < |indexes| ==> indexes[i] < AddressCount(data)
  }

  lemma {:induction false} ReadAllKeys(data: seq<byte>, indexes: seq<byte>)
    ensures ReadAll(data, indexes).Some? <==> AllPresent(data, indexes)
    ensures ReadAll(data, indexes).Some? ==> KeysAt(data, indexes, ReadAll(data, indexes).value)
  {
    if indexes != [] { ReadAllKeys(data, indexes[..|indexes| - 1]); }
  }

  /** A lookup succeeds exactly when the table has an address at every index of both lists; it
      then gives the writable ones and the read-only ones, each in the order of its indexes. */
  lemma LookupsIff(data: seq<byte>, writable: seq<byte>, readonly: seq<byte>)
    ensures var r := Lookups(data, writable, readonly);
      && (r.Ok? <==> AllPresent(data, writable) && AllPresent(data, readonly))
      && (r.Ok? ==> KeysAt(data, writable, r.value.writable) && KeysAt(data, readonly, r.value.readonly))
      && (r.Err? ==> r.error == BuiltinError)
  {
    ReadAllKeys(data, writable);
    ReadAllKeys(data, readonly);
  }

  /** One loop of `resolve_lookup`. */
  method ReadIndexes(data: seq<byte>, indexes: seq<byte>) returns (keys: Option<seq<Pubkey>>)
    ensures keys == ReadAll(data, indexes)
  {
    var out: seq<Pubkey> := [];
    for i := 0 to |indexes|
      invariant ReadAll(data, indexes[..i]) == Some(out)
    {
      assert indexes[..i + 1][..i] == indexes[..i];
      var key := ReadAddress(data, indexes[i]);
      if key.None? {
        OneMissing(data, indexes, i);
        return None;
      }
      out := out + [key.value];
    }
    assert indexes[..|indexes|] == indexes;
    keys := Some(out);
  }

  method ResolveLookup(data: seq<byte>, writable: seq<byte>, readonly: seq<byte>) returns (r: Result<Resolution>)
    ensures r == Lookups(data, writable, readonly)
    ensures r.Ok? <==> AllPresent(data, writable) && AllPresent(data, readonly)
    ensures r.Ok? ==> KeysAt(data, writable, r.value.writable) && KeysAt(data, readonly, r.value.readonly)
  {
    LookupsIff(data, writable, readonly);
    var w := ReadIndexes(data, writable);
    if w.None? {
      return Err(BuiltinError);
    }
    var ro := ReadIndexes(data, readonly);
    if ro.None? {
      return Err(BuiltinError);
    }
    r := Ok(Resolution(w.value, ro.value));
  }
}
