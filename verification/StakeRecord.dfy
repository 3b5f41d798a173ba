/** The 200-byte stake record (src/spl/stake_program.rs). */
module StakeRecord {
  import opened Common
  import opened Bytes

  const STAKE_ACCOUNT_SIZE: nat := 200

  datatype StakeMeta = StakeMeta(
    reserve: u64,
    staker: Pubkey,
    withdrawer: Pubkey,
    lockupTime: i64,
    lockupEpoch: u64,
    custodian: Pubkey)

  /** The f64 warm-up rate is carried as its eight bytes; nothing computes with it. */
  type Rate = b: seq<byte> | |b| == 8 witness [0, 0, 0, 0, 0, 0, 0xD0, 0x3F]

  /** 0.25 */
  const QUARTER: Rate := [0, 0, 0, 0, 0, 0, 0xD0, 0x3F]

  datatype Delegation = Delegation(
    voter: Pubkey,
    stake: u64,
    activationEpoch: u64,
    deactivationEpoch: u64,
    rate: Rate)

  datatype StakeState =
    | Uninitialized
    | Initialized(meta: StakeMeta)
    | Delegated(meta: StakeMeta, delegation: Delegation, credits: u64)

  function Discriminator(data: seq<byte>): u32 {
    if |data| < 4 then 0 else U32At(data, 0)
  }

  function ReadMeta(data: seq<byte>): StakeMeta
    requires STAKE_ACCOUNT_SIZE <= |data|
  {
    StakeMeta(
      U64At(data, 4), PubkeyAt(data, 12), PubkeyAt(data, 44),
      I64At(data, 76), U64At(data, 84), PubkeyAt(data, 92))
  }

  function ReadDelegation(data: seq<byte>): Delegation
    requires STAKE_ACCOUNT_SIZE <= |data|
  {
    Delegation(
      PubkeyAt(data, 124), U64At(data, 156), U64At(data, 164), U64At(data, 172), FieldAt(data, 180, 8))
  }

  /** `read_state` */
  function ReadState(data: seq<byte>): Result<StakeState> {
    if |data| < STAKE_ACCOUNT_SIZE then Err(BuiltinError)
    else match Discriminator(data)
      case 0 => Ok(Uninitialized)
      case 1 => Ok(Initialized(ReadMeta(data)))
      case 2 => Ok(Delegated(ReadMeta(data), ReadDelegation(data), U64At(data, 188)))
      case _ => Err(BuiltinError)
  }

  function MetaBytes(m: StakeMeta): (b: seq<byte>)
    ensures |b| == 120
  {
    U64Bytes(m.reserve) + PubkeyBytes(m.staker) + PubkeyBytes(m.withdrawer)
    + I64Bytes(m.lockupTime) + U64Bytes(m.lockupEpoch) + PubkeyBytes(m.custodian)
  }

  function DelegationBytes(d: Delegation): (b: seq<byte>)
    ensures |b| == 64
  {
    PubkeyBytes(d.voter) + U64Bytes(d.stake) + U64Bytes(d.activationEpoch)
    + U64Bytes(d.deactivationEpoch) + d.rate
  }

  function RecordBytes(s: StakeState): (b: seq<byte>)
    ensures |b| <= 196
  {
    match s
    case Uninitialized => []
    case Initialized(m) => U32Bytes(1) + MetaBytes(m)
    case Delegated(m, d, credits) => U32Bytes(2) + MetaBytes(m) + DelegationBytes(d) + U64Bytes(credits)
  }

  /** `write_state`: zero the record, then copy its fields in. */
  function Written(data: seq<byte>, s: StakeState): seq<byte>
    requires STAKE_ACCOUNT_SIZE <= |data|
  {
    Put(Put(data, 0, Zeroes(STAKE_ACCOUNT_SIZE)), 0, RecordBytes(s))
  }

  /** `write_state` in place: every byte of the buffer is accounted for. */
  method WriteState(data: array<byte>, s: StakeState)
    requires STAKE_ACCOUNT_SIZE <= data.Length
    modifies data
    ensures data[..] == Written(old(data[..]), s)
  {
    ghost var clean := Put(data[..], 0, Zeroes(STAKE_ACCOUNT_SIZE));
    for i := 0 to STAKE_ACCOUNT_SIZE
      invariant forall j :: 0 <= j < data.Length ==> data[j] == if j < i then 0 else old(data[j])
    {
      data[i] := 0;
    }
    assert data[..] == clean;
    match s
    case Uninitialized =>
      assert Put(clean, 0, []) == clean;
    case Initialized(m) =>
      CopyInto(data, 0, U32Bytes(1));
      WriteMeta(data, clean, U32Bytes(1), m);
    case Delegated(m, d, credits) =>
      CopyInto(data, 0, U32Bytes(2));
      WriteMeta(data, clean, U32Bytes(2), m);
      WriteDelegation(data, clean, U32Bytes(2) + MetaBytes(m), d);
      CopyNext(data, 188, U64Bytes(credits), clean, U32Bytes(2) + MetaBytes(m) + DelegationBytes(d));
  }

  /** `write_meta`, after the discriminator is in place. */
  method WriteMeta(data: array<byte>, ghost clean: seq<byte>, ghost head: seq<byte>, m: StakeMeta)
    requires STAKE_ACCOUNT_SIZE <= data.Length == |clean| && |head| == 4 && data[..] == Put(clean, 0, head)
    modifies data
    ensures data[..] == Put(clean, 0, head + MetaBytes(m))
  {
    ghost var b1 := head + U64Bytes(m.reserve);
    ghost var b2 := b1 + PubkeyBytes(m.staker);
    ghost var b3 := b2 + PubkeyBytes(m.withdrawer);
    ghost var b4 := b3 + I64Bytes(m.lockupTime);
    ghost var b5 := b4 + U64Bytes(m.lockupEpoch);
    CopyNext(data, 4, U64Bytes(m.reserve), clean, head);
    CopyNext(data, 12, PubkeyBytes(m.staker), clean, b1);
    CopyNext(data, 44, PubkeyBytes(m.withdrawer), clean, b2);
    CopyNext(data, 76, I64Bytes(m.lockupTime), clean, b3);
    CopyNext(data, 84, U64Bytes(m.lockupEpoch), clean, b4);
    CopyNext(data, 92, PubkeyBytes(m.custodian), clean, b5);
    assert b5 + PubkeyBytes(m.custodian) == head + MetaBytes(m);
  }

  method WriteDelegation(data: array<byte>, ghost clean: seq<byte>, ghost head: seq<byte>, d: Delegation)
    requires STAKE_ACCOUNT_SIZE <= data.Length == |clean| && |head| == 124 && data[..] == Put(clean, 0, head)
    modifies data
    ensures data[..] == Put(clean, 0, head + DelegationBytes(d))
  {
    ghost var b1 := head + PubkeyBytes(d.voter);
    ghost var b2 := b1 + U64Bytes(d.stake);
    ghost var b3 := b2 + U64Bytes(d.activationEpoch);
    ghost var b4 := b3 + U64Bytes(d.deactivationEpoch);
    CopyNext(data, 124, PubkeyBytes(d.voter), clean, head);
    CopyNext(data, 156, U64Bytes(d.stake), clean, b1);
    CopyNext(data, 164, U64Bytes(d.activationEpoch), clean, b2);
    CopyNext(data, 172, U64Bytes(d.deactivationEpoch), clean, b3);
    CopyNext(data, 180, d.rate, clean, b4);
    assert b4 + d.rate == head + DelegationBytes(d);
  }

  // --- the codec is a round trip ------------------------------------------------------------

  lemma ReadMetaBytes(data: seq<byte>, m: StakeMeta)
    requires STAKE_ACCOUNT_SIZE <= |data| && Holds(data, 4, MetaBytes(m))
    ensures ReadMeta(data) == m
  {
    var b1 := U64Bytes(m.reserve);
    var b2 := b1 + PubkeyBytes(m.staker);
    var b3 := b2 + PubkeyBytes(m.withdrawer);
    var b4 := b3 + I64Bytes(m.lockupTime);
    var b5 := b4 + U64Bytes(m.lockupEpoch);
    HoldsBoth(data, 4, b5, PubkeyBytes(m.custodian));
    HoldsBoth(data, 4, b4, U64Bytes(m.lockupEpoch));
    HoldsBoth(data, 4, b3, I64Bytes(m.lockupTime));
    HoldsBoth(data, 4, b2, PubkeyBytes(m.withdrawer));
    HoldsBoth(data, 4, b1, PubkeyBytes(m.staker));
    ReadU64(data, 4, m.reserve);
    ReadPubkey(data, 12, m.staker);
    ReadPubkey(data, 44, m.withdrawer);
    ReadI64(data, 76, m.lockupTime);
    ReadU64(data, 84, m.lockupEpoch);
    ReadPubkey(data, 92, m.custodian);
  }

  lemma ReadDelegationBytes(data: seq<byte>, d: Delegation)
    requires STAKE_ACCOUNT_SIZE <= |data| && Holds(data, 124, DelegationBytes(d))
    ensures ReadDelegation(data) == d
  {
    var b1 := PubkeyBytes(d.voter);
    var b2 := b1 + U64Bytes(d.stake);
    var b3 := b2 + U64Bytes(d.activationEpoch);
    var b4 := b3 + U64Bytes(d.deactivationEpoch);
    HoldsBoth(data, 124, b4, d.rate);
    HoldsBoth(data, 124, b3, U64Bytes(d.deactivationEpoch));
    HoldsBoth(data, 124, b2, U64Bytes(d.activationEpoch));
    HoldsBoth(data, 124, b1, U64Bytes(d.stake));
    ReadPubkey(data, 124, d.voter);
    ReadU64(data, 156, d.stake);
    ReadU64(data, 164, d.activationEpoch);
    ReadU64(data, 172, d.deactivationEpoch);
  }

  lemma DiscriminatorRead(data: seq<byte>, tag: u32)
    requires STAKE_ACCOUNT_SIZE <= |data| && Holds(data, 0, U32Bytes(tag))
    ensures Discriminator(data) == tag
  {
    ReadU32(data, 0, tag);
  }

  /** A buffer that starts with a record reads as that record. */
  lemma ReadRecord(data: seq<byte>, s: StakeState)
    requires STAKE_ACCOUNT_SIZE <= |data| && Holds(data, 0, RecordBytes(s)) && !s.Uninitialized?
    ensures ReadState(data) == Ok(s)
  {
    match s
    case Initialized(m) =>
      HoldsBoth(data, 0, U32Bytes(1), MetaBytes(m));
      DiscriminatorRead(data, 1);
      ReadMetaBytes(data, m);
    case Delegated(m, d, credits) =>
      var b1 := U32Bytes(2) + MetaBytes(m);
      HoldsBoth(data, 0, b1 + DelegationBytes(d), U64Bytes(credits));
      HoldsBoth(data, 0, b1, DelegationBytes(d));
      HoldsBoth(data, 0, U32Bytes(2), MetaBytes(m));
      DiscriminatorRead(data, 2);
      ReadMetaBytes(data, m);
      ReadDelegationBytes(data, d);
      ReadU64(data, 188, credits);
  }

  /** Reading back what was written gives the state, whatever the buffer held before. */
  lemma ReadWritten(data: seq<byte>, s: StakeState)
    requires STAKE_ACCOUNT_SIZE <= |data|
    ensures ReadState(Written(data, s)) == Ok(s)
  {
    PutHolds(Put(data, 0, Zeroes(STAKE_ACCOUNT_SIZE)), 0, RecordBytes(s));
    if s.Uninitialized? {
      ClearReads(data);
    } else {
      ReadRecord(Written(data, s), s);
    }
  }

  lemma ClearReads(data: seq<byte>)
    requires STAKE_ACCOUNT_SIZE <= |data|
    ensures ReadState(Written(data, Uninitialized)) == Ok(Uninitialized)
  {
    var z := Zeroes(STAKE_ACCOUNT_SIZE);
    assert Written(data, Uninitialized) == Put(data, 0, z);
    assert U32Bytes(0) == [0, 0, 0, 0] == z[..4];
    DiscriminatorRead(Put(data, 0, z), 0);
  }

  /** Nothing of an earlier record survives a later one, and the bytes past the record are
      never touched. */
  lemma WrittenTwice(data: seq<byte>, s1: StakeState, s2: StakeState)
    requires STAKE_ACCOUNT_SIZE <= |data|
    ensures |Written(data, s1)| == |data|
    ensures Written(data, s1)[STAKE_ACCOUNT_SIZE..] == data[STAKE_ACCOUNT_SIZE..]
    ensures Written(Written(data, s1), s2) == Written(data, s2)
  {
    var z := Zeroes(STAKE_ACCOUNT_SIZE);
    PutCovers(data, z, RecordBytes(s1));
  }

  lemma PutCovers(data: seq<byte>, z: seq<byte>, r: seq<byte>)
    requires |r| <= |z| <= |data|
    ensures Put(Put(Put(data, 0, z), 0, r), 0, z) == Put(data, 0, z)
    ensures Put(Put(data, 0, z), 0, r)[|z|..] == data[|z|..]
  {
  }
}
