/** The verdict of every lookup-table instruction, requirement by requirement in the order the
    source checks them, and the slice it leaves. */
module TableVerdicts {
  import opened Common
  import opened Bytes
  import opened Alt
  import opened AltProgram
  import opened Verdicts
  import AltHistory

  // --- the header ---------------------------------------------------------------------------------

  lemma TableLayout(data: seq<byte>)
    ensures ReadMeta(data).Some? <==> |data| >= 56 && U32At(data, 0) == 1
    ensures ReadMeta(data).Some? ==> var m := ReadMeta(data).value;
      && m.deactivationSlot == U64At(data, 4) && m.lastExtendedSlot == U64At(data, 12) && m.startIndex == data[20]
      && m.authority == if data[21] == 1 then Some(PubkeyAt(data, 22)) else None
  {
  }

  /** Addresses lie behind the header, 32 bytes each. */
  lemma AddressLayout(data: seq<byte>, i: nat)
    ensures ReadAddress(data, i).Some? <==> 56 + 32 * i + 32 <= |data|
    ensures ReadAddress(data, i).Some? ==> ReadAddress(data, i).value == PubkeyAt(data, 56 + 32 * i)
    ensures i < AddressCount(data) <==> ReadAddress(data, i).Some?
  {
  }

  /** A new header in front of the same or longer address bytes; the two padding bytes are zero. */
  ghost predicate Headed(data: seq<byte>, m: TableMeta, addresses: seq<byte>) {
    |data| == 56 + |addresses| && ReadMeta(data) == Some(m) && data[56..] == addresses
    && data[54] == 0 && data[55] == 0 && (m.authority.None? ==> forall i :: 21 <= i < 54 ==> data[i] == 0)
  }

  lemma WrittenIsHeaded(data: seq<byte>, m: TableMeta)
    requires |data| >= 56
    ensures Headed(WrittenMeta(data, m), m, data[56..])
  {
    ReadWrittenMeta(data, m);
    PutHolds(data, 0, MetaBytes(m));
    HeaderTail(m);
    HoldsBoth(WrittenMeta(data, m), 0, MetaBytes(m)[..21], AuthorityBytes(m.authority) + [0, 0]);
    TailIsClear(WrittenMeta(data, m), m.authority);
  }

  lemma HeaderTail(m: TableMeta)
    ensures MetaBytes(m) == MetaBytes(m)[..21] + (AuthorityBytes(m.authority) + [0, 0])
  {
    var head := U32Bytes(1) + U64Bytes(m.deactivationSlot) + U64Bytes(m.lastExtendedSlot) + [m.startIndex];
    assert MetaBytes(m) == head + AuthorityBytes(m.authority) + [0, 0];
    assert MetaBytes(m)[..21] == head;
  }

  lemma TailIsClear(out: seq<byte>, authority: Option<Pubkey>)
    requires Holds(out, 21, AuthorityBytes(authority) + [0, 0])
    ensures |out| >= 56 && out[54] == 0 && out[55] == 0
    ensures authority.None? ==> forall i :: 21 <= i < 54 ==> out[i] == 0
  {
    var tail := AuthorityBytes(authority) + [0, 0];
    assert forall i :: 21 <= i < 56 ==> out[i] == out[21..56][i - 21] == tail[i - 21];
  }

  function MetaIn(w: seq<Account>): Option<TableMeta> {
    ReadMeta(DataAt(w, 0))
  }

  /** The table is held by the second account. */
  predicate HeldBySecond(w: seq<Account>) {
    MetaIn(w).Some? && |w| > 1 && MetaIn(w).value.authority == Some(w[1].address)
  }

  predicate Active(w: seq<Account>) {
    MetaIn(w).Some? && MetaIn(w).value.deactivationSlot == 0xFFFF_FFFF_FFFF_FFFF
  }

  ghost predicate LeavesTable(w: seq<Account>, post: seq<Account>, m: TableMeta, addresses: seq<byte>) {
    Only(w, post, {0}) && |w| > 0 && post[0] == w[0].(data := post[0].data) && Headed(post[0].data, m, addresses)
  }

  // --- the handlers -------------------------------------------------------------------------------

  ghost predicate DerivedTable(ctx: Ctx, body: seq<byte>, w: seq<Account>) {
    |body| >= 9 && |w| >= 2 &&
    ctx.sysvars.oracles.createProgramAddress([PubkeyBytes(w[1].address), body[0..8], [body[8]]], ctx.programId)
      == Some(w[0].address)
  }

  lemma CreateTableVerdict(ctx: Ctx, body: seq<byte>, w: seq<Account>)
    ensures VerdictOf(CreateTable(ctx, body, w))
      == Pass.Then(|body| >= 9, BuiltinError).Then(|w| >= 4, AccountIndexOutOfBounds)
           .Then(Writes(ctx, w, 0), AccountNotWritable).Then(Signs(ctx, w, 1), AccountNotSigner)
           .Then(Signs(ctx, w, 2), AccountNotSigner).Then(Writes(ctx, w, 2), AccountNotWritable)
           .Then(DerivedTable(ctx, body, w), BuiltinError).Then(IsEmptyAt(w, 0), BuiltinError)
           .Then(Covers(w, 2, 1_281_360), InsufficientFunds)
  {
    Flags(ctx, w);
  }

  /** The payer loses the fixed rent, and the table starts active, without addresses, held by the
      second account. */
  lemma CreateTableLeaves(ctx: Ctx, body: seq<byte>, w: seq<Account>)
    requires CreateTable(ctx, body, w).Ok?
    ensures var post := CreateTable(ctx, body, w).value;
      && |w| >= 4 && w[2].lamports >= 1_281_360 && Only(w, post, {0, 2})
      && post[2] == w[2].(lamports := w[2].lamports - 1_281_360)
      && post[0] == Account(w[0].address, 1_281_360, post[0].data, ctx.programId, false, w[0].rentEpoch)
      && Headed(post[0].data, TableMeta(0xFFFF_FFFF_FFFF_FFFF, 0, 0, Some(w[1].address)), [])
  {
    AltHistory.CreateWrites(ctx, body, w);
    NewTableIsHeaded(w[1].address);
  }

  lemma NewTableIsHeaded(authority: Pubkey)
    ensures Headed(NewTable(authority), TableMeta(0xFFFF_FFFF_FFFF_FFFF, 0, 0, Some(authority)), [])
  {
    WrittenIsHeaded(Zeroes(56), NewMeta(authority));
    assert Zeroes(56)[56..] == [];
  }

  lemma FreezeTableVerdict(ctx: Ctx, w: seq<Account>)
    ensures VerdictOf(FreezeTable(ctx, w))
      == Pass.Then(|w| >= 2, AccountIndexOutOfBounds).Then(Writes(ctx, w, 0), AccountNotWritable)
           .Then(Signs(ctx, w, 1), AccountNotSigner).Then(HeldBySecond(w), BuiltinError)
    ensures FreezeTable(ctx, w).Ok? ==>
      LeavesTable(w, FreezeTable(ctx, w).value, MetaIn(w).value.(authority := None), w[0].data[56..])
  {
    Flags(ctx, w);
    if FreezeTable(ctx, w).Ok? { WrittenIsHeaded(w[0].data, MetaIn(w).value.(authority := None)); }
  }

  /** The keys an Extend packs are the bytes of its data. */
  lemma {:induction false} PackedSlice(body: seq<byte>, keys: seq<Pubkey>)
    requires |body| >= 8 + 32 * |keys| && forall i :: 0 <= i < |keys| ==> keys[i] == PubkeyAt(body, 8 + i * 32)
    ensures PackedKeys(keys) == body[8..8 + 32 * |keys|]
  {
    if keys != [] {
      var n := |keys| - 1;
      PackedSlice(body, keys[..n]);
      PackedNext(body, n, keys[n], PackedKeys(keys[..n]));
    }
  }

  lemma PackedNext(body: seq<byte>, n: nat, k: Pubkey, packed: seq<byte>)
    requires |body| >= 8 + 32 * n + 32 && packed == body[8..8 + 32 * n] && k == PubkeyAt(body, 8 + n * 32)
    ensures packed + PubkeyBytes(k) == body[8..8 + 32 * (n + 1)]
  {
    KeyBytesAt(body, 8 + n * 32);
    Adjacent(body, 8, 8 + 32 * n, 8 + 32 * (n + 1));
  }

  lemma KeyBytesAt(data: seq<byte>, off: nat)
    requires off + 32 <= |data|
    ensures PubkeyBytes(PubkeyAt(data, off)) == data[off..off + 32]
  {
    LeBytesOfNat(FieldAt(data, off, 32));
  }

  lemma Adjacent(data: seq<byte>, a: nat, b: nat, c: nat)
    requires a <= b <= c <= |data|
    ensures data[a..b] + data[b..c] == data[a..c]
  {
  }

  /** The announced number of addresses is there, and the table has room for them. */
  predicate Announced(body: seq<byte>) {
    |body| >= 8 && |body| >= 8 + 32 * U64At(body, 0)
  }

  predicate HasRoom(body: seq<byte>, w: seq<Account>) {
    |body| >= 8 && |DataAt(w, 0)| >= 56 && (|w[0].data| - 56) / 32 + U64At(body, 0) <= 256
  }

  lemma ExtendTableVerdict(ctx: Ctx, body: seq<byte>, w: seq<Account>)
    ensures VerdictOf(ExtendTable(ctx, body, w))
      == Pass.Then(|body| >= 8, BuiltinError).Then(Announced(body), BuiltinError)
           .Then(|w| >= 4, AccountIndexOutOfBounds).Then(Writes(ctx, w, 0), AccountNotWritable)
           .Then(Signs(ctx, w, 1), AccountNotSigner).Then(HeldBySecond(w), BuiltinError)
           .Then(Active(w), BuiltinError).Then(HasRoom(body, w), BuiltinError)
  {
    Flags(ctx, w);
  }

  /** The header an Extend leaves. */
  function Extended(w: seq<Account>, slot: u64): TableMeta
    requires MetaIn(w).Some? && |DataAt(w, 0)| >= 56
  {
    var before := (|w[0].data| - 56) / 32;
    MetaIn(w).value.(lastExtendedSlot := slot, startIndex := if before <= 255 then before else 255)
  }

  lemma ExtendPacks(body: seq<byte>)
    requires Announced(body)
    ensures PackedKeys(NewAddresses(body, U64At(body, 0))) == body[8..8 + 32 * Num(body, 0)]
  {
    PackedSlice(body, NewAddresses(body, U64At(body, 0)));
  }

  lemma ExtendTableWrites(ctx: Ctx, body: seq<byte>, w: seq<Account>)
    requires ExtendTable(ctx, body, w).Ok?
    ensures Announced(body) && MetaIn(w).Some? && |DataAt(w, 0)| >= 56
    ensures var packed := PackedKeys(NewAddresses(body, U64At(body, 0)));
      ExtendTable(ctx, body, w).value
        == w[0 := w[0].(data := WrittenMeta(w[0].data + packed, Extended(w, ctx.sysvars.clock.slot)))]
  {
  }

  lemma ExtendTableLeaves(ctx: Ctx, body: seq<byte>, w: seq<Account>)
    requires ExtendTable(ctx, body, w).Ok?
    ensures Announced(body) && MetaIn(w).Some? && |DataAt(w, 0)| >= 56
    ensures LeavesTable(w, ExtendTable(ctx, body, w).value, Extended(w, ctx.sysvars.clock.slot),
      w[0].data[56..] + body[8..8 + 32 * Num(body, 0)])
  {
    ExtendTableWrites(ctx, body, w);
    ExtendPacks(body);
    LeavesGrown(w, ExtendTable(ctx, body, w).value, body[8..8 + 32 * Num(body, 0)],
      Extended(w, ctx.sysvars.clock.slot));
  }

  lemma LeavesGrown(w: seq<Account>, post: seq<Account>, packed: seq<byte>, m: TableMeta)
    requires |w| > 0 && |w[0].data| >= 56 && post == w[0 := w[0].(data := WrittenMeta(w[0].data + packed, m))]
    ensures LeavesTable(w, post, m, w[0].data[56..] + packed)
  {
    GrownIsHeaded(w[0].data, packed, m);
  }

  lemma GrownIsHeaded(data: seq<byte>, packed: seq<byte>, m: TableMeta)
    requires |data| >= 56
    ensures Headed(WrittenMeta(data + packed, m), m, data[56..] + packed)
  {
    WrittenIsHeaded(data + packed, m);
    assert (data + packed)[56..] == data[56..] + packed;
  }

  lemma DeactivateTableVerdict(ctx: Ctx, w: seq<Account>)
    ensures VerdictOf(DeactivateTable(ctx, w))
      == Pass.Then(|w| >= 2, AccountIndexOutOfBounds).Then(Writes(ctx, w, 0), AccountNotWritable)
           .Then(Signs(ctx, w, 1), AccountNotSigner).Then(HeldBySecond(w), BuiltinError)
           .Then(Active(w), BuiltinError)
    ensures DeactivateTable(ctx, w).Ok? ==>
      LeavesTable(w, DeactivateTable(ctx, w).value, MetaIn(w).value.(deactivationSlot := ctx.sysvars.clock.slot),
        w[0].data[56..])
  {
    Flags(ctx, w);
    if DeactivateTable(ctx, w).Ok? {
      WrittenIsHeaded(w[0].data, MetaIn(w).value.(deactivationSlot := ctx.sysvars.clock.slot));
    }
  }

  /** More than 513 slots have passed since the deactivation. */
  predicate CooledDown(w: seq<Account>, slot: u64) {
    MetaIn(w).Some? && !Active(w) && slot > MetaIn(w).value.deactivationSlot + 513
  }

  lemma CloseTableVerdict(ctx: Ctx, w: seq<Account>)
    ensures VerdictOf(CloseTable(ctx, w))
      == Pass.Then(|w| >= 3, AccountIndexOutOfBounds).Then(Writes(ctx, w, 0), AccountNotWritable)
           .Then(Signs(ctx, w, 1), AccountNotSigner).Then(Writes(ctx, w, 2), AccountNotWritable)
           .Then(HeldBySecond(w), BuiltinError).Then(CooledDown(w, ctx.sysvars.clock.slot), BuiltinError)
  {
    Flags(ctx, w);
  }

  lemma CloseTableLeaves(ctx: Ctx, w: seq<Account>)
    requires CloseTable(ctx, w).Ok?
    ensures var post := CloseTable(ctx, w).value;
      && Only(w, post, {0, 2}) && |w| >= 3
      && post[0] == w[0].(lamports := 0, data := [], owner := 0)
      && post[2] == w[2].(lamports := Capped(w[2].lamports + w[0].lamports))
  {
  }

  lemma TagsSelect(ctx: Ctx, data: seq<byte>, w: seq<Account>)
    ensures |data| < 4 ==> Invoke(ctx, data, w) == Err(BuiltinError)
    ensures |data| >= 4 ==> var body := data[4..];
      match U32At(data, 0) {
        case 0 => Invoke(ctx, data, w) == CreateTable(ctx, body, w)
        case 1 => Invoke(ctx, data, w) == FreezeTable(ctx, w)
        case 2 => Invoke(ctx, data, w) == ExtendTable(ctx, body, w)
        case 3 => Invoke(ctx, data, w) == DeactivateTable(ctx, w)
        case 4 => Invoke(ctx, data, w) == CloseTable(ctx, w)
        case _ => Invoke(ctx, data, w) == Err(BuiltinError)
      }
  {
  }
}
