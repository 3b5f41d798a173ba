/** The lookup-table program (src/spl/alt_program.rs): what its five instructions compute. */
module AltProgram {
  import opened Common
  import opened Bytes
  import opened Alt

  const ALT_INSTRUCTION_CU: u64 := 750
  const INITIAL_LAMPORTS: u64 := 1_281_360

  /** The header of a table its authority, w[1], may change. */
  function OwnMeta(w: seq<Account>): Result<TableMeta>
    requires |w| >= 2
  {
    var meta := ReadMeta(w[0].data);
    :- Need(meta.Some? && meta.value.authority == Some(w[1].address), BuiltinError);
    Ok(meta.value)
  }

  /** The bytes of a table without addresses. */
  function NewTable(authority: Pubkey): seq<byte> {
    WrittenMeta(Zeroes(LOOKUP_TABLE_META_SIZE), NewMeta(authority))
  }

  /** The payer funds the new table. */
  function Created(programId: Pubkey, w: seq<Account>): seq<Account>
    requires |w| >= 4 && w[2].lamports >= INITIAL_LAMPORTS
  {
    var table := w[0].(
      lamports := INITIAL_LAMPORTS, data := NewTable(w[1].address), owner := programId, executable := false);
    w[2 := w[2].(lamports := w[2].lamports - INITIAL_LAMPORTS)][0 := table]
  }

  function CreateTable(ctx: Ctx, body: seq<byte>, w: seq<Account>): Result<seq<Account>> {
    if |body| < 9 then Err(BuiltinError) else
    :- HasAccounts(w, 4);
    :- RequireWritable(ctx, w[0].address);
    :- RequireSigner(ctx, w[1].address);
    :- RequireSigner(ctx, w[2].address);
    :- RequireWritable(ctx, w[2].address);
    var seeds := [PubkeyBytes(w[1].address), FieldAt(body, 0, 8), [body[8]]];
    :- Need(ctx.sysvars.oracles.createProgramAddress(seeds, ctx.programId) == Some(w[0].address), BuiltinError);
    :- Need(w[0].data == [] && w[0].lamports == 0, BuiltinError);
    :- Need(w[2].lamports >= INITIAL_LAMPORTS, InsufficientFunds);
    Ok(Created(ctx.programId, w))
  }

  function FreezeTable(ctx: Ctx, w: seq<Account>): Result<seq<Account>> {
    if |w| < 2 then Err(AccountIndexOutOfBounds) else
    :- RequireWritable(ctx, w[0].address);
    :- RequireSigner(ctx, w[1].address);
    var meta :- OwnMeta(w);
    Ok(w[0 := w[0].(data := WrittenMeta(w[0].data, meta.(authority := None)))])
  }

  function NewAddresses(body: seq<byte>, count: nat): (keys: seq<Pubkey>)
    requires 8 + count * 32 <= |body|
    ensures |keys| == count
  {
    seq(count, i requires 0 <= i < count => PubkeyAt(body, 8 + i * 32))
  }

  function ExtendTable(ctx: Ctx, body: seq<byte>, w: seq<Account>): Result<seq<Account>> {
    if |body| < 8 then Err(BuiltinError) else
    var count: nat := U64At(body, 0);
    :- Need(|body| >= 8 + count * 32, BuiltinError);
    :- HasAccounts(w, 4);
    :- RequireWritable(ctx, w[0].address);
    :- RequireSigner(ctx, w[1].address);
    var meta :- OwnMeta(w);
    :- Need(!IsDeactivated(meta), BuiltinError);
    var before := AddressCount(w[0].data);
    var grown :- Appended(w[0].data, NewAddresses(body, count));
    var next := meta.(
      lastExtendedSlot := ctx.sysvars.clock.slot,
      startIndex := if before < 255 then before else 255);
    Ok(w[0 := w[0].(data := WrittenMeta(grown, next))])
  }

  function DeactivateTable(ctx: Ctx, w: seq<Account>): Result<seq<Account>> {
    if |w| < 2 then Err(AccountIndexOutOfBounds) else
    :- RequireWritable(ctx, w[0].address);
    :- RequireSigner(ctx, w[1].address);
    var meta :- OwnMeta(w);
    :- Need(!IsDeactivated(meta), BuiltinError);
    Ok(w[0 := w[0].(data := WrittenMeta(w[0].data, meta.(deactivationSlot := ctx.sysvars.clock.slot)))])
  }

  function CloseTable(ctx: Ctx, w: seq<Account>): Result<seq<Account>> {
    if |w| < 3 then Err(AccountIndexOutOfBounds) else
    :- RequireWritable(ctx, w[0].address);
    :- RequireSigner(ctx, w[1].address);
    :- RequireWritable(ctx, w[2].address);
    var meta :- OwnMeta(w);
    :- Need(IsCloseable(meta, ctx.sysvars.clock.slot), BuiltinError);
    var recipient := w[2].(lamports := SatAdd(w[2].lamports, w[0].lamports));
    Ok(w[2 := recipient][0 := w[0].(lamports := 0, data := [], owner := SYSTEM_ID)])
  }

  function Invoke(ctx: Ctx, data: seq<byte>, w: seq<Account>): Result<seq<Account>> {
    if |data| < 4 then Err(BuiltinError)
    else
      var tag, body := U32At(data, 0), data[4..];
      if tag == 0 then CreateTable(ctx, body, w)
      else if tag == 1 then FreezeTable(ctx, w)
      else if tag == 2 then ExtendTable(ctx, body, w)
      else if tag == 3 then DeactivateTable(ctx, w)
      else if tag == 4 then CloseTable(ctx, w)
      else Err(BuiltinError)
  }

  function AltProgramSimulator(): Program {
    FixedCost(ALT_INSTRUCTION_CU, Invoke)
  }
}

/** The same five handlers as the source runs them, on a mutable slice. */
module AltHandlers {
  import opened Common
  import opened Bytes
  import opened Alt
  import P = AltProgram

  method CreateTable(ctx: Ctx, body: seq<byte>, w: array<Account>) returns (err: Option<Error>)
    modifies w
    ensures Matches(P.CreateTable(ctx, body, old(w[..])), err, old(w[..]), w[..])
  {
    if |body| < 9 { return Some(BuiltinError); }
    var recentSlot, bump := FieldAt(body, 0, 8), body[8];
    if w.Length < 4 { return Some(AccountIndexOutOfBounds); }
    var table, authority, payer := w[0].address, w[1].address, w[2].address;
    if !IsWritable(ctx, table) { return Some(AccountNotWritable); }
    if !IsSigner(ctx, authority) { return Some(AccountNotSigner); }
    if !IsSigner(ctx, payer) { return Some(AccountNotSigner); }
    if !IsWritable(ctx, payer) { return Some(AccountNotWritable); }
    var seeds := [PubkeyBytes(authority), recentSlot, [bump]];
    var derived := ctx.sysvars.oracles.createProgramAddress(seeds, ctx.programId);
    if derived.None? { return Some(BuiltinError); }
    if derived.value != table { return Some(BuiltinError); }
    if w[0].data != [] || w[0].lamports != 0 { return Some(BuiltinError); }
    if w[2].lamports < P.INITIAL_LAMPORTS { return Some(InsufficientFunds); }
    SetUpTable(ctx.programId, w);
    err := None;
  }

  /** The payer in slot 2 funds the table in slot 0, which gets a fresh header. */
  method SetUpTable(programId: Pubkey, w: array<Account>)
    requires w.Length >= 4 && w[2].lamports >= P.INITIAL_LAMPORTS
    modifies w
    ensures w[..] == P.Created(programId, old(w[..]))
  {
    var authority := w[1].address;
    w[2] := w[2].(lamports := w[2].lamports - P.INITIAL_LAMPORTS);
    w[0] := w[0].(lamports := P.INITIAL_LAMPORTS);
    w[0] := w[0].(data := Zeroes(LOOKUP_TABLE_META_SIZE));
    w[0] := w[0].(owner := programId);
    w[0] := w[0].(executable := false);
    w[0] := w[0].(data := WrittenMeta(w[0].data, NewMeta(authority)));
  }

  /** The header of the table in slot 0, if the signer in slot 1 is its authority. */
  method ReadOwnMeta(w: array<Account>) returns (meta: Result<TableMeta>)
    requires w.Length >= 2
    ensures meta == P.OwnMeta(w[..])
  {
    var read := ReadMeta(w[0].data);
    if read.None? { return Err(BuiltinError); }
    match read.value.authority {
      case Some(stored) => if stored != w[1].address { return Err(BuiltinError); }
      case None => return Err(BuiltinError);
    }
    meta := Ok(read.value);
  }

  method FreezeTable(ctx: Ctx, w: array<Account>) returns (err: Option<Error>)
    modifies w
    ensures Matches(P.FreezeTable(ctx, old(w[..])), err, old(w[..]), w[..])
  {
    if w.Length < 2 { return Some(AccountIndexOutOfBounds); }
    if !IsWritable(ctx, w[0].address) { return Some(AccountNotWritable); }
    if !IsSigner(ctx, w[1].address) { return Some(AccountNotSigner); }
    var read := ReadOwnMeta(w);
    if read.Err? { return Some(read.error); }
    var meta := read.value;
    meta := meta.(authority := None);
    w[0] := w[0].(data := WrittenMeta(w[0].data, meta));
    err := None;
  }

  method ExtendTable(ctx: Ctx, body: seq<byte>, w: array<Account>) returns (err: Option<Error>)
    modifies w
    ensures Matches(P.ExtendTable(ctx, body, old(w[..])), err, old(w[..]), w[..])
  {
    if |body| < 8 { return Some(BuiltinError); }
    var count: nat := U64At(body, 0);
    if |body| < 8 + count * 32 { return Some(BuiltinError); }
    var keys: seq<Pubkey> := [];
    for i := 0 to count
      invariant |keys| == i && forall j :: 0 <= j < i ==> keys[j] == PubkeyAt(body, 8 + j * 32)
    {
      keys := keys + [PubkeyAt(body, 8 + i * 32)];
    }
    assert keys == P.NewAddresses(body, count);
    if w.Length < 4 { return Some(AccountIndexOutOfBounds); }
    if !IsWritable(ctx, w[0].address) { return Some(AccountNotWritable); }
    if !IsSigner(ctx, w[1].address) { return Some(AccountNotSigner); }
    var read := ReadOwnMeta(w);
    if read.Err? { return Some(read.error); }
    var meta := read.value;
    if IsDeactivated(meta) { return Some(BuiltinError); }
    var before := AddressCount(w[0].data);
    var total, grown := AppendAddresses(w[0].data, keys);
    w[0] := w[0].(data := grown);
    if total.Err? { return Some(total.error); }
    meta := meta.(lastExtendedSlot := ctx.sysvars.clock.slot);
    meta := meta.(startIndex := if before < 255 then before else 255);
    w[0] := w[0].(data := WrittenMeta(w[0].data, meta));
    err := None;
  }

  method DeactivateTable(ctx: Ctx, w: array<Account>) returns (err: Option<Error>)
    modifies w
    ensures Matches(P.DeactivateTable(ctx, old(w[..])), err, old(w[..]), w[..])
  {
    if w.Length < 2 { return Some(AccountIndexOutOfBounds); }
    if !IsWritable(ctx, w[0].address) { return Some(AccountNotWritable); }
    if !IsSigner(ctx, w[1].address) { return Some(AccountNotSigner); }
    var read := ReadOwnMeta(w);
    if read.Err? { return Some(read.error); }
    var meta := read.value;
    if IsDeactivated(meta) { return Some(BuiltinError); }
    meta := meta.(deactivationSlot := ctx.sysvars.clock.slot);
    w[0] := w[0].(data := WrittenMeta(w[0].data, meta));
    err := None;
  }

  method CloseTable(ctx: Ctx, w: array<Account>) returns (err: Option<Error>)
    modifies w
    ensures Matches(P.CloseTable(ctx, old(w[..])), err, old(w[..]), w[..])
  {
    if w.Length < 3 { return Some(AccountIndexOutOfBounds); }
    if !IsWritable(ctx, w[0].address) { return Some(AccountNotWritable); }
    if !IsSigner(ctx, w[1].address) { return Some(AccountNotSigner); }
    if !IsWritable(ctx, w[2].address) { return Some(AccountNotWritable); }
    var read := ReadOwnMeta(w);
    if read.Err? { return Some(read.error); }
    if !IsCloseable(read.value, ctx.sysvars.clock.slot) { return Some(BuiltinError); }
    var lamports := w[0].lamports;
    w[2] := w[2].(lamports := SatAdd(w[2].lamports, lamports));
    w[0] := w[0].(lamports := 0);
    w[0] := w[0].(data := []);
    w[0] := w[0].(owner := SYSTEM_ID);
    err := None;
  }

  /** `invoke`: the tag picks the handler. */
  method Invoke(ctx: Ctx, data: seq<byte>, w: array<Account>) returns (err: Option<Error>)
    modifies w
    ensures Matches(P.Invoke(ctx, data, old(w[..])), err, old(w[..]), w[..])
  {
    if |data| < 4 { return Some(BuiltinError); }
    var tag, body := U32At(data, 0), data[4..];
    match tag {
      case 0 => err := CreateTable(ctx, body, w);
      case 1 => err := FreezeTable(ctx, w);
      case 2 => err := ExtendTable(ctx, body, w);
      case 3 => err := DeactivateTable(ctx, w);
      case 4 => err := CloseTable(ctx, w);
      case _ => err := Some(BuiltinError);
    }
  }
}
