/** The 80-byte nonce record (src/system_program.rs). */
module NonceRecord {
  import opened Common
  import opened Bytes

  const NONCE_STATE_BYTES: nat := 80
  const NONCE_DEFAULT_FEE: u64 := 5_000

  /** The durable nonce is a 32-byte hash, kept as a number like a public key. */
  datatype Nonce = Nonce(initialized: bool, authority: Pubkey, durable: Pubkey, fee: u64)

  function ReadNonce(data: seq<byte>): Result<Nonce> {
    if |data| < NONCE_STATE_BYTES then Err(BuiltinError)
    else Ok(Nonce(U32At(data, 4) == 1, PubkeyAt(data, 8), PubkeyAt(data, 40), U64At(data, 72)))
  }

  function NonceBytes(n: Nonce): (b: seq<byte>)
    ensures |b| == NONCE_STATE_BYTES
  {
    U32Bytes(1) + U32Bytes(if n.initialized then 1 else 0)
    + PubkeyBytes(n.authority) + PubkeyBytes(n.durable) + U64Bytes(n.fee)
  }

  function WrittenNonce(data: seq<byte>, n: Nonce): (r: seq<byte>)
    ensures |r| == |data|
  {
    if |data| < NONCE_STATE_BYTES then data else Put(data, 0, NonceBytes(n))
  }

  method WriteNonce(data: array<byte>, n: Nonce)
    modifies data
    ensures data[..] == WrittenNonce(old(data[..]), n)
  {
    if data.Length < NONCE_STATE_BYTES {
      return;
    }
    ghost var clean := data[..];
    ghost var b1 := U32Bytes(1);
    ghost var b2 := b1 + U32Bytes(if n.initialized then 1 else 0);
    ghost var b3 := b2 + PubkeyBytes(n.authority);
    ghost var b4 := b3 + PubkeyBytes(n.durable);
    CopyInto(data, 0, U32Bytes(1));
    CopyNext(data, 4, U32Bytes(if n.initialized then 1 else 0), clean, b1);
    CopyNext(data, 8, PubkeyBytes(n.authority), clean, b2);
    CopyNext(data, 40, PubkeyBytes(n.durable), clean, b3);
    CopyNext(data, 72, U64Bytes(n.fee), clean, b4);
  }

  /** A written nonce reads back, and the bytes past the record are untouched. */
  lemma ReadWrittenNonce(data: seq<byte>, n: Nonce)
    requires NONCE_STATE_BYTES <= |data|
    ensures ReadNonce(WrittenNonce(data, n)) == Ok(n) && U32At(WrittenNonce(data, n), 0) == 1
    ensures WrittenNonce(data, n)[NONCE_STATE_BYTES..] == data[NONCE_STATE_BYTES..]
  {
    var out, flag := WrittenNonce(data, n), if n.initialized then 1 else 0;
    var b1 := U32Bytes(1);
    var b2 := b1 + U32Bytes(flag);
    var b3 := b2 + PubkeyBytes(n.authority);
    var b4 := b3 + PubkeyBytes(n.durable);
    PutHolds(data, 0, NonceBytes(n));
    HoldsBoth(out, 0, b4, U64Bytes(n.fee));
    HoldsBoth(out, 0, b3, PubkeyBytes(n.durable));
    HoldsBoth(out, 0, b2, PubkeyBytes(n.authority));
    HoldsBoth(out, 0, b1, U32Bytes(flag));
    ReadU32(out, 0, 1);
    ReadU32(out, 4, flag);
    ReadPubkey(out, 8, n.authority);
    ReadPubkey(out, 40, n.durable);
    ReadU64(out, 72, n.fee);
  }
}

/** The system program (src/system_program.rs): what its twelve instructions compute. */
module SystemProgram {
  import opened Common
  import opened Bytes
  import opened NonceRecord

  const SYSTEM_PROGRAM_COST: u64 := 150

  /** Move lamports from copy i to copy j; the credit saturates. */
  function Moved(w: seq<Account>, i: nat, j: nat, lamports: u64): seq<Account>
    requires i < |w| && j < |w| && i != j && lamports <= w[i].lamports
  {
    w[i := w[i].(lamports := w[i].lamports - lamports)][j := w[j].(lamports := SatAdd(w[j].lamports, lamports))]
  }

  /** What both CreateAccount forms do once every check has passed. */
  function Create(w: seq<Account>, lamports: u64, space: u64, owner: Pubkey): Result<seq<Account>>
    requires |w| >= 2
  {
    if w[0].lamports < lamports then Err(InsufficientFunds) else
    :- Need(w[1].lamports == 0 && w[1].data == [], BuiltinError);
    Ok(w[0 := w[0].(lamports := w[0].lamports - lamports)]
        [1 := w[1].(lamports := lamports, data := Zeroes(space), owner := owner, executable := false)])
  }

  function CreateAccount(ctx: Ctx, body: seq<byte>, w: seq<Account>): Result<seq<Account>> {
    if |body| < 48 then Err(BuiltinError) else
    :- HasAccounts(w, 2);
    :- RequireSigner(ctx, w[0].address);
    :- RequireSigner(ctx, w[1].address);
    :- RequireWritable(ctx, w[0].address);
    :- RequireWritable(ctx, w[1].address);
    Create(w, U64At(body, 0), U64At(body, 8), PubkeyAt(body, 16))
  }

  function Assign(ctx: Ctx, body: seq<byte>, w: seq<Account>): Result<seq<Account>> {
    if |body| < 32 then Err(BuiltinError) else
    :- HasAccounts(w, 1);
    :- RequireSigner(ctx, w[0].address);
    :- RequireWritable(ctx, w[0].address);
    Ok(w[0 := w[0].(owner := PubkeyAt(body, 0))])
  }

  function Transfer(ctx: Ctx, body: seq<byte>, w: seq<Account>): Result<seq<Account>> {
    if |body| < 8 then Err(BuiltinError) else
    var lamports := U64At(body, 0);
    :- HasAccounts(w, 2);
    :- RequireSigner(ctx, w[0].address);
    :- RequireWritable(ctx, w[0].address);
    :- RequireWritable(ctx, w[1].address);
    :- Need(w[0].owner == SYSTEM_ID, BuiltinError);
    :- Need(w[0].lamports >= lamports, InsufficientFunds);
    Ok(Moved(w, 0, 1, lamports))
  }

  function Allocate(ctx: Ctx, body: seq<byte>, w: seq<Account>): Result<seq<Account>> {
    if |body| < 8 then Err(BuiltinError) else
    :- HasAccounts(w, 1);
    :- RequireSigner(ctx, w[0].address);
    :- RequireWritable(ctx, w[0].address);
    :- Need(w[0].data == [], BuiltinError);
    Ok(w[0 := w[0].(data := Zeroes(U64At(body, 0)))])
  }

  /** The address derived from a base, a UTF-8 seed and an owner must be the expected one. */
  function Derives(ctx: Ctx, base: Pubkey, seed: seq<byte>, owner: Pubkey, expected: Pubkey): Status {
    Need(ctx.sysvars.oracles.createWithSeed(base, seed, owner) == Some(expected), BuiltinError)
  }

  /** The length prefix at off and the seed after it, with tail more bytes behind. */
  function SeedAt(ctx: Ctx, body: seq<byte>, off: nat, tail: nat): (r: Result<seq<byte>>)
    ensures r.Ok? ==> off + 8 + |r.value| + tail <= |body|
  {
    if |body| < off + 8 then Err(BuiltinError) else
    var n: nat := U64At(body, off);
    :- Need(|body| >= off + 8 + n + tail, BuiltinError);
    var seed := FieldAt(body, off + 8, n);
    :- Need(ctx.sysvars.oracles.validUtf8(seed), BuiltinError);
    Ok(seed)
  }

  function CreateAccountWithSeed(ctx: Ctx, body: seq<byte>, w: seq<Account>): Result<seq<Account>> {
    var seed :- SeedAt(ctx, body, 32, 48);
    var base, off := PubkeyAt(body, 0), 40 + |seed|;
    var lamports, space, owner := U64At(body, off), U64At(body, off + 8), PubkeyAt(body, off + 16);
    :- HasAccounts(w, 2);
    :- Derives(ctx, base, seed, owner, w[1].address);
    :- RequireSigner(ctx, w[0].address);
    :- RequireWritable(ctx, w[0].address);
    :- RequireWritable(ctx, w[1].address);
    :- if base != w[0].address then RequireSigner(ctx, base) else Pass;
    Create(w, lamports, space, owner)
  }

  function AssignWithSeed(ctx: Ctx, body: seq<byte>, w: seq<Account>): Result<seq<Account>> {
    var seed :- SeedAt(ctx, body, 32, 32);
    var base, owner := PubkeyAt(body, 0), PubkeyAt(body, 40 + |seed|);
    :- HasAccounts(w, 2);
    :- RequireWritable(ctx, w[0].address);
    :- RequireSigner(ctx, base);
    :- Derives(ctx, base, seed, owner, w[0].address);
    Ok(w[0 := w[0].(owner := owner)])
  }

  function TransferWithSeed(ctx: Ctx, body: seq<byte>, w: seq<Account>): Result<seq<Account>> {
    var seed :- SeedAt(ctx, body, 8, 32);
    var lamports, fromOwner := U64At(body, 0), PubkeyAt(body, 16 + |seed|);
    :- HasAccounts(w, 3);
    :- RequireWritable(ctx, w[0].address);
    :- RequireWritable(ctx, w[2].address);
    :- RequireSigner(ctx, w[1].address);
    :- Derives(ctx, w[1].address, seed, fromOwner, w[0].address);
    :- Need(w[0].lamports >= lamports, InsufficientFunds);
    Ok(Moved(w, 0, 2, lamports))
  }

  function DurableNonce(ctx: Ctx): Pubkey {
    ctx.sysvars.oracles.nonceForSlot(ctx.sysvars.clock.slot)
  }

  function InitializeNonce(ctx: Ctx, body: seq<byte>, w: seq<Account>): Result<seq<Account>> {
    if |body| < 32 then Err(BuiltinError) else
    :- HasAccounts(w, 1);
    :- RequireWritable(ctx, w[0].address);
    var state :- ReadNonce(w[0].data);
    :- Need(!state.initialized, BuiltinError);
    var next := Nonce(true, PubkeyAt(body, 0), DurableNonce(ctx), NONCE_DEFAULT_FEE);
    Ok(w[0 := w[0].(data := WrittenNonce(w[0].data, next), owner := SYSTEM_ID)])
  }

  function AdvanceNonce(ctx: Ctx, w: seq<Account>): Result<seq<Account>> {
    if |w| < 3 then Err(AccountIndexOutOfBounds) else
    :- RequireWritable(ctx, w[0].address);
    :- RequireSigner(ctx, w[2].address);
    var state :- ReadNonce(w[0].data);
    :- Need(state.initialized, BuiltinError);
    :- Need(state.authority == w[2].address, BuiltinError);
    Ok(w[0 := w[0].(data := WrittenNonce(w[0].data, state.(durable := DurableNonce(ctx))))])
  }

  function WithdrawNonce(ctx: Ctx, body: seq<byte>, w: seq<Account>): Result<seq<Account>> {
    if |body| < 8 then Err(BuiltinError) else
    var lamports := U64At(body, 0);
    :- HasAccounts(w, 5);
    :- RequireWritable(ctx, w[0].address);
    :- RequireWritable(ctx, w[1].address);
    :- RequireSigner(ctx, w[4].address);
    var state :- ReadNonce(w[0].data);
    :- Need(!state.initialized || state.authority == w[4].address, BuiltinError);
    :- Need(w[0].lamports >= lamports, InsufficientFunds);
    Ok(Moved(w, 0, 1, lamports))
  }

  function AuthorizeNonce(ctx: Ctx, body: seq<byte>, w: seq<Account>): Result<seq<Account>> {
    if |body| < 32 then Err(BuiltinError) else
    :- HasAccounts(w, 2);
    :- RequireWritable(ctx, w[0].address);
    :- RequireSigner(ctx, w[1].address);
    var state :- ReadNonce(w[0].data);
    :- Need(state.initialized, BuiltinError);
    :- Need(state.authority == w[1].address, BuiltinError);
    Ok(w[0 := w[0].(data := WrittenNonce(w[0].data, state.(authority := PubkeyAt(body, 0))))])
  }

  function UpgradeNonce(ctx: Ctx, w: seq<Account>): Result<seq<Account>> {
    if |w| < 1 then Err(AccountIndexOutOfBounds) else
    :- RequireWritable(ctx, w[0].address);
    Ok(w[0 := w[0].(data := if |w[0].data| >= 4 then Put(w[0].data, 0, U32Bytes(1)) else w[0].data)])
  }

  function Invoke(ctx: Ctx, data: seq<byte>, w: seq<Account>): Result<seq<Account>> {
    if |data| < 4 then Err(BuiltinError)
    else
      var tag, body := U32At(data, 0), data[4..];
      if tag == 0 then CreateAccount(ctx, body, w)
      else if tag == 1 then Assign(ctx, body, w)
      else if tag == 2 then Transfer(ctx, body, w)
      else if tag == 3 then CreateAccountWithSeed(ctx, body, w)
      else if tag == 4 then AdvanceNonce(ctx, w)
      else if tag == 5 then WithdrawNonce(ctx, body, w)
      else if tag == 6 then InitializeNonce(ctx, body, w)
      else if tag == 7 then AuthorizeNonce(ctx, body, w)
      else if tag == 8 then Allocate(ctx, body, w)
      else if tag == 9 then AssignWithSeed(ctx, body, w)
      else if tag == 10 then TransferWithSeed(ctx, body, w)
      else if tag == 11 then UpgradeNonce(ctx, w)
      else Err(BuiltinError)
  }

  function TheSystemProgram(): Program {
    FixedCost(SYSTEM_PROGRAM_COST, Invoke)
  }
}

/** The same handlers as the source runs them, on a mutable slice. */
module SystemHandlers {
  import opened Common
  import opened Bytes
  import opened NonceRecord
  import P = SystemProgram

  method CreateAccount(ctx: Ctx, body: seq<byte>, w: array<Account>) returns (err: Option<Error>)
    modifies w
    ensures Matches(P.CreateAccount(ctx, body, old(w[..])), err, old(w[..]), w[..])
  {
    if |body| < 8 + 8 + 32 { return Some(BuiltinError); }
    var lamports, space, owner := U64At(body, 0), U64At(body, 8), PubkeyAt(body, 16);
    if w.Length < 2 { return Some(AccountIndexOutOfBounds); }
    var funder, target := w[0].address, w[1].address;
    if !IsSigner(ctx, funder) { return Some(AccountNotSigner); }
    if !IsSigner(ctx, target) { return Some(AccountNotSigner); }
    if !IsWritable(ctx, funder) { return Some(AccountNotWritable); }
    if !IsWritable(ctx, target) { return Some(AccountNotWritable); }
    err := Create(w, lamports, space, owner);
  }

  /** The tail both CreateAccount forms share. */
  method Create(w: array<Account>, lamports: u64, space: u64, owner: Pubkey) returns (err: Option<Error>)
    requires w.Length >= 2
    modifies w
    ensures Matches(P.Create(old(w[..]), lamports, space, owner), err, old(w[..]), w[..])
  {
    if w[0].lamports < lamports { return Some(InsufficientFunds); }
    if w[1].lamports != 0 || w[1].data != [] { return Some(BuiltinError); }
    w[0] := w[0].(lamports := w[0].lamports - lamports);
    w[1] := w[1].(lamports := lamports);
    w[1] := w[1].(data := Zeroes(space));
    w[1] := w[1].(owner := owner);
    w[1] := w[1].(executable := false);
    err := None;
  }

  method Assign(ctx: Ctx, body: seq<byte>, w: array<Account>) returns (err: Option<Error>)
    modifies w
    ensures Matches(P.Assign(ctx, body, old(w[..])), err, old(w[..]), w[..])
  {
    if |body| < 32 { return Some(BuiltinError); }
    var newOwner := PubkeyAt(body, 0);
    if w.Length == 0 { return Some(AccountIndexOutOfBounds); }
    if !IsSigner(ctx, w[0].address) { return Some(AccountNotSigner); }
    if !IsWritable(ctx, w[0].address) { return Some(AccountNotWritable); }
    w[0] := w[0].(owner := newOwner);
    err := None;
  }

  /** Debit copy i, credit copy j. */
  method Move(w: array<Account>, i: nat, j: nat, lamports: u64) returns (err: Option<Error>)
    requires i < w.Length && j < w.Length && i != j
    modifies w
    ensures err == if old(w[i]).lamports < lamports then Some(InsufficientFunds) else None
    ensures w[..] == if err.None? then P.Moved(old(w[..]), i, j, lamports) else old(w[..])
  {
    if w[i].lamports < lamports { return Some(InsufficientFunds); }
    w[i] := w[i].(lamports := w[i].lamports - lamports);
    w[j] := w[j].(lamports := SatAdd(w[j].lamports, lamports));
    err := None;
  }

  method Transfer(ctx: Ctx, body: seq<byte>, w: array<Account>) returns (err: Option<Error>)
    modifies w
    ensures Matches(P.Transfer(ctx, body, old(w[..])), err, old(w[..]), w[..])
  {
    if |body| < 8 { return Some(BuiltinError); }
    var lamports := U64At(body, 0);
    if w.Length < 2 { return Some(AccountIndexOutOfBounds); }
    if !IsSigner(ctx, w[0].address) { return Some(AccountNotSigner); }
    if !IsWritable(ctx, w[0].address) { return Some(AccountNotWritable); }
    if !IsWritable(ctx, w[1].address) { return Some(AccountNotWritable); }
    if w[0].owner != SYSTEM_ID { return Some(BuiltinError); }
    err := Move(w, 0, 1, lamports);
  }

  method Allocate(ctx: Ctx, body: seq<byte>, w: array<Account>) returns (err: Option<Error>)
    modifies w
    ensures Matches(P.Allocate(ctx, body, old(w[..])), err, old(w[..]), w[..])
  {
    if |body| < 8 { return Some(BuiltinError); }
    var space := U64At(body, 0);
    if w.Length == 0 { return Some(AccountIndexOutOfBounds); }
    if !IsSigner(ctx, w[0].address) { return Some(AccountNotSigner); }
    if !IsWritable(ctx, w[0].address) { return Some(AccountNotWritable); }
    if w[0].data != [] { return Some(BuiltinError); }
    w[0] := w[0].(data := Zeroes(space));
    err := None;
  }

  method CreateAccountWithSeed(ctx: Ctx, body: seq<byte>, w: array<Account>) returns (err: Option<Error>)
    modifies w
    ensures Matches(P.CreateAccountWithSeed(ctx, body, old(w[..])), err, old(w[..]), w[..])
  {
    if |body| < 32 + 8 { return Some(BuiltinError); }
    var base := PubkeyAt(body, 0);
    var seedLen: nat := U64At(body, 32);
    if |body| < 40 + seedLen + 8 + 8 + 32 { return Some(BuiltinError); }
    var seed := body[40..40 + seedLen];
    if !ctx.sysvars.oracles.validUtf8(seed) { return Some(BuiltinError); }
    var off := 40 + seedLen;
    var lamports := U64At(body, off);
    off := off + 8;
    var space := U64At(body, off);
    off := off + 8;
    var owner := PubkeyAt(body, off);
    if w.Length < 2 { return Some(AccountIndexOutOfBounds); }
    var funder, target := w[0].address, w[1].address;
    var derived := ctx.sysvars.oracles.createWithSeed(base, seed, owner);
    if derived.None? { return Some(BuiltinError); }
    if derived.value != target { return Some(BuiltinError); }
    if !IsSigner(ctx, funder) { return Some(AccountNotSigner); }
    if !IsWritable(ctx, funder) { return Some(AccountNotWritable); }
    if !IsWritable(ctx, target) { return Some(AccountNotWritable); }
    if base != funder && !IsSigner(ctx, base) { return Some(AccountNotSigner); }
    err := Create(w, lamports, space, owner);
  }

  method AssignWithSeed(ctx: Ctx, body: seq<byte>, w: array<Account>) returns (err: Option<Error>)
    modifies w
    ensures Matches(P.AssignWithSeed(ctx, body, old(w[..])), err, old(w[..]), w[..])
  {
    if |body| < 32 + 8 { return Some(BuiltinError); }
    var base := PubkeyAt(body, 0);
    var seedLen: nat := U64At(body, 32);
    if |body| < 40 + seedLen + 32 { return Some(BuiltinError); }
    var seed := body[40..40 + seedLen];
    if !ctx.sysvars.oracles.validUtf8(seed) { return Some(BuiltinError); }
    var owner := PubkeyAt(body, 40 + seedLen);
    if w.Length < 2 { return Some(AccountIndexOutOfBounds); }
    if !IsWritable(ctx, w[0].address) { return Some(AccountNotWritable); }
    if !IsSigner(ctx, base) { return Some(AccountNotSigner); }
    var derived := ctx.sysvars.oracles.createWithSeed(base, seed, owner);
    if derived.None? { return Some(BuiltinError); }
    if derived.value != w[0].address { return Some(BuiltinError); }
    w[0] := w[0].(owner := owner);
    err := None;
  }

  method TransferWithSeed(ctx: Ctx, body: seq<byte>, w: array<Account>) returns (err: Option<Error>)
    modifies w
    ensures Matches(P.TransferWithSeed(ctx, body, old(w[..])), err, old(w[..]), w[..])
  {
    if |body| < 8 + 8 { return Some(BuiltinError); }
    var lamports := U64At(body, 0);
    var seedLen: nat := U64At(body, 8);
    if |body| < 16 + seedLen + 32 { return Some(BuiltinError); }
    var seed := body[16..16 + seedLen];
    if !ctx.sysvars.oracles.validUtf8(seed) { return Some(BuiltinError); }
    var fromOwner := PubkeyAt(body, 16 + seedLen);
    if w.Length < 3 { return Some(AccountIndexOutOfBounds); }
    if !IsWritable(ctx, w[0].address) { return Some(AccountNotWritable); }
    if !IsWritable(ctx, w[2].address) { return Some(AccountNotWritable); }
    if !IsSigner(ctx, w[1].address) { return Some(AccountNotSigner); }
    var derived := ctx.sysvars.oracles.createWithSeed(w[1].address, seed, fromOwner);
    if derived.None? { return Some(BuiltinError); }
    if derived.value != w[0].address { return Some(BuiltinError); }
    err := Move(w, 0, 2, lamports);
  }

  method InitializeNonce(ctx: Ctx, body: seq<byte>, w: array<Account>) returns (err: Option<Error>)
    modifies w
    ensures Matches(P.InitializeNonce(ctx, body, old(w[..])), err, old(w[..]), w[..])
  {
    if |body| < 32 { return Some(BuiltinError); }
    var authority := PubkeyAt(body, 0);
    if w.Length == 0 { return Some(AccountIndexOutOfBounds); }
    if !IsWritable(ctx, w[0].address) { return Some(AccountNotWritable); }
    if |w[0].data| < NONCE_STATE_BYTES { return Some(BuiltinError); }
    var state := ReadNonce(w[0].data).value;
    if state.initialized { return Some(BuiltinError); }
    var nonce := P.DurableNonce(ctx);
    w[0] := w[0].(data := WrittenNonce(w[0].data, Nonce(true, authority, nonce, NONCE_DEFAULT_FEE)));
    w[0] := w[0].(owner := SYSTEM_ID);
    err := None;
  }

  method AdvanceNonce(ctx: Ctx, w: array<Account>) returns (err: Option<Error>)
    modifies w
    ensures Matches(P.AdvanceNonce(ctx, old(w[..])), err, old(w[..]), w[..])
  {
    if w.Length < 3 { return Some(AccountIndexOutOfBounds); }
    var authority := w[2].address;
    if !IsWritable(ctx, w[0].address) { return Some(AccountNotWritable); }
    if !IsSigner(ctx, authority) { return Some(AccountNotSigner); }
    var read := ReadNonce(w[0].data);
    if read.Err? { return Some(read.error); }
    var state := read.value;
    if !state.initialized { return Some(BuiltinError); }
    if state.authority != authority { return Some(BuiltinError); }
    w[0] := w[0].(data := WrittenNonce(w[0].data, Nonce(true, state.authority, P.DurableNonce(ctx), state.fee)));
    err := None;
  }

  method WithdrawNonce(ctx: Ctx, body: seq<byte>, w: array<Account>) returns (err: Option<Error>)
    modifies w
    ensures Matches(P.WithdrawNonce(ctx, body, old(w[..])), err, old(w[..]), w[..])
  {
    if |body| < 8 { return Some(BuiltinError); }
    var lamports := U64At(body, 0);
    if w.Length < 5 { return Some(AccountIndexOutOfBounds); }
    var authority := w[4].address;
    if !IsWritable(ctx, w[0].address) { return Some(AccountNotWritable); }
    if !IsWritable(ctx, w[1].address) { return Some(AccountNotWritable); }
    if !IsSigner(ctx, authority) { return Some(AccountNotSigner); }
    var read := ReadNonce(w[0].data);
    if read.Err? { return Some(read.error); }
    if read.value.initialized && read.value.authority != authority { return Some(BuiltinError); }
    err := Move(w, 0, 1, lamports);
  }

  method AuthorizeNonce(ctx: Ctx, body: seq<byte>, w: array<Account>) returns (err: Option<Error>)
    modifies w
    ensures Matches(P.AuthorizeNonce(ctx, body, old(w[..])), err, old(w[..]), w[..])
  {
    if |body| < 32 { return Some(BuiltinError); }
    var newAuthority := PubkeyAt(body, 0);
    if w.Length < 2 { return Some(AccountIndexOutOfBounds); }
    var authority := w[1].address;
    if !IsWritable(ctx, w[0].address) { return Some(AccountNotWritable); }
    if !IsSigner(ctx, authority) { return Some(AccountNotSigner); }
    var read := ReadNonce(w[0].data);
    if read.Err? { return Some(read.error); }
    var state := read.value;
    if !state.initialized { return Some(BuiltinError); }
    if state.authority != authority { return Some(BuiltinError); }
    w[0] := w[0].(data := WrittenNonce(w[0].data, Nonce(true, newAuthority, state.durable, state.fee)));
    err := None;
  }

  method UpgradeNonce(ctx: Ctx, w: array<Account>) returns (err: Option<Error>)
    modifies w
    ensures Matches(P.UpgradeNonce(ctx, old(w[..])), err, old(w[..]), w[..])
  {
    if w.Length == 0 { return Some(AccountIndexOutOfBounds); }
    if !IsWritable(ctx, w[0].address) { return Some(AccountNotWritable); }
    if |w[0].data| >= 4 {
      w[0] := w[0].(data := Put(w[0].data, 0, U32Bytes(1)));
    }
    err := None;
  }

  /** `invoke`: the tag picks the handler. */
  method Invoke(ctx: Ctx, data: seq<byte>, w: array<Account>) returns (err: Option<Error>)
    modifies w
    ensures Matches(P.Invoke(ctx, data, old(w[..])), err, old(w[..]), w[..])
  {
    if |data| < 4 { return Some(BuiltinError); }
    var tag, body := U32At(data, 0), data[4..];
    match tag {
      case 0 => err := CreateAccount(ctx, body, w);
      case 1 => err := Assign(ctx, body, w);
      case 2 => err := Transfer(ctx, body, w);
      case 3 => err := CreateAccountWithSeed(ctx, body, w);
      case 4 => err := AdvanceNonce(ctx, w);
      case 5 => err := WithdrawNonce(ctx, body, w);
      case 6 => err := InitializeNonce(ctx, body, w);
      case 7 => err := AuthorizeNonce(ctx, body, w);
      case 8 => err := Allocate(ctx, body, w);
      case 9 => err := AssignWithSeed(ctx, body, w);
      case 10 => err := TransferWithSeed(ctx, body, w);
      case 11 => err := UpgradeNonce(ctx, w);
      case _ => err := Some(BuiltinError);
    }
  }
}
