/** Values shared by every component of the harness: machine integers, accounts,
    instructions, error kinds and the context a built-in program sees. */
module Common {

  datatype Option<+T> = None | Some(value: T)

  datatype Result<+T> = Ok(value: T) | Err(error: Error) {
    predicate IsFailure() { Err? }
    function PropagateFailure<U>(): Result<U>
      requires Err?
    {
      Err(error)
    }
    function Extract(): T
      requires Ok?
    {
      value
    }
  }

  /** A check that either passes or carries the error kind it raises. */
  datatype Status = Pass | Fail(error: Error) {
    predicate IsFailure() { Fail? }
    function PropagateFailure<U>(): Result<U>
      requires Fail?
    {
      Err(error)
    }
    /** One more requirement: the first that is not met decides the error. */
    function Then(met: bool, error: Error): Status {
      if Pass? then Need(met, error) else this
    }
  }

  /** The error kinds of src/error.rs, without their payloads. */
  datatype Error =
    | UnknownProgram
    | BuiltinError
    | OutOfComputeUnits
    | EmptyChain
    | AccountIndexOutOfBounds
    | UnknownAccount
    | InsufficientFunds
    | AccountNotWritable
    | AccountNotSigner
    | Custom(code: u32)
    | AccountValidationFailed

  function Need(condition: bool, error: Error): Status {
    if condition then Pass else Fail(error)
  }

  const U32_MAX: int := 0xFFFF_FFFF
  const U64_MAX: int := 0xFFFF_FFFF_FFFF_FFFF
  const I64_MAX: int := 0x7FFF_FFFF_FFFF_FFFF
  const I64_MIN: int := -0x8000_0000_0000_0000

  type byte = x: int | 0 <= x < 256
  type u32 = x: int | 0 <= x <= U32_MAX
  type u64 = x: int | 0 <= x <= U64_MAX
  type i64 = x: int | I64_MIN <= x <= I64_MAX

  function SatAdd(a: u64, b: u64): u64 {
    if a + b <= U64_MAX then a + b else U64_MAX
  }

  function SatSub(a: u64, b: u64): u64 {
    if b <= a then a - b else 0
  }

  function SatMul(a: u64, b: u64): u64 {
    var p: int := a * b;
    if p <= U64_MAX then p else U64_MAX
  }

  /** `x as i64`: the upper half of u64 wraps to the negative numbers. */
  function AsI64(x: u64): i64 {
    if x <= I64_MAX then x else x - U64_MAX - 1
  }

  function AsU64(x: i64): (r: u64)
    ensures AsI64(r) == x
  {
    if x < 0 then x + U64_MAX + 1 else x
  }

  /** A public key is its 32 bytes read as one little-endian number. */
  type Pubkey = x: int | 0 <= x < PUBKEY_SPACE
  const PUBKEY_SPACE: int := 0x1_0000000000000000_0000000000000000_0000000000000000_0000000000000000

  /** The system program's id and the default key are both 32 zero bytes. */
  const SYSTEM_ID: Pubkey := 0

  datatype Account = Account(
    address: Pubkey,
    lamports: u64,
    data: seq<byte>,
    owner: Pubkey,
    executable: bool,
    rentEpoch: u64)

  datatype Meta = Meta(pubkey: Pubkey, signer: bool, writable: bool)

  datatype Instruction = Instruction(programId: Pubkey, metas: seq<Meta>, data: seq<byte>)

  /** Hashing, address derivation, UTF-8 and the floating-point rent formula are
      left uninterpreted: every statement holds for any choice of them. */
  datatype Oracles = Oracles(
    nonceForSlot: u64 -> Pubkey,
    createWithSeed: (Pubkey, seq<byte>, Pubkey) -> Option<Pubkey>,
    createProgramAddress: (seq<seq<byte>>, Pubkey) -> Option<Pubkey>,
    validUtf8: seq<byte> -> bool,
    minimumBalance: nat -> u64)

  datatype Clock = Clock(slot: u64, epoch: u64, unixTimestamp: i64)

  datatype Sysvars = Sysvars(clock: Clock, oracles: Oracles)

  /** What a built-in sees besides its data and accounts. */
  datatype Ctx = Ctx(
    programId: Pubkey,
    metas: seq<Meta>,
    sysvars: Sysvars,
    limit: u64,
    consumed: u64)

  /** The harness cells a built-in may share: the pending compute-unit limit and
      the priority-fee rate. */
  datatype Cells = Cells(pendingCuLimit: Option<u64>, priorityFee: u64)

  /** What a built-in leaves behind: its verdict, its slice of accounts, the shared
      cells and the meter. */
  datatype Invoked = Invoked(error: Option<Error>, accounts: seq<Account>, cells: Cells, consumed: u64)

  datatype Program = Program(
    cost: u64 -> u64,
    invoke: (Ctx, seq<byte>, seq<Account>, Cells) -> Invoked)

  /** A built-in gets a slice of accounts: it cannot change its length, and the
      built-ins modelled here never write an address. */
  ghost predicate KeepsAddresses(p: Program) {
    forall ctx: Ctx, data: seq<byte>, w: seq<Account>, cells: Cells ::
      SameAddresses(w, p.invoke(ctx, data, w, cells).accounts)
  }

  /** No built-in can change the length of the slice it is lent. */
  ghost predicate KeepsLength(p: Program) {
    forall ctx: Ctx, data: seq<byte>, w: seq<Account>, cells: Cells ::
      |p.invoke(ctx, data, w, cells).accounts| == |w|
  }

  type Handler = (Ctx, seq<byte>, seq<Account>) -> Result<seq<Account>>

  /** A built-in with a fixed cost whose handler either returns its whole slice or fails; it
      neither touches the shared cells nor charges more. */
  function FixedCost(cost: u64, handler: Handler): Program {
    Program(
      (defaultCost: u64) => cost,
      (ctx: Ctx, data: seq<byte>, w: seq<Account>, cells: Cells) =>
        match handler(ctx, data, w)
        case Ok(post) => Invoked(None, post, cells, ctx.consumed)
        case Err(e) => Invoked(Some(e), w, cells, ctx.consumed))
  }

  /** An in-place handler matches its specification: the same verdict, the same slice on
      success, and an untouched slice on failure. */
  predicate Matches(spec: Result<seq<Account>>, err: Option<Error>, before: seq<Account>, after: seq<Account>) {
    match spec
    case Ok(post) => err.None? && after == post
    case Err(e) => err == Some(e) && after == before
  }

  predicate SameAddresses(a: seq<Account>, b: seq<Account>) {
    |a| == |b| && forall i :: 0 <= i < |a| ==> a[i].address == b[i].address
  }

  /** An address carries the flags of the first meta that names it. */
  function FirstMeta(metas: seq<Meta>, k: Pubkey): (r: Option<Meta>)
    ensures r.None? <==> forall m :: m in metas ==> m.pubkey != k
    ensures r.Some? ==> r.value in metas && r.value.pubkey == k
  {
    if metas == [] then None
    else if metas[0].pubkey == k then Some(metas[0])
    else FirstMeta(metas[1..], k)
  }

  ghost predicate DistinctMetas(metas: seq<Meta>) {
    forall i, j :: 0 <= i < j < |metas| ==> metas[i].pubkey != metas[j].pubkey
  }

  /** Meta i exists and no later meta names its key again: the copy at i is written back last. */
  predicate LastNaming(metas: seq<Meta>, i: nat) {
    i < |metas| && forall k :: i < k < |metas| ==> metas[k].pubkey != metas[i].pubkey
  }

  predicate IsSigner(ctx: Ctx, k: Pubkey) {
    var m := FirstMeta(ctx.metas, k);
    m.Some? && m.value.signer
  }

  predicate IsWritable(ctx: Ctx, k: Pubkey) {
    var m := FirstMeta(ctx.metas, k);
    m.Some? && m.value.writable
  }

  function RequireSigner(ctx: Ctx, k: Pubkey): Status {
    Need(IsSigner(ctx, k), AccountNotSigner)
  }

  function RequireWritable(ctx: Ctx, k: Pubkey): Status {
    Need(IsWritable(ctx, k), AccountNotWritable)
  }

  function HasAccounts(w: seq<Account>, n: nat): Status {
    Need(|w| >= n, AccountIndexOutOfBounds)
  }

  /** An account the system program may bring into existence. */
  predicate EmptySystem(a: Account) {
    a.lamports == 0 && a.data == [] && a.owner == SYSTEM_ID
  }
}
