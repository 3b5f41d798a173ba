/** The verdict of every system instruction, requirement by requirement in the order the source
    checks them, and the slice it leaves. */
module SystemVerdicts {
  import opened Common
  import opened Bytes
  import opened NonceRecord
  import opened SystemProgram
  import opened Verdicts

  /** A funder that can pay, and a target without lamports or data. */
  function CreateTail(s: Status, w: seq<Account>, lamports: u64): Status {
    s.Then(Covers(w, 0, lamports), InsufficientFunds).Then(IsEmptyAt(w, 1), BuiltinError)
  }

  ghost predicate CreateLeaves(w: seq<Account>, post: seq<Account>, lamports: u64, space: u64, owner: Pubkey) {
    && Only(w, post, {0, 1}) && |w| >= 2 && lamports <= w[0].lamports
    && post[0] == w[0].(lamports := w[0].lamports - lamports)
    && post[1] == Account(w[1].address, lamports, Zeroes(space), owner, false, w[1].rentEpoch)
  }

  lemma CreateAccountVerdict(ctx: Ctx, body: seq<byte>, w: seq<Account>)
    ensures VerdictOf(CreateAccount(ctx, body, w))
      == CreateTail(
           Pass.Then(|body| >= 48, BuiltinError).Then(|w| >= 2, AccountIndexOutOfBounds)
             .Then(Signs(ctx, w, 0), AccountNotSigner).Then(Signs(ctx, w, 1), AccountNotSigner)
             .Then(Writes(ctx, w, 0), AccountNotWritable).Then(Writes(ctx, w, 1), AccountNotWritable),
           w, Num(body, 0))
    ensures CreateAccount(ctx, body, w).Ok? ==>
      CreateLeaves(w, CreateAccount(ctx, body, w).value, Num(body, 0), Num(body, 8), Key(body, 16))
  {
    Flags(ctx, w);
  }

  lemma AssignVerdict(ctx: Ctx, body: seq<byte>, w: seq<Account>)
    ensures VerdictOf(Assign(ctx, body, w))
      == Pass.Then(|body| >= 32, BuiltinError).Then(|w| >= 1, AccountIndexOutOfBounds)
           .Then(Signs(ctx, w, 0), AccountNotSigner).Then(Writes(ctx, w, 0), AccountNotWritable)
    ensures Assign(ctx, body, w).Ok? ==> var post := Assign(ctx, body, w).value;
      Only(w, post, {0}) && post[0] == w[0].(owner := Key(body, 0))
  {
    Flags(ctx, w);
  }

  ghost predicate LeavesMoved(w: seq<Account>, post: seq<Account>, from: nat, to: nat, lamports: u64) {
    && Only(w, post, {from, to}) && from < |w| && to < |w| && lamports <= w[from].lamports
    && post[from] == w[from].(lamports := w[from].lamports - lamports)
    && post[to] == w[to].(lamports := Capped(w[to].lamports + lamports))
  }

  lemma TransferVerdict(ctx: Ctx, body: seq<byte>, w: seq<Account>)
    ensures VerdictOf(Transfer(ctx, body, w))
      == Pass.Then(|body| >= 8, BuiltinError).Then(|w| >= 2, AccountIndexOutOfBounds)
           .Then(Signs(ctx, w, 0), AccountNotSigner)
           .Then(Writes(ctx, w, 0), AccountNotWritable).Then(Writes(ctx, w, 1), AccountNotWritable)
           .Then(|w| > 0 && w[0].owner == SYSTEM_ID, BuiltinError).Then(Covers(w, 0, Num(body, 0)), InsufficientFunds)
    ensures Transfer(ctx, body, w).Ok? ==> LeavesMoved(w, Transfer(ctx, body, w).value, 0, 1, Num(body, 0))
  {
    Flags(ctx, w);
  }

  lemma AllocateVerdict(ctx: Ctx, body: seq<byte>, w: seq<Account>)
    ensures VerdictOf(Allocate(ctx, body, w))
      == Pass.Then(|body| >= 8, BuiltinError).Then(|w| >= 1, AccountIndexOutOfBounds)
           .Then(Signs(ctx, w, 0), AccountNotSigner).Then(Writes(ctx, w, 0), AccountNotWritable)
           .Then(DataAt(w, 0) == [], BuiltinError)
    ensures Allocate(ctx, body, w).Ok? ==> var post := Allocate(ctx, body, w).value;
      && Only(w, post, {0}) && post[0] == w[0].(data := post[0].data)
      && |post[0].data| == Num(body, 0) && forall i :: 0 <= i < |post[0].data| ==> post[0].data[i] == 0
  {
    Flags(ctx, w);
  }

  // --- addresses derived from a base --------------------------------------------------------------

  /** The data holds a seed of the length it announces at off, and tail more bytes. */
  predicate SeedFits(body: seq<byte>, off: nat, tail: nat) {
    |body| >= off + 8 && |body| >= off + 8 + U64At(body, off) + tail
  }

  function SeedOf(body: seq<byte>, off: nat): seq<byte> {
    var end := off + 8 + Num(body, off);
    if end <= |body| then body[off + 8..end] else []
  }

  lemma SeedVerdict(ctx: Ctx, body: seq<byte>, off: nat, tail: nat)
    ensures VerdictOf(SeedAt(ctx, body, off, tail))
      == Pass.Then(SeedFits(body, off, tail), BuiltinError)
           .Then(ctx.sysvars.oracles.validUtf8(SeedOf(body, off)), BuiltinError)
    ensures SeedAt(ctx, body, off, tail).Ok? ==> SeedAt(ctx, body, off, tail).value == SeedOf(body, off)
  {
  }

  predicate DerivedFrom(ctx: Ctx, base: Pubkey, seed: seq<byte>, owner: Pubkey, w: seq<Account>, i: nat) {
    i < |w| && ctx.sysvars.oracles.createWithSeed(base, seed, owner) == Some(w[i].address)
  }

  lemma CreateAccountWithSeedVerdict(ctx: Ctx, body: seq<byte>, w: seq<Account>)
    ensures var base, seed := Key(body, 0), SeedOf(body, 32);
      var off := 40 + |seed|;
      VerdictOf(CreateAccountWithSeed(ctx, body, w))
         == CreateTail(
              Pass.Then(SeedFits(body, 32, 48), BuiltinError)
                .Then(ctx.sysvars.oracles.validUtf8(seed), BuiltinError)
                .Then(|w| >= 2, AccountIndexOutOfBounds)
                .Then(DerivedFrom(ctx, base, seed, Key(body, off + 16), w, 1), BuiltinError)
                .Then(Signs(ctx, w, 0), AccountNotSigner)
                .Then(Writes(ctx, w, 0), AccountNotWritable).Then(Writes(ctx, w, 1), AccountNotWritable)
                .Then(KeySigns(ctx, base), AccountNotSigner),
              w, Num(body, off))
  {
    Flags(ctx, w);
    SeedVerdict(ctx, body, 32, 48);
    if SeedFits(body, 32, 48) { FlagsOfFirstMeta(ctx, Key(body, 0)); }
  }

  lemma CreateAccountWithSeedLeaves(ctx: Ctx, body: seq<byte>, w: seq<Account>)
    requires CreateAccountWithSeed(ctx, body, w).Ok?
    ensures var off := 40 + |SeedOf(body, 32)|;
      CreateLeaves(w, CreateAccountWithSeed(ctx, body, w).value, Num(body, off), Num(body, off + 8),
        Key(body, off + 16))
  {
  }

  lemma AssignWithSeedVerdict(ctx: Ctx, body: seq<byte>, w: seq<Account>)
    ensures var base, seed := Key(body, 0), SeedOf(body, 32);
      var owner := Key(body, 40 + |seed|);
      && VerdictOf(AssignWithSeed(ctx, body, w))
         == Pass.Then(SeedFits(body, 32, 32), BuiltinError).Then(ctx.sysvars.oracles.validUtf8(seed), BuiltinError)
              .Then(|w| >= 2, AccountIndexOutOfBounds).Then(Writes(ctx, w, 0), AccountNotWritable)
              .Then(KeySigns(ctx, base), AccountNotSigner).Then(DerivedFrom(ctx, base, seed, owner, w, 0), BuiltinError)
      && (AssignWithSeed(ctx, body, w).Ok? ==>
            var post := AssignWithSeed(ctx, body, w).value;
            Only(w, post, {0}) && post[0] == w[0].(owner := owner))
  {
    Flags(ctx, w);
    SeedVerdict(ctx, body, 32, 32);
    if SeedFits(body, 32, 32) { FlagsOfFirstMeta(ctx, Key(body, 0)); }
  }

  lemma TransferWithSeedVerdict(ctx: Ctx, body: seq<byte>, w: seq<Account>)
    ensures var seed := SeedOf(body, 8);
      var base := if |w| > 1 then w[1].address else 0;
      && VerdictOf(TransferWithSeed(ctx, body, w))
         == Pass.Then(SeedFits(body, 8, 32), BuiltinError).Then(ctx.sysvars.oracles.validUtf8(seed), BuiltinError)
              .Then(|w| >= 3, AccountIndexOutOfBounds)
              .Then(Writes(ctx, w, 0), AccountNotWritable).Then(Writes(ctx, w, 2), AccountNotWritable)
              .Then(Signs(ctx, w, 1), AccountNotSigner)
              .Then(DerivedFrom(ctx, base, seed, Key(body, 16 + |seed|), w, 0), BuiltinError)
              .Then(Covers(w, 0, Num(body, 0)), InsufficientFunds)
      && (TransferWithSeed(ctx, body, w).Ok? ==>
            LeavesMoved(w, TransferWithSeed(ctx, body, w).value, 0, 2, Num(body, 0)))
  {
    Flags(ctx, w);
    SeedVerdict(ctx, body, 8, 32);
  }

  // --- durable nonces -----------------------------------------------------------------------------

  predicate HoldsNonce(w: seq<Account>, initialized: bool) {
    |DataAt(w, 0)| >= 80 && (U32At(DataAt(w, 0), 4) == 1 <==> initialized)
  }

  /** The stored authority is the copy at i. */
  predicate NonceAuthority(w: seq<Account>, i: nat) {
    |DataAt(w, 0)| >= 80 && i < |w| && PubkeyAt(w[0].data, 8) == w[i].address
  }

  ghost predicate LeavesNonce(w: seq<Account>, post: seq<Account>, n: Nonce, owner: Pubkey) {
    && Only(w, post, {0}) && |w| > 0 && post[0] == w[0].(data := post[0].data, owner := owner)
    && |post[0].data| == |w[0].data| >= 80 && ReadNonce(post[0].data) == Ok(n)
    && U32At(post[0].data, 0) == 1 && post[0].data[80..] == w[0].data[80..]
  }

  /** The record's fields lie at fixed offsets behind a version word. */
  lemma NonceLayout(data: seq<byte>)
    ensures ReadNonce(data).Ok? <==> |data| >= 80
    ensures ReadNonce(data).Err? ==> ReadNonce(data).error == BuiltinError
    ensures |data| >= 80 ==> var n := ReadNonce(data).value;
      && (n.initialized <==> U32At(data, 4) == 1) && n.authority == PubkeyAt(data, 8)
      && n.durable == PubkeyAt(data, 40) && n.fee == U64At(data, 72)
  {
  }

  lemma InitializeNonceVerdict(ctx: Ctx, body: seq<byte>, w: seq<Account>)
    ensures VerdictOf(InitializeNonce(ctx, body, w))
      == Pass.Then(|body| >= 32, BuiltinError).Then(|w| >= 1, AccountIndexOutOfBounds)
           .Then(Writes(ctx, w, 0), AccountNotWritable).Then(HoldsNonce(w, false), BuiltinError)
    ensures InitializeNonce(ctx, body, w).Ok? ==>
      LeavesNonce(w, InitializeNonce(ctx, body, w).value,
        Nonce(true, Key(body, 0), ctx.sysvars.oracles.nonceForSlot(ctx.sysvars.clock.slot), 5_000), 0)
  {
    Flags(ctx, w);
    if InitializeNonce(ctx, body, w).Ok? {
      var n := Nonce(true, PubkeyAt(body, 0), DurableNonce(ctx), NONCE_DEFAULT_FEE);
      ReadWrittenNonce(w[0].data, n);
    }
  }

  lemma AdvanceNonceVerdict(ctx: Ctx, w: seq<Account>)
    ensures VerdictOf(AdvanceNonce(ctx, w))
      == Pass.Then(|w| >= 3, AccountIndexOutOfBounds).Then(Writes(ctx, w, 0), AccountNotWritable)
           .Then(Signs(ctx, w, 2), AccountNotSigner).Then(HoldsNonce(w, true), BuiltinError)
           .Then(NonceAuthority(w, 2), BuiltinError)
    ensures AdvanceNonce(ctx, w).Ok? ==>
      LeavesNonce(w, AdvanceNonce(ctx, w).value,
        Nonce(true, PubkeyAt(w[0].data, 8), ctx.sysvars.oracles.nonceForSlot(ctx.sysvars.clock.slot),
          U64At(w[0].data, 72)), w[0].owner)
  {
    Flags(ctx, w);
    if AdvanceNonce(ctx, w).Ok? {
      var n := ReadNonce(w[0].data).value.(durable := DurableNonce(ctx));
      ReadWrittenNonce(w[0].data, n);
    }
  }

  lemma WithdrawNonceVerdict(ctx: Ctx, body: seq<byte>, w: seq<Account>)
    ensures VerdictOf(WithdrawNonce(ctx, body, w))
      == Pass.Then(|body| >= 8, BuiltinError).Then(|w| >= 5, AccountIndexOutOfBounds)
           .Then(Writes(ctx, w, 0), AccountNotWritable).Then(Writes(ctx, w, 1), AccountNotWritable)
           .Then(Signs(ctx, w, 4), AccountNotSigner)
           .Then(HoldsNonce(w, false) || NonceAuthority(w, 4), BuiltinError)
           .Then(Covers(w, 0, Num(body, 0)), InsufficientFunds)
    ensures WithdrawNonce(ctx, body, w).Ok? ==> LeavesMoved(w, WithdrawNonce(ctx, body, w).value, 0, 1, Num(body, 0))
  {
    Flags(ctx, w);
  }

  lemma AuthorizeNonceVerdict(ctx: Ctx, body: seq<byte>, w: seq<Account>)
    ensures VerdictOf(AuthorizeNonce(ctx, body, w))
      == Pass.Then(|body| >= 32, BuiltinError).Then(|w| >= 2, AccountIndexOutOfBounds)
           .Then(Writes(ctx, w, 0), AccountNotWritable).Then(Signs(ctx, w, 1), AccountNotSigner)
           .Then(HoldsNonce(w, true), BuiltinError).Then(NonceAuthority(w, 1), BuiltinError)
    ensures AuthorizeNonce(ctx, body, w).Ok? ==>
      LeavesNonce(w, AuthorizeNonce(ctx, body, w).value,
        Nonce(true, Key(body, 0), PubkeyAt(w[0].data, 40), U64At(w[0].data, 72)), w[0].owner)
  {
    Flags(ctx, w);
    if AuthorizeNonce(ctx, body, w).Ok? {
      var n := ReadNonce(w[0].data).value.(authority := PubkeyAt(body, 0));
      ReadWrittenNonce(w[0].data, n);
    }
  }

  lemma UpgradeNonceVerdict(ctx: Ctx, w: seq<Account>)
    ensures VerdictOf(UpgradeNonce(ctx, w))
      == Pass.Then(|w| >= 1, AccountIndexOutOfBounds).Then(Writes(ctx, w, 0), AccountNotWritable)
    ensures UpgradeNonce(ctx, w).Ok? ==> var post := UpgradeNonce(ctx, w).value;
      && Only(w, post, {0}) && post[0] == w[0].(data := post[0].data) && |post[0].data| == |w[0].data|
      && (|w[0].data| < 4 ==> post[0] == w[0])
      && (|w[0].data| >= 4 ==> U32At(post[0].data, 0) == 1 && post[0].data[4..] == w[0].data[4..])
  {
    Flags(ctx, w);
    if |w| > 0 && |w[0].data| >= 4 { VersionPut(w[0].data); }
  }

  lemma VersionPut(data: seq<byte>)
    requires |data| >= 4
    ensures U32At(Put(data, 0, U32Bytes(1)), 0) == 1 && Put(data, 0, U32Bytes(1))[4..] == data[4..]
  {
    PutHolds(data, 0, U32Bytes(1));
    ReadU32(Put(data, 0, U32Bytes(1)), 0, 1);
  }

  // --- the entry point ----------------------------------------------------------------------------

  /** The tag selects the instruction; short data and unknown tags are refused. */
  lemma TagsSelect(ctx: Ctx, data: seq<byte>, w: seq<Account>)
    ensures |data| < 4 ==> Invoke(ctx, data, w) == Err(BuiltinError)
    ensures |data| >= 4 ==> var body := data[4..];
      match U32At(data, 0) {
        case 0 => Invoke(ctx, data, w) == CreateAccount(ctx, body, w)
        case 1 => Invoke(ctx, data, w) == Assign(ctx, body, w)
        case 2 => Invoke(ctx, data, w) == Transfer(ctx, body, w)
        case 3 => Invoke(ctx, data, w) == CreateAccountWithSeed(ctx, body, w)
        case 4 => Invoke(ctx, data, w) == AdvanceNonce(ctx, w)
        case 5 => Invoke(ctx, data, w) == WithdrawNonce(ctx, body, w)
        case 6 => Invoke(ctx, data, w) == InitializeNonce(ctx, body, w)
        case 7 => Invoke(ctx, data, w) == AuthorizeNonce(ctx, body, w)
        case 8 => Invoke(ctx, data, w) == Allocate(ctx, body, w)
        case 9 => Invoke(ctx, data, w) == AssignWithSeed(ctx, body, w)
        case 10 => Invoke(ctx, data, w) == TransferWithSeed(ctx, body, w)
        case 11 => Invoke(ctx, data, w) == UpgradeNonce(ctx, w)
        case _ => Invoke(ctx, data, w) == Err(BuiltinError)
      }
  {
  }
}
