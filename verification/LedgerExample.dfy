/** The instructions that make lamports, at work: under Strict a CreateAccount whose funder is
    named again after the new account, and under Lax a Transfer whose source is. */
module LedgerExample {
  import opened Common
  import opened Bytes
  import opened Sums
  import opened Accounts
  import opened Validation
  import opened Engine
  import opened Kernel
  import opened SystemProgram
  import opened Ledger
  import opened CreateRule
  import Conservation
  import TokenRecord

  function CreateData(lamports: u64, owner: Pubkey): seq<byte> {
    U32Bytes(0) + (U64Bytes(lamports) + U64Bytes(0) + PubkeyBytes(owner))
  }

  lemma CreateDataReads(lamports: u64, owner: Pubkey)
    ensures var data := CreateData(lamports, owner);
      && |data| == 52 && U32At(data, 0) == 0
      && U64At(data[4..], 0) == lamports && U64At(data[4..], 8) == 0 && PubkeyAt(data[4..], 16) == owner
  {
    var data := CreateData(lamports, owner);
    var b1 := U64Bytes(lamports);
    var b2 := b1 + U64Bytes(0);
    assert Holds(data, 0, data);
    HoldsBoth(data, 0, U32Bytes(0), b2 + PubkeyBytes(owner));
    var body := data[4..];
    assert Holds(body, 0, b2 + PubkeyBytes(owner));
    HoldsBoth(body, 0, b2, PubkeyBytes(owner));
    HoldsBoth(body, 0, b1, U64Bytes(0));
    ReadU32(data, 0, 0);
    ReadU64(body, 0, lamports);
    ReadU64(body, 8, 0);
    ReadPubkey(body, 16, owner);
  }

  /** The funder, the new account, and the funder again. */
  function CreateTwiceNamed(funder: Pubkey, target: Pubkey, lamports: u64, owner: Pubkey): Instruction {
    var f, t := Meta(funder, true, true), Meta(target, true, true);
    Instruction(SYSTEM_ID, [f, t, f], CreateData(lamports, owner))
  }

  /** Two different accounts: a funder that can pay, and an empty system account. */
  ghost predicate Fundable(f: Account, t: Account, lamports: u64) {
    && f.address != t.address && f.lamports >= lamports
    && EmptySystem(t) && !t.executable
  }

  lemma FlagsAreGranted(ctx: Ctx, funder: Pubkey, target: Pubkey, lamports: u64, owner: Pubkey)
    requires ctx.metas == CreateTwiceNamed(funder, target, lamports, owner).metas && funder != target
    ensures IsSigner(ctx, funder) && IsSigner(ctx, target) && IsWritable(ctx, funder) && IsWritable(ctx, target)
  {
    assert ctx.metas[1..][0] == ctx.metas[1];
  }

  /** The handler accepts the three clones. */
  lemma HandlerAcceptsClones(ctx: Ctx, f: Account, t: Account, lamports: u64, owner: Pubkey)
    requires Fundable(f, t, lamports) && ctx.metas == CreateTwiceNamed(f.address, t.address, lamports, owner).metas
    ensures Invoke(ctx, CreateData(lamports, owner), [f, t, f]).Ok?
  {
    CreateDataReads(lamports, owner);
    FlagsAreGranted(ctx, f.address, t.address, lamports, owner);
    var w, data := [f, t, f], CreateData(lamports, owner);
    assert Invoke(ctx, data, w) == CreateAccount(ctx, data[4..], w) == Create(w, lamports, 0, owner);
  }

  lemma PairLookups(f: Account, t: Account)
    requires f.address != t.address
    ensures Lookup([f, t], f.address) == Some(f) && Lookup([f, t], t.address) == Some(t)
  {
    LookupAt([f, t], 0);
    LookupAt([f, t], 1);
  }

  lemma ThreeClones(metas: seq<Meta>, f: Account, t: Account)
    requires f.address != t.address && |metas| == 3
    requires metas[0].pubkey == f.address && metas[1].pubkey == t.address && metas[2].pubkey == f.address
    ensures Resolvable(metas, [f, t]) && Resolved(metas, [f, t]) == [f, t, f]
  {
    PairLookups(f, t);
  }

  function Created(target: Account, lamports: u64, owner: Pubkey): Account {
    Account(target.address, lamports, [], owner, false, target.rentEpoch)
  }

  lemma CreateSlice(w: seq<Account>, lamports: u64, owner: Pubkey)
    requires |w| == 3 && Fundable(w[0], w[1], lamports)
    ensures var r := Create(w, lamports, 0, owner);
      r.Ok? && |r.value| == 3 && r.value[1] == Created(w[1], lamports, owner) && r.value[2] == w[2]
  {
    assert Zeroes(0) == [];
  }

  /** The handler debits the first copy of the funder; the write-back ends with the second. */
  lemma LastFunderCopyWins(env: Env, cells: Cells, ix: Instruction, f: Account, t: Account, a: CreateArgs)
    requires HandlerAccepts(env, cells, ix, [f, t]) && Fundable(f, t, a.lamports)
    requires |ix.metas| == 3 && ArgsOf(ix.data) == Some(a) && a.space == 0
    requires ix.metas[0].pubkey == f.address && ix.metas[1].pubkey == t.address && ix.metas[2].pubkey == f.address
    ensures Dispatch(Unchecked(env), cells, ix, [f, t]).out.accounts == [f, Created(t, a.lamports, a.owner)]
  {
    ThreeClones(ix.metas, f, t);
    WhatCreateDoes(env, cells, ix, [f, t]);
    CreateSlice(Resolved(ix.metas, [f, t]), a.lamports, a.owner);
    SecondFunderCopyIsWritten(env, cells, ix, f, t);
  }

  lemma SecondFunderCopyIsWritten(env: Env, cells: Cells, ix: Instruction, f: Account, t: Account)
    requires HandlerAccepts(env, cells, ix, [f, t]) && f.address != t.address && |ix.metas| == 3
    requires ix.metas[0].pubkey == f.address && ix.metas[1].pubkey == t.address && ix.metas[2].pubkey == f.address
    ensures var post := Post(env, cells, ix, [f, t]);
      |post| == 3 && Dispatch(Unchecked(env), cells, ix, [f, t]).out.accounts == [post[2], post[1]]
  {
    WrittenBack(env, cells, ix, [f, t], 0, 2);
    WrittenBack(env, cells, ix, [f, t], 1, 1);
  }

  lemma ExampleHandlerAccepts(env: Env, cells: Cells, f: Account, t: Account, lamports: u64, owner: Pubkey)
    requires SystemRegistered(env) && Limit(env, cells) >= SYSTEM_PROGRAM_COST && Fundable(f, t, lamports)
    ensures HandlerAccepts(env, cells, CreateTwiceNamed(f.address, t.address, lamports, owner), [f, t])
  {
    var ix := CreateTwiceNamed(f.address, t.address, lamports, owner);
    ThreeClones(ix.metas, f, t);
    HandlerAcceptsClones(SystemCtx(env, cells, ix), f, t, lamports, owner);
    CreateDataReads(lamports, owner);
  }

  lemma ExampleIsAcceptable(f: Account, t: Account, lamports: u64, owner: Pubkey)
    requires Fundable(f, t, lamports) && owner != SYSTEM_ID
    ensures var ix := CreateTwiceNamed(f.address, t.address, lamports, owner);
      && ArgsOf(ix.data) == Some(CreateArgs(lamports, 0, owner))
      && Acceptable(ix.metas, f, t, CreateArgs(lamports, 0, owner))
      && (MintsLamports(ix) <==> lamports > 0)
  {
    var ix := CreateTwiceNamed(f.address, t.address, lamports, owner);
    CreateDataReads(lamports, owner);
    assert ix.metas[2].pubkey == ix.metas[0].pubkey;
    assert LastNaming(ix.metas, 1) && !LastNaming(ix.metas, 0);
  }

  lemma ExampleStep(env: Env, cells: Cells, ix: Instruction, f: Account, t: Account, a: CreateArgs)
    requires HandlerAccepts(env, cells, ix, [f, t]) && SystemHarness(env) && f.address != t.address
    requires |ix.metas| == 3 && Resolved(ix.metas, [f, t]) == [f, t, f]
    requires ArgsOf(ix.data) == Some(a) && Acceptable(ix.metas, f, t, a) && (MintsLamports(ix) <==> a.lamports > 0)
    ensures Succeeds(env, cells, ix, [f, t])
    ensures Dispatch(env, cells, ix, [f, t]) == Dispatch(Unchecked(env), cells, ix, [f, t])
    ensures SumBy(Lamports(), Dispatch(env, cells, ix, [f, t]).out.accounts) == SumBy(Lamports(), [f, t]) + a.lamports
  {
    AcceptedCreate(env, cells, ix, [f, t]);
  }

  /** Whatever the amount, the step succeeds under Strict and raises the total by it. */
  lemma RepeatedFunderMintsLamports(env: Env, cells: Cells, f: Account, t: Account, lamports: u64, owner: Pubkey)
    requires SystemHarness(env) && Limit(env, cells) >= SYSTEM_PROGRAM_COST
    requires Fundable(f, t, lamports) && owner != SYSTEM_ID
    ensures var ix := CreateTwiceNamed(f.address, t.address, lamports, owner);
      var d := Dispatch(env, cells, ix, [f, t]);
      && Succeeds(env, cells, ix, [f, t])
      && d.out.accounts == [f, Created(t, lamports, owner)]
      && SumBy(Lamports(), d.out.accounts) == SumBy(Lamports(), [f, t]) + lamports
  {
    var ix := CreateTwiceNamed(f.address, t.address, lamports, owner);
    ThreeClones(ix.metas, f, t);
    ExampleHandlerAccepts(env, cells, f, t, lamports, owner);
    ExampleIsAcceptable(f, t, lamports, owner);
    ExampleStep(env, cells, ix, f, t, CreateArgs(lamports, 0, owner));
    LastFunderCopyWins(env, cells, ix, f, t, CreateArgs(lamports, 0, owner));
  }

  // --- without validation -------------------------------------------------------------------------

  /** The source, the destination, and the source again. */
  function SendTwiceNamed(source: Pubkey, destination: Pubkey, lamports: u64): Instruction {
    var a, b := Meta(source, true, true), Meta(destination, false, true);
    Instruction(SYSTEM_ID, [a, b, a], U32Bytes(2) + U64Bytes(lamports))
  }

  lemma SendReads(source: Pubkey, destination: Pubkey, lamports: u64)
    ensures var data := SendTwiceNamed(source, destination, lamports).data;
      |data| == 12 && U32At(data, 0) == 2 && U64At(data[4..], 0) == lamports
  {
    var data := SendTwiceNamed(source, destination, lamports).data;
    assert Holds(data, 0, data);
    HoldsBoth(data, 0, U32Bytes(2), U64Bytes(lamports));
    assert Holds(data[4..], 0, U64Bytes(lamports));
    ReadU32(data, 0, 2);
    ReadU64(data[4..], 0, lamports);
  }

  lemma SendIsHandled(ctx: Ctx, a: Account, b: Account, lamports: u64)
    requires ctx.metas == SendTwiceNamed(a.address, b.address, lamports).metas && a.address != b.address
    requires a.owner == SYSTEM_ID && lamports <= a.lamports
    ensures Invoke(ctx, SendTwiceNamed(a.address, b.address, lamports).data, [a, b, a]).Ok?
  {
    SendReads(a.address, b.address, lamports);
    assert ctx.metas[1..][0] == ctx.metas[1];
    var w, data := [a, b, a], SendTwiceNamed(a.address, b.address, lamports).data;
    assert Invoke(ctx, data, w) == Transfer(ctx, data[4..], w) == Ok(Moved(w, 0, 1, lamports));
  }

  /** Under Lax a Transfer of any amount that names its source again succeeds, is no CreateAccount,
      and raises the total by the amount. */
  lemma RepeatedSourceMakesLamports(env: Env, cells: Cells, a: Account, b: Account, lamports: u64,
                                    c: TokenRecord.Codec)
    requires SystemRegistered(env) && env.policy == Lax && Limit(env, cells) >= SYSTEM_PROGRAM_COST
    requires a.address != b.address && a.owner == SYSTEM_ID
    requires 0 < lamports <= a.lamports && b.lamports + lamports <= U64_MAX
    ensures var ix := SendTwiceNamed(a.address, b.address, lamports);
      && Succeeds(env, cells, ix, [a, b]) && !MintsLamports(ix) && Conservation.Raises(env, ix, [a, b], c)
      && SumBy(Lamports(), Dispatch(env, cells, ix, [a, b]).out.accounts) == SumBy(Lamports(), [a, b]) + lamports
  {
    var ix := SendTwiceNamed(a.address, b.address, lamports);
    ThreeClones(ix.metas, a, b);
    SendReads(a.address, b.address, lamports);
    SendIsHandled(SystemCtx(env, cells, ix), a, b, lamports);
    assert Succeeds(env, cells, ix, [a, b]);
    assert ix.metas[2].pubkey == ix.metas[0].pubkey;
    Conservation.StepTotal(env, cells, ix, [a, b], c);
    assert Conservation.SystemRoute(ix.data) == Some(Conservation.Route(0, 1, lamports));
  }
}
