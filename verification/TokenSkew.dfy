/** Skewed token instructions at work: Strict validation accepts every move its handler accepts,
    so a skewed one always makes tokens, and one of them takes a backed list out of balance. */
module TokenSkew {
  import opened Common
  import opened Bytes
  import opened Sums
  import opened Accounts
  import opened Validation
  import opened Engine
  import opened Kernel
  import opened Runs
  import opened TokenRecord
  import opened TokenProgram
  import opened TokenSupply
  import opened TokenRuns

  /** The handler accepts the working copies. */
  ghost predicate HandlerAccepts(s: State, c: Codec, id: Pubkey, ix: Instruction) {
    && TokenHarness(s, c, id) && ix.programId == id && Limit(s.env, s.cells) >= TOKEN_INSTRUCTION_CU
    && Resolvable(ix.metas, s.list) && Invoke(c, TokenCtx(s, ix), ix.data, Resolved(ix.metas, s.list)).Ok?
  }

  /** A copy of which only the data changed, and that only where the program owns the account and
      may write it. */
  ghost predicate OnlyDataWritten(ctx: Ctx, p: Account, n: Account) {
    && n == p.(data := n.data)
    && (n.data != p.data ==> p.owner == ctx.programId && IsWritable(ctx, p.address))
  }

  ghost predicate SliceWritten(ctx: Ctx, w: seq<Account>, post: seq<Account>) {
    |post| == |w| && forall j :: 0 <= j < |w| ==> OnlyDataWritten(ctx, w[j], post[j])
  }

  lemma MovesWriteData(c: Codec, ctx: Ctx, data: seq<byte>, w: seq<Account>)
    requires Lawful(c) && Invoke(c, ctx, data, w).Ok? && IsMove(data)
    ensures SliceWritten(ctx, w, Invoke(c, ctx, data, w).value)
  {
    var body := data[1..];
    if data[0] == 3 { TransferWritesData(c, ctx, body, w); }
    else if data[0] == 7 { MintToWritesData(c, ctx, body, w); }
    else { BurnWritesData(c, ctx, body, w); }
  }

  lemma TransferWritesData(c: Codec, ctx: Ctx, body: seq<byte>, w: seq<Account>)
    requires Transfer(c, ctx, body, w).Ok?
    ensures SliceWritten(ctx, w, Transfer(c, ctx, body, w).value)
  {
  }

  lemma MintToWritesData(c: Codec, ctx: Ctx, body: seq<byte>, w: seq<Account>)
    requires MintTo(c, ctx, body, w).Ok?
    ensures SliceWritten(ctx, w, MintTo(c, ctx, body, w).value)
  {
  }

  lemma BurnWritesData(c: Codec, ctx: Ctx, body: seq<byte>, w: seq<Account>)
    requires Burn(c, ctx, body, w).Ok?
    ensures SliceWritten(ctx, w, Burn(c, ctx, body, w).value)
  {
  }

  lemma WrittenObeys(ctx: Ctx, p: Account, n: Account)
    requires OnlyDataWritten(ctx, p, n) && FirstMeta(ctx.metas, p.address).Some?
    ensures AccountRules(ctx.programId, FirstMeta(ctx.metas, p.address).value.writable, p, n)
  {
  }

  /** The handler accepts the working copies and only writes their data. */
  ghost predicate WritesData(s: State, c: Codec, id: Pubkey, ix: Instruction) {
    && HandlerAccepts(s, c, id, ix)
    && var w := Resolved(ix.metas, s.list);
       SliceWritten(TokenCtx(s, ix), w, Invoke(c, TokenCtx(s, ix), ix.data, w).value)
  }

  lemma AccountWritten(s: State, c: Codec, id: Pubkey, ix: Instruction, i: nat)
    requires WritesData(s, c, id, ix) && i < |s.list|
    requires Succeeds(Unchecked(s.env), s.cells, ix, s.list)
    ensures var after := Dispatch(Unchecked(s.env), s.cells, ix, s.list).out.accounts;
      SameAddresses(s.list, after) && OnlyDataWritten(TokenCtx(s, ix), s.list[i], after[i])
  {
    var free := s.(env := Unchecked(s.env));
    TokenInvocation(free, c, id, ix);
    var j := CopySource(free.env, s.cells, ix, s.list, i);
  }

  /** Whatever the metas, either policy accepts an instruction that only writes data. */
  lemma DataWritesPass(s: State, c: Codec, id: Pubkey, ix: Instruction)
    requires WritesData(s, c, id, ix)
    ensures Succeeds(s.env, s.cells, ix, s.list)
  {
    var free := Unchecked(s.env);
    assert Succeeds(free, s.cells, ix, s.list);
    if s.env.policy == Strict {
      var after := Dispatch(free, s.cells, ix, s.list).out.accounts;
      DispatchShape(free, s.cells, ix, s.list);
      forall i | 0 <= i < |s.list| ensures OnlyDataWritten(TokenCtx(s, ix), s.list[i], after[i]) {
        AccountWritten(s, c, id, ix, i);
      }
      forall i | 0 <= i < |s.list| && FirstMeta(ix.metas, s.list[i].address).Some?
        ensures AccountRules(id, FirstMeta(ix.metas, s.list[i].address).value.writable, s.list[i], after[i])
      {
        WrittenObeys(TokenCtx(s, ix), s.list[i], after[i]);
      }
      forall i | 0 <= i < |s.list| ensures Credit()(s.list[i], after[i]) == 0 {
        assert Credit()(s.list[i], after[i]) == CreditOf(s.list[i], after[i]);
      }
      SumZipZero(Credit(), s.list, after);
      SumByPointwise(Lamports(), s.list, after);
      StrictVerdict(s.env, s.cells, ix, s.list);
    }
  }

  /** Whatever the metas, Strict accepts a Transfer, MintTo or Burn its handler accepts. */
  lemma MovesPassStrict(s: State, c: Codec, id: Pubkey, ix: Instruction)
    requires HandlerAccepts(s, c, id, ix) && IsMove(ix.data) && s.env.policy == Strict
    ensures Succeeds(s.env, s.cells, ix, s.list)
  {
    MovesWriteData(c, TokenCtx(s, ix), ix.data, Resolved(ix.metas, s.list));
    DataWritesPass(s, c, id, ix);
  }

  // --- a concrete list ----------------------------------------------------------------------------

  /** A mint with some supply, all of it in one token account, and the account's owner. */
  datatype Setup = Setup(mint: Pubkey, holder: Pubkey, owner: Pubkey, supply: u64)

  predicate Separate(x: Setup) {
    x.mint != x.holder && x.mint != x.owner && x.holder != x.owner
  }

  function MintRecord(x: Setup): Mint {
    Mint(Some(x.owner), x.supply, 0, true, None)
  }

  function HolderRecord(x: Setup): Token {
    Token(x.mint, x.owner, x.supply, None, Initialized, None, 0, None)
  }

  function ListOf(c: Codec, id: Pubkey, x: Setup): seq<Account> {
    [ Account(x.mint, 0, c.packMint(MintRecord(x), Zeroes(MINT_LEN)), id, false, 0),
      Account(x.holder, 0, c.packToken(HolderRecord(x), Zeroes(TOKEN_LEN)), id, false, 0),
      Account(x.owner, 0, [], SYSTEM_ID, false, 0) ]
  }

  /** The holder is named as source and as destination, and its owner signs. */
  function SelfTransfer(id: Pubkey, x: Setup, amount: u64): Instruction {
    Instruction(id,
      [Meta(x.holder, false, true), Meta(x.holder, false, true), Meta(x.owner, true, false)],
      [3] + U64Bytes(amount))
  }

  lemma SetupViews(c: Codec, id: Pubkey, x: Setup)
    requires Lawful(c) && id != SYSTEM_ID && Separate(x)
    ensures var list := ListOf(c, id, x);
      && Distinct(list)
      && ViewOf(c, id, list[0]) == AMint(MintRecord(x))
      && ViewOf(c, id, list[1]) == AToken(HolderRecord(x))
      && ViewOf(c, id, list[2]) == Neither
  {
    var list := ListOf(c, id, x);
    assert c.unpackToken(list[1].data) == Some(HolderRecord(x));
    assert c.unpackMint(list[1].data).None?;
  }

  lemma SetupIsBacked(c: Codec, id: Pubkey, x: Setup)
    requires Lawful(c) && id != SYSTEM_ID && Separate(x)
    ensures forall k: Pubkey :: Slack(c, id, k, ListOf(c, id, x)) == 0
    ensures Backed(c, id, ListOf(c, id, x))
  {
    var list := ListOf(c, id, x);
    SetupViews(c, id, x);
    forall k: Pubkey ensures Slack(c, id, k, list) == 0 {
      SumOfThree(SlackOf(c, id, k), list);
    }
    SlackBacks(c, id, list);
  }

  lemma SumOfThree(f: Account -> int, list: seq<Account>)
    requires |list| == 3
    ensures SumBy(f, list) == f(list[0]) + f(list[1]) + f(list[2])
  {
    assert SumBy(f, list[1..]) == f(list[1]) + SumBy(f, list[1..][1..]);
    assert SumBy(f, list[1..][1..]) == f(list[2]) + SumBy(f, list[1..][1..][1..]);
  }

  lemma SelfTransferReads(id: Pubkey, x: Setup, amount: u64)
    ensures var data := SelfTransfer(id, x, amount).data; IsMove(data) && data[0] == 3 && MoveAmount(data) == amount
  {
    var data := SelfTransfer(id, x, amount).data;
    assert data[1..] == U64Bytes(amount);
    assert Holds(data[1..], 0, U64Bytes(amount));
    ReadU64(data[1..], 0, amount);
  }

  lemma SetupResolves(c: Codec, id: Pubkey, x: Setup, amount: u64)
    requires Separate(x)
    ensures var ix, list := SelfTransfer(id, x, amount), ListOf(c, id, x);
      Resolvable(ix.metas, list) && Resolved(ix.metas, list) == [list[1], list[1], list[2]]
  {
    LookupAt(ListOf(c, id, x), 1);
    LookupAt(ListOf(c, id, x), 2);
  }

  lemma SelfTransferIsAccepted(c: Codec, ctx: Ctx, id: Pubkey, x: Setup, amount: u64)
    requires Lawful(c) && id != SYSTEM_ID && Separate(x) && amount <= x.supply && x.supply + amount <= U64_MAX
    requires ctx.programId == id && ctx.metas == SelfTransfer(id, x, amount).metas
    ensures var ix, list := SelfTransfer(id, x, amount), ListOf(c, id, x);
      Invoke(c, ctx, ix.data, [list[1], list[1], list[2]]).Ok?
  {
    var ix, list := SelfTransfer(id, x, amount), ListOf(c, id, x);
    var w := [list[1], list[1], list[2]];
    SetupViews(c, id, x);
    SelfTransferReads(id, x, amount);
    assert ctx.metas[1..][0] == ctx.metas[1] && ctx.metas[1..][1..][0] == ctx.metas[2];
    assert IsWritable(ctx, x.holder) && IsSigner(ctx, x.owner);
    assert ReadToken(c, ctx, w[0]) == Ok(HolderRecord(x));
    assert Transfer(c, ctx, ix.data[1..], w).Ok?;
  }

  /** For any lawful codec and any amount of the supply: a backed list, and one instruction that
      Strict accepts and that leaves more held of the mint than its supply. */
  lemma SelfTransferBreaksBacking(s: State, c: Codec, id: Pubkey, x: Setup, amount: u64)
    requires TokenHarness(s, c, id) && s.env.policy == Strict && Limit(s.env, s.cells) >= TOKEN_INSTRUCTION_CU
    requires Separate(x) && s.list == ListOf(c, id, x)
    requires 0 < amount <= x.supply && x.supply + amount <= U64_MAX
    ensures var ix := SelfTransfer(id, x, amount);
      && Backed(c, id, s.list) && Skews(ix) && Succeeds(s.env, s.cells, ix, s.list)
      && !Backed(c, id, After(s, Exec(ix)).list)
      && Held(c, id, x.mint, After(s, Exec(ix)).list) == Supply(c, id, x.mint, After(s, Exec(ix)).list) + amount
  {
    var ix := SelfTransfer(id, x, amount);
    SetupIsBacked(c, id, x);
    SetupResolves(c, id, x, amount);
    SelfTransferReads(id, x, amount);
    SelfTransferIsAccepted(c, TokenCtx(s, ix), id, x, amount);
    MovesPassStrict(s, c, id, ix);
    SetupMoves(s, c, id, x, amount);
    LowersSlackIff(s, c, id, ix);
    SlackIsDifference(c, id, x.mint, After(s, Exec(ix)).list);
  }

  lemma SetupMoves(s: State, c: Codec, id: Pubkey, x: Setup, amount: u64)
    requires Lawful(c) && id != SYSTEM_ID && Separate(x) && s.list == ListOf(c, id, x) && amount > 0
    ensures var ix := SelfTransfer(id, x, amount); Skews(ix) && MovesMint(s, c, id, ix, x.mint)
  {
    var ix := SelfTransfer(id, x, amount);
    SetupViews(c, id, x);
    SetupResolves(c, id, x, amount);
    SelfTransferReads(id, x, amount);
    assert ix.metas[1].pubkey == ix.metas[0].pubkey;
  }

  /** The same holds of any skewed instruction its handler accepts, wherever the gap of the mint
      it moves is smaller than the amount. */
  lemma SkewedMoveBreaksBacking(s: State, c: Codec, id: Pubkey, ix: Instruction, k: Pubkey)
    requires HandlerAccepts(s, c, id, ix) && s.env.policy == Strict && Backed(c, id, s.list)
    requires Skews(ix) && MovesMint(s, c, id, ix, k) && Slack(c, id, k, s.list) < MoveAmount(ix.data)
    ensures Succeeds(s.env, s.cells, ix, s.list) && !Backed(c, id, After(s, Exec(ix)).list)
  {
    MovesPassStrict(s, c, id, ix);
    LowersSlackIff(s, c, id, ix);
    SlackIsDifference(c, id, k, After(s, Exec(ix)).list);
  }

  /** So a token step takes a backed list out of balance exactly when it is an accepted skewed
      move of more than the gap of its mint. */
  lemma StaysBackedIff(s: State, c: Codec, id: Pubkey, ix: Instruction)
    requires TokenHarness(s, c, id) && ix.programId == id && Backed(c, id, s.list)
    ensures Backed(c, id, After(s, Exec(ix)).list) <==>
      !(&& Succeeds(s.env, s.cells, ix, s.list) && Skews(ix)
        && exists k: Pubkey :: MovesMint(s, c, id, ix, k) && Slack(c, id, k, s.list) < MoveAmount(ix.data))
  {
    var after := After(s, Exec(ix)).list;
    SlackBacks(c, id, s.list);
    SlackBacks(c, id, after);
    forall k: Pubkey
      ensures Slack(c, id, k, after) == Slack(c, id, k, s.list) + SlackChange(s, c, id, k, ix)
    {
      StepSlack(s, c, id, ix, k);
    }
    if Succeeds(s.env, s.cells, ix, s.list) && Skews(ix) {
      TokenInvocation(s, c, id, ix);
      LowersSlackIff(s, c, id, ix);
    }
  }
}
