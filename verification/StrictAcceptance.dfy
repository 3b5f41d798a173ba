/** What Strict validation lets through: exact for arbitrary built-ins, then for the programs. */
module StrictAcceptance {
  import opened Common
  import opened Bytes
  import opened Sums
  import opened Accounts
  import opened Validation
  import opened Engine
  import opened Kernel
  import opened Conservation
  import opened StrictConservation
  import TokenRecord
  import TokenVerdicts
  import StakeVerdicts
  import TableVerdicts
  import Verdicts
  import Stake = StakeProgram
  import Token = TokenProgram
  import Tables = AltProgram
  import System = SystemProgram

  /** What may become of an account: nothing, or, if it is writable, anything a program does to
      its own account, a credit, or new data in an empty system account. Never another flag. */
  ghost predicate Permitted(programId: Pubkey, writable: bool, p: Account, n: Account) {
    || SameState(p, n)
    || (writable && n.executable == p.executable
        && (p.owner == programId || OnlyCredited(p, n) || (EmptySystem(p) && n.owner == p.owner)))
  }

  predicate FirstWritable(metas: seq<Meta>, k: Pubkey) {
    FirstMeta(metas, k).Some? && FirstMeta(metas, k).value.writable
  }

  /** The credit of a created account is all it holds in the end. */
  lemma CreditLaw(p: Account, n: Account)
    ensures CreditOf(p, n)
      == if p.lamports == 0 && p.data == [] && p.owner == 0 && (n.owner != 0 || n.data != []) then n.lamports else 0
  {
  }

  lemma RulesPermit(programId: Pubkey, writable: bool, p: Account, n: Account)
    ensures AccountRules(programId, writable, p, n) <==> Permitted(programId, writable, p, n)
  {
  }

  lemma UnnamedIsSame(env: Env, cells: Cells, ix: Instruction, list: seq<Account>, i: nat)
    requires WellBehaved(env) && Distinct(list) && i < |list| && Succeeds(env, cells, ix, list)
    requires FirstMeta(ix.metas, list[i].address).None?
    ensures SameAddresses(list, Dispatch(env, cells, ix, list).out.accounts)
    ensures Dispatch(env, cells, ix, list).out.accounts[i] == list[i]
  {
    assert forall k :: 0 <= k < |ix.metas| ==> ix.metas[k].pubkey != list[i].address;
    var j := CopySource(env, cells, ix, list, i);
  }

  /** For an arbitrary built-in and any metas: Strict accepts a step exactly when it succeeds
      without validation, what becomes of every account is permitted, and the total of the list
      grows by exactly the creation credit. */
  lemma StrictAcceptsIff(env: Env, cells: Cells, ix: Instruction, list: seq<Account>)
    requires WellBehaved(env) && env.policy == Strict && Distinct(list)
    ensures var d := Dispatch(Unchecked(env), cells, ix, list);
      && SameAddresses(list, d.out.accounts)
      && (Succeeds(env, cells, ix, list) <==>
            && d.out.error.None?
            && (forall i :: 0 <= i < |list| ==>
                  Permitted(ix.programId, FirstWritable(ix.metas, list[i].address), list[i], d.out.accounts[i]))
            && SumBy(Lamports(), d.out.accounts) == SumBy(Lamports(), list) + SumZip(Credit(), list, d.out.accounts))
  {
    var free := Unchecked(env);
    var after := Dispatch(free, cells, ix, list).out.accounts;
    DispatchShape(free, cells, ix, list);
    StrictVerdict(env, cells, ix, list);
    if Succeeds(free, cells, ix, list) {
      forall i | 0 <= i < |list|
        ensures FirstMeta(ix.metas, list[i].address).None? ==> after[i] == list[i]
        ensures FirstMeta(ix.metas, list[i].address).Some? ==>
          (AccountRules(ix.programId, FirstWritable(ix.metas, list[i].address), list[i], after[i])
           <==> Permitted(ix.programId, FirstWritable(ix.metas, list[i].address), list[i], after[i]))
      {
        if FirstMeta(ix.metas, list[i].address).None? { UnnamedIsSame(free, cells, ix, list, i); }
        RulesPermit(ix.programId, FirstWritable(ix.metas, list[i].address), list[i], after[i]);
      }
    }
  }

  /** An empty system account is only handed to another owner by the system program. */
  lemma OnlySystemReowns(env: Env, cells: Cells, ix: Instruction, list: seq<Account>, i: nat)
    requires WellBehaved(env) && env.policy == Strict && Distinct(list) && i < |list|
    requires EmptySystem(list[i]) && ix.programId != SYSTEM_ID
    ensures SameAddresses(list, Dispatch(env, cells, ix, list).out.accounts)
    ensures Dispatch(env, cells, ix, list).out.accounts[i].owner == SYSTEM_ID
  {
    DispatchShape(env, cells, ix, list);
    StrictVerdict(env, cells, ix, list);
    StrictAcceptsIff(env, cells, ix, list);
  }

  // --- copy by copy -------------------------------------------------------------------------------

  /** What is written back of the slice is permitted. */
  ghost predicate CopiesPermitted(ix: Instruction, w: seq<Account>, post: seq<Account>) {
    |post| == |w| == |ix.metas| && forall j: nat :: j < |w| && LastNaming(ix.metas, j) ==>
      Permitted(ix.programId, FirstWritable(ix.metas, ix.metas[j].pubkey), w[j], post[j])
  }

  lemma LastNamingIsSource(env: Env, cells: Cells, ix: Instruction, list: seq<Account>, j: nat) returns (i: nat)
    requires WellBehaved(env) && Distinct(list) && Succeeds(env, cells, ix, list) && LastNaming(ix.metas, j)
    ensures Resolvable(ix.metas, list) && i < |list| && list[i].address == ix.metas[j].pubkey
    ensures SameAddresses(list, Dispatch(env, cells, ix, list).out.accounts)
    ensures |InvocationOf(env, cells, ix, list).accounts| == |ix.metas| && Resolved(ix.metas, list)[j] == list[i]
    ensures Dispatch(env, cells, ix, list).out.accounts[i] == InvocationOf(env, cells, ix, list).accounts[j]
  {
    SuccessfulDispatch(env, cells, ix, list);
    assert ix.metas[j] in ix.metas;
    i := Find(list, ix.metas[j].pubkey);
    var k := CopySource(env, cells, ix, list, i);
  }

  lemma PermittedByCopy(env: Env, cells: Cells, ix: Instruction, list: seq<Account>)
    requires WellBehaved(env) && Distinct(list) && Succeeds(env, cells, ix, list)
    ensures Resolvable(ix.metas, list)
    ensures var after := Dispatch(env, cells, ix, list).out.accounts;
      && SameAddresses(list, after)
      && ((forall i :: 0 <= i < |list| ==>
             Permitted(ix.programId, FirstWritable(ix.metas, list[i].address), list[i], after[i]))
          <==> CopiesPermitted(ix, Resolved(ix.metas, list), InvocationOf(env, cells, ix, list).accounts))
  {
    SuccessfulDispatch(env, cells, ix, list);
    DispatchShape(env, cells, ix, list);
    var after := Dispatch(env, cells, ix, list).out.accounts;
    var w, post := Resolved(ix.metas, list), InvocationOf(env, cells, ix, list).accounts;
    if CopiesPermitted(ix, w, post) {
      forall i | 0 <= i < |list|
        ensures Permitted(ix.programId, FirstWritable(ix.metas, list[i].address), list[i], after[i])
      {
        var j := CopySource(env, cells, ix, list, i);
        if j >= 0 { assert LastNaming(ix.metas, j); }
      }
    }
    if forall i :: 0 <= i < |list| ==>
         Permitted(ix.programId, FirstWritable(ix.metas, list[i].address), list[i], after[i]) {
      forall j: nat | j < |w| && LastNaming(ix.metas, j)
        ensures Permitted(ix.programId, FirstWritable(ix.metas, ix.metas[j].pubkey), w[j], post[j])
      {
        var i := LastNamingIsSource(env, cells, ix, list, j);
      }
    }
  }

  /** The instruction succeeds without validation. */
  ghost predicate Handled(env: Env, cells: Cells, ix: Instruction, list: seq<Account>, c: TokenRecord.Codec) {
    && RunsBundled(env, ix, c) && Distinct(list) && ix.programId != SYSTEM_ID
    && ix.programId in env.registry && env.registry[ix.programId] != System.TheSystemProgram()
    && Succeeds(Unchecked(env), cells, ix, list)
  }

  ghost function PostOf(env: Env, cells: Cells, ix: Instruction, list: seq<Account>): seq<Account>
    requires Succeeds(Unchecked(env), cells, ix, list)
  {
    InvocationOf(Unchecked(env), cells, ix, list).accounts
  }

  /** Programs other than the system program are permitted no creation. */
  lemma NoCreditOfAccount(env: Env, cells: Cells, ix: Instruction, list: seq<Account>, i: nat)
    requires WellBehaved(env) && Distinct(list) && i < |list| && ix.programId != SYSTEM_ID
    requires Succeeds(env, cells, ix, list) && EarnsNoCredit(env.registry[ix.programId])
    ensures SameAddresses(list, Dispatch(env, cells, ix, list).out.accounts)
    ensures var n := Dispatch(env, cells, ix, list).out.accounts[i];
      Permitted(ix.programId, FirstWritable(ix.metas, list[i].address), list[i], n) ==> Credit()(list[i], n) == 0
  {
    var j := CopySource(env, cells, ix, list, i);
    SuccessfulDispatch(env, cells, ix, list);
    assert NoCreditSlice(Resolved(ix.metas, list), InvocationOf(env, cells, ix, list).accounts);
    assert Credit()(list[i], Dispatch(env, cells, ix, list).out.accounts[i])
      == CreditOf(list[i], Dispatch(env, cells, ix, list).out.accounts[i]);
  }

  lemma NoCreditWhenPermitted(env: Env, cells: Cells, ix: Instruction, list: seq<Account>, c: TokenRecord.Codec)
    requires Handled(env, cells, ix, list, c)
    ensures var after := Dispatch(Unchecked(env), cells, ix, list).out.accounts;
      && SameAddresses(list, after)
      && ((forall i :: 0 <= i < |list| ==>
             Permitted(ix.programId, FirstWritable(ix.metas, list[i].address), list[i], after[i]))
          ==> SumZip(Credit(), list, after) == 0)
  {
    var after := Dispatch(Unchecked(env), cells, ix, list).out.accounts;
    DispatchShape(Unchecked(env), cells, ix, list);
    OthersEarnNone(env.registry[ix.programId], c);
    forall i | 0 <= i < |list|
      ensures Permitted(ix.programId, FirstWritable(ix.metas, list[i].address), list[i], after[i])
        ==> Credit()(list[i], after[i]) == 0
    {
      NoCreditOfAccount(Unchecked(env), cells, ix, list, i);
    }
    if forall i :: 0 <= i < |list| ==> Credit()(list[i], after[i]) == 0 { SumZipZero(Credit(), list, after); }
  }

  /** A program other than the system program, with any metas: Strict accepts what its handler
      accepts exactly when what is written back is permitted and the route loses nothing. */
  lemma HandledPassesIff(env: Env, cells: Cells, ix: Instruction, list: seq<Account>, c: TokenRecord.Codec)
    requires Handled(env, cells, ix, list, c) && env.policy == Strict
    ensures Resolvable(ix.metas, list)
    ensures var w := Resolved(ix.metas, list);
      Succeeds(env, cells, ix, list) <==>
        && CopiesPermitted(ix, w, PostOf(env, cells, ix, list))
        && RouteGain(ix.metas, w, RouteOf(env.registry[ix.programId], ix.data, w, c)) == 0
  {
    StrictAcceptsIff(env, cells, ix, list);
    PermittedByCopy(Unchecked(env), cells, ix, list);
    NoCreditWhenPermitted(env, cells, ix, list, c);
    StepTotal(Unchecked(env), cells, ix, list, c);
  }

  // --- the programs -------------------------------------------------------------------------------

  /** The working copies of an instruction, in its context. */
  ghost predicate Works(ctx: Ctx, ix: Instruction, w: seq<Account>) {
    && ctx.programId == ix.programId != SYSTEM_ID && ctx.metas == ix.metas && |w| == |ix.metas|
    && forall j :: 0 <= j < |w| ==> w[j].address == ix.metas[j].pubkey
  }

  /** What a token instruction does to a copy: nothing, a write to a writable copy the program
      owns, a credit, or a fresh record in a copy it did not own. */
  ghost predicate TokenCopy(ctx: Ctx, data: seq<byte>, j: nat, p: Account, n: Account)
    requires data != []
  {
    || n == p
    || (IsWritable(ctx, p.address) && n.executable == p.executable
        && (p.owner == ctx.programId || OnlyCredited(p, n) || (j == 0 && data[0] <= 1 && n.owner == ctx.programId)))
  }

  lemma MovedCopies(c: TokenRecord.Codec, ctx: Ctx, data: seq<byte>, w: seq<Account>)
    requires Token.Invoke(c, ctx, data, w).Ok? && data[0] in {3, 7, 8, 9}
    ensures |Token.Invoke(c, ctx, data, w).value| == |w| > 0 && data != []
    ensures forall j: nat :: j < |w| ==> TokenCopy(ctx, data, j, w[j], Token.Invoke(c, ctx, data, w).value[j])
  {
    var body := data[1..];
    Verdicts.Flags(ctx, w);
    if data[0] == 3 {
      TokenVerdicts.TransferLeaves(c, ctx, body, w);
      TokenVerdicts.TransferVerdict(c, ctx, body, w);
    } else if data[0] == 7 {
      TokenVerdicts.MintToLeaves(c, ctx, body, w);
      TokenVerdicts.MintToVerdict(c, ctx, body, w);
    } else if data[0] == 8 {
      TokenVerdicts.BurnLeaves(c, ctx, body, w);
      TokenVerdicts.BurnVerdict(c, ctx, body, w);
    } else {
      TokenVerdicts.CloseAccountVerdict(c, ctx, w);
    }
  }

  lemma TokenCopies(c: TokenRecord.Codec, ctx: Ctx, data: seq<byte>, w: seq<Account>)
    requires Token.Invoke(c, ctx, data, w).Ok?
    ensures |Token.Invoke(c, ctx, data, w).value| == |w| > 0 && data != []
    ensures forall j: nat :: j < |w| ==> TokenCopy(ctx, data, j, w[j], Token.Invoke(c, ctx, data, w).value[j])
    ensures data[0] <= 1 ==>
      IsWritable(ctx, w[0].address) && Token.Invoke(c, ctx, data, w).value[0].owner == ctx.programId
      && Token.Invoke(c, ctx, data, w).value[0].executable == w[0].executable
  {
    var body := data[1..];
    TokenVerdicts.TagsSelect(c, ctx, data, w);
    Verdicts.Flags(ctx, w);
    if data[0] == 0 { TokenVerdicts.InitializeMintVerdict(c, ctx, body, w); }
    else if data[0] == 1 { TokenVerdicts.InitializeAccountVerdict(c, ctx, w); }
    else if data[0] == 4 { TokenVerdicts.ApproveVerdict(c, ctx, body, w); }
    else if data[0] == 5 { TokenVerdicts.RevokeVerdict(c, ctx, w); }
    else { MovedCopies(c, ctx, data, w); }
  }

  /** The programs are told apart by their cost or by what they answer to tag 3 without accounts. */
  lemma ProgramsDiffer(c: TokenRecord.Codec)
    ensures Stake.StakeProgramSimulator() != Token.SplTokenSimulator(c)
    ensures Tables.AltProgramSimulator() != Token.SplTokenSimulator(c)
    ensures Tables.AltProgramSimulator() != Stake.StakeProgramSimulator()
  {
    assert Token.SplTokenSimulator(c).cost(0) == 4_000;
    assert Stake.StakeProgramSimulator().cost(0) == Tables.AltProgramSimulator().cost(0) == 750;
    var ctx := Ctx(0, [], Sysvars(Clock(0, 0, 0), AnyOracles()), 0, 0);
    var data: seq<byte> := [3, 0, 0, 0];
    assert U32At(data, 0) == 3 by { assert U32Bytes(3) == data; ReadU32(data, 0, 3); }
    StakeVerdicts.TagsSelect(ctx, data, []);
    TableVerdicts.TagsSelect(ctx, data, []);
    TableVerdicts.DeactivateTableVerdict(ctx, []);
    assert Tables.DeactivateTable(ctx, []).Err?;
    assert Stake.StakeProgramSimulator().invoke(ctx, data, [], Cells(None, 0)).error == Some(BuiltinError);
    assert Tables.AltProgramSimulator().invoke(ctx, data, [], Cells(None, 0)).error == Some(AccountIndexOutOfBounds);
  }

  function AnyOracles(): Oracles {
    Oracles(
      (slot: u64) => 0, (base: Pubkey, seed: seq<byte>, owner: Pubkey) => None,
      (seeds: seq<seq<byte>>, programId: Pubkey) => None, (b: seq<byte>) => true, (n: nat) => 0)
  }

  /** What the handler of a fixed-cost program made of the slice. */
  lemma HandlerRan(env: Env, cells: Cells, ix: Instruction, list: seq<Account>, c: TokenRecord.Codec, cost: u64,
                   handler: Handler) returns (ctx: Ctx)
    requires Handled(env, cells, ix, list, c) && env.registry[ix.programId] == FixedCost(cost, handler)
    ensures Resolvable(ix.metas, list) && ctx.programId == ix.programId && ctx.metas == ix.metas
    ensures Works(ctx, ix, Resolved(ix.metas, list))
    ensures handler(ctx, ix.data, Resolved(ix.metas, list)) == Ok(PostOf(env, cells, ix, list))
  {
    SuccessfulDispatch(Unchecked(env), cells, ix, list);
    ctx := Ctx(ix.programId, ix.metas, env.sysvars, Limit(env, cells), cost);
  }

  /** Strict accepts a token instruction its handler accepts exactly when an initialisation that
      is written back works on an account of the program, and a close loses no lamports. */
  lemma TokenPassesIff(env: Env, cells: Cells, ix: Instruction, list: seq<Account>, c: TokenRecord.Codec)
    requires Handled(env, cells, ix, list, c) && env.policy == Strict
    requires env.registry[ix.programId] == Token.SplTokenSimulator(c)
    ensures Resolvable(ix.metas, list) && ix.metas != [] && ix.data != []
    ensures var w := Resolved(ix.metas, list);
      Succeeds(env, cells, ix, list) <==>
        && (ix.data[0] <= 1 && LastNaming(ix.metas, 0) ==> w[0].owner == ix.programId)
        && RouteGain(ix.metas, w, TokenRoute(ix.data, w)) == 0
  {
    HandledPassesIff(env, cells, ix, list, c);
    var ctx := HandlerRan(env, cells, ix, list, c, 4_000,
      (ctx: Ctx, data: seq<byte>, w: seq<Account>) => Token.Invoke(c, ctx, data, w));
    TokenCopies(c, ctx, ix.data, Resolved(ix.metas, list));
  }

  /** With distinct metas a route loses nothing exactly when its end has room. */
  lemma RouteHasRoom(metas: seq<Meta>, w: seq<Account>, r: Route)
    requires DistinctMetas(metas) && |w| == |metas| && r.from < |w| && r.to < |w|
    ensures RouteGain(metas, w, Some(r)) == 0 <==> w[r.to].lamports + r.amount <= U64_MAX
  {
  }

  /** With distinct metas, a token close its handler accepts passes Strict exactly when the
      destination has room for the balance. */
  lemma CloseAccountPassesIff(env: Env, cells: Cells, ix: Instruction, list: seq<Account>, c: TokenRecord.Codec)
    requires Handled(env, cells, ix, list, c) && env.policy == Strict
    requires env.registry[ix.programId] == Token.SplTokenSimulator(c)
    requires ix.data != [] && ix.data[0] == 9 && DistinctMetas(ix.metas)
    ensures Resolvable(ix.metas, list) && |ix.metas| >= 3
    ensures var w := Resolved(ix.metas, list);
      Succeeds(env, cells, ix, list) <==> w[1].lamports + w[0].lamports <= U64_MAX
  {
    TokenPassesIff(env, cells, ix, list, c);
    var w := Resolved(ix.metas, list);
    var ctx := HandlerRan(env, cells, ix, list, c, 4_000,
      (ctx: Ctx, data: seq<byte>, w: seq<Account>) => Token.Invoke(c, ctx, data, w));
    TokenVerdicts.TagsSelect(c, ctx, ix.data, w);
    assert Token.CloseAccount(c, ctx, w).Ok?;
    RouteHasRoom(ix.metas, w, Route(0, 1, w[0].lamports));
  }

  // --- stake --------------------------------------------------------------------------------------

  ghost predicate StakeCopy(ctx: Ctx, j: nat, p: Account, n: Account) {
    || n == p
    || (IsWritable(ctx, p.address) && n.executable == p.executable && n.owner == p.owner
        && if j == 0 then n.lamports < p.lamports || n.data != p.data else OnlyCredited(p, n))
  }

  lemma StakeCopies(ctx: Ctx, data: seq<byte>, w: seq<Account>)
    requires Stake.Invoke(ctx, data, w).Ok?
    ensures |Stake.Invoke(ctx, data, w).value| == |w| > 0
    ensures w[0].data == [] ==> Stake.Invoke(ctx, data, w).value[0] == w[0]
    ensures forall j: nat :: j < |w| ==> StakeCopy(ctx, j, w[j], Stake.Invoke(ctx, data, w).value[j])
  {
    var body := data[4..];
    StakeVerdicts.TagsSelect(ctx, data, w);
    Verdicts.Flags(ctx, w);
    if U32At(data, 0) == 0 { StakeVerdicts.InitializeVerdict(ctx, body, w); }
    else if U32At(data, 0) == 1 { StakeVerdicts.AuthorizeVerdict(ctx, body, w); }
    else if U32At(data, 0) == 2 { StakeVerdicts.DelegateStakeVerdict(ctx, w); }
    else if U32At(data, 0) == 4 { 
      StakeVerdicts.WithdrawVerdict(ctx, body, w);
      StakeVerdicts.WithdrawLeaves(ctx, body, w);
      StakeVerdicts.StakeLayout(w[0].data);
    }
    else { StakeVerdicts.DeactivateVerdict(ctx, w); }
  }

  lemma StakeSlicePermitted(ctx: Ctx, ix: Instruction, w: seq<Account>)
    requires Works(ctx, ix, w) && Stake.Invoke(ctx, ix.data, w).Ok?
    ensures var post := Stake.Invoke(ctx, ix.data, w).value;
      && post != [] && w != []
      && (CopiesPermitted(ix, w, post)
          <==> (LastNaming(ix.metas, 0) && post[0] != w[0] ==> w[0].owner == ix.programId))
  {
    StakeCopies(ctx, ix.data, w);
  }

  /** Strict accepts a stake instruction its handler accepts exactly when what it changes of its
      first account and writes back is the program's, and a withdrawal loses no lamports. */
  lemma StakePassesIff(env: Env, cells: Cells, ix: Instruction, list: seq<Account>, c: TokenRecord.Codec)
    requires Handled(env, cells, ix, list, c) && env.policy == Strict
    requires env.registry[ix.programId] == Stake.StakeProgramSimulator()
    ensures Resolvable(ix.metas, list) && ix.metas != [] && PostOf(env, cells, ix, list) != []
    ensures var w := Resolved(ix.metas, list);
      Succeeds(env, cells, ix, list) <==>
        && (LastNaming(ix.metas, 0) && PostOf(env, cells, ix, list)[0] != w[0] ==> w[0].owner == ix.programId)
        && RouteGain(ix.metas, w, StakeRoute(ix.data)) == 0
  {
    ProgramsDiffer(c);
    HandledPassesIff(env, cells, ix, list, c);
    var ctx := HandlerRan(env, cells, ix, list, c, 750, Stake.Invoke);
    StakeSlicePermitted(ctx, ix, Resolved(ix.metas, list));
  }

  // --- lookup tables ------------------------------------------------------------------------------

  /** The payer of a new table loses lamports, the recipient of a closed one gets them, and the
      table itself changes. */
  ghost predicate TableCopy(ctx: Ctx, tag: u32, j: nat, p: Account, n: Account) {
    || n == p
    || (IsWritable(ctx, p.address) && (tag == 0 || n.executable == p.executable)
        && (j == 0 || (j == 2 && n == p.(lamports := n.lamports) && (n.lamports < p.lamports <==> tag == 0)))
        && (j == 0 && tag != 0 ==> n.data != p.data || n.owner != p.owner))
  }

  lemma TableCopies(ctx: Ctx, data: seq<byte>, w: seq<Account>)
    requires Tables.Invoke(ctx, data, w).Ok?
    ensures |Tables.Invoke(ctx, data, w).value| == |w| > 0 && |data| >= 4
    ensures U32At(data, 0) != 0 && EmptySystem(w[0]) ==> Tables.Invoke(ctx, data, w).value[0] == w[0]
    ensures forall j: nat :: j < |w| ==> TableCopy(ctx, U32At(data, 0), j, w[j], Tables.Invoke(ctx, data, w).value[j])
  {
    var body := data[4..];
    TableVerdicts.TagsSelect(ctx, data, w);
    Verdicts.Flags(ctx, w);
    if U32At(data, 0) == 0 {
      TableVerdicts.CreateTableVerdict(ctx, body, w);
      TableVerdicts.CreateTableLeaves(ctx, body, w);
    }
    else if U32At(data, 0) == 1 { TableVerdicts.FreezeTableVerdict(ctx, w); }
    else if U32At(data, 0) == 2 {
      TableVerdicts.ExtendTableVerdict(ctx, body, w);
      TableVerdicts.ExtendTableLeaves(ctx, body, w);
    }
    else if U32At(data, 0) == 3 { TableVerdicts.DeactivateTableVerdict(ctx, w); }
    else {
      TableVerdicts.CloseTableVerdict(ctx, w);
      TableVerdicts.CloseTableLeaves(ctx, w);
    }
  }

  ghost predicate TableRules(ix: Instruction, w: seq<Account>, post: seq<Account>)
    requires w != [] && post != [] && |ix.data| >= 4 && (U32At(ix.data, 0) == 0 ==> |w| >= 4)
  {
    var created := U32At(ix.data, 0) == 0;
    && (LastNaming(ix.metas, 0) && post[0] != w[0] ==> w[0].owner == ix.programId && (created ==> !w[0].executable))
    && (created && LastNaming(ix.metas, 2) ==> w[2].owner == ix.programId)
  }

  /** What a creation makes of the slice. */
  ghost predicate CreatesTable(ctx: Ctx, w: seq<Account>, post: seq<Account>) {
    && |w| == |post| >= 4 && Verdicts.Only(w, post, {0, 2})
    && IsWritable(ctx, w[0].address) && IsWritable(ctx, w[2].address)
    && w[0].lamports == 0 && w[0].data == []
    && post[0].data != [] && post[0].owner == ctx.programId && !post[0].executable
    && post[2] == w[2].(lamports := post[2].lamports) && post[2].lamports < w[2].lamports
  }

  lemma CreatedPermitted(ctx: Ctx, ix: Instruction, w: seq<Account>, post: seq<Account>)
    requires Works(ctx, ix, w) && |ix.data| >= 4 && U32At(ix.data, 0) == 0 && CreatesTable(ctx, w, post)
    ensures CopiesPermitted(ix, w, post) <==> TableRules(ix, w, post)
  {
    TargetPermitted(ix.programId, w[0], post[0]);
    PayerPermitted(ix.programId, w[2], post[2]);
    assert FirstWritable(ix.metas, w[0].address) && FirstWritable(ix.metas, w[2].address);
    assert forall j: nat :: j < |w| && j != 0 && j != 2 ==> post[j] == w[j];
  }

  lemma TargetPermitted(programId: Pubkey, p: Account, n: Account)
    requires programId != SYSTEM_ID && p.data == [] && n.data != [] && n.owner == programId && !n.executable
    requires p.lamports == 0
    ensures Permitted(programId, true, p, n) <==> p.owner == programId && !p.executable
  {
  }

  lemma PayerPermitted(programId: Pubkey, p: Account, n: Account)
    requires n == p.(lamports := n.lamports) && n.lamports < p.lamports
    ensures Permitted(programId, true, p, n) <==> p.owner == programId
  {
  }

  lemma CreationMakes(ctx: Ctx, body: seq<byte>, w: seq<Account>)
    requires Tables.CreateTable(ctx, body, w).Ok?
    ensures CreatesTable(ctx, w, Tables.CreateTable(ctx, body, w).value)
  {
    Verdicts.Flags(ctx, w);
    TableVerdicts.CreateTableVerdict(ctx, body, w);
    TableVerdicts.CreateTableLeaves(ctx, body, w);
  }

  lemma OthersPermitted(ctx: Ctx, ix: Instruction, w: seq<Account>, post: seq<Account>)
    requires Works(ctx, ix, w) && |ix.data| >= 4 && U32At(ix.data, 0) != 0 && |post| == |w| > 0
    requires forall j: nat :: j < |w| ==> TableCopy(ctx, U32At(ix.data, 0), j, w[j], post[j])
    requires EmptySystem(w[0]) ==> post[0] == w[0]
    ensures CopiesPermitted(ix, w, post) <==> TableRules(ix, w, post)
  {
    forall j: nat | 0 < j < |w|
      ensures Permitted(ix.programId, FirstWritable(ix.metas, ix.metas[j].pubkey), w[j], post[j])
    {
      assert TableCopy(ctx, U32At(ix.data, 0), j, w[j], post[j]);
    }
  }

  lemma TableSlicePermitted(ctx: Ctx, ix: Instruction, w: seq<Account>)
    requires Works(ctx, ix, w) && Tables.Invoke(ctx, ix.data, w).Ok?
    ensures var post := Tables.Invoke(ctx, ix.data, w).value;
      && post != [] && w != [] && |ix.data| >= 4 && (U32At(ix.data, 0) == 0 ==> |w| >= 4)
      && (CopiesPermitted(ix, w, post) <==> TableRules(ix, w, post))
  {
    TableVerdicts.TagsSelect(ctx, ix.data, w);
    if U32At(ix.data, 0) == 0 {
      CreationMakes(ctx, ix.data[4..], w);
      CreatedPermitted(ctx, ix, w, Tables.Invoke(ctx, ix.data, w).value);
    } else {
      TableCopies(ctx, ix.data, w);
      OthersPermitted(ctx, ix, w, Tables.Invoke(ctx, ix.data, w).value);
    }
  }

  /** Strict accepts a lookup-table instruction its handler accepts exactly when the table it
      changes and writes back is the program's, a new one was not executable, its payer is the
      program's too, and a close loses no lamports. */
  lemma TablesPassIff(env: Env, cells: Cells, ix: Instruction, list: seq<Account>, c: TokenRecord.Codec)
    requires Handled(env, cells, ix, list, c) && env.policy == Strict
    requires env.registry[ix.programId] == Tables.AltProgramSimulator()
    ensures Resolvable(ix.metas, list) && ix.metas != [] && PostOf(env, cells, ix, list) != [] && |ix.data| >= 4
    ensures U32At(ix.data, 0) == 0 ==> |ix.metas| >= 4
    ensures var w := Resolved(ix.metas, list);
      Succeeds(env, cells, ix, list) <==>
        && TableRules(ix, w, PostOf(env, cells, ix, list))
        && RouteGain(ix.metas, w, TableRoute(ix.data, w)) == 0
  {
    ProgramsDiffer(c);
    HandledPassesIff(env, cells, ix, list, c);
    var ctx := HandlerRan(env, cells, ix, list, c, 750, Tables.Invoke);
    TableSlicePermitted(ctx, ix, Resolved(ix.metas, list));
  }
}
