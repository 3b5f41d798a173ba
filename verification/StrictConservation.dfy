/** Under Strict validation the five programs conserve lamports whatever the metas, but for one
    kind of system instruction. */
module StrictConservation {
  import opened Common
  import opened Bytes
  import opened Sums
  import opened Accounts
  import opened Validation
  import opened Engine
  import opened Kernel
  import opened Runs
  import opened Ledger
  import opened Builtins
  import opened Conservation
  import TokenRecord
  import Stake = StakeProgram
  import Token = TokenProgram
  import Tables = AltProgram
  import System = SystemProgram
  import StakeRecord
  import AltHistory
  import Fees
  import Harness

  /** A copy the program must not earn a creation credit for: if it was an empty system account,
      it changed hands or is still empty. */
  ghost predicate NoCreditCopy(p: Account, n: Account) {
    EmptySystem(p) ==> n.owner != SYSTEM_ID || n.data == []
  }

  ghost predicate NoCreditSlice(w: seq<Account>, post: seq<Account>) {
    |post| == |w| && forall j :: 0 <= j < |w| ==> NoCreditCopy(w[j], post[j])
  }

  /** A program that grows no empty system account and leaves it with the system program. */
  ghost predicate EarnsNoCredit(p: Program) {
    forall ctx: Ctx, data: seq<byte>, w: seq<Account>, cells: Cells ::
      var inv := p.invoke(ctx, data, w, cells);
      ctx.programId != SYSTEM_ID && inv.error.None? ==> NoCreditSlice(w, inv.accounts)
  }

  lemma StakeEarnsNone(ctx: Ctx, data: seq<byte>, w: seq<Account>)
    requires Stake.Invoke(ctx, data, w).Ok?
    ensures NoCreditSlice(w, Stake.Invoke(ctx, data, w).value)
  {
    var post := Stake.Invoke(ctx, data, w).value;
    if U32At(data, 0) == 4 {
      assert Stake.Withdraw(ctx, data[4..], w).Ok?;
    } else {
      assert |w| > 0 && |w[0].data| >= StakeRecord.STAKE_ACCOUNT_SIZE && post == w[0 := post[0]];
    }
  }

  lemma TokenEarnsNone(c: TokenRecord.Codec, ctx: Ctx, data: seq<byte>, w: seq<Account>)
    requires Token.Invoke(c, ctx, data, w).Ok? && ctx.programId != SYSTEM_ID
    ensures NoCreditSlice(w, Token.Invoke(c, ctx, data, w).value)
  {
    var body := data[1..];
    if data[0] == 0 { assert Token.InitializeMint(c, ctx, body, w).Ok?; }
    else if data[0] == 1 { assert Token.InitializeAccount(c, ctx, w).Ok?; }
    else if data[0] == 3 { assert Token.Transfer(c, ctx, body, w).Ok?; }
    else if data[0] == 4 { assert Token.Approve(c, ctx, body, w).Ok?; }
    else if data[0] == 5 { assert Token.Revoke(c, ctx, w).Ok?; }
    else if data[0] == 7 { assert Token.MintTo(c, ctx, body, w).Ok?; }
    else if data[0] == 8 { assert Token.Burn(c, ctx, body, w).Ok?; }
    else { assert Token.CloseAccount(c, ctx, w).Ok?; }
  }

  lemma TablesEarnNone(ctx: Ctx, data: seq<byte>, w: seq<Account>)
    requires Tables.Invoke(ctx, data, w).Ok? && ctx.programId != SYSTEM_ID
    ensures NoCreditSlice(w, Tables.Invoke(ctx, data, w).value)
  {
    var post := Tables.Invoke(ctx, data, w).value;
    AltHistory.OtherCopiesKeepData(ctx, data, w);
    if U32At(data, 0) == 0 {
      AltHistory.CreateWrites(ctx, data[4..], w);
    } else if U32At(data, 0) == 4 {
      assert Tables.CloseTable(ctx, w).Ok?;
    } else {
      assert |w[0].data| >= 56;
    }
  }

  lemma OthersEarnNone(p: Program, c: TokenRecord.Codec)
    requires Bundled(p, c) && p != System.TheSystemProgram()
    ensures EarnsNoCredit(p)
  {
    forall ctx: Ctx, data: seq<byte>, w: seq<Account>, cells: Cells
      | ctx.programId != SYSTEM_ID && p.invoke(ctx, data, w, cells).error.None?
      ensures NoCreditSlice(w, p.invoke(ctx, data, w, cells).accounts)
    {
      if p == Token.SplTokenSimulator(c) { TokenEarnsNone(c, ctx, data, w); }
      else if p == Stake.StakeProgramSimulator() { StakeEarnsNone(ctx, data, w); }
      else if p == Tables.AltProgramSimulator() { TablesEarnNone(ctx, data, w); }
    }
  }

  /** An accepted step of such a program earns no credit: an empty account that changed hands
      would have broken the owner rule. */
  lemma AccountEarnsNone(env: Env, cells: Cells, ix: Instruction, list: seq<Account>, i: nat)
    requires WellBehaved(env) && env.policy == Strict && Distinct(list) && i < |list|
    requires ix.programId != SYSTEM_ID && ix.programId in env.registry && EarnsNoCredit(env.registry[ix.programId])
    requires Succeeds(env, cells, ix, list)
    ensures SameAddresses(list, Dispatch(env, cells, ix, list).out.accounts)
    ensures CreditOf(list[i], Dispatch(env, cells, ix, list).out.accounts[i]) == 0
  {
    StrictStepRespectsOwners(env, cells, ix, list, i);
    SuccessfulDispatch(env, cells, ix, list);
    var j := CopySource(env, cells, ix, list, i);
    if j >= 0 {
      RulesHoldAt(ix, list, Dispatch(env, cells, ix, list).out.accounts, i, j);
      assert NoCreditSlice(Resolved(ix.metas, list), InvocationOf(env, cells, ix, list).accounts);
    }
  }

  lemma StepEarnsNone(env: Env, cells: Cells, ix: Instruction, list: seq<Account>)
    requires WellBehaved(env) && env.policy == Strict && Distinct(list)
    requires ix.programId != SYSTEM_ID && ix.programId in env.registry && EarnsNoCredit(env.registry[ix.programId])
    requires Succeeds(env, cells, ix, list)
    ensures SumBy(Lamports(), Dispatch(env, cells, ix, list).out.accounts) == SumBy(Lamports(), list)
  {
    var post := Dispatch(env, cells, ix, list).out.accounts;
    DispatchShape(env, cells, ix, list);
    forall i | 0 <= i < |list| ensures Credit()(list[i], post[i]) == 0 {
      AccountEarnsNone(env, cells, ix, list, i);
      assert Credit()(list[i], post[i]) == CreditOf(list[i], post[i]);
    }
    SumZipZero(Credit(), list, post);
    StrictStepChangesTotalByCredit(env, cells, ix, list);
  }

  /** The five programs under Strict, the system program and no other under its own id. */
  ghost predicate StrictBundle(env: Env, c: TokenRecord.Codec) {
    && BundledHarness(env, c) && env.policy == Strict
    && forall id :: id in env.registry ==> (id == SYSTEM_ID <==> env.registry[id] == System.TheSystemProgram())
  }

  /** A Strict step of any of them conserves the total of the list, whatever its metas, unless it
      is an accepted CreateAccount of the kind that makes lamports. */
  lemma StrictStepConservesIff(env: Env, cells: Cells, ix: Instruction, list: seq<Account>, c: TokenRecord.Codec)
    requires StrictBundle(env, c) && Distinct(list)
    ensures SumBy(Lamports(), Dispatch(env, cells, ix, list).out.accounts) == SumBy(Lamports(), list)
      <==> !(ix.programId == SYSTEM_ID && Succeeds(env, cells, ix, list) && MintsLamports(ix))
  {
    BundledIsWellBehaved(env, c);
    DispatchShape(env, cells, ix, list);
    if Succeeds(env, cells, ix, list) {
      if ix.programId == SYSTEM_ID {
        SystemStepConserves(env, cells, ix, list);
      } else {
        OthersEarnNone(env.registry[ix.programId], c);
        StepEarnsNone(env, cells, ix, list);
      }
    }
  }

  ghost predicate MintsNothing(events: seq<Event>) {
    forall e :: e in events && e.Exec? ==> !(e.ix.programId == SYSTEM_ID && MintsLamports(e.ix))
  }

  /** Over any Strict run of the five programs without such instructions the total is constant. */
  lemma {:induction false} StrictRunConserves(s: State, events: seq<Event>, c: TokenRecord.Codec)
    requires StrictBundle(s.env, c) && Distinct(s.list) && MintsNothing(events)
    ensures SumBy(Lamports(), Run(s, events).list) == SumBy(Lamports(), s.list)
    decreases |events|
  {
    if events != [] {
      var e := events[0];
      BundledIsWellBehaved(s.env, c);
      AfterSound(s, e);
      assert e in events && forall x :: x in events[1..] ==> x in events;
      if e.Exec? { StrictStepConservesIff(s.env, s.cells, e.ix, s.list, c); }
      StrictRunConserves(After(s, e), events[1..], c);
    }
  }

  /** A Strict transaction without such instructions takes exactly its reported fee out of the
      list, whether or not one of its instructions fails. */
  lemma StrictTransactionTakesTheFee(env: Env, cells: Cells, c: TokenRecord.Codec, lamportsPerSignature: u64,
                                     ixs: seq<Instruction>, list: seq<Account>, payer: Pubkey)
    requires StrictBundle(env, c) && Distinct(list) && |Fees.Signers(ixs)| <= U64_MAX
    requires forall ix :: ix in ixs ==> !(ix.programId == SYSTEM_ID && MintsLamports(ix))
    ensures var r := Fees.Transaction(env, cells, lamportsPerSignature, ixs, list, payer);
      SumBy(Lamports(), r.out.accounts) == SumBy(Lamports(), list) - r.fee
  {
    BundledIsWellBehaved(env, c);
    Fees.FeeChargedOnce(env, cells, lamportsPerSignature, ixs, list, payer);
    var fee := Fees.FeeOf(env, cells, lamportsPerSignature, ixs);
    if Lookup(list, payer).Some? && fee <= Lookup(list, payer).value.lamports {
      var charged := Fees.Charged(list, payer, fee);
      Fees.ChargedFacts(list, payer, fee);
      var n := GoodPrefix(env, cells, ixs, charged);
      ExecsOnly(ixs, n);
      StrictRunConserves(State(env, cells, charged), Execs(ixs[..n]), c);
    }
  }

  /** On the harness object: whatever the caller's accounts, what comes back and the reported fee
      together are what went in. */
  method ProcessConservingTransaction(svm: Harness.HopperSvm, c: TokenRecord.Codec, ixs: seq<Instruction>,
                                      accounts: seq<Account>, payer: Pubkey) returns (out: Outcome, fee: u64)
    requires StrictBundle(svm.Environment(), c) && Distinct(accounts)
    requires |accounts| + Harness.MetaCount(ixs) <= MAX_LEN && |Fees.Signers(ixs)| <= U64_MAX
    requires forall ix :: ix in ixs ==> !(ix.programId == SYSTEM_ID && MintsLamports(ix))
    modifies svm`pendingCuLimit, svm`priorityFee
    ensures SumBy(Lamports(), out.accounts) + fee == SumBy(Lamports(), accounts)
  {
    BundledIsWellBehaved(svm.Environment(), c);
    WellBehavedIsSliceSafe(svm.Environment());
    StrictTransactionTakesTheFee(
      svm.Environment(), svm.Shared(), c, svm.lamportsPerSignature, ixs, accounts, payer);
    out, fee := svm.ProcessTransaction(ixs, accounts, payer);
  }
}
