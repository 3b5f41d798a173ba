/** Exact lamport accounting for the system program: what each step adds to the list total,
    whatever its metas, and the one kind of instruction that makes lamports. */
module Ledger {
  import opened Common
  import opened Bytes
  import opened Sums
  import opened Accounts
  import opened Validation
  import opened Engine
  import opened Kernel
  import opened Runs
  import opened SystemProgram
  import Fees

  // --- one slice ------------------------------------------------------------------------------

  /** Addresses and the number of copies stay, and the copies together gain nothing. */
  ghost predicate NoGain(w: seq<Account>, post: seq<Account>) {
    SameAddresses(w, post) && SumBy(Lamports(), post) <= SumBy(Lamports(), w)
  }

  /** A handler's result: nothing gained, and no copy but the one at target both credited and
      created. */
  ghost predicate Frugal(w: seq<Account>, post: seq<Account>, target: int) {
    && NoGain(w, post)
    && forall j :: 0 <= j < |w| && j != target ==> CreditOf(w[j], post[j]) == 0
  }

  lemma RewriteIsFrugal(w: seq<Account>, a: Account, target: int)
    requires |w| > 0 && a.address == w[0].address && a.lamports == w[0].lamports
    ensures Frugal(w, w[0 := a], target)
  {
    SumByUpdate(Lamports(), w, 0, a);
  }

  lemma MoveIsFrugal(w: seq<Account>, i: nat, j: nat, lamports: u64, target: int)
    requires i < |w| && j < |w| && i != j && lamports <= w[i].lamports
    ensures Frugal(w, Moved(w, i, j, lamports), target)
  {
    var mid := w[i := w[i].(lamports := w[i].lamports - lamports)];
    SumByUpdate(Lamports(), w, i, mid[i]);
    SumByUpdate(Lamports(), mid, j, w[j].(lamports := SatAdd(w[j].lamports, lamports)));
  }

  lemma CreateIsFrugal(w: seq<Account>, lamports: u64, space: u64, owner: Pubkey)
    requires |w| >= 2 && Create(w, lamports, space, owner).Ok?
    ensures var post := Create(w, lamports, space, owner).value;
      && Frugal(w, post, 1)
      && CreditOf(w[1], post[1]) == if EmptySystem(w[1]) && (owner != SYSTEM_ID || space > 0) then lamports else 0
  {
    var mid := w[0 := w[0].(lamports := w[0].lamports - lamports)];
    var n := w[1].(lamports := lamports, data := Zeroes(space), owner := owner, executable := false);
    SumByUpdate(Lamports(), w, 0, mid[0]);
    SumByUpdate(Lamports(), mid, 1, n);
  }

  predicate IsCreate(data: seq<byte>) {
    |data| >= 4 && (U32At(data, 0) == 0 || U32At(data, 0) == 3)
  }

  datatype CreateArgs = CreateArgs(lamports: u64, space: u64, owner: Pubkey)

  /** The arguments of either CreateAccount form; in tag 3 they follow the seed. */
  function ArgsOf(data: seq<byte>): Option<CreateArgs> {
    if !IsCreate(data) then None
    else
      var body := data[4..];
      var off: nat :=
        if U32At(data, 0) == 0 then 0
        else if |body| < 40 then |body|
        else 40 + U64At(body, 32);
      if |body| < off + 48 then None
      else Some(CreateArgs(U64At(body, off), U64At(body, off + 8), PubkeyAt(body, off + 16)))
  }

  lemma CreateFormsAreCreates(ctx: Ctx, data: seq<byte>, w: seq<Account>)
    requires IsCreate(data) && Invoke(ctx, data, w).Ok?
    ensures |w| >= 2 && ArgsOf(data).Some?
    ensures var a := ArgsOf(data).value; Invoke(ctx, data, w) == Create(w, a.lamports, a.space, a.owner)
  {
    var body := data[4..];
    if U32At(data, 0) == 0 {
      assert CreateAccount(ctx, body, w).Ok?;
    } else {
      assert CreateAccountWithSeed(ctx, body, w).Ok?;
      assert |SeedAt(ctx, body, 32, 48).value| == U64At(body, 32);
    }
  }

  lemma OtherFormsAreFrugal(ctx: Ctx, data: seq<byte>, w: seq<Account>)
    requires !IsCreate(data) && Invoke(ctx, data, w).Ok?
    ensures Frugal(w, Invoke(ctx, data, w).value, -1)
  {
    var tag, body, post := U32At(data, 0), data[4..], Invoke(ctx, data, w).value;
    if tag == 2 {
      MoveIsFrugal(w, 0, 1, U64At(body, 0), -1);
    } else if tag == 5 {
      WithdrawIsMove(ctx, body, w);
      MoveIsFrugal(w, 0, 1, U64At(body, 0), -1);
    } else if tag == 10 {
      MoveIsFrugal(w, 0, 2, U64At(body, 0), -1);
    } else {
      RewritesFirst(ctx, data, w);
      RewriteIsFrugal(w, post[0], -1);
    }
  }

  lemma WithdrawIsMove(ctx: Ctx, body: seq<byte>, w: seq<Account>)
    requires WithdrawNonce(ctx, body, w).Ok?
    ensures |w| >= 5 && |body| >= 8 && U64At(body, 0) <= w[0].lamports
    ensures WithdrawNonce(ctx, body, w).value == Moved(w, 0, 1, U64At(body, 0))
  {
  }

  /** The remaining tags rewrite the data or owner of the first copy only. */
  lemma RewritesFirst(ctx: Ctx, data: seq<byte>, w: seq<Account>)
    requires Invoke(ctx, data, w).Ok? && U32At(data, 0) in {1, 4, 6, 7, 8, 9, 11}
    ensures var post := Invoke(ctx, data, w).value;
      && |w| > 0 && |post| == |w| && post == w[0 := post[0]]
      && post[0].address == w[0].address && post[0].lamports == w[0].lamports
  {
  }

  /** No system instruction makes lamports within its slice, even with repeated metas and
      saturating credits, and only CreateAccount can credit an account it creates. */
  lemma InvokeIsFrugal(ctx: Ctx, data: seq<byte>, w: seq<Account>)
    requires Invoke(ctx, data, w).Ok?
    ensures Frugal(w, Invoke(ctx, data, w).value, if IsCreate(data) then 1 else -1)
  {
    if IsCreate(data) {
      CreateFormsAreCreates(ctx, data, w);
      var a := ArgsOf(data).value;
      CreateIsFrugal(w, a.lamports, a.space, a.owner);
    } else {
      OtherFormsAreFrugal(ctx, data, w);
    }
  }

  lemma SystemProgramKeepsAddresses()
    ensures KeepsAddresses(TheSystemProgram())
  {
    forall ctx: Ctx, data: seq<byte>, w: seq<Account>, cells: Cells
      ensures SameAddresses(w, TheSystemProgram().invoke(ctx, data, w, cells).accounts)
    {
      if Invoke(ctx, data, w).Ok? { InvokeIsFrugal(ctx, data, w); }
    }
  }

  // --- one step -------------------------------------------------------------------------------

  ghost predicate SystemRegistered(env: Env) {
    WellBehaved(env) && SYSTEM_ID in env.registry && env.registry[SYSTEM_ID] == TheSystemProgram()
  }

  ghost predicate SystemHarness(env: Env) {
    SystemRegistered(env) && env.policy == Strict
  }

  /** What an accepted step adds to the total, read off the instruction and the input list: the
      lamports of a CreateAccount whose target exists as an empty system account, changes owner
      or size, and is not named again after position 1. */
  ghost function Minted(ix: Instruction, list: seq<Account>): u64 {
    var args := ArgsOf(ix.data);
    if args.Some? && LastNaming(ix.metas, 1) then
      var target := Lookup(list, ix.metas[1].pubkey);
      if target.Some? && EmptySystem(target.value) && (args.value.owner != SYSTEM_ID || args.value.space > 0)
      then args.value.lamports else 0
    else 0
  }

  function SystemCtx(env: Env, cells: Cells, ix: Instruction): Ctx {
    Ctx(ix.programId, ix.metas, env.sysvars, Limit(env, cells), SYSTEM_PROGRAM_COST)
  }

  lemma SystemInvocation(env: Env, cells: Cells, ix: Instruction, list: seq<Account>)
    requires SystemRegistered(env) && ix.programId == SYSTEM_ID && Succeeds(env, cells, ix, list)
    ensures Resolvable(ix.metas, list)
    ensures var r := Invoke(SystemCtx(env, cells, ix), ix.data, Resolved(ix.metas, list));
      r.Ok? && InvocationOf(env, cells, ix, list).accounts == r.value
  {
    SuccessfulDispatch(env, cells, ix, list);
  }

  /** The credit of one account of the list. */
  lemma AccountCredit(env: Env, cells: Cells, ix: Instruction, list: seq<Account>, i: nat)
    requires SystemRegistered(env) && Distinct(list) && ix.programId == SYSTEM_ID && i < |list|
    requires Succeeds(env, cells, ix, list)
    ensures var post := Dispatch(env, cells, ix, list).out.accounts;
      && SameAddresses(list, post)
      && CreditOf(list[i], post[i])
           == if LastNaming(ix.metas, 1) && ix.metas[1].pubkey == list[i].address then Minted(ix, list) else 0
  {
    var j := CopySource(env, cells, ix, list, i);
    SystemInvocation(env, cells, ix, list);
    LookupAt(list, i);
    var w := Resolved(ix.metas, list);
    InvokeIsFrugal(SystemCtx(env, cells, ix), ix.data, w);
    if j == 1 && IsCreate(ix.data) {
      CreateFormsAreCreates(SystemCtx(env, cells, ix), ix.data, w);
      var a := ArgsOf(ix.data).value;
      CreateIsFrugal(w, a.lamports, a.space, a.owner);
    }
  }

  lemma StepCredit(env: Env, cells: Cells, ix: Instruction, list: seq<Account>)
    requires SystemRegistered(env) && Distinct(list) && ix.programId == SYSTEM_ID
    requires Succeeds(env, cells, ix, list)
    ensures SumZip(Credit(), list, Dispatch(env, cells, ix, list).out.accounts) == Minted(ix, list)
  {
    var post := Dispatch(env, cells, ix, list).out.accounts;
    DispatchShape(env, cells, ix, list);
    forall i | 0 <= i < |list| ensures Credit()(list[i], post[i])
      == if LastNaming(ix.metas, 1) && ix.metas[1].pubkey == list[i].address then Minted(ix, list) else 0
    {
      AccountCredit(env, cells, ix, list, i);
    }
    if LastNaming(ix.metas, 1) && Lookup(list, ix.metas[1].pubkey).Some? {
      SumZipOne(Credit(), list, post, Find(list, ix.metas[1].pubkey));
    } else {
      SumZipZero(Credit(), list, post);
    }
  }

  /** The instructions that make lamports when they are accepted: a CreateAccount with a positive
      amount that names its funder, but not its new account, again after position 1. */
  ghost predicate MintsLamports(ix: Instruction) {
    && ArgsOf(ix.data).Some? && ArgsOf(ix.data).value.lamports > 0
    && LastNaming(ix.metas, 1) && !LastNaming(ix.metas, 0)
  }

  /** What is written back of a CreateAccount: the debit if the funder is not named again, the
      credit if the new account is not. */
  lemma CreateTotal(env: Env, cells: Cells, ix: Instruction, list: seq<Account>)
    requires SystemRegistered(env) && Distinct(list) && ix.programId == SYSTEM_ID && IsCreate(ix.data)
    requires Succeeds(env, cells, ix, list)
    ensures ArgsOf(ix.data).Some?
    ensures var n := ArgsOf(ix.data).value.lamports;
      SumBy(Lamports(), Dispatch(env, cells, ix, list).out.accounts) - SumBy(Lamports(), list)
      == (if LastNaming(ix.metas, 1) then n else 0) - (if LastNaming(ix.metas, 0) then n else 0)
  {
    SystemInvocation(env, cells, ix, list);
    var w, ctx := Resolved(ix.metas, list), SystemCtx(env, cells, ix);
    CreateFormsAreCreates(ctx, ix.data, w);
    TwoCopyTotal(env, cells, ix, list, Lamports(), 0, 1);
  }

  /** Every accepted system step changes the total of the whole list by exactly what can be read
      off its instruction: the lamports of the one kind above, nothing otherwise, whatever the
      metas. */
  lemma SystemStepTotal(env: Env, cells: Cells, ix: Instruction, list: seq<Account>)
    requires SystemHarness(env) && Distinct(list) && ix.programId == SYSTEM_ID
    requires Succeeds(env, cells, ix, list)
    ensures SumBy(Lamports(), Dispatch(env, cells, ix, list).out.accounts)
         == SumBy(Lamports(), list) + if MintsLamports(ix) then ArgsOf(ix.data).value.lamports else 0
  {
    StrictStepChangesTotalByCredit(env, cells, ix, list);
    StepCredit(env, cells, ix, list);
    if IsCreate(ix.data) { CreateTotal(env, cells, ix, list); }
  }

  /** Hence every Strict system step but an accepted one of that kind conserves the total. */
  lemma SystemStepConserves(env: Env, cells: Cells, ix: Instruction, list: seq<Account>)
    requires SystemHarness(env) && Distinct(list) && ix.programId == SYSTEM_ID
    ensures SumBy(Lamports(), Dispatch(env, cells, ix, list).out.accounts) == SumBy(Lamports(), list)
      <==> !(Succeeds(env, cells, ix, list) && MintsLamports(ix))
  {
    DispatchShape(env, cells, ix, list);
    if Succeeds(env, cells, ix, list) {
      SystemStepTotal(env, cells, ix, list);
    }
  }

  /** So a CreateAccount that funds an account while changing its owner or size, and does not name
      the funder again, is always rejected by Strict validation. */
  lemma FundedCreateIsRejected(env: Env, cells: Cells, ix: Instruction, list: seq<Account>)
    requires SystemHarness(env) && Distinct(list) && ix.programId == SYSTEM_ID
    requires LastNaming(ix.metas, 0) && Minted(ix, list) > 0
    ensures !Succeeds(env, cells, ix, list)
  {
    if Succeeds(env, cells, ix, list) {
      SystemStepTotal(env, cells, ix, list);
      StrictStepChangesTotalByCredit(env, cells, ix, list);
      StepCredit(env, cells, ix, list);
    }
  }

  // --- whole runs and transactions ------------------------------------------------------------

  /** Only system instructions, and none that could make lamports. */
  ghost predicate PlainSystemRun(events: seq<Event>) {
    forall e :: e in events && e.Exec? ==> e.ix.programId == SYSTEM_ID && !MintsLamports(e.ix)
  }

  lemma {:induction false} SystemRunConserves(s: State, events: seq<Event>)
    requires SystemHarness(s.env) && Distinct(s.list) && PlainSystemRun(events)
    ensures SumBy(Lamports(), Run(s, events).list) == SumBy(Lamports(), s.list)
    decreases |events|
  {
    if events != [] {
      AfterSound(s, events[0]);
      assert events[0] in events && forall e :: e in events[1..] ==> e in events;
      if events[0].Exec? { SystemStepConserves(s.env, s.cells, events[0].ix, s.list); }
      SystemRunConserves(After(s, events[0]), events[1..]);
    }
  }

  ghost predicate PlainSystemInstructions(ixs: seq<Instruction>) {
    forall ix :: ix in ixs ==> ix.programId == SYSTEM_ID && !MintsLamports(ix)
  }

  /** A transaction of such instructions takes exactly its fee out of the list, whether or not
      one of them fails, and nothing when the payer cannot pay. */
  lemma TransactionTakesTheFee(env: Env, cells: Cells, lamportsPerSignature: u64, ixs: seq<Instruction>,
                               list: seq<Account>, payer: Pubkey)
    requires SystemHarness(env) && Distinct(list) && |Fees.Signers(ixs)| <= U64_MAX
    requires PlainSystemInstructions(ixs)
    ensures var r := Fees.Transaction(env, cells, lamportsPerSignature, ixs, list, payer);
      SumBy(Lamports(), r.out.accounts) == SumBy(Lamports(), list) - r.fee
  {
    Fees.FeeChargedOnce(env, cells, lamportsPerSignature, ixs, list, payer);
    var fee := Fees.FeeOf(env, cells, lamportsPerSignature, ixs);
    if Lookup(list, payer).Some? && fee <= Lookup(list, payer).value.lamports {
      var charged := Fees.Charged(list, payer, fee);
      Fees.ChargedFacts(list, payer, fee);
      var n := GoodPrefix(env, cells, ixs, charged);
      ExecsOnly(ixs, n);
      SystemRunConserves(State(env, cells, charged), Execs(ixs[..n]));
    }
  }
}
