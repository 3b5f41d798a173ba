/** When Strict validation accepts a CreateAccount: a condition on the instruction and the two
    accounts it names, exact for any metas. */
module CreateRule {
  import opened Common
  import opened Bytes
  import opened Sums
  import opened Accounts
  import opened Validation
  import opened Engine
  import opened Kernel
  import opened SystemProgram
  import opened Ledger

  /** The handler of either CreateAccount form accepts the working copies. */
  ghost predicate HandlerAccepts(env: Env, cells: Cells, ix: Instruction, list: seq<Account>) {
    && SystemRegistered(env) && ix.programId == SYSTEM_ID && Limit(env, cells) >= SYSTEM_PROGRAM_COST
    && IsCreate(ix.data) && Resolvable(ix.metas, list)
    && Invoke(SystemCtx(env, cells, ix), ix.data, Resolved(ix.metas, list)).Ok?
  }

  /** The instruction turns an empty system account into something else. */
  predicate Creates(target: Account, a: CreateArgs) {
    EmptySystem(target) && (a.owner != SYSTEM_ID || a.space > 0)
  }

  /** If the debited funder is written back, it is system-owned or pays nothing. If the target is,
      it is not executable and is either system-owned or keeps its owner and size. And lamports
      move either without a creation and with both copies written back, or into a creation whose
      debit is not. */
  predicate Acceptable(metas: seq<Meta>, funder: Account, target: Account, a: CreateArgs) {
    && (LastNaming(metas, 0) ==> a.lamports == 0 || funder.owner == SYSTEM_ID)
    && (LastNaming(metas, 1) ==>
          !target.executable && (target.owner == SYSTEM_ID || (a.owner == target.owner && a.space == 0)))
    && (a.lamports == 0 || (LastNaming(metas, 0) <==> LastNaming(metas, 1) && !Creates(target, a)))
  }

  ghost function Post(env: Env, cells: Cells, ix: Instruction, list: seq<Account>): seq<Account>
    requires HandlerAccepts(env, cells, ix, list)
  {
    Invoke(SystemCtx(env, cells, ix), ix.data, Resolved(ix.metas, list)).value
  }

  /** Without validation the step succeeds and writes back what the handler made. */
  lemma UncheckedStep(env: Env, cells: Cells, ix: Instruction, list: seq<Account>)
    requires HandlerAccepts(env, cells, ix, list)
    ensures SystemRegistered(Unchecked(env)) && Succeeds(Unchecked(env), cells, ix, list)
    ensures InvocationOf(Unchecked(env), cells, ix, list).accounts == Post(env, cells, ix, list)
  {
  }

  lemma WhatCreateDoes(env: Env, cells: Cells, ix: Instruction, list: seq<Account>)
    requires HandlerAccepts(env, cells, ix, list)
    ensures |ix.metas| >= 2 && ArgsOf(ix.data).Some?
    ensures var a, w := ArgsOf(ix.data).value, Resolved(ix.metas, list);
      Create(w, a.lamports, a.space, a.owner) == Ok(Post(env, cells, ix, list))
    ensures var ctx := SystemCtx(env, cells, ix);
      IsWritable(ctx, ix.metas[0].pubkey) && IsWritable(ctx, ix.metas[1].pubkey)
  {
    var ctx, w := SystemCtx(env, cells, ix), Resolved(ix.metas, list);
    CreateFormsAreCreates(ctx, ix.data, w);
    if U32At(ix.data, 0) == 0 {
      assert CreateAccount(ctx, ix.data[4..], w).Ok?;
    } else {
      assert CreateAccountWithSeed(ctx, ix.data[4..], w).Ok?;
    }
  }

  /** The copy of an account that is written back. */
  lemma WrittenCopy(env: Env, cells: Cells, ix: Instruction, list: seq<Account>, i: nat) returns (j: int)
    requires HandlerAccepts(env, cells, ix, list) && Distinct(list) && i < |list|
    ensures var post, after := Post(env, cells, ix, list), Dispatch(Unchecked(env), cells, ix, list).out.accounts;
      && |post| == |ix.metas| && SameAddresses(list, after)
      && -1 <= j < |ix.metas|
      && (forall k :: j < k < |ix.metas| ==> ix.metas[k].pubkey != list[i].address)
      && (j == -1 ==> after[i] == list[i])
      && (j >= 0 ==>
            && LastNaming(ix.metas, j) && ix.metas[j].pubkey == list[i].address
            && Resolved(ix.metas, list)[j] == list[i] && after[i] == post[j])
  {
    UncheckedStep(env, cells, ix, list);
    j := CopySource(Unchecked(env), cells, ix, list, i);
  }

  lemma WrittenBack(env: Env, cells: Cells, ix: Instruction, list: seq<Account>, i: nat, x: nat)
    requires HandlerAccepts(env, cells, ix, list) && Distinct(list) && i < |list|
    requires LastNaming(ix.metas, x) && ix.metas[x].pubkey == list[i].address
    ensures var post, after := Post(env, cells, ix, list), Dispatch(Unchecked(env), cells, ix, list).out.accounts;
      && |post| == |ix.metas| && SameAddresses(list, after)
      && Resolved(ix.metas, list)[x] == list[i] && after[i] == post[x]
  {
    var j := WrittenCopy(env, cells, ix, list, i);
    assert j == x;
  }

  /** The funder and the target obey the rules where their copies are written back. */
  ghost predicate WrittenObey(metas: seq<Meta>, w: seq<Account>, post: seq<Account>)
    requires |w| == |post| >= 2
  {
    && (LastNaming(metas, 0) ==> AccountRules(SYSTEM_ID, true, w[0], post[0]))
    && (LastNaming(metas, 1) ==> AccountRules(SYSTEM_ID, true, w[1], post[1]))
  }

  lemma AccountObeys(env: Env, cells: Cells, ix: Instruction, list: seq<Account>, i: nat)
    requires HandlerAccepts(env, cells, ix, list) && Distinct(list) && i < |list|
    requires |Post(env, cells, ix, list)| == |ix.metas| >= 2
    requires WrittenObey(ix.metas, Resolved(ix.metas, list), Post(env, cells, ix, list))
    requires FirstMeta(ix.metas, list[i].address).Some?
    ensures var after := Dispatch(Unchecked(env), cells, ix, list).out.accounts;
      && SameAddresses(list, after)
      && AccountRules(SYSTEM_ID, FirstMeta(ix.metas, list[i].address).value.writable, list[i], after[i])
  {
    var j := WrittenCopy(env, cells, ix, list, i);
    WhatCreateDoes(env, cells, ix, list);
    if j >= 0 {
      var a := ArgsOf(ix.data).value;
      CopyObeys(SystemCtx(env, cells, ix), Resolved(ix.metas, list), Post(env, cells, ix, list), a, j);
    }
  }

  lemma CopyObeys(ctx: Ctx, w: seq<Account>, post: seq<Account>, a: CreateArgs, j: nat)
    requires |w| >= 2 && Create(w, a.lamports, a.space, a.owner) == Ok(post) && j < |w| == |post|
    requires IsWritable(ctx, w[0].address) && IsWritable(ctx, w[1].address)
    requires j < 2 ==> AccountRules(SYSTEM_ID, true, w[j], post[j])
    requires FirstMeta(ctx.metas, w[j].address).Some?
    ensures AccountRules(SYSTEM_ID, FirstMeta(ctx.metas, w[j].address).value.writable, w[j], post[j])
  {
    assert j >= 2 ==> post[j] == w[j];
  }

  lemma WrittenMustObey(env: Env, cells: Cells, ix: Instruction, list: seq<Account>, x: nat)
    requires HandlerAccepts(env, cells, ix, list) && Distinct(list) && x < 2
    requires LastNaming(ix.metas, x)
    requires RulesOnList(SYSTEM_ID, ix.metas, list, Dispatch(Unchecked(env), cells, ix, list).out.accounts)
    ensures |Post(env, cells, ix, list)| == |ix.metas| >= 2
    ensures AccountRules(SYSTEM_ID, true, Resolved(ix.metas, list)[x], Post(env, cells, ix, list)[x])
  {
    WhatCreateDoes(env, cells, ix, list);
    assert ix.metas[x] in ix.metas;
    WrittenBack(env, cells, ix, list, Find(list, ix.metas[x].pubkey), x);
  }

  lemma RulesIff(env: Env, cells: Cells, ix: Instruction, list: seq<Account>)
    requires HandlerAccepts(env, cells, ix, list) && Distinct(list)
    ensures |Post(env, cells, ix, list)| == |ix.metas| >= 2
    ensures RulesOnList(SYSTEM_ID, ix.metas, list, Dispatch(Unchecked(env), cells, ix, list).out.accounts)
      <==> WrittenObey(ix.metas, Resolved(ix.metas, list), Post(env, cells, ix, list))
  {
    UncheckedStep(env, cells, ix, list);
    WhatCreateDoes(env, cells, ix, list);
    DispatchShape(Unchecked(env), cells, ix, list);
    var after := Dispatch(Unchecked(env), cells, ix, list).out.accounts;
    if WrittenObey(ix.metas, Resolved(ix.metas, list), Post(env, cells, ix, list)) {
      forall i | 0 <= i < |list| && FirstMeta(ix.metas, list[i].address).Some?
        ensures AccountRules(SYSTEM_ID, FirstMeta(ix.metas, list[i].address).value.writable, list[i], after[i])
      {
        AccountObeys(env, cells, ix, list, i);
      }
    }
    if RulesOnList(SYSTEM_ID, ix.metas, list, Dispatch(Unchecked(env), cells, ix, list).out.accounts) {
      if LastNaming(ix.metas, 0) { WrittenMustObey(env, cells, ix, list, 0); }
      if LastNaming(ix.metas, 1) { WrittenMustObey(env, cells, ix, list, 1); }
    }
  }

  /** What the write-back of the two copies adds to the total. */
  function Written(metas: seq<Meta>, n: u64): int {
    (if LastNaming(metas, 1) then n else 0) - (if LastNaming(metas, 0) then n else 0)
  }

  lemma BalanceIff(env: Env, cells: Cells, ix: Instruction, list: seq<Account>)
    requires HandlerAccepts(env, cells, ix, list) && Distinct(list)
    ensures |ix.metas| >= 2 && ArgsOf(ix.data).Some?
    ensures var after, n := Dispatch(Unchecked(env), cells, ix, list).out.accounts, ArgsOf(ix.data).value.lamports;
      SumBy(Lamports(), after) == SumBy(Lamports(), list) + SumZip(Credit(), list, after)
      <==> Minted(ix, list) == Written(ix.metas, n)
  {
    UncheckedStep(env, cells, ix, list);
    WhatCreateDoes(env, cells, ix, list);
    StepCredit(Unchecked(env), cells, ix, list);
    CreateTotal(Unchecked(env), cells, ix, list);
  }

  lemma AcceptableIff(metas: seq<Meta>, w: seq<Account>, a: CreateArgs, minted: u64)
    requires |w| >= 2 && Create(w, a.lamports, a.space, a.owner).Ok?
    requires minted == if LastNaming(metas, 1) && Creates(w[1], a) then a.lamports else 0
    ensures && WrittenObey(metas, w, Create(w, a.lamports, a.space, a.owner).value)
            && minted == Written(metas, a.lamports)
      <==> Acceptable(metas, w[0], w[1], a)
  {
    assert Create(w, a.lamports, a.space, a.owner).value[1].data == [] <==> a.space == 0;
  }

  /** Strict validation accepts a CreateAccount its handler accepts exactly when the funder and
      target are acceptable, whatever the metas. With distinct metas it never lets one fund an
      account while giving it an owner or data. */
  lemma CreateAcceptedIff(env: Env, cells: Cells, ix: Instruction, list: seq<Account>)
    requires HandlerAccepts(env, cells, ix, list) && env.policy == Strict && Distinct(list)
    ensures |ix.metas| >= 2 && ArgsOf(ix.data).Some?
    ensures var w := Resolved(ix.metas, list);
      Succeeds(env, cells, ix, list) <==> Acceptable(ix.metas, w[0], w[1], ArgsOf(ix.data).value)
  {
    UncheckedStep(env, cells, ix, list);
    WhatCreateDoes(env, cells, ix, list);
    StrictVerdict(env, cells, ix, list);
    RulesIff(env, cells, ix, list);
    BalanceIff(env, cells, ix, list);
    MintedByCreates(ix, list);
    AcceptableIff(ix.metas, Resolved(ix.metas, list), ArgsOf(ix.data).value, Minted(ix, list));
  }

  /** What such a step then does to the total. */
  lemma AcceptedCreate(env: Env, cells: Cells, ix: Instruction, list: seq<Account>)
    requires HandlerAccepts(env, cells, ix, list) && env.policy == Strict && Distinct(list)
    requires |ix.metas| >= 2 && ArgsOf(ix.data).Some?
    requires var w := Resolved(ix.metas, list); Acceptable(ix.metas, w[0], w[1], ArgsOf(ix.data).value)
    ensures Succeeds(env, cells, ix, list)
    ensures Dispatch(env, cells, ix, list) == Dispatch(Unchecked(env), cells, ix, list)
    ensures SumBy(Lamports(), Dispatch(env, cells, ix, list).out.accounts)
         == SumBy(Lamports(), list) + if MintsLamports(ix) then ArgsOf(ix.data).value.lamports else 0
  {
    CreateAcceptedIff(env, cells, ix, list);
    SystemStepTotal(env, cells, ix, list);
    StrictVerdict(env, cells, ix, list);
  }

  lemma MintedByCreates(ix: Instruction, list: seq<Account>)
    requires Resolvable(ix.metas, list) && |ix.metas| >= 2 && ArgsOf(ix.data).Some?
    ensures var t, a := Resolved(ix.metas, list)[1], ArgsOf(ix.data).value;
      Minted(ix, list) == if LastNaming(ix.metas, 1) && Creates(t, a) then a.lamports else 0
  {
  }
}
