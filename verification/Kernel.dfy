/** One harness step: dispatch to a registered built-in, then accept or roll back. The
    theorems here are about arbitrary built-ins. */
module Kernel {
  import opened Common
  import opened Sums
  import opened Accounts
  import opened Validation
  import opened Engine

  /** The part of the harness a chain does not change. */
  datatype Env = Env(
    registry: map<Pubkey, Program>,
    sysvars: Sysvars,
    limit: u64,
    defaultCost: u64,
    policy: Policy)

  ghost predicate WellBehaved(env: Env) {
    forall id :: id in env.registry ==> KeepsAddresses(env.registry[id])
  }

  ghost predicate SliceSafe(env: Env) {
    forall id :: id in env.registry ==> KeepsLength(env.registry[id])
  }

  lemma WellBehavedIsSliceSafe(env: Env)
    requires WellBehaved(env)
    ensures SliceSafe(env)
  {
    forall id, ctx: Ctx, data: seq<byte>, w: seq<Account>, cells: Cells | id in env.registry
      ensures |env.registry[id].invoke(ctx, data, w, cells).accounts| == |w|
    {
      assert KeepsAddresses(env.registry[id]);
      assert SameAddresses(w, env.registry[id].invoke(ctx, data, w, cells).accounts);
    }
  }

  function Limit(env: Env, cells: Cells): u64 {
    if cells.pendingCuLimit.Some? then cells.pendingCuLimit.value else env.limit
  }

  ghost function Dispatch(env: Env, cells: Cells, ix: Instruction, list: seq<Account>): Step {
    if ix.programId !in env.registry then
      Step(Outcome(list, 0, Some(UnknownProgram)), cells)
    else
      Validated(env.policy, ix, list,
        Executed(env.registry[ix.programId], ix, list, env.sysvars, Limit(env, cells), env.defaultCost, cells))
  }

  /** A rejected outcome is rolled back to the pre-state. */
  ghost function Validated(policy: Policy, ix: Instruction, pre: seq<Account>, s: Step): Step {
    if s.out.error.Some? || policy == Lax || StrictRules(ix.programId, ix.metas, pre, s.out.accounts) then s
    else Step(Outcome(pre, s.out.consumed, Some(AccountValidationFailed)), s.cells)
  }

  ghost predicate Succeeds(env: Env, cells: Cells, ix: Instruction, list: seq<Account>) {
    Dispatch(env, cells, ix, list).out.error.None?
  }

  /** The invocation behind a successful dispatch. */
  ghost function InvocationOf(env: Env, cells: Cells, ix: Instruction, list: seq<Account>): Invoked
    requires Succeeds(env, cells, ix, list)
  {
    var p := env.registry[ix.programId];
    Invocation(p, ix, list, env.sysvars, Limit(env, cells), p.cost(env.defaultCost), cells)
  }

  /** Every outcome of a dispatch: what fails, in which order, what it charges and what it leaves. */
  lemma DispatchVerdict(env: Env, cells: Cells, ix: Instruction, list: seq<Account>)
    ensures var d := Dispatch(env, cells, ix, list);
      var budget := match cells.pendingCuLimit { case Some(units) => units case None => env.limit };
      if ix.programId !in env.registry then
        d == Step(Outcome(list, 0, Some(UnknownProgram)), cells)
      else
        var p := env.registry[ix.programId];
        var cost := p.cost(env.defaultCost);
        if cost > budget then
          d == Step(Outcome(list, cost, Some(OutOfComputeUnits)), cells)
        else if exists m :: m in ix.metas && Lookup(list, m.pubkey).None? then
          d == Step(Outcome(list, cost, Some(UnknownAccount)), cells)
        else
          Resolvable(ix.metas, list) &&
          var ctx := Ctx(ix.programId, ix.metas, env.sysvars, budget, cost);
          var inv := p.invoke(ctx, ix.data, Resolved(ix.metas, list), cells);
          && d.cells == inv.cells && d.out.consumed == inv.consumed
          && (inv.error.Some? ==> d.out.error == inv.error)
          && (inv.error.None? && env.policy == Lax ==> d.out.error.None?)
          && (inv.error.None? ==> d.out.error.None? || d.out.error == Some(AccountValidationFailed))
          && d.out.accounts == if d.out.error.None? then Merged(list, inv.accounts) else list
  {
  }

  lemma SuccessfulDispatch(env: Env, cells: Cells, ix: Instruction, list: seq<Account>)
    requires WellBehaved(env) && Succeeds(env, cells, ix, list)
    ensures ix.programId in env.registry && Resolvable(ix.metas, list)
    ensures var inv, d := InvocationOf(env, cells, ix, list), Dispatch(env, cells, ix, list);
      && inv.error.None?
      && SameAddresses(Resolved(ix.metas, list), inv.accounts)
      && d.out.accounts == Merged(list, inv.accounts)
      && d.cells == inv.cells
    ensures env.policy == Strict ==>
      StrictRules(ix.programId, ix.metas, list, Dispatch(env, cells, ix, list).out.accounts)
  {
    assert KeepsAddresses(env.registry[ix.programId]);
  }

  /** Dispatch keeps the order, length and addresses of the list; a failed one changes
      nothing in it. */
  lemma DispatchShape(env: Env, cells: Cells, ix: Instruction, list: seq<Account>)
    requires WellBehaved(env) && Distinct(list)
    ensures SameAddresses(list, Dispatch(env, cells, ix, list).out.accounts)
    ensures Distinct(Dispatch(env, cells, ix, list).out.accounts)
    ensures !Succeeds(env, cells, ix, list) ==> Dispatch(env, cells, ix, list).out.accounts == list
  {
    if Succeeds(env, cells, ix, list) {
      SuccessfulDispatch(env, cells, ix, list);
      WorkIsNamed(ix.metas, list, InvocationOf(env, cells, ix, list).accounts);
      MergedIsMapUpdate(list, InvocationOf(env, cells, ix, list).accounts);
    }
  }

  lemma WorkIsNamed(metas: seq<Meta>, list: seq<Account>, work: seq<Account>)
    requires Resolvable(metas, list) && SameAddresses(Resolved(metas, list), work)
    ensures AllNamed(list, work)
  {
    forall w | w in work ensures Lookup(list, w.address).Some? {
      var j :| 0 <= j < |work| && work[j] == w;
      assert metas[j] in metas && w.address == metas[j].pubkey;
    }
  }

  /** Where the post-state of an account comes from: it was not named and did not change, or
      it is the working copy at position j, the last that names it, whose input was the account
      itself. */
  lemma CopySource(env: Env, cells: Cells, ix: Instruction, list: seq<Account>, i: nat) returns (j: int)
    requires WellBehaved(env) && Distinct(list) && i < |list| && Succeeds(env, cells, ix, list)
    ensures Resolvable(ix.metas, list)
    ensures SameAddresses(list, Dispatch(env, cells, ix, list).out.accounts)
    ensures -1 <= j < |ix.metas| == |InvocationOf(env, cells, ix, list).accounts|
    ensures forall k :: j < k < |ix.metas| ==> ix.metas[k].pubkey != list[i].address
    ensures j == -1 ==> Dispatch(env, cells, ix, list).out.accounts[i] == list[i]
    ensures j >= 0 ==>
      && ix.metas[j].pubkey == list[i].address
      && Resolved(ix.metas, list)[j] == list[i]
      && InvocationOf(env, cells, ix, list).accounts[j] == Dispatch(env, cells, ix, list).out.accounts[i]
  {
    DispatchShape(env, cells, ix, list);
    SuccessfulDispatch(env, cells, ix, list);
    var work := InvocationOf(env, cells, ix, list).accounts;
    WorkIsNamed(ix.metas, list, work);
    MergedIsMapUpdate(list, work);
    j := LastCopySource(list[i], work);
    LookupAt(list, i);
    if j >= 0 {
      assert work[j].address == Resolved(ix.metas, list)[j].address;
    }
  }

  // --- non-interference -----------------------------------------------------------------

  ghost predicate SameState(p: Account, n: Account) {
    p.lamports == n.lamports && p.data == n.data && p.owner == n.owner && p.executable == n.executable
  }

  /** Nothing but a credit happened to the account. */
  ghost predicate OnlyCredited(p: Account, n: Account) {
    p.data == n.data && p.owner == n.owner && p.executable == n.executable && p.lamports <= n.lamports
  }

  ghost predicate NotWritable(metas: seq<Meta>, k: Pubkey) {
    FirstMeta(metas, k).None? || !FirstMeta(metas, k).value.writable
  }

  lemma RulesHoldAt(ix: Instruction, pre: seq<Account>, post: seq<Account>, i: nat, j: nat)
    requires Distinct(pre) && SameAddresses(pre, post) && i < |pre|
    requires j < |ix.metas| && ix.metas[j].pubkey == pre[i].address
    requires StrictRules(ix.programId, ix.metas, pre, post)
    ensures FirstMeta(ix.metas, pre[i].address).Some?
    ensures AccountRules(ix.programId, FirstMeta(ix.metas, pre[i].address).value.writable, pre[i], post[i])
  {
    LookupAt(pre, i);
    LookupSameAddresses(pre, post, pre[i].address);
    assert ix.metas[j] in ix.metas;
    assert pre[i].address in NamedKeys(ix.metas, pre, post);
  }

  /** A Strict step of any program can only credit an account the program does not own, and
      leaves an account it was not given as writable exactly as it was. */
  lemma StrictStepRespectsOwners(env: Env, cells: Cells, ix: Instruction, list: seq<Account>, i: nat)
    requires WellBehaved(env) && env.policy == Strict && Distinct(list) && i < |list|
    ensures var post := Dispatch(env, cells, ix, list).out.accounts;
      && SameAddresses(list, post)
      && (list[i].owner != ix.programId && !EmptySystem(list[i]) ==> OnlyCredited(list[i], post[i]))
      && (NotWritable(ix.metas, list[i].address) ==> SameState(list[i], post[i]))
      && post[i].executable == list[i].executable
  {
    DispatchShape(env, cells, ix, list);
    if Succeeds(env, cells, ix, list) {
      var j := CopySource(env, cells, ix, list, i);
      if j >= 0 {
        SuccessfulDispatch(env, cells, ix, list);
        RulesHoldAt(ix, list, Dispatch(env, cells, ix, list).out.accounts, i, j);
      }
    }
  }

  // --- exact lamport accounting -----------------------------------------------------------

  lemma UnnamedUnchanged(env: Env, cells: Cells, ix: Instruction, list: seq<Account>, i: nat)
    requires WellBehaved(env) && Distinct(list) && i < |list| && Succeeds(env, cells, ix, list)
    ensures var post := Dispatch(env, cells, ix, list).out.accounts;
      && SameAddresses(list, post)
      && (list[i].address in NamedKeys(ix.metas, list, post) || post[i] == list[i])
  {
    var j := CopySource(env, cells, ix, list, i);
    if j >= 0 {
      var post := Dispatch(env, cells, ix, list).out.accounts;
      LookupAt(list, i);
      LookupSameAddresses(list, post, list[i].address);
      assert ix.metas[j] in ix.metas;
    }
  }

  lemma NamedTotals(list: seq<Account>, post: seq<Account>, keys: set<Pubkey>)
    requires Distinct(list) && SameAddresses(list, post)
    requires forall i :: 0 <= i < |list| ==> list[i].address in keys || post[i] == list[i]
    requires forall k :: k in keys ==> Lookup(list, k).Some? && Lookup(post, k).Some?
    ensures SumBy(Lamports(), post) - SumBy(Lamports(), list)
         == SumSet(keys, LamportsAt(post)) - SumSet(keys, LamportsAt(list))
  {
    ZipNamed(Change(Lamports()), list, post, keys);
    ChangeTotal(Lamports(), list, post);
    SumSetDifference(keys, LamportsAt(list), LamportsAt(post), AtBoth(Change(Lamports()), list, post));
  }

  // --- totals when metas repeat -----------------------------------------------------------------

  /** A pairwise value that only the accounts at two addresses can have. */
  function AtTwo(on0: bool, k0: Pubkey, d0: int, on1: bool, k1: Pubkey, d1: int, k: Pubkey): int {
    (if on0 && k == k0 then d0 else 0) + (if on1 && k == k1 then d1 else 0)
  }

  lemma {:induction false} SumZipAtTwo(g: (Account, Account) -> int, pre: seq<Account>, post: seq<Account>,
                                       on0: bool, k0: Pubkey, d0: int, on1: bool, k1: Pubkey, d1: int)
    requires Distinct(pre) && |pre| == |post|
    requires forall i :: 0 <= i < |pre| ==> g(pre[i], post[i]) == AtTwo(on0, k0, d0, on1, k1, d1, pre[i].address)
    ensures SumZip(g, pre, post)
         == (if on0 && Lookup(pre, k0).Some? then d0 else 0) + (if on1 && Lookup(pre, k1).Some? then d1 else 0)
  {
    if pre != [] {
      var a := pre[0].address;
      forall i | 0 <= i < |pre| - 1
        ensures g(pre[1..][i], post[1..][i])
             == AtTwo(on0 && k0 != a, k0, d0, on1 && k1 != a, k1, d1, pre[1..][i].address)
      {
        assert pre[1..][i] == pre[i + 1] && post[1..][i] == post[i + 1] && pre[i + 1].address != a;
      }
      SumZipAtTwo(g, pre[1..], post[1..], on0 && k0 != a, k0, d0, on1 && k1 != a, k1, d1);
      if k0 != a { FindTail(pre, k0); }
      if k1 != a { FindTail(pre, k1); }
      assert SumZip(g, pre, post) == g(pre[0], post[0]) + SumZip(g, pre[1..], post[1..]);
    }
  }

  /** The change of a measure from the working copy at j to what the built-in made of it. */
  ghost function CopyChange(f: Account -> int, w: seq<Account>, post: seq<Account>, j: nat): int {
    if j < |w| && j < |post| then f(post[j]) - f(w[j]) else 0
  }

  /** What the measure gains when only the copies at x and y change it: the change of each that
      is written back last. */
  ghost function WrittenChange(f: Account -> int, metas: seq<Meta>, w: seq<Account>, post: seq<Account>, x: nat,
                               y: nat): int {
    (if LastNaming(metas, x) then CopyChange(f, w, post, x) else 0)
    + (if LastNaming(metas, y) then CopyChange(f, w, post, y) else 0)
  }

  lemma AccountChange(env: Env, cells: Cells, ix: Instruction, list: seq<Account>, f: Account -> int, x: nat,
                      y: nat, i: nat)
    requires WellBehaved(env) && Distinct(list) && Succeeds(env, cells, ix, list) && x != y && i < |list|
    requires Resolvable(ix.metas, list)
    requires var w, post := Resolved(ix.metas, list), InvocationOf(env, cells, ix, list).accounts;
      forall j :: 0 <= j < |w| && j < |post| && j != x && j != y ==> f(post[j]) == f(w[j])
    ensures SameAddresses(list, Dispatch(env, cells, ix, list).out.accounts)
    ensures var w, post := Resolved(ix.metas, list), InvocationOf(env, cells, ix, list).accounts;
      f(Dispatch(env, cells, ix, list).out.accounts[i]) - f(list[i])
      == AtTwo(LastNaming(ix.metas, x), if x < |ix.metas| then ix.metas[x].pubkey else 0, CopyChange(f, w, post, x),
               LastNaming(ix.metas, y), if y < |ix.metas| then ix.metas[y].pubkey else 0, CopyChange(f, w, post, y),
               list[i].address)
  {
    var j := CopySource(env, cells, ix, list, i);
  }

  /** For any metas: if an accepted built-in changes a measure of no copy but those at x and y,
      the total over the list changes by what is written back last of the two. */
  lemma TwoCopyTotal(env: Env, cells: Cells, ix: Instruction, list: seq<Account>, f: Account -> int, x: nat, y: nat)
    requires WellBehaved(env) && Distinct(list) && Succeeds(env, cells, ix, list) && x != y
    requires Resolvable(ix.metas, list)
    requires var w, post := Resolved(ix.metas, list), InvocationOf(env, cells, ix, list).accounts;
      forall j :: 0 <= j < |w| && j < |post| && j != x && j != y ==> f(post[j]) == f(w[j])
    ensures var w, post := Resolved(ix.metas, list), InvocationOf(env, cells, ix, list).accounts;
      SumBy(f, Dispatch(env, cells, ix, list).out.accounts)
        == SumBy(f, list) + WrittenChange(f, ix.metas, w, post, x, y)
  {
    var w, post := Resolved(ix.metas, list), InvocationOf(env, cells, ix, list).accounts;
    var after := Dispatch(env, cells, ix, list).out.accounts;
    DispatchShape(env, cells, ix, list);
    var on0, on1 := LastNaming(ix.metas, x), LastNaming(ix.metas, y);
    var k0 := if x < |ix.metas| then ix.metas[x].pubkey else 0;
    var k1 := if y < |ix.metas| then ix.metas[y].pubkey else 0;
    forall i | 0 <= i < |list| ensures Change(f)(list[i], after[i])
      == AtTwo(on0, k0, CopyChange(f, w, post, x), on1, k1, CopyChange(f, w, post, y), list[i].address)
    {
      AccountChange(env, cells, ix, list, f, x, y, i);
    }
    SumZipAtTwo(Change(f), list, after, on0, k0, CopyChange(f, w, post, x), on1, k1, CopyChange(f, w, post, y));
    ChangeTotal(f, list, after);
    if on0 { assert ix.metas[x] in ix.metas; }
    if on1 { assert ix.metas[y] in ix.metas; }
  }

  // --- when Strict accepts ----------------------------------------------------------------------

  /** The same harness without validation. */
  function Unchecked(env: Env): Env {
    env.(policy := Lax)
  }

  /** Every account that is named obeys the rules of its first meta. */
  ghost predicate RulesOnList(programId: Pubkey, metas: seq<Meta>, pre: seq<Account>, post: seq<Account>) {
    && SameAddresses(pre, post)
    && forall i :: 0 <= i < |pre| && FirstMeta(metas, pre[i].address).Some? ==>
         AccountRules(programId, FirstMeta(metas, pre[i].address).value.writable, pre[i], post[i])
  }

  lemma RulesByAccount(programId: Pubkey, metas: seq<Meta>, pre: seq<Account>, post: seq<Account>)
    requires Distinct(pre) && SameAddresses(pre, post) && Resolvable(metas, pre)
    ensures RulesOn(NamedKeys(metas, pre, post), programId, metas, pre, post)
      <==> RulesOnList(programId, metas, pre, post)
  {
    var keys := NamedKeys(metas, pre, post);
    if RulesOn(keys, programId, metas, pre, post) {
      forall i | 0 <= i < |pre| && FirstMeta(metas, pre[i].address).Some?
        ensures AccountRules(programId, FirstMeta(metas, pre[i].address).value.writable, pre[i], post[i])
      {
        LookupAt(pre, i);
        LookupSameAddresses(pre, post, pre[i].address);
        assert pre[i].address in keys;
      }
    }
    if RulesOnList(programId, metas, pre, post) {
      forall k | k in keys
        ensures var m, p, n := FirstMeta(metas, k), Lookup(pre, k), Lookup(post, k);
          m.Some? && p.Some? && n.Some? && AccountRules(programId, m.value.writable, p.value, n.value)
      {
        LookupSameAddresses(pre, post, k);
      }
    }
  }

  lemma BalanceByTotal(env: Env, cells: Cells, ix: Instruction, list: seq<Account>)
    requires WellBehaved(env) && Distinct(list) && Succeeds(env, cells, ix, list)
    ensures var after := Dispatch(env, cells, ix, list).out.accounts;
      var keys := NamedKeys(ix.metas, list, after);
      SumBy(Lamports(), after) - SumBy(Lamports(), list)
      == SumSet(keys, LamportsAt(after)) - SumSet(keys, LamportsAt(list))
  {
    var after := Dispatch(env, cells, ix, list).out.accounts;
    DispatchShape(env, cells, ix, list);
    forall i | 0 <= i < |list| ensures list[i].address in NamedKeys(ix.metas, list, after) || after[i] == list[i] {
      UnnamedUnchanged(env, cells, ix, list, i);
    }
    NamedTotals(list, after, NamedKeys(ix.metas, list, after));
  }

  lemma VerdictIsRules(env: Env, cells: Cells, ix: Instruction, list: seq<Account>)
    requires env.policy == Strict
    ensures var d := Dispatch(Unchecked(env), cells, ix, list);
      && (Succeeds(env, cells, ix, list) <==>
            d.out.error.None? && StrictRules(ix.programId, ix.metas, list, d.out.accounts))
      && (Succeeds(env, cells, ix, list) ==> Dispatch(env, cells, ix, list) == d)
  {
  }

  /** The declarative rules, account by account and over the whole list. */
  lemma RulesAreListRules(env: Env, cells: Cells, ix: Instruction, list: seq<Account>)
    requires WellBehaved(env) && Distinct(list) && Succeeds(env, cells, ix, list)
    ensures var after := Dispatch(env, cells, ix, list).out.accounts;
      StrictRules(ix.programId, ix.metas, list, after) <==>
        && RulesOnList(ix.programId, ix.metas, list, after)
        && SumBy(Lamports(), after) == SumBy(Lamports(), list) + SumZip(Credit(), list, after)
  {
    SuccessfulDispatch(env, cells, ix, list);
    DispatchShape(env, cells, ix, list);
    RulesByAccount(ix.programId, ix.metas, list, Dispatch(env, cells, ix, list).out.accounts);
    BalanceByTotal(env, cells, ix, list);
  }

  /** A Strict step changes the lamport total of the whole list by exactly the creation
      credit the validator allowed. */
  lemma StrictStepChangesTotalByCredit(env: Env, cells: Cells, ix: Instruction, list: seq<Account>)
    requires WellBehaved(env) && env.policy == Strict && Distinct(list)
    requires Succeeds(env, cells, ix, list)
    ensures var post := Dispatch(env, cells, ix, list).out.accounts;
      SumBy(Lamports(), post) == SumBy(Lamports(), list) + SumZip(Credit(), list, post)
  {
    SuccessfulDispatch(env, cells, ix, list);
    RulesAreListRules(env, cells, ix, list);
  }

  /** Strict accepts a step exactly when the built-in succeeds, every named account obeys its
      rules, and the total of the list changes by the creation credit. */
  lemma StrictVerdict(env: Env, cells: Cells, ix: Instruction, list: seq<Account>)
    requires WellBehaved(env) && env.policy == Strict && Distinct(list)
    ensures var d := Dispatch(Unchecked(env), cells, ix, list);
      && (Succeeds(env, cells, ix, list) <==>
            && d.out.error.None?
            && RulesOnList(ix.programId, ix.metas, list, d.out.accounts)
            && SumBy(Lamports(), d.out.accounts) == SumBy(Lamports(), list) + SumZip(Credit(), list, d.out.accounts))
      && (Succeeds(env, cells, ix, list) ==> Dispatch(env, cells, ix, list) == d)
  {
    VerdictIsRules(env, cells, ix, list);
    if Succeeds(Unchecked(env), cells, ix, list) {
      RulesAreListRules(Unchecked(env), cells, ix, list);
    }
  }
}
