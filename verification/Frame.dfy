/** Dispatch reads and writes only the accounts its metas name: two lists that agree on
    those accounts take the same step. */
module Frame {
  import opened Common
  import opened Sums
  import opened Accounts
  import opened Validation
  import opened Engine
  import opened Kernel

  ghost predicate AgreeOn(metas: seq<Meta>, a: seq<Account>, b: seq<Account>) {
    forall m :: m in metas ==> Lookup(a, m.pubkey) == Lookup(b, m.pubkey)
  }

  ghost predicate Unnamed(metas: seq<Meta>, k: Pubkey) {
    forall m :: m in metas ==> m.pubkey != k
  }

  ghost predicate ChangesOnlyNamed(metas: seq<Meta>, pre: seq<Account>, post: seq<Account>) {
    SameAddresses(pre, post) && forall i :: 0 <= i < |pre| && Unnamed(metas, pre[i].address) ==> post[i] == pre[i]
  }

  lemma MergedLookup(list: seq<Account>, work: seq<Account>, k: Pubkey)
    requires Distinct(list) && AllNamed(list, work)
    ensures SameAddresses(list, Merged(list, work))
    ensures var a := Lookup(list, k);
      Lookup(Merged(list, work), k) == if a.Some? then Some(LastCopy(a.value, work)) else None
  {
    MergedIsMapUpdate(list, work);
    LookupSameAddresses(list, Merged(list, work), k);
  }

  lemma MergeChangesOnlyNamed(metas: seq<Meta>, list: seq<Account>, work: seq<Account>)
    requires Distinct(list) && Resolvable(metas, list) && SameAddresses(Resolved(metas, list), work)
    ensures ChangesOnlyNamed(metas, list, Merged(list, work))
  {
    WorkIsNamed(metas, list, work);
    MergedIsMapUpdate(list, work);
    forall i | 0 <= i < |list| && Unnamed(metas, list[i].address) ensures Merged(list, work)[i] == list[i] {
      forall w | w in work ensures w.address != list[i].address {
        var j :| 0 <= j < |work| && work[j] == w;
        assert metas[j] in metas;
      }
      LastCopyAbsent(list[i], work);
    }
  }

  /** The whole-list credit is a sum over the named accounts alone. */
  lemma CreditIsNamed(metas: seq<Meta>, pre: seq<Account>, post: seq<Account>)
    requires Distinct(pre) && Resolvable(metas, pre) && ChangesOnlyNamed(metas, pre, post)
    ensures SumZip(Credit(), pre, post) == SumSet(NamedKeys(metas, pre, post), AtBoth(Credit(), pre, post))
  {
    var keys := NamedKeys(metas, pre, post);
    forall i | 0 <= i < |pre| ensures pre[i].address in keys || post[i] == pre[i] {
      if !Unnamed(metas, pre[i].address) {
        var m :| m in metas && m.pubkey == pre[i].address;
        LookupAt(pre, i);
        LookupSameAddresses(pre, post, m.pubkey);
      }
    }
    ZipNamed(Credit(), pre, post, keys);
  }

  ghost predicate SameOn(keys: set<Pubkey>, a: seq<Account>, b: seq<Account>) {
    forall k :: k in keys ==> Lookup(a, k) == Lookup(b, k)
  }

  lemma SumsAgree(keys: set<Pubkey>, pre: seq<Account>, post: seq<Account>, pre': seq<Account>, post': seq<Account>)
    requires SameOn(keys, pre, pre') && SameOn(keys, post, post')
    ensures SumSet(keys, LamportsAt(pre)) == SumSet(keys, LamportsAt(pre'))
    ensures SumSet(keys, LamportsAt(post)) == SumSet(keys, LamportsAt(post'))
    ensures SumSet(keys, AtBoth(Credit(), pre, post)) == SumSet(keys, AtBoth(Credit(), pre', post'))
  {
    SumSetCongruent(keys, AtBoth(Credit(), pre, post), AtBoth(Credit(), pre', post'));
    SumSetCongruent(keys, LamportsAt(pre), LamportsAt(pre'));
    SumSetCongruent(keys, LamportsAt(post), LamportsAt(post'));
  }

  lemma KeysAgree(metas: seq<Meta>, pre: seq<Account>, post: seq<Account>, pre': seq<Account>, post': seq<Account>)
    requires AgreeOn(metas, pre, pre') && AgreeOn(metas, post, post')
    ensures var keys := NamedKeys(metas, pre, post);
      keys == NamedKeys(metas, pre', post') && SameOn(keys, pre, pre') && SameOn(keys, post, post')
  {
  }

  lemma RulesAgree(keys: set<Pubkey>, programId: Pubkey, metas: seq<Meta>, pre: seq<Account>,
                   post: seq<Account>, pre': seq<Account>, post': seq<Account>)
    requires SameOn(keys, pre, pre') && SameOn(keys, post, post')
    requires RulesOn(keys, programId, metas, pre, post)
    ensures RulesOn(keys, programId, metas, pre', post')
  {
  }

  lemma StrictRulesAgree(programId: Pubkey, metas: seq<Meta>, pre: seq<Account>,
                         post: seq<Account>, pre': seq<Account>, post': seq<Account>)
    requires Distinct(pre) && Resolvable(metas, pre) && ChangesOnlyNamed(metas, pre, post)
    requires Distinct(pre') && Resolvable(metas, pre') && ChangesOnlyNamed(metas, pre', post')
    requires AgreeOn(metas, pre, pre') && AgreeOn(metas, post, post')
    requires StrictRules(programId, metas, pre, post)
    ensures StrictRules(programId, metas, pre', post')
  {
    var keys := NamedKeys(metas, pre, post);
    KeysAgree(metas, pre, post, pre', post');
    CreditIsNamed(metas, pre, post);
    CreditIsNamed(metas, pre', post');
    RulesAgree(keys, programId, metas, pre, post, pre', post');
    SumsAgree(keys, pre, post, pre', post');
  }

  lemma ResolvedAgree(metas: seq<Meta>, a: seq<Account>, b: seq<Account>)
    requires AgreeOn(metas, a, b)
    ensures Resolvable(metas, a) <==> Resolvable(metas, b)
    ensures Resolvable(metas, a) ==> Resolved(metas, a) == Resolved(metas, b)
  {
    if Resolvable(metas, a) && Resolvable(metas, b) {
      var wa, wb := Resolved(metas, a), Resolved(metas, b);
      forall i | 0 <= i < |metas| ensures wa[i] == wb[i] { assert metas[i] in metas; }
    }
  }

  lemma MergedAgree(metas: seq<Meta>, a: seq<Account>, b: seq<Account>, work: seq<Account>)
    requires Distinct(a) && Distinct(b) && AgreeOn(metas, a, b) && Resolvable(metas, a)
    requires SameAddresses(Resolved(metas, a), work)
    ensures AgreeOn(metas, Merged(a, work), Merged(b, work))
    ensures ChangesOnlyNamed(metas, a, Merged(a, work)) && ChangesOnlyNamed(metas, b, Merged(b, work))
  {
    ResolvedAgree(metas, a, b);
    WorkIsNamed(metas, a, work);
    WorkIsNamed(metas, b, work);
    MergeChangesOnlyNamed(metas, a, work);
    MergeChangesOnlyNamed(metas, b, work);
    forall m | m in metas ensures Lookup(Merged(a, work), m.pubkey) == Lookup(Merged(b, work), m.pubkey) {
      MergedLookup(a, work, m.pubkey);
      MergedLookup(b, work, m.pubkey);
    }
  }

  lemma VerdictsAgree(programId: Pubkey, metas: seq<Meta>, a: seq<Account>, b: seq<Account>, work: seq<Account>)
    requires Distinct(a) && Distinct(b) && AgreeOn(metas, a, b) && Resolvable(metas, a)
    requires SameAddresses(Resolved(metas, a), work)
    ensures StrictRules(programId, metas, a, Merged(a, work)) <==> StrictRules(programId, metas, b, Merged(b, work))
  {
    ResolvedAgree(metas, a, b);
    MergedAgree(metas, a, b, work);
    if StrictRules(programId, metas, a, Merged(a, work)) {
      StrictRulesAgree(programId, metas, a, Merged(a, work), b, Merged(b, work));
    }
    if StrictRules(programId, metas, b, Merged(b, work)) {
      StrictRulesAgree(programId, metas, b, Merged(b, work), a, Merged(a, work));
    }
  }

  /** Two steps with the same verdict, cells and named post-state, neither of which touched
      an unnamed account. */
  ghost predicate SameStep(metas: seq<Meta>, a: seq<Account>, b: seq<Account>, d: Step, e: Step) {
    && d.out.error == e.out.error && d.out.consumed == e.out.consumed && d.cells == e.cells
    && AgreeOn(metas, d.out.accounts, e.out.accounts)
    && ChangesOnlyNamed(metas, a, d.out.accounts)
    && ChangesOnlyNamed(metas, b, e.out.accounts)
  }

  lemma ValidatedSame(policy: Policy, ix: Instruction, a: seq<Account>, b: seq<Account>, inv: Invoked)
    requires Distinct(a) && Distinct(b) && AgreeOn(ix.metas, a, b) && Resolvable(ix.metas, a)
    requires SameAddresses(Resolved(ix.metas, a), inv.accounts) && inv.error.None?
    ensures SameStep(ix.metas, a, b,
      Validated(policy, ix, a, Step(Outcome(Merged(a, inv.accounts), inv.consumed, None), inv.cells)),
      Validated(policy, ix, b, Step(Outcome(Merged(b, inv.accounts), inv.consumed, None), inv.cells)))
  {
    VerdictsAgree(ix.programId, ix.metas, a, b, inv.accounts);
    MergedAgree(ix.metas, a, b, inv.accounts);
  }

  /** The frame of a dispatch: lists that agree on the named accounts get the same verdict,
      the same cells and the same named post-state; every other account is untouched. */
  lemma DispatchFrame(env: Env, cells: Cells, ix: Instruction, a: seq<Account>, b: seq<Account>)
    requires WellBehaved(env) && Distinct(a) && Distinct(b) && AgreeOn(ix.metas, a, b)
    ensures SameStep(ix.metas, a, b, Dispatch(env, cells, ix, a), Dispatch(env, cells, ix, b))
  {
    ResolvedAgree(ix.metas, a, b);
    if ix.programId in env.registry && Resolvable(ix.metas, a) {
      var p := env.registry[ix.programId];
      assert KeepsAddresses(p);
      var cost := p.cost(env.defaultCost);
      var inv := Invocation(p, ix, a, env.sysvars, Limit(env, cells), cost, cells);
      assert inv == Invocation(p, ix, b, env.sysvars, Limit(env, cells), cost, cells);
      if cost <= Limit(env, cells) && inv.error.None? {
        ValidatedSame(env.policy, ix, a, b, inv);
      }
    }
  }
}
