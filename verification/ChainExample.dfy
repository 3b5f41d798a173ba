/** A chain is not atomic: one that fails at its second instruction keeps the first one's work. */
module ChainExample {
  import opened Common
  import opened Bytes
  import opened Sums
  import opened Accounts
  import opened Validation
  import opened Engine
  import opened Kernel
  import opened Runs
  import opened SystemProgram
  import opened Ledger

  /** Hand the account over, signed. */
  function HandOver(k: Pubkey, newOwner: Pubkey): Instruction {
    Instruction(SYSTEM_ID, [Meta(k, true, true)], U32Bytes(1) + PubkeyBytes(newOwner))
  }

  /** No tag: the system program refuses it. */
  function Tagless(): Instruction {
    Instruction(SYSTEM_ID, [], [])
  }

  lemma HandOverReads(k: Pubkey, newOwner: Pubkey)
    ensures var data := HandOver(k, newOwner).data;
      |data| == 36 && U32At(data, 0) == 1 && PubkeyAt(data[4..], 0) == newOwner
  {
    var data := HandOver(k, newOwner).data;
    assert Holds(data, 0, data);
    HoldsBoth(data, 0, U32Bytes(1), PubkeyBytes(newOwner));
    assert Holds(data[4..], 0, PubkeyBytes(newOwner));
    ReadU32(data, 0, 1);
    ReadPubkey(data[4..], 0, newOwner);
  }

  lemma HandOverRuns(env: Env, cells: Cells, a: Account, newOwner: Pubkey)
    requires SystemRegistered(env) && Limit(env, cells) >= SYSTEM_PROGRAM_COST
    ensures var d := Dispatch(Unchecked(env), cells, HandOver(a.address, newOwner), [a]);
      d.out.error.None? && d.out.accounts == [a.(owner := newOwner)] && d.cells == cells
  {
    var ix := HandOver(a.address, newOwner);
    LookupAt([a], 0);
    HandOverReads(a.address, newOwner);
    assert Resolvable(ix.metas, [a]) && Resolved(ix.metas, [a]) == [a];
    var ctx := SystemCtx(env, cells, ix);
    assert FirstMeta(ctx.metas, a.address) == Some(ix.metas[0]);
    assert [a][0 := a.(owner := newOwner)] == [a.(owner := newOwner)];
    assert Invoke(ctx, ix.data, [a]) == Assign(ctx, ix.data[4..], [a]) == Ok([a.(owner := newOwner)]);
    MergedReplays([a], [a.(owner := newOwner)]);
  }

  /** Strict accepts it, since the account is the system program's to give. */
  lemma HandOverIsAccepted(env: Env, cells: Cells, a: Account, newOwner: Pubkey)
    requires SystemHarness(env) && Limit(env, cells) >= SYSTEM_PROGRAM_COST && a.owner == SYSTEM_ID
    ensures var d := Dispatch(env, cells, HandOver(a.address, newOwner), [a]);
      d.out.error.None? && d.out.accounts == [a.(owner := newOwner)] && d.cells == cells
  {
    var pre, post := [a], [a.(owner := newOwner)];
    HandOverRuns(env, cells, a, newOwner);
    assert Credit()(pre[0], post[0]) == CreditOf(pre[0], post[0]) == 0;
    SumZipZero(Credit(), pre, post);
    SumByPointwise(Lamports(), pre, post);
    StrictVerdict(env, cells, HandOver(a.address, newOwner), pre);
  }

  lemma TaglessFails(env: Env, cells: Cells, list: seq<Account>)
    requires SystemRegistered(env)
    ensures var d := Dispatch(env, cells, Tagless(), list); d.out.error.Some? && d.out.accounts == list
  {
    var ix := Tagless();
    if Resolvable(ix.metas, list) {
      assert Invoke(SystemCtx(env, cells, ix), ix.data, Resolved(ix.metas, list)).Err?;
    }
  }

  /** Under Strict, the failed chain returns the handed-over account, not its input. */
  lemma FailedChainKeepsPrefix(env: Env, cells: Cells, a: Account, newOwner: Pubkey)
    requires SystemHarness(env) && Limit(env, cells) >= SYSTEM_PROGRAM_COST
    requires a.owner == SYSTEM_ID != newOwner
    ensures var r := Chain(env, cells, [HandOver(a.address, newOwner), Tagless()], [a]);
      r.out.error.Some? && r.out.accounts == [a.(owner := newOwner)] && r.out.accounts != [a]
  {
    var after := [a.(owner := newOwner)];
    var ixs := [HandOver(a.address, newOwner), Tagless()];
    HandOverIsAccepted(env, cells, a, newOwner);
    MergedReplays([a], after);
    TaglessFails(env, cells, after);
    assert ixs[1..] == [Tagless()];
    assert Chain(env, cells, ixs[1..], after) == Dispatch(env, cells, Tagless(), after);
    assert after[0] != a;
  }
}
