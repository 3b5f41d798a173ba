/** Nobody but its authorities changes a stake account, over every Strict run. */
module StakeAuthority {
  import opened Common
  import opened Bytes
  import opened Engine
  import opened Kernel
  import opened Runs
  import opened StakeRecord
  import opened StakeProgram
  import StakeLock

  predicate HasMeta(a: Account) {
    var s := ReadState(a.data);
    s.Ok? && !s.value.Uninitialized?
  }

  function MetaOf(a: Account): StakeMeta
    requires HasMeta(a)
  {
    ReadState(a.data).value.meta
  }

  /** What changes when the withdrawer does not sign: lamports only come in, and of the record
      neither the withdrawer nor the reserve nor the lockup. When the staker does not sign
      either, nothing of the record. */
  ghost predicate Guarded(p: Account, n: Account, withdrawerSigns: bool, stakerSigns: bool) {
    HasMeta(p) && !withdrawerSigns ==>
      && n.lamports >= p.lamports && HasMeta(n) && n.owner == p.owner
      && MetaOf(n).(staker := MetaOf(p).staker) == MetaOf(p)
      && (!stakerSigns ==> n.data == p.data)
  }

  ghost predicate GuardedCopy(ctx: Ctx, p: Account, n: Account) {
    HasMeta(p) ==> Guarded(p, n, IsSigner(ctx, MetaOf(p).withdrawer), IsSigner(ctx, MetaOf(p).staker))
  }

  lemma RewriteGuarded(ctx: Ctx, a: Account, s: StakeState)
    requires STAKE_ACCOUNT_SIZE <= |a.data| && HasMeta(a) && !s.Uninitialized?
    requires IsSigner(ctx, MetaOf(a).withdrawer)
      || (IsSigner(ctx, MetaOf(a).staker) && s.meta.(staker := MetaOf(a).staker) == MetaOf(a))
    ensures GuardedCopy(ctx, a, WriteTo(a, s))
  {
    ReadWritten(a.data, s);
  }

  lemma AuthorizeGuarded(ctx: Ctx, body: seq<byte>, w: seq<Account>)
    requires Authorize(ctx, body, w).Ok?
    ensures GuardedCopy(ctx, w[0], Authorize(ctx, body, w).value[0])
  {
    var state, key := ReadState(w[0].data).value, PubkeyAt(body, 0);
    if U32At(body, 32) == 0 {
      RewriteGuarded(ctx, w[0], state.(meta := state.meta.(staker := key)));
    } else {
      RewriteGuarded(ctx, w[0], state.(meta := state.meta.(withdrawer := key)));
    }
  }

  lemma DelegateGuarded(ctx: Ctx, w: seq<Account>)
    requires DelegateStake(ctx, w).Ok?
    ensures GuardedCopy(ctx, w[0], DelegateStake(ctx, w).value[0])
  {
    var state := ReadState(w[0].data).value;
    var first := state.Initialized?;
    var d := Delegation(
      w[1].address, SatSub(w[0].lamports, state.meta.reserve), ctx.sysvars.clock.epoch, U64_MAX,
      if first then QUARTER else state.delegation.rate);
    RewriteGuarded(ctx, w[0], Delegated(state.meta, d, if first then 0 else state.credits));
  }

  lemma DeactivateGuarded(ctx: Ctx, w: seq<Account>)
    requires Deactivate(ctx, w).Ok?
    ensures GuardedCopy(ctx, w[0], Deactivate(ctx, w).value[0])
  {
    var state := ReadState(w[0].data).value;
    RewriteGuarded(ctx, w[0],
      state.(delegation := state.delegation.(deactivationEpoch := ctx.sysvars.clock.epoch)));
  }

  lemma WithdrawCredits(ctx: Ctx, body: seq<byte>, w: seq<Account>, j: nat)
    requires Withdraw(ctx, body, w).Ok? && 0 < j < |w|
    ensures |Withdraw(ctx, body, w).value| == |w| && OnlyCredited(w[j], Withdraw(ctx, body, w).value[j])
  {
  }

  /** The other instructions rewrite the first copy only. */
  lemma RewritesFirst(ctx: Ctx, data: seq<byte>, w: seq<Account>)
    requires Invoke(ctx, data, w).Ok? && U32At(data, 0) != 4
    ensures |w| > 0 && |Invoke(ctx, data, w).value| == |w|
    ensures Invoke(ctx, data, w).value == w[0 := Invoke(ctx, data, w).value[0]]
  {
  }

  lemma OthersOnlyCredited(ctx: Ctx, data: seq<byte>, w: seq<Account>, j: nat)
    requires Invoke(ctx, data, w).Ok? && 0 < j < |w|
    ensures |Invoke(ctx, data, w).value| == |w| && OnlyCredited(w[j], Invoke(ctx, data, w).value[j])
  {
    if U32At(data, 0) == 4 {
      WithdrawCredits(ctx, data[4..], w, j);
    } else {
      RewritesFirst(ctx, data, w);
    }
  }

  lemma FirstGuarded(ctx: Ctx, data: seq<byte>, w: seq<Account>)
    requires Invoke(ctx, data, w).Ok?
    ensures |w| > 0 && |Invoke(ctx, data, w).value| == |w| && GuardedCopy(ctx, w[0], Invoke(ctx, data, w).value[0])
  {
    StakeLock.InvokeKeepsLocks(ctx, data, w, U64_MAX);
    var tag, body := U32At(data, 0), data[4..];
    if tag == 0 { assert !HasMeta(w[0]); }
    else if tag == 1 { AuthorizeGuarded(ctx, body, w); }
    else if tag == 2 { DelegateGuarded(ctx, w); }
    else if tag == 4 { assert IsSigner(ctx, MetaOf(w[0]).withdrawer); }
    else { DeactivateGuarded(ctx, w); }
  }

  // --- over runs ------------------------------------------------------------------------------

  /** The key signs no stake instruction of the run. */
  ghost predicate NeverSigns(events: seq<Event>, stakeId: Pubkey, key: Pubkey) {
    forall e :: e in events && e.Exec? && e.ix.programId == stakeId ==>
      var m := FirstMeta(e.ix.metas, key); m.None? || !m.value.signer
  }

  lemma StakeEventGuarded(s: State, ix: Instruction, i: nat, stakeId: Pubkey)
    requires StakeLock.StakeHarness(s, stakeId) && i < |s.list| && HasMeta(s.list[i])
    requires ix.programId == stakeId && Succeeds(s.env, s.cells, ix, s.list)
    requires !IsSigner(StakeLock.StakeCtx(s, ix), MetaOf(s.list[i]).withdrawer)
    ensures SameAddresses(s.list, After(s, Exec(ix)).list)
    ensures Guarded(s.list[i], After(s, Exec(ix)).list[i], false,
      IsSigner(StakeLock.StakeCtx(s, ix), MetaOf(s.list[i]).staker))
  {
    var j := StakeLock.StakeCopy(s, ix, i, stakeId);
    if j >= 0 {
      var ctx, w := StakeLock.StakeCtx(s, ix), Resolved(ix.metas, s.list);
      if j == 0 { FirstGuarded(ctx, ix.data, w); } else { OthersOnlyCredited(ctx, ix.data, w, j); }
    }
  }

  lemma EventGuarded(s: State, e: Event, i: nat, stakeId: Pubkey)
    requires StakeLock.StakeHarness(s, stakeId) && i < |s.list| && s.list[i].owner == stakeId && HasMeta(s.list[i])
    requires NeverSigns([e], stakeId, MetaOf(s.list[i]).withdrawer)
    ensures StakeLock.StakeHarness(After(s, e), stakeId) && SameAddresses(s.list, After(s, e).list)
    ensures Guarded(s.list[i], After(s, e).list[i], false, !NeverSigns([e], stakeId, MetaOf(s.list[i]).staker))
  {
    AfterSound(s, e);
    assert e in [e];
    if e.Exec? {
      if e.ix.programId != stakeId {
        StrictStepRespectsOwners(s.env, s.cells, e.ix, s.list, i);
      } else if Succeeds(s.env, s.cells, e.ix, s.list) {
        StakeEventGuarded(s, e.ix, i, stakeId);
      } else {
        DispatchShape(s.env, s.cells, e.ix, s.list);
      }
    }
  }

  /** While the withdrawer signs no stake instruction, no lamports leave the account and its
      withdrawer, reserve and lockup stay; while the staker signs none either, its record does
      not change at all. Any other programs may run in between. */
  lemma {:induction false} OnlyAuthoritiesChangeIt(s: State, events: seq<Event>, i: nat, stakeId: Pubkey,
                                                   stakerSigns: bool)
    requires StakeLock.StakeHarness(s, stakeId) && i < |s.list| && s.list[i].owner == stakeId && HasMeta(s.list[i])
    requires NeverSigns(events, stakeId, MetaOf(s.list[i]).withdrawer)
    requires stakerSigns || NeverSigns(events, stakeId, MetaOf(s.list[i]).staker)
    ensures SameAddresses(s.list, Run(s, events).list)
    ensures Guarded(s.list[i], Run(s, events).list[i], false, stakerSigns)
    decreases |events|
  {
    if events != [] {
      var e, next, rest := events[0], After(s, events[0]), events[1..];
      assert e in events && forall x :: x in rest ==> x in events;
      assert forall x :: x in [e] ==> x == e;
      EventGuarded(s, e, i, stakeId);
      OnlyAuthoritiesChangeIt(next, rest, i, stakeId, stakerSigns);
    }
  }
}
