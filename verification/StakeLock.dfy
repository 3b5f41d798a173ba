/** Stake principal stays locked over every Strict run, whatever other programs do. */
module StakeLock {
  import opened Common
  import opened Validation
  import opened Engine
  import opened Kernel
  import opened Runs
  import opened Bytes
  import opened StakeRecord
  import opened StakeProgram

  /** An initialised stake account holds its reserve; a delegated one that still binds its stake in
      the epoch holds reserve plus stake; reserve plus stake never exceeds 64 bits. The last epoch
      of all stands for any: what binds its stake then is not deactivated. */
  ghost predicate Covered(s: StakeState, lamports: u64, epoch: u64) {
    !s.Uninitialized? ==>
      && s.meta.reserve <= lamports
      && (s.Delegated? ==>
            var floor: int := s.meta.reserve + s.delegation.stake;
            && floor <= U64_MAX
            && (BindsStake(s, epoch) ==> floor <= lamports))
  }

  ghost predicate Locked(a: Account, epoch: u64) {
    var s := ReadState(a.data);
    s.Ok? ==> Covered(s.value, a.lamports, epoch)
  }

  /** What is locked in an epoch is locked in every later one. */
  lemma LockedLater(a: Account, epoch: u64, later: u64)
    requires Locked(a, epoch) && epoch <= later
    ensures Locked(a, later)
  {
  }

  /** A step of the stake program keeps every locked copy of its slice locked, and never
      changes an owner. */
  ghost predicate KeepsLocks(w: seq<Account>, post: seq<Account>, epoch: u64) {
    && SameAddresses(w, post)
    && forall j :: 0 <= j < |w| ==> post[j].owner == w[j].owner && (Locked(w[j], epoch) ==> Locked(post[j], epoch))
  }

  /** Rewriting the record of the first copy keeps every lock if the new state is covered
      whenever the old one was. */
  lemma RewriteKeepsLocks(w: seq<Account>, s: StakeState, epoch: u64)
    requires |w| > 0 && STAKE_ACCOUNT_SIZE <= |w[0].data|
    requires Locked(w[0], epoch) ==> Covered(s, w[0].lamports, epoch)
    ensures KeepsLocks(w, w[0 := WriteTo(w[0], s)], epoch)
  {
    ReadWritten(w[0].data, s);
  }

  lemma InitializeKeepsLocks(ctx: Ctx, body: seq<byte>, w: seq<Account>, epoch: u64)
    requires Initialize(ctx, body, w).Ok?
    ensures KeepsLocks(w, Initialize(ctx, body, w).value, epoch)
  {
    var meta := StakeMeta(
      ctx.sysvars.oracles.minimumBalance(STAKE_ACCOUNT_SIZE), PubkeyAt(body, 0), PubkeyAt(body, 32),
      I64At(body, 64), U64At(body, 72), PubkeyAt(body, 80));
    RewriteKeepsLocks(w, Initialized(meta), epoch);
  }

  lemma AuthorizeKeepsLocks(ctx: Ctx, body: seq<byte>, w: seq<Account>, epoch: u64)
    requires Authorize(ctx, body, w).Ok?
    ensures KeepsLocks(w, Authorize(ctx, body, w).value, epoch)
  {
    var state, key := ReadState(w[0].data).value, PubkeyAt(body, 0);
    var meta := if U32At(body, 32) == 0 then state.meta.(staker := key) else state.meta.(withdrawer := key);
    assert Authorize(ctx, body, w) == Ok(w[0 := WriteTo(w[0], state.(meta := meta))]);
    RewriteKeepsLocks(w, state.(meta := meta), epoch);
  }

  lemma DelegateKeepsLocks(ctx: Ctx, w: seq<Account>, epoch: u64)
    requires DelegateStake(ctx, w).Ok?
    ensures KeepsLocks(w, DelegateStake(ctx, w).value, epoch)
  {
    var state := ReadState(w[0].data).value;
    var first := state.Initialized?;
    var d := Delegation(
      w[1].address, SatSub(w[0].lamports, state.meta.reserve), ctx.sysvars.clock.epoch, U64_MAX,
      if first then QUARTER else state.delegation.rate);
    RewriteKeepsLocks(w, Delegated(state.meta, d, if first then 0 else state.credits), epoch);
  }

  lemma DeactivateKeepsLocks(ctx: Ctx, w: seq<Account>, epoch: u64)
    requires Deactivate(ctx, w).Ok? && ctx.sysvars.clock.epoch <= epoch
    ensures KeepsLocks(w, Deactivate(ctx, w).value, epoch)
  {
    var state := ReadState(w[0].data).value;
    RewriteKeepsLocks(w, state.(delegation := state.delegation.(deactivationEpoch := ctx.sysvars.clock.epoch)), epoch);
  }

  /** A withdrawal from a locked account leaves it locked, and wipes it only if it had no
      reserve; it may run in that epoch or in an earlier one. */
  lemma WithdrawKeepsLock(ctx: Ctx, body: seq<byte>, w: seq<Account>, epoch: u64)
    requires Withdraw(ctx, body, w).Ok? && Locked(w[0], epoch) && ctx.sysvars.clock.epoch <= epoch
    ensures var post, state := Withdraw(ctx, body, w).value, ReadState(w[0].data).value;
      && Locked(post[0], epoch)
      && state.meta.reserve <= post[0].lamports
      && (state.meta.reserve > 0 ==> post[0].lamports > 0 && post[0].data == w[0].data)
      && (BindsStake(state, epoch) ==> state.meta.reserve + state.delegation.stake <= post[0].lamports)
  {
    var post := Withdraw(ctx, body, w).value;
    if post[0].lamports == 0 {
      ZeroesAreUninitialized(|w[0].data|);
    }
  }

  lemma ZeroesAreUninitialized(n: nat)
    requires STAKE_ACCOUNT_SIZE <= n
    ensures ReadState(Zeroes(n)) == Ok(Uninitialized)
  {
    ReadWritten(Zeroes(n), Uninitialized);
    assert Written(Zeroes(n), Uninitialized) == Zeroes(n);
  }

  lemma WithdrawKeepsLocks(ctx: Ctx, body: seq<byte>, w: seq<Account>, epoch: u64)
    requires Withdraw(ctx, body, w).Ok? && ctx.sysvars.clock.epoch <= epoch
    ensures KeepsLocks(w, Withdraw(ctx, body, w).value, epoch)
  {
    var post := Withdraw(ctx, body, w).value;
    assert SameAddresses(w, post) && post[0].owner == w[0].owner && post[1].owner == w[1].owner;
    if Locked(w[0], epoch) { WithdrawKeepsLock(ctx, body, w, epoch); }
    assert post[1].data == w[1].data && post[1].lamports >= w[1].lamports;
  }

  lemma InvokeKeepsLocks(ctx: Ctx, data: seq<byte>, w: seq<Account>, epoch: u64)
    requires Invoke(ctx, data, w).Ok? && ctx.sysvars.clock.epoch <= epoch
    ensures KeepsLocks(w, Invoke(ctx, data, w).value, epoch)
  {
    var tag, body := U32At(data, 0), data[4..];
    if tag == 0 { InitializeKeepsLocks(ctx, body, w, epoch); }
    else if tag == 1 { AuthorizeKeepsLocks(ctx, body, w, epoch); }
    else if tag == 2 { DelegateKeepsLocks(ctx, w, epoch); }
    else if tag == 4 { WithdrawKeepsLocks(ctx, body, w, epoch); }
    else { DeactivateKeepsLocks(ctx, w, epoch); }
  }

  lemma StakeProgramKeepsAddresses()
    ensures KeepsAddresses(StakeProgramSimulator())
  {
    forall ctx: Ctx, data: seq<byte>, w: seq<Account>, cells: Cells
      ensures SameAddresses(w, StakeProgramSimulator().invoke(ctx, data, w, cells).accounts)
    {
      if Invoke(ctx, data, w).Ok? { InvokeKeepsLocks(ctx, data, w, U64_MAX); }
    }
  }

  // --- over runs ------------------------------------------------------------------------------

  /** The stake program is registered, next to any other programs, under Strict validation. */
  ghost predicate StakeHarness(s: State, stakeId: Pubkey) {
    && Sound(s) && s.env.policy == Strict && stakeId != SYSTEM_ID
    && stakeId in s.env.registry && s.env.registry[stakeId] == StakeProgramSimulator()
  }

  ghost predicate HeldByStake(a: Account, stakeId: Pubkey, epoch: u64) {
    a.owner == stakeId && Locked(a, epoch)
  }

  /** The clock of the run is never past the epoch; any run keeps to the last epoch of all. */
  ghost predicate ClockUpTo(s: State, events: seq<Event>, epoch: u64) {
    && s.env.sysvars.clock.epoch <= epoch
    && forall e :: e in events && e.SetSysvars? ==> e.sysvars.clock.epoch <= epoch
  }

  function StakeCtx(s: State, ix: Instruction): Ctx {
    Ctx(ix.programId, ix.metas, s.env.sysvars, Limit(s.env, s.cells), STAKE_INSTRUCTION_CU)
  }

  /** The copy of account i a stake instruction leaves behind, if it works on one. */
  lemma StakeCopy(s: State, ix: Instruction, i: nat, stakeId: Pubkey) returns (j: int)
    requires StakeHarness(s, stakeId) && i < |s.list|
    requires ix.programId == stakeId && Succeeds(s.env, s.cells, ix, s.list)
    ensures SameAddresses(s.list, After(s, Exec(ix)).list) && Resolvable(ix.metas, s.list) && j < |ix.metas|
    ensures j < 0 ==> After(s, Exec(ix)).list[i] == s.list[i]
    ensures j >= 0 ==>
      var w := Resolved(ix.metas, s.list);
      var r := Invoke(StakeCtx(s, ix), ix.data, w);
      w[j] == s.list[i] && r.Ok? && |r.value| == |w| && After(s, Exec(ix)).list[i] == r.value[j]
  {
    j := CopySource(s.env, s.cells, ix, s.list, i);
    SuccessfulDispatch(s.env, s.cells, ix, s.list);
    var w := Resolved(ix.metas, s.list);
    assert Invoke(StakeCtx(s, ix), ix.data, w) == Ok(InvocationOf(s.env, s.cells, ix, s.list).accounts);
  }

  lemma StakeStepKeepsLock(s: State, ix: Instruction, i: nat, stakeId: Pubkey, epoch: u64)
    requires StakeHarness(s, stakeId) && i < |s.list| && HeldByStake(s.list[i], stakeId, epoch)
    requires ix.programId == stakeId && Succeeds(s.env, s.cells, ix, s.list) && s.env.sysvars.clock.epoch <= epoch
    ensures SameAddresses(s.list, After(s, Exec(ix)).list)
    ensures HeldByStake(After(s, Exec(ix)).list[i], stakeId, epoch)
  {
    var j := StakeCopy(s, ix, i, stakeId);
    if j >= 0 {
      InvokeKeepsLocks(StakeCtx(s, ix), ix.data, Resolved(ix.metas, s.list), epoch);
    }
  }

  lemma ForeignStepKeepsLock(p: Account, n: Account, stakeId: Pubkey, epoch: u64)
    requires HeldByStake(p, stakeId, epoch) && OnlyCredited(p, n)
    ensures HeldByStake(n, stakeId, epoch)
  {
  }

  lemma EventKeepsLock(s: State, e: Event, i: nat, stakeId: Pubkey, epoch: u64)
    requires StakeHarness(s, stakeId) && i < |s.list| && HeldByStake(s.list[i], stakeId, epoch)
    requires s.env.sysvars.clock.epoch <= epoch
    ensures StakeHarness(After(s, e), stakeId) && SameAddresses(s.list, After(s, e).list)
    ensures HeldByStake(After(s, e).list[i], stakeId, epoch)
  {
    AfterSound(s, e);
    if e.Exec? {
      if e.ix.programId != stakeId {
        StrictStepRespectsOwners(s.env, s.cells, e.ix, s.list, i);
        ForeignStepKeepsLock(s.list[i], After(s, e).list[i], stakeId, epoch);
      } else if Succeeds(s.env, s.cells, e.ix, s.list) {
        StakeStepKeepsLock(s, e.ix, i, stakeId, epoch);
      } else {
        DispatchShape(s.env, s.cells, e.ix, s.list);
      }
    }
  }

  /** Over any Strict run that mixes stake instructions, arbitrary instructions of arbitrary
      other programs and moves of the clock that never pass an epoch, a stake-owned account that
      starts locked for that epoch stays stake-owned and locked for it. */
  lemma {:induction false} StakeStaysLocked(s: State, events: seq<Event>, i: nat, stakeId: Pubkey, epoch: u64)
    requires StakeHarness(s, stakeId) && i < |s.list| && HeldByStake(s.list[i], stakeId, epoch)
    requires ClockUpTo(s, events, epoch)
    ensures SameAddresses(s.list, Run(s, events).list)
    ensures HeldByStake(Run(s, events).list[i], stakeId, epoch)
    decreases |events|
  {
    if events != [] {
      var e, rest := events[0], events[1..];
      assert e in events && forall x :: x in rest ==> x in events;
      EventKeepsLock(s, e, i, stakeId, epoch);
      StakeStaysLocked(After(s, e), rest, i, stakeId, epoch);
    }
  }

  /** An account handed to the stake program uninitialised is locked for every epoch, so the floor
      holds for it in every later state: reserve plus stake cannot saturate, the stake is there
      until the clock has passed its deactivation, and a withdrawal can empty the account only if
      its reserve is zero. */
  lemma PrincipalIsSafe(s: State, events: seq<Event>, i: nat, stakeId: Pubkey, epoch: u64)
    requires StakeHarness(s, stakeId) && i < |s.list| && ClockUpTo(s, events, epoch)
    requires s.list[i].owner == stakeId && ReadState(s.list[i].data) == Ok(Uninitialized)
    ensures var list := Run(s, events).list;
      && SameAddresses(s.list, list) && list[i].owner == stakeId
      && match ReadState(list[i].data) {
           case Ok(Initialized(m)) => m.reserve <= list[i].lamports
           case Ok(Delegated(m, d, _)) =>
             && m.reserve <= list[i].lamports
             && SatAdd(m.reserve, d.stake) == m.reserve + d.stake
             && (d.deactivationEpoch == U64_MAX || epoch <= d.deactivationEpoch ==>
                   m.reserve + d.stake <= list[i].lamports)
           case _ => true
         }
  {
    StakeStaysLocked(s, events, i, stakeId, epoch);
  }

  // --- when the epoch never decreases -------------------------------------------------------------

  ghost predicate EpochsRise(s: State, events: seq<Event>)
    decreases |events|
  {
    events != [] ==>
      && s.env.sysvars.clock.epoch <= After(s, events[0]).env.sysvars.clock.epoch
      && EpochsRise(After(s, events[0]), events[1..])
  }

  lemma {:induction false} RisingClock(s: State, events: seq<Event>)
    requires EpochsRise(s, events)
    ensures ClockUpTo(s, events, Run(s, events).env.sysvars.clock.epoch)
    decreases |events|
  {
    if events != [] { RisingClock(After(s, events[0]), events[1..]); }
  }

  /** If no move of the clock lowers the epoch, an account locked in the first epoch is locked in
      the last one: all the stake that Withdraw holds back there is in the account. */
  lemma BoundStakeIsThere(s: State, events: seq<Event>, i: nat, stakeId: Pubkey)
    requires StakeHarness(s, stakeId) && i < |s.list| && EpochsRise(s, events)
    requires HeldByStake(s.list[i], stakeId, s.env.sysvars.clock.epoch)
    ensures var end := Run(s, events);
      && SameAddresses(s.list, end.list) && HeldByStake(end.list[i], stakeId, end.env.sysvars.clock.epoch)
      && var state := ReadState(end.list[i].data);
         state.Ok? && !state.value.Uninitialized? ==>
           && LockedFloor(state.value, end.env.sysvars.clock.epoch)
                == state.value.meta.reserve + Bound(state.value, end.env.sysvars.clock.epoch)
           && LockedFloor(state.value, end.env.sysvars.clock.epoch) <= end.list[i].lamports
  {
    var last := Run(s, events).env.sysvars.clock.epoch;
    RisingClock(s, events);
    LockedLater(s.list[i], s.env.sysvars.clock.epoch, last);
    StakeStaysLocked(s, events, i, stakeId, last);
  }

  // --- the lifecycle of one delegation ----------------------------------------------------------

  /** Initialising records the given authorities and lockup with the rent minimum as reserve,
      which the account holds, and cannot be repeated. */
  lemma InitializeRecords(ctx: Ctx, body: seq<byte>, w: seq<Account>, later: Ctx, again: seq<byte>)
    requires Initialize(ctx, body, w).Ok?
    ensures |body| >= 112
    ensures var post := Initialize(ctx, body, w).value;
      var state := ReadState(post[0].data);
      && state.Ok? && state.value.Initialized?
      && state.value.meta.reserve == ctx.sysvars.oracles.minimumBalance(STAKE_ACCOUNT_SIZE) <= post[0].lamports
      && state.value.meta.staker == PubkeyAt(body, 0) && state.value.meta.withdrawer == PubkeyAt(body, 32)
      && state.value.meta.lockupTime == I64At(body, 64) && state.value.meta.lockupEpoch == U64At(body, 72)
      && state.value.meta.custodian == PubkeyAt(body, 80)
      && Initialize(later, again, post).Err?
  {
    var meta := StakeMeta(
      ctx.sysvars.oracles.minimumBalance(STAKE_ACCOUNT_SIZE), PubkeyAt(body, 0), PubkeyAt(body, 32),
      I64At(body, 64), U64At(body, 72), PubkeyAt(body, 80));
    ReadWritten(w[0].data, Initialized(meta));
  }

  /** Authorize replaces the authority of its role, with the signature of the old one, and
      nothing else of the record. */
  lemma AuthorizeRecords(ctx: Ctx, body: seq<byte>, w: seq<Account>)
    requires Authorize(ctx, body, w).Ok?
    ensures |body| >= 36 && ReadState(w[0].data).Ok? && !ReadState(w[0].data).value.Uninitialized?
    ensures var before, role, key := ReadState(w[0].data).value, U32At(body, 32), PubkeyAt(body, 0);
      && (role == 0 || role == 1)
      && IsSigner(ctx, if role == 0 then before.meta.staker else before.meta.withdrawer)
      && ReadState(Authorize(ctx, body, w).value[0].data)
         == Ok(before.(meta := if role == 0 then before.meta.(staker := key) else before.meta.(withdrawer := key)))
  {
    var state, key := ReadState(w[0].data).value, PubkeyAt(body, 0);
    if U32At(body, 32) == 0 {
      ReadWritten(w[0].data, state.(meta := state.meta.(staker := key)));
    } else {
      ReadWritten(w[0].data, state.(meta := state.meta.(withdrawer := key)));
    }
  }

  /** Delegating binds everything above the reserve to the vote account, from this epoch on. */
  lemma DelegateRecords(ctx: Ctx, w: seq<Account>)
    requires DelegateStake(ctx, w).Ok? && Locked(w[0], U64_MAX)
    ensures var before, after := ReadState(w[0].data), ReadState(DelegateStake(ctx, w).value[0].data);
      && before.Ok? && !before.value.Uninitialized? && after.Ok? && after.value.Delegated?
      && after.value.meta == before.value.meta
      && after.value.meta.reserve + after.value.delegation.stake == w[0].lamports
      && after.value.delegation.voter == w[1].address
      && after.value.delegation.activationEpoch == ctx.sysvars.clock.epoch
      && after.value.delegation.deactivationEpoch == U64_MAX
  {
    var state := ReadState(w[0].data).value;
    var first := state.Initialized?;
    var d := Delegation(
      w[1].address, SatSub(w[0].lamports, state.meta.reserve), ctx.sysvars.clock.epoch, U64_MAX,
      if first then QUARTER else state.delegation.rate);
    ReadWritten(w[0].data, Delegated(state.meta, d, if first then 0 else state.credits));
  }

  /** Deactivating only dates the end of the delegation. */
  lemma DeactivateRecords(ctx: Ctx, w: seq<Account>)
    requires Deactivate(ctx, w).Ok?
    ensures var before, after := ReadState(w[0].data), ReadState(Deactivate(ctx, w).value[0].data);
      && before.Ok? && before.value.Delegated? && before.value.delegation.deactivationEpoch == U64_MAX
      && var d := before.value.delegation.(deactivationEpoch := ctx.sysvars.clock.epoch);
         after == Ok(before.value.(delegation := d))
  {
    var state := ReadState(w[0].data).value;
    ReadWritten(w[0].data, state.(delegation := state.delegation.(deactivationEpoch := ctx.sysvars.clock.epoch)));
  }

  /** What is still bound: the stake, until the clock has passed its deactivation epoch. */
  function Bound(state: StakeState, epoch: u64): nat {
    if BindsStake(state, epoch) then state.delegation.stake else 0
  }

  /** From a locked account the withdrawer gets exactly what is above the reserve and the bound
      stake, computed without any saturation, and the recipient gets it; from one not locked in
      this epoch, below that floor, a withdrawal of zero passes as well. */
  lemma WithdrawIff(ctx: Ctx, body: seq<byte>, w: seq<Account>)
    requires |w| >= 2 && |body| >= 8 && Locked(w[0], U64_MAX)
    requires IsWritable(ctx, w[0].address) && IsWritable(ctx, w[1].address)
    requires var r := ReadState(w[0].data); r.Ok? && !r.value.Uninitialized? && IsSigner(ctx, r.value.meta.withdrawer)
    ensures var state, n := ReadState(w[0].data).value, U64At(body, 0);
      && (Withdraw(ctx, body, w).Ok?
          <==> n + state.meta.reserve + Bound(state, ctx.sysvars.clock.epoch) <= w[0].lamports
               || (n == 0 && w[0].lamports < state.meta.reserve + Bound(state, ctx.sysvars.clock.epoch)))
      && (Locked(w[0], ctx.sysvars.clock.epoch) ==>
            (Withdraw(ctx, body, w).Ok?
             <==> n + state.meta.reserve + Bound(state, ctx.sysvars.clock.epoch) <= w[0].lamports))
      && (Withdraw(ctx, body, w).Ok? ==>
            var post := Withdraw(ctx, body, w).value;
            post[0].lamports == w[0].lamports - n && post[1].lamports == SatAdd(w[1].lamports, n))
  {
  }
}
