/** The stake program (src/spl/stake_program.rs): what its five instructions compute. */
module StakeProgram {
  import opened Common
  import opened Bytes
  import opened StakeRecord

  const STAKE_INSTRUCTION_CU: u64 := 750

  function WriteTo(a: Account, s: StakeState): Account
    requires STAKE_ACCOUNT_SIZE <= |a.data|
  {
    a.(data := Written(a.data, s))
  }

  function Initialize(ctx: Ctx, body: seq<byte>, w: seq<Account>): Result<seq<Account>> {
    if |w| < 1 then Err(AccountIndexOutOfBounds) else
    :- RequireWritable(ctx, w[0].address);
    :- Need(|w[0].data| == STAKE_ACCOUNT_SIZE, BuiltinError);
    :- Need(Discriminator(w[0].data) == 0, BuiltinError);
    :- Need(|body| >= 112, BuiltinError);
    var rentExempt := ctx.sysvars.oracles.minimumBalance(STAKE_ACCOUNT_SIZE);
    :- Need(w[0].lamports >= rentExempt, BuiltinError);
    var meta := StakeMeta(
      rentExempt, PubkeyAt(body, 0), PubkeyAt(body, 32),
      I64At(body, 64), U64At(body, 72), PubkeyAt(body, 80));
    Ok(w[0 := WriteTo(w[0], Initialized(meta))])
  }

  function Authorize(ctx: Ctx, body: seq<byte>, w: seq<Account>): Result<seq<Account>> {
    if |w| < 1 then Err(AccountIndexOutOfBounds) else
    :- RequireWritable(ctx, w[0].address);
    :- Need(|body| >= 36, BuiltinError);
    var newAuthority, role := PubkeyAt(body, 0), U32At(body, 32);
    var state :- ReadState(w[0].data);
    :- Need(!state.Uninitialized?, BuiltinError);
    :- Need(role <= 1, BuiltinError);
    :- RequireSigner(ctx, if role == 0 then state.meta.staker else state.meta.withdrawer);
    var meta := if role == 0 then state.meta.(staker := newAuthority) else state.meta.(withdrawer := newAuthority);
    Ok(w[0 := WriteTo(w[0], state.(meta := meta))])
  }

  function DelegateStake(ctx: Ctx, w: seq<Account>): Result<seq<Account>> {
    if |w| < 2 then Err(AccountIndexOutOfBounds) else
    :- RequireWritable(ctx, w[0].address);
    var state :- ReadState(w[0].data);
    :- Need(!state.Uninitialized?, BuiltinError);
    :- RequireSigner(ctx, state.meta.staker);
    var delegation := Delegation(
      w[1].address, SatSub(w[0].lamports, state.meta.reserve), ctx.sysvars.clock.epoch, U64_MAX,
      if state.Delegated? then state.delegation.rate else QUARTER);
    Ok(w[0 := WriteTo(w[0], Delegated(state.meta, delegation, if state.Delegated? then state.credits else 0))])
  }

  /** The delegation has not been over for an epoch. */
  predicate BindsStake(state: StakeState, epoch: u64) {
    && state.Delegated?
    && (state.delegation.deactivationEpoch == U64_MAX || epoch <= state.delegation.deactivationEpoch)
  }

  /** What may not be withdrawn: the reserve, and the stake until an epoch after its
      deactivation. */
  function LockedFloor(state: StakeState, epoch: u64): u64
    requires !state.Uninitialized?
  {
    if BindsStake(state, epoch)
    then SatAdd(state.meta.reserve, state.delegation.stake)
    else state.meta.reserve
  }

  function Withdraw(ctx: Ctx, body: seq<byte>, w: seq<Account>): Result<seq<Account>> {
    if |w| < 2 then Err(AccountIndexOutOfBounds) else
    :- Need(|body| >= 8, BuiltinError);
    var lamports := U64At(body, 0);
    :- RequireWritable(ctx, w[0].address);
    :- RequireWritable(ctx, w[1].address);
    var state :- ReadState(w[0].data);
    :- Need(!state.Uninitialized?, BuiltinError);
    :- RequireSigner(ctx, state.meta.withdrawer);
    :- Need(lamports <= SatSub(w[0].lamports, LockedFloor(state, ctx.sysvars.clock.epoch)), BuiltinError);
    var left := w[0].lamports - lamports;
    var drained := w[0].(lamports := left, data := if left == 0 then Zeroes(|w[0].data|) else w[0].data);
    Ok(w[0 := drained][1 := w[1].(lamports := SatAdd(w[1].lamports, lamports))])
  }

  function Deactivate(ctx: Ctx, w: seq<Account>): Result<seq<Account>> {
    if |w| < 1 then Err(AccountIndexOutOfBounds) else
    :- RequireWritable(ctx, w[0].address);
    var state :- ReadState(w[0].data);
    :- Need(state.Delegated?, BuiltinError);
    :- RequireSigner(ctx, state.meta.staker);
    :- Need(state.delegation.deactivationEpoch == U64_MAX, BuiltinError);
    var delegation := state.delegation.(deactivationEpoch := ctx.sysvars.clock.epoch);
    Ok(w[0 := WriteTo(w[0], state.(delegation := delegation))])
  }

  function Invoke(ctx: Ctx, data: seq<byte>, w: seq<Account>): Result<seq<Account>> {
    if |data| < 4 then Err(BuiltinError)
    else
      var tag, body := U32At(data, 0), data[4..];
      if tag == 0 then Initialize(ctx, body, w)
      else if tag == 1 then Authorize(ctx, body, w)
      else if tag == 2 then DelegateStake(ctx, w)
      else if tag == 4 then Withdraw(ctx, body, w)
      else if tag == 5 then Deactivate(ctx, w)
      else Err(BuiltinError)
  }

  function StakeProgramSimulator(): Program {
    FixedCost(STAKE_INSTRUCTION_CU, Invoke)
  }
}

/** The same five handlers as the source runs them, on a mutable slice. */
module StakeHandlers {
  import opened Common
  import opened Bytes
  import opened StakeRecord
  import P = StakeProgram

  method Initialize(ctx: Ctx, body: seq<byte>, w: array<Account>) returns (err: Option<Error>)
    modifies w
    ensures Matches(P.Initialize(ctx, body, old(w[..])), err, old(w[..]), w[..])
  {
    if w.Length == 0 { return Some(AccountIndexOutOfBounds); }
    if !IsWritable(ctx, w[0].address) { return Some(AccountNotWritable); }
    if |w[0].data| != STAKE_ACCOUNT_SIZE { return Some(BuiltinError); }
    if Discriminator(w[0].data) != 0 { return Some(BuiltinError); }
    if |body| < 112 { return Some(BuiltinError); }
    var staker, withdrawer := PubkeyAt(body, 0), PubkeyAt(body, 32);
    var lockupTime, lockupEpoch, custodian := I64At(body, 64), U64At(body, 72), PubkeyAt(body, 80);
    var rentExempt := ctx.sysvars.oracles.minimumBalance(STAKE_ACCOUNT_SIZE);
    if w[0].lamports < rentExempt { return Some(BuiltinError); }
    var meta := StakeMeta(rentExempt, staker, withdrawer, lockupTime, lockupEpoch, custodian);
    w[0] := w[0].(data := Written(w[0].data, Initialized(meta)));
    err := None;
  }

  method Authorize(ctx: Ctx, body: seq<byte>, w: array<Account>) returns (err: Option<Error>)
    modifies w
    ensures Matches(P.Authorize(ctx, body, old(w[..])), err, old(w[..]), w[..])
  {
    if w.Length == 0 { return Some(AccountIndexOutOfBounds); }
    if !IsWritable(ctx, w[0].address) { return Some(AccountNotWritable); }
    if |body| < 36 { return Some(BuiltinError); }
    var newAuthority, role := PubkeyAt(body, 0), U32At(body, 32);
    var read := ReadState(w[0].data);
    if read.Err? { return Some(read.error); }
    var state := read.value;
    if state.Uninitialized? { return Some(BuiltinError); }
    var meta := state.meta;
    match role {
      case 0 =>
        if !IsSigner(ctx, meta.staker) { return Some(AccountNotSigner); }
        meta := meta.(staker := newAuthority);
      case 1 =>
        if !IsSigner(ctx, meta.withdrawer) { return Some(AccountNotSigner); }
        meta := meta.(withdrawer := newAuthority);
      case _ =>
        return Some(BuiltinError);
    }
    state := state.(meta := meta);
    w[0] := w[0].(data := Written(w[0].data, state));
    err := None;
  }

  method DelegateStake(ctx: Ctx, w: array<Account>) returns (err: Option<Error>)
    modifies w
    ensures Matches(P.DelegateStake(ctx, old(w[..])), err, old(w[..]), w[..])
  {
    if w.Length <= 0 { return Some(AccountIndexOutOfBounds); }
    if w.Length <= 1 { return Some(AccountIndexOutOfBounds); }
    var vote := w[1].address;
    if !IsWritable(ctx, w[0].address) { return Some(AccountNotWritable); }
    var stakeLamports, activationEpoch := w[0].lamports, ctx.sysvars.clock.epoch;
    var read := ReadState(w[0].data);
    if read.Err? { return Some(read.error); }
    var next: StakeState;
    match read.value {
      case Uninitialized =>
        return Some(BuiltinError);
      case Initialized(meta) =>
        if !IsSigner(ctx, meta.staker) { return Some(AccountNotSigner); }
        var stakeable := SatSub(stakeLamports, meta.reserve);
        next := Delegated(meta, Delegation(vote, stakeable, activationEpoch, U64_MAX, QUARTER), 0);
      case Delegated(meta, delegation, credits) =>
        if !IsSigner(ctx, meta.staker) { return Some(AccountNotSigner); }
        var stakeable := SatSub(stakeLamports, meta.reserve);
        next := Delegated(meta, delegation.(voter := vote, stake := stakeable,
          activationEpoch := activationEpoch, deactivationEpoch := U64_MAX), credits);
    }
    w[0] := w[0].(data := Written(w[0].data, next));
    err := None;
  }

  method Withdraw(ctx: Ctx, body: seq<byte>, w: array<Account>) returns (err: Option<Error>)
    modifies w
    ensures Matches(P.Withdraw(ctx, body, old(w[..])), err, old(w[..]), w[..])
  {
    if w.Length <= 0 { return Some(AccountIndexOutOfBounds); }
    if w.Length <= 1 { return Some(AccountIndexOutOfBounds); }
    if |body| < 8 { return Some(BuiltinError); }
    var lamports := U64At(body, 0);
    if !IsWritable(ctx, w[0].address) { return Some(AccountNotWritable); }
    if !IsWritable(ctx, w[1].address) { return Some(AccountNotWritable); }
    var read := ReadState(w[0].data);
    if read.Err? { return Some(read.error); }
    var state := read.value;
    if state.Uninitialized? { return Some(BuiltinError); }
    if !IsSigner(ctx, state.meta.withdrawer) { return Some(AccountNotSigner); }
    var lockedFloor := state.meta.reserve;
    if state.Delegated? {
      var end := state.delegation.deactivationEpoch;
      if end == U64_MAX || ctx.sysvars.clock.epoch <= end {
        lockedFloor := SatAdd(state.meta.reserve, state.delegation.stake);
      }
    }
    var available := SatSub(w[0].lamports, lockedFloor);
    if lamports > available { return Some(BuiltinError); }
    w[0] := w[0].(lamports := w[0].lamports - lamports);
    w[1] := w[1].(lamports := SatAdd(w[1].lamports, lamports));
    if w[0].lamports == 0 {
      w[0] := w[0].(data := Zeroes(|w[0].data|));
    }
    err := None;
  }

  method Deactivate(ctx: Ctx, w: array<Account>) returns (err: Option<Error>)
    modifies w
    ensures Matches(P.Deactivate(ctx, old(w[..])), err, old(w[..]), w[..])
  {
    if w.Length == 0 { return Some(AccountIndexOutOfBounds); }
    if !IsWritable(ctx, w[0].address) { return Some(AccountNotWritable); }
    var read := ReadState(w[0].data);
    if read.Err? { return Some(read.error); }
    var state := read.value;
    match state {
      case Delegated(meta, delegation, credits) =>
        if !IsSigner(ctx, meta.staker) { return Some(AccountNotSigner); }
        if delegation.deactivationEpoch != U64_MAX { return Some(BuiltinError); }
        state := state.(delegation := delegation.(deactivationEpoch := ctx.sysvars.clock.epoch));
      case _ =>
        return Some(BuiltinError);
    }
    w[0] := w[0].(data := Written(w[0].data, state));
    err := None;
  }

  /** `invoke`: the tag picks the handler. */
  method Invoke(ctx: Ctx, data: seq<byte>, w: array<Account>) returns (err: Option<Error>)
    modifies w
    ensures Matches(P.Invoke(ctx, data, old(w[..])), err, old(w[..]), w[..])
  {
    if |data| < 4 { return Some(BuiltinError); }
    var tag, body := U32At(data, 0), data[4..];
    match tag {
      case 0 => err := Initialize(ctx, body, w);
      case 1 => err := Authorize(ctx, body, w);
      case 2 => err := DelegateStake(ctx, w);
      case 4 => err := Withdraw(ctx, body, w);
      case 5 => err := Deactivate(ctx, w);
      case _ => err := Some(BuiltinError);
    }
  }
}
