/** The verdict of every stake instruction, requirement by requirement in the order the source
    checks them, and the slice it leaves. */
module StakeVerdicts {
  import opened Common
  import opened Bytes
  import opened StakeRecord
  import opened StakeProgram
  import opened Verdicts

  // --- the record ---------------------------------------------------------------------------------

  /** Every field lies at its offset; a tag other than 0, 1 and 2 is no record. */
  lemma StakeLayout(data: seq<byte>)
    ensures ReadState(data).Ok? <==> |data| >= 200 && U32At(data, 0) <= 2
    ensures ReadState(data).Err? ==> ReadState(data).error == BuiltinError
    ensures ReadState(data).Ok? ==> var s := ReadState(data).value;
      && (U32At(data, 0) == 0 <==> s.Uninitialized?) && (U32At(data, 0) == 1 <==> s.Initialized?)
      && (!s.Uninitialized? ==>
            s.meta == StakeMeta(U64At(data, 4), PubkeyAt(data, 12), PubkeyAt(data, 44), I64At(data, 76),
              U64At(data, 84), PubkeyAt(data, 92)))
      && (s.Delegated? ==>
            && s.delegation == Delegation(PubkeyAt(data, 124), U64At(data, 156), U64At(data, 164), U64At(data, 172),
                 data[180..188])
            && s.credits == U64At(data, 188))
  {
  }

  function RecordSize(s: StakeState): nat {
    match s
    case Uninitialized => 0
    case Initialized(_) => 124
    case Delegated(_, _, _) => 196
  }

  /** A written buffer has its old length and tail, and zeroes between the record and the tail. */
  ghost predicate Records(before: seq<byte>, after: seq<byte>, s: StakeState) {
    && |after| == |before| >= 200 && ReadState(after) == Ok(s) && after[200..] == before[200..]
    && forall i :: RecordSize(s) <= i < 200 ==> after[i] == 0
  }

  lemma WrittenRecords(data: seq<byte>, s: StakeState)
    requires |data| >= 200
    ensures Records(data, Written(data, s), s)
  {
    ReadWritten(data, s);
    WrittenTwice(data, s, s);
    forall i | RecordSize(s) <= i < 200 ensures Written(data, s)[i] == 0 { ClearedAt(data, RecordBytes(s), i); }
  }

  lemma ClearedAt(data: seq<byte>, record: seq<byte>, i: nat)
    requires |data| >= 200 && |record| <= i < 200
    ensures Put(Put(data, 0, Zeroes(200)), 0, record)[i] == 0
  {
  }

  function StateIn(w: seq<Account>): Option<StakeState> {
    var r := ReadState(DataAt(w, 0));
    if r.Ok? then Some(r.value) else None
  }

  predicate Live(w: seq<Account>) {
    StateIn(w).Some? && !StateIn(w).value.Uninitialized?
  }

  ghost predicate LeavesState(w: seq<Account>, post: seq<Account>, s: StakeState) {
    Only(w, post, {0}) && |w| > 0 && post[0] == w[0].(data := post[0].data) && Records(w[0].data, post[0].data, s)
  }

  ghost predicate StakerSigns(ctx: Ctx, w: seq<Account>) {
    Live(w) && KeySigns(ctx, StateIn(w).value.meta.staker)
  }

  ghost predicate WithdrawerSigns(ctx: Ctx, w: seq<Account>) {
    Live(w) && KeySigns(ctx, StateIn(w).value.meta.withdrawer)
  }

  lemma AuthorityFlags(ctx: Ctx, w: seq<Account>)
    ensures Live(w) ==> (StakerSigns(ctx, w) <==> IsSigner(ctx, StateIn(w).value.meta.staker))
    ensures Live(w) ==> (WithdrawerSigns(ctx, w) <==> IsSigner(ctx, StateIn(w).value.meta.withdrawer))
  {
    if Live(w) {
      FlagsOfFirstMeta(ctx, StateIn(w).value.meta.staker);
      FlagsOfFirstMeta(ctx, StateIn(w).value.meta.withdrawer);
    }
  }

  // --- the handlers -------------------------------------------------------------------------------

  lemma InitializeVerdict(ctx: Ctx, body: seq<byte>, w: seq<Account>)
    ensures var rent := ctx.sysvars.oracles.minimumBalance(200);
      && VerdictOf(Initialize(ctx, body, w))
         == Pass.Then(|w| >= 1, AccountIndexOutOfBounds).Then(Writes(ctx, w, 0), AccountNotWritable)
              .Then(|DataAt(w, 0)| == 200, BuiltinError).Then(StateIn(w) == Some(Uninitialized), BuiltinError)
              .Then(|body| >= 112, BuiltinError).Then(Covers(w, 0, rent), BuiltinError)
      && (Initialize(ctx, body, w).Ok? ==>
            LeavesState(w, Initialize(ctx, body, w).value,
              Initialized(StakeMeta(rent, Key(body, 0), Key(body, 32), I64At(body, 64), Num(body, 72), Key(body, 80)))))
  {
    Flags(ctx, w);
    if Initialize(ctx, body, w).Ok? {
      WrittenRecords(w[0].data, Initialized(StakeMeta(
        ctx.sysvars.oracles.minimumBalance(200), PubkeyAt(body, 0), PubkeyAt(body, 32), I64At(body, 64),
        U64At(body, 72), PubkeyAt(body, 80))));
    }
  }

  /** Role 0 is the staker, role 1 the withdrawer; each is replaced with its own signature. */
  lemma AuthorizeVerdict(ctx: Ctx, body: seq<byte>, w: seq<Account>)
    ensures var role := if |body| >= 36 then U32At(body, 32) else 0;
      && VerdictOf(Authorize(ctx, body, w))
         == Pass.Then(|w| >= 1, AccountIndexOutOfBounds).Then(Writes(ctx, w, 0), AccountNotWritable)
              .Then(|body| >= 36, BuiltinError).Then(Live(w), BuiltinError).Then(role <= 1, BuiltinError)
              .Then(if role == 0 then StakerSigns(ctx, w) else WithdrawerSigns(ctx, w), AccountNotSigner)
      && (Authorize(ctx, body, w).Ok? ==> var s := StateIn(w).value;
            LeavesState(w, Authorize(ctx, body, w).value,
              s.(meta := if role == 0 then s.meta.(staker := Key(body, 0)) else s.meta.(withdrawer := Key(body, 0)))))
  {
    Flags(ctx, w);
    AuthorityFlags(ctx, w);
    if Authorize(ctx, body, w).Ok? {
      var s, k := StateIn(w).value, PubkeyAt(body, 0);
      WrittenRecords(w[0].data, s.(meta :=
        if U32At(body, 32) == 0 then s.meta.(staker := k) else s.meta.(withdrawer := k)));
    }
  }

  /** The first delegation starts at a quarter warm-up rate without credits; a later one keeps
      both. */
  function DelegatedState(s: StakeState, voter: Pubkey, lamports: u64, epoch: u64): StakeState
    requires !s.Uninitialized?
  {
    var free := if s.meta.reserve <= lamports then lamports - s.meta.reserve else 0;
    var rate: Rate := if s.Delegated? then s.delegation.rate else [0, 0, 0, 0, 0, 0, 0xD0, 0x3F];
    var delegation := Delegation(voter, free, epoch, 0xFFFF_FFFF_FFFF_FFFF, rate);
    Delegated(s.meta, delegation, if s.Delegated? then s.credits else 0)
  }

  lemma DelegateStakeVerdict(ctx: Ctx, w: seq<Account>)
    ensures VerdictOf(DelegateStake(ctx, w))
      == Pass.Then(|w| >= 2, AccountIndexOutOfBounds).Then(Writes(ctx, w, 0), AccountNotWritable)
           .Then(Live(w), BuiltinError).Then(StakerSigns(ctx, w), AccountNotSigner)
    ensures DelegateStake(ctx, w).Ok? ==>
      LeavesState(w, DelegateStake(ctx, w).value,
        DelegatedState(StateIn(w).value, w[1].address, w[0].lamports, ctx.sysvars.clock.epoch))
  {
    Flags(ctx, w);
    AuthorityFlags(ctx, w);
    if DelegateStake(ctx, w).Ok? {
      WrittenRecords(w[0].data,
        DelegatedState(StateIn(w).value, w[1].address, w[0].lamports, ctx.sysvars.clock.epoch));
    }
  }

  /** The reserve, and the stake of a delegation without a date or up to its date. */
  function HeldBack(s: StakeState, epoch: u64): nat
    requires !s.Uninitialized?
  {
    s.meta.reserve
    + if && s.Delegated?
         && (s.delegation.deactivationEpoch == 0xFFFF_FFFF_FFFF_FFFF || epoch <= s.delegation.deactivationEpoch)
      then s.delegation.stake else 0
  }

  /** The sum saturates, and so does what is left above it. */
  predicate Free(w: seq<Account>, epoch: u64, lamports: u64) {
    Live(w) && |w| > 0 && (lamports == 0 || lamports + Capped(HeldBack(StateIn(w).value, epoch)) <= w[0].lamports)
  }

  lemma WithdrawVerdict(ctx: Ctx, body: seq<byte>, w: seq<Account>)
    ensures VerdictOf(Withdraw(ctx, body, w))
      == Pass.Then(|w| >= 2, AccountIndexOutOfBounds).Then(|body| >= 8, BuiltinError)
           .Then(Writes(ctx, w, 0), AccountNotWritable).Then(Writes(ctx, w, 1), AccountNotWritable)
           .Then(Live(w), BuiltinError).Then(WithdrawerSigns(ctx, w), AccountNotSigner)
           .Then(Free(w, ctx.sysvars.clock.epoch, Num(body, 0)), BuiltinError)
  {
    Flags(ctx, w);
    AuthorityFlags(ctx, w);
  }

  lemma WithdrawLeaves(ctx: Ctx, body: seq<byte>, w: seq<Account>)
    requires Withdraw(ctx, body, w).Ok?
    ensures var n, post := Num(body, 0), Withdraw(ctx, body, w).value;
      && Only(w, post, {0, 1}) && |w| >= 2 && n <= w[0].lamports
      && post[0] == w[0].(lamports := w[0].lamports - n,
           data := if n == w[0].lamports then Zeroes(|w[0].data|) else w[0].data)
      && post[1] == w[1].(lamports := Capped(w[1].lamports + n))
  {
  }

  lemma DeactivateVerdict(ctx: Ctx, w: seq<Account>)
    ensures VerdictOf(Deactivate(ctx, w))
      == Pass.Then(|w| >= 1, AccountIndexOutOfBounds).Then(Writes(ctx, w, 0), AccountNotWritable)
           .Then(Live(w) && StateIn(w).value.Delegated?, BuiltinError).Then(StakerSigns(ctx, w), AccountNotSigner)
           .Then(Live(w) && StateIn(w).value.Delegated?
                 && StateIn(w).value.delegation.deactivationEpoch == 0xFFFF_FFFF_FFFF_FFFF, BuiltinError)
    ensures Deactivate(ctx, w).Ok? ==> var s := StateIn(w).value;
      LeavesState(w, Deactivate(ctx, w).value,
        s.(delegation := s.delegation.(deactivationEpoch := ctx.sysvars.clock.epoch)))
  {
    Flags(ctx, w);
    AuthorityFlags(ctx, w);
    if Deactivate(ctx, w).Ok? {
      var s := StateIn(w).value;
      WrittenRecords(w[0].data, s.(delegation := s.delegation.(deactivationEpoch := ctx.sysvars.clock.epoch)));
    }
  }

  lemma TagsSelect(ctx: Ctx, data: seq<byte>, w: seq<Account>)
    ensures |data| < 4 ==> Invoke(ctx, data, w) == Err(BuiltinError)
    ensures |data| >= 4 ==> var body := data[4..];
      match U32At(data, 0) {
        case 0 => Invoke(ctx, data, w) == Initialize(ctx, body, w)
        case 1 => Invoke(ctx, data, w) == Authorize(ctx, body, w)
        case 2 => Invoke(ctx, data, w) == DelegateStake(ctx, w)
        case 4 => Invoke(ctx, data, w) == Withdraw(ctx, body, w)
        case 5 => Invoke(ctx, data, w) == Deactivate(ctx, w)
        case _ => Invoke(ctx, data, w) == Err(BuiltinError)
      }
  {
  }
}
