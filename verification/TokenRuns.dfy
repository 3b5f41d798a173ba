/** The token supply invariant over every run. */
module TokenRuns {
  import opened Common
  import opened Bytes
  import opened Sums
  import opened Accounts
  import opened Validation
  import opened Engine
  import opened Kernel
  import opened Runs
  import opened TokenRecord
  import opened TokenProgram
  import opened TokenSupply

  /** The token program is registered under id, with a lawful codec; either policy will do. */
  ghost predicate TokenHarness(s: State, c: Codec, id: Pubkey) {
    && Sound(s) && Lawful(c) && id != SYSTEM_ID
    && id in s.env.registry && s.env.registry[id] == SplTokenSimulator(c)
  }

  function TokenCtx(s: State, ix: Instruction): Ctx {
    Ctx(ix.programId, ix.metas, s.env.sysvars, Limit(s.env, s.cells), TOKEN_INSTRUCTION_CU)
  }

  lemma TokenInvocation(s: State, c: Codec, id: Pubkey, ix: Instruction)
    requires TokenHarness(s, c, id) && ix.programId == id
    requires Succeeds(s.env, s.cells, ix, s.list)
    ensures Resolvable(ix.metas, s.list)
    ensures var w := Resolved(ix.metas, s.list); var r := Invoke(c, TokenCtx(s, ix), ix.data, w);
      && r.Ok? && InvocationOf(s.env, s.cells, ix, s.list).accounts == r.value
      && forall a :: a in w ==> Lookup(s.list, a.address) == Some(a)
  {
    SuccessfulDispatch(s.env, s.cells, ix, s.list);
  }

  lemma BackedBurnFits(s: State, c: Codec, ctx: Ctx, data: seq<byte>, w: seq<Account>)
    requires Lawful(c) && BackedSlice(c, ctx, s.list, w)
    ensures BurnFits(c, ctx, data, w)
  {
    if data != [] && data[0] == 8 && Invoke(c, ctx, data, w).Ok? {
      var body := data[1..];
      BurnEffect(c, ctx, body, w);
      SpentFacts(ReadToken(c, ctx, w[0]).value, w[2].address, U64At(body, 0));
      assert w[0] in w && w[1] in w;
      BurnNeverSaturates(c, ctx, s.list, w, U64At(body, 0));
    }
  }

  // --- one step, whatever its metas -------------------------------------------------------------

  /** What is written back of an accepted step: what it moves or overwrites at position 0 if that
      account is not named again, less what it moves at position 1 if that one is not. */
  ghost function WrittenSlack(c: Codec, id: Pubkey, k: Pubkey, ix: Instruction, w: seq<Account>): int
    requires |w| > 0
  {
    var moved := Moves(c, id, k, ix.data, w);
    (if LastNaming(ix.metas, 0) then moved + Overwritten(c, id, k, ix.data, w[0]) else 0)
    - (if LastNaming(ix.metas, 1) then moved else 0)
  }

  /** The same for any step: nothing unless it succeeds. */
  ghost function SlackChange(s: State, c: Codec, id: Pubkey, k: Pubkey, ix: Instruction): int {
    if Succeeds(s.env, s.cells, ix, s.list) && Resolvable(ix.metas, s.list) && ix.metas != []
    then WrittenSlack(c, id, k, ix, Resolved(ix.metas, s.list)) else 0
  }

  /** From a backed state, one token step changes the slack of every mint by exactly what is
      written back of it. */
  lemma StepSlack(s: State, c: Codec, id: Pubkey, ix: Instruction, k: Pubkey)
    requires TokenHarness(s, c, id) && ix.programId == id && Backed(c, id, s.list)
    ensures Slack(c, id, k, After(s, Exec(ix)).list) == Slack(c, id, k, s.list) + SlackChange(s, c, id, k, ix)
  {
    DispatchShape(s.env, s.cells, ix, s.list);
    if Succeeds(s.env, s.cells, ix, s.list) {
      SliceByCopy(s, c, id, ix, k);
      TwoCopyTotal(s.env, s.cells, ix, s.list, SlackOf(c, id, k), 0, 1);
    }
  }

  lemma SliceByCopy(s: State, c: Codec, id: Pubkey, ix: Instruction, k: Pubkey)
    requires TokenHarness(s, c, id) && ix.programId == id && Backed(c, id, s.list)
    requires Succeeds(s.env, s.cells, ix, s.list)
    ensures Resolvable(ix.metas, s.list)
    ensures var w := Resolved(ix.metas, s.list);
      SlackByCopy(c, id, k, ix.data, w, InvocationOf(s.env, s.cells, ix, s.list).accounts)
  {
    TokenInvocation(s, c, id, ix);
    var ctx, w := TokenCtx(s, ix), Resolved(ix.metas, s.list);
    BackedBurnFits(s, c, ctx, ix.data, w);
    InvokeByCopy(c, ctx, ix.data, w, k);
  }

  /** The instructions that take slack away when they are accepted: a positive amount is moved,
      the second account is not named again, and the first one is. */
  ghost predicate Skews(ix: Instruction) {
    IsMove(ix.data) && MoveAmount(ix.data) > 0 && LastNaming(ix.metas, 1) && !LastNaming(ix.metas, 0)
  }

  /** A move writes back both of its accounts or neither. */
  ghost predicate MovesEvenly(ix: Instruction) {
    IsMove(ix.data) && MoveAmount(ix.data) > 0 ==> (LastNaming(ix.metas, 0) <==> LastNaming(ix.metas, 1))
  }

  /** The mint whose tokens an accepted instruction moves. */
  ghost predicate MovesMint(s: State, c: Codec, id: Pubkey, ix: Instruction, k: Pubkey) {
    && IsMove(ix.data) && Resolvable(ix.metas, s.list)
    && Moves(c, id, k, ix.data, Resolved(ix.metas, s.list)) == MoveAmount(ix.data)
  }

  lemma SliceMoves(c: Codec, ctx: Ctx, data: seq<byte>, w: seq<Account>) returns (k: Pubkey)
    requires Lawful(c) && Invoke(c, ctx, data, w).Ok? && IsMove(data)
    ensures Moves(c, ctx.programId, k, data, w) == MoveAmount(data)
  {
    var body := data[1..];
    if data[0] == 3 {
      TransferEffect(c, ctx, body, w);
      k := ReadToken(c, ctx, w[1]).value.mint;
    } else if data[0] == 7 {
      MintToEffect(c, ctx, body, w);
      k := ReadToken(c, ctx, w[1]).value.mint;
    } else {
      BurnEffect(c, ctx, body, w);
      k := ReadToken(c, ctx, w[0]).value.mint;
    }
  }

  lemma MovedMint(s: State, c: Codec, id: Pubkey, ix: Instruction) returns (k: Pubkey)
    requires TokenHarness(s, c, id) && ix.programId == id && Succeeds(s.env, s.cells, ix, s.list) && IsMove(ix.data)
    ensures MovesMint(s, c, id, ix, k)
  {
    TokenInvocation(s, c, id, ix);
    k := SliceMoves(c, TokenCtx(s, ix), ix.data, Resolved(ix.metas, s.list));
  }

  /** Distinct metas never skew, and they move evenly. */
  lemma DistinctMovesEvenly(ix: Instruction)
    requires DistinctMetas(ix.metas)
    ensures !Skews(ix) && (|ix.metas| >= 2 ==> MovesEvenly(ix))
  {
  }

  /** An accepted step lowers the slack of some mint exactly when its instruction skews; it then
      lowers that of the mint it moves by the amount moved. */
  lemma LowersSlackIff(s: State, c: Codec, id: Pubkey, ix: Instruction)
    requires TokenHarness(s, c, id) && ix.programId == id && Backed(c, id, s.list)
    requires Succeeds(s.env, s.cells, ix, s.list)
    ensures (exists k: Pubkey :: Slack(c, id, k, After(s, Exec(ix)).list) < Slack(c, id, k, s.list)) <==> Skews(ix)
    ensures Skews(ix) ==> forall k: Pubkey :: MovesMint(s, c, id, ix, k) ==>
      Slack(c, id, k, After(s, Exec(ix)).list) == Slack(c, id, k, s.list) - MoveAmount(ix.data)
  {
    TokenInvocation(s, c, id, ix);
    InvokeKeepsAddresses(c, TokenCtx(s, ix), ix.data, Resolved(ix.metas, s.list));
    forall k: Pubkey
      ensures Slack(c, id, k, After(s, Exec(ix)).list) == Slack(c, id, k, s.list) + SlackChange(s, c, id, k, ix)
    {
      StepSlack(s, c, id, ix, k);
    }
    if Skews(ix) {
      var k := MovedMint(s, c, id, ix);
      assert Slack(c, id, k, After(s, Exec(ix)).list) < Slack(c, id, k, s.list);
    }
  }

  lemma SlackBacks(c: Codec, id: Pubkey, list: seq<Account>)
    ensures Backed(c, id, list) <==> forall k: Pubkey :: Slack(c, id, k, list) >= 0
  {
    forall k: Pubkey ensures Held(c, id, k, list) <= Supply(c, id, k, list) <==> Slack(c, id, k, list) >= 0 {
      SlackIsDifference(c, id, k, list);
    }
    if Backed(c, id, list) {
      forall k: Pubkey ensures Slack(c, id, k, list) >= 0 {
        assert Held(c, id, k, list) <= Supply(c, id, k, list);
      }
    }
  }

  // --- steps of other programs --------------------------------------------------------------------

  /** No account outside the token program is handed to it holding a record already. */
  ghost predicate ForgesNothing(s: State, c: Codec, id: Pubkey, ix: Instruction) {
    var post := After(s, Exec(ix)).list;
    forall i :: 0 <= i < |s.list| && i < |post| && s.list[i].owner != id ==> ViewOf(c, id, post[i]) == Neither
  }

  /** Under Strict a step of another program that forges nothing changes no view. */
  lemma ForeignViews(s: State, c: Codec, id: Pubkey, ix: Instruction, i: nat)
    requires Sound(s) && s.env.policy == Strict && ix.programId != id && id != SYSTEM_ID && i < |s.list|
    requires ForgesNothing(s, c, id, ix)
    ensures SameAddresses(s.list, After(s, Exec(ix)).list)
    ensures ViewOf(c, id, After(s, Exec(ix)).list[i]) == ViewOf(c, id, s.list[i])
  {
    DispatchShape(s.env, s.cells, ix, s.list);
    if s.list[i].owner == id {
      StrictStepRespectsOwners(s.env, s.cells, ix, s.list, i);
      CreditKeepsView(c, id, s.list[i], After(s, Exec(ix)).list[i]);
    }
  }

  lemma CreditKeepsView(c: Codec, id: Pubkey, p: Account, n: Account)
    requires OnlyCredited(p, n)
    ensures ViewOf(c, id, n) == ViewOf(c, id, p)
  {
  }

  /** A clock move, a token instruction that is not an accepted skewed one, or, under Strict, an
      instruction of any other program that forges nothing. */
  ghost predicate Tame(s: State, c: Codec, id: Pubkey, e: Event) {
    e.Exec? ==>
      if e.ix.programId == id then Succeeds(s.env, s.cells, e.ix, s.list) ==> !Skews(e.ix)
      else s.env.policy == Strict && ForgesNothing(s, c, id, e.ix)
  }

  ghost predicate TameRun(s: State, c: Codec, id: Pubkey, events: seq<Event>)
    decreases |events|
  {
    events != [] ==> Tame(s, c, id, events[0]) && TameRun(After(s, events[0]), c, id, events[1..])
  }

  lemma ForeignSlack(s: State, c: Codec, id: Pubkey, ix: Instruction, k: Pubkey)
    requires TokenHarness(s, c, id) && s.env.policy == Strict && ix.programId != id && ForgesNothing(s, c, id, ix)
    ensures Slack(c, id, k, After(s, Exec(ix)).list) == Slack(c, id, k, s.list)
  {
    var post := After(s, Exec(ix)).list;
    DispatchShape(s.env, s.cells, ix, s.list);
    forall i | 0 <= i < |s.list| ensures SlackOf(c, id, k)(post[i]) == SlackOf(c, id, k)(s.list[i]) {
      ForeignViews(s, c, id, ix, i);
    }
    SumByPointwise(SlackOf(c, id, k), s.list, post);
  }

  lemma EventSlack(s: State, c: Codec, id: Pubkey, e: Event, k: Pubkey)
    requires TokenHarness(s, c, id) && Tame(s, c, id, e) && Backed(c, id, s.list)
    ensures Slack(c, id, k, After(s, e).list) >= Slack(c, id, k, s.list)
  {
    if e.Exec? {
      if e.ix.programId == id {
        StepSlack(s, c, id, e.ix, k);
      } else {
        ForeignSlack(s, c, id, e.ix, k);
      }
    }
  }

  lemma EventStaysBacked(s: State, c: Codec, id: Pubkey, e: Event)
    requires TokenHarness(s, c, id) && Tame(s, c, id, e) && Backed(c, id, s.list)
    ensures TokenHarness(After(s, e), c, id) && Backed(c, id, After(s, e).list)
    ensures forall k: Pubkey :: Slack(c, id, k, After(s, e).list) >= Slack(c, id, k, s.list)
  {
    AfterSound(s, e);
    SlackBacks(c, id, s.list);
    forall k: Pubkey ensures Slack(c, id, k, After(s, e).list) >= Slack(c, id, k, s.list) {
      EventSlack(s, c, id, e, k);
    }
    SlackBacks(c, id, After(s, e).list);
  }

  /** Over every tame run, what is held of each mint never exceeds its supply, and the gap never
      shrinks. */
  lemma {:induction false} SupplyCoversHoldings(s: State, c: Codec, id: Pubkey, events: seq<Event>)
    requires TokenHarness(s, c, id) && TameRun(s, c, id, events) && Backed(c, id, s.list)
    ensures Backed(c, id, Run(s, events).list)
    ensures forall k: Pubkey :: Slack(c, id, k, Run(s, events).list) >= Slack(c, id, k, s.list)
    decreases |events|
  {
    if events != [] {
      EventStaysBacked(s, c, id, events[0]);
      SupplyCoversHoldings(After(s, events[0]), c, id, events[1..]);
    }
  }

  /** So in every reachable state the working copies of any instruction are backed, and the
      overflow and saturation arms of Transfer, MintTo and Burn are dead. */
  lemma ReachableSlicesAreBacked(s: State, c: Codec, id: Pubkey, events: seq<Event>, ix: Instruction)
    requires TokenHarness(s, c, id) && TameRun(s, c, id, events) && Backed(c, id, s.list)
    requires ix.programId == id && Resolvable(ix.metas, Run(s, events).list)
    ensures BackedSlice(c, TokenCtx(Run(s, events), ix), Run(s, events).list, Resolved(ix.metas, Run(s, events).list))
  {
    SupplyCoversHoldings(s, c, id, events);
    RunSound(s, events);
  }

  // --- live mints, and accounts that are never frozen ---------------------------------------------

  /** How one copy's view may change: mints stay mints, and a token account either keeps its
      mint and is not newly frozen, or was just created for the mint in copy 1. */
  ghost predicate ViewStep(c: Codec, id: Pubkey, w: seq<Account>, j: nat, v: View)
    requires j < |w|
  {
    var u := ViewOf(c, id, w[j]);
    && (u.AMint? ==> v.AMint?)
    && (v.AToken? ==>
          || (u.AToken? && u.token.mint == v.token.mint && (v.token.state.Frozen? ==> u.token.state.Frozen?))
          || (|w| > 1 && v.token.state.Initialized? && ViewOf(c, id, w[1]).AMint? && w[1].address == v.token.mint))
  }

  ghost predicate ViewsProgress(c: Codec, id: Pubkey, w: seq<Account>, post: seq<Account>) {
    |post| == |w| && forall j :: 0 <= j < |w| ==> ViewStep(c, id, w, j, ViewOf(c, id, post[j]))
  }

  lemma EffectProgresses(c: Codec, id: Pubkey, w: seq<Account>, post: seq<Account>, e: Effect)
    requires HasEffect(c, id, w, post, e)
    requires ViewStep(c, id, w, 0, e.v0) && (|w| > 1 ==> ViewStep(c, id, w, 1, e.v1))
    ensures ViewsProgress(c, id, w, post)
  {
    forall j | 0 <= j < |w| ensures ViewStep(c, id, w, j, ViewOf(c, id, post[j])) {
      if j >= 2 { assert post[j] == w[j]; }
    }
  }

  lemma MovesProgress(c: Codec, ctx: Ctx, data: seq<byte>, w: seq<Account>)
    requires Lawful(c) && Invoke(c, ctx, data, w).Ok? && data[0] in {3, 7, 8}
    ensures ViewsProgress(c, ctx.programId, w, Invoke(c, ctx, data, w).value)
  {
    var id, body, post := ctx.programId, data[1..], Invoke(c, ctx, data, w).value;
    var amount := if |body| >= 8 then U64At(body, 0) else 0;
    if data[0] == 3 {
      TransferEffect(c, ctx, body, w);
      var src, dst := ReadToken(c, ctx, w[0]).value, ReadToken(c, ctx, w[1]).value;
      SpentFacts(src, w[2].address, amount);
      EffectProgresses(c, id, w, post,
        Effect(AToken(Spent(src, w[2].address, amount).value), AToken(dst.(amount := dst.amount + amount))));
    } else if data[0] == 7 {
      MintToEffect(c, ctx, body, w);
      var m, dst := ReadMint(c, ctx, w[0]).value, ReadToken(c, ctx, w[1]).value;
      EffectProgresses(c, id, w, post,
        Effect(AMint(m.(supply := m.supply + amount)), AToken(dst.(amount := dst.amount + amount))));
    } else {
      BurnEffect(c, ctx, body, w);
      var src, m := ReadToken(c, ctx, w[0]).value, ReadMint(c, ctx, w[1]).value;
      SpentFacts(src, w[2].address, amount);
      EffectProgresses(c, id, w, post,
        Effect(AToken(Spent(src, w[2].address, amount).value), AMint(m.(supply := SatSub(m.supply, amount)))));
    }
  }

  lemma RewritesProgress(c: Codec, ctx: Ctx, data: seq<byte>, w: seq<Account>)
    requires Lawful(c) && ctx.programId != SYSTEM_ID && Invoke(c, ctx, data, w).Ok? && data[0] !in {3, 7, 8}
    ensures ViewsProgress(c, ctx.programId, w, Invoke(c, ctx, data, w).value)
  {
    var id, body, post := ctx.programId, data[1..], Invoke(c, ctx, data, w).value;
    var second := SecondView(c, id, w);
    if data[0] == 0 {
      InitializeMintEffect(c, ctx, body, w);
      EffectProgresses(c, id, w, post, Effect(AMint(MintOf(body)), second));
    } else if data[0] == 1 {
      InitializeAccountEffect(c, ctx, w);
      EffectProgresses(c, id, w, post, Effect(AToken(EmptyToken(w[1].address, w[2].address)), second));
    } else if data[0] == 4 {
      ApproveEffect(c, ctx, body, w);
      var src := ReadToken(c, ctx, w[0]).value;
      EffectProgresses(c, id, w, post,
        Effect(AToken(src.(delegate := Some(w[1].address), delegatedAmount := U64At(body, 0))), second));
    } else if data[0] == 5 {
      RevokeEffect(c, ctx, w);
      EffectProgresses(c, id, w, post,
        Effect(AToken(ReadToken(c, ctx, w[0]).value.(delegate := None, delegatedAmount := 0)), second));
    } else {
      CloseAccountEffect(c, ctx, w);
      EffectProgresses(c, id, w, post, Effect(Neither, second));
    }
  }

  ghost predicate LiveMint(c: Codec, id: Pubkey, list: seq<Account>, k: Pubkey) {
    var a := Lookup(list, k);
    a.Some? && ViewOf(c, id, a.value).AMint?
  }

  /** Every live token account belongs to a live mint, and none is frozen. */
  ghost predicate WellFormed(c: Codec, id: Pubkey, list: seq<Account>) {
    forall i :: 0 <= i < |list| && ViewOf(c, id, list[i]).AToken? ==>
      LiveMint(c, id, list, ViewOf(c, id, list[i]).token.mint) && !ViewOf(c, id, list[i]).token.state.Frozen?
  }

  /** An account's view after a token step, whatever the metas. */
  lemma AccountViewStep(s: State, c: Codec, id: Pubkey, ix: Instruction, i: nat)
    requires TokenHarness(s, c, id) && ix.programId == id && i < |s.list|
    ensures SameAddresses(s.list, After(s, Exec(ix)).list)
    ensures ListViewStep(c, id, s.list, ViewOf(c, id, s.list[i]), ViewOf(c, id, After(s, Exec(ix)).list[i]))
  {
    DispatchShape(s.env, s.cells, ix, s.list);
    if Succeeds(s.env, s.cells, ix, s.list) {
      TokenInvocation(s, c, id, ix);
      var w, ctx := Resolved(ix.metas, s.list), TokenCtx(s, ix);
      if ix.data[0] in {3, 7, 8} { MovesProgress(c, ctx, ix.data, w); } else { RewritesProgress(c, ctx, ix.data, w); }
      var j := CopySource(s.env, s.cells, ix, s.list, i);
      if j >= 0 {
        assert ViewStep(c, id, w, j, ViewOf(c, id, After(s, Exec(ix)).list[i]));
        if |w| > 1 { assert w[1] in w; }
      }
    }
  }

  ghost predicate ListViewStep(c: Codec, id: Pubkey, list: seq<Account>, u: View, v: View) {
    && (u.AMint? ==> v.AMint?)
    && (v.AToken? ==>
          || (u.AToken? && u.token.mint == v.token.mint && (v.token.state.Frozen? ==> u.token.state.Frozen?))
          || (v.token.state.Initialized? && LiveMint(c, id, list, v.token.mint)))
  }

  lemma EventViewStep(s: State, c: Codec, id: Pubkey, e: Event, i: nat)
    requires TokenHarness(s, c, id) && Tame(s, c, id, e) && i < |s.list|
    ensures SameAddresses(s.list, After(s, e).list)
    ensures ListViewStep(c, id, s.list, ViewOf(c, id, s.list[i]), ViewOf(c, id, After(s, e).list[i]))
  {
    if e.Exec? {
      if e.ix.programId == id { AccountViewStep(s, c, id, e.ix, i); } else { ForeignViews(s, c, id, e.ix, i); }
    }
  }

  lemma EventStaysWellFormed(s: State, c: Codec, id: Pubkey, e: Event)
    requires TokenHarness(s, c, id) && Tame(s, c, id, e) && WellFormed(c, id, s.list)
    ensures WellFormed(c, id, After(s, e).list)
  {
    var post := After(s, e).list;
    AfterSound(s, e);
    forall k | LiveMint(c, id, s.list, k) ensures LiveMint(c, id, post, k) {
      LookupSameAddresses(s.list, post, k);
      EventViewStep(s, c, id, e, Find(s.list, k));
    }
    forall i | 0 <= i < |post| && ViewOf(c, id, post[i]).AToken?
      ensures LiveMint(c, id, post, ViewOf(c, id, post[i]).token.mint) && !ViewOf(c, id, post[i]).token.state.Frozen?
    {
      EventViewStep(s, c, id, e, i);
    }
  }

  /** Every live token account of every state of a tame run belongs to a live mint. */
  lemma {:induction false} MintsStayLive(s: State, c: Codec, id: Pubkey, events: seq<Event>)
    requires TokenHarness(s, c, id) && TameRun(s, c, id, events) && WellFormed(c, id, s.list)
    ensures WellFormed(c, id, Run(s, events).list)
    decreases |events|
  {
    if events != [] {
      AfterSound(s, events[0]);
      EventStaysWellFormed(s, c, id, events[0]);
      MintsStayLive(After(s, events[0]), c, id, events[1..]);
    }
  }

  // --- exact equality ---------------------------------------------------------------------------

  /** The instruction writes a fresh record back over a live token account that holds something. */
  ghost predicate WipesBalance(s: State, c: Codec, id: Pubkey, ix: Instruction) {
    && ix.data != [] && ix.data[0] <= 1 && LastNaming(ix.metas, 0)
    && var first := Lookup(s.list, ix.metas[0].pubkey);
       first.Some? && ViewOf(c, id, first.value).AToken? && ViewOf(c, id, first.value).token.amount > 0
  }

  ghost predicate KeepsGaps(s: State, c: Codec, id: Pubkey, ix: Instruction) {
    MovesEvenly(ix) && !WipesBalance(s, c, id, ix)
  }

  lemma UnevenChange(s: State, c: Codec, id: Pubkey, ix: Instruction) returns (k: Pubkey)
    requires TokenHarness(s, c, id) && ix.programId == id && Succeeds(s.env, s.cells, ix, s.list)
    requires !MovesEvenly(ix)
    ensures SlackChange(s, c, id, k, ix) != 0
  {
    k := MovedMint(s, c, id, ix);
  }

  lemma WipedChange(s: State, c: Codec, id: Pubkey, ix: Instruction) returns (k: Pubkey)
    requires TokenHarness(s, c, id) && ix.programId == id && Succeeds(s.env, s.cells, ix, s.list)
    requires WipesBalance(s, c, id, ix)
    ensures SlackChange(s, c, id, k, ix) != 0
  {
    TokenInvocation(s, c, id, ix);
    k := ViewOf(c, id, Lookup(s.list, ix.metas[0].pubkey).value).token.mint;
    assert Resolved(ix.metas, s.list)[0] == Lookup(s.list, ix.metas[0].pubkey).value;
  }

  /** The mint whose gap an instruction changes that moves unevenly or wipes a balance. */
  lemma ChangedGap(s: State, c: Codec, id: Pubkey, ix: Instruction) returns (k: Pubkey)
    requires TokenHarness(s, c, id) && ix.programId == id && Succeeds(s.env, s.cells, ix, s.list)
    requires !KeepsGaps(s, c, id, ix)
    ensures SlackChange(s, c, id, k, ix) != 0
  {
    if MovesEvenly(ix) { k := WipedChange(s, c, id, ix); } else { k := UnevenChange(s, c, id, ix); }
  }

  lemma NothingLost(s: State, c: Codec, id: Pubkey, ix: Instruction, k: Pubkey)
    requires TokenHarness(s, c, id) && ix.programId == id && KeepsGaps(s, c, id, ix)
    ensures SlackChange(s, c, id, k, ix) == 0
  {
    if Succeeds(s.env, s.cells, ix, s.list) { TokenInvocation(s, c, id, ix); }
  }

  /** An accepted step keeps the gap between supply and holdings of every mint exactly when it
      moves evenly and wipes no balance. */
  lemma KeepsGapsIff(s: State, c: Codec, id: Pubkey, ix: Instruction)
    requires TokenHarness(s, c, id) && ix.programId == id && Backed(c, id, s.list)
    requires Succeeds(s.env, s.cells, ix, s.list)
    ensures (forall k: Pubkey :: Slack(c, id, k, After(s, Exec(ix)).list) == Slack(c, id, k, s.list))
      <==> KeepsGaps(s, c, id, ix)
  {
    forall k: Pubkey
      ensures Slack(c, id, k, After(s, Exec(ix)).list) == Slack(c, id, k, s.list) + SlackChange(s, c, id, k, ix)
    {
      StepSlack(s, c, id, ix, k);
    }
    if KeepsGaps(s, c, id, ix) {
      forall k: Pubkey ensures SlackChange(s, c, id, k, ix) == 0 { NothingLost(s, c, id, ix, k); }
    } else {
      var k := ChangedGap(s, c, id, ix);
      assert Slack(c, id, k, After(s, Exec(ix)).list) != Slack(c, id, k, s.list);
    }
  }

  ghost predicate EvenEvent(s: State, c: Codec, id: Pubkey, e: Event) {
    e.Exec? && e.ix.programId == id && Succeeds(s.env, s.cells, e.ix, s.list) ==> KeepsGaps(s, c, id, e.ix)
  }

  ghost predicate EvenRun(s: State, c: Codec, id: Pubkey, events: seq<Event>)
    decreases |events|
  {
    events != [] ==> EvenEvent(s, c, id, events[0]) && EvenRun(After(s, events[0]), c, id, events[1..])
  }

  ghost predicate SameGaps(c: Codec, id: Pubkey, before: seq<Account>, after: seq<Account>) {
    forall k: Pubkey :: Slack(c, id, k, after) == Slack(c, id, k, before)
  }

  lemma EventKeepsGapsIff(s: State, c: Codec, id: Pubkey, e: Event)
    requires TokenHarness(s, c, id) && Tame(s, c, id, e) && Backed(c, id, s.list)
    ensures SameGaps(c, id, s.list, After(s, e).list) <==> EvenEvent(s, c, id, e)
  {
    if e.Exec? {
      if e.ix.programId != id {
        forall k: Pubkey ensures Slack(c, id, k, After(s, e).list) == Slack(c, id, k, s.list) {
          ForeignSlack(s, c, id, e.ix, k);
        }
      } else if Succeeds(s.env, s.cells, e.ix, s.list) {
        KeepsGapsIff(s, c, id, e.ix);
      } else {
        DispatchShape(s.env, s.cells, e.ix, s.list);
      }
    }
  }

  lemma {:induction false} RunKeepsGapsIff(s: State, c: Codec, id: Pubkey, events: seq<Event>)
    requires TokenHarness(s, c, id) && TameRun(s, c, id, events) && Backed(c, id, s.list)
    ensures SameGaps(c, id, s.list, Run(s, events).list) <==> EvenRun(s, c, id, events)
    decreases |events|
  {
    if events != [] {
      var next, rest := After(s, events[0]), events[1..];
      EventStaysBacked(s, c, id, events[0]);
      EventKeepsGapsIff(s, c, id, events[0]);
      SupplyCoversHoldings(next, c, id, rest);
      RunKeepsGapsIff(next, c, id, rest);
      NeverShrinkingGaps(c, id, s.list, next.list, Run(next, rest).list);
    }
  }

  /** Gaps that never shrink stay the same over two parts exactly if they do over each. */
  lemma NeverShrinkingGaps(c: Codec, id: Pubkey, a: seq<Account>, b: seq<Account>, d: seq<Account>)
    requires forall k: Pubkey :: Slack(c, id, k, a) <= Slack(c, id, k, b) <= Slack(c, id, k, d)
    ensures SameGaps(c, id, a, d) <==> SameGaps(c, id, a, b) && SameGaps(c, id, b, d)
  {
    if SameGaps(c, id, a, d) {
      forall k: Pubkey ensures Slack(c, id, k, a) == Slack(c, id, k, b) == Slack(c, id, k, d) {
        assert Slack(c, id, k, a) <= Slack(c, id, k, b) <= Slack(c, id, k, d) == Slack(c, id, k, a);
      }
    }
  }

  /** Over a tame run the gap between supply and holdings of every mint is the same at the end as
      at the start exactly when every accepted token instruction moves evenly and wipes no balance. */
  lemma SupplyEqualsHoldings(s: State, c: Codec, id: Pubkey, events: seq<Event>)
    requires TokenHarness(s, c, id) && TameRun(s, c, id, events) && Backed(c, id, s.list)
    ensures var end := Run(s, events).list;
      (forall k: Pubkey ::
         Supply(c, id, k, end) - Held(c, id, k, end) == Supply(c, id, k, s.list) - Held(c, id, k, s.list))
      <==> EvenRun(s, c, id, events)
  {
    var end := Run(s, events).list;
    RunKeepsGapsIff(s, c, id, events);
    forall k: Pubkey
      ensures Slack(c, id, k, end) == Supply(c, id, k, end) - Held(c, id, k, end)
      ensures Slack(c, id, k, s.list) == Supply(c, id, k, s.list) - Held(c, id, k, s.list)
    {
      SlackIsDifference(c, id, k, end);
      SlackIsDifference(c, id, k, s.list);
    }
    if SameGaps(c, id, s.list, end) {
      forall k: Pubkey
        ensures Supply(c, id, k, end) - Held(c, id, k, end) == Supply(c, id, k, s.list) - Held(c, id, k, s.list)
      {
        assert Slack(c, id, k, end) == Slack(c, id, k, s.list);
      }
    }
  }
}
