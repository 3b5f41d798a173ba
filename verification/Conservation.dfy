/** Lamports under all five programs together: which accounts an instruction moves lamports
    between, what an accepted one adds to the total of the list, and when that is positive. */
module Conservation {
  import opened Common
  import opened Bytes
  import opened Sums
  import opened Accounts
  import opened Validation
  import opened Engine
  import opened Kernel
  import opened Runs
  import opened Ledger
  import opened Builtins
  import TokenRecord
  import Stake = StakeProgram
  import Token = TokenProgram
  import Tables = AltProgram
  import System = SystemProgram
  import AltHistory
  import Fees

  // --- routes -----------------------------------------------------------------------------------

  /** Lamports go from one position of the slice to another. */
  datatype Route = Route(from: nat, to: nat, amount: u64)

  /** The slice after lamports took the route, the credit saturating; with no route, every copy
      keeps its lamports. */
  ghost predicate Follows(w: seq<Account>, post: seq<Account>, route: Option<Route>) {
    && |post| == |w|
    && match route
       case None => forall k :: 0 <= k < |w| ==> post[k].lamports == w[k].lamports
       case Some(r) =>
         && r.from < |w| && r.to < |w| && r.from != r.to
         && post[r.from].lamports + r.amount == w[r.from].lamports
         && post[r.to].lamports == SatAdd(w[r.to].lamports, r.amount)
         && forall k :: 0 <= k < |w| && k != r.from && k != r.to ==> post[k].lamports == w[k].lamports
  }

  function SystemRoute(data: seq<byte>): Option<Route> {
    if ArgsOf(data).Some? then Some(Route(0, 1, ArgsOf(data).value.lamports))
    else if |data| < 12 then None
    else if U32At(data, 0) in {2, 5} then Some(Route(0, 1, U64At(data[4..], 0)))
    else if U32At(data, 0) == 10 then Some(Route(0, 2, U64At(data[4..], 0)))
    else None
  }

  function StakeRoute(data: seq<byte>): Option<Route> {
    if |data| >= 12 && U32At(data, 0) == 4 then Some(Route(0, 1, U64At(data[4..], 0))) else None
  }

  /** Closing an account hands over all it holds. */
  function TokenRoute(data: seq<byte>, w: seq<Account>): Option<Route> {
    if data != [] && data[0] == 9 && w != [] then Some(Route(0, 1, w[0].lamports)) else None
  }

  function TableRoute(data: seq<byte>, w: seq<Account>): Option<Route> {
    if |data| < 4 || w == [] then None
    else if U32At(data, 0) == 0 then Some(Route(2, 0, Tables.INITIAL_LAMPORTS))
    else if U32At(data, 0) == 4 then Some(Route(0, 2, w[0].lamports))
    else None
  }

  /** The route of an instruction, read off its data and, for the closing ones, its first account. */
  ghost function RouteOf(p: Program, data: seq<byte>, w: seq<Account>, c: TokenRecord.Codec): Option<Route> {
    if p == System.TheSystemProgram() then SystemRoute(data)
    else if p == Token.SplTokenSimulator(c) then TokenRoute(data, w)
    else if p == Stake.StakeProgramSimulator() then StakeRoute(data)
    else if p == Tables.AltProgramSimulator() then TableRoute(data, w)
    else None
  }

  lemma SystemFollows(ctx: Ctx, data: seq<byte>, w: seq<Account>)
    requires System.Invoke(ctx, data, w).Ok?
    ensures Follows(w, System.Invoke(ctx, data, w).value, SystemRoute(data))
  {
    var tag, body := U32At(data, 0), data[4..];
    if IsCreate(data) {
      CreateFormsAreCreates(ctx, data, w);
    } else if tag == 2 {
      assert System.Transfer(ctx, body, w).Ok?;
    } else if tag == 5 {
      WithdrawIsMove(ctx, body, w);
    } else if tag == 10 {
      assert System.TransferWithSeed(ctx, body, w).Ok?;
    } else {
      RewritesFirst(ctx, data, w);
    }
  }

  lemma WithdrawFollows(ctx: Ctx, body: seq<byte>, w: seq<Account>)
    requires Stake.Withdraw(ctx, body, w).Ok?
    ensures |body| >= 8 && Follows(w, Stake.Withdraw(ctx, body, w).value, Some(Route(0, 1, U64At(body, 0))))
  {
  }

  lemma StakeFollows(ctx: Ctx, data: seq<byte>, w: seq<Account>)
    requires Stake.Invoke(ctx, data, w).Ok?
    ensures Follows(w, Stake.Invoke(ctx, data, w).value, StakeRoute(data))
  {
    var post := Stake.Invoke(ctx, data, w).value;
    if U32At(data, 0) == 4 {
      WithdrawFollows(ctx, data[4..], w);
    } else {
      assert |w| > 0 && post == w[0 := post[0]] && post[0].lamports == w[0].lamports;
    }
  }

  lemma CloseFollows(c: TokenRecord.Codec, ctx: Ctx, w: seq<Account>)
    requires Token.CloseAccount(c, ctx, w).Ok?
    ensures |w| > 0 && Follows(w, Token.CloseAccount(c, ctx, w).value, Some(Route(0, 1, w[0].lamports)))
  {
  }

  lemma RecordsKeepLamports(c: TokenRecord.Codec, ctx: Ctx, data: seq<byte>, w: seq<Account>)
    requires Token.Invoke(c, ctx, data, w).Ok? && data[0] != 9
    ensures Follows(w, Token.Invoke(c, ctx, data, w).value, None)
  {
    var body := data[1..];
    if data[0] == 0 { assert Token.InitializeMint(c, ctx, body, w).Ok?; }
    else if data[0] == 1 { assert Token.InitializeAccount(c, ctx, w).Ok?; }
    else if data[0] == 3 { assert Token.Transfer(c, ctx, body, w).Ok?; }
    else if data[0] == 4 { assert Token.Approve(c, ctx, body, w).Ok?; }
    else if data[0] == 5 { assert Token.Revoke(c, ctx, w).Ok?; }
    else if data[0] == 7 { assert Token.MintTo(c, ctx, body, w).Ok?; }
    else { assert Token.Burn(c, ctx, body, w).Ok?; }
  }

  lemma TokenFollows(c: TokenRecord.Codec, ctx: Ctx, data: seq<byte>, w: seq<Account>)
    requires Token.Invoke(c, ctx, data, w).Ok?
    ensures Follows(w, Token.Invoke(c, ctx, data, w).value, TokenRoute(data, w))
  {
    if data[0] == 9 { CloseFollows(c, ctx, w); } else { RecordsKeepLamports(c, ctx, data, w); }
  }

  lemma CreateFollows(ctx: Ctx, body: seq<byte>, w: seq<Account>)
    requires Tables.CreateTable(ctx, body, w).Ok?
    ensures Follows(w, Tables.CreateTable(ctx, body, w).value, Some(Route(2, 0, Tables.INITIAL_LAMPORTS)))
  {
    AltHistory.CreateWrites(ctx, body, w);
  }

  lemma CloseTableFollows(ctx: Ctx, w: seq<Account>)
    requires Tables.CloseTable(ctx, w).Ok?
    ensures |w| > 0 && Follows(w, Tables.CloseTable(ctx, w).value, Some(Route(0, 2, w[0].lamports)))
  {
  }

  lemma TablesFollow(ctx: Ctx, data: seq<byte>, w: seq<Account>)
    requires Tables.Invoke(ctx, data, w).Ok?
    ensures Follows(w, Tables.Invoke(ctx, data, w).value, TableRoute(data, w))
  {
    var post := Tables.Invoke(ctx, data, w).value;
    if U32At(data, 0) == 0 {
      CreateFollows(ctx, data[4..], w);
    } else if U32At(data, 0) == 4 {
      CloseTableFollows(ctx, w);
    } else {
      assert |w| > 0 && post == w[0 := post[0]] && post[0].lamports == w[0].lamports;
    }
  }

  /** Whatever one of the five programs does, its slice follows the route. */
  lemma BundledFollows(p: Program, c: TokenRecord.Codec, ctx: Ctx, data: seq<byte>, w: seq<Account>, cells: Cells)
    requires Bundled(p, c) && p.invoke(ctx, data, w, cells).error.None?
    ensures Follows(w, p.invoke(ctx, data, w, cells).accounts, RouteOf(p, data, w, c))
  {
    if p == System.TheSystemProgram() { SystemFollows(ctx, data, w); }
    else if p == Token.SplTokenSimulator(c) { TokenFollows(c, ctx, data, w); }
    else if p == Stake.StakeProgramSimulator() { StakeFollows(ctx, data, w); }
    else if p == Tables.AltProgramSimulator() { TablesFollow(ctx, data, w); }
  }

  // --- one step, whatever its metas ---------------------------------------------------------------

  /** What the list gains from a route: the credit if its end is not named again, less the amount
      if its start is not. */
  function RouteGain(metas: seq<Meta>, w: seq<Account>, route: Option<Route>): int {
    match route
    case None => 0
    case Some(r) =>
      (if LastNaming(metas, r.to) && r.to < |w| then SatAdd(w[r.to].lamports, r.amount) - w[r.to].lamports else 0)
      - (if LastNaming(metas, r.from) then r.amount else 0)
  }

  /** The route ends at an account that is not named again and has room, and starts at one that
      is. */
  predicate Uphill(metas: seq<Meta>, w: seq<Account>, route: Option<Route>) {
    match route
    case None => false
    case Some(r) =>
      && r.amount > 0 && LastNaming(metas, r.to) && !LastNaming(metas, r.from)
      && r.to < |w| && w[r.to].lamports < U64_MAX
  }

  lemma GainsIff(metas: seq<Meta>, w: seq<Account>, post: seq<Account>, route: Option<Route>)
    requires Follows(w, post, route)
    ensures RouteGain(metas, w, route) > 0 <==> Uphill(metas, w, route)
    ensures DistinctMetas(metas) && |metas| == |w| ==> !Uphill(metas, w, route)
  {
  }

  /** For any built-in and either policy: an accepted step whose slice follows a route. */
  lemma RouteTotal(env: Env, cells: Cells, ix: Instruction, list: seq<Account>, route: Option<Route>)
    requires WellBehaved(env) && Distinct(list) && Succeeds(env, cells, ix, list) && Resolvable(ix.metas, list)
    requires Follows(Resolved(ix.metas, list), InvocationOf(env, cells, ix, list).accounts, route)
    ensures SumBy(Lamports(), Dispatch(env, cells, ix, list).out.accounts)
         == SumBy(Lamports(), list) + RouteGain(ix.metas, Resolved(ix.metas, list), route)
  {
    match route
    case None => TwoCopyTotal(env, cells, ix, list, Lamports(), 0, 1);
    case Some(r) => TwoCopyTotal(env, cells, ix, list, Lamports(), r.from, r.to);
  }

  /** The instruction belongs to one of the five programs; others may be registered beside it. */
  ghost predicate RunsBundled(env: Env, ix: Instruction, c: TokenRecord.Codec) {
    WellBehaved(env) && (ix.programId in env.registry ==> Bundled(env.registry[ix.programId], c))
  }

  /** The instruction makes lamports if it is accepted: its route is uphill. */
  ghost predicate Raises(env: Env, ix: Instruction, list: seq<Account>, c: TokenRecord.Codec) {
    ix.programId in env.registry && Resolvable(ix.metas, list) &&
    var w := Resolved(ix.metas, list);
    Uphill(ix.metas, w, RouteOf(env.registry[ix.programId], ix.data, w, c))
  }

  /** Under either policy and with any metas, an accepted step changes the total by exactly what
      is written back of its route. */
  lemma StepTotal(env: Env, cells: Cells, ix: Instruction, list: seq<Account>, c: TokenRecord.Codec)
    requires RunsBundled(env, ix, c) && Distinct(list) && Succeeds(env, cells, ix, list)
    ensures ix.programId in env.registry && Resolvable(ix.metas, list)
    ensures var w := Resolved(ix.metas, list);
      var route := RouteOf(env.registry[ix.programId], ix.data, w, c);
      && Follows(w, InvocationOf(env, cells, ix, list).accounts, route)
      && SumBy(Lamports(), Dispatch(env, cells, ix, list).out.accounts)
           == SumBy(Lamports(), list) + RouteGain(ix.metas, w, route)
  {
    SuccessfulDispatch(env, cells, ix, list);
    var p, w := env.registry[ix.programId], Resolved(ix.metas, list);
    var ctx := Ctx(ix.programId, ix.metas, env.sysvars, Limit(env, cells), p.cost(env.defaultCost));
    BundledFollows(p, c, ctx, ix.data, w, cells);
    RouteTotal(env, cells, ix, list, RouteOf(p, ix.data, w, c));
  }

  /** So a step raises the total exactly when it is an accepted instruction of that kind, which
      one with distinct metas never is. */
  lemma StepRaisesIff(env: Env, cells: Cells, ix: Instruction, list: seq<Account>, c: TokenRecord.Codec)
    requires RunsBundled(env, ix, c) && Distinct(list)
    ensures SumBy(Lamports(), Dispatch(env, cells, ix, list).out.accounts) > SumBy(Lamports(), list)
      <==> Succeeds(env, cells, ix, list) && Raises(env, ix, list, c)
    ensures DistinctMetas(ix.metas) ==> !(Succeeds(env, cells, ix, list) && Raises(env, ix, list, c))
  {
    DispatchShape(env, cells, ix, list);
    if Succeeds(env, cells, ix, list) {
      StepTotal(env, cells, ix, list, c);
      var w := Resolved(ix.metas, list);
      GainsIff(ix.metas, w, InvocationOf(env, cells, ix, list).accounts,
        RouteOf(env.registry[ix.programId], ix.data, w, c));
    }
  }

  /** Distinct metas never raise the total, under either policy. */
  lemma DistinctMetasNeverRaise(env: Env, cells: Cells, ix: Instruction, list: seq<Account>, c: TokenRecord.Codec)
    requires RunsBundled(env, ix, c) && Distinct(list) && DistinctMetas(ix.metas)
    ensures SumBy(Lamports(), Dispatch(env, cells, ix, list).out.accounts) <= SumBy(Lamports(), list)
  {
    StepRaisesIff(env, cells, ix, list, c);
  }

  /** Under Strict a step that does not raise the total conserves it: the validator lets the total
      change by a credit only. */
  lemma StrictStepNeverLowers(env: Env, cells: Cells, ix: Instruction, list: seq<Account>)
    requires WellBehaved(env) && env.policy == Strict && Distinct(list)
    ensures SumBy(Lamports(), Dispatch(env, cells, ix, list).out.accounts) >= SumBy(Lamports(), list)
  {
    DispatchShape(env, cells, ix, list);
    if Succeeds(env, cells, ix, list) {
      StrictStepChangesTotalByCredit(env, cells, ix, list);
      CreditBounds(list, Dispatch(env, cells, ix, list).out.accounts);
    }
  }

  // --- runs and transactions ----------------------------------------------------------------------

  ghost predicate BundledHarness(env: Env, c: TokenRecord.Codec) {
    forall id :: id in env.registry ==> Bundled(env.registry[id], c)
  }

  /** No accepted instruction of the run is of that kind where it runs. */
  ghost predicate RaisesNothing(s: State, events: seq<Event>, c: TokenRecord.Codec)
    decreases |events|
  {
    events != [] ==>
      && (events[0].Exec? ==>
            !(Succeeds(s.env, s.cells, events[0].ix, s.list) && Raises(s.env, events[0].ix, s.list, c)))
      && RaisesNothing(After(s, events[0]), events[1..], c)
  }

  /** Over any run that mixes instructions of all five programs, with any metas, and clock moves,
      the lamport total never rises if none of them is of that kind; under Strict it is constant. */
  lemma {:induction false} BundledRunConserves(s: State, events: seq<Event>, c: TokenRecord.Codec)
    requires BundledHarness(s.env, c) && Distinct(s.list) && RaisesNothing(s, events, c)
    ensures SumBy(Lamports(), Run(s, events).list) <= SumBy(Lamports(), s.list)
    ensures s.env.policy == Strict ==> SumBy(Lamports(), Run(s, events).list) == SumBy(Lamports(), s.list)
    decreases |events|
  {
    if events != [] {
      var e := events[0];
      BundledIsWellBehaved(s.env, c);
      AfterSound(s, e);
      if e.Exec? {
        StepRaisesIff(s.env, s.cells, e.ix, s.list, c);
        if s.env.policy == Strict { StrictStepNeverLowers(s.env, s.cells, e.ix, s.list); }
      }
      BundledRunConserves(After(s, e), events[1..], c);
    }
  }

  /** A run of distinct metas has none of that kind. */
  lemma {:induction false} DistinctMetasRaiseNothing(s: State, events: seq<Event>, c: TokenRecord.Codec)
    requires BundledHarness(s.env, c) && Distinct(s.list)
    requires forall e :: e in events && e.Exec? ==> DistinctMetas(e.ix.metas)
    ensures RaisesNothing(s, events, c)
    decreases |events|
  {
    if events != [] {
      var e := events[0];
      BundledIsWellBehaved(s.env, c);
      AfterSound(s, e);
      assert e in events && forall x :: x in events[1..] ==> x in events;
      if e.Exec? { StepRaisesIff(s.env, s.cells, e.ix, s.list, c); }
      DistinctMetasRaiseNothing(After(s, e), events[1..], c);
    }
  }

  /** A Strict transaction of any of the five programs' instructions with distinct metas takes
      exactly its reported fee out of the list, whether or not one of them fails. */
  lemma BundledTransactionTakesTheFee(env: Env, cells: Cells, c: TokenRecord.Codec, lamportsPerSignature: u64,
                                      ixs: seq<Instruction>, list: seq<Account>, payer: Pubkey)
    requires BundledHarness(env, c) && env.policy == Strict && Distinct(list) && |Fees.Signers(ixs)| <= U64_MAX
    requires forall ix :: ix in ixs ==> DistinctMetas(ix.metas)
    ensures var r := Fees.Transaction(env, cells, lamportsPerSignature, ixs, list, payer);
      SumBy(Lamports(), r.out.accounts) == SumBy(Lamports(), list) - r.fee
  {
    BundledIsWellBehaved(env, c);
    Fees.FeeChargedOnce(env, cells, lamportsPerSignature, ixs, list, payer);
    var fee := Fees.FeeOf(env, cells, lamportsPerSignature, ixs);
    if Lookup(list, payer).Some? && fee <= Lookup(list, payer).value.lamports {
      var charged := Fees.Charged(list, payer, fee);
      Fees.ChargedFacts(list, payer, fee);
      var n := GoodPrefix(env, cells, ixs, charged);
      ExecsOnly(ixs, n);
      DistinctMetasRaiseNothing(State(env, cells, charged), Execs(ixs[..n]), c);
      BundledRunConserves(State(env, cells, charged), Execs(ixs[..n]), c);
    }
  }
}
