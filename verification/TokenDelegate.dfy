/** The delegate's allowance over runs: a ledger kept beside one token account, against what
    the account records. */
module TokenDelegate {
  import opened Common
  import opened Bytes
  import opened Accounts
  import opened Engine
  import opened Kernel
  import opened Runs
  import opened TokenRecord
  import opened TokenProgram
  import opened TokenSupply
  import opened TokenRuns

  /** The last approved delegate and amount, and what has been moved out against it since. */
  datatype Allowed = Allowed(delegate: Option<Pubkey>, approved: u64, moved: nat)

  /** How one successful instruction whose first account is the watched one changes the ledger,
      given the keys of its second and third account: Approve opens a new allowance for the
      second; Revoke, Close and the initialisations end it; a Transfer or Burn the third signs
      without being the owner moves its amount against it. */
  function Record(v: View, data: seq<byte>, second: Option<Pubkey>, third: Option<Pubkey>, l: Allowed): Allowed {
    var tag := if data == [] then 0 else data[0];
    if tag == 4 && |data| >= 9 then Allowed(second, U64At(data[1..], 0), 0)
    else if tag in {0, 1, 5, 9} then Allowed(None, 0, 0)
    else if SpendsAllowance(v, data, third) then l.(moved := l.moved + U64At(data[1..], 0))
    else l
  }

  /** A Transfer or Burn of the account that somebody other than its owner signs. */
  predicate SpendsAllowance(v: View, data: seq<byte>, signer: Option<Pubkey>) {
    |data| >= 9 && data[0] in {3, 8} && v.AToken? && signer.Some? && v.token.owner != signer.value
  }

  /** The account agrees with its ledger: what it still allows is what was approved less what
      was moved, its delegate is the approved one, and without a delegate it allows nothing. */
  ghost predicate Agrees(v: View, l: Allowed) {
    && l.moved <= l.approved
    && (v.AToken? ==>
          && v.token.delegatedAmount == l.approved - l.moved
          && (v.token.delegate.None? ==> v.token.delegatedAmount == 0)
          && (v.token.delegate.Some? ==> v.token.delegate == l.delegate))
  }

  function KeyOf(w: seq<Account>, j: nat): Option<Pubkey> {
    if j < |w| then Some(w[j].address) else None
  }

  lemma SpentAgrees(t: Token, authority: Pubkey, amount: u64, l: Allowed)
    requires Agrees(AToken(t), l) && Spent(t, authority, amount).Ok?
    ensures Agrees(AToken(Spent(t, authority, amount).value),
      if t.owner == authority then l else l.(moved := l.moved + amount))
    ensures t.owner == authority || Some(authority) == l.delegate
  {
  }

  lemma FirstCopyMoves(c: Codec, ctx: Ctx, data: seq<byte>, w: seq<Account>, l: Allowed)
    requires Lawful(c) && Invoke(c, ctx, data, w).Ok? && data[0] in {3, 7, 8} && |w| > 0
    requires Agrees(ViewOf(c, ctx.programId, w[0]), l)
    ensures |Invoke(c, ctx, data, w).value| > 0
    ensures Agrees(ViewOf(c, ctx.programId, Invoke(c, ctx, data, w).value[0]),
      Record(ViewOf(c, ctx.programId, w[0]), data, KeyOf(w, 1), KeyOf(w, 2), l))
    ensures SpendsAllowance(ViewOf(c, ctx.programId, w[0]), data, KeyOf(w, 2)) ==>
      KeyOf(w, 2) == l.delegate && IsSigner(ctx, KeyOf(w, 2).value)
  {
    var body := data[1..];
    if data[0] == 3 {
      TransferEffect(c, ctx, body, w);
      SpentAgrees(ReadToken(c, ctx, w[0]).value, w[2].address, U64At(body, 0), l);
    } else if data[0] == 7 {
      MintToEffect(c, ctx, body, w);
    } else {
      BurnEffect(c, ctx, body, w);
      SpentAgrees(ReadToken(c, ctx, w[0]).value, w[2].address, U64At(body, 0), l);
    }
  }

  lemma FirstCopyRewrites(c: Codec, ctx: Ctx, data: seq<byte>, w: seq<Account>, l: Allowed)
    requires Lawful(c) && ctx.programId != SYSTEM_ID && Invoke(c, ctx, data, w).Ok? && data[0] !in {3, 7, 8} && |w| > 0
    requires Agrees(ViewOf(c, ctx.programId, w[0]), l)
    ensures |Invoke(c, ctx, data, w).value| > 0
    ensures Agrees(ViewOf(c, ctx.programId, Invoke(c, ctx, data, w).value[0]),
      Record(ViewOf(c, ctx.programId, w[0]), data, KeyOf(w, 1), KeyOf(w, 2), l))
  {
    var body := data[1..];
    if data[0] == 0 { InitializeMintEffect(c, ctx, body, w); }
    else if data[0] == 1 { InitializeAccountEffect(c, ctx, w); }
    else if data[0] == 4 { ApproveEffect(c, ctx, body, w); }
    else if data[0] == 5 { RevokeEffect(c, ctx, w); }
    else { CloseAccountEffect(c, ctx, w); }
  }

  /** Any other position leaves the allowance of a token account alone. */
  ghost predicate SameAllowance(u: View, v: View) {
    v.AToken? ==>
      u.AToken? && v.token.delegate == u.token.delegate && v.token.delegatedAmount == u.token.delegatedAmount
  }

  lemma OtherCopiesKeepAllowance(c: Codec, ctx: Ctx, data: seq<byte>, w: seq<Account>, j: nat)
    requires Lawful(c) && ctx.programId != SYSTEM_ID && Invoke(c, ctx, data, w).Ok? && 0 < j < |w|
    ensures |Invoke(c, ctx, data, w).value| == |w|
    ensures SameAllowance(ViewOf(c, ctx.programId, w[j]), ViewOf(c, ctx.programId, Invoke(c, ctx, data, w).value[j]))
  {
    var body := data[1..];
    if data[0] == 0 { InitializeMintEffect(c, ctx, body, w); }
    else if data[0] == 1 { InitializeAccountEffect(c, ctx, w); }
    else if data[0] == 3 { TransferEffect(c, ctx, body, w); }
    else if data[0] == 4 { ApproveEffect(c, ctx, body, w); }
    else if data[0] == 5 { RevokeEffect(c, ctx, w); }
    else if data[0] == 7 { MintToEffect(c, ctx, body, w); }
    else if data[0] == 8 { BurnEffect(c, ctx, body, w); }
    else { CloseAccountEffect(c, ctx, w); }
  }

  // --- over runs --------------------------------------------------------------------------------

  /** The instruction's first account is k, and its copy at position 0 is the one written back. */
  ghost predicate Concerns(ix: Instruction, k: Pubkey) {
    LastNaming(ix.metas, 0) && ix.metas[0].pubkey == k
  }

  function MetaKey(ix: Instruction, j: nat): Option<Pubkey> {
    if j < |ix.metas| then Some(ix.metas[j].pubkey) else None
  }

  /** The ledger of account i after an event. */
  ghost function AfterLedger(s: State, c: Codec, id: Pubkey, e: Event, i: nat, l: Allowed): Allowed
    requires i < |s.list|
  {
    if && e.Exec? && e.ix.programId == id
       && Succeeds(s.env, s.cells, e.ix, s.list) && Concerns(e.ix, s.list[i].address)
    then
      Record(ViewOf(c, id, s.list[i]), e.ix.data, MetaKey(e.ix, 1), MetaKey(e.ix, 2), l)
    else l
  }

  ghost function LedgerOver(s: State, c: Codec, id: Pubkey, events: seq<Event>, i: nat, l: Allowed): Allowed
    decreases |events|
  {
    if events == [] || i >= |s.list| then l
    else LedgerOver(After(s, events[0]), c, id, events[1..], i, AfterLedger(s, c, id, events[0], i, l))
  }

  /** The copy at position j agrees with its ledger after the handler. */
  lemma CopyAgrees(c: Codec, ctx: Ctx, data: seq<byte>, w: seq<Account>, j: nat, l: Allowed)
    requires Lawful(c) && ctx.programId != SYSTEM_ID && Invoke(c, ctx, data, w).Ok? && j < |w|
    requires Agrees(ViewOf(c, ctx.programId, w[j]), l)
    ensures |Invoke(c, ctx, data, w).value| == |w|
    ensures Agrees(ViewOf(c, ctx.programId, Invoke(c, ctx, data, w).value[j]),
      if j == 0 then Record(ViewOf(c, ctx.programId, w[0]), data, KeyOf(w, 1), KeyOf(w, 2), l) else l)
  {
    InvokeKeepsAddresses(c, ctx, data, w);
    if j > 0 {
      OtherCopiesKeepAllowance(c, ctx, data, w, j);
    } else if data[0] in {3, 7, 8} {
      FirstCopyMoves(c, ctx, data, w, l);
    } else {
      FirstCopyRewrites(c, ctx, data, w, l);
    }
  }

  /** The copy of account i that a token instruction writes back, if it works on one. */
  lemma CopyOf(s: State, c: Codec, id: Pubkey, ix: Instruction, i: nat) returns (j: int)
    requires TokenHarness(s, c, id) && ix.programId == id && i < |s.list|
    requires Succeeds(s.env, s.cells, ix, s.list)
    ensures SameAddresses(s.list, After(s, Exec(ix)).list) && Resolvable(ix.metas, s.list)
    ensures j < |ix.metas| && (j == 0 <==> Concerns(ix, s.list[i].address))
    ensures j < 0 ==> After(s, Exec(ix)).list[i] == s.list[i]
    ensures j >= 0 ==>
      var w := Resolved(ix.metas, s.list);
      var r := Invoke(c, TokenCtx(s, ix), ix.data, w);
      w[j] == s.list[i] && r.Ok? && |r.value| == |w| && After(s, Exec(ix)).list[i] == r.value[j]
  {
    TokenInvocation(s, c, id, ix);
    j := CopySource(s.env, s.cells, ix, s.list, i);
    InvokeKeepsAddresses(c, TokenCtx(s, ix), ix.data, Resolved(ix.metas, s.list));
  }

  /** The ledger after a step, read off the copy it writes back. */
  lemma LedgerOfCopy(s: State, c: Codec, id: Pubkey, ix: Instruction, i: nat, l: Allowed, j: nat)
    requires Succeeds(s.env, s.cells, ix, s.list) && ix.programId == id && Resolvable(ix.metas, s.list)
    requires i < |s.list| && j < |ix.metas| && Resolved(ix.metas, s.list)[j] == s.list[i]
    requires j == 0 <==> Concerns(ix, s.list[i].address)
    ensures var w := Resolved(ix.metas, s.list);
      AfterLedger(s, c, id, Exec(ix), i, l)
        == if j == 0 then Record(ViewOf(c, id, w[0]), ix.data, KeyOf(w, 1), KeyOf(w, 2), l) else l
  {
  }

  lemma StepAgrees(s: State, c: Codec, id: Pubkey, ix: Instruction, i: nat, l: Allowed)
    requires TokenHarness(s, c, id) && ix.programId == id && i < |s.list|
    requires Succeeds(s.env, s.cells, ix, s.list)
    requires Agrees(ViewOf(c, id, s.list[i]), l)
    ensures SameAddresses(s.list, After(s, Exec(ix)).list)
    ensures Agrees(ViewOf(c, id, After(s, Exec(ix)).list[i]), AfterLedger(s, c, id, Exec(ix), i, l))
  {
    var j := CopyOf(s, c, id, ix, i);
    if j >= 0 {
      CopyAgrees(c, TokenCtx(s, ix), ix.data, Resolved(ix.metas, s.list), j, l);
      LedgerOfCopy(s, c, id, ix, i, l, j);
    }
  }

  lemma EventAgrees(s: State, c: Codec, id: Pubkey, e: Event, i: nat, l: Allowed)
    requires TokenHarness(s, c, id) && i < |s.list| && Shielded(s, id, i, e)
    requires Agrees(ViewOf(c, id, s.list[i]), l)
    ensures TokenHarness(After(s, e), c, id) && SameAddresses(s.list, After(s, e).list)
    ensures Agrees(ViewOf(c, id, After(s, e).list[i]), AfterLedger(s, c, id, e, i, l))
  {
    AfterSound(s, e);
    if e.Exec? {
      if e.ix.programId != id {
        StrictStepRespectsOwners(s.env, s.cells, e.ix, s.list, i);
      } else if Succeeds(s.env, s.cells, e.ix, s.list) {
        StepAgrees(s, c, id, e.ix, i, l);
      } else {
        DispatchShape(s.env, s.cells, e.ix, s.list);
      }
    }
  }

  /** Over every shielded run, with any metas, what delegates moved out of an account since its
      last Approve never exceeds the approved amount, the account records exactly the difference,
      and an account without a delegate allows nothing. */
  lemma {:induction false} AllowanceHolds(s: State, c: Codec, id: Pubkey, events: seq<Event>, i: nat, l: Allowed)
    requires TokenHarness(s, c, id) && ShieldedRun(s, id, i, events) && i < |s.list|
    requires Agrees(ViewOf(c, id, s.list[i]), l)
    ensures SameAddresses(s.list, Run(s, events).list)
    ensures Agrees(ViewOf(c, id, Run(s, events).list[i]), LedgerOver(s, c, id, events, i, l))
    decreases |events|
  {
    if events != [] {
      var e := events[0];
      EventAgrees(s, c, id, e, i, l);
      AllowanceHolds(After(s, e), c, id, events[1..], i, AfterLedger(s, c, id, e, i, l));
    }
  }

  /** Runs of the token program alone are shielded, under either policy. */
  lemma AllowanceHoldsAlone(s: State, c: Codec, id: Pubkey, events: seq<Event>, i: nat, l: Allowed)
    requires TokenHarness(s, c, id) && OnlyRuns(events, id) && i < |s.list|
    requires Agrees(ViewOf(c, id, s.list[i]), l)
    ensures SameAddresses(s.list, Run(s, events).list)
    ensures Agrees(ViewOf(c, id, Run(s, events).list[i]), LedgerOver(s, c, id, events, i, l))
  {
    OnlyRunsShields(s, id, i, events);
    AllowanceHolds(s, c, id, events, i, l);
  }

  /** And whoever moves tokens out without being the owner is the delegate last approved, and
      signed. */
  lemma OnlyTheDelegateMoves(s: State, c: Codec, id: Pubkey, events: seq<Event>, ix: Instruction, i: nat, l: Allowed)
    requires TokenHarness(s, c, id) && ShieldedRun(s, id, i, events) && i < |s.list|
    requires Agrees(ViewOf(c, id, s.list[i]), l)
    requires var at := Run(s, events);
      && i < |at.list| && ix.programId == id && Succeeds(at.env, at.cells, ix, at.list)
      && Concerns(ix, at.list[i].address) && SpendsAllowance(ViewOf(c, id, at.list[i]), ix.data, MetaKey(ix, 2))
    ensures var at := Run(s, events);
      && MetaKey(ix, 2) == LedgerOver(s, c, id, events, i, l).delegate
      && IsSigner(TokenCtx(at, ix), ix.metas[2].pubkey)
  {
    var at := Run(s, events);
    AllowanceHolds(s, c, id, events, i, l);
    RunSound(s, events);
    var j := CopyOf(at, c, id, ix, i);
    FirstCopyMoves(c, TokenCtx(at, ix), ix.data, Resolved(ix.metas, at.list), LedgerOver(s, c, id, events, i, l));
  }

  /** A skewed instruction at work in a slice: a transfer that names one account as source and
      destination, and not again, writes the credited clone last, and the account gains the
      amount. */
  lemma SelfTransferInflates(c: Codec, ctx: Ctx, body: seq<byte>, w: seq<Account>)
    requires Lawful(c) && Transfer(c, ctx, body, w).Ok? && |w| >= 2 && w[0] == w[1]
    requires forall j :: 2 <= j < |w| ==> w[j].address != w[0].address
    ensures |body| >= 8 && ViewOf(c, ctx.programId, w[0]).AToken?
    ensures var v := ViewOf(c, ctx.programId, LastCopy(w[0], Transfer(c, ctx, body, w).value));
      v.AToken? && v.token.amount == ViewOf(c, ctx.programId, w[0]).token.amount + U64At(body, 0)
  {
    TransferEffect(c, ctx, body, w);
    var post := Transfer(c, ctx, body, w).value;
    assert SameAddresses(w, post);
    LastCopyUnique(w[0], post, 1);
  }
}
