/** Tokens leave an account only with its owner's or a delegate's signature, over every run. */
module TokenAuthority {
  import opened Common
  import opened Accounts
  import opened Validation
  import opened Engine
  import opened Kernel
  import opened Runs
  import opened TokenRecord
  import opened TokenProgram
  import opened TokenSupply
  import opened TokenRuns
  import opened TokenDelegate
  import opened TokenSkew

  /** A live account nobody but its owner may spend from or close. */
  ghost predicate Sealed(v: View, owner: Pubkey) {
    && v.AToken? && v.token.owner == owner && v.token.state.Initialized?
    && v.token.delegate.None? && v.token.closeAuthority.None?
  }

  /** Nothing but tokens coming in. */
  ghost predicate OnlyReceived(u: View, v: View) {
    u.AToken? && v.AToken? && v.token.amount >= u.token.amount && v.token == u.token.(amount := v.token.amount)
  }

  /** InitializeAccount writes over a live token account only if it is frozen. */
  lemma NoLiveAccountIsReinitialized(c: Codec, ctx: Ctx, w: seq<Account>)
    requires Lawful(c) && InitializeAccount(c, ctx, w).Ok?
    ensures var v := ViewOf(c, ctx.programId, w[0]); v.AToken? ==> v.token.state.Frozen?
  {
  }

  lemma FirstCopySealed(c: Codec, ctx: Ctx, data: seq<byte>, w: seq<Account>, owner: Pubkey)
    requires Lawful(c) && ctx.programId != SYSTEM_ID && Invoke(c, ctx, data, w).Ok? && |w| > 0
    requires Sealed(ViewOf(c, ctx.programId, w[0]), owner) && !IsSigner(ctx, owner)
    ensures data[0] == 0
  {
    var body := data[1..];
    if data[0] == 1 { InitializeAccountEffect(c, ctx, w); NoLiveAccountIsReinitialized(c, ctx, w); }
    else if data[0] == 3 { TransferEffect(c, ctx, body, w); }
    else if data[0] == 4 { ApproveEffect(c, ctx, body, w); }
    else if data[0] == 5 { RevokeEffect(c, ctx, w); }
    else if data[0] == 7 { MintToEffect(c, ctx, body, w); }
    else if data[0] == 8 { BurnEffect(c, ctx, body, w); }
    else if data[0] == 9 { CloseAccountEffect(c, ctx, w); }
  }

  lemma OtherCopySealed(c: Codec, ctx: Ctx, data: seq<byte>, w: seq<Account>, j: nat)
    requires Lawful(c) && ctx.programId != SYSTEM_ID && Invoke(c, ctx, data, w).Ok? && 0 < j < |w|
    requires ViewOf(c, ctx.programId, w[j]).AToken?
    ensures |Invoke(c, ctx, data, w).value| == |w|
    ensures OnlyReceived(ViewOf(c, ctx.programId, w[j]), ViewOf(c, ctx.programId, Invoke(c, ctx, data, w).value[j]))
  {
    var body := data[1..];
    if data[0] == 0 { InitializeMintEffect(c, ctx, body, w); }
    else if data[0] == 1 { InitializeAccountEffect(c, ctx, w); }
    else if data[0] == 3 { TransferEffect(c, ctx, body, w); }
    else if data[0] == 4 { ApproveEffect(c, ctx, body, w); }
    else if data[0] == 5 { RevokeEffect(c, ctx, w); }
    else if data[0] == 7 { MintToEffect(c, ctx, body, w); }
    else if data[0] == 8 { BurnEffect(c, ctx, body, w); }
    else { CloseAccountEffect(c, ctx, w); }
  }

  /** The key signs no token instruction of the run. */
  ghost predicate NeverSigns(events: seq<Event>, id: Pubkey, key: Pubkey) {
    forall e :: e in events && e.Exec? && e.ix.programId == id ==> Unsigned(e.ix.metas, key)
  }

  predicate Unsigned(metas: seq<Meta>, key: Pubkey) {
    FirstMeta(metas, key).None? || !FirstMeta(metas, key).value.signer
  }

  /** An accepted InitializeMint that is written back to the account at i. */
  ghost predicate Wipes(s: State, id: Pubkey, ix: Instruction, i: nat)
    requires i < |s.list|
  {
    && ix.programId == id && Succeeds(s.env, s.cells, ix, s.list)
    && ix.data != [] && ix.data[0] == 0 && Concerns(ix, s.list[i].address)
  }

  /** A token step the owner does not sign leaves a sealed account receiving only, exactly unless
      it is an accepted InitializeMint on it, which turns it into a mint. */
  lemma StepSealedIff(s: State, c: Codec, id: Pubkey, ix: Instruction, i: nat, owner: Pubkey)
    requires TokenHarness(s, c, id) && ix.programId == id && i < |s.list|
    requires Sealed(ViewOf(c, id, s.list[i]), owner) && Unsigned(ix.metas, owner)
    ensures SameAddresses(s.list, After(s, Exec(ix)).list)
    ensures OnlyReceived(ViewOf(c, id, s.list[i]), ViewOf(c, id, After(s, Exec(ix)).list[i])) <==> !Wipes(s, id, ix, i)
    ensures Wipes(s, id, ix, i) ==> ViewOf(c, id, After(s, Exec(ix)).list[i]).AMint?
  {
    DispatchShape(s.env, s.cells, ix, s.list);
    if Succeeds(s.env, s.cells, ix, s.list) {
      var j := CopyOf(s, c, id, ix, i);
      var ctx, w := TokenCtx(s, ix), Resolved(ix.metas, s.list);
      if j == 0 {
        FirstCopySealed(c, ctx, ix.data, w, owner);
        InitializeMintEffect(c, ctx, ix.data[1..], w);
      } else if j > 0 {
        OtherCopySealed(c, ctx, ix.data, w, j);
      }
    }
  }

  /** Token instructions alone, or any programs under Strict. */
  ghost predicate TokenRun(s: State, events: seq<Event>, id: Pubkey) {
    s.env.policy == Strict || OnlyRuns(events, id)
  }

  lemma ForeignKeepsView(s: State, c: Codec, id: Pubkey, ix: Instruction, i: nat)
    requires TokenHarness(s, c, id) && s.env.policy == Strict && ix.programId != id && i < |s.list|
    requires !ViewOf(c, id, s.list[i]).Neither?
    ensures SameAddresses(s.list, After(s, Exec(ix)).list)
    ensures ViewOf(c, id, After(s, Exec(ix)).list[i]) == ViewOf(c, id, s.list[i])
  {
    StrictStepRespectsOwners(s.env, s.cells, ix, s.list, i);
    CreditKeepsView(c, id, s.list[i], After(s, Exec(ix)).list[i]);
  }

  /** A mint stays a mint. */
  lemma {:induction false} MintsStay(s: State, c: Codec, id: Pubkey, events: seq<Event>, i: nat)
    requires TokenHarness(s, c, id) && i < |s.list| && TokenRun(s, events, id) && ViewOf(c, id, s.list[i]).AMint?
    ensures SameAddresses(s.list, Run(s, events).list) && ViewOf(c, id, Run(s, events).list[i]).AMint?
    decreases |events|
  {
    if events != [] {
      var e, rest := events[0], events[1..];
      assert e in events && forall x :: x in rest ==> x in events;
      AfterSound(s, e);
      if e.Exec? {
        if e.ix.programId == id { AccountViewStep(s, c, id, e.ix, i); } else { ForeignKeepsView(s, c, id, e.ix, i); }
      }
      MintsStay(After(s, e), c, id, rest, i);
    }
  }

  /** No event of the run wipes the account at i. */
  ghost predicate NeverWiped(s: State, id: Pubkey, events: seq<Event>, i: nat)
    decreases |events|
  {
    events != [] && i < |s.list| ==>
      (events[0].Exec? ==> !Wipes(s, id, events[0].ix, i)) && NeverWiped(After(s, events[0]), id, events[1..], i)
  }

  lemma EventSealed(s: State, c: Codec, id: Pubkey, e: Event, i: nat, owner: Pubkey)
    requires TokenHarness(s, c, id) && i < |s.list| && Sealed(ViewOf(c, id, s.list[i]), owner)
    requires e.Exec? ==> if e.ix.programId == id then Unsigned(e.ix.metas, owner) else s.env.policy == Strict
    ensures TokenHarness(After(s, e), c, id) && SameAddresses(s.list, After(s, e).list)
    ensures var v := ViewOf(c, id, After(s, e).list[i]);
      if e.Exec? && Wipes(s, id, e.ix, i) then v.AMint? else OnlyReceived(ViewOf(c, id, s.list[i]), v)
  {
    AfterSound(s, e);
    if e.Exec? {
      if e.ix.programId == id { StepSealedIff(s, c, id, e.ix, i, owner); } else { ForeignKeepsView(s, c, id, e.ix, i); }
    }
  }

  /** Over every run of token instructions, and under Strict of any other programs too, in which
      the owner signs no token instruction, a sealed account only receives tokens and keeps
      everything else, whatever the metas, exactly unless an accepted InitializeMint is written
      back to it. That instruction asks for no signature; it leaves a mint for good. */
  lemma {:induction false} OnlyTheOwnerSpends(s: State, c: Codec, id: Pubkey, events: seq<Event>, i: nat, owner: Pubkey)
    requires TokenHarness(s, c, id) && i < |s.list| && TokenRun(s, events, id)
    requires Sealed(ViewOf(c, id, s.list[i]), owner) && NeverSigns(events, id, owner)
    ensures SameAddresses(s.list, Run(s, events).list)
    ensures var v := ViewOf(c, id, Run(s, events).list[i]);
      && (OnlyReceived(ViewOf(c, id, s.list[i]), v) <==> NeverWiped(s, id, events, i))
      && (NeverWiped(s, id, events, i) || v.AMint?)
    decreases |events|
  {
    if events != [] {
      var e, rest := events[0], events[1..];
      assert e in events && forall x :: x in rest ==> x in events;
      EventSealed(s, c, id, e, i, owner);
      if e.Exec? && Wipes(s, id, e.ix, i) {
        MintsStay(After(s, e), c, id, rest, i);
      } else {
        OnlyTheOwnerSpends(After(s, e), c, id, rest, i, owner);
      }
    }
  }

  // --- the exception at work ----------------------------------------------------------------------

  function UnsignedInitializeMint(id: Pubkey, account: Pubkey, body: seq<byte>): Instruction {
    Instruction(id, [Meta(account, false, true)], [0] + body)
  }

  lemma InitializeMintIsAccepted(s: State, c: Codec, id: Pubkey, i: nat, body: seq<byte>)
    requires TokenHarness(s, c, id) && i < |s.list| && Limit(s.env, s.cells) >= TOKEN_INSTRUCTION_CU
    requires ViewOf(c, id, s.list[i]).AToken? && |body| >= 34
    ensures var ix := UnsignedInitializeMint(id, s.list[i].address, body);
      WritesData(s, c, id, ix) && Resolved(ix.metas, s.list) == [s.list[i]]
  {
    var ix := UnsignedInitializeMint(id, s.list[i].address, body);
    LookupAt(s.list, i);
    assert Resolved(ix.metas, s.list) == [s.list[i]] && ix.data[1..] == body;
    assert FirstMeta(ix.metas, s.list[i].address) == Some(ix.metas[0]);
    assert Invoke(c, TokenCtx(s, ix), ix.data, [s.list[i]]) == InitializeMint(c, TokenCtx(s, ix), body, [s.list[i]]);
  }

  /** In every list and under either policy, an InitializeMint nobody signs turns any live token
      account into a mint without supply, and what the account held is gone. */
  lemma InitializeMintNeedsNoSignature(s: State, c: Codec, id: Pubkey, i: nat, body: seq<byte>)
    requires TokenHarness(s, c, id) && i < |s.list| && Limit(s.env, s.cells) >= TOKEN_INSTRUCTION_CU
    requires ViewOf(c, id, s.list[i]).AToken? && |body| >= 34
    ensures var ix := UnsignedInitializeMint(id, s.list[i].address, body);
      && Wipes(s, id, ix, i) && (forall k: Pubkey :: Unsigned(ix.metas, k))
      && SameAddresses(s.list, After(s, Exec(ix)).list)
      && ViewOf(c, id, After(s, Exec(ix)).list[i]) == AMint(MintOf(body))
  {
    var ix := UnsignedInitializeMint(id, s.list[i].address, body);
    InitializeMintIsAccepted(s, c, id, i, body);
    DataWritesPass(s, c, id, ix);
    var j := CopyOf(s, c, id, ix, i);
    assert Concerns(ix, s.list[i].address) && ix.data[1..] == body;
    InitializeMintEffect(c, TokenCtx(s, ix), body, [s.list[i]]);
  }

  /** At the handler: the writable flag alone decides. */
  lemma InitializeMintHandlerIff(c: Codec, ctx: Ctx, body: seq<byte>, w: seq<Account>)
    requires Lawful(c) && |w| > 0 && ViewOf(c, ctx.programId, w[0]).AToken? && |body| >= 34
    ensures IsWritable(ctx, w[0].address) <==> InitializeMint(c, ctx, body, w).Ok?
    ensures IsWritable(ctx, w[0].address) ==>
      ViewOf(c, ctx.programId, InitializeMint(c, ctx, body, w).value[0]) == AMint(MintOf(body))
  {
    if IsWritable(ctx, w[0].address) { InitializeMintEffect(c, ctx, body, w); }
  }
}
