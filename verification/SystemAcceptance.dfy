/** Which system instructions Strict validation accepts, and the plain transfer from the list it
    is given to the list it leaves. */
module SystemAcceptance {
  import opened Common
  import opened Bytes
  import opened Sums
  import opened Accounts
  import opened Validation
  import opened Engine
  import opened Kernel
  import opened Ledger
  import opened Conservation
  import opened StrictAcceptance
  import System = SystemProgram
  import SystemVerdicts
  import Verdicts

  /** An instruction other than a CreateAccount succeeds without validation. */
  ghost predicate SystemHandled(env: Env, cells: Cells, ix: Instruction, list: seq<Account>) {
    && SystemRegistered(env) && Distinct(list) && ix.programId == SYSTEM_ID && !IsCreate(ix.data)
    && Succeeds(Unchecked(env), cells, ix, list)
  }

  /** A change of a writable copy that is no mere credit. */
  ghost predicate FirstChange(ctx: Ctx, p: Account, n: Account) {
    n == p || (n.executable == p.executable && IsWritable(ctx, p.address)
               && (n.lamports < p.lamports || n.data != p.data || n.owner != p.owner))
  }

  lemma FirstCopyChanges(ctx: Ctx, data: seq<byte>, w: seq<Account>)
    requires System.Invoke(ctx, data, w).Ok? && !IsCreate(data)
    ensures |System.Invoke(ctx, data, w).value| == |w| > 0
    ensures FirstChange(ctx, w[0], System.Invoke(ctx, data, w).value[0])
  {
    var tag, body := U32At(data, 0), data[4..];
    SystemVerdicts.TagsSelect(ctx, data, w);
    Verdicts.Flags(ctx, w);
    if tag == 1 { SystemVerdicts.AssignVerdict(ctx, body, w); }
    else if tag == 2 { SystemVerdicts.TransferVerdict(ctx, body, w); }
    else if tag == 4 { SystemVerdicts.AdvanceNonceVerdict(ctx, w); }
    else if tag == 5 { SystemVerdicts.WithdrawNonceVerdict(ctx, body, w); }
    else if tag == 6 { SystemVerdicts.InitializeNonceVerdict(ctx, body, w); }
    else if tag == 7 { SystemVerdicts.AuthorizeNonceVerdict(ctx, body, w); }
    else if tag == 8 { SystemVerdicts.AllocateVerdict(ctx, body, w); }
    else if tag == 9 { SystemVerdicts.AssignWithSeedVerdict(ctx, body, w); }
    else if tag == 10 { SystemVerdicts.TransferWithSeedVerdict(ctx, body, w); }
    else { SystemVerdicts.UpgradeNonceVerdict(ctx, w); }
  }

  lemma OtherCopiesCredited(ctx: Ctx, data: seq<byte>, w: seq<Account>)
    requires System.Invoke(ctx, data, w).Ok? && !IsCreate(data)
    ensures |System.Invoke(ctx, data, w).value| == |w| > 0
    ensures forall j :: 0 < j < |w| ==> var n := System.Invoke(ctx, data, w).value[j];
      n == w[j] || (OnlyCredited(w[j], n) && IsWritable(ctx, w[j].address))
  {
    var tag, body := U32At(data, 0), data[4..];
    SystemVerdicts.TagsSelect(ctx, data, w);
    Verdicts.Flags(ctx, w);
    if tag == 2 { SystemVerdicts.TransferVerdict(ctx, body, w); }
    else if tag == 5 { SystemVerdicts.WithdrawNonceVerdict(ctx, body, w); }
    else if tag == 10 { SystemVerdicts.TransferWithSeedVerdict(ctx, body, w); }
    else { RewritesFirst(ctx, data, w); }
  }

  /** The slice as the handler left it. */
  lemma SystemRan(env: Env, cells: Cells, ix: Instruction, list: seq<Account>)
    requires SystemHandled(env, cells, ix, list)
    ensures Resolvable(ix.metas, list)
    ensures System.Invoke(SystemCtx(env, cells, ix), ix.data, Resolved(ix.metas, list))
      == Ok(PostOf(env, cells, ix, list))
  {
    SystemInvocation(Unchecked(env), cells, ix, list);
  }

  lemma SystemSlicePermitted(ctx: Ctx, ix: Instruction, w: seq<Account>)
    requires System.Invoke(ctx, ix.data, w).Ok? && !IsCreate(ix.data)
    requires ctx.programId == ix.programId == SYSTEM_ID && ctx.metas == ix.metas && |w| == |ix.metas|
    requires forall j :: 0 <= j < |w| ==> w[j].address == ix.metas[j].pubkey
    ensures var post := System.Invoke(ctx, ix.data, w).value;
      && post != [] && w != []
      && (CopiesPermitted(ix, w, post)
          <==> (LastNaming(ix.metas, 0) && post[0] != w[0] ==> w[0].owner == SYSTEM_ID))
  {
    FirstCopyChanges(ctx, ix.data, w);
    OtherCopiesCredited(ctx, ix.data, w);
  }

  lemma NoCreationCredit(env: Env, cells: Cells, ix: Instruction, list: seq<Account>)
    requires SystemHandled(env, cells, ix, list)
    ensures SumZip(Credit(), list, Dispatch(Unchecked(env), cells, ix, list).out.accounts) == 0
  {
    StepCredit(Unchecked(env), cells, ix, list);
  }

  /** With any metas, Strict accepts what the handler accepts exactly when what it changes of its
      first account and writes back is system-owned, and no lamports get lost or made. */
  lemma SystemPassesIff(env: Env, cells: Cells, ix: Instruction, list: seq<Account>)
    requires SystemHandled(env, cells, ix, list) && env.policy == Strict
    ensures Resolvable(ix.metas, list) && ix.metas != [] && PostOf(env, cells, ix, list) != []
    ensures var w := Resolved(ix.metas, list);
      Succeeds(env, cells, ix, list) <==>
        && (LastNaming(ix.metas, 0) && PostOf(env, cells, ix, list)[0] != w[0] ==> w[0].owner == SYSTEM_ID)
        && RouteGain(ix.metas, w, SystemRoute(ix.data)) == 0
  {
    var ctx, w := SystemCtx(env, cells, ix), Resolved(ix.metas, list);
    SystemRan(env, cells, ix, list);
    StrictAcceptsIff(env, cells, ix, list);
    PermittedByCopy(Unchecked(env), cells, ix, list);
    NoCreationCredit(env, cells, ix, list);
    SystemSlicePermitted(ctx, ix, w);
    SystemFollows(ctx, ix.data, w);
    RouteTotal(Unchecked(env), cells, ix, list, SystemRoute(ix.data));
  }

  // --- the plain transfer ---------------------------------------------------------------------------

  function PlainTransfer(source: Pubkey, destination: Pubkey, lamports: u64): Instruction {
    Instruction(SYSTEM_ID, [Meta(source, true, true), Meta(destination, false, true)], U32Bytes(2) + U64Bytes(lamports))
  }

  lemma PlainTransferReads(source: Pubkey, destination: Pubkey, lamports: u64)
    ensures var data := PlainTransfer(source, destination, lamports).data;
      |data| == 12 && U32At(data, 0) == 2 && U64At(data[4..], 0) == lamports
  {
    var data := PlainTransfer(source, destination, lamports).data;
    assert Holds(data, 0, data);
    HoldsBoth(data, 0, U32Bytes(2), U64Bytes(lamports));
    assert Holds(data[4..], 0, U64Bytes(lamports));
    ReadU32(data, 0, 2);
    ReadU64(data[4..], 0, lamports);
  }

  /** What a plain transfer from account i to account j needs. */
  ghost predicate Transferable(env: Env, cells: Cells, list: seq<Account>, i: nat, j: nat, lamports: u64) {
    && Limit(env, cells) >= 150 && i < |list| && j < |list| && i != j
    && list[i].owner == SYSTEM_ID && lamports <= list[i].lamports
  }

  lemma PairResolved(metas: seq<Meta>, list: seq<Account>, i: nat, j: nat)
    requires Distinct(list) && i < |list| && j < |list| && |metas| == 2
    requires metas[0].pubkey == list[i].address && metas[1].pubkey == list[j].address
    ensures Resolvable(metas, list) && Resolved(metas, list) == [list[i], list[j]]
  {
    LookupAt(list, i);
    LookupAt(list, j);
  }

  /** The source signs, and both are writable. */
  lemma PairFlags(ctx: Ctx, a: Account, b: Account, lamports: u64)
    requires ctx.metas == PlainTransfer(a.address, b.address, lamports).metas && a.address != b.address
    ensures Verdicts.Signs(ctx, [a, b], 0) && Verdicts.Writes(ctx, [a, b], 0) && Verdicts.Writes(ctx, [a, b], 1)
  {
    assert ctx.metas[1..][0] == ctx.metas[1];
    assert IsSigner(ctx, a.address) && IsWritable(ctx, a.address) && IsWritable(ctx, b.address);
    Verdicts.Flags(ctx, [a, b]);
  }

  lemma TransferIsHandled(env: Env, cells: Cells, list: seq<Account>, i: nat, j: nat, lamports: u64)
    requires SystemRegistered(env) && Distinct(list) && i < |list| && j < |list| && i != j
    ensures var ix := PlainTransfer(list[i].address, list[j].address, lamports);
      && Resolvable(ix.metas, list) && Resolved(ix.metas, list) == [list[i], list[j]]
      && (System.Transfer(SystemCtx(env, cells, ix), ix.data[4..], [list[i], list[j]]).Ok?
          <==> list[i].owner == SYSTEM_ID && lamports <= list[i].lamports)
  {
    var ix := PlainTransfer(list[i].address, list[j].address, lamports);
    PairResolved(ix.metas, list, i, j);
    PlainTransferReads(list[i].address, list[j].address, lamports);
    PairFlags(SystemCtx(env, cells, ix), list[i], list[j], lamports);
    SystemVerdicts.TransferVerdict(SystemCtx(env, cells, ix), ix.data[4..], [list[i], list[j]]);
  }

  /** Without validation, the budget and the handler decide. */
  lemma HandlerDecides(env: Env, cells: Cells, ix: Instruction, list: seq<Account>)
    requires SystemRegistered(env) && ix.programId == SYSTEM_ID && Resolvable(ix.metas, list)
    ensures var d := Dispatch(Unchecked(env), cells, ix, list);
      var r := System.Invoke(SystemCtx(env, cells, ix), ix.data, Resolved(ix.metas, list));
      && (d.out.error.None? <==> Limit(env, cells) >= 150 && r.Ok?)
      && (d.out.error.None? ==> d.out.accounts == Merged(list, r.value) && d.out.consumed == 150 && d.cells == cells)
  {
  }

  lemma TransferMakes(ctx: Ctx, data: seq<byte>, a: Account, b: Account)
    requires |data| == 12 && U32At(data, 0) == 2 && System.Invoke(ctx, data, [a, b]).Ok?
    ensures U64At(data[4..], 0) <= a.lamports
    ensures var n := U64At(data[4..], 0);
      System.Invoke(ctx, data, [a, b]).value
        == [a.(lamports := a.lamports - n), b.(lamports := Verdicts.Capped(b.lamports + n))]
  {
    SystemVerdicts.TagsSelect(ctx, data, [a, b]);
    SystemVerdicts.TransferVerdict(ctx, data[4..], [a, b]);
  }

  lemma MoveStep(env: Env, cells: Cells, ix: Instruction, list: seq<Account>, i: nat, j: nat, lamports: u64)
    requires SystemRegistered(env) && ix.programId == SYSTEM_ID && Resolvable(ix.metas, list) && Distinct(list)
    requires i < |list| && j < |list| && i != j && Resolved(ix.metas, list) == [list[i], list[j]]
    requires |ix.data| == 12 && U32At(ix.data, 0) == 2 && U64At(ix.data[4..], 0) == lamports
    ensures var d := Dispatch(Unchecked(env), cells, ix, list);
      && (d.out.error.None? <==>
            Limit(env, cells) >= 150 && System.Invoke(SystemCtx(env, cells, ix), ix.data, [list[i], list[j]]).Ok?)
      && (d.out.error.None? ==>
            && d.out.consumed == 150 && d.cells == cells
            && SystemVerdicts.LeavesMoved(list, d.out.accounts, i, j, lamports))
  {
    HandlerDecides(env, cells, ix, list);
    var ctx, a, b := SystemCtx(env, cells, ix), list[i], list[j];
    if System.Invoke(ctx, ix.data, [a, b]).Ok? {
      TransferMakes(ctx, ix.data, a, b);
      MergedTransfer(list, i, j, lamports, System.Invoke(ctx, ix.data, [a, b]).value);
    }
  }

  lemma MergedTransfer(list: seq<Account>, i: nat, j: nat, lamports: u64, post: seq<Account>)
    requires Distinct(list) && i < |list| && j < |list| && i != j && lamports <= list[i].lamports
    requires post == [list[i].(lamports := list[i].lamports - lamports),
                      list[j].(lamports := Verdicts.Capped(list[j].lamports + lamports))]
    ensures SystemVerdicts.LeavesMoved(list, Merged(list, post), i, j, lamports)
  {
    PairMerged(list, i, j, post[0], post[1]);
    assert post == [post[0], post[1]];
  }

  /** Without validation it succeeds exactly when the budget covers its 150 units, the source is
      system-owned and the amount is there; every other account keeps everything. */
  lemma UncheckedTransferIff(env: Env, cells: Cells, list: seq<Account>, i: nat, j: nat, lamports: u64)
    requires SystemRegistered(env) && Distinct(list) && i < |list| && j < |list| && i != j
    ensures var d := Dispatch(Unchecked(env), cells, PlainTransfer(list[i].address, list[j].address, lamports), list);
      && (d.out.error.None? <==> Transferable(env, cells, list, i, j, lamports))
      && (d.out.error.None? ==>
            && d.out.consumed == 150 && d.cells == cells
            && SystemVerdicts.LeavesMoved(list, d.out.accounts, i, j, lamports))
  {
    var ix := PlainTransfer(list[i].address, list[j].address, lamports);
    TransferIsHandled(env, cells, list, i, j, lamports);
    PlainTransferReads(list[i].address, list[j].address, lamports);
    MoveStep(env, cells, ix, list, i, j, lamports);
    SystemVerdicts.TagsSelect(SystemCtx(env, cells, ix), ix.data, [list[i], list[j]]);
  }

  lemma PairMerged(list: seq<Account>, i: nat, j: nat, a: Account, b: Account)
    requires Distinct(list) && i < |list| && j < |list| && i != j
    requires a.address == list[i].address && b.address == list[j].address
    ensures var post := Merged(list, [a, b]); Verdicts.Only(list, post, {i, j}) && post[i] == a && post[j] == b
  {
    assert list[i] in list && list[j] in list;
    MergedIsMapUpdate(list, [a, b]);
    forall k | 0 <= k < |list|
      ensures Merged(list, [a, b])[k] == if k == j then b else if k == i then a else list[k]
    {
      LastOfPair(list[k], a, b);
    }
  }

  lemma LastOfPair(x: Account, a: Account, b: Account)
    ensures LastCopy(x, [a, b]) == if b.address == x.address then b else if a.address == x.address then a else x
  {
    assert [a, b][..1] == [a] && [a][..0] == [];
    assert LastCopy(x, [a]) == if a.address == x.address then a else LastCopy(x, []);
  }

  lemma PlainTransferPasses(env: Env, cells: Cells, list: seq<Account>, i: nat, j: nat, lamports: u64)
    requires SystemHarness(env) && Distinct(list) && i < |list| && j < |list| && i != j
    requires Succeeds(Unchecked(env), cells, PlainTransfer(list[i].address, list[j].address, lamports), list)
    ensures Succeeds(env, cells, PlainTransfer(list[i].address, list[j].address, lamports), list)
      <==> list[j].lamports + lamports <= U64_MAX
  {
    var ix := PlainTransfer(list[i].address, list[j].address, lamports);
    UncheckedTransferIff(env, cells, list, i, j, lamports);
    PlainTransferReads(list[i].address, list[j].address, lamports);
    TransferIsHandled(env, cells, list, i, j, lamports);
    SystemPassesIff(env, cells, ix, list);
    assert SystemRoute(ix.data) == Some(Route(0, 1, lamports));
    assert list[i].address != list[j].address;
    RouteHasRoom(ix.metas, [list[i], list[j]], Route(0, 1, lamports));
  }

  /** Under Strict it needs room at the destination as well, and moves exactly the amount. */
  lemma StrictTransferIff(env: Env, cells: Cells, list: seq<Account>, i: nat, j: nat, lamports: u64)
    requires SystemHarness(env) && Distinct(list) && i < |list| && j < |list| && i != j
    ensures var d := Dispatch(env, cells, PlainTransfer(list[i].address, list[j].address, lamports), list);
      && (d.out.error.None? <==>
            Transferable(env, cells, list, i, j, lamports) && list[j].lamports + lamports <= U64_MAX)
      && (d.out.error.None? ==>
            && d.out.consumed == 150 && d.cells == cells && Verdicts.Only(list, d.out.accounts, {i, j})
            && d.out.accounts[i] == list[i].(lamports := list[i].lamports - lamports)
            && d.out.accounts[j] == list[j].(lamports := list[j].lamports + lamports))
  {
    var ix := PlainTransfer(list[i].address, list[j].address, lamports);
    UncheckedTransferIff(env, cells, list, i, j, lamports);
    StrictVerdict(env, cells, ix, list);
    if Succeeds(Unchecked(env), cells, ix, list) { PlainTransferPasses(env, cells, list, i, j, lamports); }
  }
}
