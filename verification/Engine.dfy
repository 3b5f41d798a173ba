/** The built-in engine (src/engine.rs): clone the named accounts, run the built-in on the
    clones, write them back. */
module Engine {
  import opened Common
  import opened Accounts

  /** What an execution returns: the post-state list, the compute units charged, and the
      error if it failed. */
  datatype Outcome = Outcome(accounts: seq<Account>, consumed: u64, error: Option<Error>)

  /** An outcome together with the shared cells it leaves. */
  datatype Step = Step(out: Outcome, cells: Cells)

  predicate Resolvable(metas: seq<Meta>, list: seq<Account>) {
    forall m :: m in metas ==> Lookup(list, m.pubkey).Some?
  }

  /** The working clones, in meta order; a repeated meta is cloned again. */
  function Resolved(metas: seq<Meta>, list: seq<Account>): (w: seq<Account>)
    requires Resolvable(metas, list)
    ensures |w| == |metas|
    ensures forall i :: 0 <= i < |metas| ==>
      w[i].address == metas[i].pubkey && Lookup(list, metas[i].pubkey) == Some(w[i])
  {
    seq(|metas|, i requires 0 <= i < |metas| =>
      assert metas[i] in metas; Lookup(list, metas[i].pubkey).value)
  }

  function Invocation(p: Program, ix: Instruction, list: seq<Account>, sysvars: Sysvars, limit: u64, cost: u64,
                      cells: Cells): Invoked
    requires Resolvable(ix.metas, list)
  {
    p.invoke(Ctx(ix.programId, ix.metas, sysvars, limit, cost), ix.data, Resolved(ix.metas, list), cells)
  }

  /** One execution: nothing of a failed one reaches the account list. */
  function Executed(p: Program, ix: Instruction, list: seq<Account>, sysvars: Sysvars, limit: u64, defaultCost: u64,
                    cells: Cells): Step {
    var cost := p.cost(defaultCost);
    if cost > limit then
      Step(Outcome(list, cost, Some(OutOfComputeUnits)), cells)
    else if !Resolvable(ix.metas, list) then
      Step(Outcome(list, cost, Some(UnknownAccount)), cells)
    else
      var inv := Invocation(p, ix, list, sysvars, limit, cost, cells);
      if inv.error.Some? then
        Step(Outcome(list, inv.consumed, inv.error), inv.cells)
      else
        Step(Outcome(Merged(list, inv.accounts), inv.consumed, None), inv.cells)
  }

  method ResolveAccounts(metas: seq<Meta>, accounts: seq<Account>) returns (r: Result<seq<Account>>)
    ensures r.Ok? <==> Resolvable(metas, accounts)
    ensures r.Ok? ==> r.value == Resolved(metas, accounts)
    ensures r.Err? ==> r.error == UnknownAccount
  {
    var out: seq<Account> := [];
    for i := 0 to |metas|
      invariant |out| == i
      invariant forall j :: 0 <= j < i ==> Lookup(accounts, metas[j].pubkey) == Some(out[j])
    {
      var acct := Lookup(accounts, metas[i].pubkey);
      if acct.None? {
        assert metas[i] in metas;
        return Err(UnknownAccount);
      }
      out := out + [acct.value];
    }
    r := Ok(out);
  }

  /** The write-back loop. */
  method MergeAccounts(original: seq<Account>, working: seq<Account>) returns (out: seq<Account>)
    ensures out == Merged(original, working)
  {
    out := original;
    for i := 0 to |working|
      invariant out == Merged(original, working[..i])
    {
      assert working[..i + 1][..i] == working[..i];
      var slot := Find(out, working[i].address);
      if slot < |out| {
        out := out[slot := working[i]];
      } else {
        out := out + [working[i]];
      }
    }
    assert working[..|working|] == working;
  }

  /** `BuiltinEngine::execute`: reset and charge the meter, resolve, invoke, merge. */
  method Execute(p: Program, ix: Instruction, accounts: seq<Account>, limit: u64, defaultCost: u64,
                 sysvars: Sysvars, cells: Cells)
    returns (s: Step)
    ensures s == Executed(p, ix, accounts, sysvars, limit, defaultCost, cells)
  {
    var consumed: u64 := 0;
    consumed := SatAdd(consumed, p.cost(defaultCost));
    if consumed > limit {
      return Step(Outcome(accounts, consumed, Some(OutOfComputeUnits)), cells);
    }
    var resolved := ResolveAccounts(ix.metas, accounts);
    if resolved.Err? {
      return Step(Outcome(accounts, consumed, Some(resolved.error)), cells);
    }
    var working := resolved.value;
    var inv := p.invoke(Ctx(ix.programId, ix.metas, sysvars, limit, consumed), ix.data, working, cells);
    if inv.error.Some? {
      return Step(Outcome(accounts, inv.consumed, inv.error), inv.cells);
    }
    working := inv.accounts;
    var merged := MergeAccounts(accounts, working);
    s := Step(Outcome(merged, inv.consumed, None), inv.cells);
  }
}
