/** What a dry run leaves behind: never a change of the overlay, but the shared cells exactly as
    the instruction would have set them. */
module DryRuns {
  import opened Common
  import opened Bytes
  import opened Accounts
  import opened Engine
  import opened Kernel
  import opened Store
  import opened Builtins
  import opened ComputeBudget
  import Harness
  import TokenRecord

  lemma CollectedResolves(store: Overlay, ix: Instruction)
    requires Keyed(store)
    ensures Resolvable(ix.metas, Collect(store, Names([ix])))
  {
    CollectFacts(store, [ix]);
    forall m | m in ix.metas ensures Lookup(Collect(store, Names([ix])), m.pubkey).Some? {
      assert ix in [ix] && NamedBy([ix], m.pubkey);
    }
  }

  /** A compute budget instruction that fits the budget and asks for another limit or price. */
  ghost predicate ChangesCells(env: Env, cells: Cells, ix: Instruction) {
    && ix.programId in env.registry && env.registry[ix.programId] == ComputeBudgetProgramSimulator()
    && Limit(env, cells) >= COMPUTE_BUDGET_CU && AsksForOther(ix.data, cells)
  }

  /** The cells after any dispatch of the five programs. */
  lemma DispatchCells(env: Env, cells: Cells, ix: Instruction, list: seq<Account>, c: TokenRecord.Codec)
    requires ix.programId in env.registry ==> Bundled(env.registry[ix.programId], c)
    ensures Dispatch(env, cells, ix, list).cells
         == if && ix.programId in env.registry && env.registry[ix.programId] == ComputeBudgetProgramSimulator()
               && Limit(env, cells) >= COMPUTE_BUDGET_CU && Resolvable(ix.metas, list) && Requested(ix.data, cells).Ok?
            then Requested(ix.data, cells).value else cells
  {
  }

  /** The stateless dry run leaves the shared cells alone exactly unless it is such an instruction
      and every account it names is listed. */
  lemma StatelessKeepsCellsIff(env: Env, cells: Cells, ix: Instruction, list: seq<Account>, c: TokenRecord.Codec)
    requires ix.programId in env.registry ==> Bundled(env.registry[ix.programId], c)
    ensures Dispatch(env, cells, ix, list).cells == cells <==>
      !(ChangesCells(env, cells, ix) && Resolvable(ix.metas, list))
  {
    DispatchCells(env, cells, ix, list, c);
    RequestedChangesIff(ix.data, cells);
  }

  /** The dry run against the overlay, which lists every account it names, exactly unless it is
      such an instruction. */
  lemma DryRunKeepsCellsIff(env: Env, cells: Cells, store: Overlay, ix: Instruction, c: TokenRecord.Codec)
    requires Keyed(store) && (ix.programId in env.registry ==> Bundled(env.registry[ix.programId], c))
    ensures WithStore(env, cells, store, ix).cells == cells <==> !ChangesCells(env, cells, ix)
  {
    CollectedResolves(store, ix);
    StatelessKeepsCellsIff(env, cells, ix, Collect(store, Names([ix])), c);
  }

  function LimitInstruction(id: Pubkey, units: u32): Instruction {
    Instruction(id, [], [2] + U32Bytes(units))
  }

  lemma LimitInstructionRequests(id: Pubkey, units: u32, cells: Cells)
    requires units <= MAX_COMPUTE_UNIT_LIMIT
    ensures Requested(LimitInstruction(id, units).data, cells) == Ok(cells.(pendingCuLimit := Some(units)))
  {
    var data := LimitInstruction(id, units).data;
    assert data[1..] == U32Bytes(units);
    assert Holds(data[1..], 0, U32Bytes(units));
    ReadU32(data[1..], 0, units);
  }

  /** A dry run of SetComputeUnitLimit on the harness itself: the overlay is put back, the limit
      stays. */
  method SimulatedLimitStays(svm: Harness.HopperSvm, id: Pubkey, units: u32) returns (out: Outcome)
    requires id in svm.registry && svm.registry[id] == ComputeBudgetProgramSimulator()
    requires Keyed(svm.store) && units <= MAX_COMPUTE_UNIT_LIMIT
    requires Limit(svm.Environment(), svm.Shared()) >= COMPUTE_BUDGET_CU
    modifies svm`pendingCuLimit, svm`priorityFee, svm`store
    ensures svm.store == old(svm.store)
    ensures svm.Shared() == old(svm.Shared()).(pendingCuLimit := Some(units))
  {
    var ix := LimitInstruction(id, units);
    LimitInstructionRequests(id, units, svm.Shared());
    CollectedResolves(svm.store, ix);
    assert SeenIxs([], [ix]) == SeenIxs(SeenMetas(AddSeen([], id), ix.metas), [ix][1..]);
    assert SeenMetas(AddSeen([], id), ix.metas) == [id] && SeenIxs([id], [ix][1..]) == [id];
    out := svm.SimulateInstructionWithStore(ix);
  }
}
