/** The harness object (src/lib.rs): its fields, and its methods against the functions the
    theorems are about. */
module Harness {
  import opened Common
  import opened Accounts
  import opened Validation
  import opened Engine
  import opened Kernel
  import opened Runs
  import opened Store
  import opened Fees
  import opened Warp
  import opened Alt
  import AltHistory

  class HopperSvm {
    var registry: map<Pubkey, Program>
    var sysvars: Sysvars
    var schedule: Schedule
    var limit: u64
    var defaultCost: u64
    var pendingCuLimit: Option<u64>
    var priorityFee: u64
    var lamportsPerSignature: u64
    var policy: Policy
    var store: Overlay

    ghost function Environment(): Env
      reads this
    {
      Env(registry, sysvars, limit, defaultCost, policy)
    }

    function Shared(): Cells
      reads this
    {
      Cells(pendingCuLimit, priorityFee)
    }

    /** `apply_validation`: a rejected outcome is rolled back; a failed one passes through. */
    method ApplyValidation(ix: Instruction, pre: seq<Account>, outcome: Outcome) returns (out: Outcome)
      requires |ix.metas| <= MAX_LEN && |pre| <= MAX_LEN
      ensures forall cells :: Step(out, cells) == Validated(policy, ix, pre, Step(outcome, cells))
    {
      if outcome.error.Some? {
        return outcome;
      }
      var verdict := ValidatePostState(ix.programId, ix.metas, pre, outcome.accounts, policy);
      if verdict.None? {
        out := outcome;
      } else {
        out := Outcome(pre, outcome.consumed, verdict);
      }
    }

    /** `dispatch_one_inner`, without the foreign engines. */
    method DispatchOneInner(ix: Instruction, accounts: seq<Account>) returns (out: Outcome)
      requires |ix.metas| <= MAX_LEN && |accounts| <= MAX_LEN
      modifies this`pendingCuLimit, this`priorityFee
      ensures Step(out, Shared()) == Dispatch(old(Environment()), old(Shared()), ix, accounts)
    {
      var budget := limit;
      if pendingCuLimit.Some? {
        budget := pendingCuLimit.value;
      }
      if ix.programId in registry {
        var step := Execute(registry[ix.programId], ix, accounts, budget, defaultCost, sysvars, Shared());
        pendingCuLimit, priorityFee := step.cells.pendingCuLimit, step.cells.priorityFee;
        out := ApplyValidation(ix, accounts, step.out);
        return;
      }
      out := Outcome(accounts, 0, Some(UnknownProgram));
    }

    method ProcessInstruction(ix: Instruction, accounts: seq<Account>) returns (out: Outcome)
      requires |ix.metas| <= MAX_LEN && |accounts| <= MAX_LEN
      modifies this`pendingCuLimit, this`priorityFee
      ensures Step(out, Shared()) == Dispatch(old(Environment()), old(Shared()), ix, accounts)
    {
      out := DispatchOneInner(ix, accounts);
    }

    /** The stateless dry runs are the real calls: the caller's accounts are a value. */
    method SimulateInstruction(ix: Instruction, accounts: seq<Account>) returns (out: Outcome)
      requires |ix.metas| <= MAX_LEN && |accounts| <= MAX_LEN
      modifies this`pendingCuLimit, this`priorityFee
      ensures Step(out, Shared()) == Dispatch(old(Environment()), old(Shared()), ix, accounts)
    {
      out := ProcessInstruction(ix, accounts);
    }

    method SimulateInstructionChain(ixs: seq<Instruction>, accounts: seq<Account>) returns (out: Outcome)
      requires SliceSafe(Environment()) && |accounts| + MetaCount(ixs) <= MAX_LEN
      modifies this`pendingCuLimit, this`priorityFee
      ensures Step(out, Shared()) == Chain(old(Environment()), old(Shared()), ixs, accounts)
    {
      out := ProcessInstructionChain(ixs, accounts);
    }

    /** The loop both `process_instruction_chain` and `process_transaction` run over a carried
        account list. */
    method RunChain(ixs: seq<Instruction>, accounts: seq<Account>) returns (out: Outcome)
      requires SliceSafe(Environment()) && |accounts| + MetaCount(ixs) <= MAX_LEN
      modifies this`pendingCuLimit, this`priorityFee
      ensures Step(out, Shared()) == Chain(old(Environment()), old(Shared()), ixs, accounts)
    {
      ghost var env, target := Environment(), Chain(Environment(), Shared(), ixs, accounts);
      var state := accounts;
      out := Outcome(state, 0, Some(EmptyChain));
      assert ixs[0..] == ixs;
      for i := 0 to |ixs|
        invariant Environment() == env && |state| + MetaCount(ixs[i..]) <= MAX_LEN
        invariant i < |ixs| ==> Chain(env, Shared(), ixs[i..], state) == target
        invariant i == |ixs| ==> Step(out, Shared()) == target
      {
        ghost var cells := Shared();
        assert ixs[i..][0] == ixs[i] && ixs[i..][1..] == ixs[i + 1..];
        out := DispatchOneInner(ixs[i], state);
        ChainUnrolls(env, cells, ixs, i, state, Step(out, Shared()));
        state := MergeAccounts(state, out.accounts);
        if out.error.Some? {
          break;
        }
      }
    }

    method ProcessInstructionChain(ixs: seq<Instruction>, accounts: seq<Account>) returns (out: Outcome)
      requires SliceSafe(Environment()) && |accounts| + MetaCount(ixs) <= MAX_LEN
      modifies this`pendingCuLimit, this`priorityFee
      ensures Step(out, Shared()) == Chain(old(Environment()), old(Shared()), ixs, accounts)
    {
      out := RunChain(ixs, accounts);
    }

    /** `process_transaction`: the fee comes off before the first instruction. */
    method ProcessTransaction(ixs: seq<Instruction>, accounts: seq<Account>, payer: Pubkey) returns (out: Outcome,
                              fee: u64)
      requires SliceSafe(Environment()) && |accounts| + MetaCount(ixs) <= MAX_LEN && |Signers(ixs)| <= U64_MAX
      modifies this`pendingCuLimit, this`priorityFee
      ensures Receipt(out, fee, Shared())
           == Transaction(old(Environment()), old(Shared()), lamportsPerSignature, ixs, accounts, payer)
    {
      var signers := CountUniqueSigners(ixs);
      var budget := if pendingCuLimit.Some? then pendingCuLimit.value else limit;
      var total := TotalFee(lamportsPerSignature, signers, budget, priorityFee);
      var state := accounts;
      var i := Find(state, payer);
      if i == |state| {
        return Outcome(state, 0, Some(UnknownAccount)), 0;
      }
      if state[i].lamports < total {
        return Outcome(state, 0, Some(InsufficientFunds)), 0;
      }
      state := state[i := state[i].(lamports := state[i].lamports - total)];
      out := RunChain(ixs, state);
      fee := total;
    }

    // --- the overlay --------------------------------------------------------------------------

    /** The addresses the instructions name, in first-seen order. */
    method SeenNames(ixs: seq<Instruction>) returns (seen: seq<Pubkey>)
      ensures seen == Names(ixs)
    {
      seen := [];
      assert ixs[0..] == ixs;
      for i := 0 to |ixs|
        invariant SeenIxs(seen, ixs[i..]) == Names(ixs)
      {
        assert ixs[i..][0] == ixs[i] && ixs[i..][1..] == ixs[i + 1..];
        seen := AddNames(ixs[i], seen);
      }
    }

    method AddNames(ix: Instruction, before: seq<Pubkey>) returns (seen: seq<Pubkey>)
      ensures seen == SeenMetas(AddSeen(before, ix.programId), ix.metas)
    {
      seen := before;
      if ix.programId !in seen {
        seen := seen + [ix.programId];
      }
      assert ix.metas[0..] == ix.metas;
      for j := 0 to |ix.metas|
        invariant SeenMetas(seen, ix.metas[j..]) == SeenMetas(AddSeen(before, ix.programId), ix.metas)
      {
        assert ix.metas[j..][0] == ix.metas[j] && ix.metas[j..][1..] == ix.metas[j + 1..];
        if ix.metas[j].pubkey !in seen {
          seen := seen + [ix.metas[j].pubkey];
        }
      }
    }

    /** `collect_inputs`: the overlay's accounts, or empty system accounts for unknown ones. */
    method CollectInputs(ixs: seq<Instruction>) returns (inputs: seq<Account>)
      ensures inputs == Collect(store, Names(ixs))
    {
      var seen := SeenNames(ixs);
      inputs := [];
      for i := 0 to |seen|
        invariant |inputs| == i && forall j :: 0 <= j < i ==> inputs[j] == Get(store, seen[j])
      {
        inputs := inputs + [if seen[i] in store then store[seen[i]] else Account(seen[i], 0, [], SYSTEM_ID, false, 0)];
      }
    }

    /** `commit` */
    method CommitAll(accounts: seq<Account>)
      modifies this`store
      ensures store == Commit(old(store), accounts)
    {
      for i := 0 to |accounts|
        invariant store == Commit(old(store), accounts[..i])
      {
        assert accounts[..i + 1][..i] == accounts[..i];
        store := store[accounts[i].address := accounts[i]];
      }
      assert accounts[..|accounts|] == accounts;
    }

    method ProcessInstructionWithStore(ix: Instruction) returns (out: Outcome)
      requires |ix.metas| <= MAX_LEN && |Names([ix])| <= MAX_LEN
      modifies this`pendingCuLimit, this`priorityFee, this`store
      ensures StoreStep(out, Shared(), store) == WithStore(old(Environment()), old(Shared()), old(store), ix)
    {
      var inputs := CollectInputs([ix]);
      out := ProcessInstruction(ix, inputs);
      if out.error.None? {
        CommitAll(out.accounts);
      }
    }

    method ProcessInstructionChainWithStore(ixs: seq<Instruction>) returns (out: Outcome)
      requires SliceSafe(Environment()) && |Names(ixs)| + MetaCount(ixs) <= MAX_LEN
      modifies this`pendingCuLimit, this`priorityFee, this`store
      ensures StoreStep(out, Shared(), store) == ChainWithStore(old(Environment()), old(Shared()), old(store), ixs)
    {
      var inputs := CollectInputs(ixs);
      out := ProcessInstructionChain(ixs, inputs);
      if out.error.None? {
        CommitAll(out.accounts);
      }
    }

    /** The dry runs answer like the real ones and always put the overlay back; the shared
        cells keep what the instructions wrote to them. */
    method SimulateInstructionWithStore(ix: Instruction) returns (out: Outcome)
      requires |ix.metas| <= MAX_LEN && |Names([ix])| <= MAX_LEN
      modifies this`pendingCuLimit, this`priorityFee, this`store
      ensures store == old(store)
      ensures var s := WithStore(old(Environment()), old(Shared()), old(store), ix); out == s.out && Shared() == s.cells
    {
      var snapshot := store;
      out := ProcessInstructionWithStore(ix);
      store := snapshot;
    }

    method SimulateInstructionChainWithStore(ixs: seq<Instruction>) returns (out: Outcome)
      requires SliceSafe(Environment()) && |Names(ixs)| + MetaCount(ixs) <= MAX_LEN
      modifies this`pendingCuLimit, this`priorityFee, this`store
      ensures store == old(store)
      ensures var s := ChainWithStore(old(Environment()), old(Shared()), old(store), ixs);
        out == s.out && Shared() == s.cells
    {
      var snapshot := store;
      out := ProcessInstructionChainWithStore(ixs);
      store := snapshot;
    }

    // --- the clock and lookup tables ------------------------------------------------------------

    /** The epoch derivation both warps end with. */
    method DeriveEpoch(slot: u64) returns (epoch: u64)
      requires HasEpoch(schedule, slot)
      ensures epoch == EpochOf(schedule, slot)
    {
      if slot < schedule.firstNormalSlot {
        epoch := slot / 32;
      } else {
        epoch := WrapAdd(schedule.firstNormalEpoch, NormalEpochs(schedule, slot));
      }
    }

    method WarpToSlot(slot: u64)
      requires HasEpoch(schedule, slot)
      modifies this`sysvars
      ensures sysvars == old(sysvars).(clock := WarpedToSlot(schedule, old(sysvars).clock, slot))
    {
      var clock := sysvars.clock;
      var elapsedSlots: int := AsI64(SatSub(slot, clock.slot));
      clock := clock.(unixTimestamp := Clamp(clock.unixTimestamp + TruncDiv(Clamp(elapsedSlots * 400), 1000)));
      clock := clock.(slot := slot);
      var epoch := DeriveEpoch(slot);
      clock := clock.(epoch := epoch);
      sysvars := sysvars.(clock := clock);
    }

    method DeriveSlot(unixTimestamp: i64) returns (slot: u64)
      ensures slot == SlotAt(sysvars.clock, unixTimestamp)
    {
      var clock := sysvars.clock;
      var delta: int := Clamp(unixTimestamp - clock.unixTimestamp);
      var deltaMs := Clamp(delta * 1000);
      var deltaSlots := TruncDiv(deltaMs, 400);
      if deltaSlots >= 0 {
        slot := SatAdd(clock.slot, deltaSlots);
      } else {
        slot := SatSub(clock.slot, -deltaSlots);
      }
    }

    method WarpToTimestamp(unixTimestamp: i64)
      requires HasEpoch(schedule, SlotAt(sysvars.clock, unixTimestamp))
      modifies this`sysvars
      ensures sysvars == old(sysvars).(clock := WarpedToTimestamp(schedule, old(sysvars).clock, unixTimestamp))
    {
      var slot := DeriveSlot(unixTimestamp);
      var clock := sysvars.clock;
      clock := clock.(unixTimestamp := if unixTimestamp > 0 then unixTimestamp else 0);
      clock := clock.(slot := slot);
      var epoch := DeriveEpoch(slot);
      clock := clock.(epoch := epoch);
      sysvars := sysvars.(clock := clock);
    }

    method ResolveAddressTableLookup(accounts: seq<Account>, table: Pubkey, writable: seq<byte>, readonly: seq<byte>)
      returns (r: Result<Resolution>)
      ensures r == AltHistory.Resolve(accounts, table, sysvars.clock.slot, writable, readonly)
    {
      var i := Find(accounts, table);
      if i == |accounts| {
        return Err(UnknownAccount);
      }
      var meta := ReadMeta(accounts[i].data);
      if meta.None? {
        return Err(BuiltinError);
      }
      if IsCloseable(meta.value, sysvars.clock.slot) {
        return Err(BuiltinError);
      }
      r := ResolveLookup(accounts[i].data, writable, readonly);
    }
  }

  // --- list lengths, without assuming distinct addresses ------------------------------------------

  /** The metas of a chain: no more accounts than these can join its list. */
  function MetaCount(ixs: seq<Instruction>): nat {
    if ixs == [] then 0 else |ixs[0].metas| + MetaCount(ixs[1..])
  }

  /** A write-back keeps the slots it finds and adds at most one for every update whose address
      has none. */
  lemma {:induction false} MergeGrows(list: seq<Account>, updates: seq<Account>, known: nat)
    requires known <= |updates| && AllNamed(list, updates[..known])
    ensures var out := Merged(list, updates);
      && |list| <= |out| <= |list| + |updates| - known
      && forall i :: 0 <= i < |list| ==> out[i].address == list[i].address
  {
    if updates != [] {
      var n := |updates| - 1;
      assert updates[..n][..if known < n then known else n] == updates[..if known < n then known else n];
      forall u | u in updates[..if known < n then known else n] ensures Lookup(list, u.address).Some? {
        assert u in updates[..known];
      }
      MergeGrows(list, updates[..n], if known < n then known else n);
      if known > n { assert updates[n] in updates[..known]; }
      FindIn(list, Merged(list, updates[..n]), updates[n].address);
    }
  }

  lemma FindIn(list: seq<Account>, out: seq<Account>, k: Pubkey)
    requires |list| <= |out| && forall i :: 0 <= i < |list| ==> out[i].address == list[i].address
    ensures Lookup(list, k).Some? ==> Find(out, k) < |out|
  {
    if Lookup(list, k).Some? {
      assert out[Find(list, k)].address == k;
    }
  }

  /** One step and its write-back add at most as many accounts as the instruction has metas. */
  lemma StepGrows(env: Env, cells: Cells, ix: Instruction, list: seq<Account>)
    requires SliceSafe(env)
    ensures var out := Dispatch(env, cells, ix, list).out.accounts;
      |Merged(list, out)| <= |list| + |ix.metas|
  {
    var out := Dispatch(env, cells, ix, list).out.accounts;
    if Succeeds(env, cells, ix, list) {
      assert KeepsLength(env.registry[ix.programId]);
      MergeGrows(list, InvocationOf(env, cells, ix, list).accounts, 0);
    }
    forall u | u in out[..|list|] ensures Lookup(list, u.address).Some? {
      var i :| 0 <= i < |list| && out[i] == u;
      assert list[i] in list;
    }
    MergeGrows(list, out, |list|);
  }

  /** One turn of the chain loop. */
  lemma ChainUnrolls(env: Env, cells: Cells, ixs: seq<Instruction>, i: nat, state: seq<Account>, d: Step)
    requires SliceSafe(env) && i < |ixs| && d == Dispatch(env, cells, ixs[i], state)
    ensures var next := Merged(state, d.out.accounts);
      && |next| <= |state| + |ixs[i].metas|
      && Chain(env, cells, ixs[i..], state)
         == if d.out.error.Some? || i + 1 == |ixs| then d else Chain(env, d.cells, ixs[i + 1..], next)
  {
    assert ixs[i..][0] == ixs[i] && ixs[i..][1..] == ixs[i + 1..];
    StepGrows(env, cells, ixs[i], state);
  }
}
