/** Chains of instructions, and whole runs in which the clock may move between them. */
module Runs {
  import opened Common
  import opened Accounts
  import opened Validation
  import opened Engine
  import opened Kernel

  /** `process_instruction_chain`: later instructions see earlier writes, the first failure
      ends the chain, and the outcome is that of the last instruction dispatched. */
  ghost function Chain(env: Env, cells: Cells, ixs: seq<Instruction>, list: seq<Account>): Step
    decreases |ixs|
  {
    if ixs == [] then
      Step(Outcome(list, 0, Some(EmptyChain)), cells)
    else
      var d := Dispatch(env, cells, ixs[0], list);
      if d.out.error.Some? || |ixs| == 1 then d
      else Chain(env, d.cells, ixs[1..], Merged(list, d.out.accounts))
  }

  datatype State = State(env: Env, cells: Cells, list: seq<Account>)

  /** Between instructions a caller may move the clock or change any other sysvar. */
  datatype Event = Exec(ix: Instruction) | SetSysvars(sysvars: Sysvars)

  ghost function After(s: State, e: Event): State {
    match e
    case Exec(ix) =>
      var d := Dispatch(s.env, s.cells, ix, s.list);
      State(s.env, d.cells, d.out.accounts)
    case SetSysvars(sv) => s.(env := s.env.(sysvars := sv))
  }

  ghost function Run(s: State, events: seq<Event>): State
    decreases |events|
  {
    if events == [] then s else Run(After(s, events[0]), events[1..])
  }

  /** A state whose built-ins keep addresses and whose list holds every address once. */
  ghost predicate Sound(s: State) {
    WellBehaved(s.env) && Distinct(s.list)
  }

  lemma AfterSound(s: State, e: Event)
    requires Sound(s)
    ensures Sound(After(s, e)) && SameAddresses(s.list, After(s, e).list)
    ensures After(s, e).env.policy == s.env.policy && After(s, e).env.registry == s.env.registry
  {
    if e.Exec? { DispatchShape(s.env, s.cells, e.ix, s.list); }
  }

  /** Every reachable state is sound, and no run changes the order, length or addresses of the
      list, the registry or the policy. */
  lemma {:induction false} RunSound(s: State, events: seq<Event>)
    requires Sound(s)
    ensures Sound(Run(s, events)) && SameAddresses(s.list, Run(s, events).list)
    ensures Run(s, events).env.policy == s.env.policy && Run(s, events).env.registry == s.env.registry
    decreases |events|
  {
    if events != [] {
      AfterSound(s, events[0]);
      RunSound(After(s, events[0]), events[1..]);
    }
  }

  function Execs(ixs: seq<Instruction>): (events: seq<Event>)
    ensures |events| == |ixs|
  {
    if ixs == [] then [] else [Exec(ixs[0])] + Execs(ixs[1..])
  }

  /** How many instructions of a chain succeed before the first failure. */
  ghost function GoodPrefix(env: Env, cells: Cells, ixs: seq<Instruction>, list: seq<Account>): (n: nat)
    ensures n <= |ixs|
    decreases |ixs|
  {
    if ixs == [] || !Succeeds(env, cells, ixs[0], list) then 0
    else
      var d := Dispatch(env, cells, ixs[0], list);
      1 + GoodPrefix(env, d.cells, ixs[1..], d.out.accounts)
  }

  /** A chain returns the state after its longest successful prefix, and succeeds exactly
      when that prefix is the whole, non-empty chain. */
  lemma {:induction false} ChainKeepsGoodPrefix(env: Env, cells: Cells, ixs: seq<Instruction>, list: seq<Account>)
    requires WellBehaved(env) && Distinct(list)
    ensures var c, n := Chain(env, cells, ixs, list), GoodPrefix(env, cells, ixs, list);
      && c.out.accounts == Run(State(env, cells, list), Execs(ixs[..n])).list
      && (c.out.error.None? <==> n == |ixs| && ixs != [])
      && SameAddresses(list, c.out.accounts)
    decreases |ixs|
  {
    if ixs != [] {
      var d, n := Dispatch(env, cells, ixs[0], list), GoodPrefix(env, cells, ixs, list);
      DispatchShape(env, cells, ixs[0], list);
      MergedReplays(list, d.out.accounts);
      if d.out.error.None? {
        var rest := ixs[1..];
        assert ixs[..n][1..] == rest[..n - 1];
        assert Execs(ixs[..n]) == [Exec(ixs[0])] + Execs(rest[..n - 1]);
        ChainKeepsGoodPrefix(env, d.cells, rest, d.out.accounts);
      }
    }
  }

  /** The outcome of a chain is that of the last instruction it dispatched, run on the state the
      ones before it left. */
  lemma {:induction false} ChainEndsAt(env: Env, cells: Cells, ixs: seq<Instruction>, list: seq<Account>)
    requires WellBehaved(env) && Distinct(list)
    ensures ixs == [] ==> Chain(env, cells, ixs, list) == Step(Outcome(list, 0, Some(EmptyChain)), cells)
    ensures ixs != [] ==>
      var n := GoodPrefix(env, cells, ixs, list);
      var k := if n < |ixs| then n else n - 1;
      var at := Run(State(env, cells, list), Execs(ixs[..k]));
      Chain(env, cells, ixs, list) == Dispatch(env, at.cells, ixs[k], at.list)
    decreases |ixs|
  {
    if ixs != [] {
      var d, n := Dispatch(env, cells, ixs[0], list), GoodPrefix(env, cells, ixs, list);
      var k := if n < |ixs| then n else n - 1;
      DispatchShape(env, cells, ixs[0], list);
      MergedReplays(list, d.out.accounts);
      if d.out.error.None? && |ixs| > 1 {
        var rest := ixs[1..];
        ChainEndsAt(env, d.cells, rest, d.out.accounts);
        assert ixs[..k][1..] == rest[..k - 1] && ixs[k] == rest[k - 1];
        assert Execs(ixs[..k]) == [Exec(ixs[0])] + Execs(rest[..k - 1]);
      } else {
        assert k == 0 && Execs(ixs[..0]) == [];
      }
    }
  }

  // --- non-interference over runs -----------------------------------------------------------

  /** No instruction of the run belongs to the program. */
  ghost predicate NeverRuns(events: seq<Event>, program: Pubkey) {
    forall e :: e in events && e.Exec? ==> e.ix.programId != program
  }

  /** No instruction of the run is given the address as writable. */
  ghost predicate NeverWritable(events: seq<Event>, k: Pubkey) {
    forall e :: e in events && e.Exec? ==> NotWritable(e.ix.metas, k)
  }

  /** Over any Strict run of any programs, an account whose owner never runs keeps its data,
      owner and executable flag and never loses lamports, and an account never passed as
      writable keeps its whole state. */
  lemma {:induction false} StrictRunRespectsOwners(s: State, events: seq<Event>, i: nat)
    requires Sound(s) && s.env.policy == Strict && i < |s.list|
    ensures SameAddresses(s.list, Run(s, events).list)
    ensures NeverRuns(events, s.list[i].owner) && !EmptySystem(s.list[i]) ==>
      OnlyCredited(s.list[i], Run(s, events).list[i])
    ensures NeverWritable(events, s.list[i].address) ==> SameState(s.list[i], Run(s, events).list[i])
    ensures Run(s, events).list[i].executable == s.list[i].executable
    decreases |events|
  {
    if events != [] {
      var s', rest := After(s, events[0]), events[1..];
      AfterSound(s, events[0]);
      if events[0].Exec? {
        StrictStepRespectsOwners(s.env, s.cells, events[0].ix, s.list, i);
      }
      StrictRunRespectsOwners(s', rest, i);
      assert events[0] in events && forall e :: e in rest ==> e in events;
    }
  }

  /** The same for a chain, whatever instruction it stops at. */
  lemma StrictChainRespectsOwners(env: Env, cells: Cells, ixs: seq<Instruction>, list: seq<Account>, i: nat)
    requires WellBehaved(env) && env.policy == Strict && Distinct(list) && i < |list|
    ensures var post := Chain(env, cells, ixs, list).out.accounts;
      && SameAddresses(list, post)
      && ((forall ix :: ix in ixs ==> ix.programId != list[i].owner) && !EmptySystem(list[i]) ==>
          OnlyCredited(list[i], post[i]))
      && ((forall ix :: ix in ixs ==> NotWritable(ix.metas, list[i].address)) ==> SameState(list[i], post[i]))
  {
    var n := GoodPrefix(env, cells, ixs, list);
    ChainKeepsGoodPrefix(env, cells, ixs, list);
    ExecsOnly(ixs, n);
    StrictRunRespectsOwners(State(env, cells, list), Execs(ixs[..n]), i);
  }

  lemma {:induction false} ExecsOnly(ixs: seq<Instruction>, n: nat)
    requires n <= |ixs|
    ensures forall e :: e in Execs(ixs[..n]) ==> e.Exec? && e.ix in ixs
  {
    if n > 0 {
      ExecsOnly(ixs[1..], n - 1);
      assert ixs[..n][1..] == ixs[1..][..n - 1];
    }
  }

  // --- accounts that belong to one program --------------------------------------------------------

  /** Every instruction of the run belongs to the program. */
  ghost predicate OnlyRuns(events: seq<Event>, program: Pubkey) {
    forall e :: e in events && e.Exec? ==> e.ix.programId == program
  }

  /** The account at i is touched by the program alone: another one only runs under Strict and
      while the account is the program's. */
  ghost predicate Shielded(s: State, program: Pubkey, i: nat, e: Event) {
    e.Exec? && e.ix.programId != program ==> s.env.policy == Strict && i < |s.list| && s.list[i].owner == program
  }

  ghost predicate ShieldedRun(s: State, program: Pubkey, i: nat, events: seq<Event>)
    decreases |events|
  {
    events != [] ==> Shielded(s, program, i, events[0]) && ShieldedRun(After(s, events[0]), program, i, events[1..])
  }

  /** A run of the program alone shields every account. */
  lemma {:induction false} OnlyRunsShields(s: State, program: Pubkey, i: nat, events: seq<Event>)
    requires OnlyRuns(events, program)
    ensures ShieldedRun(s, program, i, events)
    decreases |events|
  {
    if events != [] {
      assert events[0] in events && forall e :: e in events[1..] ==> e in events;
      OnlyRunsShields(After(s, events[0]), program, i, events[1..]);
    }
  }
}
