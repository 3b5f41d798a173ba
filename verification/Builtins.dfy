/** The five modelled programs are built-ins the kernel theorems apply to. */
module Builtins {
  import opened Common
  import opened Kernel
  import TokenRecord
  import SystemProgram
  import TokenProgram
  import StakeProgram
  import AltProgram
  import ComputeBudget
  import Ledger
  import TokenSupply
  import StakeLock
  import AltHistory

  ghost predicate Bundled(p: Program, c: TokenRecord.Codec) {
    || p == SystemProgram.TheSystemProgram()
    || p == TokenProgram.SplTokenSimulator(c)
    || p == StakeProgram.StakeProgramSimulator()
    || p == AltProgram.AltProgramSimulator()
    || p == ComputeBudget.ComputeBudgetProgramSimulator()
  }

  /** What a handler's result makes of an invocation: the slice on success, the error and the slice
      it got on failure, the cells and the charge as they were. */
  ghost predicate Answers(p: Program, cost: u64, handler: Handler) {
    && (forall d: u64 :: p.cost(d) == cost)
    && forall ctx: Ctx, data: seq<byte>, w: seq<Account>, cells: Cells ::
         var inv, r := p.invoke(ctx, data, w, cells), handler(ctx, data, w);
         && inv.cells == cells && inv.consumed == ctx.consumed
         && (r.Ok? ==> inv.error.None? && inv.accounts == r.value)
         && (r.Err? ==> inv.error == Some(r.error) && inv.accounts == w)
  }

  /** The fixed charges of the five programs, and what they answer. */
  lemma ProgramContracts(c: TokenRecord.Codec)
    ensures Answers(SystemProgram.TheSystemProgram(), 150, SystemProgram.Invoke)
    ensures Answers(TokenProgram.SplTokenSimulator(c), 4_000,
      (ctx: Ctx, data: seq<byte>, w: seq<Account>) => TokenProgram.Invoke(c, ctx, data, w))
    ensures Answers(StakeProgram.StakeProgramSimulator(), 750, StakeProgram.Invoke)
    ensures Answers(AltProgram.AltProgramSimulator(), 750, AltProgram.Invoke)
    ensures forall d: u64 :: ComputeBudget.ComputeBudgetProgramSimulator().cost(d) == 150
    ensures forall ctx: Ctx, data: seq<byte>, w: seq<Account>, cells: Cells ::
      var inv := ComputeBudget.ComputeBudgetProgramSimulator().invoke(ctx, data, w, cells);
      && inv.accounts == w && inv.consumed == ctx.consumed
      && match ComputeBudget.Requested(data, cells)
         case Ok(next) => inv.error.None? && inv.cells == next
         case Err(e) => inv.error == Some(e) && inv.cells == cells
  {
  }

  /** Any registry of them, under any ids, keeps addresses; so every theorem about well-behaved
      harnesses holds of it. */
  lemma BundledIsWellBehaved(env: Env, c: TokenRecord.Codec)
    requires forall id :: id in env.registry ==> Bundled(env.registry[id], c)
    ensures WellBehaved(env)
  {
    Ledger.SystemProgramKeepsAddresses();
    TokenSupply.SplTokenKeepsAddresses(c);
    StakeLock.StakeProgramKeepsAddresses();
    AltHistory.AltProgramKeepsAddresses();
    ComputeBudget.ComputeBudgetKeepsAddresses();
  }
}
