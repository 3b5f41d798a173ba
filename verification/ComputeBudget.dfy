/** The compute budget program (src/compute_budget_program.rs): the one bundled program that
    writes to the shared cells instead of to accounts. */
module ComputeBudget {
  import opened Common
  import opened Bytes

  const COMPUTE_BUDGET_CU: u64 := 150
  const MAX_COMPUTE_UNIT_LIMIT: u32 := 1_400_000

  function SetLimit(cells: Cells, units: u32): Result<Cells> {
    if units > MAX_COMPUTE_UNIT_LIMIT then Err(BuiltinError)
    else Ok(cells.(pendingCuLimit := Some(units)))
  }

  /** The cells after an instruction, or its error. */
  function Requested(data: seq<byte>, cells: Cells): Result<Cells> {
    if data == [] then Err(BuiltinError)
    else
      var tag, body := data[0], data[1..];
      if tag == 0 then if |body| < 8 then Err(BuiltinError) else SetLimit(cells, U32At(body, 0))
      else if tag == 1 || tag == 4 then if |body| < 4 then Err(BuiltinError) else Ok(cells)
      else if tag == 2 then if |body| < 4 then Err(BuiltinError) else SetLimit(cells, U32At(body, 0))
      else if tag == 3 then if |body| < 8 then Err(BuiltinError) else Ok(cells.(priorityFee := U64At(body, 0)))
      else Err(BuiltinError)
  }

  /** What each request needs and leaves, in offsets of the whole data: tags 0 and 2 set a limit of
      at most 1.4 million units, 3 the price, 1 and 4 nothing. */
  lemma RequestedVerdict(data: seq<byte>, cells: Cells)
    ensures var r, tag := Requested(data, cells), if data == [] then 5 else data[0];
      if tag == 0 || tag == 2 then
        if |data| >= (if tag == 0 then 9 else 5) && U32At(data, 1) <= 1_400_000
        then r == Ok(Cells(Some(U32At(data, 1)), cells.priorityFee)) else r == Err(BuiltinError)
      else if tag == 3 then
        if |data| >= 9 then r == Ok(Cells(cells.pendingCuLimit, U64At(data, 1))) else r == Err(BuiltinError)
      else if tag == 1 || tag == 4 then
        if |data| >= 5 then r == Ok(cells) else r == Err(BuiltinError)
      else
        r == Err(BuiltinError)
  {
    if |data| >= 5 { assert FieldAt(data[1..], 0, 4) == FieldAt(data, 1, 4); }
    if |data| >= 9 { assert FieldAt(data[1..], 0, 8) == FieldAt(data, 1, 8); }
  }

  function ComputeBudgetProgramSimulator(): Program {
    Program(
      (defaultCost: u64) => COMPUTE_BUDGET_CU,
      (ctx: Ctx, data: seq<byte>, w: seq<Account>, cells: Cells) =>
        match Requested(data, cells)
        case Ok(next) => Invoked(None, w, next, ctx.consumed)
        case Err(e) => Invoked(Some(e), w, cells, ctx.consumed))
  }

  lemma ComputeBudgetKeepsAddresses()
    ensures KeepsAddresses(ComputeBudgetProgramSimulator())
  {
  }

  /** The object of the source, sharing its two cells with the harness. */
  class Simulator {
    var pendingCuLimit: Option<u64>
    var priorityFee: u64

    function Shared(): Cells
      reads this
    {
      Cells(pendingCuLimit, priorityFee)
    }

    method Invoke(data: seq<byte>) returns (err: Option<Error>)
      modifies this
      ensures match Requested(data, old(Shared())) {
                case Ok(next) => err.None? && Shared() == next
                case Err(e) => err == Some(e) && Shared() == old(Shared())
              }
    {
      if data == [] { return Some(BuiltinError); }
      var tag, body := data[0], data[1..];
      match tag {
        case 0 =>
          if |body| < 8 { return Some(BuiltinError); }
          if U32At(body, 0) > MAX_COMPUTE_UNIT_LIMIT { return Some(BuiltinError); }
          pendingCuLimit := Some(U32At(body, 0));
        case 1 =>
          if |body| < 4 { return Some(BuiltinError); }
        case 2 =>
          if |body| < 4 { return Some(BuiltinError); }
          if U32At(body, 0) > MAX_COMPUTE_UNIT_LIMIT { return Some(BuiltinError); }
          pendingCuLimit := Some(U32At(body, 0));
        case 3 =>
          if |body| < 8 { return Some(BuiltinError); }
          priorityFee := U64At(body, 0);
        case 4 =>
          if |body| < 4 { return Some(BuiltinError); }
        case _ =>
          return Some(BuiltinError);
      }
      err := None;
    }
  }

  /** The instruction asks for a limit or a price other than the current one. */
  predicate AsksForOther(data: seq<byte>, cells: Cells) {
    || (|data| >= 9 && data[0] == 0 && U32At(data, 1) <= MAX_COMPUTE_UNIT_LIMIT
        && cells.pendingCuLimit != Some(U32At(data, 1)))
    || (|data| >= 5 && data[0] == 2 && U32At(data, 1) <= MAX_COMPUTE_UNIT_LIMIT
        && cells.pendingCuLimit != Some(U32At(data, 1)))
    || (|data| >= 9 && data[0] == 3 && cells.priorityFee != U64At(data, 1))
  }

  lemma RequestedChangesIff(data: seq<byte>, cells: Cells)
    ensures Requested(data, cells).Ok? && Requested(data, cells).value != cells <==> AsksForOther(data, cells)
  {
    if |data| >= 5 { assert FieldAt(data[1..], 0, 4) == FieldAt(data, 1, 4); }
    if |data| >= 9 { assert FieldAt(data[1..], 0, 8) == FieldAt(data, 1, 8); }
  }
}
