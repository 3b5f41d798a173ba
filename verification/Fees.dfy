/** Transaction fees (src/fees.rs) and the fee-charging transaction. */
module Fees {
  import opened Common
  import opened Sums
  import opened Accounts
  import opened Engine
  import opened Kernel
  import opened Runs

  /** The distinct keys that sign anywhere in a transaction. */
  ghost function Signers(ixs: seq<Instruction>): set<Pubkey> {
    set ix, m | ix in ixs && m in ix.metas && m.signer :: m.pubkey
  }

  function BaseFee(lamportsPerSignature: u64, signers: u64): u64 {
    SatMul(lamportsPerSignature, signers)
  }

  function PriorityFee(computeUnitLimit: u64, microLamportsPerCu: u64): u64 {
    SatMul(computeUnitLimit, microLamportsPerCu) / 1_000_000
  }

  function TotalFee(lamportsPerSignature: u64, signers: u64, computeUnitLimit: u64, microLamportsPerCu: u64): u64 {
    SatAdd(BaseFee(lamportsPerSignature, signers), PriorityFee(computeUnitLimit, microLamportsPerCu))
  }

  ghost function SignersIn(metas: seq<Meta>): set<Pubkey> {
    set m | m in metas && m.signer :: m.pubkey
  }

  lemma SignersSnoc(ixs: seq<Instruction>, i: nat)
    requires i < |ixs|
    ensures Signers(ixs[..i + 1]) == Signers(ixs[..i]) + SignersIn(ixs[i].metas)
  {
    assert ixs[..i + 1] == ixs[..i] + [ixs[i]];
  }

  lemma SignersInSnoc(metas: seq<Meta>, j: nat)
    requires j < |metas|
    ensures SignersIn(metas[..j + 1]) == SignersIn(metas[..j]) + if metas[j].signer then {metas[j].pubkey} else {}
  {
    assert metas[..j + 1] == metas[..j] + [metas[j]];
  }

  /** The list holds every key of the set once. */
  ghost predicate Lists(seen: seq<Pubkey>, keys: set<Pubkey>) {
    |seen| == |keys| && forall k :: k in seen <==> k in keys
  }

  /** `count_unique_signers` counts the set of signers: a key that signs twice counts once. */
  method CountUniqueSigners(ixs: seq<Instruction>) returns (count: nat)
    ensures count == |Signers(ixs)|
  {
    var seen: seq<Pubkey> := [];
    for i := 0 to |ixs|
      invariant Lists(seen, Signers(ixs[..i]))
    {
      SignersSnoc(ixs, i);
      seen := AddSigners(ixs[i].metas, seen, Signers(ixs[..i]));
    }
    assert ixs[..|ixs|] == ixs;
    count := |seen|;
  }

  lemma ListsNext(seen: seq<Pubkey>, keys: set<Pubkey>, m: Meta)
    requires Lists(seen, keys)
    ensures Lists(if m.signer && m.pubkey !in seen then seen + [m.pubkey] else seen,
                  keys + if m.signer then {m.pubkey} else {})
  {
    if m.signer && m.pubkey in seen { assert keys + {m.pubkey} == keys; }
  }

  lemma SignersNext(keys: set<Pubkey>, metas: seq<Meta>, j: nat)
    requires j < |metas|
    ensures keys + SignersIn(metas[..j + 1])
         == keys + SignersIn(metas[..j]) + if metas[j].signer then {metas[j].pubkey} else {}
  {
    SignersInSnoc(metas, j);
  }

  /** The inner loop over one instruction's metas. */
  method AddSigners(metas: seq<Meta>, before: seq<Pubkey>, ghost keys: set<Pubkey>) returns (seen: seq<Pubkey>)
    requires Lists(before, keys)
    ensures Lists(seen, keys + SignersIn(metas))
  {
    seen := before;
    ghost var sofar := keys;
    assert sofar == keys + SignersIn(metas[..0]);
    for j := 0 to |metas|
      invariant sofar == keys + SignersIn(metas[..j])
      invariant Lists(seen, sofar)
    {
      var m := metas[j];
      ListsNext(seen, sofar, m);
      SignersNext(keys, metas, j);
      sofar := sofar + if m.signer then {m.pubkey} else {};
      if m.signer && m.pubkey !in seen {
        seen := seen + [m.pubkey];
      }
    }
    assert metas[..|metas|] == metas;
  }

  /** A transaction's outcome, the fee it reports and the cells it leaves. */
  datatype Receipt = Receipt(out: Outcome, fee: u64, cells: Cells)

  function Charged(list: seq<Account>, payer: Pubkey, fee: u64): seq<Account>
    requires Lookup(list, payer).Some? && fee <= Lookup(list, payer).value.lamports
  {
    var i := Find(list, payer);
    list[i := list[i].(lamports := list[i].lamports - fee)]
  }

  ghost function FeeOf(env: Env, cells: Cells, lamportsPerSignature: u64, ixs: seq<Instruction>): u64
    requires |Signers(ixs)| <= U64_MAX
  {
    TotalFee(lamportsPerSignature, |Signers(ixs)|, Limit(env, cells), cells.priorityFee)
  }

  /** `process_transaction`: charge the payer up front, then run the chain. */
  ghost function Transaction(env: Env, cells: Cells, lamportsPerSignature: u64, ixs: seq<Instruction>,
                             list: seq<Account>, payer: Pubkey): Receipt
    requires |Signers(ixs)| <= U64_MAX
  {
    var fee := FeeOf(env, cells, lamportsPerSignature, ixs);
    var account := Lookup(list, payer);
    if account.None? then Receipt(Outcome(list, 0, Some(UnknownAccount)), 0, cells)
    else if account.value.lamports < fee then Receipt(Outcome(list, 0, Some(InsufficientFunds)), 0, cells)
    else
      var c := Chain(env, cells, ixs, Charged(list, payer, fee));
      Receipt(c.out, fee, c.cells)
  }

  lemma ChargedFacts(list: seq<Account>, payer: Pubkey, fee: u64)
    requires Distinct(list) && Lookup(list, payer).Some? && fee <= Lookup(list, payer).value.lamports
    ensures Distinct(Charged(list, payer, fee)) && SameAddresses(list, Charged(list, payer, fee))
    ensures SumBy(Lamports(), Charged(list, payer, fee)) == SumBy(Lamports(), list) - fee
  {
    var i := Find(list, payer);
    SumByUpdate(Lamports(), list, i, list[i].(lamports := list[i].lamports - fee));
  }

  /** When the payer can pay, the fee is charged exactly once: the returned list is the run of
      the longest successful prefix over the fee-debited input, and a failing instruction adds
      nothing. Otherwise nothing is charged and nothing changes. */
  lemma FeeChargedOnce(env: Env, cells: Cells, lamportsPerSignature: u64, ixs: seq<Instruction>, list: seq<Account>,
                       payer: Pubkey)
    requires WellBehaved(env) && Distinct(list) && |Signers(ixs)| <= U64_MAX
    ensures var r := Transaction(env, cells, lamportsPerSignature, ixs, list, payer);
      var fee := FeeOf(env, cells, lamportsPerSignature, ixs);
      var payable := Lookup(list, payer).Some? && fee <= Lookup(list, payer).value.lamports;
      && (!payable ==> r.out.accounts == list && r.fee == 0 && r.out.error.Some?)
      && (payable ==>
            var charged := Charged(list, payer, fee);
            var n := GoodPrefix(env, cells, ixs, charged);
            && r.fee == fee
            && SumBy(Lamports(), charged) == SumBy(Lamports(), list) - fee
            && r.out.accounts == Run(State(env, cells, charged), Execs(ixs[..n])).list
            && (r.out.error.None? <==> n == |ixs| && ixs != []))
  {
    var fee := FeeOf(env, cells, lamportsPerSignature, ixs);
    if Lookup(list, payer).Some? && fee <= Lookup(list, payer).value.lamports {
      ChargedFacts(list, payer, fee);
      ChainKeepsGoodPrefix(env, cells, ixs, Charged(list, payer, fee));
    }
  }

  // --- the amount ---------------------------------------------------------------------------------

  /** q micro-priced lamports, rounded down. */
  predicate Quotient(q: nat, product: nat) {
    q * 1_000_000 <= product < (q + 1) * 1_000_000
  }

  /** The compute-unit limit of a transaction: a pending one if there is one, the budget's
      otherwise. */
  function BudgetOf(env: Env, cells: Cells): u64 {
    match cells.pendingCuLimit
    case Some(units) => units
    case None => env.limit
  }

  /** What a transaction would cost without any cap: so much for every distinct signer, and the
      price of the whole compute budget in lamports, rounded down. */
  ghost predicate Costs(env: Env, cells: Cells, lamportsPerSignature: u64, ixs: seq<Instruction>, base: nat,
                       priority: nat) {
    && base == lamportsPerSignature * |Signers(ixs)|
    && Quotient(priority, BudgetOf(env, cells) * cells.priorityFee)
  }

  lemma PriorityQuotient(a: u64, b: u64)
    requires a * b <= U64_MAX
    ensures Quotient(PriorityFee(a, b), a * b)
  {
    Rounded(a * b);
  }

  lemma Rounded(n: nat)
    ensures Quotient(n / 1_000_000, n)
  {
  }

  lemma QuotientUnique(p: nat, q: nat, n: nat)
    requires Quotient(p, n) && Quotient(q, n)
    ensures p == q
  {
  }

  /** Neither product passes 64 bits: the reported fee of a payable transaction is the sum of the
      two parts, or the largest amount if that passes 64 bits; the payer is charged exactly it. */
  lemma FeeAmount(env: Env, cells: Cells, lamportsPerSignature: u64, ixs: seq<Instruction>, base: nat, priority: nat)
    requires |Signers(ixs)| <= U64_MAX && Costs(env, cells, lamportsPerSignature, ixs, base, priority)
    ensures base <= U64_MAX && BudgetOf(env, cells) * cells.priorityFee <= U64_MAX ==>
      FeeOf(env, cells, lamportsPerSignature, ixs) == if base + priority <= U64_MAX then base + priority else U64_MAX
    ensures base > U64_MAX ==> FeeOf(env, cells, lamportsPerSignature, ixs) == U64_MAX
    ensures base <= U64_MAX && BudgetOf(env, cells) * cells.priorityFee > U64_MAX ==>
      FeeOf(env, cells, lamportsPerSignature, ixs)
        == if base + 18_446_744_073_709 <= U64_MAX then base + 18_446_744_073_709 else U64_MAX
  {
    var units, price := BudgetOf(env, cells), cells.priorityFee;
    assert Limit(env, cells) == units;
    if units * price <= U64_MAX {
      PriorityQuotient(units, price);
      QuotientUnique(priority, PriorityFee(units, price), units * price);
    }
  }

  /** At the transaction: what it reports and takes from the payer, in lamports. */
  lemma TransactionAmount(env: Env, cells: Cells, lamportsPerSignature: u64, ixs: seq<Instruction>,
                          list: seq<Account>, payer: Pubkey, i: nat, base: nat, priority: nat)
    requires |Signers(ixs)| <= U64_MAX && Costs(env, cells, lamportsPerSignature, ixs, base, priority)
    requires Distinct(list) && i < |list| && list[i].address == payer
    requires base + priority <= U64_MAX && BudgetOf(env, cells) * cells.priorityFee <= U64_MAX
    ensures var r := Transaction(env, cells, lamportsPerSignature, ixs, list, payer);
      && (list[i].lamports < base + priority ==>
            r == Receipt(Outcome(list, 0, Some(InsufficientFunds)), 0, cells))
      && (base + priority <= list[i].lamports ==>
            && r.fee == base + priority
            && var charged := list[i := list[i].(lamports := list[i].lamports - (base + priority))];
               var c := Chain(env, cells, ixs, charged); r.out == c.out && r.cells == c.cells)
  {
    FeeAmount(env, cells, lamportsPerSignature, ixs, base, priority);
    LookupAt(list, i);
  }

  /** Nobody is charged for a payer the list does not hold. */
  lemma UnknownPayer(env: Env, cells: Cells, lamportsPerSignature: u64, ixs: seq<Instruction>, list: seq<Account>,
                     payer: Pubkey)
    requires |Signers(ixs)| <= U64_MAX && forall a :: a in list ==> a.address != payer
    ensures Transaction(env, cells, lamportsPerSignature, ixs, list, payer)
      == Receipt(Outcome(list, 0, Some(UnknownAccount)), 0, cells)
  {
  }
}
