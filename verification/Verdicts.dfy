/** The words the verdicts of the handlers are stated in: what a caller can read off an
    instruction's data, its metas and the working copies. */
module Verdicts {
  import opened Common
  import opened Bytes

  function VerdictOf<T>(r: Result<T>): Status {
    match r
    case Ok(_) => Pass
    case Err(e) => Fail(e)
  }

  /** The copy exists, and the first meta that names its key has the flag. */
  ghost predicate Signs(ctx: Ctx, w: seq<Account>, i: nat) {
    i < |w| && exists j :: FirstNaming(ctx.metas, j, w[i].address) && ctx.metas[j].signer
  }

  ghost predicate Writes(ctx: Ctx, w: seq<Account>, i: nat) {
    i < |w| && exists j :: FirstNaming(ctx.metas, j, w[i].address) && ctx.metas[j].writable
  }

  ghost predicate KeySigns(ctx: Ctx, k: Pubkey) {
    exists j :: FirstNaming(ctx.metas, j, k) && ctx.metas[j].signer
  }

  predicate FirstNaming(metas: seq<Meta>, j: int, k: Pubkey) {
    0 <= j < |metas| && metas[j].pubkey == k && forall i :: 0 <= i < j ==> metas[i].pubkey != k
  }

  lemma {:induction false} FirstMetaIsFirst(metas: seq<Meta>, k: Pubkey) returns (j: nat)
    requires FirstMeta(metas, k).Some?
    ensures FirstNaming(metas, j, k) && FirstMeta(metas, k) == Some(metas[j])
  {
    if metas[0].pubkey == k {
      j := 0;
    } else {
      j := FirstMetaIsFirst(metas[1..], k);
      j := j + 1;
    }
  }

  /** The flags a handler sees of a key are those of the first meta that names it. */
  lemma FlagsOfFirstMeta(ctx: Ctx, k: Pubkey)
    ensures IsSigner(ctx, k) <==> KeySigns(ctx, k)
    ensures IsWritable(ctx, k) <==> exists j :: FirstNaming(ctx.metas, j, k) && ctx.metas[j].writable
  {
    if FirstMeta(ctx.metas, k).Some? {
      var i := FirstMetaIsFirst(ctx.metas, k);
      assert forall j :: FirstNaming(ctx.metas, j, k) ==> j == i;
    }
  }

  lemma Flags(ctx: Ctx, w: seq<Account>)
    ensures forall i :: 0 <= i < |w| ==> (Signs(ctx, w, i) <==> IsSigner(ctx, w[i].address))
    ensures forall i :: 0 <= i < |w| ==> (Writes(ctx, w, i) <==> IsWritable(ctx, w[i].address))
  {
    forall i | 0 <= i < |w|
      ensures Signs(ctx, w, i) <==> IsSigner(ctx, w[i].address)
      ensures Writes(ctx, w, i) <==> IsWritable(ctx, w[i].address)
    {
      FlagsOfFirstMeta(ctx, w[i].address);
    }
  }

  /** A field of the data, or zero where the data ends before it. */
  function Num(data: seq<byte>, off: nat): u64 {
    if off + 8 <= |data| then U64At(data, off) else 0
  }

  function Key(data: seq<byte>, off: nat): Pubkey {
    if off + 32 <= |data| then PubkeyAt(data, off) else 0
  }

  predicate Covers(w: seq<Account>, i: nat, lamports: nat) {
    i < |w| && lamports <= w[i].lamports
  }

  predicate IsEmptyAt(w: seq<Account>, i: nat) {
    i < |w| && w[i].lamports == 0 && w[i].data == []
  }

  function DataAt(w: seq<Account>, i: nat): seq<byte> {
    if i < |w| then w[i].data else []
  }

  function KeyAt(w: seq<Account>, i: nat): Option<Pubkey> {
    if i < |w| then Some(w[i].address) else None
  }

  /** Of the slice, only the copies at these positions changed. */
  ghost predicate Only(w: seq<Account>, post: seq<Account>, changed: set<nat>) {
    |post| == |w| && forall j: nat :: j < |w| && j !in changed ==> post[j] == w[j]
  }

  function Capped(n: nat): u64 {
    if n <= U64_MAX then n else U64_MAX
  }
}
