/** The verdict of every token instruction, requirement by requirement in the order the source
    checks them, and the slice it leaves. */
module TokenVerdicts {
  import opened Common
  import opened Bytes
  import opened TokenRecord
  import opened TokenProgram
  import opened Verdicts

  /** The record the program reads in a copy it owns. */
  function MintAt(c: Codec, ctx: Ctx, w: seq<Account>, i: nat): Option<Mint> {
    if i < |w| && w[i].owner == ctx.programId then c.unpackMint(w[i].data) else None
  }

  function TokenAt(c: Codec, ctx: Ctx, w: seq<Account>, i: nat): Option<Token> {
    if i < |w| && w[i].owner == ctx.programId then c.unpackToken(w[i].data) else None
  }

  /** A record packed over a buffer of its length, or over zeroes. */
  function Packed(c: Codec, a: Account, m: Mint): Account {
    a.(data := c.packMint(m, if |a.data| == 82 then a.data else seq(82, _ => 0)))
  }

  function PackedToken(c: Codec, a: Account, t: Token): Account {
    a.(data := c.packToken(t, if |a.data| == 165 then a.data else seq(165, _ => 0)))
  }

  predicate OwnerIs(t: Option<Token>, k: Option<Pubkey>) {
    t.Some? && Some(t.value.owner) == k
  }

  // --- initialisation -----------------------------------------------------------------------------

  /** Decimals, mint authority, an option byte and, if it is 1 and the key is there, the freeze
      authority. */
  function DescribedMint(body: seq<byte>): Mint
    requires |body| >= 34
  {
    Mint(Some(Key(body, 1)), 0, body[0], true,
      if body[33] == 1 && |body| >= 66 then Some(Key(body, 34)) else None)
  }

  lemma InitializeMintVerdict(c: Codec, ctx: Ctx, body: seq<byte>, w: seq<Account>)
    ensures var there := c.unpackMint(DataAt(w, 0));
      VerdictOf(InitializeMint(c, ctx, body, w))
      == Pass.Then(|body| >= 34, BuiltinError).Then(|w| >= 1, AccountIndexOutOfBounds)
           .Then(Writes(ctx, w, 0), AccountNotWritable).Then(|DataAt(w, 0)| >= 82, BuiltinError)
           .Then(there.None? || !there.value.isInitialized, BuiltinError)
    ensures InitializeMint(c, ctx, body, w).Ok? ==> var post := InitializeMint(c, ctx, body, w).value;
      Only(w, post, {0}) && post[0] == Packed(c, w[0], DescribedMint(body)).(owner := ctx.programId)
  {
    Flags(ctx, w);
  }

  lemma InitializeAccountVerdict(c: Codec, ctx: Ctx, w: seq<Account>)
    ensures var there := c.unpackToken(DataAt(w, 0));
      VerdictOf(InitializeAccount(c, ctx, w))
      == Pass.Then(|w| >= 3, AccountIndexOutOfBounds).Then(Writes(ctx, w, 0), AccountNotWritable)
           .Then(MintAt(c, ctx, w, 1).Some? && MintAt(c, ctx, w, 1).value.isInitialized, BuiltinError)
           .Then(|DataAt(w, 0)| >= 165, BuiltinError)
           .Then(there.None? || !there.value.state.Initialized?, BuiltinError)
    ensures InitializeAccount(c, ctx, w).Ok? ==> var post := InitializeAccount(c, ctx, w).value;
      && Only(w, post, {0})
      && post[0] == PackedToken(c, w[0], Token(w[1].address, w[2].address, 0, None, Initialized, None, 0, None))
                      .(owner := ctx.programId)
  {
    Flags(ctx, w);
  }

  // --- spending -----------------------------------------------------------------------------------

  /** The signer is the owner, or the delegate within its allowance; and the balance is there. */
  function Spending(s: Status, t: Option<Token>, signer: Option<Pubkey>, amount: u64): Status {
    s.Then(OwnerIs(t, signer) || (t.Some? && signer.Some? && t.value.delegate == signer), BuiltinError)
     .Then(OwnerIs(t, signer) || (t.Some? && amount <= t.value.delegatedAmount), BuiltinError)
     .Then(t.Some? && amount <= t.value.amount, InsufficientFunds)
  }

  /** A delegate uses up its allowance and is gone with the last of it. */
  function AfterSpending(t: Token, signer: Pubkey, amount: u64): Token
    requires amount <= t.amount
  {
    var debited := t.(amount := t.amount - amount);
    if t.owner == signer || amount > t.delegatedAmount then debited
    else
      debited.(delegatedAmount := t.delegatedAmount - amount,
               delegate := if amount == t.delegatedAmount then None else t.delegate)
  }

  lemma SpentVerdict(t: Token, signer: Pubkey, amount: u64)
    ensures VerdictOf(Spent(t, signer, amount)) == Spending(Pass, Some(t), Some(signer), amount)
    ensures Spent(t, signer, amount).Ok? ==>
      amount <= t.amount && Spent(t, signer, amount).value == AfterSpending(t, signer, amount)
  {
  }

  predicate BothLive(src: Option<Token>, dst: Option<Token>) {
    src.Some? && dst.Some? && src.value.state.Initialized? && dst.value.state.Initialized?
    && src.value.mint == dst.value.mint
  }

  lemma TransferVerdict(c: Codec, ctx: Ctx, body: seq<byte>, w: seq<Account>)
    ensures var src, dst, n := TokenAt(c, ctx, w, 0), TokenAt(c, ctx, w, 1), Num(body, 0);
      VerdictOf(Transfer(c, ctx, body, w))
      == Spending(
           Pass.Then(|body| >= 8, BuiltinError).Then(|w| >= 3, AccountIndexOutOfBounds)
             .Then(Writes(ctx, w, 0), AccountNotWritable).Then(Writes(ctx, w, 1), AccountNotWritable)
             .Then(Signs(ctx, w, 2), AccountNotSigner).Then(BothLive(src, dst), BuiltinError),
           src, KeyAt(w, 2), n).Then(dst.Some? && dst.value.amount + n <= U64_MAX, BuiltinError)
  {
    Flags(ctx, w);
  }

  lemma TransferLeaves(c: Codec, ctx: Ctx, body: seq<byte>, w: seq<Account>)
    requires Transfer(c, ctx, body, w).Ok?
    ensures var src, dst, n := TokenAt(c, ctx, w, 0), TokenAt(c, ctx, w, 1), Num(body, 0);
      var post := Transfer(c, ctx, body, w).value;
      && Only(w, post, {0, 1}) && |w| >= 3 && src.Some? && dst.Some? && n <= src.value.amount
      && dst.value.amount + n <= U64_MAX
      && post[0] == PackedToken(c, w[0], AfterSpending(src.value, w[2].address, n))
      && post[1] == PackedToken(c, w[1], dst.value.(amount := dst.value.amount + n))
  {
    SpentVerdict(TokenAt(c, ctx, w, 0).value, w[2].address, U64At(body, 0));
  }

  lemma ApproveVerdict(c: Codec, ctx: Ctx, body: seq<byte>, w: seq<Account>)
    ensures var src := TokenAt(c, ctx, w, 0);
      && VerdictOf(Approve(c, ctx, body, w))
         == Pass.Then(|body| >= 8, BuiltinError).Then(|w| >= 3, AccountIndexOutOfBounds)
              .Then(Writes(ctx, w, 0), AccountNotWritable).Then(Signs(ctx, w, 2), AccountNotSigner)
              .Then(OwnerIs(src, KeyAt(w, 2)), BuiltinError)
      && (Approve(c, ctx, body, w).Ok? ==> var post := Approve(c, ctx, body, w).value;
            && Only(w, post, {0})
            && post[0] == PackedToken(c, w[0],
                 src.value.(delegate := Some(w[1].address), delegatedAmount := Num(body, 0))))
  {
    Flags(ctx, w);
  }

  lemma RevokeVerdict(c: Codec, ctx: Ctx, w: seq<Account>)
    ensures var src := TokenAt(c, ctx, w, 0);
      && VerdictOf(Revoke(c, ctx, w))
         == Pass.Then(|w| >= 2, AccountIndexOutOfBounds)
              .Then(Writes(ctx, w, 0), AccountNotWritable).Then(Signs(ctx, w, 1), AccountNotSigner)
              .Then(OwnerIs(src, KeyAt(w, 1)), BuiltinError)
      && (Revoke(c, ctx, w).Ok? ==> var post := Revoke(c, ctx, w).value;
            Only(w, post, {0}) && post[0] == PackedToken(c, w[0], src.value.(delegate := None, delegatedAmount := 0)))
  {
    Flags(ctx, w);
  }

  // --- supply -------------------------------------------------------------------------------------

  lemma MintToVerdict(c: Codec, ctx: Ctx, body: seq<byte>, w: seq<Account>)
    ensures var m, dst, n := MintAt(c, ctx, w, 0), TokenAt(c, ctx, w, 1), Num(body, 0);
      VerdictOf(MintTo(c, ctx, body, w))
      == Pass.Then(|body| >= 8, BuiltinError).Then(|w| >= 3, AccountIndexOutOfBounds)
           .Then(Writes(ctx, w, 0), AccountNotWritable).Then(Writes(ctx, w, 1), AccountNotWritable)
           .Then(Signs(ctx, w, 2), AccountNotSigner).Then(m.Some?, BuiltinError)
           .Then(dst.Some? && Some(dst.value.mint) == KeyAt(w, 0), BuiltinError)
           .Then(m.Some? && m.value.mintAuthority.Some? && m.value.mintAuthority == KeyAt(w, 2), BuiltinError)
           .Then(m.Some? && m.value.supply + n <= U64_MAX, BuiltinError)
           .Then(dst.Some? && dst.value.amount + n <= U64_MAX, BuiltinError)
  {
    Flags(ctx, w);
  }

  lemma MintToLeaves(c: Codec, ctx: Ctx, body: seq<byte>, w: seq<Account>)
    requires MintTo(c, ctx, body, w).Ok?
    ensures var m, dst, n := MintAt(c, ctx, w, 0), TokenAt(c, ctx, w, 1), Num(body, 0);
      var post := MintTo(c, ctx, body, w).value;
      && Only(w, post, {0, 1}) && |w| >= 3 && m.Some? && dst.Some?
      && m.value.supply + n <= U64_MAX && dst.value.amount + n <= U64_MAX
      && post[0] == Packed(c, w[0], m.value.(supply := m.value.supply + n))
      && post[1] == PackedToken(c, w[1], dst.value.(amount := dst.value.amount + n))
  {
  }

  lemma BurnVerdict(c: Codec, ctx: Ctx, body: seq<byte>, w: seq<Account>)
    ensures var src, m, n := TokenAt(c, ctx, w, 0), MintAt(c, ctx, w, 1), Num(body, 0);
      VerdictOf(Burn(c, ctx, body, w))
      == Spending(
           Pass.Then(|body| >= 8, BuiltinError).Then(|w| >= 3, AccountIndexOutOfBounds)
             .Then(Writes(ctx, w, 0), AccountNotWritable).Then(Writes(ctx, w, 1), AccountNotWritable)
             .Then(Signs(ctx, w, 2), AccountNotSigner)
             .Then(src.Some? && m.Some? && Some(src.value.mint) == KeyAt(w, 1), BuiltinError),
           src, KeyAt(w, 2), n)
  {
    Flags(ctx, w);
  }

  lemma BurnLeaves(c: Codec, ctx: Ctx, body: seq<byte>, w: seq<Account>)
    requires Burn(c, ctx, body, w).Ok?
    ensures var src, m, n := TokenAt(c, ctx, w, 0), MintAt(c, ctx, w, 1), Num(body, 0);
      var post := Burn(c, ctx, body, w).value;
      && Only(w, post, {0, 1}) && |w| >= 3 && src.Some? && m.Some? && n <= src.value.amount
      && post[0] == PackedToken(c, w[0], AfterSpending(src.value, w[2].address, n))
      && post[1] == Packed(c, w[1], m.value.(supply := if n <= m.value.supply then m.value.supply - n else 0))
  {
    SpentVerdict(TokenAt(c, ctx, w, 0).value, w[2].address, U64At(body, 0));
  }

  // --- closing ------------------------------------------------------------------------------------

  lemma CloseAccountVerdict(c: Codec, ctx: Ctx, w: seq<Account>)
    ensures var t := TokenAt(c, ctx, w, 0);
      VerdictOf(CloseAccount(c, ctx, w))
      == Pass.Then(|w| >= 3, AccountIndexOutOfBounds)
           .Then(Writes(ctx, w, 0), AccountNotWritable).Then(Writes(ctx, w, 1), AccountNotWritable)
           .Then(Signs(ctx, w, 2), AccountNotSigner)
           .Then(t.Some? && t.value.amount == 0, BuiltinError)
           .Then(OwnerIs(t, KeyAt(w, 2))
                 || (t.Some? && t.value.closeAuthority.Some? && t.value.closeAuthority == KeyAt(w, 2)), BuiltinError)
    ensures CloseAccount(c, ctx, w).Ok? ==> var post := CloseAccount(c, ctx, w).value;
      && Only(w, post, {0, 1})
      && post[0] == w[0].(lamports := 0, data := seq(165, _ => 0), owner := 0)
      && post[1] == w[1].(lamports := Capped(w[1].lamports + w[0].lamports))
  {
    Flags(ctx, w);
  }

  lemma TagsSelect(c: Codec, ctx: Ctx, data: seq<byte>, w: seq<Account>)
    ensures data == [] ==> Invoke(c, ctx, data, w) == Err(BuiltinError)
    ensures data != [] ==> var body := data[1..];
      match data[0] {
        case 0 => Invoke(c, ctx, data, w) == InitializeMint(c, ctx, body, w)
        case 1 => Invoke(c, ctx, data, w) == InitializeAccount(c, ctx, w)
        case 3 => Invoke(c, ctx, data, w) == Transfer(c, ctx, body, w)
        case 4 => Invoke(c, ctx, data, w) == Approve(c, ctx, body, w)
        case 5 => Invoke(c, ctx, data, w) == Revoke(c, ctx, w)
        case 7 => Invoke(c, ctx, data, w) == MintTo(c, ctx, body, w)
        case 8 => Invoke(c, ctx, data, w) == Burn(c, ctx, body, w)
        case 9 => Invoke(c, ctx, data, w) == CloseAccount(c, ctx, w)
        case _ => Invoke(c, ctx, data, w) == Err(BuiltinError)
      }
  {
  }

  // --- the life of a mint -------------------------------------------------------------------------

  /** After an InitializeMint that names key k as authority, a MintTo on that mint by any later
      instruction is refused unless k signs as its third account, and is accepted exactly when it
      does and the rest of the slice is in order. */
  lemma MintLife(c: Codec, ctx: Ctx, body: seq<byte>, w: seq<Account>, later: Ctx, args: seq<byte>, slice: seq<Account>)
    requires Lawful(c) && InitializeMint(c, ctx, body, w).Ok? && later.programId == ctx.programId
    requires slice != [] && slice[0] == InitializeMint(c, ctx, body, w).value[0]
    ensures |body| >= 34
    ensures var k, n, dst := PubkeyAt(body, 1), Num(args, 0), TokenAt(c, later, slice, 1);
      MintTo(c, later, args, slice).Ok? <==>
        && |args| >= 8 && |slice| >= 3 && Writes(later, slice, 0) && Writes(later, slice, 1)
        && slice[2].address == k && KeySigns(later, k)
        && dst.Some? && dst.value.mint == slice[0].address && dst.value.amount + n <= U64_MAX
  {
    InitializeMintVerdict(c, ctx, body, w);
    MintToVerdict(c, later, args, slice);
    var m := DescribedMint(body);
    assert c.unpackMint(slice[0].data) == Some(m);
    assert MintAt(c, later, slice, 0) == Some(m);
    if |slice| >= 3 { FlagsOfFirstMeta(later, slice[2].address); }
  }
}
