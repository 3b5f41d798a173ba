/** The SPL token program (src/spl/token.rs): what its eight instructions compute. The
    spl_token crate's record packing is not part of this model: any lawful codec will do. */
module TokenRecord {
  import opened Common

  const MINT_LEN: nat := 82
  const TOKEN_LEN: nat := 165

  datatype Mint = Mint(
    mintAuthority: Option<Pubkey>,
    supply: u64,
    decimals: byte,
    isInitialized: bool,
    freezeAuthority: Option<Pubkey>)

  datatype AccountState = Uninitialized | Initialized | Frozen

  datatype Token = Token(
    mint: Pubkey,
    owner: Pubkey,
    amount: u64,
    delegate: Option<Pubkey>,
    state: AccountState,
    isNative: Option<u64>,
    delegatedAmount: u64,
    closeAuthority: Option<Pubkey>)

  /** Packing overwrites a buffer and may leave bytes of it, so it takes the old one. */
  datatype Codec = Codec(
    unpackMint: seq<byte> -> Option<Mint>,
    unpackToken: seq<byte> -> Option<Token>,
    packMint: (Mint, seq<byte>) -> seq<byte>,
    packToken: (Token, seq<byte>) -> seq<byte>)

  /** What the handlers rely on: exact sizes, only initialised records unpack, and a packed
      record unpacks to itself. */
  ghost predicate Lawful(c: Codec) {
    && (forall d: seq<byte> :: c.unpackMint(d).Some? ==> |d| == MINT_LEN && c.unpackMint(d).value.isInitialized)
    && (forall d: seq<byte> :: c.unpackToken(d).Some? ==>
          |d| == TOKEN_LEN && !c.unpackToken(d).value.state.Uninitialized?)
    && (forall m: Mint, d: seq<byte> :: m.isInitialized && |d| == MINT_LEN ==>
          c.unpackMint(c.packMint(m, d)) == Some(m))
    && (forall t: Token, d: seq<byte> :: !t.state.Uninitialized? && |d| == TOKEN_LEN ==>
          c.unpackToken(c.packToken(t, d)) == Some(t))
  }
}

module TokenProgram {
  import opened Common
  import opened Bytes
  import opened TokenRecord

  const TOKEN_INSTRUCTION_CU: u64 := 4_000

  function ReadMint(c: Codec, ctx: Ctx, a: Account): Result<Mint> {
    if a.owner != ctx.programId then Err(BuiltinError) else
    var m := c.unpackMint(a.data);
    if m.Some? then Ok(m.value) else Err(BuiltinError)
  }

  function ReadToken(c: Codec, ctx: Ctx, a: Account): Result<Token> {
    if a.owner != ctx.programId then Err(BuiltinError) else
    var t := c.unpackToken(a.data);
    if t.Some? then Ok(t.value) else Err(BuiltinError)
  }

  /** A buffer of any other length is replaced by a fresh one of the record's length. */
  function Sized(data: seq<byte>, n: nat): (r: seq<byte>)
    ensures |r| == n
  {
    if |data| == n then data else Zeroes(n)
  }

  function WriteMint(c: Codec, a: Account, m: Mint): Account {
    a.(data := c.packMint(m, Sized(a.data, MINT_LEN)))
  }

  function WriteToken(c: Codec, a: Account, t: Token): Account {
    a.(data := c.packToken(t, Sized(a.data, TOKEN_LEN)))
  }

  /** The mint record an InitializeMint body describes. */
  function MintOf(body: seq<byte>): Mint
    requires |body| >= 34
  {
    var freeze := if |body| >= 66 && body[33] == 1 then Some(PubkeyAt(body, 34)) else None;
    Mint(Some(PubkeyAt(body, 1)), 0, body[0], true, freeze)
  }

  function InitializeMint(c: Codec, ctx: Ctx, body: seq<byte>, w: seq<Account>): Result<seq<Account>> {
    if |body| < 34 then Err(BuiltinError) else
    :- HasAccounts(w, 1);
    :- RequireWritable(ctx, w[0].address);
    :- Need(|w[0].data| >= MINT_LEN, BuiltinError);
    var existing := c.unpackMint(w[0].data);
    :- Need(!(existing.Some? && existing.value.isInitialized), BuiltinError);
    Ok(w[0 := WriteMint(c, w[0], MintOf(body)).(owner := ctx.programId)])
  }

  function EmptyToken(mint: Pubkey, owner: Pubkey): Token {
    Token(mint, owner, 0, None, Initialized, None, 0, None)
  }

  function InitializeAccount(c: Codec, ctx: Ctx, w: seq<Account>): Result<seq<Account>> {
    if |w| < 3 then Err(AccountIndexOutOfBounds) else
    :- RequireWritable(ctx, w[0].address);
    var mint :- ReadMint(c, ctx, w[1]);
    :- Need(mint.isInitialized, BuiltinError);
    :- Need(|w[0].data| >= TOKEN_LEN, BuiltinError);
    var existing := c.unpackToken(w[0].data);
    :- Need(!(existing.Some? && existing.value.state.Initialized?), BuiltinError);
    Ok(w[0 := WriteToken(c, w[0], EmptyToken(w[1].address, w[2].address)).(owner := ctx.programId)])
  }

  /** The account after authority spends amount of it. The owner spends freely; a delegate
      spends its allowance and is removed with the last of it. */
  function Spent(t: Token, authority: Pubkey, amount: u64): Result<Token> {
    var allowed :- Allowance(t, authority, amount);
    :- Need(amount <= t.amount, InsufficientFunds);
    Ok(allowed.(amount := t.amount - amount))
  }

  function Allowance(t: Token, authority: Pubkey, amount: u64): Result<Token> {
    if t.owner == authority then Ok(t)
    else
      :- Need(t.delegate == Some(authority), BuiltinError);
      :- Need(amount <= t.delegatedAmount, BuiltinError);
      var left := t.delegatedAmount - amount;
      Ok(t.(delegatedAmount := left, delegate := if left == 0 then None else t.delegate))
  }

  function Transfer(c: Codec, ctx: Ctx, body: seq<byte>, w: seq<Account>): Result<seq<Account>> {
    if |body| < 8 then Err(BuiltinError) else
    var amount := U64At(body, 0);
    :- HasAccounts(w, 3);
    :- RequireWritable(ctx, w[0].address);
    :- RequireWritable(ctx, w[1].address);
    :- RequireSigner(ctx, w[2].address);
    var src :- ReadToken(c, ctx, w[0]);
    var dst :- ReadToken(c, ctx, w[1]);
    :- Need(src.state.Initialized? && dst.state.Initialized? && src.mint == dst.mint, BuiltinError);
    var spent :- Spent(src, w[2].address, amount);
    :- Need(dst.amount + amount <= U64_MAX, BuiltinError);
    Ok(w[0 := WriteToken(c, w[0], spent)][1 := WriteToken(c, w[1], dst.(amount := dst.amount + amount))])
  }

  function Approve(c: Codec, ctx: Ctx, body: seq<byte>, w: seq<Account>): Result<seq<Account>> {
    if |body| < 8 then Err(BuiltinError) else
    var amount := U64At(body, 0);
    :- HasAccounts(w, 3);
    :- RequireWritable(ctx, w[0].address);
    :- RequireSigner(ctx, w[2].address);
    var src :- ReadToken(c, ctx, w[0]);
    :- Need(src.owner == w[2].address, BuiltinError);
    Ok(w[0 := WriteToken(c, w[0], src.(delegate := Some(w[1].address), delegatedAmount := amount))])
  }

  function Revoke(c: Codec, ctx: Ctx, w: seq<Account>): Result<seq<Account>> {
    if |w| < 2 then Err(AccountIndexOutOfBounds) else
    :- RequireWritable(ctx, w[0].address);
    :- RequireSigner(ctx, w[1].address);
    var src :- ReadToken(c, ctx, w[0]);
    :- Need(src.owner == w[1].address, BuiltinError);
    Ok(w[0 := WriteToken(c, w[0], src.(delegate := None, delegatedAmount := 0))])
  }

  function MintTo(c: Codec, ctx: Ctx, body: seq<byte>, w: seq<Account>): Result<seq<Account>> {
    if |body| < 8 then Err(BuiltinError) else
    var amount := U64At(body, 0);
    :- HasAccounts(w, 3);
    :- RequireWritable(ctx, w[0].address);
    :- RequireWritable(ctx, w[1].address);
    :- RequireSigner(ctx, w[2].address);
    var mint :- ReadMint(c, ctx, w[0]);
    var dst :- ReadToken(c, ctx, w[1]);
    :- Need(dst.mint == w[0].address && mint.mintAuthority == Some(w[2].address), BuiltinError);
    :- Need(mint.supply + amount <= U64_MAX, BuiltinError);
    :- Need(dst.amount + amount <= U64_MAX, BuiltinError);
    Ok(w[0 := WriteMint(c, w[0], mint.(supply := mint.supply + amount))]
        [1 := WriteToken(c, w[1], dst.(amount := dst.amount + amount))])
  }

  function Burn(c: Codec, ctx: Ctx, body: seq<byte>, w: seq<Account>): Result<seq<Account>> {
    if |body| < 8 then Err(BuiltinError) else
    var amount := U64At(body, 0);
    :- HasAccounts(w, 3);
    :- RequireWritable(ctx, w[0].address);
    :- RequireWritable(ctx, w[1].address);
    :- RequireSigner(ctx, w[2].address);
    var src :- ReadToken(c, ctx, w[0]);
    var mint :- ReadMint(c, ctx, w[1]);
    :- Need(src.mint == w[1].address, BuiltinError);
    var spent :- Spent(src, w[2].address, amount);
    Ok(w[0 := WriteToken(c, w[0], spent)][1 := WriteMint(c, w[1], mint.(supply := SatSub(mint.supply, amount)))])
  }

  function CloseAccount(c: Codec, ctx: Ctx, w: seq<Account>): Result<seq<Account>> {
    if |w| < 3 then Err(AccountIndexOutOfBounds) else
    :- RequireWritable(ctx, w[0].address);
    :- RequireWritable(ctx, w[1].address);
    :- RequireSigner(ctx, w[2].address);
    var token :- ReadToken(c, ctx, w[0]);
    :- Need(token.amount == 0, BuiltinError);
    :- Need(token.owner == w[2].address || token.closeAuthority == Some(w[2].address), BuiltinError);
    var credited := w[1].(lamports := SatAdd(w[1].lamports, w[0].lamports));
    Ok(w[1 := credited][0 := w[0].(lamports := 0, data := Zeroes(TOKEN_LEN), owner := SYSTEM_ID)])
  }

  function Invoke(c: Codec, ctx: Ctx, data: seq<byte>, w: seq<Account>): Result<seq<Account>> {
    if data == [] then Err(BuiltinError)
    else
      var tag, body := data[0], data[1..];
      if tag == 0 then InitializeMint(c, ctx, body, w)
      else if tag == 1 then InitializeAccount(c, ctx, w)
      else if tag == 3 then Transfer(c, ctx, body, w)
      else if tag == 4 then Approve(c, ctx, body, w)
      else if tag == 5 then Revoke(c, ctx, w)
      else if tag == 7 then MintTo(c, ctx, body, w)
      else if tag == 8 then Burn(c, ctx, body, w)
      else if tag == 9 then CloseAccount(c, ctx, w)
      else Err(BuiltinError)
  }

  function SplTokenSimulator(c: Codec): Program {
    FixedCost(TOKEN_INSTRUCTION_CU, (ctx: Ctx, data: seq<byte>, w: seq<Account>) => Invoke(c, ctx, data, w))
  }
}

/** The same eight handlers as the source runs them, on a mutable slice. */
module TokenHandlers {
  import opened Common
  import opened Bytes
  import opened TokenRecord
  import P = TokenProgram

  method InitializeMint(c: Codec, ctx: Ctx, body: seq<byte>, w: array<Account>) returns (err: Option<Error>)
    modifies w
    ensures Matches(P.InitializeMint(c, ctx, body, old(w[..])), err, old(w[..]), w[..])
  {
    if |body| < 34 { return Some(BuiltinError); }
    if w.Length == 0 { return Some(AccountIndexOutOfBounds); }
    if !IsWritable(ctx, w[0].address) { return Some(AccountNotWritable); }
    var decimals, authority := body[0], PubkeyAt(body, 1);
    var freeze := None;
    if |body| >= 1 + 32 + 1 + 32 && body[33] == 1 {
      freeze := Some(PubkeyAt(body, 34));
    }
    if |w[0].data| < MINT_LEN { return Some(BuiltinError); }
    var existing := c.unpackMint(w[0].data);
    if existing.Some? && existing.value.isInitialized { return Some(BuiltinError); }
    w[0] := P.WriteMint(c, w[0], Mint(Some(authority), 0, decimals, true, freeze));
    w[0] := w[0].(owner := ctx.programId);
    err := None;
  }

  method InitializeAccount(c: Codec, ctx: Ctx, w: array<Account>) returns (err: Option<Error>)
    modifies w
    ensures Matches(P.InitializeAccount(c, ctx, old(w[..])), err, old(w[..]), w[..])
  {
    if w.Length < 3 { return Some(AccountIndexOutOfBounds); }
    if !IsWritable(ctx, w[0].address) { return Some(AccountNotWritable); }
    var mintAddress, ownerAddress := w[1].address, w[2].address;
    var mint := P.ReadMint(c, ctx, w[1]);
    if mint.Err? { return Some(mint.error); }
    if !mint.value.isInitialized { return Some(BuiltinError); }
    if |w[0].data| < TOKEN_LEN { return Some(BuiltinError); }
    var existing := c.unpackToken(w[0].data);
    if existing.Some? && existing.value.state.Initialized? { return Some(BuiltinError); }
    w[0] := P.WriteToken(c, w[0], Token(mintAddress, ownerAddress, 0, None, Initialized, None, 0, None));
    w[0] := w[0].(owner := ctx.programId);
    err := None;
  }

  /** The authority and balance checks Transfer and Burn share, on the account being spent. */
  method Spend(t: Token, authority: Pubkey, amount: u64) returns (r: Result<Token>)
    ensures r == P.Spent(t, authority, amount)
  {
    var src := t;
    if src.owner != authority {
      match src.delegate {
        case None => return Err(BuiltinError);
        case Some(delegate) =>
          if delegate != authority { return Err(BuiltinError); }
          if src.delegatedAmount < amount { return Err(BuiltinError); }
          src := src.(delegatedAmount := SatSub(src.delegatedAmount, amount));
          if src.delegatedAmount == 0 {
            src := src.(delegate := None);
          }
      }
    }
    if src.amount < amount { return Err(InsufficientFunds); }
    src := src.(amount := src.amount - amount);
    r := Ok(src);
  }

  method Transfer(c: Codec, ctx: Ctx, body: seq<byte>, w: array<Account>) returns (err: Option<Error>)
    modifies w
    ensures Matches(P.Transfer(c, ctx, body, old(w[..])), err, old(w[..]), w[..])
  {
    if |body| < 8 { return Some(BuiltinError); }
    var amount := U64At(body, 0);
    if w.Length < 3 { return Some(AccountIndexOutOfBounds); }
    var source, destination, authority := w[0].address, w[1].address, w[2].address;
    if !IsWritable(ctx, source) { return Some(AccountNotWritable); }
    if !IsWritable(ctx, destination) { return Some(AccountNotWritable); }
    if !IsSigner(ctx, authority) { return Some(AccountNotSigner); }
    var src := P.ReadToken(c, ctx, w[0]);
    if src.Err? { return Some(src.error); }
    var dst := P.ReadToken(c, ctx, w[1]);
    if dst.Err? { return Some(dst.error); }
    if !src.value.state.Initialized? { return Some(BuiltinError); }
    if !dst.value.state.Initialized? { return Some(BuiltinError); }
    if src.value.mint != dst.value.mint { return Some(BuiltinError); }
    var spent := Spend(src.value, authority, amount);
    if spent.Err? { return Some(spent.error); }
    if dst.value.amount + amount > U64_MAX { return Some(BuiltinError); }
    w[0] := P.WriteToken(c, w[0], spent.value);
    w[1] := P.WriteToken(c, w[1], dst.value.(amount := dst.value.amount + amount));
    err := None;
  }

  method Approve(c: Codec, ctx: Ctx, body: seq<byte>, w: array<Account>) returns (err: Option<Error>)
    modifies w
    ensures Matches(P.Approve(c, ctx, body, old(w[..])), err, old(w[..]), w[..])
  {
    if |body| < 8 { return Some(BuiltinError); }
    var amount := U64At(body, 0);
    if w.Length < 3 { return Some(AccountIndexOutOfBounds); }
    var delegate, owner := w[1].address, w[2].address;
    if !IsWritable(ctx, w[0].address) { return Some(AccountNotWritable); }
    if !IsSigner(ctx, owner) { return Some(AccountNotSigner); }
    var src := P.ReadToken(c, ctx, w[0]);
    if src.Err? { return Some(src.error); }
    if src.value.owner != owner { return Some(BuiltinError); }
    w[0] := P.WriteToken(c, w[0], src.value.(delegate := Some(delegate), delegatedAmount := amount));
    err := None;
  }

  method Revoke(c: Codec, ctx: Ctx, w: array<Account>) returns (err: Option<Error>)
    modifies w
    ensures Matches(P.Revoke(c, ctx, old(w[..])), err, old(w[..]), w[..])
  {
    if w.Length < 2 { return Some(AccountIndexOutOfBounds); }
    var owner := w[1].address;
    if !IsWritable(ctx, w[0].address) { return Some(AccountNotWritable); }
    if !IsSigner(ctx, owner) { return Some(AccountNotSigner); }
    var src := P.ReadToken(c, ctx, w[0]);
    if src.Err? { return Some(src.error); }
    if src.value.owner != owner { return Some(BuiltinError); }
    w[0] := P.WriteToken(c, w[0], src.value.(delegate := None, delegatedAmount := 0));
    err := None;
  }

  method MintTo(c: Codec, ctx: Ctx, body: seq<byte>, w: array<Account>) returns (err: Option<Error>)
    modifies w
    ensures Matches(P.MintTo(c, ctx, body, old(w[..])), err, old(w[..]), w[..])
  {
    if |body| < 8 { return Some(BuiltinError); }
    var amount := U64At(body, 0);
    if w.Length < 3 { return Some(AccountIndexOutOfBounds); }
    var mintAddress, destination, authority := w[0].address, w[1].address, w[2].address;
    if !IsWritable(ctx, mintAddress) { return Some(AccountNotWritable); }
    if !IsWritable(ctx, destination) { return Some(AccountNotWritable); }
    if !IsSigner(ctx, authority) { return Some(AccountNotSigner); }
    var mint := P.ReadMint(c, ctx, w[0]);
    if mint.Err? { return Some(mint.error); }
    var dst := P.ReadToken(c, ctx, w[1]);
    if dst.Err? { return Some(dst.error); }
    if dst.value.mint != mintAddress { return Some(BuiltinError); }
    if mint.value.mintAuthority.None? { return Some(BuiltinError); }
    if mint.value.mintAuthority.value != authority { return Some(BuiltinError); }
    if mint.value.supply + amount > U64_MAX { return Some(BuiltinError); }
    if dst.value.amount + amount > U64_MAX { return Some(BuiltinError); }
    w[0] := P.WriteMint(c, w[0], mint.value.(supply := mint.value.supply + amount));
    w[1] := P.WriteToken(c, w[1], dst.value.(amount := dst.value.amount + amount));
    err := None;
  }

  method Burn(c: Codec, ctx: Ctx, body: seq<byte>, w: array<Account>) returns (err: Option<Error>)
    modifies w
    ensures Matches(P.Burn(c, ctx, body, old(w[..])), err, old(w[..]), w[..])
  {
    if |body| < 8 { return Some(BuiltinError); }
    var amount := U64At(body, 0);
    if w.Length < 3 { return Some(AccountIndexOutOfBounds); }
    var source, mintAddress, authority := w[0].address, w[1].address, w[2].address;
    if !IsWritable(ctx, source) { return Some(AccountNotWritable); }
    if !IsWritable(ctx, mintAddress) { return Some(AccountNotWritable); }
    if !IsSigner(ctx, authority) { return Some(AccountNotSigner); }
    var src := P.ReadToken(c, ctx, w[0]);
    if src.Err? { return Some(src.error); }
    var mint := P.ReadMint(c, ctx, w[1]);
    if mint.Err? { return Some(mint.error); }
    if src.value.mint != mintAddress { return Some(BuiltinError); }
    var spent := Spend(src.value, authority, amount);
    if spent.Err? { return Some(spent.error); }
    w[0] := P.WriteToken(c, w[0], spent.value);
    w[1] := P.WriteMint(c, w[1], mint.value.(supply := SatSub(mint.value.supply, amount)));
    err := None;
  }

  method CloseAccount(c: Codec, ctx: Ctx, w: array<Account>) returns (err: Option<Error>)
    modifies w
    ensures Matches(P.CloseAccount(c, ctx, old(w[..])), err, old(w[..]), w[..])
  {
    if w.Length < 3 { return Some(AccountIndexOutOfBounds); }
    var account, destination, authority := w[0].address, w[1].address, w[2].address;
    if !IsWritable(ctx, account) { return Some(AccountNotWritable); }
    if !IsWritable(ctx, destination) { return Some(AccountNotWritable); }
    if !IsSigner(ctx, authority) { return Some(AccountNotSigner); }
    var token := P.ReadToken(c, ctx, w[0]);
    if token.Err? { return Some(token.error); }
    if token.value.amount != 0 { return Some(BuiltinError); }
    if token.value.owner != authority && token.value.closeAuthority != Some(authority) { return Some(BuiltinError); }
    var lamports := w[0].lamports;
    w[1] := w[1].(lamports := SatAdd(w[1].lamports, lamports));
    w[0] := w[0].(lamports := 0);
    w[0] := w[0].(data := Zeroes(TOKEN_LEN));
    w[0] := w[0].(owner := SYSTEM_ID);
    err := None;
  }

  /** `invoke`: the tag picks the handler. */
  method Invoke(c: Codec, ctx: Ctx, data: seq<byte>, w: array<Account>) returns (err: Option<Error>)
    modifies w
    ensures Matches(P.Invoke(c, ctx, data, old(w[..])), err, old(w[..]), w[..])
  {
    if data == [] { return Some(BuiltinError); }
    var tag, body := data[0], data[1..];
    match tag {
      case 0 => err := InitializeMint(c, ctx, body, w);
      case 1 => err := InitializeAccount(c, ctx, w);
      case 3 => err := Transfer(c, ctx, body, w);
      case 4 => err := Approve(c, ctx, body, w);
      case 5 => err := Revoke(c, ctx, w);
      case 7 => err := MintTo(c, ctx, body, w);
      case 8 => err := Burn(c, ctx, body, w);
      case 9 => err := CloseAccount(c, ctx, w);
      case _ => err := Some(BuiltinError);
    }
  }
}
