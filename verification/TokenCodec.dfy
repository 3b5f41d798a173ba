/** A codec with the record layout of SPL tokens. The token theorems hold for any lawful codec;
    this one shows that there are such codecs. */
module TokenCodec {
  import opened Common
  import opened Bytes
  import opened TokenRecord

  /** A tagged optional key. Without a key the old key bytes stay where they were. */
  function KeyOption(k: Option<Pubkey>, old_: seq<byte>): (b: seq<byte>)
    requires |old_| == 32
    ensures |b| == 36
  {
    match k
    case Some(key) => U32Bytes(1) + PubkeyBytes(key)
    case None => U32Bytes(0) + old_
  }

  function AmountOption(n: Option<u64>, old_: seq<byte>): (b: seq<byte>)
    requires |old_| == 8
    ensures |b| == 12
  {
    match n
    case Some(v) => U32Bytes(1) + U64Bytes(v)
    case None => U32Bytes(0) + old_
  }

  /** None is not a well-formed option; Some(None) is the empty one. */
  function KeyOptionAt(data: seq<byte>, off: nat): Option<Option<Pubkey>>
    requires off + 36 <= |data|
  {
    match U32At(data, off)
    case 0 => Some(None)
    case 1 => Some(Some(PubkeyAt(data, off + 4)))
    case _ => None
  }

  function AmountOptionAt(data: seq<byte>, off: nat): Option<Option<u64>>
    requires off + 12 <= |data|
  {
    match U32At(data, off)
    case 0 => Some(None)
    case 1 => Some(Some(U64At(data, off + 4)))
    case _ => None
  }

  lemma ReadKeyOption(data: seq<byte>, off: nat, k: Option<Pubkey>, old_: seq<byte>)
    requires |old_| == 32 && Holds(data, off, KeyOption(k, old_))
    ensures KeyOptionAt(data, off) == Some(k)
  {
    match k
    case Some(key) =>
      HoldsBoth(data, off, U32Bytes(1), PubkeyBytes(key));
      ReadU32(data, off, 1);
      ReadPubkey(data, off + 4, key);
    case None =>
      HoldsBoth(data, off, U32Bytes(0), old_);
      ReadU32(data, off, 0);
  }

  lemma ReadAmountOption(data: seq<byte>, off: nat, n: Option<u64>, old_: seq<byte>)
    requires |old_| == 8 && Holds(data, off, AmountOption(n, old_))
    ensures AmountOptionAt(data, off) == Some(n)
  {
    match n
    case Some(v) =>
      HoldsBoth(data, off, U32Bytes(1), U64Bytes(v));
      ReadU32(data, off, 1);
      ReadU64(data, off + 4, v);
    case None =>
      HoldsBoth(data, off, U32Bytes(0), old_);
      ReadU32(data, off, 0);
  }

  function StateByte(s: AccountState): byte {
    match s
    case Uninitialized => 0
    case Initialized => 1
    case Frozen => 2
  }

  function PackMint(m: Mint, d: seq<byte>): seq<byte> {
    if |d| != MINT_LEN then d
    else
      KeyOption(m.mintAuthority, FieldAt(d, 4, 32)) + U64Bytes(m.supply) + [m.decimals]
      + [if m.isInitialized then 1 else 0] + KeyOption(m.freezeAuthority, FieldAt(d, 50, 32))
  }

  function UnpackMint(d: seq<byte>): Option<Mint> {
    if |d| != MINT_LEN || d[45] != 1 then None
    else
      var authority, freeze := KeyOptionAt(d, 0), KeyOptionAt(d, 46);
      if authority.Some? && freeze.Some?
      then Some(Mint(authority.value, U64At(d, 36), d[44], true, freeze.value))
      else None
  }

  function PackToken(t: Token, d: seq<byte>): seq<byte> {
    if |d| != TOKEN_LEN then d
    else
      PubkeyBytes(t.mint) + PubkeyBytes(t.owner) + U64Bytes(t.amount)
      + KeyOption(t.delegate, FieldAt(d, 76, 32)) + [StateByte(t.state)] + AmountOption(t.isNative, FieldAt(d, 113, 8))
      + U64Bytes(t.delegatedAmount) + KeyOption(t.closeAuthority, FieldAt(d, 133, 32))
  }

  function UnpackToken(d: seq<byte>): Option<Token> {
    if |d| != TOKEN_LEN || !(1 <= d[108] <= 2) then None
    else
      var delegate, native, close := KeyOptionAt(d, 72), AmountOptionAt(d, 109), KeyOptionAt(d, 129);
      if delegate.Some? && native.Some? && close.Some?
      then Some(Token(
        PubkeyAt(d, 0), PubkeyAt(d, 32), U64At(d, 64), delegate.value,
        if d[108] == 1 then Initialized else Frozen, native.value, U64At(d, 121), close.value))
      else None
  }

  lemma MintRoundTrip(m: Mint, d: seq<byte>)
    requires |d| == MINT_LEN && m.isInitialized
    ensures UnpackMint(PackMint(m, d)) == Some(m)
  {
    var out := PackMint(m, d);
    var b1 := KeyOption(m.mintAuthority, FieldAt(d, 4, 32));
    var b2 := b1 + U64Bytes(m.supply);
    var b3 := b2 + [m.decimals];
    var b4 := b3 + [1];
    assert Holds(out, 0, out);
    HoldsBoth(out, 0, b4, KeyOption(m.freezeAuthority, FieldAt(d, 50, 32)));
    HoldsBoth(out, 0, b3, [1]);
    HoldsBoth(out, 0, b2, [m.decimals]);
    HoldsBoth(out, 0, b1, U64Bytes(m.supply));
    ReadKeyOption(out, 0, m.mintAuthority, FieldAt(d, 4, 32));
    ReadU64(out, 36, m.supply);
    ReadByte(out, 44, m.decimals);
    ReadByte(out, 45, 1);
    ReadKeyOption(out, 46, m.freezeAuthority, FieldAt(d, 50, 32));
  }

  /** The fields of a packed token account lie where the unpacker looks for them. */
  ghost predicate TokenFields(out: seq<byte>, t: Token, delegate: seq<byte>, native: seq<byte>, close: seq<byte>)
    requires |delegate| == 32 && |native| == 8 && |close| == 32
  {
    && Holds(out, 0, PubkeyBytes(t.mint)) && Holds(out, 32, PubkeyBytes(t.owner))
    && Holds(out, 64, U64Bytes(t.amount)) && Holds(out, 72, KeyOption(t.delegate, delegate))
    && Holds(out, 108, [StateByte(t.state)]) && Holds(out, 109, AmountOption(t.isNative, native))
    && Holds(out, 121, U64Bytes(t.delegatedAmount)) && Holds(out, 129, KeyOption(t.closeAuthority, close))
  }

  lemma PackedTokenFields(t: Token, d: seq<byte>)
    requires |d| == TOKEN_LEN
    ensures |PackToken(t, d)| == TOKEN_LEN
    ensures TokenFields(PackToken(t, d), t, FieldAt(d, 76, 32), FieldAt(d, 113, 8), FieldAt(d, 133, 32))
  {
    var out := PackToken(t, d);
    var b1 := PubkeyBytes(t.mint);
    var b2 := b1 + PubkeyBytes(t.owner);
    var b3 := b2 + U64Bytes(t.amount);
    var b4 := b3 + KeyOption(t.delegate, FieldAt(d, 76, 32));
    var b5 := b4 + [StateByte(t.state)];
    var b6 := b5 + AmountOption(t.isNative, FieldAt(d, 113, 8));
    var b7 := b6 + U64Bytes(t.delegatedAmount);
    assert Holds(out, 0, out);
    HoldsBoth(out, 0, b7, KeyOption(t.closeAuthority, FieldAt(d, 133, 32)));
    HoldsBoth(out, 0, b6, U64Bytes(t.delegatedAmount));
    HoldsBoth(out, 0, b5, AmountOption(t.isNative, FieldAt(d, 113, 8)));
    HoldsBoth(out, 0, b4, [StateByte(t.state)]);
    HoldsBoth(out, 0, b3, KeyOption(t.delegate, FieldAt(d, 76, 32)));
    HoldsBoth(out, 0, b2, U64Bytes(t.amount));
    HoldsBoth(out, 0, b1, PubkeyBytes(t.owner));
  }

  lemma FieldsUnpack(out: seq<byte>, t: Token, delegate: seq<byte>, native: seq<byte>, close: seq<byte>)
    requires |out| == TOKEN_LEN && !t.state.Uninitialized? && |delegate| == 32 && |native| == 8 && |close| == 32
    requires TokenFields(out, t, delegate, native, close)
    ensures UnpackToken(out) == Some(t)
  {
    ReadPubkey(out, 0, t.mint);
    ReadPubkey(out, 32, t.owner);
    ReadU64(out, 64, t.amount);
    ReadKeyOption(out, 72, t.delegate, delegate);
    ReadByte(out, 108, StateByte(t.state));
    ReadAmountOption(out, 109, t.isNative, native);
    ReadU64(out, 121, t.delegatedAmount);
    ReadKeyOption(out, 129, t.closeAuthority, close);
  }

  lemma TokenRoundTrip(t: Token, d: seq<byte>)
    requires |d| == TOKEN_LEN && !t.state.Uninitialized?
    ensures UnpackToken(PackToken(t, d)) == Some(t)
  {
    PackedTokenFields(t, d);
    FieldsUnpack(PackToken(t, d), t, FieldAt(d, 76, 32), FieldAt(d, 113, 8), FieldAt(d, 133, 32));
  }

  function SplLayout(): Codec {
    Codec(UnpackMint, UnpackToken, PackMint, PackToken)
  }

  /** The hypotheses of the token theorems can be met. */
  lemma SplLayoutIsLawful()
    ensures Lawful(SplLayout())
  {
    forall m: Mint, d: seq<byte> | m.isInitialized && |d| == MINT_LEN ensures UnpackMint(PackMint(m, d)) == Some(m) {
      MintRoundTrip(m, d);
    }
    forall t: Token, d: seq<byte> | !t.state.Uninitialized? && |d| == TOKEN_LEN
      ensures UnpackToken(PackToken(t, d)) == Some(t)
    {
      TokenRoundTrip(t, d);
    }
  }
}
