/** Supply against balances over every run of token instructions. */
module TokenSupply {
  import opened Common
  import opened Bytes
  import opened Sums
  import opened Accounts
  import opened Kernel
  import opened TokenRecord
  import opened TokenProgram

  /** What the token program sees in an account: nothing, a live mint or a live token
      account. */
  datatype View = Neither | AMint(mint: Mint) | AToken(token: Token)

  function ViewOf(c: Codec, id: Pubkey, a: Account): View {
    if a.owner != id then Neither
    else if c.unpackMint(a.data).Some? then AMint(c.unpackMint(a.data).value)
    else if c.unpackToken(a.data).Some? then AToken(c.unpackToken(a.data).value)
    else Neither
  }

  /** The supply an account declares for mint k, and the amount of k it holds. */
  function SupplyIn(c: Codec, id: Pubkey, k: Pubkey, a: Account): u64 {
    var v := ViewOf(c, id, a);
    if v.AMint? && a.address == k then v.mint.supply else 0
  }

  function HeldIn(c: Codec, id: Pubkey, k: Pubkey, a: Account): u64 {
    var v := ViewOf(c, id, a);
    if v.AToken? && v.token.mint == k then v.token.amount else 0
  }

  function SupplyOf(c: Codec, id: Pubkey, k: Pubkey): Account -> int {
    (a: Account) => SupplyIn(c, id, k, a)
  }

  function HeldOf(c: Codec, id: Pubkey, k: Pubkey): Account -> int {
    (a: Account) => HeldIn(c, id, k, a)
  }

  /** Supply minus holdings. */
  function SlackOf(c: Codec, id: Pubkey, k: Pubkey): Account -> int {
    (a: Account) => SupplyIn(c, id, k, a) - HeldIn(c, id, k, a)
  }

  function Supply(c: Codec, id: Pubkey, k: Pubkey, list: seq<Account>): int {
    SumBy(SupplyOf(c, id, k), list)
  }

  function Held(c: Codec, id: Pubkey, k: Pubkey, list: seq<Account>): int {
    SumBy(HeldOf(c, id, k), list)
  }

  function Slack(c: Codec, id: Pubkey, k: Pubkey, list: seq<Account>): int {
    SumBy(SlackOf(c, id, k), list)
  }

  lemma {:induction false} SlackIsDifference(c: Codec, id: Pubkey, k: Pubkey, list: seq<Account>)
    ensures Slack(c, id, k, list) == Supply(c, id, k, list) - Held(c, id, k, list)
  {
    if list != [] { SlackIsDifference(c, id, k, list[1..]); }
  }

  // --- one account ----------------------------------------------------------------------------

  lemma WroteMint(c: Codec, id: Pubkey, a: Account, m: Mint)
    requires Lawful(c) && m.isInitialized
    ensures ViewOf(c, id, WriteMint(c, a, m).(owner := id)) == AMint(m)
  {
  }

  lemma WroteToken(c: Codec, id: Pubkey, a: Account, t: Token)
    requires Lawful(c) && !t.state.Uninitialized?
    ensures ViewOf(c, id, WriteToken(c, a, t).(owner := id)) == AToken(t)
  {
    var d := WriteToken(c, a, t).data;
    assert c.unpackToken(d) == Some(t);
    assert c.unpackMint(d).None?;
  }

  lemma ReadMintView(c: Codec, ctx: Ctx, a: Account)
    requires Lawful(c) && ReadMint(c, ctx, a).Ok?
    ensures a.owner == ctx.programId && ViewOf(c, ctx.programId, a) == AMint(ReadMint(c, ctx, a).value)
    ensures ReadMint(c, ctx, a).value.isInitialized
  {
  }

  lemma ReadTokenView(c: Codec, ctx: Ctx, a: Account)
    requires Lawful(c) && ReadToken(c, ctx, a).Ok?
    ensures a.owner == ctx.programId && ViewOf(c, ctx.programId, a) == AToken(ReadToken(c, ctx, a).value)
    ensures !ReadToken(c, ctx, a).value.state.Uninitialized?
  {
    assert c.unpackToken(a.data).Some? && |a.data| == TOKEN_LEN;
    assert c.unpackMint(a.data).None?;
  }

  // --- one slice ------------------------------------------------------------------------------

  /** What a handler does to the views of its slice: copies 0 and 1 become v0 and v1, and no
      other view changes. */
  datatype Effect = Effect(v0: View, v1: View)

  ghost predicate HasEffect(c: Codec, id: Pubkey, w: seq<Account>, post: seq<Account>, e: Effect) {
    && SameAddresses(w, post) && |w| > 0
    && ViewOf(c, id, post[0]) == e.v0
    && (|w| > 1 ==> ViewOf(c, id, post[1]) == e.v1)
    && forall j :: 2 <= j < |w| ==> post[j] == w[j]
  }

  /** The view of copy 1, if there is one. */
  function SecondView(c: Codec, id: Pubkey, w: seq<Account>): View {
    if |w| > 1 then ViewOf(c, id, w[1]) else Neither
  }

  lemma InitializeMintEffect(c: Codec, ctx: Ctx, body: seq<byte>, w: seq<Account>)
    requires Lawful(c) && InitializeMint(c, ctx, body, w).Ok?
    ensures !ViewOf(c, ctx.programId, w[0]).AMint?
    ensures HasEffect(c, ctx.programId, w, InitializeMint(c, ctx, body, w).value,
      Effect(AMint(MintOf(body)), SecondView(c, ctx.programId, w)))
    ensures |body| >= 34 && var m := MintOf(body);
      && m.decimals == body[0] && m.mintAuthority == Some(PubkeyAt(body, 1)) && m.supply == 0 && m.isInitialized
      && (m.freezeAuthority.Some? <==> |body| >= 66 && body[33] == 1)
      && (m.freezeAuthority.Some? ==> m.freezeAuthority.value == PubkeyAt(body, 34))
  {
    WroteMint(c, ctx.programId, w[0], MintOf(body));
  }

  lemma InitializeAccountEffect(c: Codec, ctx: Ctx, w: seq<Account>)
    requires Lawful(c) && InitializeAccount(c, ctx, w).Ok?
    ensures !ViewOf(c, ctx.programId, w[0]).AMint? && ViewOf(c, ctx.programId, w[1]).AMint?
    ensures HasEffect(c, ctx.programId, w, InitializeAccount(c, ctx, w).value,
      Effect(AToken(EmptyToken(w[1].address, w[2].address)), SecondView(c, ctx.programId, w)))
    ensures var t := EmptyToken(w[1].address, w[2].address);
      && t.mint == w[1].address && t.owner == w[2].address && t.amount == 0 && t.state.Initialized?
      && t.delegate.None? && t.delegatedAmount == 0 && t.closeAuthority.None? && t.isNative.None?
  {
    WroteToken(c, ctx.programId, w[0], EmptyToken(w[1].address, w[2].address));
  }

  lemma SpentFacts(t: Token, authority: Pubkey, amount: u64)
    requires Spent(t, authority, amount).Ok?
    ensures var s := Spent(t, authority, amount).value;
      && s.mint == t.mint && s.state == t.state && s.owner == t.owner
      && amount <= t.amount && s.amount == t.amount - amount
  {
  }

  lemma TransferEffect(c: Codec, ctx: Ctx, body: seq<byte>, w: seq<Account>)
    requires Lawful(c) && Transfer(c, ctx, body, w).Ok?
    ensures |body| >= 8 && ReadToken(c, ctx, w[0]).Ok? && ReadToken(c, ctx, w[1]).Ok?
    ensures var id, amount := ctx.programId, U64At(body, 0);
      var src, dst := ReadToken(c, ctx, w[0]).value, ReadToken(c, ctx, w[1]).value;
      && ViewOf(c, id, w[0]) == AToken(src) && ViewOf(c, id, w[1]) == AToken(dst)
      && src.mint == dst.mint && dst.amount + amount <= U64_MAX && Spent(src, w[2].address, amount).Ok?
      && HasEffect(c, id, w, Transfer(c, ctx, body, w).value,
           Effect(AToken(Spent(src, w[2].address, amount).value), AToken(dst.(amount := dst.amount + amount))))
  {
    var src, dst, amount := ReadToken(c, ctx, w[0]).value, ReadToken(c, ctx, w[1]).value, U64At(body, 0);
    ReadTokenView(c, ctx, w[0]);
    ReadTokenView(c, ctx, w[1]);
    SpentFacts(src, w[2].address, amount);
    WroteToken(c, ctx.programId, w[0], Spent(src, w[2].address, amount).value);
    WroteToken(c, ctx.programId, w[1], dst.(amount := dst.amount + amount));
  }

  lemma ApproveEffect(c: Codec, ctx: Ctx, body: seq<byte>, w: seq<Account>)
    requires Lawful(c) && Approve(c, ctx, body, w).Ok?
    ensures |body| >= 8 && ReadToken(c, ctx, w[0]).Ok?
    ensures var id, src := ctx.programId, ReadToken(c, ctx, w[0]).value;
      && ViewOf(c, id, w[0]) == AToken(src)
      && HasEffect(c, id, w, Approve(c, ctx, body, w).value,
           Effect(AToken(src.(delegate := Some(w[1].address), delegatedAmount := U64At(body, 0))),
             SecondView(c, id, w)))
  {
    var src := ReadToken(c, ctx, w[0]).value;
    ReadTokenView(c, ctx, w[0]);
    WroteToken(c, ctx.programId, w[0], src.(delegate := Some(w[1].address), delegatedAmount := U64At(body, 0)));
  }

  lemma RevokeEffect(c: Codec, ctx: Ctx, w: seq<Account>)
    requires Lawful(c) && Revoke(c, ctx, w).Ok?
    ensures ReadToken(c, ctx, w[0]).Ok?
    ensures var id, src := ctx.programId, ReadToken(c, ctx, w[0]).value;
      && ViewOf(c, id, w[0]) == AToken(src)
      && HasEffect(c, id, w, Revoke(c, ctx, w).value,
           Effect(AToken(src.(delegate := None, delegatedAmount := 0)), SecondView(c, id, w)))
  {
    var src := ReadToken(c, ctx, w[0]).value;
    ReadTokenView(c, ctx, w[0]);
    WroteToken(c, ctx.programId, w[0], src.(delegate := None, delegatedAmount := 0));
  }

  lemma MintToEffect(c: Codec, ctx: Ctx, body: seq<byte>, w: seq<Account>)
    requires Lawful(c) && MintTo(c, ctx, body, w).Ok?
    ensures |body| >= 8 && ReadMint(c, ctx, w[0]).Ok? && ReadToken(c, ctx, w[1]).Ok?
    ensures var id, amount := ctx.programId, U64At(body, 0);
      var m, dst := ReadMint(c, ctx, w[0]).value, ReadToken(c, ctx, w[1]).value;
      && ViewOf(c, id, w[0]) == AMint(m) && ViewOf(c, id, w[1]) == AToken(dst) && dst.mint == w[0].address
      && m.supply + amount <= U64_MAX && dst.amount + amount <= U64_MAX
      && HasEffect(c, id, w, MintTo(c, ctx, body, w).value,
           Effect(AMint(m.(supply := m.supply + amount)), AToken(dst.(amount := dst.amount + amount))))
  {
    var m, dst, amount := ReadMint(c, ctx, w[0]).value, ReadToken(c, ctx, w[1]).value, U64At(body, 0);
    ReadMintView(c, ctx, w[0]);
    ReadTokenView(c, ctx, w[1]);
    WroteMint(c, ctx.programId, w[0], m.(supply := m.supply + amount));
    WroteToken(c, ctx.programId, w[1], dst.(amount := dst.amount + amount));
  }

  lemma BurnEffect(c: Codec, ctx: Ctx, body: seq<byte>, w: seq<Account>)
    requires Lawful(c) && Burn(c, ctx, body, w).Ok?
    ensures |body| >= 8 && ReadToken(c, ctx, w[0]).Ok? && ReadMint(c, ctx, w[1]).Ok?
    ensures var id, amount := ctx.programId, U64At(body, 0);
      var src, m := ReadToken(c, ctx, w[0]).value, ReadMint(c, ctx, w[1]).value;
      && ViewOf(c, id, w[0]) == AToken(src) && ViewOf(c, id, w[1]) == AMint(m) && src.mint == w[1].address
      && Spent(src, w[2].address, amount).Ok?
      && HasEffect(c, id, w, Burn(c, ctx, body, w).value,
           Effect(AToken(Spent(src, w[2].address, amount).value), AMint(m.(supply := SatSub(m.supply, amount)))))
  {
    var src, m, amount := ReadToken(c, ctx, w[0]).value, ReadMint(c, ctx, w[1]).value, U64At(body, 0);
    ReadTokenView(c, ctx, w[0]);
    ReadMintView(c, ctx, w[1]);
    SpentFacts(src, w[2].address, amount);
    WroteToken(c, ctx.programId, w[0], Spent(src, w[2].address, amount).value);
    WroteMint(c, ctx.programId, w[1], m.(supply := SatSub(m.supply, amount)));
  }

  lemma CloseAccountEffect(c: Codec, ctx: Ctx, w: seq<Account>)
    requires Lawful(c) && CloseAccount(c, ctx, w).Ok? && ctx.programId != SYSTEM_ID
    ensures ReadToken(c, ctx, w[0]).Ok? && ReadToken(c, ctx, w[0]).value.amount == 0
    ensures ViewOf(c, ctx.programId, w[0]) == AToken(ReadToken(c, ctx, w[0]).value)
    ensures HasEffect(c, ctx.programId, w, CloseAccount(c, ctx, w).value,
      Effect(Neither, SecondView(c, ctx.programId, w)))
  {
    ReadTokenView(c, ctx, w[0]);
  }

  /** What a view contributes to the slack of mint k. */
  function SlackOfView(v: View, address: Pubkey, k: Pubkey): int {
    (if v.AMint? && address == k then v.mint.supply else 0)
    - (if v.AToken? && v.token.mint == k then v.token.amount else 0)
  }

  /** The amount of mint k that an initialisation wipes out by writing over a live token
      account. */
  function Overwritten(c: Codec, id: Pubkey, k: Pubkey, data: seq<byte>, first: Account): u64 {
    if data != [] && data[0] <= 1 then HeldIn(c, id, k, first) else 0
  }

  /** The three instructions that move an amount between the first two accounts. */
  predicate IsMove(data: seq<byte>) {
    |data| >= 9 && data[0] in {3, 7, 8}
  }

  function MoveAmount(data: seq<byte>): u64
    requires IsMove(data)
  {
    U64At(data[1..], 0)
  }

  /** The amount of mint k such an instruction moves: the mint is that of the token account it
      credits, or for a burn that of the one it debits. */
  function Moves(c: Codec, id: Pubkey, k: Pubkey, data: seq<byte>, w: seq<Account>): int {
    if !IsMove(data) || |w| < 2 then 0
    else
      var v := ViewOf(c, id, if data[0] == 8 then w[0] else w[1]);
      if v.AToken? && v.token.mint == k then MoveAmount(data) else 0
  }

  /** A burn of no more than the supply: the saturating subtraction is exact. */
  ghost predicate BurnFits(c: Codec, ctx: Ctx, data: seq<byte>, w: seq<Account>) {
    data != [] && data[0] == 8 && Invoke(c, ctx, data, w).Ok? ==>
      |data| >= 9 && ReadMint(c, ctx, w[1]).Ok? && U64At(data[1..], 0) <= ReadMint(c, ctx, w[1]).value.supply
  }

  /** What a handler does to the slack of mint k, copy by copy: the first gains what is moved or
      overwritten, the second loses what is moved, and no other changes. */
  ghost predicate SlackByCopy(c: Codec, id: Pubkey, k: Pubkey, data: seq<byte>, w: seq<Account>, post: seq<Account>) {
    var f := SlackOf(c, id, k);
    && |w| > 0 && |post| == |w|
    && CopyChange(f, w, post, 0) == Moves(c, id, k, data, w) + Overwritten(c, id, k, data, w[0])
    && CopyChange(f, w, post, 1) == -Moves(c, id, k, data, w)
    && forall j :: 2 <= j < |w| ==> post[j] == w[j]
  }

  lemma EffectByCopy(c: Codec, id: Pubkey, k: Pubkey, w: seq<Account>, post: seq<Account>, e: Effect)
    requires HasEffect(c, id, w, post, e)
    ensures var f := SlackOf(c, id, k);
      && CopyChange(f, w, post, 0)
         == SlackOfView(e.v0, w[0].address, k) - SlackOfView(ViewOf(c, id, w[0]), w[0].address, k)
      && (|w| > 1 ==>
            CopyChange(f, w, post, 1)
            == SlackOfView(e.v1, w[1].address, k) - SlackOfView(ViewOf(c, id, w[1]), w[1].address, k))
  {
  }

  lemma MovesByCopy(c: Codec, ctx: Ctx, data: seq<byte>, w: seq<Account>, k: Pubkey)
    requires Lawful(c) && Invoke(c, ctx, data, w).Ok? && data[0] in {3, 7, 8}
    requires BurnFits(c, ctx, data, w)
    ensures IsMove(data) && |w| > 2
    ensures SlackByCopy(c, ctx.programId, k, data, w, Invoke(c, ctx, data, w).value)
  {
    var id, body, post := ctx.programId, data[1..], Invoke(c, ctx, data, w).value;
    var amount := if |body| >= 8 then U64At(body, 0) else 0;
    if data[0] == 3 {
      TransferEffect(c, ctx, body, w);
      var src, dst := ReadToken(c, ctx, w[0]).value, ReadToken(c, ctx, w[1]).value;
      SpentFacts(src, w[2].address, amount);
      EffectByCopy(c, id, k, w, post,
        Effect(AToken(Spent(src, w[2].address, amount).value), AToken(dst.(amount := dst.amount + amount))));
    } else if data[0] == 7 {
      MintToEffect(c, ctx, body, w);
      var m, dst := ReadMint(c, ctx, w[0]).value, ReadToken(c, ctx, w[1]).value;
      EffectByCopy(c, id, k, w, post,
        Effect(AMint(m.(supply := m.supply + amount)), AToken(dst.(amount := dst.amount + amount))));
    } else {
      BurnEffect(c, ctx, body, w);
      var src, m := ReadToken(c, ctx, w[0]).value, ReadMint(c, ctx, w[1]).value;
      SpentFacts(src, w[2].address, amount);
      EffectByCopy(c, id, k, w, post,
        Effect(AToken(Spent(src, w[2].address, amount).value), AMint(m.(supply := SatSub(m.supply, amount)))));
    }
  }

  lemma RewritesByCopy(c: Codec, ctx: Ctx, data: seq<byte>, w: seq<Account>, k: Pubkey)
    requires Lawful(c) && ctx.programId != SYSTEM_ID && Invoke(c, ctx, data, w).Ok? && data[0] !in {3, 7, 8}
    ensures SlackByCopy(c, ctx.programId, k, data, w, Invoke(c, ctx, data, w).value)
  {
    var id, body, post := ctx.programId, data[1..], Invoke(c, ctx, data, w).value;
    var second := SecondView(c, id, w);
    if data[0] == 0 {
      InitializeMintEffect(c, ctx, body, w);
      EffectByCopy(c, id, k, w, post, Effect(AMint(MintOf(body)), second));
    } else if data[0] == 1 {
      InitializeAccountEffect(c, ctx, w);
      EffectByCopy(c, id, k, w, post, Effect(AToken(EmptyToken(w[1].address, w[2].address)), second));
    } else if data[0] == 4 {
      ApproveEffect(c, ctx, body, w);
      var src := ReadToken(c, ctx, w[0]).value;
      EffectByCopy(c, id, k, w, post,
        Effect(AToken(src.(delegate := Some(w[1].address), delegatedAmount := U64At(body, 0))), second));
    } else if data[0] == 5 {
      RevokeEffect(c, ctx, w);
      EffectByCopy(c, id, k, w, post,
        Effect(AToken(ReadToken(c, ctx, w[0]).value.(delegate := None, delegatedAmount := 0)), second));
    } else {
      CloseAccountEffect(c, ctx, w);
      EffectByCopy(c, id, k, w, post, Effect(Neither, second));
    }
  }

  lemma InvokeByCopy(c: Codec, ctx: Ctx, data: seq<byte>, w: seq<Account>, k: Pubkey)
    requires Lawful(c) && ctx.programId != SYSTEM_ID && Invoke(c, ctx, data, w).Ok? && BurnFits(c, ctx, data, w)
    ensures SlackByCopy(c, ctx.programId, k, data, w, Invoke(c, ctx, data, w).value)
  {
    if data[0] in {3, 7, 8} {
      MovesByCopy(c, ctx, data, w, k);
    } else {
      RewritesByCopy(c, ctx, data, w, k);
    }
  }

  /** Within a slice every handler moves supply and holdings of every mint together, but for
      what an initialisation overwrites. */
  lemma InvokeSlack(c: Codec, ctx: Ctx, data: seq<byte>, w: seq<Account>, k: Pubkey)
    requires Lawful(c) && ctx.programId != SYSTEM_ID && Invoke(c, ctx, data, w).Ok? && BurnFits(c, ctx, data, w)
    ensures |w| > 0 && SameAddresses(w, Invoke(c, ctx, data, w).value)
    ensures Slack(c, ctx.programId, k, Invoke(c, ctx, data, w).value)
         == Slack(c, ctx.programId, k, w) + Overwritten(c, ctx.programId, k, data, w[0])
  {
    InvokeKeepsAddresses(c, ctx, data, w);
    InvokeByCopy(c, ctx, data, w, k);
    SliceSlack(c, ctx.programId, k, data, w, Invoke(c, ctx, data, w).value);
  }

  lemma SliceSlack(c: Codec, id: Pubkey, k: Pubkey, data: seq<byte>, w: seq<Account>, post: seq<Account>)
    requires SlackByCopy(c, id, k, data, w, post)
    ensures Slack(c, id, k, post) == Slack(c, id, k, w) + Overwritten(c, id, k, data, w[0])
  {
    var f, mid := SlackOf(c, id, k), w[0 := post[0]];
    SumByUpdate(f, w, 0, post[0]);
    if |w| > 1 {
      SumByUpdate(f, mid, 1, post[1]);
      assert post == mid[1 := post[1]];
    } else {
      assert post == mid;
    }
  }

  lemma InvokeKeepsAddresses(c: Codec, ctx: Ctx, data: seq<byte>, w: seq<Account>)
    requires Invoke(c, ctx, data, w).Ok?
    ensures |w| > 0 && SameAddresses(w, Invoke(c, ctx, data, w).value)
  {
    var body := data[1..];
    if data[0] == 0 { assert InitializeMint(c, ctx, body, w).Ok?; }
    else if data[0] == 1 { assert InitializeAccount(c, ctx, w).Ok?; }
    else if data[0] == 3 { assert Transfer(c, ctx, body, w).Ok?; }
    else if data[0] == 4 { assert Approve(c, ctx, body, w).Ok?; }
    else if data[0] == 5 { assert Revoke(c, ctx, w).Ok?; }
    else if data[0] == 7 { assert MintTo(c, ctx, body, w).Ok?; }
    else if data[0] == 8 { assert Burn(c, ctx, body, w).Ok?; }
    else { assert CloseAccount(c, ctx, w).Ok?; }
  }

  lemma SplTokenKeepsAddresses(c: Codec)
    ensures KeepsAddresses(SplTokenSimulator(c))
  {
    forall ctx: Ctx, data: seq<byte>, w: seq<Account>, cells: Cells
      ensures SameAddresses(w, SplTokenSimulator(c).invoke(ctx, data, w, cells).accounts)
    {
      if Invoke(c, ctx, data, w).Ok? { InvokeKeepsAddresses(c, ctx, data, w); }
    }
  }

  // --- one list -------------------------------------------------------------------------------

  /** Every mint's supply covers what is held of it. */
  ghost predicate Backed(c: Codec, id: Pubkey, list: seq<Account>) {
    forall k: Pubkey :: Held(c, id, k, list) <= Supply(c, id, k, list)
  }

  /** With distinct addresses the supply of k is what the account at k declares. */
  lemma {:induction false} SupplyIsDeclared(c: Codec, id: Pubkey, k: Pubkey, list: seq<Account>)
    requires Distinct(list)
    ensures Supply(c, id, k, list)
         == if Lookup(list, k).Some? then SupplyIn(c, id, k, Lookup(list, k).value) else 0
  {
    if list != [] {
      assert Supply(c, id, k, list) == SupplyIn(c, id, k, list[0]) + Supply(c, id, k, list[1..]);
      if list[0].address == k {
        forall a | a in list[1..] ensures SupplyOf(c, id, k)(a) == 0 {
          assert a.address != k;
        }
        SumByZero(SupplyOf(c, id, k), list[1..]);
      } else {
        SupplyIsDeclared(c, id, k, list[1..]);
        FindTail(list, k);
      }
    }
  }

  /** In a backed list two different accounts never hold more of a mint than it declares. */
  lemma BackedPair(c: Codec, id: Pubkey, k: Pubkey, list: seq<Account>, p: Account, q: Account)
    requires Distinct(list) && Backed(c, id, list)
    requires Lookup(list, p.address) == Some(p) && Lookup(list, q.address) == Some(q) && p.address != q.address
    ensures HeldIn(c, id, k, p) + HeldIn(c, id, k, q)
         <= if Lookup(list, k).Some? then SupplyIn(c, id, k, Lookup(list, k).value) else 0
  {
    var i, j := Find(list, p.address), Find(list, q.address);
    var f := HeldOf(c, id, k);
    assert forall a: Account :: f(a) == HeldIn(c, id, k, a);
    if i < j { SumByAtLeastTwo(f, list, i, j); } else { SumByAtLeastTwo(f, list, j, i); }
    SupplyIsDeclared(c, id, k, list);
    assert Held(c, id, k, list) <= Supply(c, id, k, list);
  }

  // --- the overflow arms that never run ---------------------------------------------------------

  /** Working copies of the accounts of a backed list; an account may have several. */
  ghost predicate BackedSlice(c: Codec, ctx: Ctx, list: seq<Account>, w: seq<Account>) {
    && Distinct(list) && Backed(c, ctx.programId, list)
    && forall a :: a in w ==> Lookup(list, a.address) == Some(a)
  }

  /** Transfer: a destination other than the source cannot overflow. */
  lemma TransferNeverOverflows(c: Codec, ctx: Ctx, list: seq<Account>, w: seq<Account>, amount: u64)
    requires Lawful(c) && BackedSlice(c, ctx, list, w) && |w| >= 2 && w[0].address != w[1].address
    requires ReadToken(c, ctx, w[0]).Ok? && ReadToken(c, ctx, w[1]).Ok?
    requires ReadToken(c, ctx, w[0]).value.mint == ReadToken(c, ctx, w[1]).value.mint
    requires amount <= ReadToken(c, ctx, w[0]).value.amount
    ensures ReadToken(c, ctx, w[1]).value.amount + amount <= U64_MAX
  {
    ReadTokenView(c, ctx, w[0]);
    ReadTokenView(c, ctx, w[1]);
    BackedPair(c, ctx.programId, ReadToken(c, ctx, w[0]).value.mint, list, w[0], w[1]);
  }

  /** MintTo: once the supply check has passed, the destination cannot overflow. */
  lemma MintToNeverOverflows(c: Codec, ctx: Ctx, list: seq<Account>, w: seq<Account>, amount: u64)
    requires Lawful(c) && BackedSlice(c, ctx, list, w) && |w| >= 2
    requires ReadMint(c, ctx, w[0]).Ok? && ReadToken(c, ctx, w[1]).Ok?
    requires ReadToken(c, ctx, w[1]).value.mint == w[0].address
    requires ReadMint(c, ctx, w[0]).value.supply + amount <= U64_MAX
    ensures ReadToken(c, ctx, w[1]).value.amount + amount <= U64_MAX
  {
    ReadMintView(c, ctx, w[0]);
    ReadTokenView(c, ctx, w[1]);
    BackedPair(c, ctx.programId, w[0].address, list, w[0], w[1]);
  }

  /** Burn: an amount the account holds is within the supply, so the subtraction is exact. */
  lemma BurnNeverSaturates(c: Codec, ctx: Ctx, list: seq<Account>, w: seq<Account>, amount: u64)
    requires Lawful(c) && BackedSlice(c, ctx, list, w) && |w| >= 2
    requires ReadToken(c, ctx, w[0]).Ok? && ReadMint(c, ctx, w[1]).Ok?
    requires ReadToken(c, ctx, w[0]).value.mint == w[1].address
    requires amount <= ReadToken(c, ctx, w[0]).value.amount
    ensures SatSub(ReadMint(c, ctx, w[1]).value.supply, amount) == ReadMint(c, ctx, w[1]).value.supply - amount
  {
    ReadTokenView(c, ctx, w[0]);
    ReadMintView(c, ctx, w[1]);
    BackedPair(c, ctx.programId, w[1].address, list, w[0], w[1]);
  }
}
