/** Who may take lamports out of an account through the system program, and how a durable nonce
    behaves. */
module SystemRules {
  import opened Common
  import opened Bytes
  import opened NonceRecord
  import opened SystemProgram
  import Ledger

  /** The signature each debiting instruction asks for: the account's own key, the authority
      stored in a nonce account, or the base its address is derived from. */
  ghost predicate DebitAllowed(ctx: Ctx, data: seq<byte>, w: seq<Account>) {
    |data| >= 4 && |w| > 0 &&
    var tag, body := U32At(data, 0), data[4..];
    if tag == 5 then
      |w| >= 5 && IsSigner(ctx, w[4].address) && ReadNonce(w[0].data).Ok?
      && (ReadNonce(w[0].data).value.initialized ==> ReadNonce(w[0].data).value.authority == w[4].address)
    else if tag == 10 then
      |w| >= 3 && IsSigner(ctx, w[1].address) &&
      exists seed, owner :: ctx.sysvars.oracles.createWithSeed(w[1].address, seed, owner) == Some(w[0].address)
    else
      tag in {0, 2, 3} && IsSigner(ctx, w[0].address)
  }

  /** Only the first copy ever loses lamports, and only with that signature. */
  lemma DebitsNeedAuthority(ctx: Ctx, data: seq<byte>, w: seq<Account>, j: nat)
    requires Invoke(ctx, data, w).Ok? && j < |w|
    ensures |Invoke(ctx, data, w).value| == |w|
    ensures Invoke(ctx, data, w).value[j].lamports < w[j].lamports ==>
      j == 0 && DebitAllowed(ctx, data, w) && IsWritable(ctx, w[0].address)
  {
    var tag, body := U32At(data, 0), data[4..];
    if tag in {0, 3} { CreateDebits(ctx, data, w); }
    else if tag == 2 { TransferDebits(ctx, data, w); }
    else if tag == 5 { WithdrawDebits(ctx, data, w); }
    else if tag == 10 { SeedDebits(ctx, data, w); }
    else { NoDebits(ctx, data, w); }
  }

  /** Only the first copy loses lamports. */
  ghost predicate DebitsFirst(w: seq<Account>, post: seq<Account>) {
    |post| == |w| && |w| > 0 && forall j :: 0 < j < |w| ==> post[j].lamports >= w[j].lamports
  }

  lemma CreateDebits(ctx: Ctx, data: seq<byte>, w: seq<Account>)
    requires Invoke(ctx, data, w).Ok? && U32At(data, 0) in {0, 3}
    ensures DebitsFirst(w, Invoke(ctx, data, w).value) && DebitAllowed(ctx, data, w) && IsWritable(ctx, w[0].address)
  {
    if U32At(data, 0) == 0 {
      assert CreateAccount(ctx, data[4..], w).Ok?;
    } else {
      assert CreateAccountWithSeed(ctx, data[4..], w).Ok?;
    }
  }

  lemma TransferDebits(ctx: Ctx, data: seq<byte>, w: seq<Account>)
    requires Invoke(ctx, data, w).Ok? && U32At(data, 0) == 2
    ensures DebitsFirst(w, Invoke(ctx, data, w).value) && DebitAllowed(ctx, data, w) && IsWritable(ctx, w[0].address)
  {
  }

  lemma WithdrawDebits(ctx: Ctx, data: seq<byte>, w: seq<Account>)
    requires Invoke(ctx, data, w).Ok? && U32At(data, 0) == 5
    ensures DebitsFirst(w, Invoke(ctx, data, w).value) && DebitAllowed(ctx, data, w) && IsWritable(ctx, w[0].address)
  {
    assert WithdrawNonce(ctx, data[4..], w).Ok?;
  }

  lemma SeedDebits(ctx: Ctx, data: seq<byte>, w: seq<Account>)
    requires Invoke(ctx, data, w).Ok? && U32At(data, 0) == 10
    ensures DebitsFirst(w, Invoke(ctx, data, w).value) && DebitAllowed(ctx, data, w) && IsWritable(ctx, w[0].address)
  {
    var body := data[4..];
    assert TransferWithSeed(ctx, body, w).Ok?;
    var seed := SeedAt(ctx, body, 8, 32).value;
    assert ctx.sysvars.oracles.createWithSeed(w[1].address, seed, PubkeyAt(body, 16 + |seed|)) == Some(w[0].address);
  }

  lemma NoDebits(ctx: Ctx, data: seq<byte>, w: seq<Account>)
    requires Invoke(ctx, data, w).Ok? && U32At(data, 0) !in {0, 2, 3, 5, 10}
    ensures var post := Invoke(ctx, data, w).value;
      |post| == |w| && forall j :: 0 <= j < |w| ==> post[j].lamports == w[j].lamports
  {
    Ledger.RewritesFirst(ctx, data, w);
  }

  /** The account's address is derived from a base that signs. */
  ghost predicate BaseSigns(ctx: Ctx, a: Account) {
    exists base, seed, owner ::
      IsSigner(ctx, base) && ctx.sysvars.oracles.createWithSeed(base, seed, owner) == Some(a.address)
  }

  /** Who may change an account's owner: the account's own key or the base it is derived from,
      which a CreateAccount asks of an account without lamports or data; and, with no signature at
      all, an InitializeNonce, which takes any buffer of 80 bytes that holds no nonce yet. */
  ghost predicate OwnerChangeAllowed(ctx: Ctx, data: seq<byte>, w: seq<Account>, j: nat)
    requires j < |w|
  {
    |data| >= 4 && IsWritable(ctx, w[j].address) &&
    var tag := U32At(data, 0);
    if tag == 0 || tag == 3 then
      && j == 1 && w[1].lamports == 0 && w[1].data == [] && IsSigner(ctx, w[0].address)
      && if tag == 0 then IsSigner(ctx, w[1].address) else BaseSigns(ctx, w[1])
    else if tag == 9 then
      j == 0 && BaseSigns(ctx, w[0])
    else if tag == 6 then
      j == 0 && ReadNonce(w[0].data).Ok? && !ReadNonce(w[0].data).value.initialized
    else
      tag == 1 && j == 0 && IsSigner(ctx, w[0].address)
  }

  lemma OwnerChangesNeedAuthority(ctx: Ctx, data: seq<byte>, w: seq<Account>, j: nat)
    requires Invoke(ctx, data, w).Ok? && j < |w|
    ensures |Invoke(ctx, data, w).value| == |w|
    ensures Invoke(ctx, data, w).value[j].owner != w[j].owner ==> OwnerChangeAllowed(ctx, data, w, j)
  {
    var tag, body := U32At(data, 0), data[4..];
    Ledger.InvokeIsFrugal(ctx, data, w);
    if tag in {0, 3} { CreateOwners(ctx, data, w); }
    else if tag == 9 { SeedOwners(ctx, data, w); }
    else if tag in {2, 5, 10} { MovesKeepOwners(ctx, data, w); }
    else { RewriteOwners(ctx, data, w); }
  }

  lemma CreateOwners(ctx: Ctx, data: seq<byte>, w: seq<Account>)
    requires Invoke(ctx, data, w).Ok? && U32At(data, 0) in {0, 3}
    ensures |w| >= 2 && OwnerChangeAllowed(ctx, data, w, 1)
    ensures var post := Invoke(ctx, data, w).value;
      |post| == |w| && forall j :: 0 <= j < |w| && j != 1 ==> post[j].owner == w[j].owner
  {
    if U32At(data, 0) == 0 {
      assert CreateAccount(ctx, data[4..], w).Ok?;
    } else {
      var body := data[4..];
      assert CreateAccountWithSeed(ctx, body, w).Ok?;
      var seed := SeedAt(ctx, body, 32, 48).value;
      var base, owner := PubkeyAt(body, 0), PubkeyAt(body, 40 + |seed| + 16);
      assert IsSigner(ctx, base) && ctx.sysvars.oracles.createWithSeed(base, seed, owner) == Some(w[1].address);
    }
  }

  lemma SeedOwners(ctx: Ctx, data: seq<byte>, w: seq<Account>)
    requires Invoke(ctx, data, w).Ok? && U32At(data, 0) == 9
    ensures |w| > 0 && OwnerChangeAllowed(ctx, data, w, 0)
    ensures var post := Invoke(ctx, data, w).value; |post| == |w| && post == w[0 := post[0]]
  {
    var body := data[4..];
    assert AssignWithSeed(ctx, body, w).Ok?;
    var seed := SeedAt(ctx, body, 32, 32).value;
    var base, owner := PubkeyAt(body, 0), PubkeyAt(body, 40 + |seed|);
    assert ctx.sysvars.oracles.createWithSeed(base, seed, owner) == Some(w[0].address);
  }

  lemma MovesKeepOwners(ctx: Ctx, data: seq<byte>, w: seq<Account>)
    requires Invoke(ctx, data, w).Ok? && U32At(data, 0) in {2, 5, 10}
    ensures var post := Invoke(ctx, data, w).value;
      |post| == |w| && forall j :: 0 <= j < |w| ==> post[j].owner == w[j].owner
  {
    var tag, body := U32At(data, 0), data[4..];
    if tag == 2 { assert Transfer(ctx, body, w).Ok?; }
    else if tag == 5 { assert WithdrawNonce(ctx, body, w).Ok?; }
    else { assert TransferWithSeed(ctx, body, w).Ok?; }
  }

  lemma RewriteOwners(ctx: Ctx, data: seq<byte>, w: seq<Account>)
    requires Invoke(ctx, data, w).Ok? && U32At(data, 0) in {1, 4, 6, 7, 8, 11}
    ensures var post := Invoke(ctx, data, w).value;
      && |w| > 0 && |post| == |w| && post == w[0 := post[0]]
      && (post[0].owner != w[0].owner ==> OwnerChangeAllowed(ctx, data, w, 0))
  {
    Ledger.RewritesFirst(ctx, data, w);
    var tag, body := U32At(data, 0), data[4..];
    if tag == 6 { assert InitializeNonce(ctx, body, w).Ok?; }
  }

  /** A created account has the requested owner, that many zero bytes and the lamports the
      funder lost. */
  lemma CreateFundsTarget(ctx: Ctx, data: seq<byte>, w: seq<Account>)
    requires Ledger.IsCreate(data) && Invoke(ctx, data, w).Ok?
    ensures |w| >= 2 && Ledger.ArgsOf(data).Some?
    ensures var a, post := Ledger.ArgsOf(data).value, Invoke(ctx, data, w).value;
      && |post| == |w| && post[1].owner == a.owner && !post[1].executable
      && |post[1].data| == a.space && (forall i :: 0 <= i < a.space ==> post[1].data[i] == 0)
      && post[1].lamports == a.lamports
      && post[0].lamports + post[1].lamports == w[0].lamports + w[1].lamports
  {
    Ledger.CreateFormsAreCreates(ctx, data, w);
  }

  /** A transfer between two accounts moves exactly the amount when the destination has room. */
  lemma TransferMovesExactly(ctx: Ctx, body: seq<byte>, w: seq<Account>)
    requires Transfer(ctx, body, w).Ok? && w[1].lamports + U64At(body, 0) <= U64_MAX
    ensures var n, post := U64At(body, 0), Transfer(ctx, body, w).value;
      && post[0].lamports + n == w[0].lamports && post[1].lamports == w[1].lamports + n
      && post[0].lamports + post[1].lamports == w[0].lamports + w[1].lamports
  {
  }

  // --- the durable nonce ------------------------------------------------------------------------

  /** Initialising stores the authority and this slot's nonce, takes the account for the system
      program, and cannot be repeated. */
  lemma NonceStarts(ctx: Ctx, body: seq<byte>, w: seq<Account>, later: Ctx, again: seq<byte>)
    requires InitializeNonce(ctx, body, w).Ok?
    ensures |body| >= 32
    ensures var post := InitializeNonce(ctx, body, w).value;
      && |post| > 0 && post[0].owner == SYSTEM_ID
      && ReadNonce(post[0].data) == Ok(Nonce(true, PubkeyAt(body, 0), DurableNonce(ctx), NONCE_DEFAULT_FEE))
      && InitializeNonce(later, again, post).Err?
  {
    ReadWrittenNonce(w[0].data, Nonce(true, PubkeyAt(body, 0), DurableNonce(ctx), NONCE_DEFAULT_FEE));
  }

  /** Upgrading never changes what the record says. */
  lemma UpgradeKeepsNonce(ctx: Ctx, w: seq<Account>)
    requires UpgradeNonce(ctx, w).Ok?
    ensures ReadNonce(UpgradeNonce(ctx, w).value[0].data) == ReadNonce(w[0].data)
  {
    var data := w[0].data;
    if |data| >= NONCE_STATE_BYTES {
      var out := Put(data, 0, U32Bytes(1));
      forall off, n | 4 <= off && 0 <= n && off + n <= |data| ensures FieldAt(out, off, n) == FieldAt(data, off, n) {
        assert forall i :: off <= i < off + n ==> out[i] == data[i];
      }
    }
  }

  /** Advance replaces the durable nonce and keeps the authority and fee; within one slot a
      second Advance changes nothing. */
  lemma AdvanceTwice(ctx: Ctx, w: seq<Account>)
    requires AdvanceNonce(ctx, w).Ok?
    ensures ReadNonce(w[0].data).Ok?
    ensures var post := AdvanceNonce(ctx, w).value;
      && ReadNonce(post[0].data) == Ok(ReadNonce(w[0].data).value.(durable := DurableNonce(ctx)))
      && AdvanceNonce(ctx, post) == Ok(post)
  {
    var post, next := AdvanceNonce(ctx, w).value, ReadNonce(w[0].data).value.(durable := DurableNonce(ctx));
    ReadWrittenNonce(w[0].data, next);
    RewriteSame(w[0].data, next);
    assert post[0 := post[0]] == post;
  }

  lemma RewriteSame(data: seq<byte>, n: Nonce)
    requires NONCE_STATE_BYTES <= |data|
    ensures WrittenNonce(WrittenNonce(data, n), n) == WrittenNonce(data, n)
  {
    PutOver(data, 0, NonceBytes(n), NonceBytes(n));
  }

  /** Authorize hands the nonce over: the new authority is stored, the durable nonce and fee
      stay, and the old authority can no longer advance or withdraw. */
  lemma AuthorizeHandsOver(ctx: Ctx, body: seq<byte>, w: seq<Account>, later: Ctx, others: seq<Account>)
    requires AuthorizeNonce(ctx, body, w).Ok? && PubkeyAt(body, 0) != w[1].address
    ensures ReadNonce(w[0].data).Ok?
    ensures var nonce := AuthorizeNonce(ctx, body, w).value[0];
      && ReadNonce(nonce.data) == Ok(ReadNonce(w[0].data).value.(authority := PubkeyAt(body, 0)))
      && (|others| >= 2 && others[1].address == w[1].address ==> AdvanceNonce(later, [nonce] + others).Err?)
      && (|others| >= 4 && others[3].address == w[1].address ==> WithdrawNonce(later, body, [nonce] + others).Err?)
  {
    ReadWrittenNonce(w[0].data, ReadNonce(w[0].data).value.(authority := PubkeyAt(body, 0)));
  }
}
