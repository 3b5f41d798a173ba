/** Post-instruction account validation (src/validation.rs): the declarative rules, and the
    one-pass validator that decides them. */
module Validation {
  import opened Common
  import opened Sums
  import opened Accounts

  datatype Policy = Strict | Lax

  /** The named addresses both lists know. */
  ghost function NamedKeys(metas: seq<Meta>, pre: seq<Account>, post: seq<Account>): set<Pubkey> {
    set m | m in metas && Lookup(pre, m.pubkey).Some? && Lookup(post, m.pubkey).Some? :: m.pubkey
  }

  /** Rules 1 and 3 to 6 for one account, given whether its first meta is writable. */
  predicate AccountRules(programId: Pubkey, writable: bool, p: Account, n: Account) {
    if !writable then
      p.lamports == n.lamports && p.data == n.data && p.owner == n.owner && p.executable == n.executable
    else
      && p.executable == n.executable
      && (n.lamports < p.lamports ==> p.owner == programId)
      && (p.owner != n.owner ==> p.owner == programId || (EmptySystem(p) && programId == SYSTEM_ID))
      && (p.data != n.data ==> p.owner == programId || EmptySystem(p))
  }

  /** The lamports of a created account: it was an empty system account and its owner or
      data changed. */
  function CreditOf(p: Account, n: Account): u64 {
    if EmptySystem(p) && (p.owner != n.owner || (p.data == [] && n.data != [])) then n.lamports else 0
  }

  function Credit(): (Account, Account) -> int {
    (p: Account, n: Account) => CreditOf(p, n)
  }

  function LamportsOf(list: seq<Account>, k: Pubkey): u64 {
    var a := Lookup(list, k);
    if a.Some? then a.value.lamports else 0
  }

  function LamportsAt(list: seq<Account>): Pubkey -> int {
    (k: Pubkey) => LamportsOf(list, k)
  }

  ghost predicate RulesOn(keys: set<Pubkey>, programId: Pubkey, metas: seq<Meta>, pre: seq<Account>,
                          post: seq<Account>) {
    forall k :: k in keys ==>
      var m, p, n := FirstMeta(metas, k), Lookup(pre, k), Lookup(post, k);
      m.Some? && p.Some? && n.Some? && AccountRules(programId, m.value.writable, p.value, n.value)
  }

  /** What Strict validation means: every named account obeys the rules of its first meta, and
      the named lamports changed by exactly the creation credit of the two lists. */
  ghost predicate StrictRules(programId: Pubkey, metas: seq<Meta>, pre: seq<Account>, post: seq<Account>) {
    var keys := NamedKeys(metas, pre, post);
    && RulesOn(keys, programId, metas, pre, post)
    && SumSet(keys, LamportsAt(pre)) + SumZip(Credit(), pre, post) == SumSet(keys, LamportsAt(post))
  }

  const U128_MAX: int := 0xFFFF_FFFF_FFFF_FFFF_FFFF_FFFF_FFFF_FFFF

  function SatAdd128(a: nat, b: nat): nat {
    if a + b <= U128_MAX then a + b else U128_MAX
  }

  /** No vector holds more elements than this. */
  const MAX_LEN: int := 0x7FFF_FFFF_FFFF_FFFF

  lemma {:induction false} CreditBounds(pre: seq<Account>, post: seq<Account>)
    ensures 0 <= SumZip(Credit(), pre, post) <= |pre| * U64_MAX
  {
    if pre != [] && post != [] {
      assert Credit()(pre[0], post[0]) == CreditOf(pre[0], post[0]);
      CreditBounds(pre[1..], post[1..]);
    }
  }

  lemma {:induction false} SubsetSize(a: set<Pubkey>, b: set<Pubkey>)
    requires a <= b
    ensures |a| <= |b|
  {
    if x :| x in a { SubsetSize(a - {x}, b - {x}); }
  }

  lemma {:induction false} NamedKeysSize(metas: seq<Meta>, pre: seq<Account>, post: seq<Account>)
    ensures |NamedKeys(metas, pre, post)| <= |metas|
  {
    if metas != [] {
      var n := |metas| - 1;
      var rest := NamedKeys(metas[..n], pre, post);
      NamedKeysSize(metas[..n], pre, post);
      assert metas[..n + 1] == metas;
      assert NamedKeys(metas, pre, post) <= rest + {metas[n].pubkey} by { NamedKeysSnoc(metas, n, pre, post); }
      SubsetSize(NamedKeys(metas, pre, post), rest + {metas[n].pubkey});
    }
  }

  lemma NamedKeysSnoc(metas: seq<Meta>, i: nat, pre: seq<Account>, post: seq<Account>)
    requires i < |metas|
    ensures var k := metas[i].pubkey;
      NamedKeys(metas[..i + 1], pre, post) == NamedKeys(metas[..i], pre, post)
        + if Lookup(pre, k).Some? && Lookup(post, k).Some? then {k} else {}
  {
    assert metas[..i + 1] == metas[..i] + [metas[i]];
  }

  lemma {:induction false} FirstMetaAt(metas: seq<Meta>, i: nat)
    requires i < |metas|
    requires forall j :: 0 <= j < i ==> metas[j].pubkey != metas[i].pubkey
    ensures FirstMeta(metas, metas[i].pubkey) == Some(metas[i])
  {
    if i > 0 { FirstMetaAt(metas[1..], i - 1); }
  }

  /** The sums of the first i metas stay far below 2^128. */
  lemma NamedSumBounds(metas: seq<Meta>, i: nat, pre: seq<Account>, post: seq<Account>, list: seq<Account>)
    requires i <= |metas| <= MAX_LEN
    ensures 0 <= SumSet(NamedKeys(metas[..i], pre, post), LamportsAt(list)) <= MAX_LEN * U64_MAX
  {
    var keys := NamedKeys(metas[..i], pre, post);
    NamedKeysSize(metas[..i], pre, post);
    forall k | k in keys ensures 0 <= LamportsAt(list)(k) <= U64_MAX {
      assert LamportsAt(list)(k) == LamportsOf(list, k);
    }
    SumSetBounds(keys, LamportsAt(list));
  }

  lemma NamedSumStep(metas: seq<Meta>, i: nat, pre: seq<Account>, post: seq<Account>, list: seq<Account>)
    requires i < |metas| <= MAX_LEN
    requires forall j :: 0 <= j < i ==> metas[j].pubkey != metas[i].pubkey
    requires Lookup(pre, metas[i].pubkey).Some? && Lookup(post, metas[i].pubkey).Some?
    ensures var sum := SumSet(NamedKeys(metas[..i], pre, post), LamportsAt(list)) + LamportsOf(list, metas[i].pubkey);
      SumSet(NamedKeys(metas[..i + 1], pre, post), LamportsAt(list)) == sum && 0 <= sum <= MAX_LEN * U64_MAX
  {
    var k, keys := metas[i].pubkey, NamedKeys(metas[..i], pre, post);
    assert k !in keys;
    assert NamedKeys(metas[..i + 1], pre, post) == keys + {k} by { NamedKeysSnoc(metas, i, pre, post); }
    SumSetAdd(keys, LamportsAt(list), k);
    NamedSumBounds(metas, i + 1, pre, post, list);
  }

  lemma NamedKeysSame(metas: seq<Meta>, i: nat, pre: seq<Account>, post: seq<Account>)
    requires i < |metas|
    requires var k := metas[i].pubkey;
      || (exists j :: 0 <= j < i && metas[j].pubkey == k)
      || Lookup(pre, k).None? || Lookup(post, k).None?
    ensures NamedKeys(metas[..i + 1], pre, post) == NamedKeys(metas[..i], pre, post)
  {
    NamedKeysSnoc(metas, i, pre, post);
    if j :| 0 <= j < i && metas[j].pubkey == metas[i].pubkey {
      assert metas[..i][j] == metas[j];
    }
  }

  /** The per-account checks in the order the source makes them. */
  method CheckAccount(programId: Pubkey, meta: Meta, p: Account, n: Account) returns (ok: bool)
    ensures ok == AccountRules(programId, meta.writable, p, n)
  {
    if !meta.writable {
      return !(p.lamports != n.lamports || p.data != n.data || p.owner != n.owner || p.executable != n.executable);
    }
    if p.executable != n.executable {
      return false;
    }
    if n.lamports < p.lamports && p.owner != programId {
      return false;
    }
    if p.owner != n.owner {
      var isCreation := p.lamports == 0 && p.data == [] && p.owner == SYSTEM_ID;
      var ownerChangeAllowed := p.owner == programId || (isCreation && programId == SYSTEM_ID);
      if !ownerChangeAllowed {
        return false;
      }
    }
    if p.data != n.data {
      var wasEmptySystemOwned := p.lamports == 0 && p.data == [] && p.owner == SYSTEM_ID;
      var dataChangeAllowed := p.owner == programId || wasEmptySystemOwned;
      if !dataChangeAllowed {
        return false;
      }
    }
    ok := true;
  }

  /** The distinct addresses of the metas, in first-seen order. */
  function SeenKeys(metas: seq<Meta>): seq<Pubkey> {
    if metas == [] then [] else
      var seen, k := SeenKeys(metas[..|metas| - 1]), metas[|metas| - 1].pubkey;
      if k in seen then seen else seen + [k]
  }

  lemma {:induction false} SeenKeysAreNamed(metas: seq<Meta>, k: Pubkey)
    ensures k in SeenKeys(metas) <==> exists j :: 0 <= j < |metas| && metas[j].pubkey == k
  {
    if metas != [] {
      var init := metas[..|metas| - 1];
      SeenKeysAreNamed(init, k);
      assert forall j :: 0 <= j < |init| ==> init[j] == metas[j];
    }
  }

  ghost predicate FirstOfItsKey(metas: seq<Meta>, i: nat)
    requires i < |metas|
  {
    forall j :: 0 <= j < i ==> metas[j].pubkey != metas[i].pubkey
  }

  lemma SeenNext(metas: seq<Meta>, i: nat)
    requires i < |metas|
    ensures var k, seen := metas[i].pubkey, SeenKeys(metas[..i]);
      && SeenKeys(metas[..i + 1]) == (if k in seen then seen else seen + [k])
      && (k in seen <==> !FirstOfItsKey(metas, i))
  {
    SeenKeysAreNamed(metas[..i], metas[i].pubkey);
    assert metas[..i + 1][..i] == metas[..i];
    assert forall j :: 0 <= j < i ==> metas[..i][j] == metas[j];
  }

  /** The accounts of the first i metas obey the rules, and these are their sums. */
  ghost predicate Tallied(programId: Pubkey, metas: seq<Meta>, pre: seq<Account>, post: seq<Account>, i: nat,
                          sumPre: nat, sumPost: nat)
    requires i <= |metas|
  {
    var keys := NamedKeys(metas[..i], pre, post);
    && RulesOn(keys, programId, metas, pre, post)
    && sumPre == SumSet(keys, LamportsAt(pre))
    && sumPost == SumSet(keys, LamportsAt(post))
  }

  /** A repeated address, or one that either list lacks, adds nothing. */
  lemma TallySkip(programId: Pubkey, metas: seq<Meta>, pre: seq<Account>, post: seq<Account>, i: nat, sumPre: nat,
                  sumPost: nat)
    requires i < |metas| && Tallied(programId, metas, pre, post, i, sumPre, sumPost)
    requires var k := metas[i].pubkey;
      !FirstOfItsKey(metas, i) || Lookup(pre, k).None? || Lookup(post, k).None?
    ensures Tallied(programId, metas, pre, post, i + 1, sumPre, sumPost)
  {
    NamedKeysSame(metas, i, pre, post);
  }

  lemma TallyStep(programId: Pubkey, metas: seq<Meta>, pre: seq<Account>, post: seq<Account>, i: nat, sumPre: nat,
                  sumPost: nat)
    requires i < |metas| <= MAX_LEN && Tallied(programId, metas, pre, post, i, sumPre, sumPost)
    requires FirstOfItsKey(metas, i)
    requires Lookup(pre, metas[i].pubkey).Some? && Lookup(post, metas[i].pubkey).Some?
    requires var k := metas[i].pubkey;
      AccountRules(programId, metas[i].writable, Lookup(pre, k).value, Lookup(post, k).value)
    ensures var p, n := Lookup(pre, metas[i].pubkey).value, Lookup(post, metas[i].pubkey).value;
      Tallied(programId, metas, pre, post, i + 1, SatAdd128(sumPre, p.lamports), SatAdd128(sumPost, n.lamports))
  {
    FirstMetaAt(metas, i);
    NamedKeysSnoc(metas, i, pre, post);
    NamedSumStep(metas, i, pre, post, pre);
    NamedSumStep(metas, i, pre, post, post);
  }

  lemma BrokenRule(programId: Pubkey, metas: seq<Meta>, pre: seq<Account>, post: seq<Account>, i: nat)
    requires i < |metas|
    requires FirstOfItsKey(metas, i)
    requires Lookup(pre, metas[i].pubkey).Some? && Lookup(post, metas[i].pubkey).Some?
    requires var k := metas[i].pubkey;
      !AccountRules(programId, metas[i].writable, Lookup(pre, k).value, Lookup(post, k).value)
    ensures !StrictRules(programId, metas, pre, post)
  {
    FirstMetaAt(metas, i);
    assert metas[i].pubkey in NamedKeys(metas, pre, post);
  }

  lemma FinalTally(programId: Pubkey, metas: seq<Meta>, pre: seq<Account>, post: seq<Account>, sumPre: nat,
                   sumPost: nat)
    requires |metas| <= MAX_LEN && |pre| <= MAX_LEN && Tallied(programId, metas, pre, post, |metas|, sumPre, sumPost)
    ensures SumZip(Credit(), pre, post) >= 0
    ensures SatAdd128(sumPre, SumZip(Credit(), pre, post)) == sumPost <==> StrictRules(programId, metas, pre, post)
  {
    assert metas[..|metas|] == metas;
    NamedSumBounds(metas, |metas|, pre, post, pre);
    CreditBounds(pre, post);
  }

  /** `validate_post_state` is sound and complete for the declarative rules, and its u128
      sums never saturate. */
  method ValidatePostState(programId: Pubkey, metas: seq<Meta>, pre: seq<Account>, post: seq<Account>, policy: Policy)
    returns (r: Option<Error>)
    requires |metas| <= MAX_LEN && |pre| <= MAX_LEN
    ensures r.None? <==> policy == Lax || StrictRules(programId, metas, pre, post)
    ensures r.Some? ==> r.value == AccountValidationFailed
  {
    if policy == Lax {
      return None;
    }
    var sumPre: nat, sumPost: nat := 0, 0;
    var seen: seq<Pubkey> := [];
    for i := 0 to |metas|
      invariant seen == SeenKeys(metas[..i])
      invariant Tallied(programId, metas, pre, post, i, sumPre, sumPost)
    {
      var k := metas[i].pubkey;
      var p := Lookup(pre, k);
      var n := Lookup(post, k);
      SeenNext(metas, i);
      if k in seen {
        TallySkip(programId, metas, pre, post, i, sumPre, sumPost);
        continue;
      }
      seen := seen + [k];
      if p.None? || n.None? {
        TallySkip(programId, metas, pre, post, i, sumPre, sumPost);
        continue;
      }
      ghost var tallyPre, tallyPost := sumPre, sumPost;
      sumPre := SatAdd128(sumPre, p.value.lamports);
      sumPost := SatAdd128(sumPost, n.value.lamports);
      var ok := CheckAccount(programId, metas[i], p.value, n.value);
      if !ok {
        BrokenRule(programId, metas, pre, post, i);
        return Some(AccountValidationFailed);
      }
      TallyStep(programId, metas, pre, post, i, tallyPre, tallyPost);
    }
    FinalTally(programId, metas, pre, post, sumPre, sumPost);
    var creationCredit := SumZip(Credit(), pre, post);
    var adjustedPre := SatAdd128(sumPre, creationCredit);
    if adjustedPre != sumPost {
      return Some(AccountValidationFailed);
    }
    r := None;
  }

  lemma PermutedMetas(metas: seq<Meta>, metas': seq<Meta>, k: Pubkey)
    requires multiset(metas) == multiset(metas')
    requires forall i, j :: 0 <= i < j < |metas| ==> metas[i].pubkey != metas[j].pubkey
    ensures FirstMeta(metas, k) == FirstMeta(metas', k)
  {
    assert forall m :: m in metas <==> m in multiset(metas);
    assert forall m :: m in metas' <==> m in multiset(metas');
  }

  /** With distinct metas the verdict does not depend on their order. */
  lemma VerdictIgnoresOrder(programId: Pubkey, metas: seq<Meta>, metas': seq<Meta>, pre: seq<Account>,
                            post: seq<Account>)
    requires multiset(metas) == multiset(metas')
    requires forall i, j :: 0 <= i < j < |metas| ==> metas[i].pubkey != metas[j].pubkey
    ensures StrictRules(programId, metas, pre, post) <==> StrictRules(programId, metas', pre, post)
  {
    assert forall m :: m in metas <==> m in multiset(metas);
    assert forall m :: m in metas' <==> m in multiset(metas');
    assert NamedKeys(metas, pre, post) == NamedKeys(metas', pre, post);
    forall k ensures FirstMeta(metas, k) == FirstMeta(metas', k) { PermutedMetas(metas, metas', k); }
  }
}
