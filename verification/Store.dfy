/** The stateful overlay (src/lib.rs): instructions read their inputs from a map and commit
    to it, one at a time or as one batch. */
module Store {
  import opened Common
  import opened Accounts
  import opened Engine
  import opened Kernel
  import opened Frame
  import opened Runs

  type Overlay = map<Pubkey, Account>

  /** Every account of the overlay is stored under its own address. */
  ghost predicate Keyed(store: Overlay) {
    forall k :: k in store ==> store[k].address == k
  }

  function Absent(k: Pubkey): Account {
    Account(k, 0, [], SYSTEM_ID, false, 0)
  }

  function Get(store: Overlay, k: Pubkey): Account {
    if k in store then store[k] else Absent(k)
  }

  function AddSeen(seen: seq<Pubkey>, k: Pubkey): seq<Pubkey> {
    if k in seen then seen else seen + [k]
  }

  function SeenMetas(seen: seq<Pubkey>, metas: seq<Meta>): seq<Pubkey>
    decreases |metas|
  {
    if metas == [] then seen else SeenMetas(AddSeen(seen, metas[0].pubkey), metas[1..])
  }

  /** The addresses an instruction list names, program ids included, in first-seen order. */
  function SeenIxs(seen: seq<Pubkey>, ixs: seq<Instruction>): seq<Pubkey>
    decreases |ixs|
  {
    if ixs == [] then seen
    else SeenIxs(SeenMetas(AddSeen(seen, ixs[0].programId), ixs[0].metas), ixs[1..])
  }

  function Names(ixs: seq<Instruction>): seq<Pubkey> {
    SeenIxs([], ixs)
  }

  ghost predicate NamedBy(ixs: seq<Instruction>, k: Pubkey) {
    exists ix :: ix in ixs && (ix.programId == k || !Unnamed(ix.metas, k))
  }

  function Collect(store: Overlay, names: seq<Pubkey>): (list: seq<Account>)
    ensures |list| == |names|
  {
    seq(|names|, i requires 0 <= i < |names| => Get(store, names[i]))
  }

  function Commit(store: Overlay, accounts: seq<Account>): Overlay {
    if accounts == [] then store
    else
      var a := accounts[|accounts| - 1];
      Commit(store, accounts[..|accounts| - 1])[a.address := a]
  }

  /** A step against the overlay: its outcome, the cells and the overlay it leaves. */
  datatype StoreStep = StoreStep(out: Outcome, cells: Cells, store: Overlay)

  ghost function Committed(store: Overlay, s: Step): StoreStep {
    StoreStep(s.out, s.cells, if s.out.error.None? then Commit(store, s.out.accounts) else store)
  }

  ghost function WithStore(env: Env, cells: Cells, store: Overlay, ix: Instruction): StoreStep {
    Committed(store, Dispatch(env, cells, ix, Collect(store, Names([ix]))))
  }

  ghost function ChainWithStore(env: Env, cells: Cells, store: Overlay, ixs: seq<Instruction>): StoreStep {
    Committed(store, Chain(env, cells, ixs, Collect(store, Names(ixs))))
  }

  /** One instruction at a time, until one fails. */
  datatype Stepwise = Stepwise(ok: bool, cells: Cells, store: Overlay)

  ghost function Sequential(env: Env, cells: Cells, store: Overlay, ixs: seq<Instruction>): Stepwise
    decreases |ixs|
  {
    if ixs == [] then Stepwise(true, cells, store)
    else
      var s := WithStore(env, cells, store, ixs[0]);
      if s.out.error.Some? then Stepwise(false, s.cells, s.store)
      else Sequential(env, s.cells, s.store, ixs[1..])
  }

  // --- the names of a batch -----------------------------------------------------------------

  ghost predicate NoRepeats(names: seq<Pubkey>) {
    forall i, j :: 0 <= i < j < |names| ==> names[i] != names[j]
  }

  lemma {:induction false} SeenMetasFacts(seen: seq<Pubkey>, metas: seq<Meta>)
    requires NoRepeats(seen)
    ensures NoRepeats(SeenMetas(seen, metas))
    ensures forall k :: k in SeenMetas(seen, metas) <==> k in seen || !Unnamed(metas, k)
    decreases |metas|
  {
    if metas != [] {
      SeenMetasFacts(AddSeen(seen, metas[0].pubkey), metas[1..]);
      forall k ensures Unnamed(metas, k) <==> metas[0].pubkey != k && Unnamed(metas[1..], k) {
        assert forall m :: m in metas <==> m == metas[0] || m in metas[1..];
      }
    }
  }

  lemma {:induction false} SeenIxsFacts(seen: seq<Pubkey>, ixs: seq<Instruction>)
    requires NoRepeats(seen)
    ensures NoRepeats(SeenIxs(seen, ixs))
    ensures forall k :: k in SeenIxs(seen, ixs) <==> k in seen || NamedBy(ixs, k)
    decreases |ixs|
  {
    if ixs != [] {
      var ix, rest := ixs[0], ixs[1..];
      SeenMetasFacts(AddSeen(seen, ix.programId), ix.metas);
      SeenIxsFacts(SeenMetas(AddSeen(seen, ix.programId), ix.metas), rest);
      forall k ensures NamedBy(ixs, k) <==> ix.programId == k || !Unnamed(ix.metas, k) || NamedBy(rest, k) {
        assert forall x :: x in ixs <==> x == ix || x in rest;
      }
    }
  }

  lemma CollectFacts(store: Overlay, ixs: seq<Instruction>)
    requires Keyed(store)
    ensures Distinct(Collect(store, Names(ixs)))
    ensures forall k :: Lookup(Collect(store, Names(ixs)), k) == if NamedBy(ixs, k) then Some(Get(store, k)) else None
  {
    SeenIxsFacts([], ixs);
    var names, list := Names(ixs), Collect(store, Names(ixs));
    assert forall i :: 0 <= i < |names| ==> list[i].address == names[i];
    forall k ensures Lookup(list, k) == if NamedBy(ixs, k) then Some(Get(store, k)) else None {
      if NamedBy(ixs, k) {
        var i :| 0 <= i < |names| && names[i] == k;
        LookupAt(list, i);
      }
    }
  }

  lemma LookupInit(list: seq<Account>, k: Pubkey)
    requires Distinct(list) && list != []
    ensures var n := |list| - 1;
      Lookup(list, k) == if k == list[n].address then Some(list[n]) else Lookup(list[..n], k)
  {
    var n := |list| - 1;
    if k == list[n].address {
      LookupAt(list, n);
    } else if Lookup(list[..n], k).Some? {
      LookupAt(list, Find(list[..n], k));
    }
  }

  lemma {:induction false} CommitAt(store: Overlay, accounts: seq<Account>, k: Pubkey)
    requires Distinct(accounts)
    ensures k in Commit(store, accounts) <==> k in store || Lookup(accounts, k).Some?
    ensures k in Commit(store, accounts) ==>
      Commit(store, accounts)[k] == if Lookup(accounts, k).Some? then Lookup(accounts, k).value else store[k]
  {
    if accounts != [] {
      CommitAt(store, accounts[..|accounts| - 1], k);
      LookupInit(accounts, k);
    }
  }

  lemma CommitFacts(store: Overlay, accounts: seq<Account>)
    requires Distinct(accounts)
    ensures forall k :: k in Commit(store, accounts) <==> k in store || Lookup(accounts, k).Some?
    ensures forall k :: k in Commit(store, accounts) ==>
      Commit(store, accounts)[k] == if Lookup(accounts, k).Some? then Lookup(accounts, k).value else store[k]
  {
    forall k
      ensures k in Commit(store, accounts) <==> k in store || Lookup(accounts, k).Some?
      ensures k in Commit(store, accounts) ==>
        Commit(store, accounts)[k] == if Lookup(accounts, k).Some? then Lookup(accounts, k).value else store[k]
    {
      CommitAt(store, accounts, k);
    }
  }

  /** Every key an instruction list mentions, in order: each program id, then its metas. */
  function Mentions(ixs: seq<Instruction>): seq<Pubkey> {
    if ixs == [] then [] else [ixs[0].programId] + Keys(ixs[0].metas) + Mentions(ixs[1..])
  }

  function Keys(metas: seq<Meta>): seq<Pubkey> {
    if metas == [] then [] else [metas[0].pubkey] + Keys(metas[1..])
  }

  /** The keys that seen does not hold yet, each where it comes first, behind seen. */
  function Firsts(seen: seq<Pubkey>, keys: seq<Pubkey>): seq<Pubkey>
    decreases |keys|
  {
    if keys == [] then seen else Firsts(if keys[0] in seen then seen else seen + [keys[0]], keys[1..])
  }

  lemma {:induction false} FirstsJoin(seen: seq<Pubkey>, a: seq<Pubkey>, b: seq<Pubkey>)
    ensures Firsts(seen, a + b) == Firsts(Firsts(seen, a), b)
    decreases |a|
  {
    if a == [] {
      assert a + b == b;
    } else {
      assert (a + b)[0] == a[0] && (a + b)[1..] == a[1..] + b;
      FirstsJoin(if a[0] in seen then seen else seen + [a[0]], a[1..], b);
    }
  }

  lemma {:induction false} SeenMetasInOrder(seen: seq<Pubkey>, metas: seq<Meta>)
    ensures SeenMetas(seen, metas) == Firsts(seen, Keys(metas))
    decreases |metas|
  {
    if metas != [] {
      SeenMetasInOrder(AddSeen(seen, metas[0].pubkey), metas[1..]);
      assert Keys(metas)[1..] == Keys(metas[1..]);
    }
  }

  lemma {:induction false} SeenIxsInOrder(seen: seq<Pubkey>, ixs: seq<Instruction>)
    ensures SeenIxs(seen, ixs) == Firsts(seen, Mentions(ixs))
    decreases |ixs|
  {
    if ixs != [] {
      var id, keys, rest := ixs[0].programId, Keys(ixs[0].metas), Mentions(ixs[1..]);
      var next := SeenMetas(AddSeen(seen, id), ixs[0].metas);
      SeenIxsInOrder(next, ixs[1..]);
      SeenMetasInOrder(AddSeen(seen, id), ixs[0].metas);
      FirstsJoin(seen, [id] + keys, rest);
      FirstsJoin(seen, [id], keys);
      assert Firsts(seen, [id]) == AddSeen(seen, id);
    }
  }

  /** The input slice lists every mentioned key where it is mentioned first, with the overlay's
      account or an empty system account without lamports. */
  lemma CollectInOrder(store: Overlay, ixs: seq<Instruction>)
    ensures var names, list := Firsts([], Mentions(ixs)), Collect(store, Names(ixs));
      && |list| == |names|
      && forall i :: 0 <= i < |list| ==>
           list[i] == if names[i] in store then store[names[i]] else Account(names[i], 0, [], 0, false, 0)
  {
    SeenIxsInOrder([], ixs);
  }

  /** A step against the overlay dispatches on the collected slice; success stores every account
      it returned under its address, failure stores nothing. */
  lemma OverlayStep(env: Env, cells: Cells, store: Overlay, ix: Instruction)
    requires WellBehaved(env) && Keyed(store)
    ensures var s, d := WithStore(env, cells, store, ix), Dispatch(env, cells, ix, Collect(store, Names([ix])));
      && s.out == d.out && s.cells == d.cells
      && (d.out.error.Some? ==> s.store == store)
      && (d.out.error.None? ==> forall k ::
            && (k in s.store <==> k in store || NamedBy([ix], k))
            && (k in s.store && !NamedBy([ix], k) ==> s.store[k] == store[k])
            && (NamedBy([ix], k) ==> k in s.store && Lookup(d.out.accounts, k) == Some(s.store[k])))
  {
    var inputs := Collect(store, Names([ix]));
    CollectFacts(store, [ix]);
    DispatchShape(env, cells, ix, inputs);
    var d := Dispatch(env, cells, ix, inputs);
    CommitFacts(store, d.out.accounts);
    forall k ensures Lookup(d.out.accounts, k).Some? <==> NamedBy([ix], k) {
      LookupSameAddresses(inputs, d.out.accounts, k);
    }
  }

  /** A chain against the overlay is the chain on the collected slice, stored only as a whole. */
  lemma OverlayChain(env: Env, cells: Cells, store: Overlay, ixs: seq<Instruction>)
    requires WellBehaved(env) && Keyed(store)
    ensures var s, d := ChainWithStore(env, cells, store, ixs), Chain(env, cells, ixs, Collect(store, Names(ixs)));
      && s.out == d.out && s.cells == d.cells
      && (d.out.error.Some? ==> s.store == store)
      && (d.out.error.None? ==> forall k ::
            && (k in s.store <==> k in store || NamedBy(ixs, k))
            && (k in s.store && !NamedBy(ixs, k) ==> s.store[k] == store[k])
            && (NamedBy(ixs, k) ==> k in s.store && Lookup(d.out.accounts, k) == Some(s.store[k])))
  {
    var inputs := Collect(store, Names(ixs));
    CollectFacts(store, ixs);
    ChainKeepsGoodPrefix(env, cells, ixs, inputs);
    var d := Chain(env, cells, ixs, inputs);
    CommitFacts(store, d.out.accounts);
    forall k ensures Lookup(d.out.accounts, k).Some? <==> NamedBy(ixs, k) {
      LookupSameAddresses(inputs, d.out.accounts, k);
    }
  }

  // --- batch equals sequential -------------------------------------------------------------

  /** The overlay holds what the list holds, for every address of the batch. */
  ghost predicate Mirrors(batch: seq<Instruction>, list: seq<Account>, store: Overlay) {
    && Keyed(store) && Distinct(list)
    && forall k :: Lookup(list, k) == if NamedBy(batch, k) then Some(Get(store, k)) else None
  }

  /** The overlay gained the named addresses and changed nothing else. */
  ghost predicate Extends(ixs: seq<Instruction>, store: Overlay, store': Overlay) {
    && (forall k :: k in store' <==> k in store || NamedBy(ixs, k))
    && (forall k :: k in store && !NamedBy(ixs, k) ==> store'[k] == store[k])
  }

  lemma MirrorAt(batch: seq<Instruction>, ix: Instruction, list: seq<Account>, inputs: seq<Account>,
                 post: seq<Account>, post': seq<Account>, store: Overlay, k: Pubkey)
    requires ix in batch && Mirrors(batch, list, store) && Distinct(inputs)
    requires forall k :: Lookup(inputs, k) == if NamedBy([ix], k) then Some(Get(store, k)) else None
    requires AgreeOn(ix.metas, post, post')
    requires ChangesOnlyNamed(ix.metas, list, post) && ChangesOnlyNamed(ix.metas, inputs, post')
    ensures Lookup(post, k) == if NamedBy(batch, k) then Some(Get(Commit(store, post'), k)) else None
  {
    LookupSameAddresses(list, post, k);
    LookupSameAddresses(inputs, post', k);
    CommitFacts(store, post');
    if Unnamed(ix.metas, k) {
      assert Lookup(post, k) == Lookup(list, k) && Lookup(post', k) == Lookup(inputs, k);
    } else {
      var m :| m in ix.metas && m.pubkey == k;
      assert NamedBy([ix], k) by { assert ix in [ix]; }
    }
  }

  lemma MirrorCommit(batch: seq<Instruction>, ix: Instruction, list: seq<Account>, inputs: seq<Account>,
                     post: seq<Account>, post': seq<Account>, store: Overlay)
    requires ix in batch && Mirrors(batch, list, store) && Distinct(inputs)
    requires forall k :: Lookup(inputs, k) == if NamedBy([ix], k) then Some(Get(store, k)) else None
    requires AgreeOn(ix.metas, post, post')
    requires ChangesOnlyNamed(ix.metas, list, post) && ChangesOnlyNamed(ix.metas, inputs, post')
    ensures Mirrors(batch, post, Commit(store, post')) && Extends([ix], store, Commit(store, post'))
  {
    CommitFacts(store, post');
    forall k ensures Lookup(post', k).Some? <==> NamedBy([ix], k) {
      LookupSameAddresses(inputs, post', k);
    }
    forall k ensures Lookup(post, k) == if NamedBy(batch, k) then Some(Get(Commit(store, post'), k)) else None {
      MirrorAt(batch, ix, list, inputs, post, post', store, k);
    }
  }

  /** Running one instruction of the batch on the list and on the overlay. */
  lemma MirrorStep(env: Env, cells: Cells, batch: seq<Instruction>, ix: Instruction, list: seq<Account>, store: Overlay)
    requires WellBehaved(env) && ix in batch && Mirrors(batch, list, store)
    ensures var d, s := Dispatch(env, cells, ix, list), WithStore(env, cells, store, ix);
      && d.out.error == s.out.error && d.cells == s.cells
      && (d.out.error.None? ==> Mirrors(batch, d.out.accounts, s.store) && Extends([ix], store, s.store))
  {
    var inputs := Collect(store, Names([ix]));
    CollectFacts(store, [ix]);
    assert ix in [ix];
    forall m | m in ix.metas ensures Lookup(list, m.pubkey) == Lookup(inputs, m.pubkey) {
      assert NamedBy([ix], m.pubkey) && NamedBy(batch, m.pubkey);
    }
    DispatchFrame(env, cells, ix, list, inputs);
    var d, e := Dispatch(env, cells, ix, list), Dispatch(env, cells, ix, inputs);
    if d.out.error.None? {
      MirrorCommit(batch, ix, list, inputs, d.out.accounts, e.out.accounts, store);
    }
  }

  lemma {:induction false} MirrorChain(env: Env, cells: Cells, batch: seq<Instruction>, ixs: seq<Instruction>,
                                       list: seq<Account>, store: Overlay)
    requires WellBehaved(env) && ixs != [] && Mirrors(batch, list, store)
    requires forall ix :: ix in ixs ==> ix in batch
    ensures var c, q := Chain(env, cells, ixs, list), Sequential(env, cells, store, ixs);
      && (c.out.error.None? <==> q.ok)
      && (q.ok ==>
            c.cells == q.cells && Mirrors(batch, c.out.accounts, q.store) && Extends(ixs, store, q.store))
    decreases |ixs|
  {
    var ix, rest := ixs[0], ixs[1..];
    MirrorStep(env, cells, batch, ix, list, store);
    var d, s := Dispatch(env, cells, ix, list), WithStore(env, cells, store, ix);
    if d.out.error.None? {
      DispatchShape(env, cells, ix, list);
      MergedReplays(list, d.out.accounts);
      forall k ensures NamedBy(ixs, k) <==> NamedBy([ix], k) || NamedBy(rest, k) {
        assert forall x :: x in ixs <==> x in [ix] || x in rest;
      }
      if rest != [] {
        MirrorChain(env, d.cells, batch, rest, d.out.accounts, s.store);
      } else {
        assert Sequential(env, s.cells, s.store, rest) == Stepwise(true, s.cells, s.store);
      }
    }
  }

  lemma SameOverlayAt(ixs: seq<Instruction>, store: Overlay, accounts: seq<Account>, final: Overlay, k: Pubkey)
    requires Mirrors(ixs, accounts, final) && Extends(ixs, store, final)
    ensures k in Commit(store, accounts) <==> k in final
    ensures k in final ==> Commit(store, accounts)[k] == final[k]
  {
    CommitFacts(store, accounts);
    assert Lookup(accounts, k) == if NamedBy(ixs, k) then Some(Get(final, k)) else None;
  }

  lemma SameOverlay(ixs: seq<Instruction>, store: Overlay, accounts: seq<Account>, final: Overlay)
    requires Mirrors(ixs, accounts, final) && Extends(ixs, store, final)
    ensures Commit(store, accounts) == final
  {
    var committed := Commit(store, accounts);
    forall k ensures (k in committed <==> k in final) && (k in final ==> committed[k] == final[k]) {
      SameOverlayAt(ixs, store, accounts, final, k);
    }
  }

  /** A non-empty batch against the overlay succeeds exactly when running its instructions
      one by one succeeds throughout, and then leaves the same overlay and the same cells. A
      failed batch leaves the overlay as it was. */
  lemma BatchEqualsSequential(env: Env, cells: Cells, store: Overlay, ixs: seq<Instruction>)
    requires WellBehaved(env) && Keyed(store) && ixs != []
    ensures var b, q := ChainWithStore(env, cells, store, ixs), Sequential(env, cells, store, ixs);
      && (b.out.error.None? <==> q.ok)
      && (q.ok ==> b.store == q.store && b.cells == q.cells)
      && (!q.ok ==> b.store == store)
  {
    var list := Collect(store, Names(ixs));
    CollectFacts(store, ixs);
    MirrorChain(env, cells, ixs, ixs, list, store);
    var c, q := Chain(env, cells, ixs, list), Sequential(env, cells, store, ixs);
    if q.ok {
      SameOverlay(ixs, store, c.out.accounts, q.store);
    }
  }
}
