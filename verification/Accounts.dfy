/** Account lists addressed by key: lookup, the write-back of working copies, and the
    facts about them every run-level argument uses. */
module Accounts {
  import opened Common
  import opened Sums

  ghost predicate Distinct(list: seq<Account>) {
    forall i, j :: 0 <= i < j < |list| ==> list[i].address != list[j].address
  }

  /** The first position holding address k, or |list|. */
  function Find(list: seq<Account>, k: Pubkey): (i: nat)
    ensures i <= |list|
    ensures i < |list| ==> list[i].address == k
    ensures forall j :: 0 <= j < i ==> list[j].address != k
  {
    if list == [] || list[0].address == k then 0 else 1 + Find(list[1..], k)
  }

  function Lookup(list: seq<Account>, k: Pubkey): (r: Option<Account>)
    ensures r.Some? ==> r.value in list && r.value.address == k
    ensures r.None? <==> forall a :: a in list ==> a.address != k
  {
    var i := Find(list, k);
    if i < |list| then Some(list[i]) else None
  }

  lemma LookupAt(list: seq<Account>, i: nat)
    requires Distinct(list) && i < |list|
    ensures Find(list, list[i].address) == i && Lookup(list, list[i].address) == Some(list[i])
  {
  }

  /** Write one account back: overwrite the first slot with its address, or append. */
  function Upsert(list: seq<Account>, w: Account): seq<Account> {
    var i := Find(list, w.address);
    if i < |list| then list[i := w] else list + [w]
  }

  /** Write a working set back in order, so that the last copy of an address wins. */
  function Merged(list: seq<Account>, work: seq<Account>): seq<Account> {
    if work == [] then list else Upsert(Merged(list, work[..|work| - 1]), work[|work| - 1])
  }

  /** The last working copy of an account, or the account itself. */
  function LastCopy(a: Account, work: seq<Account>): Account {
    if work == [] then a
    else if work[|work| - 1].address == a.address then work[|work| - 1]
    else LastCopy(a, work[..|work| - 1])
  }

  ghost predicate AllNamed(list: seq<Account>, work: seq<Account>) {
    forall w :: w in work ==> Lookup(list, w.address).Some?
  }

  lemma LookupSameAddresses(a: seq<Account>, b: seq<Account>, k: Pubkey)
    requires SameAddresses(a, b)
    ensures Find(a, k) == Find(b, k)
  {
  }

  /** With distinct addresses, the write-back keeps the order, length and addresses of the
      list and is the map update in which the last copy of every address wins. */
  lemma {:induction false} MergedIsMapUpdate(list: seq<Account>, work: seq<Account>)
    requires Distinct(list) && AllNamed(list, work)
    ensures SameAddresses(list, Merged(list, work))
    ensures forall i :: 0 <= i < |list| ==> Merged(list, work)[i] == LastCopy(list[i], work)
  {
    if work != [] {
      var init, w := work[..|work| - 1], work[|work| - 1];
      assert Lookup(list, w.address).Some?;
      MergedIsMapUpdate(list, init);
      LookupSameAddresses(list, Merged(list, init), w.address);
    }
  }

  /** Replaying a list onto itself is the list: the carried state of a chain is always the
      accounts its last step returned. */
  lemma {:induction false} MergedReplays(list: seq<Account>, updates: seq<Account>)
    requires Distinct(list) && SameAddresses(list, updates)
    ensures Merged(list, updates) == updates
  {
    forall u | u in updates ensures Lookup(list, u.address).Some? {
      var i :| 0 <= i < |updates| && updates[i] == u;
      assert list[i] in list;
    }
    MergedIsMapUpdate(list, updates);
    forall i | 0 <= i < |list| ensures Merged(list, updates)[i] == updates[i] {
      LastCopyUnique(list[i], updates, i);
    }
  }

  lemma {:induction false} LastCopyUnique(a: Account, work: seq<Account>, i: nat)
    requires i < |work| && work[i].address == a.address
    requires forall j :: i < j < |work| ==> work[j].address != a.address
    ensures LastCopy(a, work) == work[i]
  {
    if i < |work| - 1 { LastCopyUnique(a, work[..|work| - 1], i); }
  }

  /** Where an account's last copy comes from: position j of the working set, or nowhere. */
  lemma {:induction false} LastCopySource(a: Account, work: seq<Account>) returns (j: int)
    ensures -1 <= j < |work|
    ensures forall k :: j < k < |work| ==> work[k].address != a.address
    ensures j == -1 ==> LastCopy(a, work) == a
    ensures j >= 0 ==> work[j].address == a.address && LastCopy(a, work) == work[j]
  {
    if work == [] {
      j := -1;
    } else if work[|work| - 1].address == a.address {
      j := |work| - 1;
    } else {
      j := LastCopySource(a, work[..|work| - 1]);
    }
  }

  // --- totals ---------------------------------------------------------------------------

  function AtBoth(g: (Account, Account) -> int, pre: seq<Account>, post: seq<Account>): Pubkey -> int {
    (k: Pubkey) =>
      var p, n := Lookup(pre, k), Lookup(post, k);
      if p.Some? && n.Some? then g(p.value, n.value) else 0
  }

  lemma AtBothCons(g: (Account, Account) -> int, pre: seq<Account>, post: seq<Account>, keys: set<Pubkey>)
    requires pre != [] && post != [] && pre[0].address == post[0].address
    requires pre[0].address !in keys
    ensures AtBoth(g, pre, post)(pre[0].address) == g(pre[0], post[0])
    ensures SumSet(keys, AtBoth(g, pre, post)) == SumSet(keys, AtBoth(g, pre[1..], post[1..]))
  {
    assert Lookup(pre, pre[0].address) == Some(pre[0]) && Lookup(post, pre[0].address) == Some(post[0]);
    forall x | x in keys ensures AtBoth(g, pre, post)(x) == AtBoth(g, pre[1..], post[1..])(x) {
      FindTail(pre, x);
      FindTail(post, x);
    }
    SumSetCongruent(keys, AtBoth(g, pre, post), AtBoth(g, pre[1..], post[1..]));
  }

  /** A pairwise total over two aligned lists that differ only on the keys of names is the
      sum over those keys. */
  lemma {:induction false} ZipNamed(g: (Account, Account) -> int, pre: seq<Account>, post: seq<Account>,
                                    names: set<Pubkey>)
    requires Distinct(pre) && SameAddresses(pre, post)
    requires forall a :: g(a, a) == 0
    requires forall i :: 0 <= i < |pre| ==> pre[i].address in names || post[i] == pre[i]
    requires forall k :: k in names ==> Lookup(pre, k).Some?
    ensures SumZip(g, pre, post) == SumSet(names, AtBoth(g, pre, post))
  {
    if pre == [] {
      forall k ensures k !in names { assert Lookup(pre, k).None?; }
    } else {
      var k, f := pre[0].address, AtBoth(g, pre, post);
      forall x | x in names - {k} ensures Lookup(pre[1..], x).Some? { FindTail(pre, x); }
      ZipNamed(g, pre[1..], post[1..], names - {k});
      AtBothCons(g, pre, post, names - {k});
      if k in names {
        SumSetTake(names, f, k);
      } else {
        assert names - {k} == names && g(pre[0], post[0]) == 0;
      }
    }
  }

  lemma FindTail(list: seq<Account>, x: Pubkey)
    requires list != [] && list[0].address != x
    ensures Lookup(list, x) == Lookup(list[1..], x)
  {
  }

  /** Distinct working copies move a total by exactly what they changed themselves. */
  lemma {:induction false} SumByMerge(f: Account -> int, list: seq<Account>, before: seq<Account>, after: seq<Account>)
    requires Distinct(list) && Distinct(before) && SameAddresses(before, after)
    requires forall w :: w in before ==> Lookup(list, w.address) == Some(w)
    ensures SumBy(f, Merged(list, after)) == SumBy(f, list) - SumBy(f, before) + SumBy(f, after)
  {
    if after != [] {
      var n := |after| - 1;
      var b, a := before[..n], after[..n];
      assert before == b + [before[n]] && after == a + [after[n]];
      SumByMerge(f, list, b, a);
      SumBySnoc(f, b, before[n]);
      SumBySnoc(f, a, after[n]);
      assert before[n] in before;
      SumByUpsertFresh(f, list, b, a, before[n], after[n]);
    }
  }

  lemma SumByUpsertFresh(f: Account -> int, list: seq<Account>, before: seq<Account>, after: seq<Account>,
                         p: Account, n: Account)
    requires Distinct(list) && SameAddresses(before, after) && p.address == n.address
    requires forall w :: w in before ==> Lookup(list, w.address) == Some(w) && w.address != p.address
    requires Lookup(list, p.address) == Some(p)
    ensures SumBy(f, Upsert(Merged(list, after), n)) == SumBy(f, Merged(list, after)) - f(p) + f(n)
  {
    forall w | w in after ensures Lookup(list, w.address).Some? && w.address != p.address {
      var j :| 0 <= j < |after| && after[j] == w;
      assert before[j] in before;
    }
    MergedIsMapUpdate(list, after);
    LookupSameAddresses(list, Merged(list, after), p.address);
    LastCopyAbsent(p, after);
    SumByUpdate(f, Merged(list, after), Find(list, p.address), n);
  }

  lemma {:induction false} SumBySnoc(f: Account -> int, list: seq<Account>, a: Account)
    ensures SumBy(f, list + [a]) == SumBy(f, list) + f(a)
  {
    if list != [] {
      assert (list + [a])[1..] == list[1..] + [a];
      SumBySnoc(f, list[1..], a);
    }
  }

  lemma {:induction false} LastCopyAbsent(a: Account, work: seq<Account>)
    requires forall w :: w in work ==> w.address != a.address
    ensures LastCopy(a, work) == a
  {
    if work != [] {
      assert work[|work| - 1] in work;
      LastCopyAbsent(a, work[..|work| - 1]);
    }
  }
}
