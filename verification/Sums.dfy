/** Finite sums over sets of keys and over account lists. */
module Sums {
  import opened Common

  ghost function SumSet(s: set<Pubkey>, f: Pubkey -> int): int {
    if s == {} then 0 else
      var x :| x in s;
      f(x) + SumSet(s - {x}, f)
  }

  /** The sum does not depend on which key is taken out first. */
  lemma {:induction false} SumSetTake(s: set<Pubkey>, f: Pubkey -> int, x: Pubkey)
    requires x in s
    ensures SumSet(s, f) == f(x) + SumSet(s - {x}, f)
    decreases s
  {
    var y :| y in s && SumSet(s, f) == f(y) + SumSet(s - {y}, f);
    if x != y {
      SumSetTake(s - {y}, f, x);
      SumSetTake(s - {x}, f, y);
      assert s - {y} - {x} == s - {x} - {y};
    }
  }

  lemma SumSetAdd(s: set<Pubkey>, f: Pubkey -> int, x: Pubkey)
    requires x !in s
    ensures SumSet(s + {x}, f) == SumSet(s, f) + f(x)
  {
    SumSetTake(s + {x}, f, x);
    assert s + {x} - {x} == s;
  }

  lemma {:induction false} SumSetCongruent(s: set<Pubkey>, f: Pubkey -> int, g: Pubkey -> int)
    requires forall x :: x in s ==> f(x) == g(x)
    ensures SumSet(s, f) == SumSet(s, g)
    decreases s
  {
    if s != {} {
      var x :| x in s && SumSet(s, f) == f(x) + SumSet(s - {x}, f);
      SumSetTake(s, g, x);
      SumSetCongruent(s - {x}, f, g);
    }
  }

  lemma {:induction false} SumSetDifference(s: set<Pubkey>, f: Pubkey -> int, g: Pubkey -> int, h: Pubkey -> int)
    requires forall x :: x in s ==> h(x) == g(x) - f(x)
    ensures SumSet(s, h) == SumSet(s, g) - SumSet(s, f)
    decreases s
  {
    if s != {} {
      var x :| x in s && SumSet(s, h) == h(x) + SumSet(s - {x}, h);
      SumSetTake(s, f, x);
      SumSetTake(s, g, x);
      SumSetDifference(s - {x}, f, g, h);
    }
  }

  lemma {:induction false} SumSetBounds(s: set<Pubkey>, f: Pubkey -> int)
    requires forall x :: x in s ==> 0 <= f(x) <= U64_MAX
    ensures 0 <= SumSet(s, f) <= |s| * U64_MAX
    decreases s
  {
    if s != {} {
      var x :| x in s && SumSet(s, f) == f(x) + SumSet(s - {x}, f);
      SumSetBounds(s - {x}, f);
      assert |s| == |s - {x}| + 1;
    }
  }

  /** The total of a measure over a list of accounts. */
  function SumBy(f: Account -> int, list: seq<Account>): int {
    if list == [] then 0 else f(list[0]) + SumBy(f, list[1..])
  }

  lemma {:induction false} SumByUpdate(f: Account -> int, list: seq<Account>, i: nat, a: Account)
    requires i < |list|
    ensures SumBy(f, list[i := a]) == SumBy(f, list) - f(list[i]) + f(a)
  {
    if i > 0 {
      SumByUpdate(f, list[1..], i - 1, a);
      assert list[i := a][1..] == list[1..][i - 1 := a];
    } else {
      assert list[i := a][1..] == list[1..];
    }
  }

  /** The total of a pairwise measure over two aligned lists. */
  function SumZip(g: (Account, Account) -> int, pre: seq<Account>, post: seq<Account>): int {
    if pre == [] || post == [] then 0 else g(pre[0], post[0]) + SumZip(g, pre[1..], post[1..])
  }

  function Lamports(): Account -> int {
    (a: Account) => a.lamports
  }

  /** How much a measure changes from an account to its successor. */
  function Change(f: Account -> int): (Account, Account) -> int {
    (p: Account, n: Account) => f(n) - f(p)
  }

  lemma {:induction false} ChangeTotal(f: Account -> int, pre: seq<Account>, post: seq<Account>)
    requires |pre| == |post|
    ensures SumZip(Change(f), pre, post) == SumBy(f, post) - SumBy(f, pre)
  {
    if pre != [] { ChangeTotal(f, pre[1..], post[1..]); }
  }

  lemma {:induction false} SumZipZero(g: (Account, Account) -> int, pre: seq<Account>, post: seq<Account>)
    requires |pre| == |post| && forall k :: 0 <= k < |pre| ==> g(pre[k], post[k]) == 0
    ensures SumZip(g, pre, post) == 0
  {
    if pre != [] { SumZipZero(g, pre[1..], post[1..]); }
  }

  lemma {:induction false} SumZipOne(g: (Account, Account) -> int, pre: seq<Account>, post: seq<Account>, i: nat)
    requires |pre| == |post| && i < |pre|
    requires forall k :: 0 <= k < |pre| && k != i ==> g(pre[k], post[k]) == 0
    ensures SumZip(g, pre, post) == g(pre[i], post[i])
  {
    if i == 0 {
      SumZipZero(g, pre[1..], post[1..]);
    } else {
      assert g(pre[0], post[0]) == 0;
      SumZipOne(g, pre[1..], post[1..], i - 1);
    }
  }

  lemma {:induction false} SumByPointwise(f: Account -> int, pre: seq<Account>, post: seq<Account>)
    requires |pre| == |post| && forall i :: 0 <= i < |pre| ==> f(post[i]) == f(pre[i])
    ensures SumBy(f, post) == SumBy(f, pre)
  {
    if pre != [] { SumByPointwise(f, pre[1..], post[1..]); }
  }

  lemma {:induction false} SumByNonNegative(f: Account -> int, list: seq<Account>)
    requires forall a: Account :: f(a) >= 0
    ensures SumBy(f, list) >= 0
  {
    if list != [] { SumByNonNegative(f, list[1..]); }
  }

  lemma {:induction false} SumByAtLeast(f: Account -> int, list: seq<Account>, i: nat)
    requires i < |list| && forall a: Account :: f(a) >= 0
    ensures f(list[i]) <= SumBy(f, list)
  {
    if i > 0 { SumByAtLeast(f, list[1..], i - 1); } else { SumByNonNegative(f, list[1..]); }
  }

  lemma {:induction false} SumByAtLeastTwo(f: Account -> int, list: seq<Account>, i: nat, j: nat)
    requires i < j < |list| && forall a: Account :: f(a) >= 0
    ensures f(list[i]) + f(list[j]) <= SumBy(f, list)
  {
    if i > 0 { SumByAtLeastTwo(f, list[1..], i - 1, j - 1); } else { SumByAtLeast(f, list[1..], j - 1); }
  }

  lemma {:induction false} SumByZero(f: Account -> int, list: seq<Account>)
    requires forall a :: a in list ==> f(a) == 0
    ensures SumBy(f, list) == 0
  {
    if list != [] { SumByZero(f, list[1..]); }
  }
}
