/** Names, machine integers and small sequence facts shared by the whole model. */
module Types {
  /** Whatever a request or a table calls a participant; nothing checks that it is an address. */
  type Address = string
  type Symbol = string

  /** An address as go-ethereum prints it: what signatures recover and what contracts name. */
  type HexAddress = s: string | |s| == 42 witness seq(42, _ => '0')

  /** The printed hash of a session definition. */
  type SessionId = s: string | |s| == 66 witness seq(66, _ => '0')

  type ChannelId = string
  type Token = string
  type ChainId = nat

  datatype Option<+T> = None | Some(value: T)

  const TWO_63: int := 0x8000_0000_0000_0000
  const TWO_64: int := 0x1_0000_0000_0000_0000

  type U64 = x: int | 0 <= x < TWO_64

  /** The int64 that Go's conversions and additions leave behind: `x` modulo 2^64, as a signed word. */
  function Wrap64(x: int): (r: int)
    ensures -TWO_63 <= r < TWO_63
    ensures -TWO_63 <= x < TWO_63 ==> r == x
  {
    (x + TWO_63) % TWO_64 - TWO_63
  }

  /** The one signed word that differs from `x` by a multiple of 2^64. */
  lemma WrapUnique(x: int, r: int, n: int)
    requires x == r + 0x1_0000_0000_0000_0000 * n && -TWO_63 <= r < TWO_63
    ensures Wrap64(x) == r
  {
    assert (x + TWO_63) / 0x1_0000_0000_0000_0000 == n;
  }

  /** Wrapping early, late or twice makes no difference. */
  lemma WrapAdd(x: int, y: int)
    ensures Wrap64(Wrap64(x) + y) == Wrap64(x + y)
    ensures Wrap64(x + Wrap64(y)) == Wrap64(x + y)
  {
    var w := Wrap64(x + y);
    var p, q, s := (x + TWO_63) / TWO_64, (y + TWO_63) / TWO_64, (x + y + TWO_63) / TWO_64;
    WrapShift(x);
    WrapShift(y);
    WrapShift(x + y);
    WrapUnique(Wrap64(x) + y, w, s - p);
    WrapUnique(x + Wrap64(y), w, s - q);
  }

  lemma WrapBoth(x: int, y: int)
    ensures Wrap64(Wrap64(x) + Wrap64(y)) == Wrap64(x + y)
  {
    WrapAdd(Wrap64(x), y);
    WrapAdd(x, y);
  }

  lemma WrapShift(x: int)
    ensures Wrap64(x) == x - TWO_64 * ((x + TWO_63) / TWO_64)
  {
  }

  function LowerChar(c: char): char {
    if 'A' <= c <= 'Z' then c + 32 as char else c
  }

  /** strings.ToLower on the ASCII spellings of hexadecimal addresses. */
  function Lower(s: string): (r: string)
    ensures |r| == |s|
  {
    seq(|s|, i requires 0 <= i < |s| => LowerChar(s[i]))
  }

  const UPPER := "ABCDEFGHIJKLMNOPQRSTUVWXYZ"
  const LOWER := "abcdefghijklmnopqrstuvwxyz"

  /** Each capital letter becomes its small one, everything else stays. */
  lemma LowerExact(s: string, i: nat)
    requires i < |s|
    ensures s[i] !in UPPER ==> Lower(s)[i] == s[i]
    ensures forall j :: 0 <= j < 26 && s[i] == UPPER[j] ==> Lower(s)[i] == LOWER[j]
  {
    assert forall j :: 0 <= j < 26 ==> UPPER[j] as int == 'A' as int + j && LOWER[j] as int == 'a' as int + j;
    if 'A' <= s[i] <= 'Z' {
      assert UPPER[s[i] as int - 'A' as int] == s[i];
    }
  }

  function Map<T, U>(xs: seq<T>, f: T -> U): (r: seq<U>)
    ensures |r| == |xs|
    ensures forall i :: 0 <= i < |xs| ==> r[i] == f(xs[i])
  {
    seq(|xs|, i requires 0 <= i < |xs| => f(xs[i]))
  }

  predicate NoDup<T(==)>(xs: seq<T>) {
    forall i, j :: 0 <= i < j < |xs| ==> xs[i] != xs[j]
  }

  lemma AppendThree<T>(xs: seq<T>, a: seq<T>, b: seq<T>, c: seq<T>)
    ensures xs + (a + b + c) == xs + a + b + c
  {
  }

  /** The sequence without its element at `k`. */
  function Without<T>(xs: seq<T>, k: nat): (r: seq<T>)
    requires k < |xs|
    ensures |r| == |xs| - 1
  {
    xs[..k] + xs[k + 1..]
  }

  lemma WithoutMultiset<T>(xs: seq<T>, k: nat)
    requires k < |xs|
    ensures multiset(xs) == multiset(Without(xs, k)) + multiset{xs[k]}
  {
    assert xs == xs[..k] + [xs[k]] + xs[k + 1..];
  }

  /** The last element of a list, found again in a permutation of it: what remains are permutations. */
  lemma PickLast<T>(xs: seq<T>, ys: seq<T>) returns (k: nat)
    requires multiset(xs) == multiset(ys) && xs != []
    ensures k < |ys| && ys[k] == xs[|xs| - 1]
    ensures multiset(xs[..|xs| - 1]) == multiset(Without(ys, k))
  {
    var n := |xs| - 1;
    assert xs == xs[..n] + [xs[n]];
    assert xs[n] in multiset(ys);
    k :| 0 <= k < |ys| && ys[k] == xs[n];
    WithoutMultiset(ys, k);
    assert multiset(xs[..n]) == multiset(xs) - multiset{xs[n]};
    assert multiset(Without(ys, k)) == multiset(ys) - multiset{ys[k]};
  }

  lemma MapWithout<T, U>(xs: seq<T>, k: nat, f: T -> U)
    requires k < |xs|
    ensures multiset(Map(xs, f)) == multiset(Map(Without(xs, k), f)) + multiset{f(xs[k])}
  {
    WithoutMultiset(Map(xs, f), k);
    assert Map(Without(xs, k), f) == Without(Map(xs, f), k);
  }

  /** Mapping a permutation gives a permutation. */
  lemma {:induction false} MapPermutation<T, U>(xs: seq<T>, ys: seq<T>, f: T -> U)
    requires multiset(xs) == multiset(ys)
    ensures multiset(Map(xs, f)) == multiset(Map(ys, f))
  {
    if xs == [] {
      assert |multiset(ys)| == 0;
    } else {
      var n := |xs| - 1;
      var k := PickLast(xs, ys);
      MapPermutation(xs[..n], Without(ys, k), f);
      MapWithout(xs, n, f);
      MapWithout(ys, k, f);
      assert Without(xs, n) == xs[..n];
    }
  }

  lemma SameMembers<T>(xs: seq<T>, ys: seq<T>)
    requires multiset(xs) == multiset(ys)
    ensures |xs| == |ys|
    ensures forall x :: x in xs <==> x in ys
  {
    assert |xs| == |multiset(xs)| && |ys| == |multiset(ys)|;
    assert forall x :: x in xs <==> x in multiset(xs);
    assert forall x :: x in ys <==> x in multiset(ys);
  }

  function SetOf<T(==)>(xs: seq<T>): set<T> {
    set x | x in xs
  }

  lemma NoDupPush<T>(xs: seq<T>, x: T)
    ensures NoDup(xs + [x]) <==> NoDup(xs) && x !in xs
  {
    var all := xs + [x];
    assert forall i :: 0 <= i < |xs| ==> all[i] == xs[i];
    if NoDup(all) {
      assert all[|xs|] == x;
    }
  }

  lemma SetOfPush<T>(xs: seq<T>, x: T)
    ensures SetOf(xs + [x]) == SetOf(xs) + {x}
  {
  }

  /** A list holds at most as many different names as places, and exactly as many when no name repeats. */
  lemma {:induction false} SetOfSize<T>(xs: seq<T>)
    ensures |SetOf(xs)| <= |xs|
    ensures |SetOf(xs)| == |xs| <==> NoDup(xs)
  {
    if xs == [] {
      assert SetOf(xs) == {};
    } else {
      var front, x := xs[..|xs| - 1], xs[|xs| - 1];
      assert xs == front + [x];
      SetOfSize(front);
      NoDupPush(front, x);
      SetOfPush(front, x);
      if x in front {
        assert SetOf(xs) == SetOf(front);
      }
    }
  }

  lemma {:induction false} DistinctFill<T>(xs: seq<T>, ys: seq<T>)
    requires NoDup(xs) && |xs| == |ys| && forall x :: x in xs ==> x in ys
    ensures multiset(xs) == multiset(ys)
  {
    if xs != [] {
      var n := |xs| - 1;
      var x := xs[n];
      assert x in ys;
      var k :| 0 <= k < |ys| && ys[k] == x;
      WithoutMultiset(ys, k);
      forall z | z in xs[..n] ensures z in Without(ys, k) {
        assert z in ys && z != x;
        assert z in multiset(Without(ys, k));
      }
      DistinctFill(xs[..n], Without(ys, k));
      assert xs == xs[..n] + [x];
    }
  }

  lemma NoDupPermutation<T>(xs: seq<T>, ys: seq<T>)
    requires multiset(xs) == multiset(ys) && NoDup(xs)
    ensures NoDup(ys)
  {
    SameMembers(xs, ys);
    assert SetOf(xs) == SetOf(ys);
    SetOfSize(xs);
    SetOfSize(ys);
  }

  /** Distinct names, as many as the list has places, all on the list: the list is a permutation of them. */
  lemma Bijection<T>(xs: seq<T>, ys: seq<T>)
    requires NoDup(xs) && |xs| == |ys| && forall x :: x in xs ==> x in ys
    ensures multiset(xs) == multiset(ys) && NoDup(ys)
  {
    DistinctFill(xs, ys);
    NoDupPermutation(xs, ys);
  }
}
