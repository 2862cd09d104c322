/** Searching for a name that is not taken yet, by counting up a numeric suffix. */
module FreshNames {
  import opened Sequences
  import Decimal

  /** `{front}{n:0width}`; a width of one is plain decimal notation. */
  function Name(front: string, width: nat, n: nat): string {
    front + Decimal.ZeroPadded(n, width)
  }

  lemma NamesDiffer(front: string, width: nat, m: nat, n: nat)
    requires Name(front, width, m) == Name(front, width, n)
    ensures m == n
  {
    DropPrefix(front, Decimal.ZeroPadded(m, width));
    DropPrefix(front, Decimal.ZeroPadded(n, width));
    Decimal.ParseOfZeroPadded(m, width);
    Decimal.ParseOfZeroPadded(n, width);
  }

  /** The `count` names that are tried from `first` on. */
  function Tried(front: string, width: nat, first: nat, count: nat): set<string>
    decreases count
  {
    if count == 0 then {} else {Name(front, width, first)} + Tried(front, width, first + 1, count - 1)
  }

  lemma {:induction false} TriedIsNew(front: string, width: nat, first: nat, count: nat, n: nat)
    requires n < first
    ensures Name(front, width, n) !in Tried(front, width, first, count)
    decreases count
  {
    if count > 0 {
      TriedIsNew(front, width, first + 1, count - 1, n);
      if Name(front, width, n) == Name(front, width, first) {
        NamesDiffer(front, width, n, first);
      }
    }
  }

  lemma {:induction false} TriedSize(front: string, width: nat, first: nat, count: nat)
    ensures |Tried(front, width, first, count)| == count
    decreases count
  {
    if count > 0 {
      TriedSize(front, width, first + 1, count - 1);
      TriedIsNew(front, width, first + 1, count - 1, first);
    }
  }

  lemma {:induction false} TriedLast(front: string, width: nat, first: nat, count: nat)
    ensures Tried(front, width, first, count + 1)
         == Tried(front, width, first, count) + {Name(front, width, first + count)}
    decreases count
  {
    if count > 0 {
      TriedLast(front, width, first + 1, count - 1);
    }
  }

  /** The pigeonhole principle: a search that has only met taken names is no longer than there are taken names. */
  lemma TriedIsBounded(front: string, width: nat, first: nat, count: nat, taken: set<string>)
    requires Tried(front, width, first, count) <= taken
    ensures count <= |taken|
  {
    TriedSize(front, width, first, count);
    assert taken == Tried(front, width, first, count) + (taken - Tried(front, width, first, count));
  }

  /** The first number from `n` on whose name is free, looking at no more than `fuel` taken ones. */
  function Search(front: string, width: nat, n: nat, taken: set<string>, fuel: nat): (r: nat)
    ensures r >= n
    ensures Name(front, width, r) in taken ==> Tried(front, width, n, fuel + 1) <= taken
    decreases fuel
  {
    if Name(front, width, n) !in taken || fuel == 0 then n
    else Search(front, width, n + 1, taken, fuel - 1)
  }

  function FreshName(front: string, width: nat, first: nat, taken: set<string>): string {
    Name(front, width, Search(front, width, first, taken, |taken|))
  }

  /** Looking at as many names as are taken is enough. */
  lemma FreshNameIsFree(front: string, width: nat, first: nat, taken: set<string>)
    ensures FreshName(front, width, first, taken) !in taken
  {
    if FreshName(front, width, first, taken) in taken {
      TriedIsBounded(front, width, first, |taken| + 1, taken);
    }
  }

  /** Every name the search passes over is taken. */
  lemma {:induction false} SearchSkipsTaken(front: string, width: nat, n: nat, taken: set<string>, fuel: nat, m: nat)
    requires n <= m < Search(front, width, n, taken, fuel)
    ensures Name(front, width, m) in taken
    decreases fuel
  {
    if n < m {
      SearchSkipsTaken(front, width, n + 1, taken, fuel - 1, m);
    }
  }

  lemma {:induction false} SearchStops(front: string, width: nat, first: nat, taken: set<string>, n: nat, fuel: nat)
    requires first <= n <= first + fuel && Name(front, width, n) !in taken
    requires forall m :: first <= m < n ==> Name(front, width, m) in taken
    ensures Search(front, width, first, taken, fuel) == n
    decreases n - first
  {
    if first < n {
      SearchStops(front, width, first + 1, taken, n, fuel - 1);
    }
  }

  /** The search loop; it terminates because every failure uses up a taken name. */
  method FindFreshName(front: string, width: nat, first: nat, taken: set<string>) returns (name: string)
    ensures name == FreshName(front, width, first, taken)
    ensures name !in taken
  {
    var suffix := first;
    while Name(front, width, suffix) in taken
      invariant first <= suffix
      invariant forall m :: first <= m < suffix ==> Name(front, width, m) in taken
      invariant Tried(front, width, first, suffix - first) <= taken
      decreases first + |taken| - suffix
    {
      TriedLast(front, width, first, suffix - first);
      TriedIsBounded(front, width, first, suffix - first + 1, taken);
      suffix := suffix + 1;
    }
    TriedIsBounded(front, width, first, suffix - first, taken);
    SearchStops(front, width, first, taken, suffix, |taken|);
    name := Name(front, width, suffix);
  }
}
