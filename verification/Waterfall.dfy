/**
 * First-in first-out allocation of a pool over amounts, as the greedy loop runs it and in closed form.
 */
module Waterfall {
  import opened Fixed4

  ghost predicate NonNegative(v: seq<int>) {
    forall i :: 0 <= i < |v| ==> v[i] >= 0
  }

  /** What is left of the pool after everything before i took its full amount, up to nets[i]. */
  function Share(nets: seq<int>, pool: int, i: nat): int
    requires i < |nets|
  {
    Min(nets[i], Max(pool - SumMinor(nets[..i]), 0))
  }

  function Shares(nets: seq<int>, pool: int): (s: seq<int>)
    ensures |s| == |nets| && forall i :: 0 <= i < |nets| ==> s[i] == Share(nets, pool, i)
  {
    seq(|nets|, i requires 0 <= i < |nets| => Share(nets, pool, i))
  }

  lemma {:induction false} PrefixGrows(v: seq<int>, i: nat, j: nat)
    requires NonNegative(v) && i <= j <= |v|
    ensures 0 <= SumMinor(v[..i]) <= SumMinor(v[..j])
  {
    if i < j {
      PrefixGrows(v, i, j - 1);
      SumPrefix(v, j - 1);
    } else if i > 0 {
      PrefixGrows(v, i - 1, i - 1);
      SumPrefix(v, i - 1);
    }
  }

  lemma SumPrefix(v: seq<int>, i: nat)
    requires i < |v|
    ensures SumMinor(v[..i + 1]) == SumMinor(v[..i]) + v[i]
  {
    assert v[..i + 1][..i] == v[..i];
  }

  lemma {:induction false} SharesPrefix(nets: seq<int>, pool: int, n: nat)
    requires NonNegative(nets) && pool >= 0 && n <= |nets|
    ensures SumMinor(Shares(nets, pool)[..n]) == Min(pool, SumMinor(nets[..n]))
  {
    PrefixGrows(nets, 0, n);
    if n > 0 {
      SharesPrefix(nets, pool, n - 1);
      SumPrefix(Shares(nets, pool), n - 1);
      SumPrefix(nets, n - 1);
    } else {
      assert nets[..0] == [] && Shares(nets, pool)[..0] == [];
    }
  }

  /** The shares exhaust the pool or the nets, whichever is smaller. */
  lemma SharesTotal(nets: seq<int>, pool: int)
    requires NonNegative(nets) && pool >= 0
    ensures SumMinor(Shares(nets, pool)) == Min(pool, SumMinor(nets))
  {
    SharesPrefix(nets, pool, |nets|);
    assert Shares(nets, pool)[..|nets|] == Shares(nets, pool) && nets[..|nets|] == nets;
  }

  /** Every share fits its net, and a share is paid only when everything earlier is paid in full. */
  lemma SharesAreFifo(nets: seq<int>, pool: int, i: nat)
    requires NonNegative(nets) && i < |nets|
    ensures 0 <= Shares(nets, pool)[i] <= nets[i]
    ensures Shares(nets, pool)[i] > 0 ==> forall j :: 0 <= j < i ==> Shares(nets, pool)[j] == nets[j]
  {
    if Shares(nets, pool)[i] > 0 {
      forall j | 0 <= j < i ensures Shares(nets, pool)[j] == nets[j] {
        PrefixGrows(nets, j + 1, i);
        SumPrefix(nets, j);
      }
    }
  }

  /** Reordering the amounts moves the shares around but not their total. */
  lemma TotalIgnoresOrder(a: seq<int>, b: seq<int>, pool: int)
    requires NonNegative(a) && NonNegative(b) && pool >= 0 && multiset(a) == multiset(b)
    ensures SumMinor(Shares(a, pool)) == SumMinor(Shares(b, pool))
  {
    SharesTotal(a, pool);
    SharesTotal(b, pool);
    SumMinorPermutation(a, b);
  }

  // ---- splits

  /** The part of the shares that goes to one label. */
  function PartOf<T(==)>(labels: seq<T>, shares: seq<int>, x: T): int
    requires |labels| == |shares|
  {
    if labels == [] then 0
    else
      var n := |labels| - 1;
      PartOf(labels[..n], shares[..n], x) + if labels[n] == x then shares[n] else 0
  }

  lemma PartSnoc<T>(labels: seq<T>, shares: seq<int>, i: nat, x: T)
    requires |labels| == |shares| && i < |labels|
    ensures PartOf(labels[..i + 1], shares[..i + 1], x)
         == PartOf(labels[..i], shares[..i], x) + if labels[i] == x then shares[i] else 0
  {
    assert labels[..i + 1][..i] == labels[..i] && shares[..i + 1][..i] == shares[..i];
  }
}
