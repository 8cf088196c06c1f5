/**
 * Amounts added up key by key, with the amounts that name no key kept apart.
 */
module KeyedSums {
  import opened Wrappers
  import opened Fixed4

  /** One row: an optional owner and an amount. */
  datatype Item = Item(key: Option<string>, amount: int)

  /** A missing or empty id is falsy. */
  predicate Named(b: Option<string>) {
    b.Some? && b.value != ""
  }

  function SumFor(items: seq<Item>, id: string): int {
    if items == [] then 0
    else
      var x := items[|items| - 1];
      SumFor(items[..|items| - 1], id) + if Named(x.key) && x.key.value == id then x.amount else 0
  }

  function CountFor(items: seq<Item>, id: string): nat {
    if items == [] then 0
    else
      var x := items[|items| - 1];
      CountFor(items[..|items| - 1], id) + if Named(x.key) && x.key.value == id then 1 else 0
  }

  function UnkeyedSum(items: seq<Item>): int {
    if items == [] then 0
    else
      var x := items[|items| - 1];
      UnkeyedSum(items[..|items| - 1]) + if Named(x.key) then 0 else x.amount
  }

  function UnkeyedCount(items: seq<Item>): nat {
    if items == [] then 0
    else
      var x := items[|items| - 1];
      UnkeyedCount(items[..|items| - 1]) + if Named(x.key) then 0 else 1
  }

  function Total(items: seq<Item>): int {
    if items == [] then 0 else Total(items[..|items| - 1]) + items[|items| - 1].amount
  }

  ghost predicate Distinct(ids: seq<string>) {
    forall i, j :: 0 <= i < j < |ids| ==> ids[i] != ids[j]
  }

  ghost predicate Covers(ids: seq<string>, items: seq<Item>) {
    forall i :: 0 <= i < |items| && Named(items[i].key) ==> items[i].key.value in ids
  }

  function SumsFor(items: seq<Item>, ids: seq<string>): (v: seq<int>)
    ensures |v| == |ids| && forall i :: 0 <= i < |ids| ==> v[i] == SumFor(items, ids[i])
  {
    seq(|ids|, i requires 0 <= i < |ids| => SumFor(items, ids[i]))
  }

  lemma {:induction false} SumMinorUpdate(v: seq<int>, j: nat, x: int)
    requires j < |v|
    ensures SumMinor(v[j := x]) == SumMinor(v) - v[j] + x
  {
    var n := |v| - 1;
    if j == n {
      assert v[j := x][..n] == v[..n];
    } else {
      assert v[j := x][..n] == v[..n][j := x];
      SumMinorUpdate(v[..n], j, x);
    }
  }

  lemma {:induction false} SumOfZeros(v: seq<int>)
    requires forall i :: 0 <= i < |v| ==> v[i] == 0
    ensures SumMinor(v) == 0
  {
    if v != [] { SumOfZeros(v[..|v| - 1]); }
  }

  /** The sums by key and the sum without a key together are all the money. */
  lemma {:induction false} KeysPartition(items: seq<Item>, ids: seq<string>)
    requires Distinct(ids) && Covers(ids, items)
    ensures SumMinor(SumsFor(items, ids)) + UnkeyedSum(items) == Total(items)
  {
    if items == [] {
      SumOfZeros(SumsFor(items, ids));
    } else {
      var n := |items| - 1;
      var x := items[n];
      assert Covers(ids, items[..n]);
      KeysPartition(items[..n], ids);
      var before, after := SumsFor(items[..n], ids), SumsFor(items, ids);
      if Named(x.key) {
        var j :| 0 <= j < |ids| && ids[j] == x.key.value;
        assert after == before[j := before[j] + x.amount];
        SumMinorUpdate(before, j, before[j] + x.amount);
      } else {
        assert after == before;
      }
    }
  }

  lemma NoItems()
    ensures forall id :: SumFor([], id) == 0 && CountFor([], id) == 0
    ensures UnkeyedSum([]) == 0 && UnkeyedCount([]) == 0
  {
  }

  lemma OneMore(items: seq<Item>, i: nat)
    requires i < |items|
    ensures
      var x := items[i];
      && (forall id :: SumFor(items[..i + 1], id)
                    == SumFor(items[..i], id) + if Named(x.key) && x.key.value == id then x.amount else 0)
      && (forall id :: CountFor(items[..i + 1], id)
                    == CountFor(items[..i], id) + if Named(x.key) && x.key.value == id then 1 else 0)
      && UnkeyedSum(items[..i + 1]) == UnkeyedSum(items[..i]) + (if Named(x.key) then 0 else x.amount)
      && UnkeyedCount(items[..i + 1]) == UnkeyedCount(items[..i]) + (if Named(x.key) then 0 else 1)
  {
    assert items[..i + 1][..i] == items[..i] && items[..i + 1][i] == items[i];
  }

  /** An id outside the list has nothing. */
  lemma {:induction false} NothingElsewhere(items: seq<Item>, ids: seq<string>)
    requires Covers(ids, items)
    ensures forall id :: id !in ids ==> SumFor(items, id) == 0 && CountFor(items, id) == 0
  {
    if items != [] {
      assert Covers(ids, items[..|items| - 1]);
      NothingElsewhere(items[..|items| - 1], ids);
    }
  }

  lemma ItemsSnoc(items: seq<Item>, x: Item)
    ensures Total(items + [x]) == Total(items) + x.amount
    ensures UnkeyedSum(items + [x]) == UnkeyedSum(items) + if Named(x.key) then 0 else x.amount
    ensures forall id :: SumFor(items + [x], id) == SumFor(items, id) + if Named(x.key) && x.key.value == id then x.amount else 0
    ensures forall id :: CountFor(items + [x], id) == CountFor(items, id) + if Named(x.key) && x.key.value == id then 1 else 0
  {
    assert (items + [x])[..|items|] == items;
  }
}
