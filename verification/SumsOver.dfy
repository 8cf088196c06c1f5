/** Sums of a figure over a list of distinct names, and over a part of that list. */
module SumsOver {
  import opened KeyedSums

  function SumOver(ids: seq<string>, f: string -> int): int {
    if ids == [] then 0 else SumOver(ids[..|ids| - 1], f) + f(ids[|ids| - 1])
  }

  lemma {:induction false} SumOverConcat(a: seq<string>, b: seq<string>, f: string -> int)
    ensures SumOver(a + b, f) == SumOver(a, f) + SumOver(b, f)
  {
    if b == [] {
      assert a + b == a;
    } else {
      SumOverConcat(a, b[..|b| - 1], f);
      assert (a + b)[..|a + b| - 1] == a + b[..|b| - 1];
    }
  }

  lemma SumOverOne(id: string, f: string -> int)
    ensures SumOver([id], f) == f(id)
  {
    assert [id][..0] == [];
  }

  lemma SumOverWithout(ids: seq<string>, j: nat, f: string -> int)
    requires j < |ids|
    ensures SumOver(ids, f) == SumOver(ids[..j] + ids[j + 1..], f) + f(ids[j])
  {
    hide SumOver;
    var a, x, b := ids[..j], [ids[j]], ids[j + 1..];
    assert ids == (a + x) + b;
    SumOverConcat(a + x, b, f);
    SumOverConcat(a, x, f);
    SumOverConcat(a, b, f);
    SumOverOne(ids[j], f);
  }

  lemma FirstIsMember(ids: seq<string>)
    ensures ids == [] || ids[0] in ids
  {
  }

  lemma NobodyLeft(ids: seq<string>, more: seq<string>)
    requires more == [] && forall id :: id in ids ==> id in more
    ensures ids == []
  {
    FirstIsMember(ids);
  }

  lemma WithoutLast(ids: seq<string>, more: seq<string>)
    requires more != [] && more[|more| - 1] !in ids && forall id :: id in ids ==> id in more
    ensures forall id :: id in ids ==> id in more[..|more| - 1]
  {
    forall id | id in ids ensures id in more[..|more| - 1] {
      var k :| 0 <= k < |more| && more[k] == id;
      assert more[..|more| - 1][k] == id;
    }
  }

  lemma WithoutIsSubset(ids: seq<string>, j: nat, more: seq<string>)
    requires Distinct(ids) && Distinct(more) && more != [] && j < |ids| && ids[j] == more[|more| - 1]
    requires forall id :: id in ids ==> id in more
    ensures
      var rest := ids[..j] + ids[j + 1..];
      && Distinct(rest)
      && (forall id :: id in rest ==> id in more[..|more| - 1])
      && (forall id :: id in ids <==> id in rest || id == ids[j])
  {
    var rest, n := ids[..j] + ids[j + 1..], |more| - 1;
    forall id | id in rest ensures id in more[..n] && id in ids {
      var k :| 0 <= k < |rest| && rest[k] == id;
      var i := if k < j then k else k + 1;
      assert id == ids[i] && id in ids;
      var m :| 0 <= m < |more| && more[m] == id;
      assert more[..n][m] == id;
    }
    forall id | id in ids ensures id in rest || id == ids[j] {
      var k :| 0 <= k < |ids| && ids[k] == id;
      if k < j { assert rest[k] == id; } else if k > j { assert rest[k - 1] == id; }
    }
  }

  lemma LastIsNotEarlier(ids: seq<string>)
    requires Distinct(ids) && ids != []
    ensures ids[|ids| - 1] !in ids[..|ids| - 1]
    ensures Distinct(ids[..|ids| - 1])
    ensures forall id :: id in ids <==> id in ids[..|ids| - 1] || id == ids[|ids| - 1]
  {
    assert ids == ids[..|ids| - 1] + [ids[|ids| - 1]];
  }

  /** What g makes of a name of the part, and nothing of the others. */
  function Within(part: seq<string>, g: string -> int, id: string): int {
    if id in part then g(id) else 0
  }

  /**
   * A smaller figure over a part of the names never sums to more than a figure over all of them, and to
   * the same exactly when both figures agree on every name, a name outside the part counting as nothing.
   */
  lemma {:induction false} PartSumsToLess(part: seq<string>, ids: seq<string>, g: string -> int, f: string -> int)
    requires Distinct(part) && Distinct(ids) && forall id :: id in part ==> id in ids
    requires forall id :: id in part ==> g(id) <= f(id)
    requires forall id :: id in ids ==> f(id) >= 0
    ensures SumOver(part, g) <= SumOver(ids, f)
    ensures SumOver(part, g) == SumOver(ids, f) <==> forall id :: id in ids ==> f(id) == Within(part, g, id)
    decreases |ids|
  {
    if ids == [] {
      NobodyLeft(part, ids);
    } else {
      var n := |ids| - 1;
      var x := ids[n];
      LastIsNotEarlier(ids);
      if x in part {
        var j :| 0 <= j < |part| && part[j] == x;
        var rest := part[..j] + part[j + 1..];
        WithoutIsSubset(part, j, ids);
        SumOverWithout(part, j, g);
        PartSumsToLess(rest, ids[..n], g, f);
        forall id | id in ids[..n] ensures Within(rest, g, id) == Within(part, g, id) {}
      } else {
        WithoutLast(part, ids);
        PartSumsToLess(part, ids[..n], g, f);
      }
    }
  }
}
