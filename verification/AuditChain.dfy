/**
 * Which tables pass the integrity check: a table filled by the chained writer verifies exactly when
 * every committed key was larger than all keys before it and no row bypassed the writer.
 */
module AuditChain {
  import opened Wrappers
  import opened AuditTable

  ghost predicate IsChained(r: Row) {
    r.hash.Some?
  }

  ghost predicate NoDirect(rows: seq<Row>) {
    forall i :: 0 <= i < |rows| ==> IsChained(rows[i])
  }

  /** Row r was written by the chained writer while `before` was the committed table. */
  ghost predicate LinksToHead(h: HashFn, before: seq<Row>, r: Row) {
    && r.payload.Some?
    && r.prevHash == Some(HeadHash(before))
    && r.hash == Some(h(HeadHash(before), r.payload.value))
  }

  /** Row i is one the system can commit after rows 0..i-1. */
  ghost predicate RowProduced(h: HashFn, rows: seq<Row>, i: nat)
    requires i < |rows|
  {
    if IsChained(rows[i]) then NoDirect(rows[..i]) ==> LinksToHead(h, rows[..i], rows[i])
    else rows[i].payload.None? && rows[i].prevHash.None?
  }

  /**
   * `rows`, in commit order, is a table the system can produce: a row that bypassed the writer has
   * no chain columns, and every chained row links to the latest row at its commit. Nothing is said
   * about links made after a bypassing row.
   */
  ghost predicate Produced(h: HashFn, rows: seq<Row>) {
    forall i :: 0 <= i < |rows| ==> RowProduced(h, rows, i)
  }

  // ---- sufficiency

  lemma IncreasingVerifies(h: HashFn, rows: seq<Row>)
    requires Produced(h, rows) && NoDirect(rows) && KeysIncreasing(rows)
    ensures Verifies(h, SortByKey(rows))
  {
    SortedAlready(rows);
    forall i | 0 <= i < |rows| ensures LinkOk(h, rows, i) {
      IncreasingLink(h, rows, i);
    }
  }

  lemma IncreasingLink(h: HashFn, rows: seq<Row>, i: nat)
    requires Produced(h, rows) && NoDirect(rows) && KeysIncreasing(rows) && i < |rows|
    ensures LinkOk(h, rows, i)
  {
    var before := rows[..i];
    SortedAlready(before);
    assert RowProduced(h, rows, i) && IsChained(rows[i]);
    if i > 0 { assert IsChained(rows[i - 1]); }
  }

  // ---- necessity: count how many links lie between a row and the start of the chain

  /** Row i's own hash is right, and it links to row head[i], the latest row before it. */
  ghost predicate HeadOk(h: HashFn, rows: seq<Row>, head: seq<int>, i: nat)
    requires |head| == |rows| && i < |rows|
  {
    && rows[i].payload.Some? && rows[i].prevHash.Some?
    && rows[i].hash == Some(h(rows[i].prevHash.value, rows[i].payload.value))
    && if i == 0 then rows[i].prevHash == Some(GENESIS)
       else
         && 0 <= head[i] < i
         && rows[i].prevHash == rows[head[i]].hash
         && IsLatest(rows[..i], head[i])
  }

  ghost predicate HeadTree(h: HashFn, rows: seq<Row>, head: seq<int>) {
    && |head| == |rows|
    && forall i :: 0 <= i < |rows| ==> HeadOk(h, rows, head, i)
  }

  lemma HeadAt(h: HashFn, rows: seq<Row>, i: nat) returns (m: int)
    requires Produced(h, rows) && NoDirect(rows) && DistinctIds(rows) && i < |rows|
    ensures forall head: seq<int> :: |head| == |rows| && head[i] == m ==> HeadOk(h, rows, head, i)
  {
    var before := rows[..i];
    assert RowProduced(h, rows, i) && IsChained(rows[i]);
    m := 0;
    if i > 0 {
      m := LatestExists(before);
      assert IsChained(rows[m]);
    }
  }

  lemma {:induction false} HeadsExist(h: HashFn, rows: seq<Row>) returns (head: seq<int>)
    requires Produced(h, rows) && NoDirect(rows) && DistinctIds(rows)
    ensures HeadTree(h, rows, head)
  {
    head := seq(|rows|, _ => 0);
    var n := 0;
    while n < |rows|
      invariant n <= |rows| == |head|
      invariant forall i :: 0 <= i < n ==> HeadOk(h, rows, head, i)
    {
      var m := HeadAt(h, rows, n);
      var was := head;
      head := head[n := m];
      forall i | 0 <= i <= n ensures HeadOk(h, rows, head, i) {
        if i < n { assert HeadOk(h, rows, was, i); }
      }
      n := n + 1;
    }
  }

  /** The number of links from row i back to the start word. */
  ghost function Rank(h: HashFn, rows: seq<Row>, head: seq<int>, i: nat): nat
    requires HeadTree(h, rows, head) && i < |rows|
  {
    assert HeadOk(h, rows, head, i);
    if i == 0 then 1 else 1 + Rank(h, rows, head, head[i])
  }

  lemma OnlyFirstStarts(h: HashFn, rows: seq<Row>, head: seq<int>, i: nat)
    requires NeverGenesis(h) && HeadTree(h, rows, head) && i < |rows|
    ensures rows[i].prevHash == Some(GENESIS) <==> i == 0
  {
    assert HeadOk(h, rows, head, i);
    if i > 0 { assert HeadOk(h, rows, head, head[i]); }
  }

  /** With an injective hash, equal hashes mean equally long ways back to the start. */
  lemma {:induction false} EqualHashEqualRank(h: HashFn, rows: seq<Row>, head: seq<int>, i: nat, j: nat)
    requires Injective(h) && NeverGenesis(h) && HeadTree(h, rows, head)
    requires i < |rows| && j < |rows| && rows[i].hash == rows[j].hash
    ensures Rank(h, rows, head, i) == Rank(h, rows, head, j)
    decreases i + j
  {
    assert HeadOk(h, rows, head, i) && HeadOk(h, rows, head, j);
    OnlyFirstStarts(h, rows, head, i);
    OnlyFirstStarts(h, rows, head, j);
    assert rows[i].prevHash == rows[j].prevHash;
    if 0 < i && 0 < j {
      EqualHashEqualRank(h, rows, head, head[i], head[j]);
    }
  }

  /** In a verifying table, the k-th row in key order is k links away from the first. */
  lemma {:induction false} RankIsPosition(
      h: HashFn, rows: seq<Row>, head: seq<int>, s: seq<Row>, k: nat, i: nat)
    requires Injective(h) && NeverGenesis(h) && HeadTree(h, rows, head)
    requires Verifies(h, s) && (forall x :: x in s ==> x in rows)
    requires k < |s| && i < |rows| && s[k] == rows[i]
    ensures Rank(h, rows, head, i) == k + 1
  {
    assert LinkOk(h, s, k) && HeadOk(h, rows, head, i);
    OnlyFirstStarts(h, rows, head, i);
    if k > 0 {
      assert s[k - 1] in rows;
      var p :| 0 <= p < |rows| && rows[p] == s[k - 1];
      RankIsPosition(h, rows, head, s, k - 1, p);
      assert LinkOk(h, s, k - 1);
      if i > 0 {
        EqualHashEqualRank(h, rows, head, head[i], p);
      }
    }
  }

  lemma VerifyingIsIncreasing(h: HashFn, rows: seq<Row>)
    requires Injective(h) && NeverGenesis(h) && DistinctIds(rows)
    requires Produced(h, rows) && NoDirect(rows) && Verifies(h, SortByKey(rows))
    ensures KeysIncreasing(rows)
  {
    var head := HeadsExist(h, rows);
    var s := SortByKey(rows);
    SortByKeyFacts(rows);
    SameMembers(rows, s);
    forall i | 0 < i < |rows| ensures 0 <= head[i] < i && Before(rows[head[i]].key, rows[i].key) {
      assert HeadOk(h, rows, head, i);
      var m := head[i];
      assert rows[i] in rows && rows[m] in rows;
      var p :| 0 <= p < |s| && s[p] == rows[i];
      var q :| 0 <= q < |s| && s[q] == rows[m];
      RankIsPosition(h, rows, head, s, p, i);
      RankIsPosition(h, rows, head, s, q, m);
    }
    forall i, j | 0 <= j < i < |rows| ensures Before(rows[j].key, rows[i].key) {
      assert HeadOk(h, rows, head, i);
      assert Before(rows[head[i]].key, rows[i].key);
      assert rows[..i][j] == rows[j];
    }
  }

  lemma SameMembers(a: seq<Row>, b: seq<Row>)
    requires multiset(a) == multiset(b)
    ensures forall x :: x in a <==> x in b
  {
    forall x ensures x in a <==> x in b {
      assert x in a <==> x in multiset(a);
      assert x in b <==> x in multiset(b);
    }
  }

  lemma VerifyingHasNoDirect(h: HashFn, rows: seq<Row>)
    requires DistinctIds(rows) && Verifies(h, SortByKey(rows))
    ensures NoDirect(rows)
  {
    var s := SortByKey(rows);
    SortByKeyFacts(rows);
    forall i | 0 <= i < |rows| ensures IsChained(rows[i]) {
      assert rows[i] in multiset(s);
      var k :| 0 <= k < |s| && s[k] == rows[i];
      assert LinkOk(h, s, k);
    }
  }

  /**
   * The exact condition: the integrity check passes if and only if no row bypassed the chained
   * writer and every row, at its commit, had a larger (createdAt, id) than all rows before it.
   */
  lemma VerifiesIffKeysIncrease(h: HashFn, rows: seq<Row>)
    requires Injective(h) && NeverGenesis(h)
    requires DistinctIds(rows) && Produced(h, rows)
    ensures Verifies(h, SortByKey(rows)) <==> NoDirect(rows) && KeysIncreasing(rows)
  {
    if Verifies(h, SortByKey(rows)) {
      VerifyingHasNoDirect(h, rows);
      VerifyingIsIncreasing(h, rows);
    } else if NoDirect(rows) && KeysIncreasing(rows) {
      IncreasingVerifies(h, rows);
    }
  }

  /** Equal timestamps do not save the chain: the order of the random ids decides. */
  lemma TieWithInvertedIdsIsReported(h: HashFn, x: Payload, y: Payload, at: int)
    requires Injective(h) && NeverGenesis(h)
    ensures
      var first := ChainedRow(h, GENESIS, Key(at, 2), x);
      var second := ChainedRow(h, HeadHash([first]), Key(at, 1), y);
      Produced(h, [first, second]) && !Verifies(h, SortByKey([first, second]))
  {
    var first := ChainedRow(h, GENESIS, Key(at, 2), x);
    var second := ChainedRow(h, HeadHash([first]), Key(at, 1), y);
    var rows := [first, second];
    assert rows[..0] == [] && rows[..1] == [first];
    assert RowProduced(h, rows, 0) && RowProduced(h, rows, 1);
    assert !Before(rows[0].key, rows[1].key);
    VerifiesIffKeysIncrease(h, rows);
  }

  /** Appending keeps a table producible. */
  lemma ProducedStep(h: HashFn, rows: seq<Row>, r: Row)
    requires Produced(h, rows)
    requires if IsChained(r) then NoDirect(rows) ==> LinksToHead(h, rows, r)
             else r.payload.None? && r.prevHash.None?
    ensures Produced(h, rows + [r])
  {
    var t := rows + [r];
    forall i | 0 <= i < |t| ensures RowProduced(h, t, i) {
      assert t[..i] == rows[..i];
      if i == |rows| { assert rows[..i] == rows; } else { assert RowProduced(h, rows, i); }
    }
  }
}
