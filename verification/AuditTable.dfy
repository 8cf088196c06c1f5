/**
 * The audit table and its hash chain: what one row looks like, the ordering both the writer and the
 * verifier use, and what "the chain verifies" means.
 */
module AuditTable {
  import opened Wrappers

  /** The JSON object that is hashed. `body` stands for every field the retry below leaves alone. */
  datatype Payload =
    | EmptyObject
    | Event(userId: Option<string>, missingUserId: Option<string>, body: string)

  /** SHA-256 of the previous hash followed by the JSON text of the payload, in hexadecimal. */
  type HashFn = (string, Payload) -> string

  const GENESIS := "GENESIS"

  /** The two columns both queries order by. `id` is the primary key. */
  datatype Key = Key(createdAt: int, id: int)

  /** A row that bypassed the chained writer has none of the three optional columns. */
  datatype Row = Row(key: Key, payload: Option<Payload>, prevHash: Option<string>, hash: Option<string>)

  predicate Before(a: Key, b: Key) {
    a.createdAt < b.createdAt || (a.createdAt == b.createdAt && a.id < b.id)
  }

  function PayloadOrEmpty(r: Row): Payload {
    if r.payload.Some? then r.payload.value else EmptyObject
  }

  // ---- the hash, as far as the proofs use it

  ghost predicate Injective(h: HashFn) {
    forall p, x, q, y :: h(p, x) == h(q, y) ==> p == q && x == y
  }

  /** A digest is 64 hexadecimal characters, so it is never the word that starts the chain. */
  ghost predicate NeverGenesis(h: HashFn) {
    forall p, x :: h(p, x) != GENESIS
  }

  // ---- ordering by (createdAt, id)

  function InsertByKey(s: seq<Row>, r: Row): seq<Row> {
    if s == [] || Before(s[|s| - 1].key, r.key) then s + [r]
    else InsertByKey(s[..|s| - 1], r) + [s[|s| - 1]]
  }

  /** The rows in ascending key order. */
  function SortByKey(rows: seq<Row>): seq<Row> {
    if rows == [] then [] else InsertByKey(SortByKey(rows[..|rows| - 1]), rows[|rows| - 1])
  }

  ghost predicate DistinctIds(rows: seq<Row>) {
    forall i, j :: 0 <= i < j < |rows| ==> rows[i].key.id != rows[j].key.id
  }

  ghost predicate KeysIncreasing(rows: seq<Row>) {
    forall i, j :: 0 <= i < j < |rows| ==> Before(rows[i].key, rows[j].key)
  }

  /** The row that an ordering by (createdAt desc, id desc) returns first. */
  ghost predicate IsLatest(rows: seq<Row>, m: nat) {
    m < |rows| && forall i :: 0 <= i < |rows| && i != m ==> Before(rows[i].key, rows[m].key)
  }

  /** The hash a new row links to: that of the latest row, or the start word. */
  function HeadHash(rows: seq<Row>): string {
    var s := SortByKey(rows);
    if s == [] then GENESIS
    else match s[|s| - 1].hash
      case Some(x) => x
      case None => GENESIS
  }

  function ChainedRow(h: HashFn, prev: string, key: Key, payload: Payload): Row {
    Row(key, Some(payload), Some(prev), Some(h(prev, payload)))
  }

  // ---- what the verifier checks

  /** Row i carries the hash of row i-1 and its own hash is right for its own payload. */
  ghost predicate LinkOk(h: HashFn, rows: seq<Row>, i: nat)
    requires i < |rows|
  {
    var prev := if i == 0 then Some(GENESIS) else rows[i - 1].hash;
    && prev.Some?
    && rows[i].prevHash == prev
    && rows[i].hash == Some(h(prev.value, PayloadOrEmpty(rows[i])))
  }

  ghost predicate Verifies(h: HashFn, rows: seq<Row>) {
    forall i :: 0 <= i < |rows| ==> LinkOk(h, rows, i)
  }

  /** Row i links to the start word or to the hash of the row before it, and its own hash is that of the link and its payload. */
  ghost predicate Linked(h: HashFn, rows: seq<Row>, i: nat)
    requires i < |rows|
  {
    && rows[i].prevHash != None && rows[i].prevHash == (if i == 0 then Some("GENESIS") else rows[i - 1].hash)
    && rows[i].hash == Some(h(rows[i].prevHash.value, if rows[i].payload == None then EmptyObject else rows[i].payload.value))
  }

  lemma VerifyingMeans(h: HashFn, rows: seq<Row>)
    ensures Verifies(h, rows) <==> forall i :: 0 <= i < |rows| ==> Linked(h, rows, i)
  {
    forall i | 0 <= i < |rows| ensures LinkOk(h, rows, i) <==> Linked(h, rows, i) {}
  }

  // ---- facts about the ordering

  lemma {:induction false} InsertByKeyMembers(s: seq<Row>, r: Row)
    ensures multiset(InsertByKey(s, r)) == multiset(s) + multiset{r}
    ensures forall x :: x in InsertByKey(s, r) ==> x in s || x == r
  {
    hide Before;
    if !(s == [] || Before(s[|s| - 1].key, r.key)) {
      var n := |s| - 1;
      assert s == s[..n] + [s[n]];
      InsertByKeyMembers(s[..n], r);
    }
  }

  lemma {:induction false} InsertByKeyFacts(s: seq<Row>, r: Row)
    requires KeysIncreasing(s)
    requires forall i :: 0 <= i < |s| ==> s[i].key.id != r.key.id
    ensures KeysIncreasing(InsertByKey(s, r))
    ensures multiset(InsertByKey(s, r)) == multiset(s) + multiset{r}
  {
    InsertByKeyMembers(s, r);
    if s == [] || Before(s[|s| - 1].key, r.key) {
    } else {
      var n := |s| - 1;
      InsertByKeyFacts(s[..n], r);
      InsertByKeyMembers(s[..n], r);
      var t := InsertByKey(s[..n], r);
      forall i | 0 <= i < |t| ensures Before(t[i].key, s[n].key) {
        assert t[i] in t;
      }
    }
  }

  lemma {:induction false} SortByKeyFacts(rows: seq<Row>)
    requires DistinctIds(rows)
    ensures KeysIncreasing(SortByKey(rows))
    ensures forall i, j :: 0 <= i < j < |SortByKey(rows)| ==>
      var a, b := SortByKey(rows)[i].key, SortByKey(rows)[j].key;
      a.createdAt <= b.createdAt && (a.createdAt == b.createdAt ==> a.id < b.id)
    ensures multiset(SortByKey(rows)) == multiset(rows)
    ensures |SortByKey(rows)| == |rows|
  {
    if rows != [] {
      var n := |rows| - 1;
      assert rows == rows[..n] + [rows[n]];
      SortByKeyFacts(rows[..n]);
      var s := SortByKey(rows[..n]);
      forall i | 0 <= i < |s| ensures s[i].key.id != rows[n].key.id {
        assert s[i] in multiset(rows[..n]);
      }
      InsertByKeyFacts(s, rows[n]);
    }
    assert |multiset(SortByKey(rows))| == |multiset(rows)|;
  }

  /** Rows appended with ever larger keys are already in key order. */
  lemma {:induction false} SortedAlready(rows: seq<Row>)
    requires KeysIncreasing(rows)
    ensures SortByKey(rows) == rows
  {
    if rows != [] {
      var n := |rows| - 1;
      SortedAlready(rows[..n]);
      assert rows == rows[..n] + [rows[n]];
    }
  }

  /** The last row in key order is the one a descending query returns first. */
  lemma LatestExists(rows: seq<Row>) returns (m: nat)
    requires DistinctIds(rows) && rows != []
    ensures IsLatest(rows, m)
    ensures HeadHash(rows) == if rows[m].hash.Some? then rows[m].hash.value else GENESIS
  {
    SortByKeyFacts(rows);
    var s := SortByKey(rows);
    var last := s[|s| - 1];
    assert last in multiset(rows);
    m :| 0 <= m < |rows| && rows[m] == last;
    forall i | 0 <= i < |rows| && i != m ensures Before(rows[i].key, rows[m].key) {
      assert rows[i] in multiset(s);
      var k :| 0 <= k < |s| && s[k] == rows[i];
      assert rows[i].key.id != rows[m].key.id;
    }
  }

  // ---- tamper evidence

  /** What a row shows to the verifier. The key and every other column stay outside the hash. */
  datatype Evidence = Evidence(payload: Payload, prevHash: Option<string>, hash: Option<string>)

  function EvidenceOf(r: Row): Evidence {
    Evidence(PayloadOrEmpty(r), r.prevHash, r.hash)
  }

  /** Two verifying chains that end in the same hash agree on every row, counted from the end. */
  lemma {:induction false} SameEndSameSuffix(h: HashFn, a: seq<Row>, b: seq<Row>, k: nat)
    requires Injective(h) && Verifies(h, a) && Verifies(h, b)
    requires a != [] && b != [] && a[|a| - 1].hash == b[|b| - 1].hash
    requires k < |a| && k < |b|
    ensures EvidenceOf(a[|a| - 1 - k]) == EvidenceOf(b[|b| - 1 - k])
  {
    var i, j := |a| - 1 - k, |b| - 1 - k;
    if k != 0 {
      SameEndSameSuffix(h, a, b, k - 1);
      assert LinkOk(h, a, i + 1) && LinkOk(h, b, j + 1);
      assert a[i].hash == b[j].hash;
    }
    assert LinkOk(h, a, i) && LinkOk(h, b, j);
  }

  lemma StartsOnlyAtTheStart(h: HashFn, rows: seq<Row>, i: nat)
    requires NeverGenesis(h) && Verifies(h, rows) && i < |rows|
    ensures rows[i].prevHash == Some(GENESIS) <==> i == 0
  {
    assert LinkOk(h, rows, i);
    if i > 0 { assert LinkOk(h, rows, i - 1); }
  }

  /**
   * Two verifying chains with the same last hash agree row by row. Equal length need not be given
   * when no digest equals the start word: the shorter chain would have to start inside the longer one.
   */
  lemma SameEndSameChain(h: HashFn, a: seq<Row>, b: seq<Row>)
    requires Injective(h) && Verifies(h, a) && Verifies(h, b)
    requires a != [] && b != [] && a[|a| - 1].hash == b[|b| - 1].hash
    requires |a| == |b| || NeverGenesis(h)
    ensures |a| == |b|
    ensures forall i :: 0 <= i < |a| ==> EvidenceOf(a[i]) == EvidenceOf(b[i])
  {
    if |a| != |b| {
      var k := if |a| < |b| then |a| - 1 else |b| - 1;
      StartsOnlyAtTheStart(h, a, |a| - 1 - k);
      StartsOnlyAtTheStart(h, b, |b| - 1 - k);
      SameEndSameSuffix(h, a, b, k);
      assert false;
    }
    forall i | 0 <= i < |a| ensures EvidenceOf(a[i]) == EvidenceOf(b[i]) {
      SameEndSameSuffix(h, a, b, |a| - 1 - i);
    }
  }

  /**
   * Once a verifying chain is known by its length and last hash, another table with that length and
   * last hash verifies exactly when the verifier sees the same row at every position. Any change,
   * removal, insertion or reordering it can see is therefore reported.
   */
  lemma TamperingIsReported(h: HashFn, original: seq<Row>, found: seq<Row>)
    requires Injective(h) && Verifies(h, original)
    requires |found| == |original| > 0
    requires found[|found| - 1].hash == original[|original| - 1].hash
    ensures Verifies(h, found)
       <==> forall i :: 0 <= i < |found| ==> EvidenceOf(found[i]) == EvidenceOf(original[i])
  {
    if Verifies(h, found) {
      SameEndSameChain(h, found, original);
    }
    if forall i :: 0 <= i < |found| ==> EvidenceOf(found[i]) == EvidenceOf(original[i]) {
      forall i | 0 <= i < |found| ensures LinkOk(h, found, i) {
        assert LinkOk(h, original, i);
        assert EvidenceOf(found[i]) == EvidenceOf(original[i]);
        if i > 0 { assert EvidenceOf(found[i - 1]) == EvidenceOf(original[i - 1]); }
      }
    }
  }
}
