/**
 * The chained writer. `AuditLog` is the service run one call at a time; the rest of the module lets
 * any number of writers interleave statement by statement, each holding the advisory lock from the
 * start of its transaction to its commit.
 */
module AuditWriters {
  import opened Wrappers
  import opened AuditTable
  import opened AuditChain

  datatype AppendError = ForeignKeyViolation

  datatype Report = Report(valid: bool, checked: nat, brokenAt: Option<int>)

  /** The payload of the second attempt: the unknown user moves to `missingUserId`. */
  function Fallback(p: Payload): Payload {
    match p
    case Event(Some(u), _, body) => Event(None, Some(u), body)
    case _ => p
  }

  predicate KnownUser(users: set<string>, p: Payload) {
    p.Event? && p.userId.Some? ==> p.userId.value in users
  }

  predicate FreshId(rows: seq<Row>, k: Key) {
    forall i :: 0 <= i < |rows| ==> rows[i].key.id != k.id
  }

  class AuditLog {
    var rows: seq<Row>  // in commit order

    ghost predicate Valid(h: HashFn)
      reads this
    {
      DistinctIds(rows) && Produced(h, rows)
    }

    constructor (h: HashFn)
      ensures Valid(h) && rows == []
    {
      rows := [];
    }

    /** One transaction: lock, read the latest hash, insert, commit. */
    method AppendChained(h: HashFn, users: set<string>, key: Key, payload: Payload)
      returns (r: Result<(), AppendError>)
      requires Valid(h) && FreshId(rows, key)
      modifies this
      ensures Valid(h)
      ensures r.Ok? <==> KnownUser(users, payload)
      ensures r.Ok? ==> rows == old(rows) + [ChainedRow(h, HeadHash(old(rows)), key, payload)]
      ensures r.Err? ==> rows == old(rows)
    {
      var prev := HeadHash(rows);
      var row := ChainedRow(h, prev, key, payload);
      if !KnownUser(users, payload) {
        return Err(ForeignKeyViolation);
      }
      ProducedStep(h, rows, row);
      rows := rows + [row];
      return Ok(());
    }

    /**
     * Exactly one row is appended: the payload as given, or, when its user does not exist, the
     * sanitised payload, hashed as it is stored.
     */
    method Write(h: HashFn, users: set<string>, payload: Payload, key: Key, retryKey: Key)
      returns (r: Result<(), AppendError>)
      requires Valid(h) && FreshId(rows, key) && FreshId(rows, retryKey)
      modifies this
      ensures Valid(h) && r.Ok?
      ensures rows == old(rows) + [
        if KnownUser(users, payload) then ChainedRow(h, HeadHash(old(rows)), key, payload)
        else ChainedRow(h, HeadHash(old(rows)), retryKey, Event(None, payload.userId, payload.body))]
    {
      r := AppendChained(h, users, key, payload);
      if r.Err? && payload.userId.Some? {
        r := AppendChained(h, users, retryKey, Fallback(payload));
      }
    }

    /** An audit row created outside the service: no payload, no links. */
    method InsertDirect(h: HashFn, key: Key)
      requires Valid(h) && FreshId(rows, key)
      modifies this
      ensures Valid(h) && rows == old(rows) + [Row(key, None, None, None)]
    {
      ProducedStep(h, rows, Row(key, None, None, None));
      rows := rows + [Row(key, None, None, None)];
    }

    /** Walks the chain in key order and stops at the first row whose link or hash is wrong. */
    method VerifyAuditIntegrity(h: HashFn) returns (report: Report)
      ensures report.checked == |SortByKey(rows)|
      ensures report.valid <==> Verifies(h, SortByKey(rows))
      ensures report.valid <==> report.brokenAt.None?
      ensures !report.valid ==>
        exists k: nat ::
          && k < |SortByKey(rows)|
          && report.brokenAt == Some(SortByKey(rows)[k].key.id)
          && !LinkOk(h, SortByKey(rows), k)
          && forall j :: 0 <= j < k ==> LinkOk(h, SortByKey(rows), j)
    {
      var sorted := SortByKey(rows);
      var prevHash := GENESIS;
      var i := 0;
      while i < |sorted|
        invariant i <= |sorted|
        invariant forall j :: 0 <= j < i ==> LinkOk(h, sorted, j)
        invariant i == 0 ==> prevHash == GENESIS
        invariant i > 0 ==> sorted[i - 1].hash == Some(prevHash)
      {
        var row := sorted[i];
        var expected := h(prevHash, PayloadOrEmpty(row));
        if row.prevHash != Some(prevHash) || row.hash != Some(expected) {
          assert !LinkOk(h, sorted, i);
          return Report(false, |sorted|, Some(row.key.id));
        }
        assert LinkOk(h, sorted, i);
        prevHash := if row.hash.Some? then row.hash.value else "";
        i := i + 1;
      }
      return Report(true, |sorted|, None);
    }
  }

  // ---- interleaved writers

  datatype Phase =
    | Waiting                // transaction not yet past the advisory lock
    | HasLock
    | HasHead(prev: string)
    | Inserted(row: Row)     // visible to nobody else before the commit
    | Committed
    | Failed

  datatype Writer = Writer(original: Payload, payload: Payload, retried: bool, phase: Phase)

  datatype System = System(rows: seq<Row>, lock: Option<nat>, writers: seq<Writer>)

  /** The database picks both key columns at the insert; nothing ties them to the lock order. */
  datatype Event =
    | Start(payload: Payload)
    | TakeLock(w: nat)
    | ReadHead(w: nat)
    | Insert(w: nat, key: Key)
    | Commit(w: nat)
    | ForeignKeyError(w: nat)
    | Abort(w: nat)
    | DirectInsert(key: Key)

  function Initial(): System {
    System([], None, [])
  }

  predicate Enabled(s: System, e: Event) {
    match e
    case Start(_) => true
    case TakeLock(w) => w < |s.writers| && s.writers[w].phase == Waiting && s.lock.None?
    case ReadHead(w) => w < |s.writers| && s.writers[w].phase == HasLock
    case Insert(w, _) => w < |s.writers| && s.writers[w].phase.HasHead?
    case Commit(w) =>
      w < |s.writers| && s.writers[w].phase.Inserted? && FreshId(s.rows, s.writers[w].phase.row.key)
    case ForeignKeyError(w) => w < |s.writers| && s.writers[w].phase.HasHead?
    case Abort(w) =>
      w < |s.writers| && (s.writers[w].phase == HasLock || s.writers[w].phase.HasHead? || s.writers[w].phase.Inserted?)
    case DirectInsert(key) => FreshId(s.rows, key)
  }

  function Apply(h: HashFn, s: System, e: Event): System
    requires Enabled(s, e)
  {
    match e
    case Start(p) => s.(writers := s.writers + [Writer(p, p, false, Waiting)])
    case TakeLock(w) => s.(lock := Some(w), writers := s.writers[w := s.writers[w].(phase := HasLock)])
    case ReadHead(w) => s.(writers := s.writers[w := s.writers[w].(phase := HasHead(HeadHash(s.rows)))])
    case Insert(w, key) =>
      var me := s.writers[w];
      s.(writers := s.writers[w := me.(phase := Inserted(ChainedRow(h, me.phase.prev, key, me.payload)))])
    case Commit(w) =>
      var me := s.writers[w];
      System(s.rows + [me.phase.row], None, s.writers[w := me.(phase := Committed)])
    case ForeignKeyError(w) =>
      var me := s.writers[w];
      if me.payload.Event? && me.payload.userId.Some? && !me.retried then
        s.(lock := None, writers := s.writers[w := me.(payload := Fallback(me.payload), retried := true, phase := Waiting)])
      else
        s.(lock := None, writers := s.writers[w := me.(phase := Failed)])
    case Abort(w) => s.(lock := None, writers := s.writers[w := s.writers[w].(phase := Failed)])
    case DirectInsert(key) => s.(rows := s.rows + [Row(key, None, None, None)])
  }

  ghost predicate IsRun(h: HashFn, s: System, es: seq<Event>)
    decreases |es|
  {
    es == [] || (Enabled(s, es[0]) && IsRun(h, Apply(h, s, es[0]), es[1..]))
  }

  ghost function RunFrom(h: HashFn, s: System, es: seq<Event>): System
    requires IsRun(h, s, es)
    decreases |es|
  {
    if es == [] then s else RunFrom(h, Apply(h, s, es[0]), es[1..])
  }

  // ---- what every step keeps

  predicate InTransaction(p: Phase) {
    p.HasLock? || p.HasHead? || p.Inserted?
  }

  ghost predicate WriterOk(h: HashFn, s: System, w: nat)
    requires w < |s.writers|
  {
    var me := s.writers[w];
    && (InTransaction(me.phase) ==> s.lock == Some(w))
    && me.payload == (if me.retried then Fallback(me.original) else me.original)
    && (me.phase.HasHead? && NoDirect(s.rows) ==> me.phase.prev == HeadHash(s.rows))
    && (me.phase.Inserted? ==>
         && me.phase.row.payload == Some(me.payload)
         && me.phase.row.hash.Some?
         && (NoDirect(s.rows) ==> LinksToHead(h, s.rows, me.phase.row)))
  }

  /** How often p is in the chain, and how many writers reported success for p. */
  ghost function ChainedCount(rows: seq<Row>, p: Payload): nat {
    if rows == [] then 0
    else
      var r := rows[|rows| - 1];
      ChainedCount(rows[..|rows| - 1], p) + if r.hash.Some? && PayloadOrEmpty(r) == p then 1 else 0
  }

  ghost function CommittedCount(ws: seq<Writer>, p: Payload): nat {
    if ws == [] then 0
    else
      var w := ws[|ws| - 1];
      CommittedCount(ws[..|ws| - 1], p) + if w.phase.Committed? && w.payload == p then 1 else 0
  }

  ghost predicate Inv(h: HashFn, s: System) {
    && DistinctIds(s.rows)
    && Produced(h, s.rows)
    && (forall w :: 0 <= w < |s.writers| ==> WriterOk(h, s, w))
    && (s.lock.Some? ==> s.lock.value < |s.writers| && InTransaction(s.writers[s.lock.value].phase))
    && forall p :: ChainedCount(s.rows, p) == CommittedCount(s.writers, p)
  }

  lemma {:induction false} CommittedAfterUpdate(ws: seq<Writer>, w: nat, me: Writer, p: Payload)
    requires w < |ws| && !ws[w].phase.Committed?
    ensures CommittedCount(ws[w := me], p)
         == CommittedCount(ws, p) + if me.phase.Committed? && me.payload == p then 1 else 0
  {
    var n := |ws| - 1;
    if w == n {
      assert ws[w := me][..n] == ws[..n];
    } else {
      assert ws[w := me][..n] == ws[..n][w := me];
      CommittedAfterUpdate(ws[..n], w, me, p);
    }
  }

  lemma RowsAfterAppend(rows: seq<Row>, r: Row)
    ensures forall p :: ChainedCount(rows + [r], p)
                     == ChainedCount(rows, p) + if r.hash.Some? && PayloadOrEmpty(r) == p then 1 else 0
    ensures NoDirect(rows + [r]) <==> NoDirect(rows) && r.hash.Some?
  {
    assert (rows + [r])[..|rows|] == rows;
    assert NoDirect(rows + [r]) ==> IsChained((rows + [r])[|rows|]);
    forall i | 0 <= i < |rows| && NoDirect(rows + [r]) ensures IsChained(rows[i]) {
      assert IsChained((rows + [r])[i]);
    }
  }

  /** The step of one writer, apart from the commit, keeps the table. */
  lemma WriterStepKeepsInv(h: HashFn, s: System, e: Event)
    requires Inv(h, s) && Enabled(s, e)
    requires e.TakeLock? || e.ReadHead? || e.Insert? || e.ForeignKeyError? || e.Abort?
    ensures Inv(h, Apply(h, s, e))
  {
    var t := Apply(h, s, e);
    var w := e.w;
    assert WriterOk(h, s, w);
    assert WriterOk(h, t, w);
    OthersOk(h, s, t, w);
    forall p ensures ChainedCount(t.rows, p) == CommittedCount(t.writers, p) {
      CommittedAfterUpdate(s.writers, w, t.writers[w], p);
    }
  }

  lemma CommitKeepsInv(h: HashFn, s: System, w: nat)
    requires Inv(h, s) && Enabled(s, Commit(w))
    ensures Inv(h, Apply(h, s, Commit(w)))
  {
    var t := Apply(h, s, Commit(w));
    var row := s.writers[w].phase.row;
    assert WriterOk(h, s, w);
    RowsAfterAppend(s.rows, row);
    ProducedStep(h, s.rows, row);
    forall p ensures ChainedCount(t.rows, p) == CommittedCount(t.writers, p) {
      CommittedAfterUpdate(s.writers, w, t.writers[w], p);
    }
    OthersOk(h, s, t, w);
  }

  lemma StepKeepsInv(h: HashFn, s: System, e: Event)
    requires Inv(h, s) && Enabled(s, e)
    ensures Inv(h, Apply(h, s, e))
  {
    match e
    case Start(p) =>
      var t := Apply(h, s, e);
      assert t.writers[..|s.writers|] == s.writers;
      forall w | 0 <= w < |t.writers| ensures WriterOk(h, t, w) {
        if w < |s.writers| { assert WriterOk(h, s, w); }
      }
    case DirectInsert(key) =>
      var t := Apply(h, s, e);
      RowsAfterAppend(s.rows, Row(key, None, None, None));
      ProducedStep(h, s.rows, Row(key, None, None, None));
      forall w | 0 <= w < |t.writers| ensures WriterOk(h, t, w) {
        assert WriterOk(h, s, w);
      }
    case Commit(w) =>
      CommitKeepsInv(h, s, w);
    case _ =>
      WriterStepKeepsInv(h, s, e);
  }

  /** A step of writer w, who holds the lock or finds it free, leaves the others as they were. */
  lemma OthersOk(h: HashFn, s: System, t: System, w: nat)
    requires forall v :: 0 <= v < |s.writers| ==> WriterOk(h, s, v)
    requires w < |s.writers| == |t.writers| && t.writers == s.writers[w := t.writers[w]]
    requires s.lock == Some(w) || (s.lock.None? && t.rows == s.rows)
    requires WriterOk(h, t, w)
    ensures forall v :: 0 <= v < |t.writers| ==> WriterOk(h, t, v)
  {
    forall v | 0 <= v < |t.writers| ensures WriterOk(h, t, v) {
      assert WriterOk(h, s, v);
    }
  }

  lemma {:induction false} RunKeepsInv(h: HashFn, s: System, es: seq<Event>)
    requires Inv(h, s) && IsRun(h, s, es)
    ensures Inv(h, RunFrom(h, s, es))
    decreases |es|
  {
    if es != [] {
      StepKeepsInv(h, s, es[0]);
      RunKeepsInv(h, Apply(h, s, es[0]), es[1..]);
    }
  }

  /**
   * Safety over all runs, whatever the interleaving, the foreign-key retries, the aborts and the
   * keys the database picked: the integrity check passes exactly when no row bypassed the writer
   * and the keys increased in commit order.
   */
  lemma EveryRunVerifiesIffKeysIncrease(h: HashFn, es: seq<Event>)
    requires Injective(h) && NeverGenesis(h) && IsRun(h, Initial(), es)
    ensures
      var rows := RunFrom(h, Initial(), es).rows;
      Verifies(h, SortByKey(rows)) <==> NoDirect(rows) && KeysIncreasing(rows)
  {
    RunKeepsInv(h, Initial(), es);
    VerifiesIffKeysIncrease(h, RunFrom(h, Initial(), es).rows);
  }

  // ---- what a run stores, read off its events

  lemma {:induction false} RunSnoc(h: HashFn, s: System, es: seq<Event>, e: Event)
    ensures IsRun(h, s, es + [e]) <==> IsRun(h, s, es) && Enabled(RunFrom(h, s, es), e)
    ensures IsRun(h, s, es + [e]) ==> RunFrom(h, s, es + [e]) == Apply(h, RunFrom(h, s, es), e)
    decreases |es|
  {
    hide Enabled, Apply;
    if es == [] {
      assert (es + [e])[1..] == [];
    } else {
      assert (es + [e])[0] == es[0] && (es + [e])[1..] == es[1..] + [e];
      if Enabled(s, es[0]) { RunSnoc(h, Apply(h, s, es[0]), es[1..], e); }
    }
  }

  lemma RunInit(h: HashFn, s: System, es: seq<Event>)
    requires es != [] && IsRun(h, s, es)
    ensures
      var n := |es| - 1;
      IsRun(h, s, es[..n]) && Enabled(RunFrom(h, s, es[..n]), es[n])
      && RunFrom(h, s, es) == Apply(h, RunFrom(h, s, es[..n]), es[n])
  {
    hide Enabled, Apply;
    var n := |es| - 1;
    assert es == es[..n] + [es[n]];
    RunSnoc(h, s, es[..n], es[n]);
  }

  /** The payloads of the writers, in the order they started. */
  function Asked(es: seq<Event>): seq<Payload> {
    if es == [] then []
    else
      var e := es[|es| - 1];
      Asked(es[..|es| - 1]) + if e.Start? then [e.payload] else []
  }

  /** What writer w stores: the payload it was started with, or, after a foreign-key error, that with its user moved. */
  function ToStore(es: seq<Event>, w: nat): Payload
    requires w < |Asked(es)|
  {
    var p := Asked(es)[w];
    if ForeignKeyError(w) in es && p.Event? then Payload.Event(None, p.userId, p.body) else p
  }

  /** The payload of each row in commit order; a row inserted directly has none. */
  function Stored(es: seq<Event>): seq<Option<Payload>> {
    if es == [] then []
    else
      Stored(es[..|es| - 1]) + Adds(es[..|es| - 1], es[|es| - 1])
  }

  /** What one more event adds to the table. */
  function Adds(es: seq<Event>, e: Event): seq<Option<Payload>> {
    if e.Commit? && e.w < |Asked(es)| then [Some(ToStore(es, e.w))]
    else if e.DirectInsert? then [None]
    else []
  }

  function PayloadsOf(rows: seq<Row>): (ps: seq<Option<Payload>>)
    ensures |ps| == |rows| && forall i :: 0 <= i < |rows| ==> ps[i] == rows[i].payload
  {
    seq(|rows|, i requires 0 <= i < |rows| => rows[i].payload)
  }

  /** A writer is retried by its first foreign-key error if it has a user, and fails by any other. */
  ghost predicate WriterFollows(me: Writer, es: seq<Event>, w: nat)
    requires w < |Asked(es)|
  {
    var p := Asked(es)[w];
    && me.original == p
    && (me.retried ==> ForeignKeyError(w) in es && p.Event? && p.userId.Some?)
    && (ForeignKeyError(w) in es && !me.retried ==> me.phase.Failed?)
    && me.payload == (if me.retried then Payload.Event(None, p.userId, p.body) else p)
    && (me.phase.Inserted? ==> me.phase.row.payload == Some(me.payload))
  }

  ghost predicate Follows(s: System, es: seq<Event>) {
    && |s.writers| == |Asked(es)|
    && (forall e :: e in es && e.ForeignKeyError? ==> e.w < |Asked(es)|)
    && (forall w :: 0 <= w < |s.writers| ==> WriterFollows(s.writers[w], es, w))
    && PayloadsOf(s.rows) == Stored(es)
  }

  lemma EventsSnoc(es: seq<Event>, e: Event)
    ensures Asked(es + [e]) == Asked(es) + if e.Start? then [e.payload] else []
    ensures Stored(es + [e]) == Stored(es) + Adds(es, e)
    ensures forall f :: f in es + [e] <==> f in es || f == e
  {
    assert (es + [e])[..|es|] == es;
  }

  lemma StepFollows(h: HashFn, s: System, es: seq<Event>, e: Event)
    requires Follows(s, es) && Enabled(s, e)
    ensures Follows(Apply(h, s, e), es + [e])
  {
    hide Asked, Stored;
    EventsSnoc(es, e);
    var t := Apply(h, s, e);
    forall w | 0 <= w < |t.writers| ensures WriterFollows(t.writers[w], es + [e], w) {
      if w < |s.writers| { assert WriterFollows(s.writers[w], es, w); }
    }
    RowsFollow(h, s, es, e);
  }

  lemma RowsFollow(h: HashFn, s: System, es: seq<Event>, e: Event)
    requires Follows(s, es) && Enabled(s, e)
    ensures PayloadsOf(Apply(h, s, e).rows) == Stored(es + [e])
  {
    hide Asked, Stored;
    EventsSnoc(es, e);
    var t := Apply(h, s, e);
    if e.Commit? {
      assert WriterFollows(s.writers[e.w], es, e.w);
      assert PayloadsOf(t.rows) == PayloadsOf(s.rows) + [Some(ToStore(es, e.w))];
    } else if e.DirectInsert? {
      assert PayloadsOf(t.rows) == PayloadsOf(s.rows) + [None];
    }
  }

  lemma {:induction false} RunFollows(h: HashFn, es: seq<Event>)
    requires IsRun(h, Initial(), es)
    ensures Follows(RunFrom(h, Initial(), es), es)
    decreases |es|
  {
    hide Follows, Enabled, Apply;
    if es == [] {
      NothingFollows();
    } else {
      var n := |es| - 1;
      RunInit(h, Initial(), es);
      RunFollows(h, es[..n]);
      StepFollows(h, RunFrom(h, Initial(), es[..n]), es[..n], es[n]);
      assert es == es[..n] + [es[n]];
    }
  }

  lemma NothingFollows()
    ensures Follows(Initial(), [])
  {
  }

  /**
   * The table of any run, from its events alone: one row for each commit and each direct insert, in that
   * order, and a committed row holds the payload its writer was started with, unchanged unless the writer
   * had a foreign-key error, and then with the user moved to `missingUserId`.
   */
  lemma EveryRunStoresWhatWasAsked(h: HashFn, es: seq<Event>)
    requires IsRun(h, Initial(), es)
    ensures PayloadsOf(RunFrom(h, Initial(), es).rows) == Stored(es)
    ensures |RunFrom(h, Initial(), es).writers| == |Asked(es)|
  {
    RunFollows(h, es);
  }

  /** A foreign-key error sends a writer with a user back to the lock once; any other one ends the writer. */
  lemma FirstForeignKeyErrorRetries(h: HashFn, es: seq<Event>, w: nat)
    requires IsRun(h, Initial(), es + [ForeignKeyError(w)])
    ensures
      var t := RunFrom(h, Initial(), es + [ForeignKeyError(w)]);
      && w < |Asked(es)| && w < |t.writers| && t.lock.None?
      && t.writers[w].phase ==
           if Asked(es)[w].Event? && Asked(es)[w].userId.Some? && ForeignKeyError(w) !in es then Waiting else Failed
  {
    hide Asked;
    RunSnoc(h, Initial(), es, ForeignKeyError(w));
    RunFollows(h, es);
    var s := RunFrom(h, Initial(), es);
    assert WriterFollows(s.writers[w], es, w);
  }

  /**
   * No audit row is lost, repeated or altered in any run: the chain holds exactly the payloads of the
   * writers that committed, and each of those is the payload the writer was started with or its fallback.
   */
  lemma EveryRunKeepsPayloads(h: HashFn, es: seq<Event>)
    requires IsRun(h, Initial(), es)
    ensures
      var s := RunFrom(h, Initial(), es);
      && (forall p :: ChainedCount(s.rows, p) == CommittedCount(s.writers, p))
      && |s.writers| == |Asked(es)|
      && forall w :: 0 <= w < |s.writers| && s.writers[w].phase.Committed? ==> s.writers[w].payload == ToStore(es, w)
  {
    hide Asked, Stored;
    RunKeepsInv(h, Initial(), es);
    RunFollows(h, es);
    var s := RunFrom(h, Initial(), es);
    forall w | 0 <= w < |s.writers| && s.writers[w].phase.Committed? ensures s.writers[w].payload == ToStore(es, w) {
      assert WriterFollows(s.writers[w], es, w);
    }
  }

  /** The lock is held exactly while its owner is in a transaction. */
  lemma EveryRunFreesTheLock(h: HashFn, es: seq<Event>)
    requires IsRun(h, Initial(), es)
    ensures
      var s := RunFrom(h, Initial(), es);
      s.lock.Some? <==> exists w :: 0 <= w < |s.writers| && InTransaction(s.writers[w].phase)
  {
    RunKeepsInv(h, Initial(), es);
    var s := RunFrom(h, Initial(), es);
    if w :| 0 <= w < |s.writers| && InTransaction(s.writers[w].phase) {
      assert WriterOk(h, s, w);
    }
  }

  /** The lock excludes: at most one writer is between its lock and its commit. */
  lemma EveryRunExcludes(h: HashFn, es: seq<Event>, v: nat, w: nat)
    requires IsRun(h, Initial(), es)
    requires v < |RunFrom(h, Initial(), es).writers| && w < |RunFrom(h, Initial(), es).writers|
    requires InTransaction(RunFrom(h, Initial(), es).writers[v].phase)
    requires InTransaction(RunFrom(h, Initial(), es).writers[w].phase)
    ensures v == w
  {
    RunKeepsInv(h, Initial(), es);
    assert WriterOk(h, RunFrom(h, Initial(), es), v);
    assert WriterOk(h, RunFrom(h, Initial(), es), w);
  }
}
