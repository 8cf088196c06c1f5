/**
 * The pool of hashing workers: numbered jobs handed out round robin, replies in any order, workers
 * that may die, and shutdown.
 */
module BcryptPool {
  import opened Wrappers
  import opened Division

  datatype Job = Hash(password: string, rounds: int) | Compare(password: string, hash: string)
  datatype Value = Text(text: string) | Flag(flag: bool) | Undefined
  datatype Request = Request(id: nat, job: Job)
  datatype Reply = Reply(id: nat, result: Value, error: Option<string>)
  datatype How = Resolved(value: Value) | Rejected(message: string)
  datatype Settlement = Settlement(id: nat, how: How)

  const SHUTTING_DOWN := "bcrypt service shutting down"

  /** What a worker computes for a job: a value, or the text of an error. */
  type Work = Job -> Result<Value, string>

  function ReplyTo(r: Request, work: Work): Reply {
    match work(r.job)
    case Ok(v) => Reply(r.id, v, None)
    case Err(e) => Reply(r.id, Undefined, Some(e))
  }

  /** How a reply settles its job: an error without text is falsy and resolves. */
  function Answer(m: Reply): How {
    if m.error.Some? && m.error.value != "" then Rejected(m.error.value) else Resolved(m.result)
  }

  /** The pool, its workers' queues, replies under way, and the history of settlements. */
  datatype State = State(
    nextId: nat, rr: nat, pending: seq<nat>, inbox: seq<seq<Request>>, alive: seq<bool>, mail: seq<Reply>,
    settled: seq<Settlement>, sent: seq<Job>, loads: seq<nat>)

  datatype Event = Dispatched(job: Job) | Posted(worker: nat, k: nat) | Delivered(k: nat) | Died(worker: nat) | Shutdown

  function Without<T(==, !new)>(s: seq<T>, x: T): (r: seq<T>)
    ensures forall y :: y in r <==> y in s && y != x
  {
    if s == [] then []
    else
      assert s == s[..|s| - 1] + [s[|s| - 1]];
      Without(s[..|s| - 1], x) + if s[|s| - 1] == x then [] else [s[|s| - 1]]
  }

  function Drop<T(!new)>(s: seq<T>, k: nat): (r: seq<T>)
    requires k < |s|
    ensures forall y :: y in r ==> y in s
    ensures forall y :: y in s ==> y in r || y == s[k]
  {
    assert s == s[..k] + [s[k]] + s[k + 1..];
    s[..k] + s[k + 1..]
  }

  function RejectAll(ids: seq<nat>): (r: seq<Settlement>)
    ensures |r| == |ids| && forall i :: 0 <= i < |ids| ==> r[i] == Settlement(ids[i], Rejected(SHUTTING_DOWN))
  {
    seq(|ids|, i requires 0 <= i < |ids| => Settlement(ids[i], Rejected(SHUTTING_DOWN)))
  }

  function Initial(size: nat): State {
    State(1, 0, [], seq(size, i => []), seq(size, i => true), [], [], [], seq(size, i => 0))
  }

  predicate SameSizes(s: State) {
    |s.inbox| == |s.alive| == |s.loads|
  }

  function Dispatch(s: State, job: Job): State
    requires SameSizes(s)
  {
    if |s.inbox| == 0 then s
    else
      var w := s.rr % |s.inbox|;
      s.(nextId := s.nextId + 1, rr := s.rr + 1, pending := s.pending + [s.nextId],
         inbox := if s.alive[w] then s.inbox[w := s.inbox[w] + [Request(s.nextId, job)]] else s.inbox,
         sent := s.sent + [job], loads := s.loads[w := s.loads[w] + 1])
  }

  function OnMessage(s: State, m: Reply): State {
    if m.id !in s.pending then s
    else s.(pending := Without(s.pending, m.id), settled := s.settled + [Settlement(m.id, Answer(m))])
  }

  function Destroy(s: State): State {
    s.(pending := [], settled := s.settled + RejectAll(s.pending),
       inbox := seq(|s.inbox|, i => []), alive := seq(|s.alive|, i => false))
  }

  function Step(s: State, e: Event, work: Work): (t: State)
    requires SameSizes(s)
    ensures SameSizes(t)
  {
    match e
    case Dispatched(job) => Dispatch(s, job)
    case Posted(w, k) =>
      if w < |s.inbox| && s.alive[w] && k < |s.inbox[w]| then
        s.(inbox := s.inbox[w := Drop(s.inbox[w], k)], mail := s.mail + [ReplyTo(s.inbox[w][k], work)])
      else s
    case Delivered(k) =>
      if k < |s.mail| then OnMessage(s, s.mail[k]).(mail := Drop(s.mail, k)) else s
    case Died(w) =>
      if w < |s.inbox| then s.(inbox := s.inbox[w := []], alive := s.alive[w := false]) else s
    case Shutdown => Destroy(s)
  }

  function Run(size: nat, events: seq<Event>, work: Work): (t: State)
    ensures SameSizes(t)
  {
    if events == [] then Initial(size)
    else Step(Run(size, events[..|events| - 1], work), events[|events| - 1], work)
  }

  // ---- the pool object

  class Pool {
    var nextId: nat
    var rr: nat
    var pending: seq<nat>
    var inbox: seq<seq<Request>>
    var alive: seq<bool>
    ghost var mail: seq<Reply>
    ghost var settled: seq<Settlement>
    ghost var sent: seq<Job>
    ghost var loads: seq<nat>

    ghost function Model(): State
      reads this
    {
      State(nextId, rr, pending, inbox, alive, mail, settled, sent, loads)
    }

    ghost predicate Valid()
      reads this
    {
      SameSizes(Model()) && Invariant(Model())
    }

    constructor (size: nat)
      ensures Valid() && Model() == Initial(size)
    {
      nextId, rr, pending := 1, 0, [];
      inbox, alive := seq(size, i => []), seq(size, i => true);
      mail, settled, sent, loads := [], [], [], seq(size, i => 0);
      new;
      InitialIsSound(size);
    }

    method DispatchJob(job: Job) returns (id: Option<nat>)
      requires Valid()
      modifies this
      ensures Valid() && Model() == Dispatch(old(Model()), job)
      ensures id.None? <==> old(|inbox|) == 0
      ensures id.Some? ==> id.value !in old(pending) && id.value in pending
    {
      hide Invariant;
      DispatchKeeps(Model(), job);
      if |inbox| == 0 {
        return None;
      }
      FreshId(Model());
      var jobId := nextId;
      nextId := nextId + 1;
      var worker := rr % |inbox|;
      rr := rr + 1;
      pending := pending + [jobId];
      if alive[worker] {
        inbox := inbox[worker := inbox[worker] + [Request(jobId, job)]];
      }
      sent := sent + [job];
      loads := loads[worker := loads[worker] + 1];
      id := Some(jobId);
    }

    method HandleMessage(m: Reply)
      requires Valid()
      modifies this`pending, this`settled
      ensures Valid() && Model() == OnMessage(old(Model()), m)
    {
      hide Invariant, Answer;
      OnMessageKeeps(Model(), m);
      if m.id !in pending {
        return;
      }
      pending := Without(pending, m.id);
      settled := settled + [Settlement(m.id, Answer(m))];
    }

    method OnModuleDestroy()
      requires Valid()
      modifies this
      ensures Valid() && Model() == Destroy(old(Model())) && pending == []
    {
      hide Invariant;
      DestroyKeeps(Model());
      ghost var all := RejectAll(pending);
      var i := 0;
      while i < |pending|
        invariant 0 <= i <= |pending|
        invariant pending == old(pending) && inbox == old(inbox) && alive == old(alive)
        invariant nextId == old(nextId) && rr == old(rr) && mail == old(mail) && sent == old(sent) && loads == old(loads)
        invariant settled == old(settled) + all[..i]
      {
        settled := settled + [Settlement(pending[i], Rejected(SHUTTING_DOWN))];
        i := i + 1;
      }
      assert all[..i] == all;
      pending := [];
      inbox, alive := seq(|inbox|, j => []), seq(|alive|, j => false);
    }
  }

  // ---- the invariant

  predicate Known(s: State, id: nat) {
    1 <= id < s.nextId && |s.sent| == s.nextId - 1
  }

  predicate HasSettled(settled: seq<Settlement>, id: nat) {
    exists i :: 0 <= i < |settled| && settled[i].id == id
  }

  ghost predicate Ascending(ids: seq<nat>) {
    forall i, j :: 0 <= i < j < |ids| ==> ids[i] < ids[j]
  }

  /** Every job is either pending or settled, never both, never settled twice. */
  ghost predicate Invariant(s: State) {
    && s.nextId >= 1 && |s.sent| == s.nextId - 1
    && Ascending(s.pending)
    && (forall id :: id in s.pending ==> Known(s, id))
    && (forall i :: 0 <= i < |s.settled| ==> Known(s, s.settled[i].id))
    && (forall i, j :: 0 <= i < j < |s.settled| ==> s.settled[i].id != s.settled[j].id)
    && (forall id :: Known(s, id) ==> (id in s.pending <==> !HasSettled(s.settled, id)))
  }

  lemma InitialIsSound(size: nat)
    ensures Invariant(Initial(size))
  {
  }

  lemma FreshId(s: State)
    requires Invariant(s)
    ensures s.nextId !in s.pending
  {
  }

  lemma DispatchKeeps(s: State, job: Job)
    requires SameSizes(s) && Invariant(s)
    ensures Invariant(Dispatch(s, job))
  {
    hide HasSettled;
    var t := Dispatch(s, job);
    if |s.inbox| > 0 {
      assert !HasSettled(s.settled, s.nextId) by { NotSettledYet(s); }
      forall id | id in t.pending ensures Known(t, id) {
        if id in s.pending { assert Known(s, id); }
      }
      forall i | 0 <= i < |t.settled| ensures Known(t, t.settled[i].id) {
        assert Known(s, t.settled[i].id);
      }
      forall i, j | 0 <= i < j < |t.pending| ensures t.pending[i] < t.pending[j] {
        assert s.pending[i] in s.pending;
        assert Known(s, s.pending[i]);
      }
      forall id | Known(t, id) ensures id in t.pending <==> !HasSettled(t.settled, id) {
        if id != s.nextId { assert Known(s, id); }
      }
    }
  }

  lemma NotSettledYet(s: State)
    requires Invariant(s)
    ensures !HasSettled(s.settled, s.nextId)
  {
    forall i | 0 <= i < |s.settled| ensures s.settled[i].id < s.nextId {
      assert Known(s, s.settled[i].id);
    }
  }

  lemma {:induction false} WithoutKeepsOrder(ids: seq<nat>, x: nat)
    requires Ascending(ids)
    ensures Ascending(Without(ids, x))
  {
    if ids != [] {
      var n := |ids| - 1;
      WithoutKeepsOrder(ids[..n], x);
      var r := Without(ids[..n], x);
      forall i | 0 <= i < |r| ensures r[i] < ids[n] {
        assert r[i] in ids[..n];
      }
    }
  }

  lemma SettledAppend(settled: seq<Settlement>, more: seq<Settlement>, id: nat)
    ensures HasSettled(settled + more, id) <==> (HasSettled(settled, id) || HasSettled(more, id))
  {
    var all := settled + more;
    if HasSettled(settled, id) {
      var i :| 0 <= i < |settled| && settled[i].id == id;
      assert all[i].id == id;
    }
    if HasSettled(more, id) {
      var i :| 0 <= i < |more| && more[i].id == id;
      assert all[|settled| + i].id == id;
    }
    if HasSettled(all, id) {
      var i :| 0 <= i < |all| && all[i].id == id;
      if i >= |settled| { assert more[i - |settled|].id == id; }
    }
  }

  lemma OnMessageKeeps(s: State, m: Reply)
    requires Invariant(s)
    ensures Invariant(OnMessage(s, m))
  {
    hide HasSettled;
    if m.id in s.pending {
      var t := OnMessage(s, m);
      var one := [Settlement(m.id, Answer(m))];
      WithoutKeepsOrder(s.pending, m.id);
      assert Known(s, m.id);
      forall id ensures HasSettled(t.settled, id) <==> (HasSettled(s.settled, id) || id == m.id) {
        SettledAppend(s.settled, one, id);
        OneSettled(one[0], id);
      }
      forall id | Known(t, id) ensures id in t.pending <==> !HasSettled(t.settled, id) {
        assert Known(s, id);
      }
      forall i | 0 <= i < |s.settled| ensures s.settled[i].id != m.id {
        SettledIsThere(s.settled, i);
      }
      forall i | 0 <= i < |t.settled| ensures Known(t, t.settled[i].id) {
        if i < |s.settled| { assert Known(s, s.settled[i].id); }
      }
      forall id | id in t.pending ensures Known(t, id) { assert Known(s, id); }
    }
  }

  lemma OneSettled(x: Settlement, id: nat)
    ensures HasSettled([x], id) <==> x.id == id
  {
    assert [x][0] == x;
  }

  lemma SettledIsThere(settled: seq<Settlement>, i: nat)
    requires i < |settled|
    ensures HasSettled(settled, settled[i].id)
  {
  }

  lemma RejectedAre(ids: seq<nat>, id: nat)
    ensures HasSettled(RejectAll(ids), id) <==> id in ids
  {
    var r := RejectAll(ids);
    if id in ids {
      var i :| 0 <= i < |ids| && ids[i] == id;
      assert r[i].id == id;
    }
  }

  lemma DestroyKeeps(s: State)
    requires Invariant(s)
    ensures Invariant(Destroy(s))
    ensures forall id :: Known(s, id) ==> HasSettled(Destroy(s).settled, id)
  {
    hide HasSettled;
    var t := Destroy(s);
    var more := RejectAll(s.pending);
    forall id ensures HasSettled(t.settled, id) <==> (HasSettled(s.settled, id) || id in s.pending) {
      SettledAppend(s.settled, more, id);
      RejectedAre(s.pending, id);
    }
    forall id | Known(t, id) ensures Known(s, id) && HasSettled(t.settled, id) {
      assert Known(s, id);
    }
    forall i | 0 <= i < |t.settled| ensures Known(t, t.settled[i].id) {
      assert Known(s, t.settled[i].id) by {
        if i < |s.settled| { assert Known(s, s.settled[i].id); } else { assert s.pending[i - |s.settled|] in s.pending; }
      }
    }
    forall i, j | 0 <= i < j < |t.settled| ensures t.settled[i].id != t.settled[j].id {
      if i < |s.settled| { SettledIsThere(s.settled, i); }
      if i < |s.settled| <= j {
        assert s.pending[j - |s.settled|] in s.pending;
        assert Known(s, s.pending[j - |s.settled|]);
      }
    }
  }

  lemma {:induction false} RunKeepsInvariant(size: nat, events: seq<Event>, work: Work)
    ensures Invariant(Run(size, events, work))
  {
    hide Invariant;
    if events == [] {
      InitialIsSound(size);
    } else {
      RunKeepsInvariant(size, events[..|events| - 1], work);
      StepKeeps(Run(size, events[..|events| - 1], work), events[|events| - 1], work);
    }
  }

  lemma StepKeeps(s: State, e: Event, work: Work)
    requires SameSizes(s) && Invariant(s)
    ensures Invariant(Step(s, e, work))
  {
    hide HasSettled, Dispatch, OnMessage, Destroy, Ascending;
    match e
    case Dispatched(job) => DispatchKeeps(s, job);
    case Delivered(k) => if k < |s.mail| { OnMessageKeeps(s, s.mail[k]); SameJobs(OnMessage(s, s.mail[k]), Step(s, e, work)); }
    case Shutdown => DestroyKeeps(s);
    case Posted(w, k) => SameJobs(s, Step(s, e, work));
    case Died(w) => SameJobs(s, Step(s, e, work));
  }

  /** The invariant looks only at the jobs and their settlements. */
  lemma SameJobs(s: State, t: State)
    requires Invariant(s)
    requires t.nextId == s.nextId && t.pending == s.pending && t.settled == s.settled && t.sent == s.sent
    ensures Invariant(t)
  {
    hide HasSettled, Ascending;
    assert forall id :: Known(t, id) <==> Known(s, id);
  }

  // ---- whose reply settles a job

  /** Every request and reply under way carries its own job. */
  ghost predicate Faithful(s: State, work: Work) {
    && |s.sent| + 1 == s.nextId
    && (forall w, k :: 0 <= w < |s.inbox| && 0 <= k < |s.inbox[w]| ==> RequestKnown(s, s.inbox[w][k]))
    && (forall k :: 0 <= k < |s.mail| ==> ReplyKnown(s, s.mail[k], work))
    && (forall i :: 0 <= i < |s.settled| ==> OwnReply(s, s.settled[i], work))
  }

  predicate RequestKnown(s: State, r: Request) {
    Known(s, r.id) && r.job == s.sent[r.id - 1]
  }

  predicate ReplyKnown(s: State, m: Reply, work: Work) {
    Known(s, m.id) && m == ReplyTo(Request(m.id, s.sent[m.id - 1]), work)
  }

  /** Settled by the shutdown, or with what the work on its own job gave. */
  predicate OwnReply(s: State, x: Settlement, work: Work) {
    Known(s, x.id) &&
    (x.how == Rejected(SHUTTING_DOWN) || x.how == Answer(ReplyTo(Request(x.id, s.sent[x.id - 1]), work)))
  }

  lemma FaithfulDispatch(s: State, job: Job, work: Work)
    requires SameSizes(s) && Faithful(s, work)
    ensures Faithful(Dispatch(s, job), work)
  {
    hide ReplyTo, Answer;
    var t := Dispatch(s, job);
    if |s.inbox| > 0 {
      forall r: Request | RequestKnown(s, r) ensures RequestKnown(t, r) {}
      forall m: Reply | ReplyKnown(s, m, work) ensures ReplyKnown(t, m, work) {}
      forall x: Settlement | OwnReply(s, x, work) ensures OwnReply(t, x, work) {}
      forall w, k | 0 <= w < |t.inbox| && 0 <= k < |t.inbox[w]| ensures RequestKnown(t, t.inbox[w][k]) {
        if k < |s.inbox[w]| { assert RequestKnown(s, s.inbox[w][k]); }
      }
    }
  }

  lemma FaithfulStep(s: State, e: Event, work: Work)
    requires SameSizes(s) && Invariant(s) && Faithful(s, work)
    ensures Faithful(Step(s, e, work), work)
  {
    hide ReplyTo, Answer, Invariant, Dispatch, Without;
    var t := Step(s, e, work);
    match e
    case Dispatched(job) => FaithfulDispatch(s, job, work);
    case Posted(w, k) =>
      if w < |s.inbox| && s.alive[w] && k < |s.inbox[w]| {
        KnownReply(s, s.inbox[w][k], work);
        SameKnown(s, t, work);
        forall j | 0 <= j < |t.mail| ensures ReplyKnown(t, t.mail[j], work) {
          if j < |s.mail| { assert ReplyKnown(s, s.mail[j], work); }
        }
        forall j | 0 <= j < |t.inbox[w]| ensures RequestKnown(t, t.inbox[w][j]) {
          assert t.inbox[w][j] in s.inbox[w];
        }
      }
    case Delivered(k) =>
      if k < |s.mail| {
        assert ReplyKnown(s, s.mail[k], work);
        SameKnown(s, t, work);
        forall j | 0 <= j < |t.mail| ensures ReplyKnown(t, t.mail[j], work) {
          assert t.mail[j] in s.mail;
        }
      }
    case Died(w) => SameKnown(s, t, work);
    case Shutdown =>
      SameKnown(s, t, work);
      forall i | 0 <= i < |t.settled| ensures OwnReply(t, t.settled[i], work) {
        if i >= |s.settled| { PendingKnown(s, i - |s.settled|); }
      }
  }

  lemma KnownReply(s: State, r: Request, work: Work)
    requires RequestKnown(s, r)
    ensures ReplyKnown(s, ReplyTo(r, work), work)
  {
  }

  lemma PendingKnown(s: State, i: nat)
    requires Invariant(s) && i < |s.pending|
    ensures Known(s, s.pending[i])
  {
  }

  lemma SameKnown(s: State, t: State, work: Work)
    requires s.nextId == t.nextId && s.sent == t.sent
    ensures forall r: Request :: RequestKnown(s, r) <==> RequestKnown(t, r)
    ensures forall m: Reply :: ReplyKnown(s, m, work) <==> ReplyKnown(t, m, work)
    ensures forall x: Settlement :: OwnReply(s, x, work) <==> OwnReply(t, x, work)
    ensures forall id :: Known(s, id) <==> Known(t, id)
  {
    hide ReplyTo, Answer;
  }

  lemma {:induction false} RunIsFaithful(size: nat, events: seq<Event>, work: Work)
    ensures Faithful(Run(size, events, work), work)
  {
    hide Faithful, Step, Invariant;
    if events == [] {
      InitialFaithful(size, work);
    } else {
      RunIsFaithful(size, events[..|events| - 1], work);
      RunKeepsInvariant(size, events[..|events| - 1], work);
      FaithfulStep(Run(size, events[..|events| - 1], work), events[|events| - 1], work);
    }
  }

  lemma InitialFaithful(size: nat, work: Work)
    ensures Faithful(Initial(size), work)
  {
  }

  /**
   * In every run, each job settles at most once, only with the answer to its own request or by a
   * shutdown, and until then it is pending.
   */
  lemma EachJobSettlesOnceWithItsOwnReply(size: nat, events: seq<Event>, work: Work)
    ensures
      var s := Run(size, events, work);
      && (forall i, j :: 0 <= i < j < |s.settled| ==> s.settled[i].id != s.settled[j].id)
      && (forall i :: 0 <= i < |s.settled| ==> OwnReply(s, s.settled[i], work))
      && (forall id :: 1 <= id < s.nextId ==> (id in s.pending <==> !HasSettled(s.settled, id)))
  {
    hide Run, HasSettled, OwnReply;
    RunKeepsInvariant(size, events, work);
    RunIsFaithful(size, events, work);
    var s := Run(size, events, work);
    assert forall id :: 1 <= id < s.nextId ==> Known(s, id);
  }

  // ---- settlements, read off the events

  /** The jobs in the order they were dispatched. */
  function Jobs(events: seq<Event>): seq<Job> {
    if events == [] then []
    else
      var e := events[|events| - 1];
      Jobs(events[..|events| - 1]) + if e.Dispatched? then [e.job] else []
  }

  lemma {:induction false} SentIsJobs(size: nat, events: seq<Event>, work: Work)
    requires size > 0
    ensures Run(size, events, work).sent == Jobs(events) && |Run(size, events, work).inbox| == size
  {
    hide ReplyTo, Answer, Without;
    if events != [] { SentIsJobs(size, events[..|events| - 1], work); }
  }

  /** What the promise of a job resolves or rejects with, given what its work came to. */
  ghost predicate Settles(how: How, outcome: Result<Value, string>) {
    match outcome
    case Ok(v) => how == Resolved(v)
    case Err(text) => how == if text == "" then Resolved(Undefined) else Rejected(text)
  }

  lemma AnswerMeans(id: nat, job: Job, work: Work)
    ensures Settles(Answer(ReplyTo(Request(id, job), work)), work(job))
  {
  }

  /** The settlement is the answer to the job of its id. */
  ghost predicate Answered(s: State, x: Settlement, work: Work) {
    1 <= x.id <= |s.sent| && x.how == Answer(ReplyTo(Request(x.id, s.sent[x.id - 1]), work))
  }

  ghost predicate AllAnswered(s: State, work: Work) {
    forall i :: 0 <= i < |s.settled| ==> Answered(s, s.settled[i], work)
  }

  lemma AnsweredStep(s: State, e: Event, work: Work)
    requires SameSizes(s) && Faithful(s, work) && !e.Shutdown? && AllAnswered(s, work)
    ensures AllAnswered(Step(s, e, work), work)
  {
    hide Answer, ReplyTo, Faithful, Step;
    var t := Step(s, e, work);
    SentGrows(s, e, work);
    forall i | 0 <= i < |t.settled| ensures Answered(t, t.settled[i], work) {
      if i < |s.settled| {
        assert Answered(s, s.settled[i], work);
        StaysAnswered(s, t, s.settled[i], work);
      } else {
        DeliveredSettles(s, e, work);
        MailIsKnown(s, work);
        SentCounts(s, work);
        assert ReplyKnown(s, s.mail[e.k], work);
        AnswerIsOwn(s, s.mail[e.k], work);
        StaysAnswered(s, t, Settlement(s.mail[e.k].id, Answer(s.mail[e.k])), work);
      }
    }
  }

  lemma StaysAnswered(s: State, t: State, x: Settlement, work: Work)
    requires Answered(s, x, work) && s.sent <= t.sent && s.nextId <= t.nextId
    ensures Answered(t, x, work)
  {
    hide Answer, ReplyTo;
    assert t.sent[x.id - 1] == s.sent[x.id - 1];
  }

  lemma SentCounts(s: State, work: Work)
    requires Faithful(s, work)
    ensures |s.sent| + 1 == s.nextId
  {
  }

  lemma AnswerIsOwn(s: State, m: Reply, work: Work)
    requires |s.sent| + 1 == s.nextId && ReplyKnown(s, m, work)
    ensures Answered(s, Settlement(m.id, Answer(m)), work)
  {
    hide Answer, ReplyTo;
  }

  lemma {:induction false} NoShutdownNoRejection(size: nat, events: seq<Event>, work: Work)
    requires Shutdown !in events
    ensures AllAnswered(Run(size, events, work), work)
  {
    hide Step, AllAnswered, Faithful;
    if events == [] {
      NothingSettled(size, work);
    } else {
      var n := |events| - 1;
      assert events[n] in events;
      NoShutdownNoRejection(size, events[..n], work);
      RunIsFaithful(size, events[..n], work);
      AnsweredStep(Run(size, events[..n], work), events[n], work);
    }
  }

  lemma NothingSettled(size: nat, work: Work)
    ensures AllAnswered(Initial(size), work)
  {
  }

  lemma MailIsKnown(s: State, work: Work)
    requires Faithful(s, work)
    ensures forall k :: 0 <= k < |s.mail| ==> ReplyKnown(s, s.mail[k], work)
  {
  }

  /** Apart from a shutdown, only a delivered reply settles a job. */
  lemma DeliveredSettles(s: State, e: Event, work: Work)
    requires SameSizes(s) && !e.Shutdown? && |Step(s, e, work).settled| > |s.settled|
    ensures e.Delivered? && e.k < |s.mail|
    ensures Step(s, e, work).settled == s.settled + [Settlement(s.mail[e.k].id, Answer(s.mail[e.k]))]
    ensures Step(s, e, work).sent == s.sent && Step(s, e, work).nextId == s.nextId
  {
    hide ReplyTo, Answer, Without;
  }

  lemma SentGrows(s: State, e: Event, work: Work)
    requires SameSizes(s)
    ensures s.sent <= Step(s, e, work).sent && s.settled <= Step(s, e, work).settled
    ensures s.nextId <= Step(s, e, work).nextId
  {
    hide ReplyTo, Answer, Without;
  }

  /**
   * In every run, told by its events: the job under an id is the one dispatched at that place, and its
   * promise settles with what the work on it came to, or, only after a shutdown, is rejected by it.
   */
  lemma EverySettlementIsItsOwn(size: nat, events: seq<Event>, work: Work, i: nat)
    requires size > 0 && i < |Run(size, events, work).settled|
    ensures
      var x := Run(size, events, work).settled[i];
      && 1 <= x.id <= |Jobs(events)|
      && (Settles(x.how, work(Jobs(events)[x.id - 1]))
          || (Shutdown in events && x.how == Rejected("bcrypt service shutting down")))
  {
    hide Run, Answer, ReplyTo, Settles;
    var s := Run(size, events, work);
    SentIsJobs(size, events, work);
    RunIsFaithful(size, events, work);
    RunKeepsInvariant(size, events, work);
    SentPerId(s);
    var x := s.settled[i];
    assert OwnReply(s, x, work);
    AnswerMeans(x.id, s.sent[x.id - 1], work);
    if Shutdown !in events {
      NoShutdownNoRejection(size, events, work);
      assert Answered(s, x, work);
    }
  }

  /** Every request waiting at a worker is there by its id, round robin. */
  ghost predicate ByTurn(s: State, size: nat) {
    forall w, k :: 0 <= w < |s.inbox| && 0 <= k < |s.inbox[w]| ==> TurnOf(s.inbox[w][k], size, w)
  }

  predicate TurnOf(r: Request, size: nat, w: nat) {
    size > 0 && r.id >= 1 && (r.id - 1) % size == w
  }

  lemma ByTurnStep(s: State, e: Event, work: Work, size: nat)
    requires SameSizes(s) && size > 0 && |s.inbox| == size && s.rr + 1 == s.nextId && ByTurn(s, size)
    ensures ByTurn(Step(s, e, work), size)
  {
    hide ReplyTo, Answer, Without, TurnOf;
    var t := Step(s, e, work);
    if e.Dispatched? {
      var w := s.rr % size;
      assert TurnOf(Request(s.nextId, e.job), size, w) by { NextTurn(s.nextId, e.job, size); }
    } else if e.Posted? && e.worker < |s.inbox| && s.alive[e.worker] && e.k < |s.inbox[e.worker]| {
      var old_, new_ := s.inbox[e.worker], t.inbox[e.worker];
      forall k | 0 <= k < |new_| ensures TurnOf(new_[k], size, e.worker) {
        assert new_[k] in old_;
        var j :| 0 <= j < |old_| && old_[j] == new_[k];
      }
    }
  }

  lemma NextTurn(id: nat, job: Job, size: nat)
    requires size > 0 && id >= 1
    ensures TurnOf(Request(id, job), size, (id - 1) % size)
  {
  }

  lemma {:induction false} DealtByTurn(size: nat, events: seq<Event>, work: Work)
    requires size > 0
    ensures ByTurn(Run(size, events, work), size)
  {
    hide Step, ByTurn;
    if events == [] {
      NothingDealt(size);
    } else {
      var n := |events| - 1;
      DealtByTurn(size, events[..n], work);
      SentIsJobs(size, events[..n], work);
      TurnIsNextId(size, events[..n], work);
      ByTurnStep(Run(size, events[..n], work), events[n], work, size);
    }
  }

  lemma NothingDealt(size: nat)
    ensures ByTurn(Initial(size), size)
  {
  }

  lemma {:induction false} TurnIsNextId(size: nat, events: seq<Event>, work: Work)
    requires size > 0
    ensures Run(size, events, work).rr + 1 == Run(size, events, work).nextId
  {
    hide ReplyTo, Answer, Without;
    if events != [] {
      TurnIsNextId(size, events[..|events| - 1], work);
      SentIsJobs(size, events[..|events| - 1], work);
    }
  }

  /** A shutdown leaves nothing pending: every job ever dispatched has settled. */
  lemma ShutdownSettlesAll(size: nat, events: seq<Event>, work: Work)
    ensures
      var s := Run(size, events + [Shutdown], work);
      s.pending == [] && forall id :: 1 <= id < s.nextId ==> HasSettled(s.settled, id)
  {
    hide HasSettled, Invariant;
    var all := events + [Shutdown];
    assert all[..|all| - 1] == events;
    var s := Run(size, events, work);
    RunKeepsInvariant(size, events, work);
    DestroyKeeps(s);
    SentPerId(s);
    assert forall id :: 1 <= id < s.nextId ==> Known(s, id);
  }

  lemma SentPerId(s: State)
    requires Invariant(s)
    ensures |s.sent| == s.nextId - 1
  {
  }

  // ---- without failures, drained queues leave nothing pending

  predicate Smooth(e: Event) {
    !e.Died? && !e.Shutdown?
  }

  /** The job is with a worker or its reply is under way. */
  predicate InTransit(s: State, id: nat) {
    InInbox(s.inbox, id) || InMail(s.mail, id)
  }

  predicate InInbox(inbox: seq<seq<Request>>, id: nat) {
    exists w, k :: 0 <= w < |inbox| && 0 <= k < |inbox[w]| && inbox[w][k].id == id
  }

  predicate InMail(mail: seq<Reply>, id: nat) {
    exists k :: 0 <= k < |mail| && mail[k].id == id
  }

  ghost predicate AllOnTheWay(s: State) {
    (forall w :: 0 <= w < |s.alive| ==> s.alive[w]) && forall id :: id in s.pending ==> InTransit(s, id)
  }

  lemma InboxKeeps(a: seq<seq<Request>>, w: nat, b: seq<Request>, id: nat)
    requires w < |a| && InInbox(a, id) && forall r :: r in a[w] && r.id == id ==> r in b
    ensures InInbox(a[w := b], id)
  {
    var v, k :| 0 <= v < |a| && 0 <= k < |a[v]| && a[v][k].id == id;
    var c: seq<seq<Request>> := a[w := b];
    if v == w {
      assert a[w][k] in b;
      var j :| 0 <= j < |b| && b[j] == a[w][k];
      assert c[w][j].id == id;
    } else {
      assert c[v][k].id == id;
    }
  }

  lemma MailKeeps(a: seq<Reply>, b: seq<Reply>, id: nat)
    requires InMail(a, id) && forall m :: m in a && m.id == id ==> m in b
    ensures InMail(b, id)
  {
    var k :| 0 <= k < |a| && a[k].id == id;
    assert a[k] in b;
    var j :| 0 <= j < |b| && b[j] == a[k];
  }

  lemma TransitStep(s: State, e: Event, work: Work)
    requires SameSizes(s) && AllOnTheWay(s) && Smooth(e)
    ensures AllOnTheWay(Step(s, e, work))
  {
    hide InInbox, InMail, ReplyTo, Answer, Without;
    var t := Step(s, e, work);
    match e
    case Dispatched(job) =>
      if |s.inbox| > 0 {
        var w := s.rr % |s.inbox|;
        var r := Request(s.nextId, job);
        forall id | id in t.pending ensures InTransit(t, id) {
          if id in s.pending {
            if InInbox(s.inbox, id) { InboxKeeps(s.inbox, w, s.inbox[w] + [r], id); }
          } else {
            InInboxAt(t.inbox, w, |s.inbox[w]|);
          }
        }
      }
    case Posted(w, k) =>
      if w < |s.inbox| && s.alive[w] && k < |s.inbox[w]| {
        var r := s.inbox[w][k];
        forall id | id in t.pending ensures InTransit(t, id) {
          assert InTransit(s, id);
          InMailAt(t.mail, |s.mail|);
          assert t.mail[|s.mail|].id == r.id by { ReplyId(r, work); }
          if id != r.id {
            if InInbox(s.inbox, id) { InboxKeeps(s.inbox, w, Drop(s.inbox[w], k), id); } else { MailKeeps(s.mail, t.mail, id); }
          }
        }
      }
    case Delivered(k) =>
      if k < |s.mail| {
        forall id | id in t.pending ensures InTransit(t, id) {
          assert id in s.pending && id != s.mail[k].id;
          assert InTransit(s, id);
          if InMail(s.mail, id) { MailKeeps(s.mail, t.mail, id); }
        }
      }
  }

  lemma ReplyId(r: Request, work: Work)
    ensures ReplyTo(r, work).id == r.id
  {
  }

  lemma InInboxAt(inbox: seq<seq<Request>>, w: nat, k: nat)
    requires w < |inbox| && k < |inbox[w]|
    ensures InInbox(inbox, inbox[w][k].id)
  {
  }

  lemma InMailAt(mail: seq<Reply>, k: nat)
    requires k < |mail|
    ensures InMail(mail, mail[k].id)
  {
  }

  lemma {:induction false} RunAllOnTheWay(size: nat, events: seq<Event>, work: Work)
    requires forall i :: 0 <= i < |events| ==> Smooth(events[i])
    ensures AllOnTheWay(Run(size, events, work))
  {
    hide AllOnTheWay, Step, Smooth;
    if events == [] {
      InitialOnTheWay(size);
    } else {
      RunAllOnTheWay(size, events[..|events| - 1], work);
      TransitStep(Run(size, events[..|events| - 1], work), events[|events| - 1], work);
    }
  }

  lemma InitialOnTheWay(size: nat)
    ensures AllOnTheWay(Initial(size))
  {
  }

  /** Without deaths or shutdown, once every queue is drained every job has settled. */
  lemma DrainedMeansSettled(size: nat, events: seq<Event>, work: Work)
    requires forall i :: 0 <= i < |events| ==> Smooth(events[i])
    requires
      var s := Run(size, events, work);
      s.mail == [] && forall w :: 0 <= w < |s.inbox| ==> s.inbox[w] == []
    ensures Run(size, events, work).pending == []
  {
    hide Run, Smooth, InTransit;
    RunAllOnTheWay(size, events, work);
    var s := Run(size, events, work);
    forall id ensures !InTransit(s, id) { NothingUnderWay(s, id); }
    if s.pending != [] { FirstIsMember(s.pending); }
  }

  lemma FirstIsMember(ids: seq<nat>)
    requires ids != []
    ensures ids[0] in ids
  {
  }

  lemma NothingUnderWay(s: State, id: nat)
    requires s.mail == [] && forall w :: 0 <= w < |s.inbox| ==> s.inbox[w] == []
    ensures !InTransit(s, id)
  {
  }

  // ---- a job dispatched after the shutdown hangs

  /** No worker lives, and nothing under way names a job from `from` on. */
  ghost predicate DeadSince(s: State, from: nat) {
    && (forall w :: 0 <= w < |s.alive| ==> !s.alive[w])
    && (forall k :: 0 <= k < |s.mail| ==> s.mail[k].id < from)
    && from <= s.nextId
    && forall id :: from <= id < s.nextId ==> id in s.pending
  }

  lemma DeadStep(s: State, from: nat, e: Event, work: Work)
    requires SameSizes(s) && DeadSince(s, from) && !e.Shutdown?
    ensures DeadSince(Step(s, e, work), from)
  {
    hide ReplyTo, Answer;
    var t := Step(s, e, work);
    match e
    case Delivered(k) =>
      if k < |s.mail| {
        forall j | 0 <= j < |t.mail| ensures t.mail[j].id < from {
          assert t.mail[j] in s.mail;
        }
      }
    case _ =>
  }

  lemma {:induction false} JobsAfterShutdownHang(size: nat, before: seq<Event>, after: seq<Event>, work: Work)
    requires forall i :: 0 <= i < |after| ==> !after[i].Shutdown?
    ensures
      var from := Run(size, before + [Shutdown], work).nextId;
      DeadSince(Run(size, before + [Shutdown] + after, work), from)
  {
    hide DeadSince, Invariant, Faithful, Step;
    var all := before + [Shutdown] + after;
    if after == [] {
      assert all == before + [Shutdown];
      assert all[..|all| - 1] == before;
      RunIsFaithful(size, before, work);
      ShutdownIsDead(Run(size, before, work), work);
    } else {
      JobsAfterShutdownHang(size, before, after[..|after| - 1], work);
      assert all[..|all| - 1] == before + [Shutdown] + after[..|after| - 1];
      DeadStep(Run(size, all[..|all| - 1], work), Run(size, before + [Shutdown], work).nextId, all[|all| - 1], work);
    }
  }

  lemma ShutdownIsDead(s: State, work: Work)
    requires SameSizes(s) && Faithful(s, work)
    ensures DeadSince(Step(s, Shutdown, work), Step(s, Shutdown, work).nextId)
  {
    hide ReplyTo, Answer;
    forall k | 0 <= k < |s.mail| ensures s.mail[k].id < s.nextId {
      assert ReplyKnown(s, s.mail[k], work);
    }
  }

  // ---- worker loads

  /** rr jobs dealt round robin over the workers: the first rr mod n have one more than the rest. */
  ghost predicate Dealt(s: State) {
    && (|s.loads| > 0 ==> s.rr + 1 == s.nextId)
    && forall w :: 0 <= w < |s.loads| ==> s.loads[w] == Share(s.rr, |s.loads|, w)
  }

  function Share(rr: nat, n: nat, w: nat): nat
    requires n > 0
  {
    if rr == 0 then 0 else Share(rr - 1, n, w) + if (rr - 1) % n == w then 1 else 0
  }

  lemma {:induction false} ShareIsEven(rr: nat, n: nat, w: nat)
    requires w < n
    ensures Share(rr, n, w) == rr / n + if w < rr % n then 1 else 0
  {
    if rr == 0 {
      DivModZero(n);
    } else {
      ShareIsEven(rr - 1, n, w);
      DivModNext(rr - 1, n);
    }
  }

  lemma {:induction false} RunDealsEvenly(size: nat, events: seq<Event>, work: Work)
    ensures Dealt(Run(size, events, work)) && |Run(size, events, work).loads| == size
  {
    hide ReplyTo, Answer, OnMessage, Destroy;
    if events != [] {
      var s := Run(size, events[..|events| - 1], work);
      RunDealsEvenly(size, events[..|events| - 1], work);
      match events[|events| - 1]
      case Delivered(k) => if k < |s.mail| { OnMessageFrame(s, s.mail[k]); }
      case Shutdown => DestroyFrame(s);
      case _ =>
    }
  }

  lemma OnMessageFrame(s: State, m: Reply)
    ensures var t := OnMessage(s, m); t.loads == s.loads && t.rr == s.rr && t.nextId == s.nextId
  {
  }

  lemma DestroyFrame(s: State)
    ensures var t := Destroy(s); t.loads == s.loads && t.rr == s.rr && t.nextId == s.nextId
  {
  }

  /** No worker is ever handed more than one job more than another. */
  lemma LoadsDifferByAtMostOne(size: nat, events: seq<Event>, work: Work, v: nat, w: nat)
    requires v < size && w < size
    ensures |Run(size, events, work).loads| == size
    ensures Run(size, events, work).loads[v] <= Run(size, events, work).loads[w] + 1
  {
    hide Run, Share;
    RunDealsEvenly(size, events, work);
    var s := Run(size, events, work);
    ShareIsEven(s.rr, size, v);
    ShareIsEven(s.rr, size, w);
  }

  // ---- the size of the pool

  /** The environment variable as parsed (absent when not a number) and the processor count (absent when unknown). */
  function ResolvePoolSize(raw: Option<int>, cpus: Option<nat>): nat {
    if raw.Some? && raw.value == 0 then 0
    else if raw.Some? && raw.value > 0 then raw.value
    else
      var c := if cpus.Some? then cpus.value else 4;
      var m := if c - 4 < 16 then c - 4 else 16;
      if 2 < m then m else 2
  }

  /** An empty pool only when asked for; by default between 2 and 16 workers. */
  lemma DefaultPoolSize(raw: Option<int>, cpus: Option<nat>)
    ensures ResolvePoolSize(raw, cpus) == 0 <==> raw == Some(0)
    ensures raw.None? || raw.value < 0 ==> 2 <= ResolvePoolSize(raw, cpus) <= 16
  {
  }

  /** By default all processors but four, and at least 2 and at most 16; 2 where the count is unknown. */
  lemma DefaultSizeMeans(raw: Option<int>, cpus: Option<nat>)
    requires raw.None? || raw.value < 0
    ensures ResolvePoolSize(raw, cpus) == 2 <==> cpus.None? || cpus.value <= 6
    ensures ResolvePoolSize(raw, cpus) == 16 <==> cpus.Some? && cpus.value >= 20
    ensures cpus.Some? && 6 <= cpus.value <= 20 ==> ResolvePoolSize(raw, cpus) + 4 == cpus.value
  {
  }

  /** The comment on the class says half the processors, between 2 and 8; that is so for few processor counts. */
  lemma CommentedSizeIff(c: nat)
    ensures
      var half := if c / 2 < 8 then c / 2 else 8;
      ResolvePoolSize(None, Some(c)) == (if half < 2 then 2 else half) <==> c <= 5 || c == 7 || c == 8
  {
  }
}
