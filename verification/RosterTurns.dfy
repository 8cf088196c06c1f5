/**
 * When the matcher assigns: what happens to each roster line at its turn, told by counting the users that
 * fit it, and which matches no later line or pass can take away.
 */
module RosterTurns {
  import opened Wrappers
  import opened RosterMatch

  // ---- which users fit

  /** The first words agree, as many as the shorter name has: two or more, or one of at least three letters. */
  ghost predicate SameStart(a: seq<string>, b: seq<string>) {
    var n := if |a| <= |b| then |a| else |b|;
    n > 0 && (forall i :: 0 <= i < n ==> a[i] == b[i]) && (n >= 2 || |a[0]| >= 3)
  }

  ghost predicate NameFits(rule: Rule, name: Name, it: Item) {
    match rule
    case EXACT => name.tokens == it.canonical.tokens
    case PREFIX_TOKENS => SameStart(name.tokens, it.canonical.tokens)
    case COMPACT => Concat(name.tokens) == Concat(it.canonical.tokens) && |Concat(name.tokens)| >= 4
    case ALIAS => it.hint != None && exists a, b :: name.folded == a + it.hint.value + b
  }

  /** The name fits by the rule of the pass, and the branch is the section's where the pass asks for it and one is known. */
  ghost predicate Fits(w: World, p: Pass, u: User, it: Item) {
    && NameFits(p.rule, u.fullName, it)
    && (p.requireBranch && it.section in w.branchOf && w.branchOf[it.section] != "" ==> u.branchId == Some(w.branchOf[it.section]))
  }

  lemma {:induction false} ConcatOfParts(a: seq<string>, b: seq<string>)
    ensures Concat(a + b) == Concat(a) + Concat(b)
    ensures forall x :: Concat([x]) == x
  {
    forall x ensures Concat([x]) == x { assert [x][..0] == []; }
    if b == [] {
      assert a + b == a;
    } else {
      ConcatOfParts(a, b[..|b| - 1]);
      assert (a + b)[..|a + b| - 1] == a + b[..|b| - 1];
    }
  }

  lemma StartIsPrefix(a: seq<string>, b: seq<string>)
    ensures StartsOther(a, b) <==> SameStart(a, b)
  {
    if |a| <= |b| { assert a <= b <==> forall i :: 0 <= i < |a| ==> a[i] == b[i]; }
    if |b| <= |a| { assert b <= a <==> forall i :: 0 <= i < |b| ==> a[i] == b[i]; }
  }

  lemma IncludesMeans(s: string, part: string)
    ensures Includes(s, part) <==> exists a, b :: s == a + part + b
  {
    if Includes(s, part) {
      var i :| 0 <= i <= |s| && OccursAt(s, part, i);
      assert s == s[..i] + part + s[i + |part|..];
    }
    if a, b :| s == a + part + b {
      assert OccursAt(s, part, |a|);
    }
  }

  lemma FitsIsCandidate(w: World, p: Pass, u: User, it: Item)
    ensures Candidate(w, p, u, it) <==> Fits(w, p, u, it)
  {
    hide StartsOther, SameStart, Includes, Concat;
    StartIsPrefix(u.fullName.tokens, it.canonical.tokens);
    if it.hint.Some? { IncludesMeans(u.fullName.folded, it.hint.value); }
  }

  // ---- one turn

  /** User i fits the line and is not claimed. */
  ghost predicate FreeFor(s: State, w: World, p: Pass, it: Item, i: nat) {
    i < |w.users| && Fits(w, p, w.users[i], it) && w.users[i].id !in s.claimed
  }

  ghost predicate NoneFree(s: State, w: World, p: Pass, it: Item) {
    forall i: nat :: !FreeFor(s, w, p, it, i)
  }

  ghost predicate OnlyFree(s: State, w: World, p: Pass, it: Item, i: nat) {
    FreeFor(s, w, p, it, i) && forall j: nat :: FreeFor(s, w, p, it, j) ==> j == i
  }

  ghost predicate SeveralFree(s: State, w: World, p: Pass, it: Item) {
    exists i: nat, j: nat :: i < j && FreeFor(s, w, p, it, i) && FreeFor(s, w, p, it, j)
  }

  /**
   * A line whose key has a user is passed over. Otherwise no free user changes nothing, the only free user is
   * claimed and assigned, and several leave the key without a user and report it.
   */
  ghost predicate Turn(s: State, t: State, w: World, p: Pass, it: Item) {
    if it.key in s.assignments then t == s
    else
      && (NoneFree(s, w, p, it) ==> t == s)
      && (forall i: nat :: OnlyFree(s, w, p, it, i) ==>
           && t.assignments == s.assignments[it.key := w.users[i].id] && t.claimed == s.claimed + {w.users[i].id}
           && t.ambiguous == s.ambiguous)
      && (SeveralFree(s, w, p, it) ==>
           it.key !in t.assignments && t == State(s.assignments, s.claimed, s.ambiguous + [it.key]))
  }

  /** The free user is the one at i, and the only free one of the first n. */
  ghost predicate FirstFree(free: seq<User>, s: State, w: World, p: Pass, it: Item, n: nat, i: nat)
    requires n <= |w.users| && |free| == 1
  {
    && i < n && FreeFor(s, w, p, it, i) && free[0] == w.users[i]
    && forall j: nat :: j < n && FreeFor(s, w, p, it, j) ==> j == i
  }

  /** The free users, by position in the table. */
  ghost predicate Counts(free: seq<User>, s: State, w: World, p: Pass, it: Item, n: nat)
    requires n <= |w.users|
  {
    && (|free| == 0 <==> forall i: nat :: i < n ==> !FreeFor(s, w, p, it, i))
    && (|free| == 1 ==> exists i: nat :: FirstFree(free, s, w, p, it, n, i))
    && (|free| > 1 ==> exists i: nat, j: nat :: i < j < n && FreeFor(s, w, p, it, i) && FreeFor(s, w, p, it, j))
  }

  lemma {:induction false} FreeCounts(s: State, w: World, p: Pass, it: Item, n: nat)
    requires n <= |w.users|
    ensures Counts(Free(w, w.users[..n], s.claimed, p, it), s, w, p, it, n)
  {
    hide Fits, Candidate;
    if n > 0 {
      FreeCounts(s, w, p, it, n - 1);
      assert w.users[..n][..n - 1] == w.users[..n - 1];
      var u := w.users[n - 1];
      FitsIsCandidate(w, p, u, it);
      CountsStep(Free(w, w.users[..n - 1], s.claimed, p, it), s, w, p, it, n - 1);
    }
  }

  lemma CountsStep(free: seq<User>, s: State, w: World, p: Pass, it: Item, n: nat)
    requires n < |w.users| && Counts(free, s, w, p, it, n)
    ensures Counts(free + if FreeFor(s, w, p, it, n) then [w.users[n]] else [], s, w, p, it, n + 1)
  {
    hide FreeFor;
    var more := free + if FreeFor(s, w, p, it, n) then [w.users[n]] else [];
    if |free| == 1 {
      var i: nat :| FirstFree(free, s, w, p, it, n, i);
      if !FreeFor(s, w, p, it, n) { assert FirstFree(more, s, w, p, it, n + 1, i); }
    } else if |free| == 0 && FreeFor(s, w, p, it, n) {
      assert FirstFree(more, s, w, p, it, n + 1, n);
    }
  }

  lemma TurnMeans(s: State, w: World, p: Pass, it: Item)
    ensures Turn(s, StepItem(s, w, p, it), w, p, it)
  {
    hide Free, FreeFor;
    assert w.users[..|w.users|] == w.users;
    FreeCounts(s, w, p, it, |w.users|);
    InTable(s, w, p, it);
    var free := Free(w, w.users, s.claimed, p, it);
    if |free| == 1 {
      var i: nat :| FirstFree(free, s, w, p, it, |w.users|, i);
      assert OnlyFree(s, w, p, it, i);
    }
  }

  lemma InTable(s: State, w: World, p: Pass, it: Item)
    ensures forall i: nat :: FreeFor(s, w, p, it, i) ==> i < |w.users|
  {
  }

  /** The state when line i of the pass has its turn. */
  ghost function AtTurn(s: State, w: World, p: Pass, items: seq<Item>, i: nat): State
    requires i <= |items|
  {
    PassOver(s, w, p, items[..i])
  }

  /** Every line of a pass has its turn, one after the other. */
  lemma PassTurns(s: State, w: World, p: Pass, items: seq<Item>, i: nat)
    requires i < |items|
    ensures AtTurn(s, w, p, items, 0) == s && AtTurn(s, w, p, items, |items|) == PassOver(s, w, p, items)
    ensures Turn(AtTurn(s, w, p, items, i), AtTurn(s, w, p, items, i + 1), w, p, items[i])
  {
    hide Turn, StepItem;
    assert items[..0] == [] && items[..|items|] == items;
    assert items[..i + 1][..i] == items[..i];
    TurnMeans(AtTurn(s, w, p, items, i), w, p, items[i]);
  }

  // ---- a match nothing can take away

  ghost predicate DistinctUsers(w: World) {
    forall i, j :: 0 <= i < j < |w.users| ==> w.users[i].id != w.users[j].id
  }

  /** Under the pass the user at i is the one user that fits the lines of the key, and fits no other line. */
  ghost predicate Meant(w: World, p: Pass, items: seq<Item>, key: string, i: nat) {
    && i < |w.users|
    && forall x :: 0 <= x < |items| ==>
         if items[x].key == key then forall j :: 0 <= j < |w.users| ==> (Fits(w, p, w.users[j], items[x]) <==> j == i)
         else !Fits(w, p, w.users[i], items[x])
  }

  /** Under the pass nobody fits the lines of the key, and the user at i fits no line. */
  ghost predicate Spared(w: World, p: Pass, items: seq<Item>, key: string, i: nat) {
    && i < |w.users|
    && forall x :: 0 <= x < |items| ==>
         if items[x].key == key then forall j :: 0 <= j < |w.users| ==> !Fits(w, p, w.users[j], items[x])
         else !Fits(w, p, w.users[i], items[x])
  }

  /** Neither the key has a user nor the user a key. */
  ghost predicate Open(s: State, w: World, key: string, i: nat) {
    i < |w.users| && key !in s.assignments && w.users[i].id !in s.claimed
  }

  lemma {:induction false} MeantIsAssigned(s: State, w: World, p: Pass, items: seq<Item>, key: string, i: nat, n: nat)
    requires DistinctUsers(w) && Meant(w, p, items, key, i) && n <= |items| && Open(s, w, key, i)
    ensures
      var t := PassOver(s, w, p, items[..n]);
      if exists x :: 0 <= x < n && items[x].key == key
      then key in t.assignments && t.assignments[key] == w.users[i].id
      else Open(t, w, key, i)
  {
    hide Fits, StepItem;
    if n > 0 {
      MeantIsAssigned(s, w, p, items, key, i, n - 1);
      assert items[..n][..n - 1] == items[..n - 1];
      MeantStep(PassOver(s, w, p, items[..n - 1]), w, p, items, key, i, n - 1);
    }
  }

  lemma {:induction false} SparedStaysOpen(s: State, w: World, p: Pass, items: seq<Item>, key: string, i: nat, n: nat)
    requires DistinctUsers(w) && Spared(w, p, items, key, i) && n <= |items| && Open(s, w, key, i)
    ensures Open(PassOver(s, w, p, items[..n]), w, key, i)
  {
    hide Fits, StepItem, Turn;
    if n > 0 {
      SparedStaysOpen(s, w, p, items, key, i, n - 1);
      assert items[..n][..n - 1] == items[..n - 1];
      var m, it := PassOver(s, w, p, items[..n - 1]), items[n - 1];
      TurnMeans(m, w, p, it);
      TurnCases(m, StepItem(m, w, p, it), w, p, it);
      if j: nat :| OnlyFree(m, w, p, it, j) && it.key !in m.assignments {
        TurnAssigns(m, StepItem(m, w, p, it), w, p, it, j);
      }
    }
  }

  lemma MeantStep(s: State, w: World, p: Pass, items: seq<Item>, key: string, i: nat, x: nat)
    requires DistinctUsers(w) && Meant(w, p, items, key, i) && x < |items|
    ensures
      var t := StepItem(s, w, p, items[x]);
      && (key in s.assignments ==> key in t.assignments && t.assignments[key] == s.assignments[key])
      && (key !in s.assignments && w.users[i].id !in s.claimed ==>
            if items[x].key == key then key in t.assignments && t.assignments[key] == w.users[i].id
            else key !in t.assignments && w.users[i].id !in t.claimed)
  {
    hide Fits, Turn, StepItem;
    var it, t := items[x], StepItem(s, w, p, items[x]);
    TurnMeans(s, w, p, it);
    TurnCases(s, t, w, p, it);
    if key !in s.assignments && w.users[i].id !in s.claimed && it.key == key {
      assert OnlyFree(s, w, p, it, i);
      TurnAssigns(s, t, w, p, it, i);
    } else if j: nat :| OnlyFree(s, w, p, it, j) && it.key !in s.assignments {
      TurnAssigns(s, t, w, p, it, j);
    }
  }

  lemma TurnAssigns(s: State, t: State, w: World, p: Pass, it: Item, i: nat)
    requires Turn(s, t, w, p, it) && OnlyFree(s, w, p, it, i) && it.key !in s.assignments
    ensures t.assignments == s.assignments[it.key := w.users[i].id] && t.claimed == s.claimed + {w.users[i].id}
  {
    hide FreeFor;
  }

  /** Nobody is free, or one user, or several. */
  lemma TurnCases(s: State, t: State, w: World, p: Pass, it: Item)
    requires Turn(s, t, w, p, it)
    ensures it.key in s.assignments || !(exists i: nat :: OnlyFree(s, w, p, it, i)) ==>
      t.assignments == s.assignments && t.claimed == s.claimed
  {
    hide FreeFor;
    if it.key !in s.assignments && !NoneFree(s, w, p, it) && !(exists i: nat :: OnlyFree(s, w, p, it, i)) {
      var i: nat :| FreeFor(s, w, p, it, i);
      assert !OnlyFree(s, w, p, it, i);
      var j: nat :| FreeFor(s, w, p, it, j) && j != i;
      assert SeveralFree(s, w, p, it);
    }
  }

  /** The passes in their order: exact names, first words, joined letters, aliases; within the branch, then anywhere. */
  function PassAt(k: nat): Pass
    requires k < 8
  {
    var branch := k < 4;
    if k % 4 == 0 then Pass(EXACT, branch)
    else if k % 4 == 1 then Pass(PREFIX_TOKENS, branch)
    else if k % 4 == 2 then Pass(COMPACT, branch)
    else Pass(ALIAS, branch)
  }

  /** Key and user meet first in pass k, and nothing competes for either before or then. */
  ghost predicate MeantAt(w: World, items: seq<Item>, key: string, i: nat, k: nat) {
    && k < 8 && Meant(w, PassAt(k), items, key, i) && (exists x :: 0 <= x < |items| && items[x].key == key)
    && forall q :: 0 <= q < k ==> Spared(w, PassAt(q), items, key, i)
  }

  lemma {:induction false} StaysOpen(w: World, items: seq<Item>, key: string, i: nat, k: nat, n: nat)
    requires DistinctUsers(w) && MeantAt(w, items, key, i, k) && n <= k
    ensures Open(AllPasses(w, SCHEDULE[..n], items), w, key, i)
  {
    hide PassOver, Meant, Spared;
    if n == 0 {
      NobodyYet(w, items, key, i, k);
    } else {
      StaysOpen(w, items, key, i, k, n - 1);
      NextPass(w, items, n - 1);
      assert items[..|items|] == items;
      SparedStaysOpen(AllPasses(w, SCHEDULE[..n - 1], items), w, PassAt(n - 1), items, key, i, |items|);
    }
  }

  lemma NobodyYet(w: World, items: seq<Item>, key: string, i: nat, k: nat)
    requires MeantAt(w, items, key, i, k)
    ensures Open(AllPasses(w, SCHEDULE[..0], items), w, key, i)
  {
    hide Fits, Spared;
  }

  lemma NextPass(w: World, items: seq<Item>, n: nat)
    requires n < 8
    ensures |SCHEDULE| == 8
    ensures AllPasses(w, SCHEDULE[..n + 1], items) == PassOver(AllPasses(w, SCHEDULE[..n], items), w, PassAt(n), items)
  {
    hide PassOver;
    assert SCHEDULE[..n + 1][..n] == SCHEDULE[..n];
    assert SCHEDULE[n] == PassAt(n);
  }

  /** A match that nothing competes for, up to and in the pass that can make it, is final. */
  lemma MeantIsFinal(w: World, items: seq<Item>, key: string, i: nat, k: nat)
    requires DistinctUsers(w) && MeantAt(w, items, key, i, k)
    ensures
      var s := AllPasses(w, SCHEDULE, items);
      i < |w.users| && key in s.assignments && s.assignments[key] == w.users[i].id
  {
    hide PassOver, Meant, Spared, AllPasses;
    assert items[..|items|] == items;
    StaysOpen(w, items, key, i, k, k);
    MeantIsAssigned(AllPasses(w, SCHEDULE[..k], items), w, PassAt(k), items, key, i, |items|);
    NextPass(w, items, k);
    AssignmentsOnlyGrow(w, SCHEDULE, items, k + 1);
  }

  /** The matcher run on the roster: no plain match is missed. */
  method MatchRoster(w: World, items: seq<Item>) returns (assignments: map<string, string>)
    requires DistinctUsers(w)
    ensures forall key: string, i: nat, k: nat :: MeantAt(w, items, key, i, k) ==>
      i < |w.users| && key in assignments && assignments[key] == w.users[i].id
  {
    hide AllPasses, MeantAt, SCHEDULE;
    var m := new Matcher();
    m.RunSchedule(w, items);
    assignments := m.assignments;
    forall key: string, i: nat, k: nat | MeantAt(w, items, key, i, k)
      ensures i < |w.users| && key in assignments && assignments[key] == w.users[i].id
    {
      MeantIsFinal(w, items, key, i, k);
    }
  }
}
