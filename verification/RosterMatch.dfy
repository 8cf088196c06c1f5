/**
 * Matching a bank roster against the users in eight greedy passes, and writing the account numbers of
 * the matched users.
 */
module RosterMatch {
  import opened Wrappers
  import opened KeyedSums
  import opened Whitespace

  /** A name as the predicates see it: its folded words without notes, and its folded text with them. */
  datatype Name = Name(tokens: seq<string>, folded: string)

  datatype User = User(id: string, fullName: Name, branchId: Option<string>)

  /** A roster line; `hint` is the folded spelling to look for when the name has an alias. */
  datatype Item = Item(key: string, section: string, canonical: Name, hint: Option<string>, iban: string)

  datatype Rule = EXACT | PREFIX_TOKENS | COMPACT | ALIAS
  datatype Pass = Pass(rule: Rule, requireBranch: bool)

  const SCHEDULE := [
    Pass(EXACT, true), Pass(PREFIX_TOKENS, true), Pass(COMPACT, true), Pass(ALIAS, true),
    Pass(EXACT, false), Pass(PREFIX_TOKENS, false), Pass(COMPACT, false), Pass(ALIAS, false)]

  // ---- the match predicates

  predicate ExactEqual(db: Name, canonical: Name) {
    db.tokens == canonical.tokens
  }

  /** One list of words starts the other, and is not a single short word. */
  predicate StartsOther(db: seq<string>, can: seq<string>) {
    && db != [] && can != [] && (db <= can || can <= db)
    && ((|db| >= 2 && |can| >= 2) || |db[0]| >= 3)
  }

  /** The word-by-word comparison of the shorter name with the longer. */
  method PrefixTokenMatch(dbFullName: Name, canonical: Name) returns (b: bool)
    ensures b == StartsOther(dbFullName.tokens, canonical.tokens)
  {
    var db, can := dbFullName.tokens, canonical.tokens;
    if |db| == 0 || |can| == 0 {
      return false;
    }
    var (short, long) := if |db| <= |can| then (db, can) else (can, db);
    var i := 0;
    while i < |short|
      invariant 0 <= i <= |short| && short[..i] == long[..i]
    {
      if short[i] != long[i] {
        NotAPrefix(short, long, i);
        return false;
      }
      assert short[..i + 1] == long[..i + 1];
      i := i + 1;
    }
    assert short == short[..i] && short <= long;
    assert short[0] == long[0];
    if |short| >= 2 {
      return true;
    }
    b := |short[0]| >= 3;
  }

  lemma NotAPrefix(short: seq<string>, long: seq<string>, i: nat)
    requires i < |short| <= |long| && short[i] != long[i]
    ensures !(short <= long) && !(long <= short)
  {
  }

  function Concat(words: seq<string>): string {
    if words == [] then "" else Concat(words[..|words| - 1]) + words[|words| - 1]
  }

  predicate CompactEqual(db: Name, canonical: Name) {
    var a, b := Concat(db.tokens), Concat(canonical.tokens);
    |a| >= 4 && |b| >= 4 && a == b
  }

  predicate OccursAt(s: string, part: string, i: nat) {
    i + |part| <= |s| && s[i..i + |part|] == part
  }

  predicate Includes(s: string, part: string) {
    exists i :: 0 <= i <= |s| && OccursAt(s, part, i)
  }

  predicate Matches(rule: Rule, db: Name, it: Item) {
    match rule
    case EXACT => ExactEqual(db, it.canonical)
    case PREFIX_TOKENS => StartsOther(db.tokens, it.canonical.tokens)
    case COMPACT => CompactEqual(db, it.canonical)
    case ALIAS => it.hint.Some? && Includes(db.folded, it.hint.value)
  }

  /** Equal names of at least two words match under every rule but the alias one. */
  lemma ExactIsStrongest(db: Name, it: Item)
    requires Matches(EXACT, db, it)
    ensures |db.tokens| >= 2 ==> Matches(PREFIX_TOKENS, db, it)
    ensures |Concat(db.tokens)| >= 4 ==> Matches(COMPACT, db, it)
  {
  }

  // ---- the passes

  datatype World = World(users: seq<User>, branchOf: map<string, string>)

  datatype State = State(assignments: map<string, string>, claimed: set<string>, ambiguous: seq<string>)

  const START := State(map[], {}, [])

  predicate BranchFits(w: World, p: Pass, u: User, it: Item) {
    p.requireBranch && it.section in w.branchOf && w.branchOf[it.section] != "" ==>
      u.branchId == Some(w.branchOf[it.section])
  }

  predicate Candidate(w: World, p: Pass, u: User, it: Item) {
    Matches(p.rule, u.fullName, it) && BranchFits(w, p, u, it)
  }

  /** The users that fit and are still free. */
  function Free(w: World, users: seq<User>, claimed: set<string>, p: Pass, it: Item): (r: seq<User>)
    ensures forall u :: u in r <==> u in users && Candidate(w, p, u, it) && u.id !in claimed
  {
    if users == [] then []
    else
      var u := users[|users| - 1];
      assert users == users[..|users| - 1] + [u];
      Free(w, users[..|users| - 1], claimed, p, it) + if Candidate(w, p, u, it) && u.id !in claimed then [u] else []
  }

  function StepItem(s: State, w: World, p: Pass, it: Item): State {
    if it.key in s.assignments then s
    else
      var free := Free(w, w.users, s.claimed, p, it);
      if |free| == 0 then s
      else if |free| > 1 then s.(ambiguous := s.ambiguous + [it.key])
      else s.(claimed := s.claimed + {free[0].id}, assignments := s.assignments[it.key := free[0].id])
  }

  function PassOver(s: State, w: World, p: Pass, items: seq<Item>): State {
    if items == [] then s else StepItem(PassOver(s, w, p, items[..|items| - 1]), w, p, items[|items| - 1])
  }

  function AllPasses(w: World, passes: seq<Pass>, items: seq<Item>): State {
    if passes == [] then START
    else PassOver(AllPasses(w, passes[..|passes| - 1], items), w, passes[|passes| - 1], items)
  }

  /** The matcher with its assignments, claimed users and reported ambiguities. */
  class Matcher {
    var assignments: map<string, string>
    var claimed: set<string>
    var ambiguous: seq<string>

    ghost function Model(): State
      reads this
    {
      State(assignments, claimed, ambiguous)
    }

    constructor ()
      ensures Model() == START
    {
      assignments, claimed, ambiguous := map[], {}, [];
    }

    method RunPass(w: World, p: Pass, items: seq<Item>)
      modifies this
      ensures Model() == PassOver(old(Model()), w, p, items)
    {
      hide Free;
      var i := 0;
      while i < |items|
        invariant 0 <= i <= |items|
        invariant Model() == PassOver(old(Model()), w, p, items[..i])
      {
        var it := items[i];
        assert items[..i + 1][..i] == items[..i];
        if it.key !in assignments {
          var free := Free(w, w.users, claimed, p, it);
          if |free| > 1 {
            ambiguous := ambiguous + [it.key];
          } else if |free| == 1 {
            claimed := claimed + {free[0].id};
            assignments := assignments[it.key := free[0].id];
          }
        }
        i := i + 1;
      }
      assert items[..i] == items;
    }

    method RunSchedule(w: World, items: seq<Item>)
      requires Model() == START
      modifies this
      ensures Model() == AllPasses(w, SCHEDULE, items)
    {
      hide PassOver;
      var i := 0;
      while i < |SCHEDULE|
        invariant 0 <= i <= |SCHEDULE|
        invariant Model() == AllPasses(w, SCHEDULE[..i], items)
      {
        assert SCHEDULE[..i + 1][..i] == SCHEDULE[..i];
        RunPass(w, SCHEDULE[i], items);
        i := i + 1;
      }
      assert SCHEDULE[..i] == SCHEDULE;
    }
  }

  // ---- what every state of the matcher keeps

  /** The assignment has its reason: a line, a user and a pass that fit, with no other free candidate at the time. */
  ghost predicate Reason(s: State, w: World, passes: seq<Pass>, items: seq<Item>, k: string, it: Item, u: User, p: Pass) {
    && it in items && it.key == k && p in passes && u in w.users
    && k in s.assignments && s.assignments[k] == u.id
    && Candidate(w, p, u, it)
    && forall v :: v in w.users && Candidate(w, p, v, it) ==> v.id in s.claimed
  }

  ghost predicate Justified(s: State, w: World, passes: seq<Pass>, items: seq<Item>, k: string) {
    exists it, u, p :: Reason(s, w, passes, items, k, it, u, p)
  }

  ghost predicate Holds(s: State, c: string) {
    exists k :: k in s.assignments && s.assignments[k] == c
  }

  /** Claimed users are the assigned ones, no user is assigned twice, and every assignment is justified. */
  ghost predicate Invariant(s: State, w: World, passes: seq<Pass>, items: seq<Item>) {
    && (forall k :: k in s.assignments ==> s.assignments[k] in s.claimed)
    && (forall c :: c in s.claimed ==> Holds(s, c))
    && (forall j, k :: j in s.assignments && k in s.assignments && j != k ==> s.assignments[j] != s.assignments[k])
    && (forall k :: k in s.assignments ==> Justified(s, w, passes, items, k))
  }

  predicate Extends(t: State, s: State) {
    && s.claimed <= t.claimed
    && forall k :: k in s.assignments ==> k in t.assignments && t.assignments[k] == s.assignments[k]
  }

  lemma JustifiedGrows(s: State, t: State, w: World, passes: seq<Pass>, more: seq<Pass>, items: seq<Item>, k: string)
    requires Extends(t, s) && Justified(s, w, passes, items, k) && forall p :: p in passes ==> p in more
    ensures Justified(t, w, more, items, k)
  {
    hide Candidate;
    var it, u, p :| Reason(s, w, passes, items, k, it, u, p);
    assert Reason(t, w, more, items, k, it, u, p);
  }

  lemma StepKeeps(s: State, w: World, passes: seq<Pass>, items: seq<Item>, p: Pass, it: Item)
    requires Invariant(s, w, passes, items) && it in items && p in passes
    ensures Invariant(StepItem(s, w, p, it), w, passes, items) && Extends(StepItem(s, w, p, it), s)
  {
    hide Candidate, Justified, Holds;
    var t := StepItem(s, w, p, it);
    var free := Free(w, w.users, s.claimed, p, it);
    if it.key !in s.assignments && |free| == 1 {
      var u := free[0];
      assert u in free;
      OnlyOneFree(free, u);
      forall c | c in t.claimed ensures Holds(t, c) {
        if c == u.id { assert HoldsBy(t, c, it.key); } else { HoldsGrows(s, t, c); }
      }
      forall k | k in t.assignments ensures Justified(t, w, passes, items, k) {
        if k == it.key {
          assert Reason(t, w, passes, items, k, it, u, p);
          JustifiedBy(t, w, passes, items, k, it, u, p);
        } else {
          JustifiedGrows(s, t, w, passes, passes, items, k);
        }
      }
    } else {
      assert t.assignments == s.assignments && t.claimed == s.claimed;
      forall c | c in t.claimed ensures Holds(t, c) { HoldsGrows(s, t, c); }
      forall k | k in t.assignments ensures Justified(t, w, passes, items, k) {
        JustifiedGrows(s, t, w, passes, passes, items, k);
      }
    }
  }

  lemma OnlyOneFree(free: seq<User>, u: User)
    requires |free| == 1 && free[0] == u
    ensures forall v :: v in free ==> v == u
  {
  }

  ghost predicate HoldsBy(s: State, c: string, k: string)
    ensures HoldsBy(s, c, k) ==> Holds(s, c)
  {
    k in s.assignments && s.assignments[k] == c
  }

  lemma HoldsGrows(s: State, t: State, c: string)
    requires Extends(t, s) && Holds(s, c)
    ensures Holds(t, c)
  {
    var k :| k in s.assignments && s.assignments[k] == c;
    assert k in t.assignments;
  }

  lemma JustifiedBy(s: State, w: World, passes: seq<Pass>, items: seq<Item>, k: string, it: Item, u: User, p: Pass)
    requires Reason(s, w, passes, items, k, it, u, p)
    ensures Justified(s, w, passes, items, k)
  {
  }

  lemma {:induction false} PassKeeps(s: State, w: World, passes: seq<Pass>, items: seq<Item>, p: Pass, n: nat)
    requires Invariant(s, w, passes, items) && p in passes && n <= |items|
    ensures Invariant(PassOver(s, w, p, items[..n]), w, passes, items) && Extends(PassOver(s, w, p, items[..n]), s)
  {
    hide Invariant, StepItem;
    if n > 0 {
      PassKeeps(s, w, passes, items, p, n - 1);
      assert items[..n][..n - 1] == items[..n - 1];
      StepKeeps(PassOver(s, w, p, items[..n - 1]), w, passes, items, p, items[n - 1]);
    }
  }

  /** More passes to choose from only make justification easier. */
  lemma MorePasses(s: State, w: World, passes: seq<Pass>, p: Pass, items: seq<Item>)
    requires Invariant(s, w, passes, items)
    ensures Invariant(s, w, passes + [p], items)
  {
    hide Justified, Holds;
    forall k | k in s.assignments ensures Justified(s, w, passes + [p], items, k) {
      JustifiedGrows(s, s, w, passes, passes + [p], items, k);
    }
  }

  /**
   * After any passes: the claimed users are exactly the assigned ones, no two keys share a user, and each
   * assignment fits one of the passes, its branch included where that pass asks for it, every other user
   * that fitted being claimed as well.
   */
  lemma {:induction false} PassesKeepInvariant(w: World, passes: seq<Pass>, items: seq<Item>)
    ensures Invariant(AllPasses(w, passes, items), w, passes, items)
  {
    hide Justified, Holds, PassOver;
    if passes != [] {
      var n := |passes| - 1;
      var s := AllPasses(w, passes[..n], items);
      PassesKeepInvariant(w, passes[..n], items);
      assert passes == passes[..n] + [passes[n]];
      MorePasses(s, w, passes[..n], passes[n], items);
      assert items[..|items|] == items;
      PassKeeps(s, w, passes, items, passes[n], |items|);
    }
  }

  /** Assignments only grow from pass to pass. */
  lemma {:induction false} AssignmentsOnlyGrow(w: World, passes: seq<Pass>, items: seq<Item>, n: nat)
    requires n <= |passes|
    ensures Extends(AllPasses(w, passes, items), AllPasses(w, passes[..n], items))
  {
    hide PassOver, Invariant;
    if n < |passes| {
      var m := |passes| - 1;
      AssignmentsOnlyGrow(w, passes[..m], items, n);
      assert passes[..m][..n] == passes[..n];
      var s := AllPasses(w, passes[..m], items);
      PassesKeepInvariant(w, passes[..m], items);
      assert passes == passes[..m] + [passes[m]];
      MorePasses(s, w, passes[..m], passes[m], items);
      assert items[..|items|] == items;
      PassKeeps(s, w, passes, items, passes[m], |items|);
    } else {
      assert passes[..n] == passes;
    }
  }

  /** A key assigned within the first four passes has its user in the branch of its section, when the section has one. */
  lemma EarlyPassesRespectBranch(w: World, items: seq<Item>, k: string) returns (it: Item, u: User)
    requires k in AllPasses(w, SCHEDULE[..4], items).assignments
    ensures k in AllPasses(w, SCHEDULE, items).assignments
    ensures it in items && it.key == k && u in w.users && AllPasses(w, SCHEDULE, items).assignments[k] == u.id
    ensures it.section in w.branchOf && w.branchOf[it.section] != "" ==> u.branchId == Some(w.branchOf[it.section])
  {
    hide AllPasses, Matches, Holds;
    PassesKeepInvariant(w, SCHEDULE[..4], items);
    AssignmentsOnlyGrow(w, SCHEDULE, items, 4);
    var s := AllPasses(w, SCHEDULE[..4], items);
    assert Justified(s, w, SCHEDULE[..4], items, k);
    var x, y, p :| Reason(s, w, SCHEDULE[..4], items, k, x, y, p);
    var i :| 0 <= i < 4 && SCHEDULE[..4][i] == p;
    assert SCHEDULE[i].requireBranch;
    it, u := x, y;
  }

  // ---- the account numbers

  function NormIban(raw: string): string {
    Trim(RemoveSpaces(raw))
  }

  lemma NormIbanTwice(raw: string)
    ensures NormIban(NormIban(raw)) == NormIban(raw)
  {
    var s := RemoveSpaces(raw);
    RemoveSpacesRemoves(raw);
    if s != [] { TrimKeepsEnds(s); }
    assert Trim(s) == s;
    RemoveSpacesTwice(raw);
  }

  /** The stored numbers by user, and how many lines changed one. */
  datatype Written = Written(ibans: map<string, Option<string>>, updated: nat, same: nat)

  function Stored(ibans: map<string, Option<string>>, id: string): string {
    NormIban(if id in ibans && ibans[id].Some? then ibans[id].value else "")
  }

  /** The line names a matched user and a number. */
  predicate Writes(asg: map<string, string>, it: Item) {
    it.key in asg && NormIban(it.iban) != ""
  }

  function WriteOne(r: Written, asg: map<string, string>, it: Item): Written {
    if !Writes(asg, it) then r
    else if Stored(r.ibans, asg[it.key]) == NormIban(it.iban) then r.(same := r.same + 1)
    else r.(ibans := r.ibans[asg[it.key] := Some(NormIban(it.iban))], updated := r.updated + 1)
  }

  function WriteAll(ibans: map<string, Option<string>>, asg: map<string, string>, items: seq<Item>): Written {
    if items == [] then Written(ibans, 0, 0) else WriteOne(WriteAll(ibans, asg, items[..|items| - 1]), asg, items[|items| - 1])
  }

  /** The lines whose number is not the stored one, and those whose number is. */
  function Unstored(ibans: map<string, Option<string>>, asg: map<string, string>, items: seq<Item>): nat {
    if items == [] then 0
    else
      var it := items[|items| - 1];
      Unstored(ibans, asg, items[..|items| - 1]) +
      if Writes(asg, it) && Stored(ibans, asg[it.key]) != NormIban(it.iban) then 1 else 0
  }

  function StoredAlready(ibans: map<string, Option<string>>, asg: map<string, string>, items: seq<Item>): nat {
    if items == [] then 0
    else
      var it := items[|items| - 1];
      StoredAlready(ibans, asg, items[..|items| - 1]) +
      if Writes(asg, it) && Stored(ibans, asg[it.key]) == NormIban(it.iban) then 1 else 0
  }

  /** What the loop has done with the lines so far: counted them, and outside a dry run stored their numbers. */
  ghost predicate WrittenSoFar(
      r: Written, ibans0: map<string, Option<string>>, asg: map<string, string>, items: seq<Item>, dry: bool)
  {
    if dry then r == Written(ibans0, Unstored(ibans0, asg, items), StoredAlready(ibans0, asg, items))
    else r == WriteAll(ibans0, asg, items)
  }

  lemma WriteStep(
      r: Written, ibans0: map<string, Option<string>>, asg: map<string, string>, items: seq<Item>, dry: bool, i: nat)
    requires i < |items| && WrittenSoFar(r, ibans0, asg, items[..i], dry)
    ensures
      var it := items[i];
      var next := WriteOne(r, asg, it);
      WrittenSoFar(if dry then next.(ibans := r.ibans) else next, ibans0, asg, items[..i + 1], dry)
  {
    hide NormIban, Stored, Writes;
    assert items[..i + 1][..i] == items[..i];
  }

  method WriteIbans(ibans0: map<string, Option<string>>, asg: map<string, string>, items: seq<Item>, dry: bool)
    returns (ibans: map<string, Option<string>>, updated: nat, same: nat)
    ensures !dry ==> Written(ibans, updated, same) == WriteAll(ibans0, asg, items)
    ensures dry ==> ibans == ibans0 && updated == Unstored(ibans0, asg, items) && same == StoredAlready(ibans0, asg, items)
    ensures dry ==> (updated == 0 <==> AllStored(ibans0, asg, items))
  {
    hide NormIban, WriteAll, Unstored, StoredAlready, AllStored, WrittenSoFar;
    ibans, updated, same := ibans0, 0, 0;
    WriteStart(ibans0, asg, items, dry);
    var i := 0;
    while i < |items|
      invariant 0 <= i <= |items|
      invariant WrittenSoFar(Written(ibans, updated, same), ibans0, asg, items[..i], dry)
    {
      var it := items[i];
      WriteStep(Written(ibans, updated, same), ibans0, asg, items, dry, i);
      if it.key in asg {
        var id, iban := asg[it.key], NormIban(it.iban);
        if iban != "" {
          var prev := NormIban(if id in ibans && ibans[id].Some? then ibans[id].value else "");
          if prev == iban {
            same := same + 1;
          } else {
            if !dry {
              ibans := ibans[id := Some(iban)];
            }
            updated := updated + 1;
          }
        }
      }
      i := i + 1;
    }
    assert items[..i] == items;
    WriteEnd(Written(ibans, updated, same), ibans0, asg, items, dry);
  }

  lemma WriteStart(ibans0: map<string, Option<string>>, asg: map<string, string>, items: seq<Item>, dry: bool)
    ensures WrittenSoFar(Written(ibans0, 0, 0), ibans0, asg, items[..0], dry)
  {
  }

  lemma WriteEnd(
      r: Written, ibans0: map<string, Option<string>>, asg: map<string, string>, items: seq<Item>, dry: bool)
    requires WrittenSoFar(r, ibans0, asg, items, dry)
    ensures !dry ==> r == WriteAll(ibans0, asg, items)
    ensures dry ==> r == Written(ibans0, Unstored(ibans0, asg, items), StoredAlready(ibans0, asg, items))
    ensures dry ==> (r.updated == 0 <==> AllStored(ibans0, asg, items))
  {
    hide AllStored, Unstored, StoredAlready, WriteAll;
    NothingUnstored(ibans0, asg, items);
  }

  lemma {:induction false} NothingUnstored(ibans: map<string, Option<string>>, asg: map<string, string>, items: seq<Item>)
    ensures Unstored(ibans, asg, items) == 0 <==> AllStored(ibans, asg, items)
  {
    hide NormIban, Stored, AllStored;
    if items == [] {
      assert AllStored(ibans, asg, items) by { NothingStored(ibans, asg); }
    } else {
      var init, it := items[..|items| - 1], items[|items| - 1];
      NothingUnstored(ibans, asg, init);
      assert items == init + [it];
      AllStoredSnoc(ibans, asg, init, it);
    }
  }

  /** Every line that names a number finds it stored already. */
  ghost predicate AllStored(ibans: map<string, Option<string>>, asg: map<string, string>, items: seq<Item>) {
    forall i :: 0 <= i < |items| && Writes(asg, items[i]) ==> Stored(ibans, asg[items[i].key]) == NormIban(items[i].iban)
  }

  lemma AllStoredSnoc(ibans: map<string, Option<string>>, asg: map<string, string>, items: seq<Item>, it: Item)
    ensures AllStored(ibans, asg, items + [it]) <==>
      (AllStored(ibans, asg, items) && (Writes(asg, it) ==> Stored(ibans, asg[it.key]) == NormIban(it.iban)))
  {
    hide NormIban;
    var all := items + [it];
    assert all[|items|] == it;
    if AllStored(ibans, asg, all) {
      forall i | 0 <= i < |items| && Writes(asg, items[i]) ensures Stored(ibans, asg[items[i].key]) == NormIban(items[i].iban) {
        assert all[i] == items[i];
      }
    }
  }

  /** A run updates nothing exactly when all its numbers are stored; then it leaves the store alone. */
  lemma {:induction false} NothingToUpdate(ibans: map<string, Option<string>>, asg: map<string, string>, items: seq<Item>)
    ensures WriteAll(ibans, asg, items).updated == 0 <==> AllStored(ibans, asg, items)
    ensures WriteAll(ibans, asg, items).updated == 0 ==> WriteAll(ibans, asg, items).ibans == ibans
  {
    hide NormIban, Stored, AllStored;
    if items == [] {
      assert AllStored(ibans, asg, items) by { NothingStored(ibans, asg); }
    } else {
      var init, it := items[..|items| - 1], items[|items| - 1];
      NothingToUpdate(ibans, asg, init);
      assert items == init + [it];
      AllStoredSnoc(ibans, asg, init, it);
    }
  }

  lemma NothingStored(ibans: map<string, Option<string>>, asg: map<string, string>)
    ensures AllStored(ibans, asg, [])
  {
  }

  /** The number of a line is its text without white space. */
  lemma NormIbanMeans(raw: string)
    ensures NormIban(raw) == RemoveSpaces(raw)
  {
    var s := RemoveSpaces(raw);
    RemoveSpacesRemoves(raw);
    if s != [] { TrimKeepsEnds(s); }
  }

  /** The line writes its number for the user. */
  predicate WritesFor(asg: map<string, string>, it: Item, user: string) {
    it.key in asg && asg[it.key] == user && RemoveSpaces(it.iban) != ""
  }

  /** Line x is the last one that writes for the user. */
  ghost predicate LastFor(asg: map<string, string>, items: seq<Item>, user: string, x: nat) {
    x < |items| && WritesFor(asg, items[x], user) && forall y :: x < y < |items| ==> !WritesFor(asg, items[y], user)
  }

  /** What is on file for a user. */
  function OnFile(ibans: map<string, Option<string>>, user: string): Option<string> {
    if user in ibans then ibans[user] else None
  }

  /**
   * After a run, a user no line writes for has what was on file; any other user has, but for white space, the
   * number of the last such line, and what is on file is what was there before or such a number without spaces.
   */
  lemma {:induction false} WrittenMeans(ibans: map<string, Option<string>>, asg: map<string, string>, items: seq<Item>, user: string)
    ensures
      var r := WriteAll(ibans, asg, items).ibans;
      && ((forall x :: 0 <= x < |items| ==> !WritesFor(asg, items[x], user)) ==> OnFile(r, user) == OnFile(ibans, user))
      && (forall x: nat :: LastFor(asg, items, user, x) ==> Stored(r, user) == RemoveSpaces(items[x].iban))
      && (OnFile(r, user) != OnFile(ibans, user) ==>
            exists x :: 0 <= x < |items| && WritesFor(asg, items[x], user) && OnFile(r, user) == Some(RemoveSpaces(items[x].iban)))
  {
    hide Stored, NormIban;
    if items != [] {
      var n := |items| - 1;
      var init, it := items[..n], items[n];
      assert forall y :: 0 <= y < n ==> init[y] == items[y];
      WrittenMeans(ibans, asg, init, user);
      NormIbanMeans(it.iban);
      OneWritten(WriteAll(ibans, asg, init), asg, it, user);
      if !WritesFor(asg, it, user) {
        forall x: nat | LastFor(asg, items, user, x) ensures LastFor(asg, init, user, x) {}
      }
    }
  }

  lemma OneWritten(r: Written, asg: map<string, string>, it: Item, user: string)
    ensures
      var t := WriteOne(r, asg, it).ibans;
      if WritesFor(asg, it, user)
      then Stored(t, user) == RemoveSpaces(it.iban) && (OnFile(t, user) == OnFile(r.ibans, user) || OnFile(t, user) == Some(RemoveSpaces(it.iban)))
      else OnFile(t, user) == OnFile(r.ibans, user) && Stored(t, user) == Stored(r.ibans, user)
  {
    hide NormIban;
    NormIbanMeans(it.iban);
    NormIbanTwice(it.iban);
  }

  /** A user no line writes to keeps the stored number. */
  lemma {:induction false} WritesElsewhere(
      ibans: map<string, Option<string>>, asg: map<string, string>, items: seq<Item>, user: string)
    requires forall i :: 0 <= i < |items| && Writes(asg, items[i]) ==> asg[items[i].key] != user
    ensures Stored(WriteAll(ibans, asg, items).ibans, user) == Stored(ibans, user)
  {
    hide NormIban;
    if items != [] { WritesElsewhere(ibans, asg, items[..|items| - 1], user); }
  }

  /** With distinct roster keys the dry run counts what the real run will do. */
  lemma {:induction false} DryRunPredicts(ibans: map<string, Option<string>>, asg: map<string, string>, items: seq<Item>)
    requires OneUserPerKey(asg) && forall i, j :: 0 <= i < j < |items| ==> items[i].key != items[j].key
    ensures WriteAll(ibans, asg, items).updated == Unstored(ibans, asg, items)
    ensures WriteAll(ibans, asg, items).same == StoredAlready(ibans, asg, items)
  {
    hide NormIban, Stored;
    if items != [] {
      var n := |items| - 1;
      DryRunPredicts(ibans, asg, items[..n]);
      if Writes(asg, items[n]) {
        forall i | 0 <= i < n && Writes(asg, items[..n][i]) ensures asg[items[..n][i].key] != asg[items[n].key] {
          assert items[i].key != items[n].key;
        }
        WritesElsewhere(ibans, asg, items[..n], asg[items[n].key]);
      }
    }
  }

  /** Matched lines of one key agree on the number. */
  ghost predicate Agreeing(asg: map<string, string>, items: seq<Item>) {
    forall i, j :: 0 <= i < |items| && 0 <= j < |items| && Writes(asg, items[i]) && Writes(asg, items[j]) && items[i].key == items[j].key ==>
      NormIban(items[i].iban) == NormIban(items[j].iban)
  }

  ghost predicate OneUserPerKey(asg: map<string, string>) {
    forall j, k :: j in asg && k in asg && j != k ==> asg[j] != asg[k]
  }

  lemma {:induction false} WrittenStays(ibans: map<string, Option<string>>, asg: map<string, string>, items: seq<Item>)
    requires OneUserPerKey(asg) && Agreeing(asg, items)
    ensures AllStored(WriteAll(ibans, asg, items).ibans, asg, items)
  {
    hide NormIban;
    if items != [] {
      var n := |items| - 1;
      var init, it := items[..n], items[n];
      assert items == init + [it];
      assert forall i :: 0 <= i < n ==> init[i] == items[i];
      WrittenStays(ibans, asg, init);
      var r, t := WriteAll(ibans, asg, init), WriteAll(ibans, asg, items);
      NormIbanTwice(it.iban);
      forall i | 0 <= i < n && Writes(asg, items[i]) ensures Stored(t.ibans, asg[items[i].key]) == NormIban(items[i].iban) {
        assert Stored(r.ibans, asg[init[i].key]) == NormIban(init[i].iban);
      }
    }
  }

  lemma StoredAgree(ibans: map<string, Option<string>>, asg: map<string, string>, items: seq<Item>)
    requires AllStored(ibans, asg, items)
    ensures Agreeing(asg, items)
  {
    hide NormIban, Stored;
  }

  /** A second run with the same matches updates nothing exactly when the matched lines of each key agree. */
  lemma SecondRunUpdatesNothingIff(w: World, items: seq<Item>, ibans: map<string, Option<string>>)
    ensures
      var asg := AllPasses(w, SCHEDULE, items).assignments;
      WriteAll(WriteAll(ibans, asg, items).ibans, asg, items).updated == 0 <==> Agreeing(asg, items)
  {
    hide AllPasses, WriteAll, Agreeing, AllStored, Justified, Holds;
    PassesKeepInvariant(w, SCHEDULE, items);
    var asg := AllPasses(w, SCHEDULE, items).assignments;
    var once := WriteAll(ibans, asg, items).ibans;
    NothingToUpdate(once, asg, items);
    if Agreeing(asg, items) { WrittenStays(ibans, asg, items); }
    if AllStored(once, asg, items) { StoredAgree(once, asg, items); }
  }

  /** Distinct roster keys are enough. */
  lemma DistinctKeysAgree(asg: map<string, string>, items: seq<Item>)
    requires forall i, j :: 0 <= i < j < |items| ==> items[i].key != items[j].key
    ensures Agreeing(asg, items)
  {
    hide NormIban;
    forall i, j | 0 <= i < |items| && 0 <= j < |items| && items[i].key == items[j].key ensures i == j {}
  }

  /** The whole script, twice: the users and their branches are read again, only the numbers have changed. */
  method RunTwice(w: World, items: seq<Item>, ibans0: map<string, Option<string>>)
    returns (first: nat, second: nat, ibans: map<string, Option<string>>)
    ensures (forall i, j :: 0 <= i < j < |items| ==> items[i].key != items[j].key) ==> second == 0
    ensures second == 0 <==> Agreeing(AllPasses(w, SCHEDULE, items).assignments, items)
  {
    hide AllPasses, WriteAll, Agreeing, AllStored, SCHEDULE;
    var a := new Matcher();
    a.RunSchedule(w, items);
    var same;
    ibans, first, same := WriteIbans(ibans0, a.assignments, items, false);
    var b := new Matcher();
    b.RunSchedule(w, items);
    ibans, second, same := WriteIbans(ibans, b.assignments, items, false);
    SecondRunUpdatesNothingIff(w, items, ibans0);
    if forall i, j :: 0 <= i < j < |items| ==> items[i].key != items[j].key {
      DistinctKeysAgree(a.assignments, items);
    }
  }
}
