/** The resolved inventory: one record a path, one skill in use a name, and which rules reach only one skill. */
module PrecedenceTheorems {
  import opened SkillEditor
  import opened SkillFrame
  import opened SkillPrecedence
  import opened SkillRules
  import opened SkillToggle
  import opened StableSort
  import opened Wrappers

  /** The project's skills come before the user's, and within a scope the configured before the discovered ones. */
  lemma ProjectThenLocalFirst(a: Found, b: Found)
    ensures Rank(a) < Rank(b) <==>
            (a.scope == Project && b.scope == User) || (a.scope == b.scope && a.source == Local && b.source == Auto)
  {
  }

  // ---------------------------------------------------------------- one record a path

  /** The first record of a path in a list. */
  function FirstOf(s: seq<Found>, path: string): Option<Found> {
    if s == [] then None
    else
      var first, last := FirstOf(s[..|s| - 1], path), s[|s| - 1];
      if first.None? && last.canonicalPath == path then Some(last) else first
  }

  /** The record of a path with the best rank, the first discovered among equals. */
  function Best(s: seq<Found>, path: string): Option<Found> {
    if s == [] then None
    else Better(Best(s[..|s| - 1], path), s[|s| - 1], path)
  }

  function Better(best: Option<Found>, f: Found, path: string): Option<Found> {
    if f.canonicalPath == path && (best.None? || Rank(f) < Rank(best.value)) then Some(f) else best
  }

  lemma {:induction false} FirstIsMember(s: seq<Found>, path: string)
    ensures FirstOf(s, path).Some? ==> FirstOf(s, path).value in s && FirstOf(s, path).value.canonicalPath == path
    ensures FirstOf(s, path).Some? <==> Seen(s, path)
  {
    if s != [] {
      FirstIsMember(s[..|s| - 1], path);
      assert s == s[..|s| - 1] + [s[|s| - 1]];
      SeenSnoc(s[..|s| - 1], s[|s| - 1], path);
    }
  }

  lemma FirstSnoc(s: seq<Found>, f: Found, path: string)
    ensures FirstOf(s + [f], path)
      == if FirstOf(s, path).None? && f.canonicalPath == path then Some(f) else FirstOf(s, path)
  {
    assert (s + [f])[..|s|] == s;
  }

  /** Inserting puts a record in front of those with a worse rank only. */
  lemma {:induction false} FirstAfterInsert(s: seq<Found>, f: Found, path: string)
    requires Sorted(NotBehind, s)
    ensures FirstOf(Insert(NotBehind, s, f), path) == Better(FirstOf(s, path), f, path)
  {
    if s == [] || NotBehind(s[|s| - 1], f) {
      FirstSnoc(s, f, path);
      FirstIsMember(s, path);
    } else {
      var init, last := s[..|s| - 1], s[|s| - 1];
      FirstAfterInsert(init, f, path);
      FirstSnoc(Insert(NotBehind, init, f), last, path);
      assert s == init + [last];
    }
  }

  lemma {:induction false} FirstAfterSort(s: seq<Found>, path: string)
    ensures FirstOf(Sort(NotBehind, s), path) == Best(s, path)
  {
    if s != [] {
      var init := s[..|s| - 1];
      FirstAfterSort(init, path);
      RankIsPreorder();
      SortSorts(NotBehind, init);
      FirstAfterInsert(Sort(NotBehind, init), s[|s| - 1], path);
    }
  }

  ghost predicate DistinctPaths(s: seq<Found>) {
    forall i, j :: 0 <= i < j < |s| ==> s[i].canonicalPath != s[j].canonicalPath
  }

  lemma {:induction false} DedupedKeepsFirsts(s: seq<Found>, path: string)
    ensures FirstOf(Deduped(s), path) == FirstOf(s, path)
  {
    if s != [] {
      var before, f := Deduped(s[..|s| - 1]), s[|s| - 1];
      DedupedKeepsFirsts(s[..|s| - 1], path);
      FirstSnoc(before, f, path);
      FirstIsMember(before, path);
    }
  }

  lemma {:induction false} DedupedIsDistinct(s: seq<Found>)
    ensures DistinctPaths(Deduped(s))
  {
    if s != [] {
      var before, f := Deduped(s[..|s| - 1]), s[|s| - 1];
      DedupedIsDistinct(s[..|s| - 1]);
      assert forall i :: 0 <= i < |before| ==> before[i] in before;
      assert !Seen(before, f.canonicalPath) ==> forall i :: 0 <= i < |before| ==> before[i].canonicalPath != f.canonicalPath;
    }
  }

  lemma {:induction false} DedupedMembers(s: seq<Found>)
    ensures forall f :: f in Deduped(s) ==> f in s
  {
    if s != [] {
      DedupedMembers(s[..|s| - 1]);
      assert s == s[..|s| - 1] + [s[|s| - 1]];
    }
  }

  lemma {:induction false} DedupedStaysSorted(s: seq<Found>)
    requires Sorted(NotBehind, s)
    ensures Sorted(NotBehind, Deduped(s))
  {
    if s != [] {
      var init, f := s[..|s| - 1], s[|s| - 1];
      var before := Deduped(init);
      DedupedStaysSorted(init);
      DedupedMembers(init);
      forall i | 0 <= i < |before| ensures NotBehind(before[i], f) {
        assert before[i] in init;
        var k :| 0 <= k < |init| && init[k] == before[i];
        assert NotBehind(s[k], s[|s| - 1]);
      }
    }
  }

  /**
   * Every path survives exactly once, with the record that comes first by rank and then by discovery,
   * and the survivors stand in order of rank.
   */
  lemma EachPathSurvivesOnce(found: seq<Found>)
    ensures DistinctPaths(Survivors(found)) && Sorted(NotBehind, Survivors(found))
    ensures forall path :: FirstOf(Survivors(found), path) == Best(found, path)
    ensures forall path :: Seen(Survivors(found), path) <==> Seen(found, path)
  {
    var sorted := Sort(NotBehind, found);
    RankIsPreorder();
    SortSorts(NotBehind, found);
    DedupedStaysSorted(sorted);
    DedupedIsDistinct(sorted);
    forall path
      ensures FirstOf(Survivors(found), path) == Best(found, path)
      ensures Seen(Survivors(found), path) <==> Seen(found, path)
    {
      FirstAfterSort(found, path);
      DedupedKeepsFirsts(sorted, path);
      FirstIsMember(Survivors(found), path);
      FirstIsMember(sorted, path);
      FirstIsMember(found, path);
      SortPermutes(NotBehind, found);
      SameMembers(sorted, found);
    }
  }

  // ---------------------------------------------------------------- one skill in use a name

  /**
   * Of the enabled survivors of a name the first is in use and all later ones are shadowed by it;
   * without an enabled one nobody of that name is in use or shadowed.
   */
  lemma OneInUsePerName(found: seq<Found>, name: string)
    ensures var items := Survivors(found);
            var entries, k := Resolved(found), WinnerIndex(items, name);
            forall j :: 0 <= j < |items| && items[j].name == name ==>
              && (entries[j].status == Enabled <==> j == k)
              && (entries[j].status.Shadowed? <==> items[j].enabled && k < j)
              && (entries[j].status.Shadowed? ==> entries[j].status.winner == items[k].canonicalPath)
  {
    var items := Survivors(found);
    EachPathSurvivesOnce(found);
    EntriesAt(items, |items|);
  }

  // ---------------------------------------------------------------- rules that reach one skill only

  /** One rule of one settings file names both. */
  predicate SameRule(x: Found, y: Found) { x.scope == y.scope && x.item.ruleRelativeDir == y.item.ruleRelativeDir }

  /** Under one root no two skills share a rule directory: a directory holds one SKILL.md. */
  ghost predicate OneSkillPerDirectory(items: seq<Found>) {
    forall x, y :: x in items && y in items && SameRule(x, y) && x.sourceRoot == y.sourceRoot
      ==> x.canonicalPath == y.canonicalPath
  }

  lemma MoreThanOne<T>(s: set<T>, a: T)
    requires a in s
    ensures |s| > 1 <==> exists b :: b in s && b != a
  {
    if |s| > 1 {
      var rest := s - {a};
      assert |rest| == |s| - 1;
      var b :| b in rest;
    } else {
      assert |s - {a}| == 0;
    }
  }

  ghost predicate SharesRule(items: seq<Found>, x: Found) {
    exists y :: y in items && y.canonicalPath != x.canonicalPath && SameRule(y, x)
  }

  lemma {:induction false} SeveralRootsExactlyWhenShared(found: seq<Found>, x: Found)
    requires x in Survivors(found) && OneSkillPerDirectory(Survivors(found))
    ensures Ambiguous(Survivors(found), x) <==> SharesRule(Survivors(found), x)
  {
    var items := Survivors(found);
    var roots := RootsOf(items, KeyOf(x));
    EachPathSurvivesOnce(found);
    assert x.sourceRoot in roots;
    MoreThanOne(roots, x.sourceRoot);
    if Ambiguous(items, x) {
      var root :| root in roots && root != x.sourceRoot;
      var y :| y in items && KeyOf(y) == KeyOf(x) && y.sourceRoot == root;
      if y.canonicalPath == x.canonicalPath { SamePathSameRecord(items, x, y); }
    }
    if SharesRule(items, x) {
      var y :| y in items && y.canonicalPath != x.canonicalPath && SameRule(y, x);
      assert y.sourceRoot in roots;
    }
  }

  /** The resolved inventory of these skills. */
  function Resolved(found: seq<Found>): seq<Entry> { Entries(Survivors(found), |Survivors(found)|) }

  /**
    The inventory has one entry for each survivor, in order, and the entry is marked ambiguous exactly when another
    survivor of its scope has the same rule directory.
   */
  lemma {:induction false} AmbiguousExactlyWhenRuleIsShared(found: seq<Found>)
    requires OneSkillPerDirectory(Survivors(found))
    ensures |Resolved(found)| == |Survivors(found)|
    ensures forall k :: 0 <= k < |Resolved(found)| ==>
              && Resolved(found)[k].found == Survivors(found)[k]
              && (Resolved(found)[k].ambiguous <==> SharesRule(Survivors(found), Survivors(found)[k]))
  {
    var items := Survivors(found);
    EntriesAt(items, |items|);
    forall k | 0 <= k < |items|
      ensures Resolved(found)[k].found == items[k]
      ensures Resolved(found)[k].ambiguous <==> SharesRule(items, items[k])
    {
      SeveralRootsExactlyWhenShared(found, items[k]);
    }
  }

  lemma SamePathSameRecord(items: seq<Found>, x: Found, y: Found)
    requires DistinctPaths(items) && x in items && y in items && x.canonicalPath == y.canonicalPath
    ensures x == y
  {
    var i :| 0 <= i < |items| && items[i] == x;
    var j :| 0 <= j < |items| && items[j] == y;
    assert i < j || j < i || i == j;
  }

  /**
   * Switching a skill whose entry is not marked ambiguous changes the judgement of no other entry of its scope,
   * for every settings list and every glob matcher.
   */
  lemma {:induction false} UnambiguousToggleKeepsOthers(env: Env, current: seq<string>, found: seq<Found>, k: nat, j: nat,
                                                        enabled: bool)
    requires OneSkillPerDirectory(Survivors(found)) && k < |Resolved(found)| && j < |Resolved(found)| && j != k
    requires !Resolved(found)[k].ambiguous && Resolved(found)[k].found.scope == Resolved(found)[j].found.scope
    requires ValidEnv(env) && ItemOk(env, Resolved(found)[k].found.item)
    requires var x, y := Resolved(found)[k].found.item, Resolved(found)[j].found.item;
             "/" <= y.ruleBaseDir && !("/" <= x.ruleRelativeDir)
             && (|x.ruleRelativeDir| < 9 || x.ruleRelativeDir[|x.ruleRelativeDir| - 9..] != "/SKILL.md")
    ensures var x, y := Resolved(found)[k].found.item, Resolved(found)[j].found.item;
            IsEnabled(env, ContextOf(y), NextSkills(env, current, Skill(x), enabled)) == IsEnabled(env, ContextOf(y), current)
  {
    var x, y := Resolved(found)[k].found, Resolved(found)[j].found;
    EachPathSurvivesOnce(found);
    AmbiguousExactlyWhenRuleIsShared(found);
    assert x == Survivors(found)[k] && y == Survivors(found)[j] && x.canonicalPath != y.canonicalPath;
    assert !SharesRule(Survivors(found), x);
    assert !SameRule(y, x);
    DifferentDirectoriesAreApart(x.item, y.item);
    ToggleKeepsOthers(env, current, x.item, enabled, y.item);
  }
}
