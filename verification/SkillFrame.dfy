/** What an edit leaves alone: other skills, unmanaged entries and their order, and the list itself when repeated. */
module SkillFrame {
  import opened SkillRules
  import opened SkillEditor
  import opened SkillToggle

  // ---------------------------------------------------------------- separators do not matter

  lemma PosixTwice(env: Env, p: string)
    requires ValidEnv(env)
    ensures ToPosix(env, ToPosix(env, p)) == ToPosix(env, p)
  {
  }

  lemma NormalizeOfPosix(env: Env, p: string)
    requires ValidEnv(env)
    ensures NormalizeExact(env, ToPosix(env, p)) == NormalizeExact(env, p)
  {
    var q := ToPosix(env, p);
    if env.sep == '/' {
      assert q == p;
    } else {
      assert "./" <= q <==> |p| >= 2 && p[0] == '.' && (p[1] == '/' || p[1] == '\\');
      assert "./" <= p <==> |p| >= 2 && p[0] == '.' && p[1] == '/';
      assert ".\\" <= p <==> |p| >= 2 && p[0] == '.' && p[1] == '\\';
      assert !(".\\" <= q);
    }
  }

  lemma RuleOfPosix(env: Env, ctx: MatchContext, p: char, e: string)
    requires ValidEnv(env) && p in {'!', '+', '-'}
    ensures RuleMatches(env, ctx, p, ToPosix(env, e)) <==> RuleMatches(env, ctx, p, e)
  {
    if e != [] {
      assert ToPosix(env, e)[1..] == ToPosix(env, e[1..]);
      PosixTwice(env, e[1..]);
      NormalizeOfPosix(env, e[1..]);
    }
  }

  /** Judging the list as read or in posix form is the same. */
  lemma PosixedJudgesAlike(env: Env, ctx: MatchContext, skills: seq<string>)
    requires ValidEnv(env)
    ensures forall p | p in {'!', '+', '-'} ::
              AnyMatches(env, ctx, p, Posixed(env, skills)) <==> AnyMatches(env, ctx, p, skills)
    ensures IsEnabled(env, ctx, Posixed(env, skills)) == IsEnabled(env, ctx, skills)
  {
    forall p | p in {'!', '+', '-'}
      ensures AnyMatches(env, ctx, p, Posixed(env, skills)) <==> AnyMatches(env, ctx, p, skills)
    {
      forall e | e in skills ensures RuleMatches(env, ctx, p, ToPosix(env, e)) <==> RuleMatches(env, ctx, p, e) {
        RuleOfPosix(env, ctx, p, e);
      }
      if AnyMatches(env, ctx, p, Posixed(env, skills)) {
        var k :| 0 <= k < |skills| && RuleMatches(env, ctx, p, Posixed(env, skills)[k]);
        assert skills[k] in skills;
      }
      if AnyMatches(env, ctx, p, skills) {
        var k :| 0 <= k < |skills| && RuleMatches(env, ctx, p, skills[k]);
        assert Posixed(env, skills)[k] in Posixed(env, skills);
      }
    }
  }

  // ---------------------------------------------------------------- other skills

  /** The rule of one skill is none of the spellings that name the other. */
  predicate Apart(item: Item, other: Item) {
    var ctx := ContextOf(other);
    item.ruleRelativeDir !in {ctx.rel, ctx.abs, ctx.parentRel, ctx.parentAbs}
  }

  /** Relative skill directories that differ are apart. */
  lemma DifferentDirectoriesAreApart(item: Item, other: Item)
    requires item.ruleRelativeDir != other.ruleRelativeDir
    requires "/" <= other.ruleBaseDir && !("/" <= item.ruleRelativeDir)
    // A SKILL.md is a file, so it is no skill directory.
    requires |item.ruleRelativeDir| < 9 || item.ruleRelativeDir[|item.ruleRelativeDir| - 9..] != "/SKILL.md"
    ensures Apart(item, other)
  {
    var r, ctx := item.ruleRelativeDir, ContextOf(other);
    assert ctx.rel[|ctx.rel| - 9..] == "/SKILL.md";
    assert ctx.abs[0] == '/' && ctx.parentAbs[0] == '/';
  }

  lemma ManagedRuleMisses(env: Env, item: Item, other: Item, p: char, e: string)
    requires ItemOk(env, item) && Apart(item, other) && p != '!'
    requires Names(env, p, {RuleOf(env, item)}, e)
    ensures forall q :: q in {'!', '+', '-'} ==> !RuleMatches(env, ContextOf(other), q, e)
  {
  }

  /** Switching one skill changes the judgement of no other. */
  lemma ToggleKeepsOthers(env: Env, current: seq<string>, item: Item, enabled: bool, other: Item)
    requires ValidEnv(env) && ItemOk(env, item) && Apart(item, other)
    ensures IsEnabled(env, ContextOf(other), NextSkills(env, current, Skill(item), enabled))
            == IsEnabled(env, ContextOf(other), current)
  {
    var ctx, rule, posixed := ContextOf(other), RuleOf(env, item), Posixed(env, current);
    PosixedJudgesAlike(env, ctx, current);
    var cleared := Remove(env, posixed, '-', {rule});
    OwnRule(env, '-', rule);
    OwnRule(env, '+', rule);
    ManagedRuleMisses(env, item, other, '-', "-" + rule);
    ManagedRuleMisses(env, item, other, '+', "+" + rule);
    forall q | q in {'!', '+', '-'}
      ensures AnyMatches(env, ctx, q, cleared) <==> AnyMatches(env, ctx, q, posixed)
      ensures AnyMatches(env, ctx, q, Ensure(posixed, "-" + rule)) <==> AnyMatches(env, ctx, q, posixed)
      ensures AnyMatches(env, ctx, q, Ensure(cleared, "+" + rule)) <==> AnyMatches(env, ctx, q, posixed)
    {
      AnyAfterEnsure(env, ctx, q, posixed, "-" + rule);
      AnyAfterEnsure(env, ctx, q, cleared, "+" + rule);
      ClearedJudgesAlike(env, item, other, posixed, q);
    }
  }

  lemma OwnRule(env: Env, p: char, rule: string)
    requires NormalizeExact(env, rule) == rule
    ensures Names(env, p, {rule}, [p] + rule)
  {
    assert ([p] + rule)[1..] == rule;
  }

  lemma ClearedJudgesAlike(env: Env, item: Item, other: Item, posixed: seq<string>, q: char)
    requires ItemOk(env, item) && Apart(item, other) && q in {'!', '+', '-'}
    ensures AnyMatches(env, ContextOf(other), q, Remove(env, posixed, '-', {RuleOf(env, item)}))
            <==> AnyMatches(env, ContextOf(other), q, posixed)
  {
    var ctx := ContextOf(other);
    AnyAfterRemove(env, ctx, q, posixed, '-', {RuleOf(env, item)});
    forall e | e in posixed && RuleMatches(env, ctx, q, e)
      ensures Survives(env, ctx, q, '-', {RuleOf(env, item)}, e)
    {
      if Names(env, '-', {RuleOf(env, item)}, e) { ManagedRuleMisses(env, item, other, '-', e); }
    }
  }

  // ---------------------------------------------------------------- unmanaged entries

  /** The entries an edit of this target may add or remove. */
  predicate Managed(env: Env, target: Target, e: string) {
    match target
    case Skill(item) => Names(env, '-', {RuleOf(env, item)}, e) || Names(env, '+', {RuleOf(env, item)}, e)
    case Group(groupRule, members) =>
      Names(env, '+', RulesOf(env, members), e) || Names(env, '!', {ToPosix(env, groupRule) + "/**"}, e)
  }

  function Unmanaged(env: Env, target: Target, skills: seq<string>): seq<string> {
    if skills == [] then []
    else (if Managed(env, target, skills[0]) then [] else [skills[0]]) + Unmanaged(env, target, skills[1..])
  }

  lemma {:induction false} UnmanagedSnoc(env: Env, target: Target, skills: seq<string>, e: string)
    requires Managed(env, target, e)
    ensures Unmanaged(env, target, skills + [e]) == Unmanaged(env, target, skills)
  {
    if skills != [] {
      assert (skills + [e])[1..] == skills[1..] + [e];
      UnmanagedSnoc(env, target, skills[1..], e);
    } else {
      assert ([] + [e])[1..] == [];
    }
  }

  lemma UnmanagedEnsure(env: Env, target: Target, skills: seq<string>, e: string)
    requires Managed(env, target, e)
    ensures Unmanaged(env, target, Ensure(skills, e)) == Unmanaged(env, target, skills)
  {
    UnmanagedSnoc(env, target, skills, e);
  }

  lemma {:induction false} UnmanagedRemove(env: Env, target: Target, arr: seq<string>, prefix: char, bodies: set<string>)
    requires forall e :: Names(env, prefix, bodies, e) ==> Managed(env, target, e)
    ensures Unmanaged(env, target, Remove(env, arr, prefix, bodies)) == Unmanaged(env, target, arr)
  {
    if arr != [] {
      UnmanagedRemove(env, target, arr[1..], prefix, bodies);
      var rest := Remove(env, arr[1..], prefix, bodies);
      assert ([arr[0]] + rest)[1..] == rest && [] + rest == rest;
    }
  }

  lemma ForceRuleIsManaged(env: Env, target: Target, m: Item)
    requires target.Group? && m in target.members && ItemOk(env, m)
    ensures Managed(env, target, "+" + RuleOf(env, m))
  {
    assert ("+" + RuleOf(env, m))[1..] == RuleOf(env, m);
    assert RuleOf(env, m) in RulesOf(env, target.members);
  }

  lemma {:induction false} UnmanagedForce(env: Env, target: Target, base: seq<string>, members: seq<Item>)
    requires target.Group? && forall m <- members :: m in target.members && ItemOk(env, m)
    ensures Unmanaged(env, target, ForceMembers(env, base, members)) == Unmanaged(env, target, base)
  {
    if members != [] {
      var init, m := members[..|members| - 1], members[|members| - 1];
      assert members == init + [m];
      UnmanagedForce(env, target, base, init);
      ForceRuleIsManaged(env, target, m);
      UnmanagedEnsure(env, target, ForceMembers(env, base, init), "+" + RuleOf(env, m));
    }
  }

  /** Every entry that is not the target's own keeps its place among the others; plain sources are among them. */
  lemma EditKeepsUnmanaged(env: Env, current: seq<string>, target: Target, enabled: bool)
    requires TargetOk(env, target)
    ensures Unmanaged(env, target, NextSkills(env, current, target, enabled)) == Unmanaged(env, target, Posixed(env, current))
    ensures forall e :: e == [] || e[0] !in {'!', '+', '-'} ==> !Managed(env, target, e)
  {
    var posixed := Posixed(env, current);
    match target
    case Skill(item) =>
      var rule := RuleOf(env, item);
      OwnRule(env, '-', rule);
      OwnRule(env, '+', rule);
      UnmanagedEnsure(env, target, posixed, "-" + rule);
      UnmanagedRemove(env, target, posixed, '-', {rule});
      UnmanagedEnsure(env, target, Remove(env, posixed, '-', {rule}), "+" + rule);
    case Group(groupRule, members) =>
      var glob := ToPosix(env, groupRule) + "/**";
      OwnRule(env, '!', glob);
      UnmanagedRemove(env, target, posixed, '+', RulesOf(env, members));
      UnmanagedEnsure(env, target, Remove(env, posixed, '+', RulesOf(env, members)), "!" + glob);
      UnmanagedRemove(env, target, posixed, '!', {glob});
      UnmanagedForce(env, target, Remove(env, posixed, '!', {glob}), members);
  }

  // ---------------------------------------------------------------- repeating an edit

  ghost predicate IsPosix(env: Env, skills: seq<string>) { forall e <- skills :: ToPosix(env, e) == e }

  lemma PosixedIsPosix(env: Env, skills: seq<string>)
    requires ValidEnv(env)
    ensures IsPosix(env, Posixed(env, skills))
    ensures IsPosix(env, skills) ==> Posixed(env, skills) == skills
  {
  }

  lemma {:induction false} NothingToRemove(env: Env, arr: seq<string>, prefix: char, bodies: set<string>)
    requires forall e <- arr :: !Names(env, prefix, bodies, e)
    ensures Remove(env, arr, prefix, bodies) == arr
  {
    if arr != [] {
      assert forall e <- arr[1..] :: e in arr;
      NothingToRemove(env, arr[1..], prefix, bodies);
    }
  }

  lemma {:induction false} NothingToForce(env: Env, base: seq<string>, members: seq<Item>)
    requires forall m <- members :: NeedsForce(env, base, m) ==> "+" + RuleOf(env, m) in base
    ensures ForceMembers(env, base, members) == base
  {
    if members != [] {
      var init, m := members[..|members| - 1], members[|members| - 1];
      assert members == init + [m];
      NothingToForce(env, base, init);
    }
  }

  lemma RemovedStaysRemoved(env: Env, arr: seq<string>, prefix: char, bodies: set<string>)
    ensures forall e <- Remove(env, arr, prefix, bodies) :: e in arr && !Names(env, prefix, bodies, e)
  {
    forall e | e in Remove(env, arr, prefix, bodies) ensures e in arr && !Names(env, prefix, bodies, e) {
      RemoveMembers(env, arr, prefix, bodies, e);
    }
  }

  lemma {:induction false} ForceAddsOnlyPlus(env: Env, base: seq<string>, members: seq<Item>)
    ensures forall e <- ForceMembers(env, base, members) :: e in base || exists m <- members :: e == "+" + RuleOf(env, m)
  {
    if members != [] {
      var init, m := members[..|members| - 1], members[|members| - 1];
      assert members == init + [m];
      ForceAddsOnlyPlus(env, base, init);
    }
  }

  /** The edit leaves nothing for a second, equal edit to do. */
  lemma EditIsIdempotent(env: Env, current: seq<string>, target: Target, enabled: bool)
    requires ValidEnv(env) && TargetOk(env, target)
    ensures var next := NextSkills(env, current, target, enabled);
            NextSkills(env, next, target, enabled) == next
  {
    var posixed := Posixed(env, current);
    var next := NextSkills(env, current, target, enabled);
    PosixedIsPosix(env, current);
    PosixedIsPosix(env, posixed);
    match target
    case Skill(item) => SkillEditIsIdempotent(env, posixed, item, enabled, next);
    case Group(groupRule, members) =>
      if enabled { EnableGroupIsIdempotent(env, posixed, groupRule, members, next); }
      else { DisableGroupIsIdempotent(env, posixed, groupRule, members, next); }
  }

  lemma SkillEditIsIdempotent(env: Env, posixed: seq<string>, item: Item, enabled: bool, next: seq<string>)
    requires ValidEnv(env) && ItemOk(env, item) && IsPosix(env, posixed)
    requires next == NextSkills(env, posixed, Skill(item), enabled) && Posixed(env, posixed) == posixed
    ensures NextSkills(env, next, Skill(item), enabled) == next
  {
    var rule := RuleOf(env, item);
    PosixPrefixed(env, '-', rule);
    PosixPrefixed(env, '+', rule);
    RemovedStaysRemoved(env, posixed, '-', {rule});
    PosixedIsPosix(env, next);
    if enabled {
      var cleared := Remove(env, posixed, '-', {rule});
      assert forall e <- next :: e in cleared || e == "+" + rule;
      NothingToRemove(env, next, '-', {rule});
      AnyAfterEnsure(env, ContextOf(item), '!', cleared, "+" + rule);
      PlusIsNotOther(env, ContextOf(item), '!', rule);
    }
  }

  lemma PosixPrefixed(env: Env, p: char, rule: string)
    requires ToPosix(env, rule) == rule && p != env.sep
    ensures ToPosix(env, [p] + rule) == [p] + rule
  {
    var e := [p] + rule;
    forall i | 0 <= i < |e| ensures ToPosix(env, e)[i] == e[i] {
      if i > 0 { assert e[i] == rule[i - 1] && ToPosix(env, rule)[i - 1] == rule[i - 1]; }
    }
  }

  lemma DisableGroupIsIdempotent(env: Env, posixed: seq<string>, groupRule: string, members: seq<Item>, next: seq<string>)
    requires ValidEnv(env) && TargetOk(env, Group(groupRule, members))
    requires IsPosix(env, posixed) && Posixed(env, posixed) == posixed
    requires next == NextSkills(env, posixed, Group(groupRule, members), false)
    ensures NextSkills(env, next, Group(groupRule, members), false) == next
  {
    var glob := ToPosix(env, groupRule) + "/**";
    PosixPrefixed(env, '!', glob);
    RemovedStaysRemoved(env, posixed, '+', RulesOf(env, members));
    assert ("!" + glob)[0] == '!';
    PosixedIsPosix(env, next);
    NothingToRemove(env, next, '+', RulesOf(env, members));
  }

  lemma EnableGroupIsIdempotent(env: Env, posixed: seq<string>, groupRule: string, members: seq<Item>, next: seq<string>)
    requires ValidEnv(env) && TargetOk(env, Group(groupRule, members))
    requires IsPosix(env, posixed) && Posixed(env, posixed) == posixed
    requires next == NextSkills(env, posixed, Group(groupRule, members), true)
    ensures NextSkills(env, next, Group(groupRule, members), true) == next
  {
    var glob := ToPosix(env, groupRule) + "/**";
    var base := Remove(env, posixed, '!', {glob});
    RemovedStaysRemoved(env, posixed, '!', {glob});
    ForceAddsOnlyPlus(env, base, members);
    forall e | e in next ensures ToPosix(env, e) == e && !Names(env, '!', {glob}, e) {
      if e !in base {
        var m :| m in members && e == "+" + RuleOf(env, m);
        PosixPrefixed(env, '+', RuleOf(env, m));
        assert e[0] == '+';
      }
    }
    PosixedIsPosix(env, next);
    NothingToRemove(env, next, '!', {glob});
    forall m | m in members && NeedsForce(env, next, m) ensures "+" + RuleOf(env, m) in next {
      AnyAfterForce(env, ContextOf(m), '-', base, members);
      AnyAfterForce(env, ContextOf(m), '!', base, members);
      ForcedIsThere(env, base, members, m);
    }
    NothingToForce(env, next, members);
  }
}
