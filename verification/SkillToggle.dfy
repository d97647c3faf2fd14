/** What an edit achieves under the evaluator, and everything it leaves alone. */
module SkillToggle {
  import opened SkillRules
  import opened SkillEditor

  /** A rule in the form path relativization yields: normalized already, not empty. */
  predicate Normal(env: Env, rule: string) {
    rule != [] && NormalizeExact(env, rule) == rule && ToPosix(env, rule) == rule
  }

  predicate ItemOk(env: Env, item: Item) { Normal(env, item.ruleRelativeDir) }

  predicate TargetOk(env: Env, target: Target) {
    match target
    case Skill(item) => ItemOk(env, item)
    case Group(groupRule, members) =>
      Normal(env, groupRule) && Normal(env, groupRule + "/**") && forall m <- members :: ItemOk(env, m)
  }

  // ---------------------------------------------------------------- rules of edited lists

  lemma {:induction false} RemoveMembers(env: Env, arr: seq<string>, prefix: char, bodies: set<string>, e: string)
    ensures e in Remove(env, arr, prefix, bodies) <==> e in arr && !Names(env, prefix, bodies, e)
  {
    if arr != [] {
      RemoveMembers(env, arr[1..], prefix, bodies, e);
      assert arr == [arr[0]] + arr[1..];
    }
  }

  lemma AnyAfterEnsure(env: Env, ctx: MatchContext, p: char, arr: seq<string>, entry: string)
    ensures AnyMatches(env, ctx, p, Ensure(arr, entry)) <==> AnyMatches(env, ctx, p, arr) || RuleMatches(env, ctx, p, entry)
  {
    assert forall e :: e in Ensure(arr, entry) <==> e in arr || e == entry;
  }

  /** A rule of the list that removing `prefix` + `bodies` leaves in place. */
  predicate Survives(env: Env, ctx: MatchContext, p: char, prefix: char, bodies: set<string>, e: string) {
    RuleMatches(env, ctx, p, e) && !Names(env, prefix, bodies, e)
  }

  lemma AnyAfterRemove(env: Env, ctx: MatchContext, p: char, arr: seq<string>, prefix: char, bodies: set<string>)
    ensures AnyMatches(env, ctx, p, Remove(env, arr, prefix, bodies)) <==>
            exists e <- arr :: Survives(env, ctx, p, prefix, bodies, e)
    ensures p != prefix ==> (AnyMatches(env, ctx, p, Remove(env, arr, prefix, bodies)) <==> AnyMatches(env, ctx, p, arr))
  {
    forall e ensures e in Remove(env, arr, prefix, bodies) <==> e in arr && !Names(env, prefix, bodies, e) {
      RemoveMembers(env, arr, prefix, bodies, e);
    }
    if AnyMatches(env, ctx, p, Remove(env, arr, prefix, bodies)) {
      var e :| e in Remove(env, arr, prefix, bodies) && RuleMatches(env, ctx, p, e);
      assert Survives(env, ctx, p, prefix, bodies, e);
    }
    if p != prefix && AnyMatches(env, ctx, p, arr) {
      var e :| e in arr && RuleMatches(env, ctx, p, e);
      assert Survives(env, ctx, p, prefix, bodies, e);
    }
  }

  lemma PlusIsNotOther(env: Env, ctx: MatchContext, p: char, body: string)
    requires p != '+'
    ensures !RuleMatches(env, ctx, p, "+" + body)
  {
    assert ("+" + body)[0] == '+';
  }

  lemma {:induction false} AnyAfterForce(env: Env, ctx: MatchContext, p: char, base: seq<string>, members: seq<Item>)
    requires p != '+'
    ensures AnyMatches(env, ctx, p, ForceMembers(env, base, members)) <==> AnyMatches(env, ctx, p, base)
  {
    if members != [] {
      var init, m := members[..|members| - 1], members[|members| - 1];
      AnyAfterForce(env, ctx, p, base, init);
      AnyAfterEnsure(env, ctx, p, ForceMembers(env, base, init), "+" + RuleOf(env, m));
      PlusIsNotOther(env, ctx, p, RuleOf(env, m));
    }
  }

  lemma {:induction false} ForcedIsThere(env: Env, base: seq<string>, members: seq<Item>, m: Item)
    requires m in members && NeedsForce(env, base, m)
    ensures "+" + RuleOf(env, m) in ForceMembers(env, base, members)
  {
    var init, last := members[..|members| - 1], members[|members| - 1];
    assert members == init + [last];
    if m in init { ForcedIsThere(env, base, init, m); }
  }

  // ---------------------------------------------------------------- what one edit achieves

  lemma RuleHitsOwn(env: Env, prefix: char, item: Item)
    requires ItemOk(env, item) && prefix != '!'
    ensures RuleMatches(env, ContextOf(item), prefix, [prefix] + RuleOf(env, item))
  {
    assert ([prefix] + RuleOf(env, item))[1..] == item.ruleRelativeDir;
  }

  /** A disabled skill is disabled, whatever else the list says. */
  lemma DisableSkillDisables(env: Env, current: seq<string>, item: Item)
    requires ItemOk(env, item)
    ensures !IsEnabled(env, ContextOf(item), NextSkills(env, current, Skill(item), false))
  {
    RuleHitsOwn(env, '-', item);
    AnyAfterEnsure(env, ContextOf(item), '-', Posixed(env, current), "-" + RuleOf(env, item));
  }

  /** A `-` entry hits the skill in another spelling than the rule the editor manages. */
  predicate OtherSpelling(env: Env, item: Item, e: string) {
    RuleMatches(env, ContextOf(item), '-', e) && NormalizeExact(env, e[1..]) != item.ruleRelativeDir
  }

  /** An enabled skill is enabled exactly when no `-` entry hits it in another spelling. */
  lemma EnableSkillEnables(env: Env, current: seq<string>, item: Item)
    requires ItemOk(env, item)
    ensures IsEnabled(env, ContextOf(item), NextSkills(env, current, Skill(item), true)) <==>
            !exists e <- Posixed(env, current) :: OtherSpelling(env, item, e)
  {
    var ctx, rule, posixed := ContextOf(item), RuleOf(env, item), Posixed(env, current);
    var cleared := Remove(env, posixed, '-', {rule});
    RuleHitsOwn(env, '+', item);
    PlusIsNotOther(env, ctx, '-', rule);
    PlusIsNotOther(env, ctx, '!', rule);
    AnyAfterEnsure(env, ctx, '-', cleared, "+" + rule);
    AnyAfterEnsure(env, ctx, '+', cleared, "+" + rule);
    AnyAfterRemove(env, ctx, '-', posixed, '-', {rule});
    assert forall e :: Survives(env, ctx, '-', '-', {rule}, e) <==> OtherSpelling(env, item, e);
  }

  /** The exclusion that disabling a group adds. */
  function GroupEntry(env: Env, groupRule: string): string { "!" + (ToPosix(env, groupRule) + "/**") }

  /** A `+` entry hits the member in a spelling that is no managed rule of the group. */
  predicate OtherPlus(env: Env, members: seq<Item>, m: Item, e: string) {
    RuleMatches(env, ContextOf(m), '+', e) && NormalizeExact(env, e[1..]) !in RulesOf(env, members)
  }

  /**
    Whatever the glob matcher makes of the group's directory: a skill is enabled behind disabling a group exactly
    when no `-` hits it, and either a `+` in another spelling survives or no `!`, the group's own included, matches it.
   */
  lemma DisableGroupDecides(env: Env, current: seq<string>, groupRule: string, members: seq<Item>, m: Item)
    ensures IsEnabled(env, ContextOf(m), NextSkills(env, current, Group(groupRule, members), false)) <==>
            && !AnyMatches(env, ContextOf(m), '-', Posixed(env, current))
            && (|| (exists e <- Posixed(env, current) :: OtherPlus(env, members, m, e))
                || !(AnyMatches(env, ContextOf(m), '!', Posixed(env, current))
                     || RuleMatches(env, ContextOf(m), '!', GroupEntry(env, groupRule))))
  {
    var ctx, posixed, rules := ContextOf(m), Posixed(env, current), RulesOf(env, members);
    var dropped := Remove(env, posixed, '+', rules);
    var entry := GroupEntry(env, groupRule);
    assert entry[0] == '!';
    AnyAfterEnsure(env, ctx, '!', dropped, entry);
    AnyAfterEnsure(env, ctx, '+', dropped, entry);
    AnyAfterEnsure(env, ctx, '-', dropped, entry);
    AnyAfterRemove(env, ctx, '+', posixed, '+', rules);
    AnyAfterRemove(env, ctx, '-', posixed, '+', rules);
    AnyAfterRemove(env, ctx, '!', posixed, '+', rules);
    assert forall e :: Survives(env, ctx, '+', '+', rules, e) <==> OtherPlus(env, members, m, e);
  }

  /** A member that the added glob matches is enabled exactly where a `+` in another spelling survives and no `-` hits. */
  lemma DisableGroupDisables(env: Env, current: seq<string>, groupRule: string, members: seq<Item>, m: Item)
    requires TargetOk(env, Group(groupRule, members)) && m in members
    requires env.glob(groupRule + "/**", m.ruleRelativeDir)
    ensures IsEnabled(env, ContextOf(m), NextSkills(env, current, Group(groupRule, members), false)) <==>
            && (exists e <- Posixed(env, current) :: OtherPlus(env, members, m, e))
            && !AnyMatches(env, ContextOf(m), '-', Posixed(env, current))
  {
    assert GroupEntry(env, groupRule)[1..] == groupRule + "/**";
    DisableGroupDecides(env, current, groupRule, members, m);
  }

  /** So a member that the added glob does not match stays enabled where no other rule speaks of it. */
  lemma UnmatchedMemberStaysEnabled(env: Env, groupRule: string, members: seq<Item>, m: Item)
    requires !MatchesPattern(env, ContextOf(m), ToPosix(env, groupRule) + "/**")
    ensures IsEnabled(env, ContextOf(m), NextSkills(env, [], Group(groupRule, members), false))
  {
    assert GroupEntry(env, groupRule)[1..] == ToPosix(env, groupRule) + "/**";
    DisableGroupDecides(env, [], groupRule, members, m);
    assert Posixed(env, []) == [];
  }

  /** A member of an enabled group is enabled exactly when no `-` entry of the list hits it. */
  lemma EnableGroupEnables(env: Env, current: seq<string>, groupRule: string, members: seq<Item>, m: Item)
    requires TargetOk(env, Group(groupRule, members)) && m in members
    ensures IsEnabled(env, ContextOf(m), NextSkills(env, current, Group(groupRule, members), true)) <==>
            !AnyMatches(env, ContextOf(m), '-', Posixed(env, current))
  {
    var ctx, posixed := ContextOf(m), Posixed(env, current);
    var base := Remove(env, posixed, '!', {ToPosix(env, groupRule) + "/**"});
    AnyAfterForce(env, ctx, '-', base, members);
    AnyAfterForce(env, ctx, '!', base, members);
    AnyAfterRemove(env, ctx, '-', posixed, '!', {ToPosix(env, groupRule) + "/**"});
    if NeedsForce(env, base, m) {
      RuleHitsOwn(env, '+', m);
      ForcedIsThere(env, base, members, m);
      assert AnyMatches(env, ctx, '+', ForceMembers(env, base, members));
    }
  }

  // ---------------------------------------------------------------- what one edit changes, entry by entry

  /** An entry of the list that names, under this prefix, one of these rules. */
  predicate Manages(env: Env, current: seq<string>, prefix: char, bodies: set<string>, e: string) {
    e in Posixed(env, current) && Names(env, prefix, bodies, e)
  }

  lemma {:induction false} EnsureMembers(arr: seq<string>, entry: string, e: string)
    ensures e in Ensure(arr, entry) <==> e in arr || e == entry
  {
  }

  /**
    Disabling a skill adds its `-` and takes nothing away. Enabling takes its `-` away, and adds its `+` exactly if
    a `!` of the list matches the skill.
   */
  lemma {:induction false} SkillEditIsMinimal(env: Env, current: seq<string>, item: Item, e: string)
    requires ItemOk(env, item)
    ensures e in NextSkills(env, current, Skill(item), false) <==>
            e in Posixed(env, current) || e == "-" + item.ruleRelativeDir
    ensures e in NextSkills(env, current, Skill(item), true) <==>
            || (e in Posixed(env, current) && !Manages(env, current, '-', {item.ruleRelativeDir}, e))
            || (e == "+" + item.ruleRelativeDir && exists x <- Posixed(env, current) :: RuleMatches(env, ContextOf(item), '!', x))
  {
    var posixed, rule := Posixed(env, current), item.ruleRelativeDir;
    var cleared := Remove(env, posixed, '-', {rule});
    EnsureMembers(posixed, "-" + rule, e);
    EnsureMembers(cleared, "+" + rule, e);
    RemoveMembers(env, posixed, '-', {rule}, e);
    AnyAfterRemove(env, ContextOf(item), '!', posixed, '-', {rule});
  }

  lemma {:induction false} ForcedMembers(env: Env, base: seq<string>, members: seq<Item>, e: string)
    ensures e in ForceMembers(env, base, members) <==>
            e in base || exists m <- members :: NeedsForce(env, base, m) && e == "+" + RuleOf(env, m)
  {
    if members != [] {
      var init, last := members[..|members| - 1], members[|members| - 1];
      assert members == init + [last];
      ForcedMembers(env, base, init, e);
      EnsureMembers(ForceMembers(env, base, init), "+" + RuleOf(env, last), e);
    }
  }

  /** No `-` of the list hits the member, but a `!` other than the group's own still matches it. */
  ghost predicate StillExcluded(env: Env, current: seq<string>, glob: string, m: Item) {
    && (forall x <- Posixed(env, current) :: !RuleMatches(env, ContextOf(m), '-', x))
    && exists x <- Posixed(env, current) :: RuleMatches(env, ContextOf(m), '!', x) && !Names(env, '!', {glob}, x)
  }

  /**
    Disabling a group takes its members' `+` away and adds its `!`. Enabling takes its `!` away, and adds the `+` of
    exactly those members that another `!` still excludes.
   */
  lemma {:induction false} GroupEditIsMinimal(env: Env, current: seq<string>, groupRule: string, members: seq<Item>, e: string)
    requires TargetOk(env, Group(groupRule, members))
    ensures e in NextSkills(env, current, Group(groupRule, members), false) <==>
            || (e in Posixed(env, current) && !Manages(env, current, '+', set m <- members :: m.ruleRelativeDir, e))
            || e == "!" + groupRule + "/**"
    ensures e in NextSkills(env, current, Group(groupRule, members), true) <==>
            || (e in Posixed(env, current) && !Manages(env, current, '!', {groupRule + "/**"}, e))
            || exists m <- members :: e == "+" + m.ruleRelativeDir && StillExcluded(env, current, groupRule + "/**", m)
  {
    var posixed, glob, rules := Posixed(env, current), groupRule + "/**", RulesOf(env, members);
    assert rules == set m <- members :: m.ruleRelativeDir;
    assert "!" + glob == "!" + groupRule + "/**";
    RemoveMembers(env, posixed, '+', rules, e);
    EnsureMembers(Remove(env, posixed, '+', rules), "!" + glob, e);
    var base := Remove(env, posixed, '!', {glob});
    RemoveMembers(env, posixed, '!', {glob}, e);
    ForcedMembers(env, base, members, e);
    forall m | m in members ensures NeedsForce(env, base, m) <==> StillExcluded(env, current, glob, m) {
      NeedsForceMeans(env, current, glob, m);
    }
  }

  lemma {:induction false} NeedsForceMeans(env: Env, current: seq<string>, glob: string, m: Item)
    ensures NeedsForce(env, Remove(env, Posixed(env, current), '!', {glob}), m) <==> StillExcluded(env, current, glob, m)
  {
    var posixed := Posixed(env, current);
    AnyAfterRemove(env, ContextOf(m), '-', posixed, '!', {glob});
    AnyAfterRemove(env, ContextOf(m), '!', posixed, '!', {glob});
    assert forall x :: Survives(env, ContextOf(m), '!', '!', {glob}, x)
                       <==> RuleMatches(env, ContextOf(m), '!', x) && !Names(env, '!', {glob}, x);
  }

  /** The entries that stay keep their order, in front of what an edit adds. */
  lemma {:induction false} EditAppends(env: Env, current: seq<string>, target: Target, enabled: bool)
    ensures var posixed := Posixed(env, current);
            var kept := match target
                        case Skill(item) => if enabled then Remove(env, posixed, '-', {RuleOf(env, item)}) else posixed
                        case Group(rule, members) =>
                          if enabled then Remove(env, posixed, '!', {ToPosix(env, rule) + "/**"})
                          else Remove(env, posixed, '+', RulesOf(env, members));
            kept <= NextSkills(env, current, target, enabled)
  {
    if target.Group? && enabled {
      ForcedBehind(env, Remove(env, Posixed(env, current), '!', {ToPosix(env, target.groupRule) + "/**"}), target.members);
    }
  }

  lemma {:induction false} ForcedBehind(env: Env, base: seq<string>, members: seq<Item>)
    ensures base <= ForceMembers(env, base, members)
  {
    if members != [] { ForcedBehind(env, base, members[..|members| - 1]); }
  }

  /** Removing takes the entries one by one, in order. */
  lemma {:induction false} RemoveKeepsOrder(env: Env, a: seq<string>, b: seq<string>, prefix: char, bodies: set<string>, e: string)
    ensures Remove(env, a + b, prefix, bodies) == Remove(env, a, prefix, bodies) + Remove(env, b, prefix, bodies)
    ensures Remove(env, [e], prefix, bodies)
      == if e != "" && e[0] == prefix && NormalizeExact(env, e[1..]) in bodies then [] else [e]
  {
    assert [e][1..] == [];
    if a == [] {
      assert a + b == b;
    } else {
      assert (a + b)[1..] == a[1..] + b;
      RemoveKeepsOrder(env, a[1..], b, prefix, bodies, e);
    }
  }

  // ---------------------------------------------------------------- what an entry hits

  /** The paths of a skill an entry is compared with: its file and its directory, relative and absolute. */
  function PathsOf(item: Item): set<string> {
    {item.ruleRelativeDir, item.ruleRelativeDir + "/SKILL.md",
     item.ruleBaseDir + "/" + item.ruleRelativeDir, item.ruleBaseDir + "/" + item.ruleRelativeDir + "/SKILL.md"}
  }

  /** A `!` hits by glob on any of them or on a bare name. */
  lemma {:induction false} ExclusionHits(env: Env, item: Item, body: string)
    ensures RuleMatches(env, ContextOf(item), '!', ['!'] + body) <==>
            exists t <- PathsOf(item) + {"SKILL.md", Basename(item.ruleRelativeDir)} :: env.glob(ToPosix(env, body), t)
  {
    assert (['!'] + body)[1..] == body;
  }

  /** A `+` or a `-` hits by equality, on a path only. */
  lemma {:induction false} ForceHits(env: Env, item: Item, prefix: char, body: string)
    requires prefix in {'+', '-'}
    ensures RuleMatches(env, ContextOf(item), prefix, [prefix] + body) <==> Plain(env, body) in PathsOf(item)
  {
    assert ([prefix] + body)[1..] == body;
    PlainIsNormal(env, body);
  }

  lemma {:induction false} PlainIsNormal(env: Env, body: string)
    ensures NormalizeExact(env, body) == Plain(env, body)
  {
    if |body| >= 2 { assert body[..2] == [body[0], body[1]]; }
  }

  /** A leading `./` or `.\\` does not count, once, and separators are slashes. */
  function Plain(env: Env, body: string): string {
    if |body| >= 2 && body[0] == '.' && (body[1] == '/' || body[1] == '\\') then ToPosix(env, body[2..]) else ToPosix(env, body)
  }

  /** The last segment of a path: the longest tail without a slash. */
  lemma {:induction false} BasenameIsTail(p: string)
    ensures '/' !in Basename(p) && |Basename(p)| <= |p| && p[|p| - |Basename(p)|..] == Basename(p)
    ensures |Basename(p)| < |p| ==> p[|p| - |Basename(p)| - 1] == '/'
  {
    if p == [] || p[|p| - 1] == '/' {
    } else {
      var init, last := p[..|p| - 1], p[|p| - 1];
      var r := Basename(init);
      BasenameIsTail(init);
      assert Basename(p) == r + [last];
      assert p[|p| - |r| - 1..] == init[|init| - |r|..] + [last];
    }
  }
}
