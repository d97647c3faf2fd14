/** The minimal edit of a settings list that switches one skill, or one group of skills, on or off. */
module SkillEditor {
  import opened SkillRules

  /** A SKILL.md directory, relative to the base its rules are written against. */
  datatype Item = Item(ruleRelativeDir: string, ruleBaseDir: string)

  datatype Target = Skill(item: Item) | Group(groupRule: string, members: seq<Item>)

  function Basename(p: string): string {
    if p == [] || p[|p| - 1] == '/' then [] else Basename(p[..|p| - 1]) + [p[|p| - 1]]
  }

  function ContextOf(item: Item): MatchContext {
    var dir, base := item.ruleRelativeDir, item.ruleBaseDir;
    MatchContext(dir + "/SKILL.md", base + "/" + dir + "/SKILL.md", "SKILL.md", dir, base + "/" + dir, Basename(dir))
  }

  function Posixed(env: Env, skills: seq<string>): (r: seq<string>)
    ensures |r| == |skills| && forall i :: 0 <= i < |r| ==> r[i] == ToPosix(env, skills[i])
  {
    seq(|skills|, i requires 0 <= i < |skills| => ToPosix(env, skills[i]))
  }

  /** An entry `prefix + body` whose body, normalized, is one of `bodies`. */
  predicate Names(env: Env, prefix: char, bodies: set<string>, e: string) {
    e != [] && e[0] == prefix && NormalizeExact(env, e[1..]) in bodies
  }

  function Remove(env: Env, arr: seq<string>, prefix: char, bodies: set<string>): seq<string> {
    if arr == [] then []
    else (if Names(env, prefix, bodies, arr[0]) then [] else [arr[0]]) + Remove(env, arr[1..], prefix, bodies)
  }

  function Ensure(arr: seq<string>, entry: string): seq<string> {
    if entry in arr then arr else arr + [entry]
  }

  function RuleOf(env: Env, item: Item): string { ToPosix(env, item.ruleRelativeDir) }

  function RulesOf(env: Env, members: seq<Item>): set<string> {
    set m <- members :: RuleOf(env, m)
  }

  /** A member of a group that is being enabled needs a `+`: a broader `!` still hits it and no `-` makes that pointless. */
  predicate NeedsForce(env: Env, base: seq<string>, m: Item) {
    !AnyMatches(env, ContextOf(m), '-', base) && AnyMatches(env, ContextOf(m), '!', base)
  }

  function ForceMembers(env: Env, base: seq<string>, members: seq<Item>): seq<string> {
    if members == [] then base
    else
      var before := ForceMembers(env, base, members[..|members| - 1]);
      var m := members[|members| - 1];
      if NeedsForce(env, base, m) then Ensure(before, "+" + RuleOf(env, m)) else before
  }

  function NextSkills(env: Env, current: seq<string>, target: Target, enabled: bool): seq<string> {
    var next := Posixed(env, current);
    match target
    case Skill(item) =>
      var rule := RuleOf(env, item);
      if !enabled then Ensure(next, "-" + rule)
      else
        var cleared := Remove(env, next, '-', {rule});
        if AnyMatches(env, ContextOf(item), '!', cleared) then Ensure(cleared, "+" + rule) else cleared
    case Group(groupRule, members) =>
      var glob := ToPosix(env, groupRule) + "/**";
      if !enabled then Ensure(Remove(env, next, '+', RulesOf(env, members)), "!" + glob)
      else ForceMembers(env, Remove(env, next, '!', {glob}), members)
  }

  // ---------------------------------------------------------------- the editor, in place

  /** Everything behind `k + 1` is filtered already: keeping or splicing the entry at `k` filters what is behind `k`. */
  lemma {:induction false} RemoveAt(env: Env, arr0: seq<string>, k: nat, prefix: char, bodies: set<string>, arr: seq<string>)
    requires k < |arr0| && arr == arr0[..k + 1] + Remove(env, arr0[k + 1..], prefix, bodies)
    ensures k < |arr| && arr[k] == arr0[k]
    ensures (if Names(env, prefix, bodies, arr0[k]) then arr[..k] + arr[k + 1..] else arr)
      == arr0[..k] + Remove(env, arr0[k..], prefix, bodies)
  {
    assert arr0[k..][1..] == arr0[k + 1..];
    assert arr[k + 1..] == Remove(env, arr0[k + 1..], prefix, bodies);
  }

  /** Removes entries from the back by splicing, as the source does. */
  method FilterInPlace(env: Env, arr0: seq<string>, prefix: char, bodies: set<string>) returns (arr: seq<string>)
    ensures arr == Remove(env, arr0, prefix, bodies)
  {
    arr := arr0;
    var i := |arr|;
    while i > 0
      invariant 0 <= i <= |arr0| && i <= |arr|
      invariant arr == arr0[..i] + Remove(env, arr0[i..], prefix, bodies)
    {
      i := i - 1;
      RemoveAt(env, arr0, i, prefix, bodies, arr);
      if Names(env, prefix, bodies, arr[i]) { arr := arr[..i] + arr[i + 1..]; }
    }
  }

  method EnsureOverridePresent(arr0: seq<string>, prefix: string, body: string) returns (arr: seq<string>)
    ensures arr == Ensure(arr0, prefix + body)
  {
    arr := arr0;
    var entry := prefix + body;
    if !(entry in arr) { arr := arr + [entry]; }
  }

  method ComputeNextSkills(env: Env, current: seq<string>, target: Target, enabled: bool) returns (next: seq<string>)
    ensures next == NextSkills(env, current, target, enabled)
  {
    next := Posixed(env, current);
    match target {
      case Skill(item) =>
        var rule := RuleOf(env, item);
        if !enabled {
          next := EnsureOverridePresent(next, "-", rule);
        } else {
          next := FilterInPlace(env, next, '-', {rule});
          if AnyMatches(env, ContextOf(item), '!', next) { next := EnsureOverridePresent(next, "+", rule); }
        }
      case Group(groupRule, members) =>
        var glob := ToPosix(env, groupRule) + "/**";
        if !enabled {
          next := FilterInPlace(env, next, '+', RulesOf(env, members));
          next := EnsureOverridePresent(next, "!", glob);
        } else {
          next := FilterInPlace(env, next, '!', {glob});
          var base := next;
          for k := 0 to |members|
            invariant next == ForceMembers(env, base, members[..k])
          {
            var m := members[k];
            assert members[..k + 1][..k] == members[..k];
            if AnyMatches(env, ContextOf(m), '-', base) { continue; }
            if AnyMatches(env, ContextOf(m), '!', base) { next := EnsureOverridePresent(next, "+", RuleOf(env, m)); }
          }
          assert members[..|members|] == members;
        }
    }
  }
}
