/** The `!` / `+` / `-` rules of a settings list: how a skill is judged by them. */
module SkillRules {

  /** The platform separator, and the glob matcher the evaluator is built on. */
  datatype Env = Env(sep: char, glob: (string, string) -> bool)

  predicate ValidEnv(env: Env) { env.sep == '/' || env.sep == '\\' }

  /** Replaces the platform separator by `/`. */
  function ToPosix(env: Env, p: string): (r: string)
    ensures |r| == |p| && forall i :: 0 <= i < |p| ==> r[i] == if p[i] == env.sep then '/' else p[i]
  {
    seq(|p|, i requires 0 <= i < |p| => if p[i] == env.sep then '/' else p[i])
  }

  function NormalizeExact(env: Env, pattern: string): string {
    ToPosix(env, if "./" <= pattern || ".\\" <= pattern then pattern[2..] else pattern)
  }

  datatype MatchContext = MatchContext(
    rel: string, abs: string, name: string, parentRel: string, parentAbs: string, parentName: string)

  predicate MatchesPattern(env: Env, ctx: MatchContext, pattern: string) {
    var p := ToPosix(env, pattern);
    || env.glob(p, ctx.rel) || env.glob(p, ctx.name) || env.glob(p, ctx.abs)
    || env.glob(p, ctx.parentRel) || env.glob(p, ctx.parentName) || env.glob(p, ctx.parentAbs)
  }

  predicate MatchesExact(env: Env, ctx: MatchContext, pattern: string) {
    var n := NormalizeExact(env, pattern);
    n == ctx.rel || n == ctx.abs || n == ctx.parentRel || n == ctx.parentAbs
  }

  /** The bodies of the entries that carry a prefix. */
  function Bodies(prefix: char, skills: seq<string>): seq<string> {
    if skills == [] then []
    else
      var init, e := skills[..|skills| - 1], skills[|skills| - 1];
      Bodies(prefix, init) + if e != [] && e[0] == prefix then [e[1..]] else []
  }

  /** One pass over the list sorts the entries into exclusions, force-includes and force-excludes. */
  method OverridesOf(skills: seq<string>) returns (excl: seq<string>, finc: seq<string>, fexc: seq<string>)
    ensures excl == Bodies('!', skills) && finc == Bodies('+', skills) && fexc == Bodies('-', skills)
  {
    excl, finc, fexc := [], [], [];
    for k := 0 to |skills|
      invariant excl == Bodies('!', skills[..k]) && finc == Bodies('+', skills[..k]) && fexc == Bodies('-', skills[..k])
    {
      var e := skills[k];
      assert skills[..k + 1][..k] == skills[..k];
      if "!" <= e { excl := excl + [e[1..]]; }
      else if "+" <= e { finc := finc + [e[1..]]; }
      else if "-" <= e { fexc := fexc + [e[1..]]; }
    }
    assert skills[..|skills|] == skills;
  }

  /** A body hits by pattern under `!`, exactly under `+` and `-`. */
  predicate Hits(env: Env, ctx: MatchContext, prefix: char, body: string) {
    if prefix == '!' then MatchesPattern(env, ctx, body) else MatchesExact(env, ctx, body)
  }

  predicate RuleMatches(env: Env, ctx: MatchContext, prefix: char, e: string) {
    e != [] && e[0] == prefix && Hits(env, ctx, prefix, e[1..])
  }

  predicate AnyMatches(env: Env, ctx: MatchContext, prefix: char, skills: seq<string>) {
    exists e <- skills :: RuleMatches(env, ctx, prefix, e)
  }

  /** `-` is final, `+` overrides `!`, and without any hit a skill is enabled. */
  predicate IsEnabled(env: Env, ctx: MatchContext, skills: seq<string>) {
    !AnyMatches(env, ctx, '-', skills) && (AnyMatches(env, ctx, '+', skills) || !AnyMatches(env, ctx, '!', skills))
  }

  /** The bodies that hit, with their prefix restored. */
  function Matching(env: Env, ctx: MatchContext, prefix: char, bodies: seq<string>): seq<string> {
    if bodies == [] then []
    else
      var init, body := bodies[..|bodies| - 1], bodies[|bodies| - 1];
      Matching(env, ctx, prefix, init) + if Hits(env, ctx, prefix, body) then [[prefix] + body] else []
  }

  /** The sequential three-layer evaluation, with the list of rules that matched. */
  method IsEnabledByOverrides(env: Env, ctx: MatchContext, skills: seq<string>) returns (enabled: bool, matched: seq<string>)
    ensures enabled == IsEnabled(env, ctx, skills)
    ensures forall m :: m in matched <==>
              m in skills && (RuleMatches(env, ctx, '!', m) || RuleMatches(env, ctx, '+', m) || RuleMatches(env, ctx, '-', m))
  {
    var excl, finc, fexc := OverridesOf(skills);
    enabled := true;
    MatchingAre(env, ctx, '!', skills);
    var hits := Matching(env, ctx, '!', excl);
    if |hits| > 0 { enabled := false; }
    matched := hits;
    MatchingAre(env, ctx, '+', skills);
    hits := Matching(env, ctx, '+', finc);
    if |hits| > 0 { enabled := true; }
    matched := matched + hits;
    MatchingAre(env, ctx, '-', skills);
    hits := Matching(env, ctx, '-', fexc);
    if |hits| > 0 { enabled := false; }
    matched := matched + hits;
  }

  lemma {:induction false} MatchingMembers(env: Env, ctx: MatchContext, prefix: char, bodies: seq<string>, m: string)
    ensures m in Matching(env, ctx, prefix, bodies) <==>
            m != [] && m[0] == prefix && m[1..] in bodies && Hits(env, ctx, prefix, m[1..])
  {
    if bodies != [] {
      var init, body := bodies[..|bodies| - 1], bodies[|bodies| - 1];
      MatchingMembers(env, ctx, prefix, init, m);
      assert bodies == init + [body];
      if m != [] && m[0] == prefix { assert m == [prefix] + m[1..]; }
      assert ([prefix] + body)[1..] == body;
    }
  }

  lemma {:induction false} BodiesMembers(prefix: char, skills: seq<string>, body: string)
    ensures body in Bodies(prefix, skills) <==> [prefix] + body in skills
  {
    if skills != [] {
      var init, e := skills[..|skills| - 1], skills[|skills| - 1];
      BodiesMembers(prefix, init, body);
      assert skills == init + [e];
      if e != [] && e[0] == prefix { assert e == [prefix] + e[1..]; }
      assert ([prefix] + body)[1..] == body;
    }
  }

  lemma MatchingRule(env: Env, ctx: MatchContext, prefix: char, skills: seq<string>, m: string)
    ensures m in Matching(env, ctx, prefix, Bodies(prefix, skills)) <==> m in skills && RuleMatches(env, ctx, prefix, m)
  {
    MatchingMembers(env, ctx, prefix, Bodies(prefix, skills), m);
    if m != [] && m[0] == prefix {
      BodiesMembers(prefix, skills, m[1..]);
      assert m == [prefix] + m[1..];
    }
  }

  lemma MatchingAre(env: Env, ctx: MatchContext, prefix: char, skills: seq<string>)
    ensures var rules := Matching(env, ctx, prefix, Bodies(prefix, skills));
            && (forall m :: m in rules <==> m in skills && RuleMatches(env, ctx, prefix, m))
            && (rules != [] <==> AnyMatches(env, ctx, prefix, skills))
  {
    var rules := Matching(env, ctx, prefix, Bodies(prefix, skills));
    forall m ensures m in rules <==> m in skills && RuleMatches(env, ctx, prefix, m) {
      MatchingRule(env, ctx, prefix, skills, m);
    }
    if rules != [] { assert rules[0] in rules; }
  }
}
