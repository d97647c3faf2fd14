/** Override entries of a package manifest, applied by a filter / add-back / filter pipeline over shared arrays. */
module ManifestOverrides {
  import opened SkillRules

  datatype Skill = Skill(canonicalPath: string, context: MatchContext)

  /** A JavaScript array: the pipeline's result may be the very array it was given. */
  class SkillArray {
    var items: seq<Skill>
    constructor (items: seq<Skill>) ensures this.items == items { this.items := items; }
  }

  ghost predicate Distinct(s: seq<Skill>) {
    forall i, j :: 0 <= i < j < |s| ==> s[i] != s[j]
  }

  predicate HitBy(env: Env, prefix: char, bodies: seq<string>, s: Skill) {
    exists b <- bodies :: Hits(env, s.context, prefix, b)
  }

  function Without(env: Env, prefix: char, bodies: seq<string>, s: seq<Skill>): seq<Skill> {
    if s == [] then []
    else
      var last := s[|s| - 1];
      Without(env, prefix, bodies, s[..|s| - 1]) + if HitBy(env, prefix, bodies, last) then [] else [last]
  }

  /** The skills the first filter took out and a `+` brings back. */
  function AddedBack(env: Env, excl: seq<string>, finc: seq<string>, s: seq<Skill>): seq<Skill> {
    if s == [] then []
    else
      var last := s[|s| - 1];
      AddedBack(env, excl, finc, s[..|s| - 1])
      + if HitBy(env, '!', excl, last) && HitBy(env, '+', finc, last) then [last] else []
  }

  function Applied(env: Env, s: seq<Skill>, entries: seq<string>): seq<Skill> {
    var excl, finc, fexc := Bodies('!', entries), Bodies('+', entries), Bodies('-', entries);
    Without(env, '-', fexc, Without(env, '!', excl, s) + AddedBack(env, excl, finc, s))
  }

  lemma {:induction false} WithoutMembers(env: Env, prefix: char, bodies: seq<string>, s: seq<Skill>)
    ensures forall x :: x in Without(env, prefix, bodies, s) <==> x in s && !HitBy(env, prefix, bodies, x)
    ensures Distinct(s) ==> Distinct(Without(env, prefix, bodies, s))
  {
    if s != [] {
      WithoutMembers(env, prefix, bodies, s[..|s| - 1]);
      assert s == s[..|s| - 1] + [s[|s| - 1]];
    }
  }

  lemma {:induction false} AddedBackMembers(env: Env, excl: seq<string>, finc: seq<string>, s: seq<Skill>)
    ensures forall x :: x in AddedBack(env, excl, finc, s) <==> x in s && HitBy(env, '!', excl, x) && HitBy(env, '+', finc, x)
    ensures Distinct(s) ==> Distinct(AddedBack(env, excl, finc, s))
  {
    if s != [] {
      AddedBackMembers(env, excl, finc, s[..|s| - 1]);
      assert s == s[..|s| - 1] + [s[|s| - 1]];
    }
  }

  lemma HitByEntries(env: Env, prefix: char, entries: seq<string>, s: Skill)
    ensures HitBy(env, prefix, Bodies(prefix, entries), s) <==> AnyMatches(env, s.context, prefix, entries)
  {
    if HitBy(env, prefix, Bodies(prefix, entries), s) {
      var b :| b in Bodies(prefix, entries) && Hits(env, s.context, prefix, b);
      BodiesMembers(prefix, entries, b);
      assert ([prefix] + b)[1..] == b;
    }
    if AnyMatches(env, s.context, prefix, entries) {
      var e :| e in entries && RuleMatches(env, s.context, prefix, e);
      assert e == [prefix] + e[1..];
      BodiesMembers(prefix, entries, e[1..]);
    }
  }

  /** The pipeline keeps exactly the collected skills the evaluator enables, each once. */
  lemma {:induction false} PipelineAgreesWithEvaluator(env: Env, s: seq<Skill>, entries: seq<string>)
    ensures forall x :: x in Applied(env, s, entries) <==> x in s && IsEnabled(env, x.context, entries)
    ensures Distinct(s) ==> Distinct(Applied(env, s, entries))
  {
    var excl, finc, fexc := Bodies('!', entries), Bodies('+', entries), Bodies('-', entries);
    WithoutMembers(env, '!', excl, s);
    AddedBackMembers(env, excl, finc, s);
    WithoutMembers(env, '-', fexc, Without(env, '!', excl, s) + AddedBack(env, excl, finc, s));
    forall x ensures x in Applied(env, s, entries) <==> x in s && IsEnabled(env, x.context, entries) {
      OneAgrees(env, s, entries, x);
    }
  }

  lemma {:induction false} OneAgrees(env: Env, s: seq<Skill>, entries: seq<string>, x: Skill)
    ensures x in Applied(env, s, entries) <==> x in s && IsEnabled(env, x.context, entries)
  {
    var excl, finc, fexc := Bodies('!', entries), Bodies('+', entries), Bodies('-', entries);
    WithoutMembers(env, '!', excl, s);
    AddedBackMembers(env, excl, finc, s);
    WithoutMembers(env, '-', fexc, Without(env, '!', excl, s) + AddedBack(env, excl, finc, s));
    HitByEntries(env, '!', entries, x);
    HitByEntries(env, '+', entries, x);
    HitByEntries(env, '-', entries, x);
  }

  /** A filter pass takes the skills one by one, in order: what it makes of a list it makes of the parts. */
  lemma {:induction false} FilterKeepsOrder(env: Env, prefix: char, bodies: seq<string>, s: seq<Skill>, t: seq<Skill>, x: Skill)
    ensures Without(env, prefix, bodies, s + t) == Without(env, prefix, bodies, s) + Without(env, prefix, bodies, t)
    ensures Without(env, prefix, bodies, [x]) == if exists b <- bodies :: Hits(env, x.context, prefix, b) then [] else [x]
  {
    assert [x][..0] == [];
    if t == [] {
      assert s + t == s;
    } else {
      assert (s + t)[..|s + t| - 1] == s + t[..|t| - 1];
      FilterKeepsOrder(env, prefix, bodies, s, t[..|t| - 1], x);
    }
  }

  /** And so does adding back. */
  lemma {:induction false} AddBackKeepsOrder(env: Env, excl: seq<string>, finc: seq<string>, s: seq<Skill>, t: seq<Skill>, x: Skill)
    ensures AddedBack(env, excl, finc, s + t) == AddedBack(env, excl, finc, s) + AddedBack(env, excl, finc, t)
    ensures AddedBack(env, excl, finc, [x])
      == if (exists b <- excl :: Hits(env, x.context, '!', b)) && (exists b <- finc :: Hits(env, x.context, '+', b)) then [x] else []
  {
    assert [x][..0] == [];
    if t == [] {
      assert s + t == s;
    } else {
      assert (s + t)[..|s + t| - 1] == s + t[..|t| - 1];
      AddBackKeepsOrder(env, excl, finc, s, t[..|t| - 1], x);
    }
  }

  /** The pipeline: first the skills no `!` hit, in order, then those brought back, in order, without what a `-` hits. */
  lemma {:induction false} KeptThenBroughtBack(env: Env, s: seq<Skill>, entries: seq<string>)
    ensures var excl, finc, fexc := Bodies('!', entries), Bodies('+', entries), Bodies('-', entries);
            Applied(env, s, entries)
            == Without(env, '-', fexc, Without(env, '!', excl, s)) + Without(env, '-', fexc, AddedBack(env, excl, finc, s))
  {
    var excl, finc, fexc := Bodies('!', entries), Bodies('+', entries), Bodies('-', entries);
    if s != [] { FilterKeepsOrder(env, '-', fexc, Without(env, '!', excl, s), AddedBack(env, excl, finc, s), s[0]); }
  }

  lemma {:induction false} NothingHit(env: Env, prefix: char, s: seq<Skill>)
    ensures Without(env, prefix, [], s) == s
  {
    if s != [] { NothingHit(env, prefix, s[..|s| - 1]); }
  }

  lemma {:induction false} NothingBack(env: Env, excl: seq<string>, finc: seq<string>, s: seq<Skill>)
    ensures excl == [] || finc == [] ==> AddedBack(env, excl, finc, s) == []
  {
    if s != [] { NothingBack(env, excl, finc, s[..|s| - 1]); }
  }

  method FilterOut(env: Env, prefix: char, bodies: seq<string>, from: SkillArray) returns (to: SkillArray)
    ensures fresh(to) && to.items == Without(env, prefix, bodies, from.items)
  {
    to := new SkillArray([]);
    for k := 0 to |from.items|
      invariant fresh(to) && to.items == Without(env, prefix, bodies, from.items[..k])
    {
      assert from.items[..k + 1][..k] == from.items[..k];
      if !HitBy(env, prefix, bodies, from.items[k]) { to.items := to.items + [from.items[k]]; }
    }
    assert from.items[..|from.items|] == from.items;
  }

  /** At the k-th skill, what is already in the result tells exactly whether the first filter took it out. */
  lemma AddBackStep(env: Env, excl: seq<string>, finc: seq<string>, s: seq<Skill>, k: nat)
    requires Distinct(s) && k < |s|
    ensures s[k] in Without(env, '!', excl, s) + AddedBack(env, excl, finc, s[..k]) <==> !HitBy(env, '!', excl, s[k])
    ensures AddedBack(env, excl, finc, s[..k + 1]) ==
            AddedBack(env, excl, finc, s[..k])
            + if HitBy(env, '!', excl, s[k]) && HitBy(env, '+', finc, s[k]) then [s[k]] else []
  {
    assert s[..k + 1][..k] == s[..k];
    WithoutMembers(env, '!', excl, s);
    AddedBackMembers(env, excl, finc, s[..k]);
  }

  method AddBack(env: Env, excl: seq<string>, finc: seq<string>, collected: SkillArray, result: SkillArray)
    requires Distinct(collected.items) && result.items == Without(env, '!', excl, collected.items)
    requires result == collected ==> excl == []
    modifies result
    ensures collected.items == old(collected.items)
    ensures result.items == old(result.items) + AddedBack(env, excl, finc, old(collected.items))
  {
    ghost var s, kept := collected.items, result.items;
    var k := 0;
    // The live array is walked: its length is read anew each time.
    while k < |collected.items|
      invariant k <= |s| && collected.items == s
      invariant result.items == kept + AddedBack(env, excl, finc, s[..k])
    {
      var x := collected.items[k];
      AddBackStep(env, excl, finc, s, k);
      if !(x in result.items) && HitBy(env, '+', finc, x) {
        assert result != collected;
        result.items := result.items + [x];
      }
      k := k + 1;
    }
    assert s[..|s|] == s;
  }

  /** While no `!` entry exists the result is the input array itself; the add-back loop then pushes nothing onto it. */
  method ApplyManifestOverrides(env: Env, collected: SkillArray, entries: seq<string>) returns (result: SkillArray)
    requires Distinct(collected.items)
    modifies collected
    ensures collected.items == old(collected.items)
    ensures result.items == Applied(env, old(collected.items), entries)
    ensures result == collected || fresh(result)
  {
    var excl, finc, fexc := OverridesOf(entries);
    ghost var s := collected.items;
    result := collected;
    NothingHit(env, '!', s);
    if |excl| > 0 { result := FilterOut(env, '!', excl, result); }
    ghost var kept, back := Without(env, '!', excl, s), AddedBack(env, excl, finc, s);
    assert result.items == kept;
    if |finc| > 0 {
      AddBack(env, excl, finc, collected, result);
    } else {
      NothingBack(env, excl, finc, s);
      assert kept + back == kept;
    }
    assert result.items == kept + back;
    NothingHit(env, '-', kept + back);
    if |fexc| > 0 { result := FilterOut(env, '-', fexc, result); }
  }
}
