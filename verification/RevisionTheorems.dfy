/** What a scan revision and an opaque id say about the scan they were computed from. */
module RevisionTheorems {
  import opened InstallRevision
  import opened StableSort
  import opened Utf8
  import opened Wrappers

  lemma {:induction false} CandidatesConcat(env: Env, a: seq<Skill>, b: seq<Skill>)
    ensures Candidates(env, a + b) == Candidates(env, a) + Candidates(env, b)
  {
    if b == [] {
      assert a + b == a;
    } else {
      assert (a + b)[..|a + b| - 1] == a + b[..|b| - 1];
      CandidatesConcat(env, a, b[..|b| - 1]);
    }
  }

  lemma CandidatesCons(env: Env, skills: seq<Skill>)
    requires skills != []
    ensures Candidates(env, skills) == Candidate(env, skills[0]) + Candidates(env, skills[1..])
  {
    var head := [skills[0]];
    assert skills == head + skills[1..];
    CandidatesConcat(env, head, skills[1..]);
    assert head[..0] == [];
  }

  lemma {:induction false} GroupsConcat(a: seq<string>, b: seq<string>)
    ensures Groups(a + b) == Groups(a) + Groups(b)
  {
    if b == [] {
      assert a + b == a;
    } else {
      assert (a + b)[..|a + b| - 1] == a + b[..|b| - 1];
      GroupsConcat(a, b[..|b| - 1]);
    }
  }

  lemma GroupsCons(memberships: seq<string>)
    requires memberships != []
    ensures Groups(memberships) == ["group", memberships[0]] + Groups(memberships[1..])
  {
    var head := [memberships[0]];
    assert memberships == head + memberships[1..];
    GroupsConcat(head, memberships[1..]);
    assert head[..0] == [];
  }

  lemma {:induction false} GroupsInjective(a: seq<string>, b: seq<string>)
    requires Groups(a) == Groups(b)
    ensures a == b
    decreases |a|
  {
    if a != [] { GroupsCons(a); }
    if b != [] { GroupsCons(b); }
    if a != [] && b != [] {
      var left, right := Groups(a), Groups(b);
      assert left[1] == a[0] && right[1] == b[0];
      assert left[2..] == Groups(a[1..]) && right[2..] == Groups(b[1..]);
      GroupsInjective(a[1..], b[1..]);
      assert a == [a[0]] + a[1..] && b == [b[0]] + b[1..];
    }
  }

  lemma OneCandidate(env: Env, a: Skill, x: seq<string>, b: Skill, y: seq<string>)
    requires CollisionFree(env) && Candidate(env, a) + x == Candidate(env, b) + y
    ensures a == b && x == y
  {
    var left, right := Candidate(env, a) + x, Candidate(env, b) + y;
    assert left[1] == a.canonicalPath && right[1] == b.canonicalPath;
    assert left[2] == env.digest(a.content) && right[2] == env.digest(b.content);
    assert left[3] == a.name && right[3] == b.name;
    assert left[4] == a.description && right[4] == b.description;
    assert left[5..] == x && right[5..] == y;
  }

  lemma ListingCons(env: Env, s: seq<Skill>, m: seq<string>)
    requires s != []
    ensures Listing(env, s, m) == Candidate(env, s[0]) + Listing(env, s[1..], m)
  {
    CandidatesCons(env, s);
  }

  /** What follows the candidates never reads as one more candidate. */
  lemma ListingStart(env: Env, s: seq<Skill>, m: seq<string>)
    ensures s != [] ==> Listing(env, s, m) != [] && Listing(env, s, m)[0] == "candidate"
    ensures s == [] ==> Listing(env, s, m) == Groups(m)
    ensures Groups(m) != [] ==> Groups(m)[0] == "group"
  {
    if m != [] { GroupsCons(m); }
    if s != [] { ListingCons(env, s, m); }
  }

  lemma {:induction false} ListingInjective(env: Env, s: seq<Skill>, m: seq<string>, t: seq<Skill>, n: seq<string>)
    requires CollisionFree(env) && Listing(env, s, m) == Listing(env, t, n)
    ensures s == t && m == n
    decreases |s|
  {
    SameShape(env, s, m, t, n);
    if s == [] {
      ListingStart(env, s, m);
      ListingStart(env, t, n);
      GroupsInjective(m, n);
    } else {
      ListingCons(env, s, m);
      ListingCons(env, t, n);
      OneCandidate(env, s[0], Listing(env, s[1..], m), t[0], Listing(env, t[1..], n));
      ListingInjective(env, s[1..], m, t[1..], n);
      assert s == [s[0]] + s[1..] && t == [t[0]] + t[1..];
    }
  }

  lemma SameShape(env: Env, s: seq<Skill>, m: seq<string>, t: seq<Skill>, n: seq<string>)
    requires Listing(env, s, m) == Listing(env, t, n)
    ensures s == [] <==> t == []
  {
    ListingStart(env, s, m);
    ListingStart(env, t, n);
    assert "candidate" != "group" by { assert |"candidate"| != |"group"|; }
  }

  /** The same result, whatever order the directory walk produced it in. */
  ghost predicate SameScan(a: Scan, b: Scan) {
    && a.source == b.source
    && (a.Missing? <==> b.Missing?)
    && (a.Found? ==>
          multiset(a.skills) == multiset(b.skills) && multiset(a.memberships) == multiset(b.memberships))
  }

  lemma RootsAgree(s: string, x: seq<string>, t: string, y: seq<string>)
    requires ["root", s] + x == ["root", t] + y
    ensures s == t && x == y
  {
    var left, right := ["root", s] + x, ["root", t] + y;
    assert left[1] == s && right[1] == t;
    assert left[2..] == x && right[2..] == y;
  }

  /** The texts of a directory determine its source, its candidates and its memberships, in the order fed. */
  lemma DirectoriesAgree(env: Env, source: string, s: seq<Skill>, m: seq<string>,
                         source': string, t: seq<Skill>, n: seq<string>)
    requires CollisionFree(env) && ["root", source] + Listing(env, s, m) == ["root", source'] + Listing(env, t, n)
    ensures source == source' && s == t && m == n
  {
    RootsAgree(source, Listing(env, s, m), source', Listing(env, t, n));
    ListingInjective(env, s, m, t, n);
  }

  /** They are never those of an unreadable source. */
  lemma NeverMissing(env: Env, source: string, s: seq<Skill>, m: seq<string>, other: string)
    ensures ["root", source] + Listing(env, s, m) != ["root", other, "missing"]
  {
    var texts := ["root", source] + Listing(env, s, m);
    ListingStart(env, s, m);
    assert |texts| > 2 ==> texts[2] == Listing(env, s, m)[0];
  }

  lemma SameSortSameElements<T>(le: (T, T) -> bool, s: seq<T>, t: seq<T>)
    requires Sort(le, s) == Sort(le, t)
    ensures multiset(s) == multiset(t)
  {
    SortPermutes(le, s);
    SortPermutes(le, t);
  }

  /** No two different skills have paths the collation cannot tell apart. */
  ghost predicate NoTies(env: Env, skills: seq<Skill>) {
    forall x, y :: x in skills && y in skills
      && env.collate(x.canonicalPath, y.canonicalPath) && env.collate(y.canonicalPath, x.canonicalPath)
      ==> x == y
  }

  lemma ByPathIsSound(env: Env)
    requires Sound(env)
    ensures TotalPreorder(ByPath(env))
  {
    var le := ByPath(env);
    forall a, b ensures le(a, b) || le(b, a) {
      assert env.collate(a.canonicalPath, b.canonicalPath) || env.collate(b.canonicalPath, a.canonicalPath);
    }
    forall a, b, c | le(a, b) && le(b, c) ensures le(a, c) {
      assert env.collate(a.canonicalPath, b.canonicalPath) && env.collate(b.canonicalPath, c.canonicalPath);
    }
  }

  lemma MembershipOrderNeverMatters(env: Env, m: seq<string>, n: seq<string>)
    requires Sound(env) && multiset(m) == multiset(n)
    ensures Sort(env.unitLe, m) == Sort(env.unitLe, n)
  {
    SortSorts(env.unitLe, m);
    SortSorts(env.unitLe, n);
    SortPermutes(env.unitLe, m);
    SortPermutes(env.unitLe, n);
    SortedIsUnique(env.unitLe, Sort(env.unitLe, m), Sort(env.unitLe, n));
  }

  lemma SkillOrderDoesNotMatter(env: Env, s: seq<Skill>, t: seq<Skill>)
    requires Sound(env) && multiset(s) == multiset(t) && NoTies(env, s)
    ensures Sort(ByPath(env), s) == Sort(ByPath(env), t)
  {
    var le := ByPath(env);
    ByPathIsSound(env);
    SortSorts(le, s);
    SortSorts(le, t);
    SortPermutes(le, s);
    SortPermutes(le, t);
    SameMembers(s, Sort(le, s));
    SortedIsUnique(le, Sort(le, s), Sort(le, t));
  }

  /** With distinguishable paths, the revision changes exactly when the scan does. */
  lemma EqualRevisionsExactlyForEqualScans(env: Env, a: Scan, b: Scan)
    requires Sound(env) && CollisionFree(env) && AllFit(Texts(env, a)) && AllFit(Texts(env, b))
    requires a.Found? ==> NoTies(env, a.skills)
    ensures env.hash(Delimited(Texts(env, a))) == env.hash(Delimited(Texts(env, b))) <==> SameScan(a, b)
  {
    if env.hash(Delimited(Texts(env, a))) == env.hash(Delimited(Texts(env, b))) {
      DelimitedInjective(Texts(env, a), Texts(env, b));
      if a.Found? && b.Found? {
        DirectoriesAgree(env, a.source, Sort(ByPath(env), a.skills), Sort(env.unitLe, a.memberships),
                         b.source, Sort(ByPath(env), b.skills), Sort(env.unitLe, b.memberships));
        SameSortSameElements(ByPath(env), a.skills, b.skills);
        SameSortSameElements(env.unitLe, a.memberships, b.memberships);
      } else {
        if a.Found? { NeverMissing(env, a.source, Sort(ByPath(env), a.skills), Sort(env.unitLe, a.memberships), b.source); }
        if b.Found? { NeverMissing(env, b.source, Sort(ByPath(env), b.skills), Sort(env.unitLe, b.memberships), a.source); }
        assert Texts(env, a)[1] == a.source && Texts(env, b)[1] == b.source;
      }
    }
    if SameScan(a, b) && a.Found? {
      SkillOrderDoesNotMatter(env, a.skills, b.skills);
      MembershipOrderNeverMatters(env, a.memberships, b.memberships);
    }
  }

  ghost predicate OrderIndependent(env: Env, source: string, skills: seq<Skill>, memberships: seq<string>) {
    forall p: seq<Skill> :: multiset(p) == multiset(skills)
      ==> Texts(env, Found(source, p, memberships)) == Texts(env, Found(source, skills, memberships))
  }

  lemma TiesOfTwo(env: Env, x: Skill, y: Skill, rest: seq<Skill>)
    requires Sound(env) && ByPath(env)(x, y) && ByPath(env)(y, x)
    ensures |Ties(ByPath(env), x, [x, y] + rest)| >= 2
    ensures Ties(ByPath(env), x, [x, y] + rest)[0] == x
    ensures |Ties(ByPath(env), x, [y, x] + rest)| >= 2
    ensures Ties(ByPath(env), x, [y, x] + rest)[0] == y
  {
    var le := ByPath(env);
    ByPathIsSound(env);
    assert le(x, x);
    TiesConcat(le, x, [x, y], rest);
    TiesConcat(le, x, [y, x], rest);
    assert [x, y] == [x] + [y] && [y, x] == [y] + [x];
    TiesConcat(le, x, [x], [y]);
    TiesConcat(le, x, [y], [x]);
    TiesOfOne(le, x, x);
    TiesOfOne(le, x, y);
  }

  lemma TakeOut<T>(s: seq<T>, x: T) returns (rest: seq<T>)
    requires x in s
    ensures multiset(s) == multiset{x} + multiset(rest)
  {
    var i :| 0 <= i < |s| && s[i] == x;
    rest := s[..i] + s[i + 1..];
    assert s == s[..i] + ([x] + s[i + 1..]);
  }

  lemma PullToFront<T>(s: seq<T>, x: T, y: T) returns (rest: seq<T>)
    requires x in s && y in s && x != y
    ensures multiset([x, y] + rest) == multiset(s)
  {
    var without := TakeOut(s, x);
    assert y in multiset(s);
    assert y in multiset(without);
    rest := TakeOut(without, y);
  }

  /**
   * The revision does not depend on the order in which the directory walk found the skills exactly
   * when the collation separates them; texts a locale compares as equal break it.
   */
  lemma OrderIndependentExactlyWithoutTies(env: Env, source: string, skills: seq<Skill>, memberships: seq<string>)
    requires Sound(env) && CollisionFree(env)
    ensures OrderIndependent(env, source, skills, memberships) <==> NoTies(env, skills)
  {
    if NoTies(env, skills) {
      forall p: seq<Skill> | multiset(p) == multiset(skills)
        ensures Texts(env, Found(source, p, memberships)) == Texts(env, Found(source, skills, memberships))
      {
        SkillOrderDoesNotMatter(env, skills, p);
      }
    } else {
      var x, y :| x in skills && y in skills && x != y
        && env.collate(x.canonicalPath, y.canonicalPath) && env.collate(y.canonicalPath, x.canonicalPath);
      TwoOrdersDiffer(env, source, skills, memberships, x, y);
    }
  }

  /** A stable sort keeps tied skills in discovery order, so their order shows in the texts. */
  lemma TiedOrderShows(env: Env, source: string, memberships: seq<string>, x: Skill, y: Skill, rest: seq<Skill>)
    requires Sound(env) && CollisionFree(env) && ByPath(env)(x, y) && ByPath(env)(y, x)
    requires Texts(env, Found(source, [x, y] + rest, memberships)) == Texts(env, Found(source, [y, x] + rest, memberships))
    ensures x == y
  {
    var le := ByPath(env);
    var groups := Sort(env.unitLe, memberships);
    DirectoriesAgree(env, source, Sort(le, [x, y] + rest), groups, source, Sort(le, [y, x] + rest), groups);
    TiesOfTwo(env, x, y, rest);
    ByPathIsSound(env);
    SortIsStable(le, x, [x, y] + rest);
    SortIsStable(le, x, [y, x] + rest);
  }

  lemma SameTexts(env: Env, source: string, skills: seq<Skill>, memberships: seq<string>, p: seq<Skill>, q: seq<Skill>)
    requires OrderIndependent(env, source, skills, memberships)
    requires multiset(p) == multiset(skills) && multiset(q) == multiset(skills)
    ensures Texts(env, Found(source, p, memberships)) == Texts(env, Found(source, q, memberships))
  {
    assert Texts(env, Found(source, p, memberships)) == Texts(env, Found(source, skills, memberships));
    assert Texts(env, Found(source, q, memberships)) == Texts(env, Found(source, skills, memberships));
  }

  lemma TwoOrdersDiffer(env: Env, source: string, skills: seq<Skill>, memberships: seq<string>, x: Skill, y: Skill)
    requires Sound(env) && CollisionFree(env) && x in skills && y in skills && x != y
    requires ByPath(env)(x, y) && ByPath(env)(y, x)
    ensures !OrderIndependent(env, source, skills, memberships)
  {
    var rest := PullToFront(skills, x, y);
    assert multiset([y, x] + rest) == multiset([x, y] + rest);
    if OrderIndependent(env, source, skills, memberships) {
      SameTexts(env, source, skills, memberships, [x, y] + rest, [y, x] + rest);
      TiedOrderShows(env, source, memberships, x, y, rest);
    }
  }

  /** The id of a group or a candidate, keyed; `mac` is the keyed digest in base64url. */
  method OpaqueId(mac: (string, Bytes) -> string, key: string, sourceId: string, revision: string,
                  kind: string, path: string)
    returns (id: Option<string>)
    ensures var texts := [sourceId, revision, kind, path];
            id == if AllFit(texts) then Some(mac(key, Delimited(texts))) else None
  {
    var buffer := LengthDelimited([sourceId, revision, kind, path]);
    if buffer.None? { return None; }
    return Some(mac(key, buffer.value));
  }

  /** Under one key, ids coincide only for the same source, revision, kind and path. */
  lemma OpaqueIdsSeparate(mac: (string, Bytes) -> string, key: string,
                          s: string, r: string, k: string, p: string,
                          s': string, r': string, k': string, p': string)
    requires forall x, y :: mac(key, x) == mac(key, y) ==> x == y
    requires AllFit([s, r, k, p]) && AllFit([s', r', k', p'])
    ensures mac(key, Delimited([s, r, k, p])) == mac(key, Delimited([s', r', k', p']))
      <==> (s, r, k, p) == (s', r', k', p')
  {
    var a, b := [s, r, k, p], [s', r', k', p'];
    if mac(key, Delimited(a)) == mac(key, Delimited(b)) {
      DelimitedInjective(a, b);
      assert a[0] == b[0] && a[1] == b[1] && a[2] == b[2] && a[3] == b[3];
    }
  }
}
