/** Every skill stands in the tree once, under exactly the groups its path names, and group states count right. */
module TreeTheorems {
  import opened SkillTree
  import opened StableSort

  /** A skill and the names of the groups it stands under, from the root down. */
  datatype Place = Place(above: seq<string>, skill: Skill)

  /** Where every skill stands. */
  function PlacesOf(node: Node, above: seq<string>): multiset<Place>
    decreases node
  {
    match node
    case Leaf(skill) => multiset{Place(above, skill)}
    case Group(name, _, _, children) => Places(children, above + [name])
  }

  function Places(children: seq<Node>, above: seq<string>): multiset<Place>
    decreases children
  {
    if children == [] then multiset{} else PlacesOf(children[0], above) + Places(children[1..], above)
  }

  /** Where a skill belongs: under one group for every segment but the last. */
  function PlaceBelow(above: seq<string>, rest: seq<string>, skill: Skill): Place {
    Place(if |rest| <= 1 then above else above + rest[..|rest| - 1], skill)
  }

  function Proper(skill: Skill): Place { PlaceBelow([], skill.segments, skill) }

  function ProperPlaces(skills: seq<Skill>): multiset<Place> {
    if skills == [] then multiset{}
    else ProperPlaces(skills[..|skills| - 1]) + multiset{Proper(skills[|skills| - 1])}
  }

  // ---------------------------------------------------------------- insertion

  lemma {:induction false} PlacesConcat(a: seq<Node>, b: seq<Node>, above: seq<string>)
    ensures Places(a + b, above) == Places(a, above) + Places(b, above)
  {
    if a == [] {
      assert a + b == b;
    } else {
      assert (a + b)[1..] == a[1..] + b;
      PlacesConcat(a[1..], b, above);
    }
  }

  lemma {:induction false} PlacesOfOne(node: Node, above: seq<string>)
    ensures Places([node], above) == PlacesOf(node, above)
  {
    assert [node][1..] == [];
    assert Places([], above) == multiset{};
  }

  lemma {:induction false} PlacesAmid(a: seq<Node>, node: Node, b: seq<Node>, above: seq<string>)
    ensures Places(a + ([node] + b), above) == Places(a, above) + PlacesOf(node, above) + Places(b, above)
  {
    PlacesConcat(a, [node] + b, above);
    PlacesConcat([node], b, above);
    PlacesOfOne(node, above);
  }

  lemma {:induction false} PlacesAround(children: seq<Node>, k: nat, node: Node, above: seq<string>)
    requires k < |children|
    ensures Places(children[k := node], above)
      == Places(children[..k], above) + PlacesOf(node, above) + Places(children[k + 1..], above)
  {
    PlacesAmid(children[..k], node, children[k + 1..], above);
    assert children[k := node] == children[..k] + ([node] + children[k + 1..]);
  }

  lemma {:induction false} ReplacingAdds(children: seq<Node>, k: nat, node: Node, above: seq<string>, place: Place)
    requires k < |children| && PlacesOf(node, above) == PlacesOf(children[k], above) + multiset{place}
    ensures Places(children[k := node], above) == Places(children, above) + multiset{place}
  {
    PlacesAround(children, k, node, above);
    PlacesAround(children, k, children[k], above);
    assert children[k := children[k]] == children;
  }

  lemma {:induction false} AppendingAdds(children: seq<Node>, node: Node, above: seq<string>, place: Place)
    requires PlacesOf(node, above) == multiset{place}
    ensures Places(children + [node], above) == Places(children, above) + multiset{place}
  {
    PlacesConcat(children, [node], above);
    PlacesOfOne(node, above);
  }

  lemma {:induction false} IntoGroup(children: seq<Node>, k: nat, inner: seq<Node>, above: seq<string>, place: Place)
    requires k < |children| && children[k].Group?
    requires var here := above + [children[k].name];
             Places(inner, here) == Places(children[k].children, here) + multiset{place}
    ensures Places(children[k := children[k].(children := inner)], above) == Places(children, above) + multiset{place}
  {
    ReplacingAdds(children, k, children[k].(children := inner), above, place);
  }

  lemma {:induction false} IntoNewGroup(children: seq<Node>, group: Node, above: seq<string>, place: Place)
    requires group.Group? && Places(group.children, above + [group.name]) == multiset{place}
    ensures Places(children + [group], above) == Places(children, above) + multiset{place}
  {
    AppendingAdds(children, group, above, place);
  }

  lemma {:induction false} DeeperPlace(rest: seq<string>, above: seq<string>, skill: Skill)
    requires |rest| > 1
    ensures PlaceBelow(above + [rest[0]], rest[1..], skill) == PlaceBelow(above, rest, skill)
  {
    var below := rest[1..];
    assert |below| > 1 ==> above + [rest[0]] + below[..|below| - 1] == above + rest[..|rest| - 1];
  }

  /** Inserting adds the skill at its place and moves nothing else. */
  lemma {:induction false} InsertionAddsOne(children: seq<Node>, skill: Skill, rest: seq<string>, above: seq<string>)
    ensures Places(Insertion(children, skill, rest, above), above)
      == Places(children, above) + multiset{PlaceBelow(above, rest, skill)}
    decreases |rest|, 0
  {
    if |rest| <= 1 {
      AppendingAdds(children, Leaf(skill), above, Place(above, skill));
    } else {
      InsertionBelowAddsOne(children, skill, rest, rest[1..], above, above + [rest[0]], PlaceBelow(above, rest, skill));
    }
  }

  lemma {:induction false} InsertionBelowAddsOne(children: seq<Node>, skill: Skill, rest: seq<string>, below: seq<string>,
                                                 above: seq<string>, here: seq<string>, place: Place)
    requires |rest| > 1 && below == rest[1..] && here == above + [rest[0]] && place == PlaceBelow(above, rest, skill)
    ensures Places(Insertion(children, skill, rest, above), above) == Places(children, above) + multiset{place}
    decreases |below|, 1
  {
    var k := GroupIndex(children, rest[0]);
    DeeperPlace(rest, above, skill);
    if k < |children| {
      InsertionAddsOne(children[k].children, skill, below, here);
      IntoGroup(children, k, Insertion(children[k].children, skill, below, here), above, place);
    } else {
      InsertionAddsOne([], skill, below, here);
      IntoNewGroup(children, Group(rest[0], here, AllOff, Insertion([], skill, below, here)), above, place);
    }
  }

  lemma {:induction false} InsertedPlaces(skills: seq<Skill>)
    ensures Places(Inserted(skills), []) == ProperPlaces(skills)
  {
    if skills != [] {
      var skill := skills[|skills| - 1];
      InsertedPlaces(skills[..|skills| - 1]);
      InsertionAddsOne(Inserted(skills[..|skills| - 1]), skill, skill.segments, []);
    }
  }

  // ---------------------------------------------------------------- annotating and sorting

  lemma {:induction false} AnnotateKeepsPlaces(children: seq<Node>, above: seq<string>)
    ensures Places(Annotate(children), above) == Places(children, above)
    decreases children
  {
    if children != [] {
      match children[0] {
        case Leaf(_) =>
        case Group(name, _, _, inner) => AnnotateKeepsPlaces(inner, above + [name]);
      }
      AnnotateKeepsPlaces(children[1..], above);
    }
  }

  lemma {:induction false} PlacesWithout(b: seq<Node>, i: nat, above: seq<string>)
    requires i < |b|
    ensures Places(b, above) == PlacesOf(b[i], above) + Places(b[..i] + b[i + 1..], above)
  {
    PlacesAmid(b[..i], b[i], b[i + 1..], above);
    PlacesConcat(b[..i], b[i + 1..], above);
    assert b == b[..i] + ([b[i]] + b[i + 1..]);
  }

  lemma {:induction false} PlacesOfPermutation(a: seq<Node>, b: seq<Node>, above: seq<string>)
    requires multiset(a) == multiset(b)
    ensures Places(a, above) == Places(b, above)
  {
    SameMembers(a, b);
    if a != [] {
      assert a[0] in b;
      var i :| 0 <= i < |b| && b[i] == a[0];
      WithoutFirst(a, b, i);
      PlacesOfPermutation(a[1..], b[..i] + b[i + 1..], above);
      PlacesWithout(b, i, above);
    }
  }

  lemma {:induction false} WithoutFirst<T>(a: seq<T>, b: seq<T>, i: nat)
    requires a != [] && i < |b| && b[i] == a[0] && multiset(a) == multiset(b)
    ensures multiset(a[1..]) == multiset(b[..i] + b[i + 1..])
  {
    assert a == [a[0]] + a[1..];
    assert b == b[..i] + ([b[i]] + b[i + 1..]);
    assert multiset(a[1..]) == multiset(a) - multiset{a[0]};
  }

  lemma {:induction false} SortKeepsPlaces(collate: (string, string) -> bool, children: seq<Node>, above: seq<string>)
    ensures Places(SortTree(collate, children), above) == Places(children, above)
    decreases children, 1
  {
    var each := SortEach(collate, children);
    SortPermutes(NodeOrder(collate), each);
    PlacesOfPermutation(SortTree(collate, children), each, above);
    SortEachKeepsPlaces(collate, children, above);
  }

  lemma {:induction false} SortEachKeepsPlaces(collate: (string, string) -> bool, children: seq<Node>, above: seq<string>)
    ensures Places(SortEach(collate, children), above) == Places(children, above)
    decreases children, 0
  {
    if children != [] {
      match children[0] {
        case Leaf(_) =>
        case Group(name, _, _, inner) => SortKeepsPlaces(collate, inner, above + [name]);
      }
      SortEachKeepsPlaces(collate, children[1..], above);
    }
  }

  /**
   * The finished tree holds every skill exactly as often as the list does, each under precisely the
   * groups that the proper prefixes of its path name; so the order of the list does not matter for that.
   */
  lemma EverySkillStandsAtItsPlace(collate: (string, string) -> bool, skills: seq<Skill>)
    ensures Places(SortTree(collate, Annotate(Inserted(skills))), []) == ProperPlaces(skills)
  {
    InsertedPlaces(skills);
    AnnotateKeepsPlaces(Inserted(skills), []);
    SortKeepsPlaces(collate, Annotate(Inserted(skills)), []);
  }

  // ---------------------------------------------------------------- the groups

  ghost predicate SiblingsDiffer(children: seq<Node>) {
    forall i, j :: 0 <= i < j < |children| && children[i].Group? && children[j].Group?
      ==> children[i].name != children[j].name
  }

  /** Sibling groups have different names, every group knows its path, and none is empty, all the way down. */
  ghost predicate Tidy(children: seq<Node>, above: seq<string>)
    decreases children
  {
    SiblingsDiffer(children) && forall i :: 0 <= i < |children| ==> TidyNode(children[i], above)
  }

  ghost predicate TidyNode(node: Node, above: seq<string>)
    decreases node
  {
    node.Group? ==> node.path == above + [node.name] && node.children != [] && Tidy(node.children, node.path)
  }

  lemma {:induction false} InsertionStaysTidy(children: seq<Node>, skill: Skill, rest: seq<string>, above: seq<string>)
    requires Tidy(children, above)
    ensures Insertion(children, skill, rest, above) != [] && Tidy(Insertion(children, skill, rest, above), above)
    decreases |rest|
  {
    if |rest| > 1 {
      var k, here := GroupIndex(children, rest[0]), above + [rest[0]];
      if k < |children| {
        assert TidyNode(children[k], above);
        InsertionStaysTidy(children[k].children, skill, rest[1..], here);
      } else {
        InsertionStaysTidy([], skill, rest[1..], here);
      }
    }
  }

  lemma {:induction false} InsertedIsTidy(skills: seq<Skill>)
    ensures Tidy(Inserted(skills), [])
  {
    if skills != [] {
      InsertedIsTidy(skills[..|skills| - 1]);
      InsertionStaysTidy(Inserted(skills[..|skills| - 1]), skills[|skills| - 1], skills[|skills| - 1].segments, []);
    }
  }

  lemma {:induction false} AnnotateIsPointwise(children: seq<Node>)
    ensures |Annotate(children)| == |children|
    ensures forall i :: 0 <= i < |children| ==> Annotate(children)[i] == AnnotateNode(children[i])
  {
    if children != [] { AnnotateIsPointwise(children[1..]); }
  }

  lemma {:induction false} AnnotateStaysTidy(children: seq<Node>, above: seq<string>)
    requires Tidy(children, above)
    ensures Tidy(Annotate(children), above)
    decreases children
  {
    var annotated := Annotate(children);
    AnnotateIsPointwise(children);
    forall i | 0 <= i < |annotated| ensures TidyNode(annotated[i], above) {
      assert TidyNode(children[i], above);
      if children[i].Group? {
        AnnotateIsPointwise(children[i].children);
        AnnotateStaysTidy(children[i].children, children[i].path);
      }
    }
  }

  lemma {:induction false} SortEachIsPointwise(collate: (string, string) -> bool, children: seq<Node>)
    ensures |SortEach(collate, children)| == |children|
    ensures forall i :: 0 <= i < |children| ==> SortEach(collate, children)[i] == SortNode(collate, children[i])
  {
    if children != [] { SortEachIsPointwise(collate, children[1..]); }
  }

  lemma {:induction false} PermutedSiblingsDiffer(a: seq<Node>, b: seq<Node>)
    requires SiblingsDiffer(a) && multiset(a) == multiset(b)
    ensures SiblingsDiffer(b)
  {
    forall i, j | 0 <= i < j < |b| && b[i].Group? && b[j].Group? ensures b[i].name != b[j].name {
      NamesDiffer(a, b, i, j);
    }
  }

  lemma {:induction false} NamesDiffer(a: seq<Node>, b: seq<Node>, i: nat, j: nat)
    requires SiblingsDiffer(a) && multiset(a) == multiset(b)
    requires i < j < |b| && b[i].Group? && b[j].Group?
    ensures b[i].name != b[j].name
  {
    SameMembers(a, b);
    if b[i] == b[j] { TwiceIn(b, i, j); }
    if b[i].name == b[j].name { SameNameSameGroup(a, b[i], b[j]); }
    assert b[i] in a;
    var m :| 0 <= m < |a| && a[m] == b[i];
    OnlyHere(a, m);
  }

  lemma {:induction false} SameNameSameGroup(a: seq<Node>, x: Node, y: Node)
    requires SiblingsDiffer(a) && x in a && y in a && x.Group? && y.Group? && x.name == y.name
    ensures x == y
  {
    var m :| 0 <= m < |a| && a[m] == x;
    var n :| 0 <= n < |a| && a[n] == y;
    assert !(m < n) && !(n < m);
  }

  lemma {:induction false} TwiceIn(b: seq<Node>, i: nat, j: nat)
    requires i < j < |b| && b[i] == b[j]
    ensures multiset(b)[b[i]] >= 2
  {
    var tail := b[i + 1..];
    assert b == b[..i] + ([b[i]] + tail);
    assert tail[j - i - 1] == b[j];
    assert b[j] in multiset(tail);
  }

  lemma {:induction false} OnlyHere(a: seq<Node>, m: nat)
    requires SiblingsDiffer(a) && m < |a| && a[m].Group?
    ensures multiset(a)[a[m]] == 1
  {
    assert a == a[..m] + [a[m]] + a[m + 1..];
    assert a[m] !in a[..m] && a[m] !in a[m + 1..];
  }

  lemma {:induction false} SortStaysTidy(collate: (string, string) -> bool, children: seq<Node>, above: seq<string>)
    requires Tidy(children, above)
    ensures Tidy(SortTree(collate, children), above)
    decreases children
  {
    var each := SortEach(collate, children);
    SortEachIsPointwise(collate, children);
    forall i | 0 <= i < |each| ensures TidyNode(each[i], above) {
      SortNodeStaysTidy(collate, children, i, above);
    }
    var sorted := SortTree(collate, children);
    SortPermutes(NodeOrder(collate), each);
    PermutedSiblingsDiffer(each, sorted);
    SameMembers(each, sorted);
    forall i | 0 <= i < |sorted| ensures TidyNode(sorted[i], above) {
      assert sorted[i] in each;
    }
  }

  lemma {:induction false} SortNodeStaysTidy(collate: (string, string) -> bool, children: seq<Node>, i: nat,
                                             above: seq<string>)
    requires Tidy(children, above) && i < |children|
    ensures TidyNode(SortNode(collate, children[i]), above)
    decreases children, 0
  {
    assert TidyNode(children[i], above);
    if children[i].Group? {
      var inner := children[i].children;
      SortStaysTidy(collate, inner, children[i].path);
      SortEachIsPointwise(collate, inner);
      SortPermutes(NodeOrder(collate), SortEach(collate, inner));
      SameMembers(SortEach(collate, inner), SortTree(collate, inner));
    }
  }

  /** In the finished tree sibling groups have different names, paths are right, and no group is empty. */
  lemma TreeIsTidy(collate: (string, string) -> bool, skills: seq<Skill>)
    ensures Tidy(SortTree(collate, Annotate(Inserted(skills))), [])
  {
    InsertedIsTidy(skills);
    AnnotateStaysTidy(Inserted(skills), []);
    SortStaysTidy(collate, Annotate(Inserted(skills)), []);
  }

  // ---------------------------------------------------------------- group states

  /** What a state says about the skills below: some and all enabled, none enabled, or a mixture. */
  ghost predicate Means(state: State, below: multiset<Place>) {
    && (state == AllOn <==> below != multiset{} && forall p :: p in below ==> p.skill.enabled)
    && (state == AllOff <==> forall p :: p in below ==> !p.skill.enabled)
  }

  ghost predicate StatesRight(children: seq<Node>)
    decreases children
  {
    forall i :: 0 <= i < |children| ==> StateRight(children[i])
  }

  ghost predicate StateRight(node: Node)
    decreases node
  {
    node.Group? ==> Means(node.state, Places(node.children, [])) && StatesRight(node.children)
  }

  lemma {:induction false} CountTells(leaves: seq<Skill>)
    ensures EnabledCount(leaves) == |leaves| <==> forall s :: s in leaves ==> s.enabled
    ensures EnabledCount(leaves) == 0 <==> forall s :: s in leaves ==> !s.enabled
  {
    if leaves != [] {
      CountTells(leaves[1..]);
      assert leaves == [leaves[0]] + leaves[1..];
    }
  }

  /** The collected leaves are the skills that stand below. */
  lemma {:induction false} LeavesStandBelow(children: seq<Node>, above: seq<string>)
    ensures forall p :: p in Places(children, above) ==> p.skill in Leaves(children)
    ensures forall s :: s in Leaves(children) ==> exists p :: p in Places(children, above) && p.skill == s
    decreases children
  {
    if children != [] {
      LeavesStandBelow(children[1..], above);
      match children[0] {
        case Leaf(skill) => assert Place(above, skill) in PlacesOf(children[0], above);
        case Group(name, _, _, inner) => LeavesStandBelow(inner, above + [name]);
      }
      LeavesJoin(children, above);
    }
  }

  lemma {:induction false} LeavesJoin(children: seq<Node>, above: seq<string>)
    requires children != []
    requires forall s :: s in LeavesOf(children[0]) ==> exists p :: p in PlacesOf(children[0], above) && p.skill == s
    requires forall s :: s in Leaves(children[1..]) ==> exists p :: p in Places(children[1..], above) && p.skill == s
    ensures forall s :: s in Leaves(children) ==> exists p :: p in Places(children, above) && p.skill == s
  {
    forall s | s in Leaves(children) ensures exists p :: p in Places(children, above) && p.skill == s {
      if s in LeavesOf(children[0]) {
        var p :| p in PlacesOf(children[0], above) && p.skill == s;
        assert p in Places(children, above);
      } else {
        assert s in Leaves(children[1..]);
        var p :| p in Places(children[1..], above) && p.skill == s;
        assert p in Places(children, above);
      }
    }
  }

  lemma {:induction false} StateForMeans(children: seq<Node>)
    ensures Means(StateFor(Leaves(children)), Places(children, []))
  {
    var leaves, below := Leaves(children), Places(children, []);
    CountTells(leaves);
    LeavesStandBelow(children, []);
    if leaves == [] {
      assert below == multiset{};
    } else {
      assert leaves[0] in leaves;
      var q :| q in below && q.skill == leaves[0];
      forall s | s in leaves ensures exists p :: p in below && p.skill == s { }
    }
  }

  lemma {:induction false} AnnotateSetsStates(children: seq<Node>)
    ensures StatesRight(Annotate(children))
    decreases children
  {
    var annotated := Annotate(children);
    AnnotateIsPointwise(children);
    forall i | 0 <= i < |annotated| ensures StateRight(annotated[i]) {
      if children[i].Group? {
        AnnotateSetsStates(children[i].children);
        StateForMeans(Annotate(children[i].children));
      }
    }
  }

  lemma {:induction false} SortKeepsStates(collate: (string, string) -> bool, children: seq<Node>)
    requires StatesRight(children)
    ensures StatesRight(SortTree(collate, children))
    decreases children
  {
    var each := SortEach(collate, children);
    SortEachIsPointwise(collate, children);
    forall i | 0 <= i < |each| ensures StateRight(each[i]) {
      assert StateRight(children[i]);
      if children[i].Group? {
        SortKeepsStates(collate, children[i].children);
        SortKeepsPlaces(collate, children[i].children, []);
      }
    }
    var sorted := SortTree(collate, children);
    SortPermutes(NodeOrder(collate), each);
    SameMembers(each, sorted);
    forall i | 0 <= i < |sorted| ensures StateRight(sorted[i]) {
      assert sorted[i] in each;
    }
  }

  /** In the finished tree every group's state tells exactly whether all, none or some of its skills are enabled. */
  lemma StatesTellTheCount(collate: (string, string) -> bool, skills: seq<Skill>)
    ensures StatesRight(SortTree(collate, Annotate(Inserted(skills))))
  {
    AnnotateSetsStates(Inserted(skills));
    SortKeepsStates(collate, Annotate(Inserted(skills)));
  }

  // ---------------------------------------------------------------- order of display

  /** Of two nodes the one shown above the other: a skill before a group, and of one kind the one whose name is first. */
  ghost predicate ShownFirst(collate: (string, string) -> bool, a: Node, b: Node) {
    match (a, b)
    case (Leaf(x), Leaf(y)) => collate(x.name, y.name)
    case (Group(x, _, _, _), Group(y, _, _, _)) => collate(x, y)
    case (Leaf(_), Group(_, _, _, _)) => true
    case (Group(_, _, _, _), Leaf(_)) => false
  }

  ghost predicate Displayed(collate: (string, string) -> bool, children: seq<Node>)
    decreases children
  {
    && (forall i, j :: 0 <= i < j < |children| ==> ShownFirst(collate, children[i], children[j]))
    && forall i :: 0 <= i < |children| && children[i].Group? ==> Displayed(collate, children[i].children)
  }

  lemma {:induction false} NodeOrderIsPreorder(collate: (string, string) -> bool)
    requires TotalPreorder(collate)
    ensures TotalPreorder(NodeOrder(collate))
  {
    var le := NodeOrder(collate);
    forall a, b ensures le(a, b) || le(b, a) {
      assert collate(NameOf(a), NameOf(b)) || collate(NameOf(b), NameOf(a));
    }
    forall a, b, c | le(a, b) && le(b, c) ensures le(a, c) {
      assert collate(NameOf(a), NameOf(b)) && collate(NameOf(b), NameOf(c)) ==> collate(NameOf(a), NameOf(c));
    }
  }

  lemma {:induction false} OrderShows(collate: (string, string) -> bool, a: Node, b: Node)
    requires NodeOrder(collate)(a, b)
    ensures ShownFirst(collate, a, b)
  {
    var le := NodeOrder(collate);
    assert le(a, b) == if a.Leaf? != b.Leaf? then a.Leaf? else collate(NameOf(a), NameOf(b));
  }

  /** Below every group, skills come first and each kind is in order of name. */
  lemma {:induction false} SortDisplays(collate: (string, string) -> bool, children: seq<Node>)
    requires TotalPreorder(collate)
    ensures Displayed(collate, SortTree(collate, children))
    decreases children
  {
    var each, sorted := SortEach(collate, children), SortTree(collate, children);
    NodeOrderIsPreorder(collate);
    SortSorts(NodeOrder(collate), each);
    SortEachIsPointwise(collate, children);
    forall i | 0 <= i < |each| && each[i].Group? ensures Displayed(collate, each[i].children) {
      SortDisplays(collate, children[i].children);
    }
    SortPermutes(NodeOrder(collate), each);
    SameMembers(each, sorted);
    forall i, j | 0 <= i < j < |sorted| ensures ShownFirst(collate, sorted[i], sorted[j]) {
      OrderShows(collate, sorted[i], sorted[j]);
    }
    forall i | 0 <= i < |sorted| && sorted[i].Group? ensures Displayed(collate, sorted[i].children) {
      assert sorted[i] in each;
    }
  }
}
