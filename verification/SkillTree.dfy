/** The tree of one skill root: skills under groups named by the directories above them. */
module SkillTree {
  import opened StableSort

  /** A skill and its directory below the root, as path segments; `enabled` is the status it is shown with. */
  datatype Skill = Skill(id: string, name: string, segments: seq<string>, enabled: bool)

  datatype State = AllOn | AllOff | Mixed

  datatype Node =
    | Leaf(skill: Skill)
    | Group(name: string, path: seq<string>, state: State, children: seq<Node>)

  /** The position of the group of that name among siblings, or their number. */
  function GroupIndex(children: seq<Node>, name: string): (k: nat)
    ensures k <= |children|
    ensures k < |children| ==> children[k].Group? && children[k].name == name
    ensures forall j :: 0 <= j < k ==> !(children[j].Group? && children[j].name == name)
  {
    if children == [] || (children[0].Group? && children[0].name == name) then 0
    else 1 + GroupIndex(children[1..], name)
  }

  /** Walks down the remaining segments, creating the groups that are missing, and pushes the skill. */
  function Insertion(children: seq<Node>, skill: Skill, rest: seq<string>, above: seq<string>): seq<Node>
    decreases |rest|
  {
    if |rest| <= 1 then children + [Leaf(skill)]
    else
      var k, here := GroupIndex(children, rest[0]), above + [rest[0]];
      if k < |children| then
        children[k := children[k].(children := Insertion(children[k].children, skill, rest[1..], here))]
      else
        children + [Group(rest[0], here, AllOff, Insertion([], skill, rest[1..], here))]
  }

  function LeavesOf(node: Node): seq<Skill>
    decreases node
  {
    match node
    case Leaf(skill) => [skill]
    case Group(_, _, _, children) => Leaves(children)
  }

  function Leaves(children: seq<Node>): seq<Skill>
    decreases children
  {
    if children == [] then [] else LeavesOf(children[0]) + Leaves(children[1..])
  }

  function EnabledCount(leaves: seq<Skill>): (n: nat)
    ensures n <= |leaves|
  {
    if leaves == [] then 0 else (if leaves[0].enabled then 1 else 0) + EnabledCount(leaves[1..])
  }

  function StateFor(leaves: seq<Skill>): State {
    var enabled := EnabledCount(leaves);
    if |leaves| == 0 then AllOff
    else if enabled == |leaves| then AllOn
    else if enabled == 0 then AllOff
    else Mixed
  }

  /** Sets the state of every group, the inner ones first. */
  function AnnotateNode(node: Node): Node
    decreases node
  {
    match node
    case Leaf(_) => node
    case Group(name, path, _, children) =>
      var annotated := Annotate(children);
      Group(name, path, StateFor(Leaves(annotated)), annotated)
  }

  function Annotate(children: seq<Node>): seq<Node>
    decreases children
  {
    if children == [] then [] else [AnnotateNode(children[0])] + Annotate(children[1..])
  }

  /** Skills before groups, each by name in the locale's collation. */
  function NodeOrder(collate: (string, string) -> bool): (Node, Node) -> bool {
    (a: Node, b: Node) =>
      if a.Leaf? != b.Leaf? then a.Leaf? else collate(NameOf(a), NameOf(b))
  }

  function NameOf(node: Node): string { if node.Leaf? then node.skill.name else node.name }

  function SortNode(collate: (string, string) -> bool, node: Node): Node
    decreases node
  {
    match node
    case Leaf(_) => node
    case Group(name, path, state, children) => Group(name, path, state, SortTree(collate, children))
  }

  function SortEach(collate: (string, string) -> bool, children: seq<Node>): seq<Node>
    decreases children, 0
  {
    if children == [] then [] else [SortNode(collate, children[0])] + SortEach(collate, children[1..])
  }

  function SortTree(collate: (string, string) -> bool, children: seq<Node>): seq<Node>
    decreases children, 1
  {
    Sort(NodeOrder(collate), SortEach(collate, children))
  }

  function Inserted(skills: seq<Skill>): seq<Node> {
    if skills == [] then []
    else
      var skill := skills[|skills| - 1];
      Insertion(Inserted(skills[..|skills| - 1]), skill, skill.segments, [])
  }

  method BuildTree(collate: (string, string) -> bool, skills: seq<Skill>) returns (children: seq<Node>)
    ensures children == SortTree(collate, Annotate(Inserted(skills)))
  {
    children := [];
    for k := 0 to |skills|
      invariant children == Inserted(skills[..k])
    {
      assert skills[..k + 1][..k] == skills[..k];
      children := Insertion(children, skills[k], skills[k].segments, []);
    }
    assert skills[..|skills|] == skills;
    children := SortTree(collate, Annotate(children));
  }
}
