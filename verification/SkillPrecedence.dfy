/** Which of several skills with one name is used, and which skills one rule could not tell apart. */
module SkillPrecedence {
  import opened SkillEditor
  import opened StableSort
  import opened Wrappers

  datatype Scope = User | Project
  datatype Source = Auto | Local

  /** A discovered skill with the judgement of its scope's rules. */
  datatype Found = Found(canonicalPath: string, name: string, enabled: bool, scope: Scope, source: Source,
                         sourceRoot: string, item: Item)

  datatype Status = Enabled | Disabled | Shadowed(winner: string)
  datatype Entry = Entry(found: Found, status: Status, ambiguous: bool)

  function Rank(f: Found): nat {
    (if f.scope == Project then 0 else 2) + (if f.source == Local then 0 else 1)
  }

  predicate NotBehind(a: Found, b: Found) { Rank(a) <= Rank(b) }

  lemma RankIsPreorder()
    ensures TotalPreorder(NotBehind)
  {
  }

  predicate Seen(items: seq<Found>, path: string) { exists f <- items :: f.canonicalPath == path }

  /** The first record of every path. */
  function Deduped(found: seq<Found>): seq<Found> {
    if found == [] then []
    else
      var before, f := Deduped(found[..|found| - 1]), found[|found| - 1];
      if Seen(before, f.canonicalPath) then before else before + [f]
  }

  /** The position of the first enabled skill of a name, or the length of the list. */
  function WinnerIndex(items: seq<Found>, name: string): (k: nat)
    ensures k <= |items|
    ensures k < |items| ==> items[k].enabled && items[k].name == name
    ensures forall j :: 0 <= j < k ==> !(items[j].enabled && items[j].name == name)
  {
    if items == [] then 0
    else
      var k := WinnerIndex(items[..|items| - 1], name);
      if k < |items| - 1 || (items[|items| - 1].enabled && items[|items| - 1].name == name) then k else |items|
  }

  function StatusOf(items: seq<Found>, f: Found): Status {
    if !f.enabled then Disabled
    else
      var k := WinnerIndex(items, f.name);
      if k < |items| && items[k].canonicalPath != f.canonicalPath then Shadowed(items[k].canonicalPath) else Enabled
  }

  type RuleKey = (Scope, string)

  function KeyOf(f: Found): RuleKey { (f.scope, f.item.ruleRelativeDir) }

  /** The roots under which a rule directory of a scope occurs. */
  function RootsOf(items: seq<Found>, key: RuleKey): set<string> {
    set f <- items | KeyOf(f) == key :: f.sourceRoot
  }

  predicate Ambiguous(items: seq<Found>, f: Found) { |RootsOf(items, KeyOf(f))| > 1 }

  function EntryOf(items: seq<Found>, f: Found): Entry { Entry(f, StatusOf(items, f), Ambiguous(items, f)) }

  function Entries(items: seq<Found>, upTo: nat): (entries: seq<Entry>)
    requires upTo <= |items|
    ensures |entries| == upTo
  {
    if upTo == 0 then [] else Entries(items, upTo - 1) + [EntryOf(items, items[upTo - 1])]
  }

  /** The skills that survive, in order of precedence. */
  function Survivors(found: seq<Found>): seq<Found> { Deduped(Sort(NotBehind, found)) }

  lemma EntriesAt(items: seq<Found>, upTo: nat)
    requires upTo <= |items|
    ensures forall k :: 0 <= k < upTo ==> Entries(items, upTo)[k] == EntryOf(items, items[k])
  {
  }

  /** The map holds the first enabled skill of every name. */
  ghost predicate HoldsWinners(items: seq<Found>, winner: map<string, Found>) {
    forall name :: WinnerOf(winner, name) == (var k := WinnerIndex(items, name); if k < |items| then Some(items[k]) else None)
  }

  function WinnerOf(winner: map<string, Found>, name: string): Option<Found> {
    if name in winner then Some(winner[name]) else None
  }

  lemma WinnerSnoc(items: seq<Found>, f: Found, name: string)
    ensures var k := WinnerIndex(items, name);
            WinnerIndex(items + [f], name)
            == if k < |items| || (f.enabled && f.name == name) then k else |items| + 1
  {
    assert (items + [f])[..|items|] == items;
  }

  lemma WinnersSnoc(items: seq<Found>, f: Found, winner: map<string, Found>)
    requires HoldsWinners(items, winner)
    ensures HoldsWinners(items + [f], if f.enabled && f.name !in winner then winner[f.name := f] else winner)
  {
    var next := if f.enabled && f.name !in winner then winner[f.name := f] else winner;
    forall name
      ensures WinnerOf(next, name)
        == var k := WinnerIndex(items + [f], name); if k < |items + [f]| then Some((items + [f])[k]) else None
    {
      WinnerSnoc(items, f, name);
      assert WinnerOf(winner, name)
        == var k := WinnerIndex(items, name); if k < |items| then Some(items[k]) else None;
    }
  }

  lemma SeenSnoc(items: seq<Found>, f: Found, path: string)
    ensures Seen(items + [f], path) <==> Seen(items, path) || path == f.canonicalPath
  {
    assert forall g :: g in items + [f] <==> g in items || g == f;
  }

  /** The first pass: drops repeated paths and remembers the first enabled skill of every name. */
  method Collect(sorted: seq<Found>) returns (items: seq<Found>, winner: map<string, Found>)
    ensures items == Deduped(sorted) && HoldsWinners(items, winner)
  {
    var seenPath: set<string>;
    items, winner, seenPath := [], map[], {};
    for k := 0 to |sorted|
      invariant items == Deduped(sorted[..k]) && HoldsWinners(items, winner)
      invariant forall path :: path in seenPath <==> Seen(items, path)
    {
      var f := sorted[k];
      assert sorted[..k + 1][..k] == sorted[..k];
      if f.canonicalPath in seenPath { continue; }
      seenPath := seenPath + {f.canonicalPath};
      forall path ensures Seen(items + [f], path) <==> Seen(items, path) || path == f.canonicalPath {
        SeenSnoc(items, f, path);
      }
      WinnersSnoc(items, f, winner);
      items := items + [f];
      if f.enabled && f.name !in winner { winner := winner[f.name := f]; }
    }
    assert sorted[..|sorted|] == sorted;
  }

  /** The last pass: which roots every rule directory occurs under. */
  method GroupRoots(items: seq<Found>) returns (dirToRoots: map<RuleKey, set<string>>)
    ensures forall k :: 0 <= k < |items| ==> KeyOf(items[k]) in dirToRoots
    ensures forall key :: key in dirToRoots ==> dirToRoots[key] == RootsOf(items, key)
  {
    dirToRoots := map[];
    for k := 0 to |items|
      invariant forall j :: 0 <= j < k ==> KeyOf(items[j]) in dirToRoots
      invariant forall key :: RootsOf(items[..k], key) == if key in dirToRoots then dirToRoots[key] else {}
    {
      var f := items[k];
      var roots := if KeyOf(f) in dirToRoots then dirToRoots[KeyOf(f)] else {};
      assert items[..k + 1] == items[..k] + [f];
      dirToRoots := dirToRoots[KeyOf(f) := roots + {f.sourceRoot}];
      RootsSnoc(items[..k], f);
    }
    assert items[..|items|] == items;
  }

  function One(f: Found, key: RuleKey): set<string> { if KeyOf(f) == key then {f.sourceRoot} else {} }

  lemma RootsSnoc(items: seq<Found>, f: Found)
    ensures forall key :: RootsOf(items + [f], key) == RootsOf(items, key) + One(f, key)
  {
    assert forall g :: g in items + [f] <==> g in items || g == f;
  }

  method Resolve(found: seq<Found>) returns (entries: seq<Entry>)
    ensures var items := Survivors(found); entries == Entries(items, |items|)
  {
    var items, winner := Collect(Sort(NotBehind, found));
    var dirToRoots := GroupRoots(items);
    entries := [];
    for k := 0 to |items|
      invariant entries == Entries(items, k)
    {
      var f := items[k];
      var status := if f.enabled then Enabled else Disabled;
      assert WinnerOf(winner, f.name)
        == var w := WinnerIndex(items, f.name); if w < |items| then Some(items[w]) else None;
      if f.enabled && f.name in winner && winner[f.name].canonicalPath != f.canonicalPath {
        status := Shadowed(winner[f.name].canonicalPath);
      }
      entries := entries + [Entry(f, status, |dirToRoots[KeyOf(f)]| > 1)];
    }
  }
}
