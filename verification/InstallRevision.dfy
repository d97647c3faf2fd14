/**
 * The revision of a skill installation scan: the hash of a length-delimited byte stream that lists
 * the source directory, every candidate and every group membership.
 */
module InstallRevision {
  import opened StableSort
  import opened Utf8
  import opened Wrappers

  const UINT32_LIMIT: nat := 0x1_0000_0000

  /** The lowest `width` bytes of a number, the most significant first. */
  function BigEndian(n: nat, width: nat): (bytes: Bytes)
    ensures |bytes| == width
  {
    if width == 0 then [] else BigEndian(n / 0x100, width - 1) + [n % 0x100]
  }

  lemma {:induction false} BigEndianInjective(m: nat, n: nat, width: nat, limit: nat)
    requires limit == Power(width) && m < limit && n < limit && BigEndian(m, width) == BigEndian(n, width)
    ensures m == n
    decreases width
  {
    if width > 0 {
      var a, b := BigEndian(m, width), BigEndian(n, width);
      assert a[width - 1] == m % 0x100 && b[width - 1] == n % 0x100;
      assert a[..width - 1] == BigEndian(m / 0x100, width - 1) && b[..width - 1] == BigEndian(n / 0x100, width - 1);
      BigEndianInjective(m / 0x100, n / 0x100, width - 1, Power(width - 1));
    }
  }

  function Power(width: nat): nat { if width == 0 then 1 else 0x100 * Power(width - 1) }

  lemma FourBytes()
    ensures Power(4) == UINT32_LIMIT
  {
    assert Power(1) == 0x100;
    assert Power(2) == 0x1_0000;
    assert Power(3) == 0x100_0000;
  }

  /** What a reader of the most significant byte first gets. */
  function ReadBigEndian(bytes: Bytes): nat {
    if bytes == [] then 0 else 0x100 * ReadBigEndian(bytes[..|bytes| - 1]) + bytes[|bytes| - 1]
  }

  /** A length field reads back as the length, at the first four bytes of the field. */
  lemma {:induction false} BigEndianReads(n: nat, width: nat)
    requires n < Power(width)
    ensures ReadBigEndian(BigEndian(n, width)) == n
  {
    if width > 0 {
      var bytes := BigEndian(n, width);
      assert bytes[..width - 1] == BigEndian(n / 0x100, width - 1);
      BigEndianReads(n / 0x100, width - 1);
    }
  }

  /** So a part's field is its length in four bytes, then its text. */
  lemma {:induction false} FieldReads(part: string)
    requires Fits(part)
    ensures Field(part)[4..] == Encode(part) && ReadBigEndian(Field(part)[..4]) == |Encode(part)|
  {
    FourBytes();
    BigEndianReads(|Encode(part)|, 4);
    assert Field(part)[..4] == BigEndian(|Encode(part)|, 4);
  }

  predicate Fits(part: string) { |Encode(part)| < UINT32_LIMIT }

  predicate AllFit(parts: seq<string>) {
    forall i :: 0 <= i < |parts| ==> Fits(parts[i])
  }

  /** A part behind its length, in the four bytes `writeUInt32BE` writes. */
  function Field(part: string): Bytes { BigEndian(|Encode(part)|, 4) + Encode(part) }

  function Delimited(parts: seq<string>): Bytes {
    if parts == [] then [] else Delimited(parts[..|parts| - 1]) + Field(parts[|parts| - 1])
  }

  /** The chunks of all parts joined; a part whose length does not fit four bytes throws. */
  method LengthDelimited(parts: seq<string>) returns (buffer: Option<Bytes>)
    ensures buffer == if AllFit(parts) then Some(Delimited(parts)) else None
  {
    var chunks: Bytes := [];
    for i := 0 to |parts|
      invariant AllFit(parts[..i]) && chunks == Delimited(parts[..i])
    {
      var bytes := Encode(parts[i]);
      if |bytes| >= UINT32_LIMIT {
        assert !Fits(parts[i]);
        return None;
      }
      assert parts[..i + 1] == parts[..i] + [parts[i]];
      DelimitedSnoc(parts[..i], parts[i]);
      AllFitConcat(parts[..i], [parts[i]]);
      chunks := chunks + (BigEndian(|bytes|, 4) + bytes);
    }
    assert parts[..|parts|] == parts;
    return Some(chunks);
  }

  lemma AllFitConcat(a: seq<string>, b: seq<string>)
    ensures AllFit(a + b) <==> AllFit(a) && AllFit(b)
  {
    var all := a + b;
    assert forall i :: 0 <= i < |a| ==> all[i] == a[i];
    assert forall i :: 0 <= i < |b| ==> all[|a| + i] == b[i];
  }

  lemma DelimitedSnoc(parts: seq<string>, last: string)
    ensures Delimited(parts + [last]) == Delimited(parts) + Field(last)
  {
    assert (parts + [last])[..|parts|] == parts;
  }

  lemma Regroup<T>(a: seq<T>, b: seq<T>, c: seq<T>)
    ensures (a + b) + c == a + (b + c)
  {
  }

  lemma {:induction false} DelimitedConcat(a: seq<string>, b: seq<string>)
    ensures Delimited(a + b) == Delimited(a) + Delimited(b)
  {
    if b == [] {
      assert a + b == a;
    } else {
      var init, last := b[..|b| - 1], b[|b| - 1];
      DelimitedConcat(a, init);
      DelimitedSnoc(a + init, last);
      Regroup(a, init, [last]);
      assert b == init + [last];
      Regroup(Delimited(a), Delimited(init), Field(last));
    }
  }

  lemma DelimitedOne(part: string)
    ensures Delimited([part]) == Field(part)
  {
    DelimitedSnoc([], part);
    assert [] + [part] == [part];
  }

  lemma DelimitedCons(parts: seq<string>)
    requires parts != []
    ensures Delimited(parts) == Field(parts[0]) + Delimited(parts[1..])
  {
    assert parts == [parts[0]] + parts[1..];
    DelimitedConcat([parts[0]], parts[1..]);
    DelimitedOne(parts[0]);
  }

  lemma FieldsAgree(s: string, x: Bytes, t: string, y: Bytes)
    requires Fits(s) && Fits(t) && Field(s) + x == Field(t) + y
    ensures s == t && x == y
  {
    var a, b := Encode(s), Encode(t);
    var left, right := Field(s) + x, Field(t) + y;
    assert left[..4] == BigEndian(|a|, 4) && right[..4] == BigEndian(|b|, 4);
    FourBytes();
    BigEndianInjective(|a|, |b|, 4, UINT32_LIMIT);
    assert left[4..4 + |a|] == a && right[4..4 + |b|] == b;
    assert left[4 + |a|..] == x && right[4 + |b|..] == y;
    EncodeInjective(s, t);
  }

  lemma FieldIsNotEmpty(part: string)
    ensures Field(part) != []
  {
  }

  /** The encoding loses nothing: the parts and where they end can be read back from the bytes. */
  lemma {:induction false} DelimitedInjective(a: seq<string>, b: seq<string>)
    requires AllFit(a) && AllFit(b) && Delimited(a) == Delimited(b)
    ensures a == b
    decreases |a|
  {
    if a != [] {
      DelimitedCons(a);
      FieldIsNotEmpty(a[0]);
    }
    if b != [] {
      DelimitedCons(b);
      FieldIsNotEmpty(b[0]);
    }
    if a != [] && b != [] {
      FieldsAgree(a[0], Delimited(a[1..]), b[0], Delimited(b[1..]));
      DelimitedInjective(a[1..], b[1..]);
      assert a == [a[0]] + a[1..] && b == [b[0]] + b[1..];
    }
  }

  datatype Skill = Skill(canonicalPath: string, content: string, name: string, description: string)

  /** What a scan found: an unreadable source, or a directory with skills and group memberships. */
  datatype Scan =
    | Missing(source: string)
    | Found(source: string, skills: seq<Skill>, memberships: seq<string>)

  /** The comparisons of the two sorts and the two digests; `digest` is the hex digest of a file. */
  datatype Env = Env(
    collate: (string, string) -> bool,
    unitLe: (string, string) -> bool,
    digest: string -> string,
    hash: Bytes -> string
  )

  /** Paths are ordered by a locale's collation, which may consider different texts equal. */
  function ByPath(env: Env): (Skill, Skill) -> bool {
    (a: Skill, b: Skill) => env.collate(a.canonicalPath, b.canonicalPath)
  }

  /** Both comparisons are total preorders; the order of code units separates different texts. */
  ghost predicate Sound(env: Env) {
    && TotalPreorder(env.collate)
    && TotalPreorder(env.unitLe)
    && forall s, t :: env.unitLe(s, t) && env.unitLe(t, s) ==> s == t
  }

  ghost predicate CollisionFree(env: Env) {
    && (forall x, y :: env.digest(x) == env.digest(y) ==> x == y)
    && (forall x, y :: env.hash(x) == env.hash(y) ==> x == y)
  }

  function Candidate(env: Env, skill: Skill): seq<string> {
    ["candidate", skill.canonicalPath, env.digest(skill.content), skill.name, skill.description]
  }

  function Candidates(env: Env, skills: seq<Skill>): seq<string> {
    if skills == [] then []
    else Candidates(env, skills[..|skills| - 1]) + Candidate(env, skills[|skills| - 1])
  }

  function Groups(memberships: seq<string>): seq<string> {
    if memberships == [] then []
    else Groups(memberships[..|memberships| - 1]) + ["group", memberships[|memberships| - 1]]
  }

  /** What a directory adds: its candidates, then its memberships. */
  function Listing(env: Env, skills: seq<Skill>, memberships: seq<string>): seq<string> {
    Candidates(env, skills) + Groups(memberships)
  }

  /** All texts a scan feeds to the hash, in order. */
  function Texts(env: Env, scan: Scan): seq<string> {
    match scan
    case Missing(source) => ["root", source, "missing"]
    case Found(source, skills, memberships) =>
      ["root", source] + Listing(env, Sort(ByPath(env), skills), Sort(env.unitLe, memberships))
  }

  /** What has been fed to the hash so far, unless a part did not fit. */
  ghost predicate Fed(texts: seq<string>, bytes: Option<Bytes>) {
    bytes == if AllFit(texts) then Some(Delimited(texts)) else None
  }

  /** Feeds one more list of parts. */
  method Update(fed: Option<Bytes>, ghost texts: seq<string>, parts: seq<string>) returns (next: Option<Bytes>)
    requires Fed(texts, fed)
    ensures Fed(texts + parts, next)
  {
    AllFitConcat(texts, parts);
    if fed.None? { return None; }
    var chunk := LengthDelimited(parts);
    if chunk.None? { return None; }
    DelimitedConcat(texts, parts);
    return Some(fed.value + chunk.value);
  }

  lemma CandidatesSnoc(env: Env, sorted: seq<Skill>, i: nat, texts: seq<string>)
    requires i < |sorted|
    ensures texts + Candidates(env, sorted[..i + 1]) == (texts + Candidates(env, sorted[..i])) + Candidate(env, sorted[i])
  {
    assert sorted[..i + 1][..i] == sorted[..i];
    Regroup(texts, Candidates(env, sorted[..i]), Candidate(env, sorted[i]));
  }

  method HashCandidates(env: Env, fed: Option<Bytes>, ghost texts: seq<string>, sorted: seq<Skill>)
    returns (next: Option<Bytes>)
    requires Fed(texts, fed)
    ensures Fed(texts + Candidates(env, sorted), next)
  {
    next := fed;
    assert texts + Candidates(env, sorted[..0]) == texts;
    for i := 0 to |sorted|
      invariant Fed(texts + Candidates(env, sorted[..i]), next)
    {
      CandidatesSnoc(env, sorted, i, texts);
      next := Update(next, texts + Candidates(env, sorted[..i]), Candidate(env, sorted[i]));
    }
    assert sorted[..|sorted|] == sorted;
  }

  lemma GroupsSnoc(sorted: seq<string>, i: nat, texts: seq<string>)
    requires i < |sorted|
    ensures texts + Groups(sorted[..i + 1]) == (texts + Groups(sorted[..i])) + ["group", sorted[i]]
  {
    assert sorted[..i + 1][..i] == sorted[..i];
    Regroup(texts, Groups(sorted[..i]), ["group", sorted[i]]);
  }

  method HashGroups(fed: Option<Bytes>, ghost texts: seq<string>, sorted: seq<string>) returns (next: Option<Bytes>)
    requires Fed(texts, fed)
    ensures Fed(texts + Groups(sorted), next)
  {
    next := fed;
    assert texts + Groups(sorted[..0]) == texts;
    for i := 0 to |sorted|
      invariant Fed(texts + Groups(sorted[..i]), next)
    {
      GroupsSnoc(sorted, i, texts);
      next := Update(next, texts + Groups(sorted[..i]), ["group", sorted[i]]);
    }
    assert sorted[..|sorted|] == sorted;
  }

  /** The revision of a scan, or none when a text is too long for its four-byte length. */
  method BuildRevision(env: Env, source: string, skills: seq<Skill>, memberships: seq<string>)
    returns (revision: Option<string>)
    ensures var texts := Texts(env, Found(source, skills, memberships));
            revision == if AllFit(texts) then Some(env.hash(Delimited(texts))) else None
  {
    var sorted := Sort(ByPath(env), skills);
    var groups := Sort(env.unitLe, memberships);
    ghost var root := ["root", source];
    var fed := LengthDelimited(["root", source]);
    fed := HashCandidates(env, fed, root, sorted);
    fed := HashGroups(fed, root + Candidates(env, sorted), groups);
    Regroup(root, Candidates(env, sorted), Groups(groups));
    if fed.None? { return None; }
    return Some(env.hash(fed.value));
  }
}
