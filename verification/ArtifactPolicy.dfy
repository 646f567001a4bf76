/** The storage policy: which paths stay in which scope, and which are structural parents. */
module ArtifactPolicy {
  import opened Wrappers
  import opened FileTree
  import opened CleanupRecords
  import opened Sequences

  datatype Scope = Clean | Close

  const KNOWLEDGE: Path := ["knowledge"]
  const WORK: Path := ["work"]

  datatype Policy = Policy(permanent: set<Path>, infrastructure: set<Path>, task: set<Path>, containers: set<Path>,
                           digest: string)
  {
    /** Closing a session drops its task state; knowledge and infrastructure stay. */
    function Keep(scope: Scope): set<Path> {
      permanent + infrastructure + if scope == Close then {} else task
    }

    function Cycle(scope: Scope): string {
      (if scope == Clean then "artifacts-" else "artifacts-close-") + digest
    }

    function Everything(): set<Path> {
      permanent + infrastructure + task + containers
    }
  }

  /** The parsed policy file; a path is given as the names between its slashes. */
  datatype Document = Document(schema: int, permanent: seq<Path>, infrastructure: seq<Path>, task: seq<Path>,
                               containers: seq<Path>)

  /** A SHA-256 digest in hexadecimal. */
  predicate IsDigest(d: string) {
    |d| == 64 && forall k | 0 <= k < |d| :: '0' <= d[k] <= '9' || 'a' <= d[k] <= 'f'
  }

  predicate PolicyPathOk(p: Path) {
    && NormalizedPath(p)
    && forall part, c | part in p && c in part :: c as int >= 32 && c !in "*?[]"
  }

  predicate GroupOk(paths: seq<Path>) {
    paths != [] && (forall p | p in paths :: PolicyPathOk(p)) && NoTwice(paths)
  }

  function PathSet(paths: seq<Path>): set<Path> {
    set p | p in paths
  }

  /** Every proper ancestor below the root is a structural parent. */
  predicate ParentsListed(p: Path, containers: set<Path>) {
    forall k | 0 < k < |p| :: p[..k] in containers
  }

  function PolicyFrom(d: Document, digest: string): Policy {
    Policy(PathSet(d.permanent), PathSet(d.infrastructure), PathSet(d.task), PathSet(d.containers), digest)
  }

  lemma PathsBelowRoot(d: Document, digest: string)
    requires GroupOk(d.permanent) && GroupOk(d.infrastructure) && GroupOk(d.task) && GroupOk(d.containers)
    ensures [] !in PolicyFrom(d, digest).Everything()
  {
    forall group | group in {d.permanent, d.infrastructure, d.task, d.containers}
      ensures [] !in PathSet(group)
    {
      assert GroupOk(group);
    }
  }

  /**
   * load_policy: it accepts exactly the documents of four groups of distinct paths,
   * in whatever order, that make an acceptable policy with nothing but the knowledge
   * base permanent and with work a task.
   */
  function LoadPolicy(d: Document, digest: string): (r: Result<Policy, string>)
    requires IsDigest(digest)
    ensures r.Ok? <==>
      && d.schema == 2 && GroupOk(d.permanent) && GroupOk(d.infrastructure) && GroupOk(d.task) && GroupOk(d.containers)
      && PolicyOk(PolicyFrom(d, digest)) && PathSet(d.permanent) == {KNOWLEDGE} && WORK in d.task
    ensures r.Ok? ==> r.value == PolicyFrom(d, digest)
  {
    var policy := PolicyFrom(d, digest);
    if d.schema != 2 then Err("unsupported artifact policy schema")
    else if !GroupOk(d.permanent) || !GroupOk(d.infrastructure) || !GroupOk(d.task) || !GroupOk(d.containers) then
      Err("artifact policy group is not an array of distinct normalized paths")
    else if !NoTwice(d.permanent + d.infrastructure + d.task + d.containers) then
      ApartNoTwice(d.permanent, d.infrastructure, d.task, d.containers);
      Err("artifact policy assigns a path to more than one class")
    else if exists p | p in policy.Everything() :: !ParentsListed(p, policy.containers) then
      Err("artifact policy lacks an explicit structural parent")
    else if policy.permanent != {KNOWLEDGE} then
      Err("only the distilled knowledge base may survive session close")
    else if WORK !in policy.task then
      Err("artifact policy must keep session work until close")
    else
      ClassesApart(d.permanent, d.infrastructure, d.task, d.containers);
      PathsBelowRoot(d, digest);
      Ok(policy)
  }

  /** No path has two classes. */
  predicate DisjointClasses(policy: Policy) {
    && policy.permanent !! policy.infrastructure !! policy.task !! policy.containers
  }

  /** What planning relies on in an accepted policy. */
  predicate PolicyOk(policy: Policy) {
    && DisjointClasses(policy)
    && (forall p | p in policy.Everything() :: p != [] && ParentsListed(p, policy.containers))
    && KNOWLEDGE in policy.Keep(Clean) && KNOWLEDGE in policy.Keep(Close)
    && WORK in policy.Keep(Clean)
    && IsDigest(policy.digest)
  }

  lemma ClassesApart(a: seq<Path>, b: seq<Path>, c: seq<Path>, d: seq<Path>)
    requires NoTwice(a + b + c + d)
    ensures PathSet(a) !! PathSet(b) !! PathSet(c) !! PathSet(d)
  {
    var all := a + b + c + d;
    forall x, y | 0 <= x < |all| && 0 <= y < |all| && all[x] == all[y]
      ensures x == y
    {
    }
    forall p | p in a ensures p !in b + c + d {
      var i :| 0 <= i < |a| && a[i] == p;
      assert all[i] == p;
      assert forall j | 0 <= j < |b + c + d| :: all[|a| + j] == (b + c + d)[j];
    }
    forall p | p in b ensures p !in c + d {
      var i :| 0 <= i < |b| && b[i] == p;
      assert all[|a| + i] == p;
      assert forall j | 0 <= j < |c + d| :: all[|a| + |b| + j] == (c + d)[j];
    }
    forall p | p in c ensures p !in d {
      var i :| 0 <= i < |c| && c[i] == p;
      assert all[|a| + |b| + i] == p;
      assert forall j | 0 <= j < |d| :: all[|a| + |b| + |c| + j] == d[j];
    }
  }

  lemma JoinNoTwice(a: seq<Path>, b: seq<Path>)
    requires NoTwice(a) && NoTwice(b) && PathSet(a) !! PathSet(b)
    ensures NoTwice(a + b) && PathSet(a + b) == PathSet(a) + PathSet(b)
  {
    forall i, j | 0 <= i < j < |a + b|
      ensures (a + b)[i] != (a + b)[j]
    {
      if i < |a| <= j {
        assert a[i] in PathSet(a) && b[j - |a|] in PathSet(b);
      }
    }
  }

  /** Groups without repetition and in common with no other are together without repetition. */
  lemma ApartNoTwice(a: seq<Path>, b: seq<Path>, c: seq<Path>, d: seq<Path>)
    requires NoTwice(a) && NoTwice(b) && NoTwice(c) && NoTwice(d)
    ensures PathSet(a) !! PathSet(b) !! PathSet(c) !! PathSet(d) ==> NoTwice(a + b + c + d)
  {
    if PathSet(a) !! PathSet(b) !! PathSet(c) !! PathSet(d) {
      JoinNoTwice(a, b);
      JoinNoTwice(a + b, c);
      JoinNoTwice(a + b + c, d);
    }
  }

  /** The document lists the path among those that a scope leaves alone. */
  predicate ListedToStay(d: Document, scope: Scope, k: Path) {
    k in d.permanent || k in d.infrastructure || (scope == Clean && k in d.task)
  }

  /** The policy was loaded from the document. */
  predicate PolicyOf(d: Document, policy: Policy) {
    IsDigest(policy.digest) && LoadPolicy(d, policy.digest) == Ok(policy)
  }

  /** What a policy keeps, and what it opens, is what its document lists. */
  lemma ListedStays(d: Document, policy: Policy, scope: Scope, k: Path)
    requires PolicyOf(d, policy)
    ensures k in policy.Keep(scope) <==> ListedToStay(d, scope, k)
    ensures k in policy.containers <==> k in d.containers
    ensures k in d.containers ==> !ListedToStay(d, scope, k)
    ensures k in d.task ==> k !in d.permanent && k !in d.infrastructure && k !in d.containers
  {
    assert k in PathSet(d.permanent) <==> k in d.permanent;
    assert k in PathSet(d.infrastructure) <==> k in d.infrastructure;
    assert k in PathSet(d.task) <==> k in d.task;
    assert k in PathSet(d.containers) <==> k in d.containers;
  }

  // Which documents are accepted

  /** A name that can be written in a path of the policy: no control character, and nothing a shell would expand. */
  predicate IsPlainName(name: string) {
    && name != "" && name != "." && name != ".."
    && forall c | c in name :: c >= ' ' && c != '/' && c != '*' && c != '?' && c != '[' && c != ']'
  }

  /** A group: some paths of plain names, none of them twice. */
  predicate IsGroup(paths: seq<Path>) {
    && paths != [] && (forall i, j | 0 <= i < j < |paths| :: paths[i] != paths[j])
    && forall p | p in paths :: p != [] && forall name | name in p :: IsPlainName(name)
  }

  predicate Listed(d: Document, p: Path) {
    p in d.permanent || p in d.infrastructure || p in d.task || p in d.containers
  }

  predicate OneClass(d: Document, p: Path) {
    && (p in d.permanent ==> p !in d.infrastructure && p !in d.task && p !in d.containers)
    && (p in d.infrastructure ==> p !in d.task && p !in d.containers)
    && (p in d.task ==> p !in d.containers)
  }

  /** Every directory above a listed path is a container. */
  ghost predicate OpenAbove(d: Document) {
    forall p, a | Listed(d, p) && a != [] && a < p :: a in d.containers
  }

  ghost predicate OneClassEach(d: Document) {
    forall p :: OneClass(d, p)
  }

  predicate AllGroups(d: Document) {
    IsGroup(d.permanent) && IsGroup(d.infrastructure) && IsGroup(d.task) && IsGroup(d.containers)
  }

  /** A document in order: every listed path has one class, and the directories above it are containers. */
  ghost predicate IsPolicyDocument(d: Document) {
    && d.schema == 2 && AllGroups(d) && OneClassEach(d) && OpenAbove(d)
    && (forall p :: p in d.permanent <==> p == ["knowledge"]) && ["work"] in d.task
  }

  lemma PlainNames(p: Path)
    ensures PolicyPathOk(p) <==> p != [] && forall name | name in p :: IsPlainName(name)
  {
    if PolicyPathOk(p) {
      forall name | name in p
        ensures IsPlainName(name)
      {
        forall c | c in name
          ensures c >= ' ' && c !in "*?[]"
        {
          assert c as int >= 32;
        }
        assert '*' in "*?[]" && '?' in "*?[]" && '[' in "*?[]" && ']' in "*?[]";
      }
    }
    if forall name | name in p :: IsPlainName(name) {
      forall part, c | part in p && c in part
        ensures c as int >= 32 && c !in "*?[]"
      {
        assert IsPlainName(part);
      }
    }
  }

  lemma GroupIs(paths: seq<Path>)
    ensures GroupOk(paths) <==> IsGroup(paths)
  {
    forall p | p in paths
      ensures PolicyPathOk(p) <==> p != [] && forall name | name in p :: IsPlainName(name)
    {
      PlainNames(p);
    }
  }

  lemma PathSetIs(paths: seq<Path>, p: Path)
    ensures p in PathSet(paths) <==> p in paths
  {
  }

  lemma ClassesAre(d: Document, digest: string)
    ensures DisjointClasses(PolicyFrom(d, digest)) <==> OneClassEach(d)
  {
    var (a, b, c, e) := (PathSet(d.permanent), PathSet(d.infrastructure), PathSet(d.task), PathSet(d.containers));
    if a !! b !! c !! e {
      forall p
        ensures OneClass(d, p)
      {
        assert p in d.permanent ==> p in a;
        assert p in d.infrastructure ==> p in b;
        assert p in d.task ==> p in c;
        assert p in d.containers ==> p in e;
      }
    }
    if OneClassEach(d) {
      forall p
        ensures !(p in a && p in b) && !(p in a + b && p in c) && !(p in a + b + c && p in e)
      {
        assert OneClass(d, p);
      }
    }
  }

  predicate ParentsListedAll(policy: Policy) {
    forall p | p in policy.Everything() :: ParentsListed(p, policy.containers)
  }

  lemma ParentsAre(d: Document, digest: string)
    ensures ParentsListedAll(PolicyFrom(d, digest)) <==> OpenAbove(d)
  {
    var policy := PolicyFrom(d, digest);
    if ParentsListedAll(policy) {
      forall p, a | Listed(d, p) && a != [] && a < p
        ensures a in d.containers
      {
        assert p in policy.Everything() && a == p[..|a|];
      }
    }
    if OpenAbove(d) {
      forall p, k | p in policy.Everything() && 0 < k < |p|
        ensures p[..k] in policy.containers
      {
        assert Listed(d, p) && p[..k] < p && p[..k] != [];
      }
    }
  }

  lemma PermanentIs(d: Document)
    ensures PathSet(d.permanent) == {KNOWLEDGE} <==> forall p :: p in d.permanent <==> p == ["knowledge"]
  {
    assert forall p :: p in PathSet(d.permanent) <==> p in d.permanent;
  }

  lemma PolicyIs(d: Document, digest: string)
    requires IsDigest(digest) && AllGroups(d) && PathSet(d.permanent) == {KNOWLEDGE} && WORK in d.task
    ensures PolicyOk(PolicyFrom(d, digest)) <==> DisjointClasses(PolicyFrom(d, digest)) && OpenAbove(d)
  {
    var policy := PolicyFrom(d, digest);
    ParentsAre(d, digest);
    GroupsAre(d);
    PathsBelowRoot(d, digest);
    assert KNOWLEDGE in policy.permanent && WORK in policy.task;
  }

  lemma GroupsAre(d: Document)
    ensures AllGroups(d) <==>
      GroupOk(d.permanent) && GroupOk(d.infrastructure) && GroupOk(d.task) && GroupOk(d.containers)
  {
    GroupIs(d.permanent);
    GroupIs(d.infrastructure);
    GroupIs(d.task);
    GroupIs(d.containers);
  }

  /** load_policy accepts exactly the documents that are in order. */
  lemma AcceptedExactly(d: Document, digest: string)
    requires IsDigest(digest)
    ensures LoadPolicy(d, digest).Ok? <==> IsPolicyDocument(d)
  {
    GroupsAre(d);
    PermanentIs(d);
    if AllGroups(d) && PathSet(d.permanent) == {KNOWLEDGE} && WORK in d.task {
      PolicyIs(d, digest);
      ClassesAre(d, digest);
    }
  }

  /** Either path is the other or lies below it. */
  predicate Overlaps(left: Path, right: Path) {
    left == right || left < right || right < left
  }
}
