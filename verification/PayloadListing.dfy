/** What a payload's entries amount to: its nodes as a list of members, in any order. */
module PayloadListing {
  import opened FileTree
  import opened PayloadLinks
  import opened PayloadMembers

  /** One path of the host, and where it goes in the archive. */
  datatype Entry = Entry(source: Path, archive: Path)

  /** A manifest entry: the member, and the node it was read from. */
  datatype Listed = Listed(source: Path, inode: nat, item: Item)

  /** A node to send: the number of its entry, and its path below the entry's source. */
  type Slot = (nat, Path)

  predicate InPayload(t: Tree<Bytes>, entries: seq<Entry>, at: Slot) {
    at.0 < |entries| && entries[at.0].source + at.1 in t
  }

  function ListedAt(t: Tree<Bytes>, entries: seq<Entry>, at: Slot): Listed
    requires InPayload(t, entries, at)
  {
    var e, r := entries[at.0], at.1;
    var node := t[e.source + r];
    Listed(e.source + r, node.inode, Item(e.archive + r, node.kind, node.mode))
  }

  function Items(m: seq<Listed>): (items: seq<Item>)
    ensures |items| == |m| && forall i | 0 <= i < |m| :: items[i] == m[i].item
  {
    if m == [] then [] else Items(m[..|m| - 1]) + [m[|m| - 1].item]
  }

  /** `m` lists nodes of the payload, each once. */
  ghost predicate Lists(t: Tree<Bytes>, entries: seq<Entry>, at: seq<Slot>, m: seq<Listed>) {
    && |at| == |m| && (forall i, j | 0 <= i < j < |at| :: at[i] != at[j])
    && forall i | 0 <= i < |at| :: InPayload(t, entries, at[i]) && m[i] == ListedAt(t, entries, at[i])
  }

  ghost predicate Complete(t: Tree<Bytes>, entries: seq<Entry>, at: seq<Slot>) {
    forall s: Slot :: InPayload(t, entries, s) ==> s in at
  }

  ghost predicate AllResolve(m: seq<Item>) {
    forall q | q in LinksOf(m) :: q != [] && Resolves(PayloadOf(m), q)
  }

  /** Some list of nodes of the payload cannot be sent. */
  ghost predicate Unfit(t: Tree<Bytes>, entries: seq<Entry>, at: seq<Slot>, m: seq<Listed>, l: Limits) {
    Lists(t, entries, at, m) && (!Fits(Items(m), l) || (Complete(t, entries, at) && !AllResolve(Items(m))))
  }

  ghost predicate SentAs(t: Tree<Bytes>, entries: seq<Entry>, l: Limits, at: seq<Slot>, m: seq<Listed>) {
    Lists(t, entries, at, m) && Complete(t, entries, at) && Fits(Items(m), l) && AllResolve(Items(m))
  }

  /** Every input exists, and the nodes are members that fit and whose links resolve inside the payload. */
  ghost predicate Sendable(t: Tree<Bytes>, entries: seq<Entry>, l: Limits) {
    (forall e | e in entries :: e.source in t) && exists at, m :: SentAs(t, entries, l, at, m)
  }

  lemma {:induction false} ItemsNext(m: seq<Listed>, x: Listed)
    ensures Items(m + [x]) == Items(m) + [x.item]
  {
    assert (m + [x])[..|m|] == m;
  }

  lemma ListsNext(t: Tree<Bytes>, entries: seq<Entry>, at: seq<Slot>, m: seq<Listed>, s: Slot)
    requires Lists(t, entries, at, m) && InPayload(t, entries, s) && s !in at
    ensures Lists(t, entries, at + [s], m + [ListedAt(t, entries, s)])
  {
  }

  // Fewer nodes fit all the more

  lemma {:induction false} TotalAppend(a: seq<Item>, b: seq<Item>)
    ensures Total(a + b) == Total(a) + Total(b)
    decreases |b|
  {
    if b == [] {
      assert a + b == a;
    } else {
      var init := b[..|b| - 1];
      TotalAppend(a, init);
      assert (a + b)[..|a + b| - 1] == a + init;
    }
  }

  function Without(s: seq<Item>, j: nat): (r: seq<Item>)
    requires j < |s|
    ensures |r| == |s| - 1
    ensures forall i | 0 <= i < |s| && i != j :: r[if i < j then i else i - 1] == s[i]
  {
    s[..j] + s[j + 1..]
  }

  lemma SplitAt(m: seq<Item>, j: nat)
    requires j < |m|
    ensures m == m[..j] + ([m[j]] + m[j + 1..])
  {
  }

  lemma TotalOne(x: Item)
    ensures Total([x]) == Size(x)
  {
    assert [x][..0] == [];
  }

  lemma {:induction false} TotalWithout(m: seq<Item>, j: nat)
    requires j < |m|
    ensures Total(m) == Total(Without(m, j)) + Size(m[j])
  {
    var before, x, after := m[..j], [m[j]], m[j + 1..];
    SplitAt(m, j);
    TotalAppend(before, x + after);
    TotalAppend(x, after);
    TotalAppend(before, after);
    TotalOne(m[j]);
  }

  /** The items of `a` stand in `b` at the different places `f`. */
  ghost predicate Within(a: seq<Item>, b: seq<Item>, f: seq<nat>) {
    && |f| == |a| && (forall i, j | 0 <= i < j < |f| :: f[i] != f[j])
    && forall i | 0 <= i < |f| :: f[i] < |b| && b[f[i]] == a[i]
  }

  /** The places `f` once place `j` is taken out. */
  function Shifted(f: seq<nat>, j: nat): (g: seq<nat>)
    requires j !in f
    ensures |g| == |f|
    ensures forall i | 0 <= i < |f| :: g[i] == if f[i] < j then f[i] else f[i] - 1
  {
    if f == [] then [] else Shifted(f[..|f| - 1], j) + [if f[|f| - 1] < j then f[|f| - 1] else f[|f| - 1] - 1]
  }

  lemma {:induction false} WithinLess(a: seq<Item>, b: seq<Item>, f: seq<nat>, j: nat)
    requires Within(a, b, f) && j < |b| && j !in f
    ensures Within(a, Without(b, j), Shifted(f, j))
  {
    var g := Shifted(f, j);
    forall i | 0 <= i < |g|
      ensures g[i] < |b| - 1 && Without(b, j)[g[i]] == a[i]
    {
      assert f[i] in f;
    }
    forall i, k | 0 <= i < k < |g|
      ensures g[i] != g[k]
    {
      assert f[i] in f && f[k] in f;
    }
  }

  lemma {:induction false} FewerItems(a: seq<Item>, b: seq<Item>, f: seq<nat>)
    requires Within(a, b, f)
    ensures |a| <= |b| && Total(a) <= Total(b)
    decreases |a|
  {
    if a != [] {
      var k := |a| - 1;
      var j := f[k];
      WithinLess(a[..k], b, f[..k], j);
      FewerItems(a[..k], Without(b, j), Shifted(f[..k], j));
      TotalWithout(b, j);
    }
  }

  lemma WithinFits(a: seq<Item>, b: seq<Item>, f: seq<nat>, l: Limits)
    requires Within(a, b, f) && Fits(b, l)
    ensures Fits(a, l)
  {
    FewerItems(a, b, f);
    forall i, j | 0 <= i < |a| && 0 <= j < |a| && i != j
      ensures a[i].name != a[j].name && (a[i].name < a[j].name ==> a[i].kind.Directory?)
    {
      assert b[f[i]].name != b[f[j]].name;
    }
  }

  /** What every item of `a` says, `b` says too. */
  lemma {:induction false} WithinPayload(a: seq<Item>, b: seq<Item>, f: seq<nat>, q: Path)
    requires Within(a, b, f) && Distinct(a) && Distinct(b)
    ensures q in KindsOf(a) ==> q in KindsOf(b) && KindsOf(b)[q] == KindsOf(a)[q]
    ensures q in LinksOf(a) ==> q in LinksOf(b) && LinksOf(b)[q] == LinksOf(a)[q]
  {
    KindsAt(a);
    KindsAt(b);
    LinksAt(a);
    LinksAt(b);
    if q in KindsOf(a) {
      var i :| 0 <= i < |a| && a[i].name == q;
      assert b[f[i]].name == q;
    }
    if q in LinksOf(a) {
      var i :| 0 <= i < |a| && a[i].name == q && a[i].kind.Symlink?;
      assert b[f[i]].name == q;
    }
  }

  lemma SamePayload(a: seq<Item>, b: seq<Item>, f: seq<nat>, g: seq<nat>)
    requires Within(a, b, f) && Within(b, a, g) && Distinct(a) && Distinct(b)
    ensures PayloadOf(a) == PayloadOf(b)
  {
    forall q
      ensures q in KindsOf(a) <==> q in KindsOf(b)
      ensures q in LinksOf(a) <==> q in LinksOf(b)
      ensures q in KindsOf(a) ==> KindsOf(b)[q] == KindsOf(a)[q]
      ensures q in LinksOf(a) ==> LinksOf(b)[q] == LinksOf(a)[q]
    {
      WithinPayload(a, b, f, q);
      WithinPayload(b, a, g, q);
    }
    MapsAgree(KindsOf(a), KindsOf(b));
    MapsAgree(LinksOf(a), LinksOf(b));
  }

  lemma MapsAgree<T>(a: map<Path, T>, b: map<Path, T>)
    requires forall q :: q in a <==> q in b
    requires forall q | q in a :: a[q] == b[q]
    ensures a == b
  {
  }

  /** Where the slots `some` stand among the slots `at`. */
  lemma {:induction false} Places(some: seq<Slot>, at: seq<Slot>) returns (f: seq<nat>)
    requires forall s | s in some :: s in at
    ensures |f| == |some| && forall i | 0 <= i < |f| :: f[i] < |at| && at[f[i]] == some[i]
  {
    if some == [] {
      f := [];
    } else {
      var k := |some| - 1;
      assert some[k] in some && forall s | s in some[..k] :: s in some;
      var j: nat :| j < |at| && at[j] == some[k];
      f := Places(some[..k], at);
      f := f + [j];
    }
  }

  lemma ListedWithin(t: Tree<Bytes>, entries: seq<Entry>, some: seq<Slot>, part: seq<Listed>, at: seq<Slot>,
                     m: seq<Listed>) returns (f: seq<nat>)
    requires Lists(t, entries, some, part) && Lists(t, entries, at, m) && Complete(t, entries, at)
    ensures Within(Items(part), Items(m), f)
  {
    f := Places(some, at);
    forall i, j | 0 <= i < j < |f|
      ensures f[i] != f[j]
    {
      assert some[i] != some[j];
    }
  }

  /** A list of the payload's nodes that does not fit, or all of them with a link astray: there is no way to send it. */
  lemma UnfitIsFinal(t: Tree<Bytes>, entries: seq<Entry>, l: Limits, some: seq<Slot>, part: seq<Listed>)
    requires Unfit(t, entries, some, part, l)
    ensures !Sendable(t, entries, l)
  {
    forall at, m | SentAs(t, entries, l, at, m)
      ensures false
    {
      var f := ListedWithin(t, entries, some, part, at, m);
      WithinFits(Items(part), Items(m), f, l);
      var g := ListedWithin(t, entries, at, m, some, part);
      SamePayload(Items(part), Items(m), f, g);
    }
  }
}
