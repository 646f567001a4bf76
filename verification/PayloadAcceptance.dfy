/** What can be sent, said of the tree and the entries alone. */
module PayloadAcceptance {
  import opened FileTree
  import opened PayloadGraph
  import opened PayloadMembers
  import opened PayloadListing

  /** The node a slot stands for. */
  function NodeAt(t: Tree<Bytes>, entries: seq<Entry>, s: Slot): Node<Bytes>
    requires InPayload(t, entries, s)
  {
    t[entries[s.0].source + s.1]
  }

  /** Where the node goes in the archive. */
  function PlaceAt(t: Tree<Bytes>, entries: seq<Entry>, s: Slot): Path
    requires InPayload(t, entries, s)
  {
    entries[s.0].archive + s.1
  }

  /** A path with at least one name, and only names. */
  predicate IsPlace(q: Path) {
    q != [] && "" !in q && "." !in q && ".." !in q && forall name | name in q :: '\0' !in name
  }

  /** A directory, a file, or a link by a relative text that does not climb out of the payload. */
  predicate CanBeMember(q: Path, kind: Kind<Bytes>)
    requires q != []
  {
    match kind
    case Directory => true
    case Regular(_) => true
    case Symlink(target) => target != [] && target[0] != "" && !ClimbsFrom(0, Parent(q) + target)
    case Special => false
  }

  predicate NodeCanBeSent(t: Tree<Bytes>, entries: seq<Entry>, s: Slot)
    requires InPayload(t, entries, s)
  {
    IsPlace(PlaceAt(t, entries, s)) && CanBeMember(PlaceAt(t, entries, s), NodeAt(t, entries, s).kind)
  }

  /** No two nodes meet in one place, and only a directory has others below it. */
  predicate NodesApart(t: Tree<Bytes>, entries: seq<Entry>, s: Slot, z: Slot)
    requires InPayload(t, entries, s) && InPayload(t, entries, z)
  {
    && PlaceAt(t, entries, s) != PlaceAt(t, entries, z)
    && (PlaceAt(t, entries, s) < PlaceAt(t, entries, z) ==> NodeAt(t, entries, s).kind.Directory?)
  }

  /** `at` has each slot of the payload once. */
  ghost predicate IsPayload(t: Tree<Bytes>, entries: seq<Entry>, at: seq<Slot>) {
    && (forall i, j | 0 <= i < j < |at| :: at[i] != at[j])
    && forall s: Slot :: s in at <==> InPayload(t, entries, s)
  }

  function ItemAt(t: Tree<Bytes>, entries: seq<Entry>, s: Slot): Item
    requires InPayload(t, entries, s)
  {
    Item(PlaceAt(t, entries, s), NodeAt(t, entries, s).kind, NodeAt(t, entries, s).mode)
  }

  function ItemsAt(t: Tree<Bytes>, entries: seq<Entry>, at: seq<Slot>): (m: seq<Item>)
    requires forall s | s in at :: InPayload(t, entries, s)
    ensures |m| == |at| && forall i | 0 <= i < |at| :: m[i] == ItemAt(t, entries, at[i])
  {
    seq(|at|, i requires 0 <= i < |at| => ItemAt(t, entries, at[i]))
  }

  /** The nodes are no more than allowed, nor are the bytes in them, and every link resolves inside. */
  ghost predicate WithinLimits(t: Tree<Bytes>, entries: seq<Entry>, l: Limits, at: seq<Slot>)
    requires forall s | s in at :: InPayload(t, entries, s)
  {
    |at| <= l.members && |Contents(ItemsAt(t, entries, at))| <= l.bytes && AllResolve(ItemsAt(t, entries, at))
  }

  /** The inputs exist, each node can be sent, they do not meet, and all of them are within the limits. */
  ghost predicate Acceptable(t: Tree<Bytes>, entries: seq<Entry>, l: Limits) {
    && (forall e | e in entries :: e.source in t)
    && (forall s: Slot | InPayload(t, entries, s) :: NodeCanBeSent(t, entries, s))
    && (forall s: Slot, z: Slot | InPayload(t, entries, s) && InPayload(t, entries, z) && s != z ::
          NodesApart(t, entries, s, z))
    && exists at :: IsPayload(t, entries, at) && WithinLimits(t, entries, l, at)
  }

  lemma ItemCanBeSent(t: Tree<Bytes>, entries: seq<Entry>, s: Slot)
    requires InPayload(t, entries, s)
    ensures ItemOk(ItemAt(t, entries, s)) <==> NodeCanBeSent(t, entries, s)
  {
    var q := PlaceAt(t, entries, s);
    if q != [] && NodeAt(t, entries, s).kind.Symlink? {
      SafeTargetStays(q, NodeAt(t, entries, s).kind.target);
    }
  }

  lemma {:induction false} ItemsAreListed(t: Tree<Bytes>, entries: seq<Entry>, at: seq<Slot>, m: seq<Listed>)
    requires Lists(t, entries, at, m)
    ensures forall s | s in at :: InPayload(t, entries, s)
    ensures Items(m) == ItemsAt(t, entries, at)
  {
    forall i | 0 <= i < |at|
      ensures Items(m)[i] == ItemAt(t, entries, at[i])
    {
      assert m[i] == ListedAt(t, entries, at[i]);
    }
  }

  lemma SentNode(t: Tree<Bytes>, entries: seq<Entry>, l: Limits, at: seq<Slot>, m: seq<Listed>, s: Slot)
    requires SentAs(t, entries, l, at, m) && InPayload(t, entries, s)
    ensures NodeCanBeSent(t, entries, s)
  {
    ItemsAreListed(t, entries, at, m);
    assert s in at;
    var i :| 0 <= i < |at| && at[i] == s;
    assert ItemOk(Items(m)[i]);
    ItemCanBeSent(t, entries, s);
  }

  lemma FittingApart(m: seq<Item>, l: Limits, i: nat, j: nat)
    requires Fits(m, l) && i < |m| && j < |m| && i != j
    ensures m[i].name != m[j].name && (m[i].name < m[j].name ==> m[i].kind.Directory?)
  {
  }

  lemma SentApart(t: Tree<Bytes>, entries: seq<Entry>, l: Limits, at: seq<Slot>, m: seq<Listed>, s: Slot, z: Slot)
    requires SentAs(t, entries, l, at, m) && InPayload(t, entries, s) && InPayload(t, entries, z) && s != z
    ensures NodesApart(t, entries, s, z)
  {
    ItemsAreListed(t, entries, at, m);
    var i := SlotAt(t, entries, at, s);
    var j := SlotAt(t, entries, at, z);
    FittingApart(Items(m), l, i, j);
    assert Items(m)[i] == ItemAt(t, entries, s) && Items(m)[j] == ItemAt(t, entries, z);
  }

  lemma SlotAt(t: Tree<Bytes>, entries: seq<Entry>, at: seq<Slot>, s: Slot) returns (i: nat)
    requires Complete(t, entries, at) && InPayload(t, entries, s)
    ensures i < |at| && at[i] == s
  {
    assert s in at;
    i :| 0 <= i < |at| && at[i] == s;
  }

  lemma SentIsAcceptable(t: Tree<Bytes>, entries: seq<Entry>, l: Limits, at: seq<Slot>, m: seq<Listed>)
    requires (forall e | e in entries :: e.source in t) && SentAs(t, entries, l, at, m)
    ensures Acceptable(t, entries, l)
  {
    forall s: Slot | InPayload(t, entries, s)
      ensures NodeCanBeSent(t, entries, s)
    {
      SentNode(t, entries, l, at, m, s);
    }
    forall s: Slot, z: Slot | InPayload(t, entries, s) && InPayload(t, entries, z) && s != z
      ensures NodesApart(t, entries, s, z)
    {
      SentApart(t, entries, l, at, m, s, z);
    }
    SentWithin(t, entries, l, at, m);
  }

  lemma SentWithin(t: Tree<Bytes>, entries: seq<Entry>, l: Limits, at: seq<Slot>, m: seq<Listed>)
    requires SentAs(t, entries, l, at, m)
    ensures IsPayload(t, entries, at) && WithinLimits(t, entries, l, at)
  {
    ItemsAreListed(t, entries, at, m);
    TotalIsContents(Items(m));
    forall s: Slot
      ensures s in at <==> InPayload(t, entries, s)
    {
      if s in at {
        var i :| 0 <= i < |at| && at[i] == s;
      }
    }
  }

  lemma AcceptableFits(t: Tree<Bytes>, entries: seq<Entry>, l: Limits, at: seq<Slot>)
    requires Acceptable(t, entries, l) && IsPayload(t, entries, at) && WithinLimits(t, entries, l, at)
    ensures Fits(ItemsAt(t, entries, at), l)
  {
    var items := ItemsAt(t, entries, at);
    TotalIsContents(items);
    forall i | 0 <= i < |items|
      ensures ItemOk(items[i])
    {
      assert at[i] in at;
      ItemCanBeSent(t, entries, at[i]);
    }
    forall i, j | 0 <= i < |items| && 0 <= j < |items| && i != j
      ensures items[i].name != items[j].name && (items[i].name < items[j].name ==> items[i].kind.Directory?)
    {
      assert at[i] in at && at[j] in at && at[i] != at[j];
      assert NodesApart(t, entries, at[i], at[j]);
    }
  }

  lemma AcceptableIsSent(t: Tree<Bytes>, entries: seq<Entry>, l: Limits, at: seq<Slot>)
    requires Acceptable(t, entries, l) && IsPayload(t, entries, at) && WithinLimits(t, entries, l, at)
    ensures Sendable(t, entries, l)
  {
    AcceptableFits(t, entries, l, at);
    assert forall i | 0 <= i < |at| :: at[i] in at;
    var m := seq(|at|, i requires 0 <= i < |at| => ListedAt(t, entries, at[i]));
    assert Lists(t, entries, at, m);
    ItemsAreListed(t, entries, at, m);
    assert SentAs(t, entries, l, at, m);
  }

  /** A payload can be sent exactly if it is acceptable. */
  lemma SendableIsAcceptable(t: Tree<Bytes>, entries: seq<Entry>, l: Limits)
    ensures Sendable(t, entries, l) <==> Acceptable(t, entries, l)
  {
    if Sendable(t, entries, l) {
      var at, m :| SentAs(t, entries, l, at, m);
      SentIsAcceptable(t, entries, l, at, m);
    }
    if Acceptable(t, entries, l) {
      var at :| IsPayload(t, entries, at) && WithinLimits(t, entries, l, at);
      AcceptableIsSent(t, entries, l, at);
    }
  }
}
