/** _payload_manifest and write_archive: what is sent is inspected before its first byte. */
module PayloadManifest {
  import opened Wrappers
  import opened FileTree
  import opened PayloadLinks
  import opened PayloadGraph
  import opened PayloadTree
  import opened PayloadMembers
  import opened PayloadListing

  /** The slots of the entries before `k`, and those of entry `k` that are in `seen`. */
  ghost predicate ListedSoFar(t: Tree<Bytes>, entries: seq<Entry>, at: seq<Slot>, k: nat, seen: seq<Path>) {
    forall s: Slot :: s in at <==> InPayload(t, entries, s) && (s.0 < k || (s.0 == k && s.1 in seen))
  }

  lemma SoFarNext(t: Tree<Bytes>, entries: seq<Entry>, at: seq<Slot>, k: nat, seen: seq<Path>, r: Path)
    requires ListedSoFar(t, entries, at, k, seen) && InPayload(t, entries, (k, r)) && r !in seen
    ensures (k, r) !in at && ListedSoFar(t, entries, at + [(k, r)], k, seen + [r])
  {
    forall s: Slot
      ensures s in at + [(k, r)] <==> InPayload(t, entries, s) && (s.0 < k || (s.0 == k && s.1 in seen + [r]))
    {
      assert s in at + [(k, r)] <==> s in at || s == (k, r);
      assert s.1 in seen + [r] <==> s.1 in seen || s.1 == r;
    }
  }

  /** What is kept while the manifest grows. */
  ghost predicate Growing(t: Tree<Bytes>, entries: seq<Entry>, l: Limits, at: seq<Slot>, m: seq<Listed>,
                          kinds: map<Path, Member>, links: map<Path, seq<string>>, total: nat) {
    && Lists(t, entries, at, m) && Fits(Items(m), l)
    && kinds == KindsOf(Items(m)) && links == LinksOf(Items(m)) && total == Total(Items(m))
  }

  /** The checks on one more member. */
  predicate Accepts(kinds: map<Path, Member>, count: nat, total: nat, x: Item, l: Limits) {
    Admitted(kinds, x) && count < l.members && total + Size(x) <= l.bytes
  }

  lemma GrowingNext(t: Tree<Bytes>, entries: seq<Entry>, l: Limits, at: seq<Slot>, m: seq<Listed>,
                    kinds: map<Path, Member>, links: map<Path, seq<string>>, total: nat, s: Slot)
    requires Growing(t, entries, l, at, m, kinds, links, total) && InPayload(t, entries, s) && s !in at
    ensures var x := ListedAt(t, entries, s);
      if Accepts(kinds, |m|, total, x.item, l) then
        Growing(t, entries, l, at + [s], m + [x], kinds[x.item.name := MemberOf(x.item.kind)],
                if x.item.kind.Symlink? then links[x.item.name := x.item.kind.target] else links, total + Size(x.item))
      else Unfit(t, entries, at + [s], m + [x], l)
  {
    var x := ListedAt(t, entries, s);
    ListsNext(t, entries, at, m, s);
    ItemsNext(m, x);
    FitsNext(Items(m), x.item, l);
    assert (Items(m) + [x.item])[..|m|] == Items(m);
  }

  /** Every node of one entry is inspected and listed, or the first unfit one is reported. */
  method ListEntry(t: Tree<Bytes>, entries: seq<Entry>, k: nat, l: Limits, nodes: seq<Path>, manifest: seq<Listed>,
                   kinds: map<Path, Member>, links: map<Path, seq<string>>, total: nat, ghost at: seq<Slot>)
      returns (ok: bool, manifest': seq<Listed>, kinds': map<Path, Member>, links': map<Path, seq<string>>, total': nat,
               ghost at': seq<Slot>)
    requires k < |entries| && Enumerates(t, entries[k].source, nodes)
    requires Growing(t, entries, l, at, manifest, kinds, links, total) && ListedSoFar(t, entries, at, k, [])
    ensures ok ==> Growing(t, entries, l, at', manifest', kinds', links', total')
    ensures ok ==> ListedSoFar(t, entries, at', k, nodes)
    ensures !ok ==> Unfit(t, entries, at', manifest', l)
  {
    ok, manifest', kinds', links', total', at' := true, manifest, kinds, links, total, at;
    assert nodes[..0] == [];
    for i := 0 to |nodes|
      invariant Growing(t, entries, l, at', manifest', kinds', links', total')
      invariant ListedSoFar(t, entries, at', k, nodes[..i])
    {
      var r := nodes[i];
      assert r in nodes && r !in nodes[..i] && nodes[..i + 1] == nodes[..i] + [r];
      var x := ListedAt(t, entries, (k, r));
      SoFarNext(t, entries, at', k, nodes[..i], r);
      GrowingNext(t, entries, l, at', manifest', kinds', links', total', (k, r));
      at' := at' + [(k, r)];
      if !Accepts(kinds', |manifest'|, total', x.item, l) {
        manifest' := manifest' + [x];
        return false, manifest', kinds', links', total', at';
      }
      total' := total' + Size(x.item);
      if x.item.kind.Symlink? {
        links' := links'[x.item.name := x.item.kind.target];
      }
      kinds' := kinds'[x.item.name := MemberOf(x.item.kind)];
      manifest' := manifest' + [x];
    }
    assert nodes[..|nodes|] == nodes;
  }

  lemma EntryListed(t: Tree<Bytes>, entries: seq<Entry>, at: seq<Slot>, k: nat, nodes: seq<Path>)
    requires k < |entries| && Enumerates(t, entries[k].source, nodes) && ListedSoFar(t, entries, at, k, nodes)
    ensures ListedSoFar(t, entries, at, k + 1, [])
  {
  }

  predicate Present(t: Tree<Bytes>, entries: seq<Entry>, k: nat)
    requires k <= |entries|
  {
    forall i | 0 <= i < k :: entries[i].source in t
  }

  lemma MissingInput(t: Tree<Bytes>, entries: seq<Entry>, l: Limits, k: nat)
    requires k < |entries| && entries[k].source !in t
    ensures !Sendable(t, entries, l)
  {
    assert entries[k] in entries;
  }

  lemma {:induction false} CanBeSent(t: Tree<Bytes>, entries: seq<Entry>, l: Limits, at: seq<Slot>,
                                     manifest: seq<Listed>)
    requires Lists(t, entries, at, manifest) && Fits(Items(manifest), l) && AllResolve(Items(manifest))
    requires ListedSoFar(t, entries, at, |entries|, []) && Present(t, entries, |entries|)
    ensures SentAs(t, entries, l, at, manifest) && Sendable(t, entries, l)
  {
    assert Complete(t, entries, at);
    assert SentAs(t, entries, l, at, manifest);
  }

  lemma {:induction false} CannotBeSent(t: Tree<Bytes>, entries: seq<Entry>, l: Limits, at: seq<Slot>,
                                        manifest: seq<Listed>)
    requires Lists(t, entries, at, manifest) && !AllResolve(Items(manifest))
    requires ListedSoFar(t, entries, at, |entries|, [])
    ensures !Sendable(t, entries, l)
  {
    assert Complete(t, entries, at);
    UnfitIsFinal(t, entries, l, at, manifest);
  }

  /**
   * _payload_manifest: a manifest exactly when the payload can be sent, and then
   * it lists every node of every entry once, as members that fit and whose links
   * all resolve inside the payload.
   */
  method Manifest(t: Tree<Bytes>, entries: seq<Entry>, l: Limits)
      returns (r: Result<seq<Listed>, string>, ghost at: seq<Slot>)
    requires WellFormed(t)
    ensures r.Ok? <==> Sendable(t, entries, l)
    ensures r.Ok? ==> SentAs(t, entries, l, at, r.value)
  {
    var kinds: map<Path, Member> := map[];
    var links: map<Path, seq<string>> := map[];
    var manifest: seq<Listed> := [];
    var total: nat := 0;
    at := [];
    for k := 0 to |entries|
      invariant Growing(t, entries, l, at, manifest, kinds, links, total)
      invariant ListedSoFar(t, entries, at, k, [])
      invariant Present(t, entries, k)
    {
      var listed := IterTree(t, entries[k].source);
      if listed.Err? {
        MissingInput(t, entries, l, k);
        return Err(listed.error), at;
      }
      var ok;
      ok, manifest, kinds, links, total, at :=
        ListEntry(t, entries, k, l, listed.value, manifest, kinds, links, total, at);
      if !ok {
        UnfitIsFinal(t, entries, l, at, manifest);
        return Err("unsafe, duplicate or oversized payload member"), at;
      }
      EntryListed(t, entries, at, k, listed.value);
    }
    FittingLinks(Items(manifest), l);
    var graph := ValidateSymlinkGraph(Payload(kinds, links));
    assert graph.Ok? <==> AllResolve(Items(manifest));
    if graph.Err? {
      CannotBeSent(t, entries, l, at, manifest);
      return Err(graph.error), at;
    }
    CanBeSent(t, entries, l, at, manifest);
    return Ok(manifest), at;
  }
}
