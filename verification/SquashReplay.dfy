/** Replaying commits on a tree, and which reorderings keep the final tree. */
module SquashReplay {
  import opened Sequences
  import opened Wrappers

  type Blob = seq<int>

  type Files = map<string, Blob>

  /** What a commit does to one path: it expects `before` and leaves `after`; None is absence. */
  datatype Change = Change(before: Option<Blob>, after: Option<Blob>)

  type Patch = map<string, Change>

  function At(t: Files, p: string): Option<Blob> {
    if p in t then Some(t[p]) else None
  }

  predicate Applies(t: Files, patch: Patch) {
    forall p | p in patch :: At(t, p) == patch[p].before
  }

  function Patched(t: Files, patch: Patch): (u: Files)
    ensures forall p :: At(u, p) == if p in patch then patch[p].after else At(t, p)
  {
    map p | p in t.Keys + patch.Keys && (p in patch ==> patch[p].after.Some?) ::
      if p in patch then patch[p].after.value else t[p]
  }

  /** The patch of commit `k`; a number that is no commit changes nothing. */
  function PatchAt(patches: seq<Patch>, k: nat): Patch {
    if k < |patches| then patches[k] else map[]
  }

  /** Cherry-picking `order` on `t`: the final tree, or None at the first conflict. */
  function Replay(t: Files, patches: seq<Patch>, order: seq<nat>): Option<Files>
    decreases order
  {
    if order == [] then Some(t)
    else if !Applies(t, PatchAt(patches, order[0])) then None
    else Replay(Patched(t, PatchAt(patches, order[0])), patches, order[1..])
  }

  predicate Apart(a: Patch, b: Patch) {
    a.Keys !! b.Keys
  }

  lemma SameFiles(t: Files, u: Files)
    requires forall p :: At(t, p) == At(u, p)
    ensures t == u
  {
    forall p
      ensures p in t <==> p in u
      ensures p in t ==> t[p] == u[p]
    {
      assert At(t, p) == At(u, p);
    }
  }

  /** Commits that touch different paths apply in either order, to the same tree. */
  lemma Commute(t: Files, a: Patch, b: Patch)
    requires Apart(a, b) && Applies(t, a) && Applies(Patched(t, a), b)
    ensures Applies(t, b) && Applies(Patched(t, b), a)
    ensures Patched(Patched(t, b), a) == Patched(Patched(t, a), b)
  {
    forall p | p in b
      ensures At(t, p) == b[p].before
    {
      assert At(Patched(t, a), p) == b[p].before;
    }
    SameFiles(Patched(Patched(t, b), a), Patched(Patched(t, a), b));
  }

  /** The first commit can move behind others that touch different paths. */
  lemma {:induction false} MoveBack(t: Files, patches: seq<Patch>, x: nat, u: seq<nat>, v: seq<nat>)
    requires forall k | k in u :: Apart(PatchAt(patches, x), PatchAt(patches, k))
    requires Replay(t, patches, [x] + u + v).Some?
    ensures Replay(t, patches, u + [x] + v) == Replay(t, patches, [x] + u + v)
    decreases |u|
  {
    if u == [] {
      assert u + [x] + v == [x] + u + v;
    } else {
      var y, rest := u[0], u[1..];
      assert u + v == [y] + (rest + v);
      assert ([x] + u + v)[1..] == [y] + (rest + v) && ([y] + (rest + v))[1..] == rest + v;
      assert (u + [x] + v)[0] == y && (u + [x] + v)[1..] == rest + [x] + v;
      assert ([x] + rest + v)[1..] == rest + v;
      Commute(t, PatchAt(patches, x), PatchAt(patches, y));
      MoveBack(Patched(t, PatchAt(patches, y)), patches, x, rest, v);
    }
  }

  predicate Ascending(s: seq<nat>) {
    forall i, j | 0 <= i < j < |s| :: s[i] < s[j]
  }

  /** Whatever `order` swaps touches different paths. */
  predicate SwapsApart(patches: seq<Patch>, order: seq<nat>)
  {
    forall i, j | 0 <= i < j < |order| && order[i] > order[j] ::
      Apart(PatchAt(patches, order[j]), PatchAt(patches, order[i]))
  }

  lemma MembersOfNone(s: seq<nat>, t: seq<nat>)
    requires forall k | k in s :: k in t
    ensures t == [] ==> s == []
  {
    if s != [] {
      assert s[0] in s;
    }
  }

  /** An order that only swaps commits with different paths replays a clean history to the same tree. */
  lemma {:induction false} Reorder(t: Files, patches: seq<Patch>, history: seq<nat>, order: seq<nat>)
    requires Ascending(history) && NoTwice(order)
    requires forall k :: k in order <==> k in history
    requires SwapsApart(patches, order)
    requires Replay(t, patches, history).Some?
    ensures Replay(t, patches, order) == Replay(t, patches, history)
    decreases |history|
  {
    if order == [] {
      MembersOfNone(history, order);
    } else {
      MembersOfNone(order, history);
      var x := history[0];
      var p := PlaceOf(order, x);
      var u, v := order[..p], order[p + 1..];
      FirstRemoved(history, order, p);
      SwapsApartWithout(patches, order, p);
      BeforeFirstApart(patches, history, order, p);
      Reorder(Patched(t, PatchAt(patches, x)), patches, history[1..], u + v);
      FirstReplayed(t, patches, x, u, v);
      MoveBack(t, patches, x, u, v);
      SplitAt(order, p);
    }
  }

  lemma SplitAt(order: seq<nat>, p: nat)
    requires p < |order|
    ensures order == order[..p] + [order[p]] + order[p + 1..]
  {
  }

  lemma PlaceOf(order: seq<nat>, x: nat) returns (p: nat)
    requires x in order
    ensures p < |order| && order[p] == x
  {
    p :| 0 <= p < |order| && order[p] == x;
  }

  lemma {:induction false} FirstReplayed(t: Files, patches: seq<Patch>, x: nat, u: seq<nat>, v: seq<nat>)
    requires Applies(t, PatchAt(patches, x))
    ensures Replay(t, patches, [x] + u + v) == Replay(Patched(t, PatchAt(patches, x)), patches, u + v)
  {
    assert ([x] + u + v)[1..] == u + v;
  }

  lemma BeforeFirstApart(patches: seq<Patch>, history: seq<nat>, order: seq<nat>, p: nat)
    requires Ascending(history) && NoTwice(order) && history != []
    requires forall k :: k in order <==> k in history
    requires SwapsApart(patches, order)
    requires p < |order| && order[p] == history[0]
    ensures forall k | k in order[..p] :: Apart(PatchAt(patches, history[0]), PatchAt(patches, k))
  {
    forall k | k in order[..p]
      ensures Apart(PatchAt(patches, history[0]), PatchAt(patches, k))
    {
      var i :| 0 <= i < p && order[i] == k;
      assert k in order && k in history && k != history[0];
    }
  }

  lemma FirstRemoved(history: seq<nat>, order: seq<nat>, p: nat)
    requires Ascending(history) && NoTwice(order) && history != []
    requires forall k :: k in order <==> k in history
    requires p < |order| && order[p] == history[0]
    ensures Ascending(history[1..]) && NoTwice(order[..p] + order[p + 1..])
    ensures forall k :: k in order[..p] + order[p + 1..] <==> k in history[1..]
    ensures forall k | k in history[1..] :: k > history[0]
  {
    var rest := order[..p] + order[p + 1..];
    forall i | 0 <= i < |rest|
      ensures rest[i] == order[if i < p then i else i + 1]
    {
    }
    forall k | k in history[1..]
      ensures k in rest && k > history[0]
    {
      assert k in history;
      var i :| 0 <= i < |order| && order[i] == k;
      assert i != p;
      assert rest[if i < p then i else i - 1] == k;
    }
    forall k | k in rest
      ensures k in history[1..]
    {
      var i :| 0 <= i < |rest| && rest[i] == k;
      assert k in order && k != order[p];
      assert k in history;
    }
  }

  lemma SwapsApartWithout(patches: seq<Patch>, order: seq<nat>, p: nat)
    requires p < |order|
    requires SwapsApart(patches, order)
    ensures SwapsApart(patches, order[..p] + order[p + 1..])
  {
    var rest := order[..p] + order[p + 1..];
    forall i | 0 <= i < |rest|
      ensures rest[i] == order[if i < p then i else i + 1] && rest[i] in order
    {
    }
  }
}
