/**
 * The order of a squash, from the owners alone: `w[k]` is the pick commit `k`
 * belongs to, itself for a pick and an earlier pick for a fixup.
 */
module SquashOrder {
  import opened SquashReplay

  ghost predicate IsOwners(w: seq<nat>) {
    forall k | 0 <= k < |w| :: w[k] <= k && w[w[k]] == w[k]
  }

  /** The fixups among the first `n` commits that belong to pick `o`, oldest first. */
  function FixupsOf(w: seq<nat>, o: nat, n: nat): (s: seq<nat>)
    requires n <= |w|
    ensures forall k: nat :: k in s <==> o < k < n && w[k] == o
    ensures Ascending(s)
  {
    if n == 0 then []
    else
      var s := FixupsOf(w, o, n - 1);
      assert forall i | 0 <= i < |s| :: s[i] in s;
      if o < n - 1 && w[n - 1] == o then s + [n - 1] else s
  }

  function Block(w: seq<nat>, o: nat): seq<nat> {
    [o] + FixupsOf(w, o, |w|)
  }

  /** The first `n` commits' picks, each with all its fixups behind it. */
  function Order(w: seq<nat>, n: nat): seq<nat>
    requires n <= |w|
  {
    if n == 0 then []
    else if w[n - 1] != n - 1 then Order(w, n - 1)
    else Order(w, n - 1) + Block(w, n - 1)
  }

  /** Commit `a` comes before `b` in the todo: by the pick they belong to, then as in the history. */
  predicate TodoBefore(w: seq<nat>, a: nat, b: nat) {
    a < |w| && b < |w| && (w[a] < w[b] || (w[a] == w[b] && a < b))
  }

  ghost predicate InTodoOrder(w: seq<nat>, s: seq<nat>) {
    forall i, j | 0 <= i < j < |s| :: TodoBefore(w, s[i], s[j])
  }

  lemma BlockInOrder(w: seq<nat>, o: nat)
    requires IsOwners(w) && o < |w| && w[o] == o
    ensures InTodoOrder(w, Block(w, o))
    ensures forall k: nat :: k in Block(w, o) <==> k < |w| && w[k] == o
  {
    var f, s := FixupsOf(w, o, |w|), Block(w, o);
    forall k: nat
      ensures k in s <==> k < |w| && w[k] == o
    {
      assert k in s <==> k == o || k in f;
    }
    forall i, j | 0 <= i < j < |s|
      ensures TodoBefore(w, s[i], s[j])
    {
      assert s[i] in s && s[j] in s && s[j] == f[j - 1];
      assert f[j - 1] in f;
      assert i > 0 ==> s[i] == f[i - 1];
    }
  }

  /** In todo order, nothing but fixups of the same pick comes between a pick and one of its fixups. */
  lemma Together(w: seq<nat>, s: seq<nat>, a: nat, b: nat)
    requires IsOwners(w) && InTodoOrder(w, s) && a < |s| && b < |s|
    requires s[b] < |w| && s[a] == w[s[b]] && s[a] < s[b]
    ensures a < b && forall j | a < j <= b :: s[j] < |w| && w[s[j]] < s[j]
  {
    assert forall j | 0 <= j < a :: TodoBefore(w, s[j], s[a]);
    forall j | a < j <= b
      ensures s[j] < |w| && w[s[j]] < s[j]
    {
      assert TodoBefore(w, s[a], s[j]);
      assert j < b ==> TodoBefore(w, s[j], s[b]);
    }
  }

  /** Blocks in the order of their picks are in todo order. */
  lemma BlockAppended(w: seq<nat>, s: seq<nat>, t: seq<nat>, o: nat)
    requires InTodoOrder(w, s) && InTodoOrder(w, t)
    requires forall k | k in s :: k < |w| && w[k] < o
    requires forall k | k in t :: k < |w| && w[k] == o
    ensures InTodoOrder(w, s + t)
  {
    forall i, j | 0 <= i < |s| && 0 <= j < |t|
      ensures TodoBefore(w, s[i], t[j])
    {
      assert s[i] in s && t[j] in t;
    }
  }

  lemma MembersAppended(w: seq<nat>, s: seq<nat>, t: seq<nat>, n: nat)
    requires forall k: nat :: k in s <==> k < |w| && w[k] < n
    requires forall k: nat :: k in t <==> k < |w| && w[k] == n
    ensures forall k: nat :: k in s + t <==> k < |w| && w[k] < n + 1
  {
  }

  /** The todo holds every commit, in todo order. */
  lemma {:induction false} OrderInOrder(w: seq<nat>, n: nat)
    requires IsOwners(w) && n <= |w|
    ensures InTodoOrder(w, Order(w, n))
    ensures forall k: nat :: k in Order(w, n) <==> k < |w| && w[k] < n
    decreases n
  {
    if n > 0 {
      var m := n - 1;
      OrderInOrder(w, m);
      if w[m] == m {
        BlockInOrder(w, m);
        BlockAppended(w, Order(w, m), Block(w, m), m);
        MembersAppended(w, Order(w, m), Block(w, m), m);
      } else {
        NoneOwned(w, m);
      }
    }
  }

  /** A commit that is no pick owns nothing. */
  lemma NoneOwned(w: seq<nat>, m: nat)
    requires IsOwners(w) && m < |w| && w[m] != m
    ensures forall k | 0 <= k < |w| :: w[k] != m
  {
  }

  function AllCommits(n: nat): (s: seq<nat>)
    ensures Ascending(s) && forall k: nat :: k in s <==> k < n
  {
    if n == 0 then []
    else
      var s := AllCommits(n - 1);
      assert forall i | 0 <= i < |s| :: s[i] in s;
      s + [n - 1]
  }
}
