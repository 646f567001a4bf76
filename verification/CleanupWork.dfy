/** How many atomic changes a cleanup still needs. */
module CleanupWork {
  import opened CleanupRecords
  import opened CleanupTransaction

  /** The changes a target still needs: rename, phase, one per entry, phase again; or one unlink. */
  function Work(directory: bool, v: View): nat {
    if !directory then if v.here == map[] then 0 else 1
    else if v.here != map[] then |v.here| + 3
    else if v.phase != map[] then |v.staged| + 1
    else if v.staged != map[] then |v.staged| + 2
    else 0
  }

  function Sum(s: seq<nat>): nat {
    if s == [] then 0 else s[0] + Sum(s[1..])
  }

  function Works(tx: Transaction, t: Disk): seq<nat> {
    seq(|tx.plan.targets|, i requires 0 <= i < |tx.plan.targets| =>
      Work(IsDirectoryTarget(tx.plan, i), ViewOf(tx, t, i)))
  }

  /** All the changes a cleanup still needs, the marker's removal last. */
  function WorkLeft(tx: Transaction, t: Disk): nat {
    Sum(Works(tx, t)) + if MarkerPath(tx) in t then 1 else 0
  }

  lemma {:induction false} SumUpdate(s: seq<nat>, i: nat, v: nat)
    requires i < |s|
    ensures Sum(s[i := v]) == Sum(s) - s[i] + v
  {
    if i == 0 {
      assert s[i := v][1..] == s[1..];
    } else {
      SumUpdate(s[1..], i - 1, v);
      assert s[i := v][1..] == s[1..][i - 1 := v];
    }
  }
}
