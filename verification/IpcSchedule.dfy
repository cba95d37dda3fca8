/** Round-robin scheduling: which slot `schedule` picks, and how long a
    runnable slot can wait for its turn. */
module IpcSchedule {
  import opened IpcState

  /** How many places `q` lies ahead of `cur`, from 1 to `n`. */
  function Distance(n: nat, cur: nat, q: nat): (k: nat)
    requires cur < n && q < n
    ensures 1 <= k <= n && Ahead(n, cur, k) == q
  {
    if cur < q then q - cur else n - (cur - q)
  }

  /** `r` is the first runnable slot after `cur` in cyclic order. */
  ghost predicate IsNext(procs: seq<Proc>, cur: nat, r: nat)
    requires cur < |procs|
  {
    && Runnable(procs, r)
    && (forall j: nat :: 1 <= j < Distance(|procs|, cur, r) ==> !Runnable(procs, Ahead(|procs|, cur, j)))
  }

  lemma {:induction false} NextFromFinds(procs: seq<Proc>, cur: nat, k: nat, q: nat)
    requires cur < |procs| && 1 <= k && Runnable(procs, q) && k <= Distance(|procs|, cur, q)
    requires forall j: nat :: 1 <= j < k ==> !Runnable(procs, Ahead(|procs|, cur, j))
    ensures IsNext(procs, cur, NextFrom(procs, cur, k))
    ensures Distance(|procs|, cur, NextFrom(procs, cur, k)) <= Distance(|procs|, cur, q)
    decreases |procs| - k
  {
    if !Runnable(procs, Ahead(|procs|, cur, k)) {
      NextFromFinds(procs, cur, k + 1, q);
    }
  }

  /** As long as some slot is runnable, scheduling picks the next runnable one,
      and never passes over a runnable slot. */
  lemma NextReadyIsNext(procs: seq<Proc>, cur: nat, q: nat)
    requires cur < |procs| && Runnable(procs, q)
    ensures IsNext(procs, cur, NextReady(procs, cur))
    ensures Distance(|procs|, cur, NextReady(procs, cur)) <= Distance(|procs|, cur, q)
  {
    NextFromFinds(procs, cur, 1, q);
  }

  /** The slots picked by one `schedule` call per table, starting from `cur`. */
  function Picks(n: nat, tables: seq<seq<Proc>>, cur: nat): (picks: seq<nat>)
    requires cur < n && (forall i :: 0 <= i < |tables| ==> |tables[i]| == n)
    ensures |picks| == |tables|
  {
    if tables == [] then [] else
      var r := NextReady(tables[0], cur);
      [r] + Picks(n, tables[1..], r)
  }

  /** Every pick either is `q` or comes strictly closer to it. */
  lemma {:induction false} PickedWithin(n: nat, tables: seq<seq<Proc>>, cur: nat, q: nat)
    requires cur < n && q < n && (forall i :: 0 <= i < |tables| ==> |tables[i]| == n && Runnable(tables[i], q))
    requires |tables| >= Distance(n, cur, q)
    ensures q in Picks(n, tables, cur)[..Distance(n, cur, q)]
    decreases |tables|
  {
    var r := NextReady(tables[0], cur);
    NextReadyIsNext(tables[0], cur, q);
    var rest := Picks(n, tables[1..], r);
    if r != q {
      PickedWithin(n, tables[1..], r, q);
      assert Distance(n, r, q) < Distance(n, cur, q);
      var i :| 0 <= i < Distance(n, r, q) && rest[i] == q;
      assert Picks(n, tables, cur)[i + 1] == q;
    } else {
      assert Picks(n, tables, cur)[0] == q;
    }
  }

  /** A slot that stays runnable runs within `n` scheduling decisions, however
      the other slots change in between. */
  lemma BoundedWaiting(n: nat, tables: seq<seq<Proc>>, cur: nat, q: nat)
    requires cur < n && q < n && |tables| >= n
    requires forall i :: 0 <= i < |tables| ==> |tables[i]| == n && Runnable(tables[i], q)
    ensures q in Picks(n, tables, cur)[..n]
  {
    PickedWithin(n, tables, cur, q);
    var i :| 0 <= i < Distance(n, cur, q) && Picks(n, tables, cur)[..Distance(n, cur, q)][i] == q;
    assert Picks(n, tables, cur)[..n][i] == q;
  }
}
