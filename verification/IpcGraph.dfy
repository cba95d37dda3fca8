/** The graph of blocked sends.  Acyclicity is stated on paths; the proofs use
    a rank that every blocked send decreases, and the two are shown equal. */
module IpcGraph {
  import opened IpcState

  ghost predicate InRange(procs: seq<Proc>) {
    forall p: nat :: p < |procs| && procs[p].flags.sending ==> 0 <= procs[p].sendTo < |procs|
  }

  ghost predicate Ranked(procs: seq<Proc>, rank: seq<nat>) {
    && |rank| == |procs|
    && (forall p: nat :: p < |procs| && procs[p].flags.sending && 0 <= procs[p].sendTo < |procs| ==>
          rank[procs[p].sendTo] < rank[p])
  }

  // ---- Paths

  lemma PathBehind(procs: seq<Proc>, a: nat, path: seq<nat>)
    requires Path(procs, path) && a < |procs| && procs[a].flags.sending && procs[a].sendTo == path[0]
    ensures Path(procs, [a] + path)
  {
    forall i: nat | i + 1 < |[a] + path| ensures Hop(procs, [a] + path, i) {
      assert i > 0 ==> Hop(procs, path, i - 1);
    }
  }

  lemma PathOnward(procs: seq<Proc>, path: seq<nat>, b: nat)
    requires Path(procs, path) && b < |procs|
    requires procs[path[|path| - 1]].flags.sending && procs[path[|path| - 1]].sendTo == b
    ensures Path(procs, path + [b])
  {
    forall i: nat | i + 1 < |path + [b]| ensures Hop(procs, path + [b], i) {
      assert i + 1 < |path| ==> Hop(procs, path, i);
    }
  }

  lemma PathPart(procs: seq<Proc>, path: seq<nat>, lo: nat, hi: nat)
    requires Path(procs, path) && lo < hi <= |path|
    ensures Path(procs, path[lo..hi])
  {
    forall i: nat | i + 1 < hi - lo ensures Hop(procs, path[lo..hi], i) {
      assert Hop(procs, path, lo + i);
    }
    assert hi < |path| ==> Hop(procs, path, hi - 1);
  }

  lemma PathTail(procs: seq<Proc>, path: seq<nat>)
    requires Path(procs, path) && |path| >= 2
    ensures Path(procs, path[1..])
  {
    assert path[1..] == path[1..|path|];
    PathPart(procs, path, 1, |path|);
  }

  // ---- Reachability, one hop at a time

  lemma ReachesStep(procs: seq<Proc>, a: nat, b: nat)
    requires InRange(procs) && a < |procs|
    ensures Reaches(procs, a, b) <==>
            procs[a].flags.sending && (procs[a].sendTo == b || Reaches(procs, procs[a].sendTo, b))
  {
    if Reaches(procs, a, b) {
      var path :| PathBetween(procs, path, a, b);
      assert Hop(procs, path, 0);
      if |path| > 2 {
        PathTail(procs, path);
        assert PathBetween(procs, path[1..], procs[a].sendTo, b);
      }
    }
    if procs[a].flags.sending {
      var c: nat := procs[a].sendTo;
      if c == b {
        PathBehind(procs, a, [b]);
        assert PathBetween(procs, [a] + [b], a, b);
      } else if Reaches(procs, c, b) {
        var path :| PathBetween(procs, path, c, b);
        PathBehind(procs, a, path);
        assert PathBetween(procs, [a] + path, a, b);
      }
    }
  }

  // ---- Ranks

  lemma {:induction false} RankFalls(procs: seq<Proc>, rank: seq<nat>, path: seq<nat>)
    requires Ranked(procs, rank) && Path(procs, path) && |path| >= 2
    ensures path[0] < |procs| && rank[path[|path| - 1]] < rank[path[0]]
    decreases |path|
  {
    assert Hop(procs, path, 0);
    if |path| > 2 {
      PathTail(procs, path);
      RankFalls(procs, rank, path[1..]);
    }
  }

  lemma RankedIsAcyclic(procs: seq<Proc>, rank: seq<nat>)
    requires Ranked(procs, rank)
    ensures Acyclic(procs)
  {
    forall p: nat ensures !Reaches(procs, p, p) {
      if Reaches(procs, p, p) {
        var path :| PathBetween(procs, path, p, p);
        RankFalls(procs, rank, path);
      }
    }
  }

  /** The chain of blocked sends from `p`, cut after `k` hops. */
  ghost function Walk(procs: seq<Proc>, p: nat, k: nat): (w: seq<nat>)
    requires InRange(procs) && p < |procs|
    ensures Path(procs, w) && w[0] == p && |w| <= k + 1
    ensures forall i :: 0 <= i < |w| ==> w[i] < |procs|
    ensures |w| == k + 1 || !procs[w[|w| - 1]].flags.sending
    decreases k
  {
    if k == 0 || !procs[p].flags.sending then [p] else
      var w := Walk(procs, procs[p].sendTo, k - 1);
      PathBehind(procs, p, w);
      [p] + w
  }

  lemma {:induction false} WalkStops(procs: seq<Proc>, p: nat, k: nat)
    requires InRange(procs) && p < |procs| && |Walk(procs, p, k)| <= k
    ensures Walk(procs, p, k + 1) == Walk(procs, p, k)
    decreases k
  {
    if procs[p].flags.sending {
      WalkStops(procs, procs[p].sendTo, k - 1);
    }
  }

  /** More than `n` numbers below `n` repeat. */
  lemma Pigeonhole(q: seq<nat>, n: nat)
    requires |q| > n && (forall i :: 0 <= i < |q| ==> q[i] < n)
    ensures !Distinct(q)
  {
    if Distinct(q) {
      DistinctFits(q, n);
    }
  }

  lemma {:induction false} DistinctFits(q: seq<nat>, n: nat)
    requires Distinct(q) && (forall i :: 0 <= i < |q| ==> q[i] < n)
    ensures |q| <= n
  {
    if |q| == 0 {
    } else if n - 1 in q {
      var i :| 0 <= i < |q| && q[i] == n - 1;
      DistinctFits(q[..i] + q[i + 1..], n - 1);
    } else {
      assert q[0] < n;
      DistinctFits(q, n - 1);
    }
  }

  lemma RepeatIsCycle(procs: seq<Proc>, path: seq<nat>)
    requires Path(procs, path) && !Distinct(path)
    requires forall i :: 0 <= i < |path| ==> path[i] < |procs|
    ensures !Acyclic(procs)
  {
    var i, j :| 0 <= i < j < |path| && path[i] == path[j];
    PathPart(procs, path, i, j + 1);
    assert PathBetween(procs, path[i..j + 1], path[i], path[i]);
    assert Reaches(procs, path[i], path[i]);
  }

  ghost function Rank(procs: seq<Proc>): (rank: seq<nat>)
    requires InRange(procs)
  {
    seq(|procs|, p requires 0 <= p < |procs| => |Walk(procs, p, |procs|)|)
  }

  /** An acyclic send graph has a rank: the length of the chain from each process. */
  lemma AcyclicIsRanked(procs: seq<Proc>)
    requires InRange(procs) && Acyclic(procs)
    ensures Ranked(procs, Rank(procs))
  {
    var n := |procs|;
    forall p: nat | p < n && procs[p].flags.sending && 0 <= procs[p].sendTo < n
      ensures Rank(procs)[procs[p].sendTo] < Rank(procs)[p]
    {
      var w := Walk(procs, p, n);
      if |w| > n {
        Pigeonhole(w, n);
        RepeatIsCycle(procs, w);
      }
      WalkStops(procs, procs[p].sendTo, n - 1);
    }
  }

  /** The send graph is acyclic exactly when blocked sends can be ranked, so that
      every chain of them ends. */
  lemma AcyclicIffRanked(procs: seq<Proc>)
    requires InRange(procs)
    ensures Acyclic(procs) <==> exists rank :: Ranked(procs, rank)
  {
    if Acyclic(procs) {
      AcyclicIsRanked(procs);
    }
    if rank :| Ranked(procs, rank) {
      RankedIsAcyclic(procs, rank);
    }
  }

  // ---- Changing the graph

  /** Taking blocked sends away keeps the graph acyclic. */
  lemma FewerSends(procs: seq<Proc>, next: seq<Proc>)
    requires InRange(procs) && Acyclic(procs) && |next| == |procs|
    requires forall p: nat :: p < |next| && next[p].flags.sending ==>
               procs[p].flags.sending && procs[p].sendTo == next[p].sendTo
    ensures Acyclic(next)
  {
    AcyclicIsRanked(procs);
    RankedIsAcyclic(next, Rank(procs));
  }

  ghost function Raised(procs: seq<Proc>, rank: seq<nat>, src: nat, lift: nat): (r: seq<nat>)
    requires |rank| == |procs|
  {
    seq(|procs|, p requires 0 <= p < |procs| => if p == src || Reaches(procs, p, src) then rank[p] + lift else rank[p])
  }

  /** A new blocked send from `src` to `dest` keeps the graph acyclic when no
      chain already leads from `dest` back to `src`: what `deadlock` tests. */
  lemma OneMoreSend(procs: seq<Proc>, next: seq<Proc>, src: nat, dest: nat)
    requires InRange(procs) && Acyclic(procs) && |next| == |procs|
    requires src < |procs| && dest < |procs| && src != dest && !Reaches(procs, dest, src)
    requires !procs[src].flags.sending
    requires forall p: nat :: p < |procs| && p != src ==>
               next[p].flags.sending == procs[p].flags.sending && next[p].sendTo == procs[p].sendTo
    requires next[src].sendTo == dest
    ensures Acyclic(next)
  {
    AcyclicIsRanked(procs);
    var rank := Rank(procs);
    var raised := Raised(procs, rank, src, rank[dest] + 1);
    forall p: nat | p < |next| && next[p].flags.sending && 0 <= next[p].sendTo < |next|
      ensures raised[next[p].sendTo] < raised[p]
    {
      if p != src {
        ReachesStep(procs, p, src);
      }
    }
    RankedIsAcyclic(next, raised);
  }
}
