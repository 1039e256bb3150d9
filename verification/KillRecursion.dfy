/**
 * Whether killAllDescendants comes back: its recursion follows child lists, so it ends exactly when no
 * circle of child lists can be reached. Killing changes no list, so the lists are those at the call.
 */
module KillRecursion {
  import opened Scheduler
  import opened ProcessTable

  /** The children the code visits below p. */
  function KidsOf(kids: seq<seq<Pid>>, p: Pid): seq<Pid> {
    if p < |kids| then kids[p] else []
  }

  /** killAllDescendants(p) comes back within n nested calls. */
  ghost predicate Returns(kids: seq<seq<Pid>>, p: Pid, n: nat)
    decreases n
  {
    n > 0 && forall c :: c in KidsOf(kids, p) ==> Returns(kids, c, n - 1)
  }

  /** Each process of the path names the next one as its child. */
  ghost predicate Path(kids: seq<seq<Pid>>, path: seq<Pid>) {
    forall i, j :: 0 <= i && j == i + 1 && j < |path| ==> path[j] in KidsOf(kids, path[i])
  }

  /** A path that leaves x and comes back to it. */
  ghost predicate Circle(kids: seq<seq<Pid>>, path: seq<Pid>) {
    |path| > 1 && path[0] == path[|path| - 1] && Path(kids, path)
  }

  /** From p one comes to a process that is among its own descendants. */
  ghost predicate ReachesCircle(kids: seq<seq<Pid>>, p: Pid) {
    exists way: seq<Pid>, circle: seq<Pid> :: LeadsInto(kids, p, way, circle)
  }

  ghost predicate LeadsInto(kids: seq<seq<Pid>>, p: Pid, way: seq<Pid>, circle: seq<Pid>) {
    way != [] && way[0] == p && Path(kids, way) && Circle(kids, circle) && way[|way| - 1] == circle[0]
  }

  /** If the first process of a path returns, so does the last, with as many calls fewer. */
  lemma {:induction false} ReturnsAlong(kids: seq<seq<Pid>>, path: seq<Pid>, n: nat)
    requires path != [] && Path(kids, path) && Returns(kids, path[0], n)
    ensures n >= |path| && Returns(kids, path[|path| - 1], n + 1 - |path|)
    decreases |path|
  {
    if |path| > 1 {
      assert path[1] in KidsOf(kids, path[0]);
      var rest := path[1..];
      forall i, j | 0 <= i && j == i + 1 && j < |rest| ensures rest[j] in KidsOf(kids, rest[i]) {
        assert rest[j] == path[j + 1] && rest[i] == path[i + 1];
      }
      ReturnsAlong(kids, rest, n - 1);
    }
  }

  /** Nobody on a circle returns. */
  lemma {:induction false} CircleNeverReturns(kids: seq<seq<Pid>>, circle: seq<Pid>, n: nat)
    requires Circle(kids, circle)
    ensures !Returns(kids, circle[0], n)
    decreases n
  {
    if Returns(kids, circle[0], n) {
      ReturnsAlong(kids, circle, n);
      CircleNeverReturns(kids, circle, n + 1 - |circle|);
    }
  }

  /** A call that does not return within n calls follows a path of n + 1 processes. */
  lemma {:induction false} LongPath(kids: seq<seq<Pid>>, p: Pid, n: nat) returns (path: seq<Pid>)
    requires !Returns(kids, p, n)
    ensures |path| == n + 1 && path[0] == p && Path(kids, path)
    decreases n
  {
    if n == 0 {
      path := [p];
    } else {
      var c :| c in KidsOf(kids, p) && !Returns(kids, c, n - 1);
      var rest := LongPath(kids, c, n - 1);
      path := [p] + rest;
      forall i, j | 0 <= i && j == i + 1 && j < |path| ensures path[j] in KidsOf(kids, path[i]) {
        assert path[j] == rest[j - 1] && (i > 0 ==> path[i] == rest[i - 1]);
      }
    }
  }

  /** More pids than there are slots: one occurs twice. */
  lemma {:induction false} Pigeons(s: seq<Pid>, n: nat) returns (i: nat, j: nat)
    requires |s| > n && forall k :: 0 <= k < |s| ==> s[k] < n
    ensures i < j < |s| && s[i] == s[j]
    decreases n
  {
    if k: nat :| k < |s| - 1 && s[k] == s[|s| - 1] {
      i, j := k, |s| - 1;
    } else {
      // Nobody else is where the last one sits: let n - 1 take its slot.
      var last := s[|s| - 1];
      var t := seq(|s| - 1, k requires 0 <= k < |s| - 1 => if s[k] == n - 1 then last else s[k]);
      i, j := Pigeons(t, n - 1);
    }
  }

  predicate Closed(kids: seq<seq<Pid>>) {
    forall p, i :: 0 <= p < |kids| && 0 <= i < |kids[p]| ==> kids[p][i] < |kids|
  }

  lemma PathInTable(kids: seq<seq<Pid>>, path: seq<Pid>, k: nat)
    requires Closed(kids) && Path(kids, path) && k < |path| && path[0] < |kids|
    ensures path[k] < |kids|
  {
    if k > 0 {
      var p := path[k - 1];
      assert path[k] in KidsOf(kids, p);
      var i :| 0 <= i < |kids[p]| && kids[p][i] == path[k];
    }
  }

  lemma PathPart(kids: seq<seq<Pid>>, path: seq<Pid>, i: nat, j: nat)
    requires Path(kids, path) && i <= j < |path|
    ensures Path(kids, path[i..j + 1])
  {
    var part := path[i..j + 1];
    forall a, b | 0 <= a && b == a + 1 && b < |part| ensures part[b] in KidsOf(kids, part[a]) {
      assert part[b] == path[i + b] && part[a] == path[i + a];
    }
  }

  lemma IntoCircle(kids: seq<seq<Pid>>, p: Pid, n: nat)
    requires ReachesCircle(kids, p)
    ensures !Returns(kids, p, n)
  {
    var way, circle :| LeadsInto(kids, p, way, circle);
    if Returns(kids, p, n) {
      ReturnsAlong(kids, way, n);
      CircleNeverReturns(kids, circle, n + 1 - |way|);
    }
  }

  /** As many nested calls as there are slots are enough, or a circle is reached. */
  lemma OutOfCircles(kids: seq<seq<Pid>>, p: Pid)
    requires Closed(kids) && p < |kids| && !Returns(kids, p, |kids|)
    ensures ReachesCircle(kids, p)
  {
    var path := LongPath(kids, p, |kids|);
    forall k: nat | k < |path| ensures path[k] < |kids| {
      PathInTable(kids, path, k);
    }
    var i, j := Pigeons(path, |kids|);
    PathPart(kids, path, 0, i);
    PathPart(kids, path, i, j);
    assert LeadsInto(kids, p, path[0..i + 1], path[i..j + 1]);
  }

  /** Exactly when killAllDescendants(p) comes back: no circle of child lists can be reached from p. */
  lemma ReturnsIffNoCircle(kids: seq<seq<Pid>>, p: Pid)
    requires Closed(kids) && p < |kids|
    ensures (exists n: nat :: Returns(kids, p, n)) <==> !ReachesCircle(kids, p)
  {
    if ReachesCircle(kids, p) {
      forall n: nat ensures !Returns(kids, p, n) {
        IntoCircle(kids, p, n);
      }
    } else {
      var n: nat := |kids|;
      if !Returns(kids, p, n) {
        OutOfCircles(kids, p);
      }
      assert Returns(kids, p, n);
    }
  }

  /** Birth order bounds the recursion: a process returns within as many calls as are left to the clock. */
  lemma {:induction false} RisingReturns(kids: seq<seq<Pid>>, birth: seq<nat>, clock: nat, p: Pid)
    requires Rising(kids, birth, clock) && p < |kids|
    ensures Returns(kids, p, clock - birth[p])
    decreases clock - birth[p]
  {
    forall c | c in kids[p] ensures Returns(kids, c, clock - birth[p] - 1) {
      var i :| 0 <= i < |kids[p]| && kids[p][i] == c;
      RisingReturns(kids, birth, clock, c);
      ReturnsLater(kids, c, clock - birth[c], clock - birth[p] - 1);
    }
  }

  lemma {:induction false} ReturnsLater(kids: seq<seq<Pid>>, p: Pid, n: nat, m: nat)
    requires Returns(kids, p, n) && n <= m
    ensures Returns(kids, p, m)
    decreases n
  {
    forall c | c in KidsOf(kids, p) ensures Returns(kids, c, m - 1) {
      ReturnsLater(kids, c, n - 1, m - 1);
    }
  }

  /** A process that is its own child never comes back from killing its descendants. */
  lemma OwnChildNeverReturns(kids: seq<seq<Pid>>, p: Pid)
    requires p in KidsOf(kids, p)
    ensures forall n: nat :: !Returns(kids, p, n)
  {
    forall n: nat ensures !Returns(kids, p, n) {
      CircleNeverReturns(kids, [p, p], n);
    }
  }

  /** In every table ordered by birth killAllDescendants comes back, for every process. */
  lemma ValidTableReturns(t: Table, p: Pid)
    requires t.Valid() && p < t.procs.Length
    ensures Returns(Kids(t.procs[..]), p, t.clock - t.birth[p])
    ensures !ReachesCircle(Kids(t.procs[..]), p)
  {
    hide Kids, Rising, Returns, ReachesCircle, Table.Valid;
    t.ValidFacts(p);
    var kids := Kids(t.procs[..]);
    t.ValidIsRising();
    RisingReturns(kids, t.birth, t.clock, p);
    if ReachesCircle(kids, p) {
      IntoCircle(kids, p, t.clock - t.birth[p]);
    }
  }

  /** After the call that createProcess lets slip, it never comes back for the process that was created. */
  lemma SelfAdoptedNeverReturns(t: Table, p: Pid, n: nat)
    requires p < t.procs.Length && !t.procs[p].state.UN_BORN? && t.procs[p].children == [p]
    ensures !Returns(Kids(t.procs[..]), p, n)
  {
    OwnChildNeverReturns(Kids(t.procs[..]), p);
  }
}
