/** Resident memory of a process tree (services/stealth-scraper/app/ramsampler.py).

    The readers are one snapshot of /proc: `parentOf` is the parsed stat line and `pagesOf` the parsed statm
    line of a pid, None where the read fails or the line does not parse. */
module ProcessTree {
  import opened Optional

  type Pid = int

  // ----- the reference: pids on a path from the root, each counted once -----

  predicate ChildOf(pids: seq<Pid>, parentOf: Pid -> Option<Pid>, parent: Pid, child: Pid) {
    child in pids && parentOf(child) == Some(parent)
  }

  ghost predicate Path(pids: seq<Pid>, parentOf: Pid -> Option<Pid>, path: seq<Pid>) {
    |path| > 0 && forall k :: 0 < k < |path| ==> ChildOf(pids, parentOf, path[k - 1], path[k])
  }

  ghost predicate Reachable(pids: seq<Pid>, parentOf: Pid -> Option<Pid>, root: Pid, pid: Pid) {
    exists path :: Path(pids, parentOf, path) && path[0] == root && path[|path| - 1] == pid
  }

  ghost function Tree(pids: seq<Pid>, parentOf: Pid -> Option<Pid>, root: Pid): set<Pid> {
    set pid | pid in [root] + pids && Reachable(pids, parentOf, root, pid)
  }

  function Bytes(pagesOf: Pid -> Option<int>, pageSize: int, pid: Pid): int {
    match pagesOf(pid) case None => 0 case Some(pages) => pages * pageSize
  }

  ghost function Sum<T>(items: set<T>, weight: T -> int): int {
    if items == {} then 0 else var x :| x in items; weight(x) + Sum(items - {x}, weight)
  }

  // ----- laws of the reference -----

  lemma {:induction false} SumWithout<T>(items: set<T>, weight: T -> int, p: T)
    requires p in items
    ensures Sum(items, weight) == weight(p) + Sum(items - {p}, weight)
    decreases |items|
  {
    var first :| first in items && Sum(items, weight) == weight(first) + Sum(items - {first}, weight);
    if first != p {
      SumWithout(items - {first}, weight, p);
      SumWithout(items - {p}, weight, first);
      assert items - {first} - {p} == items - {p} - {first};
    }
  }

  lemma SumWith<T>(items: set<T>, weight: T -> int, p: T)
    requires p !in items
    ensures Sum(items + {p}, weight) == Sum(items, weight) + weight(p)
  {
    SumWithout(items + {p}, weight, p);
    assert items + {p} - {p} == items;
  }

  lemma SumNone<T>(weight: T -> int)
    ensures Sum({}, weight) == 0
  {
  }

  lemma RootReachable(pids: seq<Pid>, parentOf: Pid -> Option<Pid>, root: Pid)
    ensures Reachable(pids, parentOf, root, root)
  {
    assert Path(pids, parentOf, [root]);
  }

  lemma ChildReachable(pids: seq<Pid>, parentOf: Pid -> Option<Pid>, root: Pid, parent: Pid, child: Pid)
    requires Reachable(pids, parentOf, root, parent) && ChildOf(pids, parentOf, parent, child)
    ensures Reachable(pids, parentOf, root, child)
  {
    var path :| Path(pids, parentOf, path) && path[0] == root && path[|path| - 1] == parent;
    assert Path(pids, parentOf, path + [child]);
  }

  lemma {:induction false} ClosedHolds(pids: seq<Pid>, parentOf: Pid -> Option<Pid>, closed: set<Pid>, path: seq<Pid>)
    requires Path(pids, parentOf, path) && path[0] in closed
    requires forall p, c :: p in closed && ChildOf(pids, parentOf, p, c) ==> c in closed
    ensures path[|path| - 1] in closed
    decreases |path|
  {
    if |path| > 1 {
      var front := path[..|path| - 1];
      ClosedHolds(pids, parentOf, closed, front);
      assert ChildOf(pids, parentOf, path[|path| - 2], path[|path| - 1]);
    }
  }

  /** The tree holds exactly the reachable pids: cycles, self-parents and duplicates make no difference. */
  lemma TreeIsReachable(pids: seq<Pid>, parentOf: Pid -> Option<Pid>, root: Pid, pid: Pid)
    ensures pid in Tree(pids, parentOf, root) <==> Reachable(pids, parentOf, root, pid)
  {
    if Reachable(pids, parentOf, root, pid) && pid != root {
      var path :| Path(pids, parentOf, path) && path[0] == root && path[|path| - 1] == pid;
      assert ChildOf(pids, parentOf, path[|path| - 2], path[|path| - 1]);
    }
  }

  lemma RootInTree(pids: seq<Pid>, parentOf: Pid -> Option<Pid>, root: Pid)
    ensures root in Tree(pids, parentOf, root)
  {
    RootReachable(pids, parentOf, root);
    TreeIsReachable(pids, parentOf, root, root);
  }

  lemma ChildInTree(pids: seq<Pid>, parentOf: Pid -> Option<Pid>, root: Pid, parent: Pid, child: Pid)
    requires parent in Tree(pids, parentOf, root) && ChildOf(pids, parentOf, parent, child)
    ensures child in Tree(pids, parentOf, root)
  {
    ChildReachable(pids, parentOf, root, parent, child);
    TreeIsReachable(pids, parentOf, root, child);
  }

  lemma ClosedIsTree(pids: seq<Pid>, parentOf: Pid -> Option<Pid>, root: Pid, seen: set<Pid>)
    requires seen <= Tree(pids, parentOf, root) && root in seen
    requires forall p, c :: p in seen && ChildOf(pids, parentOf, p, c) ==> c in seen
    ensures seen == Tree(pids, parentOf, root)
  {
    forall pid | pid in Tree(pids, parentOf, root) ensures pid in seen {
      var path :| Path(pids, parentOf, path) && path[0] == root && path[|path| - 1] == pid;
      ClosedHolds(pids, parentOf, seen, path);
    }
  }

  // ----- the walk -----

  /** `children` after the scan of the first `n` pids. */
  ghost predicate Scanned(pids: seq<Pid>, n: nat, parentOf: Pid -> Option<Pid>, children: map<Pid, seq<Pid>>)
    requires n <= |pids|
  {
    && (forall p, c :: p in children && c in children[p] ==> c in pids[..n] && parentOf(c) == Some(p))
    && (forall k :: 0 <= k < n && parentOf(pids[k]).Some? ==>
          parentOf(pids[k]).value in children && pids[k] in children[parentOf(pids[k]).value])
  }

  lemma ScannedOne(pids: seq<Pid>, n: nat, parentOf: Pid -> Option<Pid>, before: map<Pid, seq<Pid>>, after: map<Pid, seq<Pid>>)
    requires n < |pids| && Scanned(pids, n, parentOf, before)
    requires after == match parentOf(pids[n])
                      case None => before
                      case Some(parent) => before[parent := (if parent in before then before[parent] else []) + [pids[n]]]
    ensures Scanned(pids, n + 1, parentOf, after)
  {
    assert pids[..n + 1] == pids[..n] + [pids[n]];
    forall p, c | p in after && c in after[p] ensures c in pids[..n + 1] && parentOf(c) == Some(p) {
      assert (p in before && c in before[p]) || (c == pids[n] && parentOf(c) == Some(p));
    }
    forall k | 0 <= k < n + 1 && parentOf(pids[k]).Some?
      ensures parentOf(pids[k]).value in after && pids[k] in after[parentOf(pids[k]).value]
    {
      if k < n { assert pids[k] in before[parentOf(pids[k]).value]; }
    }
  }

  method ScanChildren(pids: seq<Pid>, parentOf: Pid -> Option<Pid>) returns (children: map<Pid, seq<Pid>>)
    ensures forall p, c :: (p in children && c in children[p]) <==> ChildOf(pids, parentOf, p, c)
  {
    children := map[];
    for n := 0 to |pids|
      invariant Scanned(pids, n, parentOf, children)
    {
      ghost var before := children;
      var pid := pids[n];
      if parentOf(pid).Some? {
        var parent := parentOf(pid).value;
        var siblings := if parent in children then children[parent] else [];
        children := children[parent := siblings + [pid]];
      }
      ScannedOne(pids, n, parentOf, before, children);
    }
    assert pids[..|pids|] == pids;
  }

  method TreeRssBytes(root: Pid, pids: seq<Pid>, parentOf: Pid -> Option<Pid>, pagesOf: Pid -> Option<int>, pageSize: int)
    returns (total: int)
    ensures total == Sum(Tree(pids, parentOf, root), pid => Bytes(pagesOf, pageSize, pid))
  {
    hide Tree, Reachable, Sum, Path, ChildOf;
    SumNone(pid => Bytes(pagesOf, pageSize, pid));
    ghost var weight := pid => Bytes(pagesOf, pageSize, pid);
    ghost var tree := Tree(pids, parentOf, root);
    var children := ScanChildren(pids, parentOf);
    total := 0;
    var stack := [root];
    var seen: set<Pid> := {};
    RootInTree(pids, parentOf, root);
    while stack != []
      invariant seen <= tree && (forall p :: p in stack ==> p in tree)
      invariant root in seen || root in stack
      invariant forall p, c :: p in seen && ChildOf(pids, parentOf, p, c) ==> c in seen || c in stack
      invariant total == Sum(seen, weight)
      decreases |tree - seen|, |stack|
    {
      var pid := stack[|stack| - 1];
      ghost var before, wasSeen := stack, seen;
      stack := stack[..|stack| - 1];
      assert forall p :: p in before ==> p == pid || p in stack;
      if pid !in seen {
        seen := seen + {pid};
        assert tree - seen == tree - wasSeen - {pid};
        SumWith(wasSeen, weight, pid);
        if pagesOf(pid).Some? {
          total := total + pagesOf(pid).value * pageSize;
        }
        var more := if pid in children then children[pid] else [];
        forall c | c in more ensures c in tree {
          ChildInTree(pids, parentOf, root, pid, c);
        }
        stack := stack + more;
      }
    }
    ClosedIsTree(pids, parentOf, root, seen);
  }
}
