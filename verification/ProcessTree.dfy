/**
 The processes below a process, collected with a work list. The child relation,
 which the program asks for one process at a time, is a parameter that does not
 change while the list is worked off; it may be cyclic.
 */
module ProcessTree {
  import opened Sequences

  type Children = map<int, seq<int>>

  function Kids(children: Children, pid: int): seq<int> {
    if pid in children then children[pid] else []
  }

  /** Each process on the path is a child of the one before it. */
  predicate Path(children: Children, path: seq<int>) {
    forall i :: 0 <= i < |path| - 1 ==> path[i + 1] in Kids(children, path[i])
  }

  /** A path of one or more steps. */
  predicate Leads(children: Children, path: seq<int>, from: int, to: int) {
    |path| >= 2 && path[0] == from && path[|path| - 1] == to && Path(children, path)
  }

  ghost predicate Reaches(children: Children, from: int, to: int) {
    exists path :: Leads(children, path, from, to)
  }

  lemma {:induction false} ReachesKid(children: Children, from: int, mid: int, to: int)
    requires mid == from || Reaches(children, from, mid)
    requires to in Kids(children, mid)
    ensures Reaches(children, from, to)
  {
    if mid == from {
      assert Leads(children, [from, to], from, to);
    } else {
      var path :| Leads(children, path, from, mid);
      assert Leads(children, path + [to], from, to);
    }
  }

  /** A set that holds the children of the start and of its own members holds everything below the start. */
  lemma {:induction false} ClosedHolds(children: Children, from: int, found: seq<int>, path: seq<int>)
    requires |path| >= 2 && path[0] == from && Path(children, path)
    requires forall p, c :: (p == from || p in found) && c in Kids(children, p) ==> c in found
    ensures path[|path| - 1] in found
    decreases |path|
  {
    var n := |path| - 1;
    var last := n - 1;
    assert path[last + 1] in Kids(children, path[last]);
    if n > 1 {
      ClosedHolds(children, from, found, path[..n]);
      assert path[..n][last] == path[last];
    }
    var p, c := path[last], path[n];
    assert p == from || p in found;
    assert c in Kids(children, p);
  }

  lemma {:induction false} ClosedIsComplete(children: Children, from: int, found: seq<int>)
    requires forall p, c :: (p == from || p in found) && c in Kids(children, p) ==> c in found
    ensures forall q :: Reaches(children, from, q) ==> q in found
  {
    forall q | Reaches(children, from, q)
      ensures q in found
    {
      var path :| Leads(children, path, from, q);
      ClosedHolds(children, from, found, path);
    }
  }

  /** Every process that some process lists as a child. */
  ghost function Listed(children: Children): set<int> {
    set p, c | p in children && c in children[p] :: c
  }

  lemma {:induction false} KidListed(children: Children, p: int, c: int)
    requires c in Kids(children, p)
    ensures c in Listed(children)
  {
  }

  lemma {:induction false} DistinctFit(pids: seq<int>, all: set<int>)
    requires NoDuplicates(pids) && forall i :: 0 <= i < |pids| ==> pids[i] in all
    ensures |pids| <= |all|
  {
    if pids != [] {
      var n := |pids| - 1;
      DistinctFit(pids[..n], all - {pids[n]});
    }
  }

  /** Exactly the processes one or more steps below `pid`, each once. */
  method Descendants(children: Children, pid: int) returns (found: seq<int>)
    ensures NoDuplicates(found)
    ensures forall q :: q in found <==> Reaches(children, pid, q)
  {
    hide Reaches, Listed, Kids;
    found := [];
    var frontier := [pid];
    ghost var all := Listed(children);
    while frontier != []
      invariant NoDuplicates(found) && forall i :: 0 <= i < |found| ==> found[i] in all
      invariant forall q :: q in found ==> Reaches(children, pid, q)
      invariant forall p :: p in frontier ==> p == pid || p in found
      invariant forall p, c :: (p == pid || p in found) && p !in frontier && c in Kids(children, p) ==> c in found
      invariant |found| <= |all|
      decreases |all| - |found|, |frontier|
    {
      var last := |frontier| - 1;
      var current := frontier[last];
      assert frontier == frontier[..last] + [current];
      frontier := frontier[..last];
      var kids := Kids(children, current);
      ghost var before := |found|;
      ghost var rest := frontier;
      for i := 0 to |kids|
        invariant NoDuplicates(found) && forall i :: 0 <= i < |found| ==> found[i] in all
        invariant forall q :: q in found ==> Reaches(children, pid, q)
        invariant forall p :: p in frontier ==> p == pid || p in found
        invariant forall j :: 0 <= j < i ==> kids[j] in found
        invariant current == pid || current in found
        invariant forall p, c ::
          (p == pid || p in found) && p !in frontier && p != current && c in Kids(children, p) ==> c in found
        invariant before <= |found| <= |all| && (|found| == before ==> frontier == rest)
      {
        var child := kids[i];
        if child !in found {
          ReachesKid(children, pid, current, child);
          KidListed(children, current, child);
          found := found + [child];
          frontier := frontier + [child];
          DistinctFit(found, all);
        }
      }
    }
    ClosedIsComplete(children, pid, found);
  }
}
