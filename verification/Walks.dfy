// Walks in a directed graph, given by the successors of every node, that start at one of some nodes.
module Walks {
  ghost predicate IsWalk(g: map<string, set<string>>, from: set<string>, p: seq<string>)
    decreases |p|
  {
    |p| > 0 && p[0] in from && (|p| == 1 || (p[0] in g && IsWalk(g, g[p[0]], p[1..])))
  }

  // No walk is longer than n.
  ghost predicate Bounded(g: map<string, set<string>>, from: set<string>, n: nat) {
    forall p :: IsWalk(g, from, p) ==> |p| <= n
  }

  // Some walk comes back to a node.
  ghost predicate Cyclic(g: map<string, set<string>>, from: set<string>) {
    exists p, i: nat, j: nat :: IsWalk(g, from, p) && i < j < |p| && p[i] == p[j]
  }

  lemma BoundedStep(g: map<string, set<string>>, r: string, n: nat)
    requires r in g
    ensures Bounded(g, {r}, n) <==> n > 0 && Bounded(g, g[r], n - 1)
  {
    if Bounded(g, {r}, n) {
      assert IsWalk(g, {r}, [r]);
      forall p | IsWalk(g, g[r], p)
        ensures |p| <= n - 1
      {
        assert ([r] + p)[1..] == p;
        assert IsWalk(g, {r}, [r] + p);
      }
    }
    if n > 0 && Bounded(g, g[r], n - 1) {
      forall p | IsWalk(g, {r}, p)
        ensures |p| <= n
      {
        assert |p| > 1 ==> IsWalk(g, g[r], p[1..]);
      }
    }
  }

  lemma BoundedBoth(g: map<string, set<string>>, a: set<string>, b: set<string>, n: nat)
    ensures Bounded(g, a + b, n) <==> Bounded(g, a, n) && Bounded(g, b, n)
  {
    assert forall p :: IsWalk(g, a + b, p) <==> IsWalk(g, a, p) || IsWalk(g, b, p);
  }

  // ---- Without a cycle --------------------------------------------------------------------------------------------

  // All nodes of a walk but the last have successors.
  lemma {:induction false} Inner(g: map<string, set<string>>, from: set<string>, p: seq<string>, i: nat)
    requires IsWalk(g, from, p) && i < |p| - 1
    ensures p[i] in g
    decreases |p|
  {
    if i > 0 {
      Inner(g, g[p[0]], p[1..], i - 1);
    }
  }

  lemma {:induction false} Spread(p: seq<string>)
    requires forall i, j :: 0 <= i < j < |p| ==> p[i] != p[j]
    ensures |set x | x in p| == |p|
  {
    if p != [] {
      var n := |p| - 1;
      Spread(p[..n]);
      assert p == p[..n] + [p[n]];
      assert (set x | x in p) == (set x | x in p[..n]) + {p[n]};
    }
  }

  lemma AcyclicBounded(g: map<string, set<string>>, from: set<string>)
    requires !Cyclic(g, from)
    ensures Bounded(g, from, |g| + 1)
  {
    forall p | IsWalk(g, from, p)
      ensures |p| <= |g| + 1
    {
      var q := p[..|p| - 1];
      Spread(q);
      var nodes := set x | x in q;
      forall x | x in nodes
        ensures x in g.Keys
      {
        var i :| 0 <= i < |q| && q[i] == x;
        Inner(g, from, p, i);
      }
      assert g.Keys == nodes + (g.Keys - nodes);
    }
  }

  // ---- With a cycle -----------------------------------------------------------------------------------------------

  lemma {:induction false} Prefix(g: map<string, set<string>>, from: set<string>, p: seq<string>, k: nat)
    requires IsWalk(g, from, p) && 0 < k <= |p|
    ensures IsWalk(g, from, p[..k])
    decreases |p|
  {
    if k > 1 {
      Prefix(g, g[p[0]], p[1..], k - 1);
      assert p[..k][1..] == p[1..][..k - 1];
    }
  }

  lemma {:induction false} Suffix(g: map<string, set<string>>, from: set<string>, p: seq<string>, k: nat)
    requires IsWalk(g, from, p) && 0 < k < |p|
    ensures p[k - 1] in g && IsWalk(g, g[p[k - 1]], p[k..])
    decreases |p|
  {
    if k > 1 {
      Suffix(g, g[p[0]], p[1..], k - 1);
      assert p[1..][k - 1..] == p[k..];
    }
  }

  lemma {:induction false} Concat(g: map<string, set<string>>, from: set<string>, p: seq<string>, q: seq<string>)
    requires IsWalk(g, from, p) && p[|p| - 1] in g && IsWalk(g, g[p[|p| - 1]], q)
    ensures IsWalk(g, from, p + q)
    decreases |p|
  {
    if |p| == 1 {
      assert (p + q)[1..] == q;
    } else {
      Concat(g, g[p[0]], p[1..], q);
      assert (p + q)[1..] == p[1..] + q;
    }
  }

  // A cycle is gone through again and again.
  lemma {:induction false} Longer(g: map<string, set<string>>, from: set<string>, p: seq<string>, q: seq<string>,
                      n: nat)
    returns (w: seq<string>)
    requires IsWalk(g, from, p) && p[|p| - 1] in g
    requires IsWalk(g, g[p[|p| - 1]], q) && q[|q| - 1] == p[|p| - 1]
    ensures IsWalk(g, from, w) && |w| > n
    decreases if |p| <= n then n - |p| + 1 else 0
  {
    w := p;
    if |p| <= n {
      Concat(g, from, p, q);
      w := Longer(g, from, p + q, q, n);
    }
  }

  lemma CyclicUnbounded(g: map<string, set<string>>, from: set<string>, n: nat)
    requires Cyclic(g, from)
    ensures !Bounded(g, from, n)
  {
    var p, i: nat, j: nat :| IsWalk(g, from, p) && i < j < |p| && p[i] == p[j];
    Prefix(g, from, p, j + 1);
    var r := p[..j + 1];
    Suffix(g, from, r, i + 1);
    Prefix(g, from, r, i + 1);
    var w := Longer(g, from, r[..i + 1], r[i + 1..], n);
  }

  // Walks are bounded exactly when none comes back to a node.
  lemma BoundedIff(g: map<string, set<string>>, from: set<string>)
    ensures (exists n: nat :: Bounded(g, from, n)) <==> !Cyclic(g, from)
  {
    if Cyclic(g, from) {
      forall n: nat
        ensures !Bounded(g, from, n)
      {
        CyclicUnbounded(g, from, n);
      }
    } else {
      AcyclicBounded(g, from);
    }
  }
}
