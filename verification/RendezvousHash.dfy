/**
 * RendezvousHash: every node has a score for a key, and the key goes to the node with the highest.  The score
 * stands for the hash and the scaling by weight; all that is used of it is that it is not negative.
 */
module RendezvousHash {

  /** The scores of the nodes for one key. */
  type Scores = seq<real>

  predicate Proper(s: Scores) { forall i | 0 <= i < |s| :: s[i] >= 0.0 }

  /** The first of the nodes with the highest score. */
  predicate Best(s: Scores, c: nat)
  {
    c < |s| && (forall i | 0 <= i < c :: s[i] < s[c]) && (forall i | c < i < |s| :: s[i] <= s[c])
  }

  lemma BestIsUnique(s: Scores, c: nat, d: nat)
    requires Best(s, c) && Best(s, d)
    ensures c == d
  {
    var best := s[c];
    assert best <= s[d];
  }

  /** Rank 0: keeps the running maximum. */
  method GetBest(s: Scores) returns (c: nat)
    requires s != [] && Proper(s)
    ensures Best(s, c)
  {
    var maxWeight := -1.0;
    c := 0;
    for i := 0 to |s|
      invariant i == 0 ==> c == 0 && maxWeight == -1.0
      invariant i > 0 ==> c < i && maxWeight == s[c] && Best(s[..i], c)
    {
      if s[i] > maxWeight {
        maxWeight := s[i];
        c := i;
      }
    }
    assert s[..|s|] == s;
  }

  // ----- minimal movement -----

  /** Position `i` of a list from which position `k` was taken out. */
  function Shift(i: nat, k: nat): nat { if i < k then i else i + 1 }

  function Removed(s: Scores, k: nat): Scores
    requires k < |s|
  {
    s[..k] + s[k + 1..]
  }

  /** Taking a node away moves only the keys that were on it; adding one moves keys only to it. */
  lemma RemovalMovesOwnKeys(s: Scores, k: nat, c: nat, d: nat)
    requires k < |s| && Best(s, c) && Best(Removed(s, k), d)
    ensures c != k ==> Shift(d, k) == c
  {
    var r := Removed(s, k);
    assert forall i | 0 <= i < |r| :: r[i] == s[Shift(i, k)];
    if c != k {
      var e := if c < k then c else c - 1;
      assert Best(r, e);
      BestIsUnique(r, d, e);
    }
  }

  /** Lowering a score, as lowering a weight does, moves only the keys of that node. */
  lemma LoweringMovesOwnKeys(s: Scores, k: nat, lower: real, c: nat, d: nat)
    requires k < |s| && lower <= s[k] && Best(s, c) && Best(s[k := lower], d)
    ensures c != k ==> d == c
  {
    if c != k {
      assert Best(s[k := lower], c);
      BestIsUnique(s[k := lower], c, d);
    }
  }

  /** Raising a score moves keys only to that node. */
  lemma RaisingAttractsKeys(s: Scores, k: nat, higher: real, c: nat, d: nat)
    requires k < |s| && higher >= s[k] && Best(s, c) && Best(s[k := higher], d)
    ensures d != c ==> d == k
  {
    assert s[k := higher][k := s[k]] == s;
    LoweringMovesOwnKeys(s[k := higher], k, s[k], d, c);
  }

  // ----- the other ranks -----

  /** A score with the position it came from. */
  datatype Scored = Scored(score: real, index: nat)

  /** std::greater on pairs. */
  predicate Above(a: Scored, b: Scored) { a.score > b.score || (a.score == b.score && a.index > b.index) }

  function Pairs(s: Scores): (r: seq<Scored>)
    ensures |r| == |s| && forall i | 0 <= i < |s| :: r[i] == Scored(s[i], i)
  {
    seq(|s|, i requires 0 <= i < |s| => Scored(s[i], i))
  }

  predicate Permutes(a: seq<Scored>, b: seq<Scored>) { multiset(a) == multiset(b) }

  /** What std::nth_element promises: nothing before position `k` is below, and nothing after it above. */
  predicate NthAt(a: seq<Scored>, k: nat)
  {
    k < |a| && forall i, j | 0 <= i <= k && i < j < |a| && (i == k || j >= k) :: !Above(a[j], a[i])
  }

  /** The first `i` entries are the largest, in order. */
  predicate Chosen(a: seq<Scored>, i: nat) { forall p, q | 0 <= p < i && p < q < |a| :: !Above(a[q], a[p]) }

  lemma ChooseNext(a: seq<Scored>, i: nat, m: nat)
    requires i <= m < |a| && Chosen(a, i) && forall q | i <= q < |a| :: !Above(a[q], a[m])
    ensures var b := a[i := a[m]][m := a[i]]; Chosen(b, i + 1) && Permutes(b, a)
  {
  }

  method Largest(a: array<Scored>, i: nat) returns (m: nat)
    requires i < a.Length
    ensures i <= m < a.Length && forall q | i <= q < a.Length :: !Above(a[q], a[m])
  {
    m := i;
    for j := i + 1 to a.Length
      invariant i <= m < a.Length && forall q | i <= q < j :: !Above(a[q], a[m])
    {
      if Above(a[j], a[m]) {
        m := j;
      }
    }
  }

  /** std::nth_element, by choosing the largest again and again. */
  method NthElement(a: array<Scored>, k: nat)
    requires k < a.Length
    modifies a
    ensures Permutes(a[..], old(a[..])) && NthAt(a[..], k)
  {
    hide Permutes, Above;
    Unpermuted(a[..]);
    for i := 0 to k + 1
      invariant Permutes(a[..], old(a[..])) && Chosen(a[..], i)
    {
      ghost var before := a[..];
      var m := Largest(a, i);
      a[i], a[m] := a[m], a[i];
      assert a[..] == before[i := before[m]][m := before[i]];
      ChooseNext(before, i, m);
      PermutesTrans(a[..], before, old(a[..]));
    }
  }

  lemma Unpermuted(a: seq<Scored>)
    ensures Permutes(a, a)
  {
  }

  lemma PermutesTrans(a: seq<Scored>, b: seq<Scored>, c: seq<Scored>)
    requires Permutes(a, b) && Permutes(b, c)
    ensures Permutes(a, c)
  {
  }

  /** No position occurs twice. */
  predicate DistinctIndices(a: seq<Scored>) { forall i, j | 0 <= i < j < |a| :: a[i].index != a[j].index }

  lemma {:induction false} AtMostOnce(a: seq<Scored>, x: Scored)
    requires DistinctIndices(a)
    ensures multiset(a)[x] <= 1
  {
    if a != [] {
      var front, last := a[..|a| - 1], a[|a| - 1];
      AtMostOnce(front, x);
      assert a == front + [last];
      if x == last {
        assert x !in front;
        assert multiset(front)[x] == 0;
      }
    }
  }

  lemma Twice(a: seq<Scored>, i: nat, j: nat)
    requires i < j < |a| && a[i] == a[j]
    ensures multiset(a)[a[i]] >= 2
  {
    assert a == a[..j] + [a[j]] + a[j + 1..];
    assert a[i] in a[..j];
  }

  /** A permutation of the pairs still has every position once, with its score. */
  lemma Permuted(s: Scores, a: seq<Scored>)
    requires Permutes(a, Pairs(s))
    ensures |a| == |s| && DistinctIndices(a)
    ensures forall p | 0 <= p < |a| :: a[p].index < |s| && a[p] == Scored(s[a[p].index], a[p].index)
    ensures forall i | 0 <= i < |s| :: Scored(s[i], i) in a
  {
    var b := Pairs(s);
    assert |a| == |multiset(a)| == |b|;
    forall p | 0 <= p < |a|
      ensures a[p].index < |s| && a[p] == Scored(s[a[p].index], a[p].index)
    {
      assert a[p] in multiset(a);
      assert a[p] in b;
    }
    forall i | 0 <= i < |s|
      ensures Scored(s[i], i) in a
    {
      assert b[i] in multiset(b);
      assert b[i] in multiset(a);
    }
    forall i, j | 0 <= i < j < |a|
      ensures a[i].index != a[j].index
    {
      AtMostOnce(b, a[i]);
      if a[i].index == a[j].index {
        Twice(a, i, j);
      }
    }
  }

  /** The positions of the first `k` entries. */
  function Indices(a: seq<Scored>, k: nat): (r: seq<nat>)
    requires k <= |a|
    ensures |r| == k && forall i | 0 <= i < k :: r[i] == a[i].index
  {
    seq(k, i requires 0 <= i < k => a[i].index)
  }

  function SetOf(r: seq<nat>): set<nat> { set x | x in r }

  lemma {:induction false} SetSize(r: seq<nat>)
    requires forall i, j | 0 <= i < j < |r| :: r[i] != r[j]
    ensures |SetOf(r)| == |r|
  {
    if r != [] {
      var front, last := r[..|r| - 1], r[|r| - 1];
      SetSize(front);
      assert r == front + [last];
      assert SetOf(r) == SetOf(front) + {last} && last !in SetOf(front);
    }
  }

  /** The nodes that outrank a node. */
  function Outranking(s: Scores, c: nat): set<nat>
    requires c < |s|
  {
    set i | 0 <= i < |s| && Above(Scored(s[i], i), Scored(s[c], c))
  }

  /** The node at a rank: as many others outrank it as its rank says, and those are the nodes before it. */
  lemma RankIsExact(s: Scores, a: seq<Scored>, k: nat)
    requires Permutes(a, Pairs(s)) && NthAt(a, k)
    ensures a[k].index < |s| && k <= |a|
    ensures Outranking(s, a[k].index) == SetOf(Indices(a, k)) && |Outranking(s, a[k].index)| == k
  {
    Permuted(s, a);
    var c := a[k].index;
    forall i | 0 <= i < |s|
      ensures i in Outranking(s, c) <==> i in SetOf(Indices(a, k))
    {
      var p :| 0 <= p < |a| && a[p] == Scored(s[i], i);
      if p < k {
        assert Indices(a, k)[p] == i;
        assert a[p].index != a[k].index;
      }
    }
    SetSize(Indices(a, k));
  }

  /** The chosen nodes are distinct, and no node that was not chosen outranks one that was. */
  predicate Selection(s: Scores, ids: seq<nat>)
  {
    && (forall i | 0 <= i < |ids| :: ids[i] < |s|)
    && (forall i, j | 0 <= i < j < |ids| :: ids[i] != ids[j])
    && (forall i, n | 0 <= i < |ids| && 0 <= n < |s| && n !in ids :: !Above(Scored(s[n], n), Scored(s[ids[i]], ids[i])))
  }

  lemma FrontIsSelection(s: Scores, a: seq<Scored>, k: nat)
    requires Permutes(a, Pairs(s)) && NthAt(a, k) && k <= |a|
    ensures Selection(s, Indices(a, k))
  {
    Permuted(s, a);
    var ids := Indices(a, k);
    forall i, n | 0 <= i < |ids| && 0 <= n < |s| && n !in ids
      ensures !Above(Scored(s[n], n), Scored(s[ids[i]], ids[i]))
    {
      var p :| 0 <= p < |a| && a[p] == Scored(s[n], n);
    }
  }

  // ----- nodes -----

  /** A node: the hash of its name, and its weight. */
  datatype Node = Node(hash: nat, weight: nat)

  /** The score of a node for a key. */
  type Score = (Node, nat) -> real

  /** All that is used of the score: it is not negative, and a larger weight does not lower it. */
  ghost predicate ScoreOk(score: Score)
  {
    && (forall n: Node, key: nat :: score(n, key) >= 0.0)
    && (forall n: Node, w: nat, key: nat {:trigger score(n.(weight := w), key)} |
          w <= n.weight :: score(n.(weight := w), key) <= score(n, key))
  }

  function ScoresOf(nodes: seq<Node>, key: nat, score: Score): (s: Scores)
    ensures |s| == |nodes| && forall i | 0 <= i < |s| :: s[i] == score(nodes[i], key)
  {
    seq(|nodes|, i requires 0 <= i < |nodes| => score(nodes[i], key))
  }

  /** For every key: without node `k`, only its keys move; and lowering its weight moves no others either. */
  lemma MinimalMovement(nodes: seq<Node>, k: nat, w: nat, key: nat, score: Score, c: nat, d: nat, e: nat)
    requires ScoreOk(score) && k < |nodes| && w <= nodes[k].weight && Best(ScoresOf(nodes, key, score), c)
    requires Best(ScoresOf(nodes[..k] + nodes[k + 1..], key, score), d)
    requires Best(ScoresOf(nodes[k := nodes[k].(weight := w)], key, score), e)
    ensures c != k ==> Shift(d, k) == c && e == c
  {
    var s := ScoresOf(nodes, key, score);
    assert ScoresOf(nodes[..k] + nodes[k + 1..], key, score) == Removed(s, k);
    RemovalMovesOwnKeys(s, k, c, d);
    var lower := score(nodes[k].(weight := w), key);
    assert ScoresOf(nodes[k := nodes[k].(weight := w)], key, score) == s[k := lower];
    LoweringMovesOwnKeys(s, k, lower, c, e);
  }

  class RendezvousHash {
    const score: Score
    var weights: seq<Node>

    constructor (score: Score)
      ensures this.score == score && weights == []
    {
      this.score := score;
      weights := [];
    }

    /** build: adds nodes behind those there are. */
    method Build(nodes: seq<(nat, nat)>)
      modifies this
      ensures |weights| == |old(weights)| + |nodes| && old(weights) <= weights
      ensures forall i | 0 <= i < |nodes| :: weights[|old(weights)| + i] == Node(nodes[i].0, nodes[i].1)
    {
      for i := 0 to |nodes|
        invariant |weights| == |old(weights)| + i && old(weights) <= weights
        invariant forall j | 0 <= j < i :: weights[|old(weights)| + j] == Node(nodes[j].0, nodes[j].1)
      {
        weights := weights + [Node(nodes[i].0, nodes[i].1)];
      }
    }

    /** The node at a rank, and the nodes that were chosen on the way. */
    method GetNthByWeightedHash(key: nat, rank: nat) returns (c: nat, ids: seq<nat>)
      requires weights != [] && ScoreOk(score)
      ensures var s, k := ScoresOf(weights, key, score), rank % |weights|;
              && c < |s|
              && (k == 0 ==> Best(s, c) && ids == [c])
              && (k != 0 ==>
                    |Outranking(s, c)| == k && |ids| == k && Selection(s, ids) && Outranking(s, c) == SetOf(ids))
    {
      hide Permutes, NthAt, Selection, Best;
      var s, k := ScoresOf(weights, key, score), rank % |weights|;
      if k == 0 {
        c := GetBest(s);
        ids := [c];
        assert c < |s| by { BestInside(s, c); }
        return;
      }
      var a := new Scored[|s|](i requires 0 <= i < |s| => Scored(s[i], i));
      assert a[..] == Pairs(s);
      NthElement(a, k);
      RankIsExact(s, a[..], k);
      FrontIsSelection(s, a[..], k);
      c := a[k].index;
      ids := Indices(a[..], k);
    }

    /** Several nodes for a key; all of them if as many are asked for. */
    method SelectNUnweighted(key: nat, rank: nat) returns (ids: seq<nat>)
      requires ScoreOk(score)
      ensures var s := ScoresOf(weights, key, score);
              && (rank >= |s| ==> ids == seq(|s|, i => i))
              && (0 < rank < |s| ==> |ids| == rank && Selection(s, ids))
              && (rank == 0 < |s| ==> |ids| == 1 && Best(s, ids[0]))
    {
      hide Selection, Best, Outranking;
      if rank >= |weights| {
        return seq(|weights|, i => i);
      }
      var c;
      c, ids := GetNthByWeightedHash(key, rank);
    }
  }

  lemma BestInside(s: Scores, c: nat)
    requires Best(s, c)
    ensures c < |s|
  {
  }
}
