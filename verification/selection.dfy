/** Edge selection of ChatBot::ReceiveMessageFromUser (src/chatbot.cpp):
    score every (edge, keyword) pair of the current node against the
    message, then follow an edge of a pair with the smallest distance, or
    go back to the root when there is no pair at all. The source sorts the
    pairs with an unstable sort and takes the first, so which of several
    tied pairs wins is not fixed; the choice is the injected `tiePick`. */
module Selection {
  import opened Levenshtein
  import opened GraphNodes

  /** One scored pair: the index of the edge, its child node, and the
      distance of one of its keywords to the message. */
  datatype Scored = Scored(edge: nat, target: nat, dist: nat)

  /** Distance of keyword `k` of edge `i` to the message. */
  function KeywordDistance(edges: seq<Edge>, message: string, i: nat, k: nat): nat
    requires i < |edges| && k < |edges[i].keywords|
  {
    Distance(edges[i].keywords[k], message)
  }

  /** `p` is the score of some (edge, keyword) pair. */
  ghost predicate IsPair(edges: seq<Edge>, message: string, p: Scored) {
    exists i, k :: 0 <= i < |edges| && 0 <= k < |edges[i].keywords|
      && p == Scored(i, edges[i].child, KeywordDistance(edges, message, i, k))
  }

  /** Some edge has at least one keyword, i.e. there is something to score. */
  predicate HasKeywords(edges: seq<Edge>) {
    exists i :: 0 <= i < |edges| && |edges[i].keywords| > 0
  }

  /** Keyword `k` of edge `i` is at least as close to the message as every
      other keyword of every edge. */
  predicate BestPair(edges: seq<Edge>, message: string, i: nat, k: nat) {
    && i < |edges| && k < |edges[i].keywords|
    && forall i2, k2 :: 0 <= i2 < |edges| && 0 <= k2 < |edges[i2].keywords| ==>
         KeywordDistance(edges, message, i, k) <= KeywordDistance(edges, message, i2, k2)
  }

  /** `next` is the child of an edge owning a best keyword. */
  ghost predicate BestChild(edges: seq<Edge>, message: string, next: nat) {
    exists i: nat, k: nat :: BestPair(edges, message, i, k) && next == edges[i].child
  }

  /** Every node the source may move to: the root when nothing was scored,
      otherwise the child of an edge owning a best keyword. */
  ghost predicate AllowedNext(edges: seq<Edge>, root: nat, message: string, next: nat) {
    if !HasKeywords(edges) then next == root else BestChild(edges, message, next)
  }

  /** The scores of the keywords of edge `i`, in keyword order. */
  function ScoreEdge(i: nat, e: Edge, message: string): (c: seq<Scored>)
    ensures |c| == |e.keywords|
    ensures forall k :: 0 <= k < |c| ==> c[k] == Scored(i, e.child, Distance(e.keywords[k], message))
  {
    seq(|e.keywords|, k requires 0 <= k < |e.keywords| => Scored(i, e.child, Distance(e.keywords[k], message)))
  }

  /** The number of (edge, keyword) pairs. */
  function KeywordCount(edges: seq<Edge>): nat
    decreases |edges|
  {
    if |edges| == 0 then 0 else KeywordCount(edges[..|edges| - 1]) + |edges[|edges| - 1].keywords|
  }

  /** The nested loops over edges and their keywords, building `levDists`:
      one entry per (edge, keyword) pair. */
  function Score(edges: seq<Edge>, message: string): (c: seq<Scored>)
    ensures |c| == KeywordCount(edges)
    decreases |edges|
  {
    if |edges| == 0 then []
    else Score(edges[..|edges| - 1], message) + ScoreEdge(|edges| - 1, edges[|edges| - 1], message)
  }

  /** The scored list holds exactly the scores of all (edge, keyword) pairs. */
  lemma {:induction false} ScoreMembers(edges: seq<Edge>, message: string, p: Scored)
    ensures p in Score(edges, message) <==> IsPair(edges, message, p)
    decreases |edges|
  {
    if |edges| > 0 {
      var n := |edges| - 1;
      var front := edges[..n];
      ScoreMembers(front, message, p);
      var last := ScoreEdge(n, edges[n], message);
      if p in last {
        var k :| 0 <= k < |last| && last[k] == p;
        assert p == Scored(n, edges[n].child, KeywordDistance(edges, message, n, k));
      }
      if p in Score(front, message) {
        var i, k :| 0 <= i < |front| && 0 <= k < |front[i].keywords|
          && p == Scored(i, front[i].child, KeywordDistance(front, message, i, k));
        assert p == Scored(i, edges[i].child, KeywordDistance(edges, message, i, k));
      }
      if IsPair(edges, message, p) {
        var i, k :| 0 <= i < |edges| && 0 <= k < |edges[i].keywords|
          && p == Scored(i, edges[i].child, KeywordDistance(edges, message, i, k));
        if i < n {
          assert p == Scored(i, front[i].child, KeywordDistance(front, message, i, k));
        } else {
          assert p == last[k];
        }
      }
    }
  }

  /** The scored list is empty exactly when no edge has a keyword. */
  lemma ScoreEmptyIff(edges: seq<Edge>, message: string)
    ensures |Score(edges, message)| == 0 <==> !HasKeywords(edges)
  {
  }

  /** The smallest distance in a non-empty scored list. */
  function MinDist(c: seq<Scored>): (d: nat)
    requires |c| > 0
    ensures forall j :: 0 <= j < |c| ==> d <= c[j].dist
    ensures exists j :: 0 <= j < |c| && c[j].dist == d
    decreases |c|
  {
    if |c| == 1 then c[0].dist
    else
      var rest := MinDist(c[1..]);
      assert forall j :: 1 <= j < |c| ==> c[j] == c[1..][j - 1];
      if c[0].dist <= rest then c[0].dist else rest
  }

  /** Positions of the entries at distance `d` among the first `n`, in order:
      the pairs an unstable sort may put first when `d` is the minimum. */
  function Ties(c: seq<Scored>, d: nat, n: nat): (t: seq<nat>)
    requires n <= |c|
    ensures forall x :: 0 <= x < |t| ==> t[x] < n && c[t[x]].dist == d
    ensures forall j :: 0 <= j < n && c[j].dist == d ==> j in t
    ensures forall x, y :: 0 <= x < y < |t| ==> t[x] < t[y]
    decreases n
  {
    if n == 0 then []
    else if c[n - 1].dist == d then Ties(c, d, n - 1) + [n - 1]
    else Ties(c, d, n - 1)
  }

  /** The target of the pair the sort puts first. `tiePick` stands for the
      order the unstable sort leaves tied pairs in. */
  function BestTarget(c: seq<Scored>, tiePick: nat): (r: nat)
    requires |c| > 0
    ensures exists j :: 0 <= j < |c| && c[j].dist == MinDist(c) && r == c[j].target
  {
    var t := Ties(c, MinDist(c), |c|);
    assert Witness(c, MinDist(c)) in t;
    c[t[tiePick % |t|]].target
  }

  /** The node the bot moves to: the root when no edge has a keyword,
      otherwise the child of one of the edges. */
  function NextNode(edges: seq<Edge>, root: nat, message: string, tiePick: nat): (r: nat)
    ensures !HasKeywords(edges) ==> r == root
    ensures HasKeywords(edges) ==> exists i :: 0 <= i < |edges| && r == edges[i].child
  {
    var c := Score(edges, message);
    ScoreEmptyIff(edges, message);
    if |c| == 0 then root
    else
      BestTargetIsBestChild(edges, message, tiePick);
      BestChildIsChild(edges, message, BestTarget(c, tiePick));
      BestTarget(c, tiePick)
  }

  /** Without keywords to score the bot goes back to the root. */
  lemma NextNodeFallback(edges: seq<Edge>, root: nat, message: string, tiePick: nat)
    requires !HasKeywords(edges)
    ensures NextNode(edges, root, message, tiePick) == root
  {
    ScoreEmptyIff(edges, message);
  }

  /** Whatever order the sort leaves ties in, the bot moves to an allowed
      node: the child of an edge owning a keyword of minimal distance, or
      the root when nothing was scored. */
  lemma NextNodeSound(edges: seq<Edge>, root: nat, message: string, tiePick: nat)
    ensures AllowedNext(edges, root, message, NextNode(edges, root, message, tiePick))
  {
    ScoreEmptyIff(edges, message);
    if HasKeywords(edges) {
      BestTargetIsBestChild(edges, message, tiePick);
    }
  }

  /** When something was scored, the pair the sort puts first, whatever
      order it leaves ties in, leads to the child of an edge owning a best
      keyword. */
  lemma BestTargetIsBestChild(edges: seq<Edge>, message: string, tiePick: nat)
    requires HasKeywords(edges)
    ensures |Score(edges, message)| > 0
    ensures BestChild(edges, message, BestTarget(Score(edges, message), tiePick))
  {
    var c := Score(edges, message);
    ScoreEmptyIff(edges, message);
    var m := MinDist(c);
    var t := Ties(c, m, |c|);
    var w := Witness(c, m);
    assert w in t;
    var j := t[tiePick % |t|];
    ScoreMembers(edges, message, c[j]);
    var i, k :| 0 <= i < |edges| && 0 <= k < |edges[i].keywords|
      && c[j] == Scored(i, edges[i].child, KeywordDistance(edges, message, i, k));
    forall i2, k2 | 0 <= i2 < |edges| && 0 <= k2 < |edges[i2].keywords|
      ensures KeywordDistance(edges, message, i, k) <= KeywordDistance(edges, message, i2, k2)
    {
      var p := Scored(i2, edges[i2].child, KeywordDistance(edges, message, i2, k2));
      ScoreMembers(edges, message, p);
      var q :| 0 <= q < |c| && c[q] == p;
    }
    assert BestPair(edges, message, i, k);
  }

  /** When one keyword is strictly closer to the message than every keyword
      of every edge leading elsewhere, the order of ties cannot matter: the
      bot follows that keyword's edge. */
  lemma ClearWinnerIsFollowed(edges: seq<Edge>, root: nat, message: string, i: nat, k: nat, tiePick: nat)
    requires i < |edges| && k < |edges[i].keywords|
    requires forall i2, k2 :: 0 <= i2 < |edges| && 0 <= k2 < |edges[i2].keywords| && edges[i2].child != edges[i].child ==>
      KeywordDistance(edges, message, i, k) < KeywordDistance(edges, message, i2, k2)
    ensures NextNode(edges, root, message, tiePick) == edges[i].child
  {
    NextNodeSound(edges, root, message, tiePick);
    assert HasKeywords(edges);
    var next := NextNode(edges, root, message, tiePick);
    var i2: nat, k2: nat :| BestPair(edges, message, i2, k2) && next == edges[i2].child;
    assert KeywordDistance(edges, message, i2, k2) <= KeywordDistance(edges, message, i, k);
  }

  /** The order a stable sort would give, first minimal pair in edge order
      and then keyword order, is one of the orders allowed: with `tiePick`
      zero the winner is the earliest pair of minimal distance. */
  lemma FirstTieIsEarliestMinimal(c: seq<Scored>)
    requires |c| > 0
    ensures var t := Ties(c, MinDist(c), |c|);
      |t| > 0 && BestTarget(c, 0) == c[t[0]].target
      && c[t[0]].dist == MinDist(c)
      && forall q :: 0 <= q < t[0] ==> c[q].dist > MinDist(c)
  {
  }

  /** A best child is the child of one of the edges. */
  lemma BestChildIsChild(edges: seq<Edge>, message: string, next: nat)
    requires BestChild(edges, message, next)
    ensures exists i :: 0 <= i < |edges| && next == edges[i].child
  {
  }

  /** Conversely, every allowed node is chosen for some order of ties. */
  lemma NextNodeComplete(edges: seq<Edge>, root: nat, message: string, next: nat)
    requires AllowedNext(edges, root, message, next)
    ensures exists tiePick :: NextNode(edges, root, message, tiePick) == next
  {
    var c := Score(edges, message);
    ScoreEmptyIff(edges, message);
    if |c| == 0 {
      assert NextNode(edges, root, message, 0) == next;
    } else {
      assert BestChild(edges, message, next);
      var i: nat, k: nat :| BestPair(edges, message, i, k) && next == edges[i].child;
      var p := Scored(i, edges[i].child, KeywordDistance(edges, message, i, k));
      ScoreMembers(edges, message, p);
      var j :| 0 <= j < |c| && c[j] == p;
      var m := MinDist(c);
      var w := Witness(c, m);
      ScoreMembers(edges, message, c[w]);
      assert p.dist <= c[w].dist;
      var t := Ties(c, m, |c|);
      assert j in t;
      var x :| 0 <= x < |t| && t[x] == j;
      ModSmall(x, |t|);
      assert NextNode(edges, root, message, x) == next;
    }
  }

  /** A position holding the given minimum. */
  ghost function Witness(c: seq<Scored>, m: nat): (j: nat)
    requires |c| > 0 && m == MinDist(c)
    ensures j < |c| && c[j].dist == m
  {
    var j :| 0 <= j < |c| && c[j].dist == m; j
  }

  lemma ModSmall(x: nat, n: nat)
    requires x < n
    ensures x % n == x
  {
  }
}
