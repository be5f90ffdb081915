/** Graph nodes (src/graphnode.cpp) and the edges between them. An edge is
    reduced to what the chatbot reads of it: its keywords and the index of
    its child node. Pointers to edges become edge values, since nothing in
    the core compares edges by identity. */
module GraphNodes {
  import opened ChatBots

  datatype Edge = Edge(keywords: seq<string>, child: nat)

  /** Every edge leads to a node index below `n`. */
  predicate TargetsBelow(edges: seq<Edge>, n: nat) {
    forall i :: 0 <= i < |edges| ==> edges[i].child < n
  }

  /** A dialogue state: its answers, the edges pointing at it, the edges it
      owns, and its chatbot slot. */
  datatype Node = Node(
    id: int,
    answers: seq<string>,
    parentEdges: seq<Edge>,
    childEdges: seq<Edge>,
    chatBot: ChatBot)

  /** A fresh node: no answers, no edges, a default-constructed bot. */
  function NewNode(id: int): (n: Node)
    ensures n.id == id && n.answers == [] && n.parentEdges == [] && n.childEdges == []
    ensures !Live(n.chatBot)
  {
    Node(id, [], [], [], DefaultChatBot())
  }

  /** AddToken: the token becomes the last answer; earlier answers and all
      other fields stay as they were. */
  function AddToken(n: Node, token: string): (r: Node)
    ensures |r.answers| == |n.answers| + 1
    ensures r.answers[..|n.answers|] == n.answers && r.answers[|n.answers|] == token
    ensures r.(answers := n.answers) == n
  {
    n.(answers := n.answers + [token])
  }

  /** AddEdgeToParentNode: appends to the incoming edges only. */
  function AddEdgeToParentNode(n: Node, e: Edge): (r: Node)
    ensures |r.parentEdges| == |n.parentEdges| + 1
    ensures r.parentEdges[..|n.parentEdges|] == n.parentEdges && r.parentEdges[|n.parentEdges|] == e
    ensures r.(parentEdges := n.parentEdges) == n
  {
    n.(parentEdges := n.parentEdges + [e])
  }

  /** AddEdgeToChildNode: appends to the owned outgoing edges only. */
  function AddEdgeToChildNode(n: Node, e: Edge): (r: Node)
    ensures |r.childEdges| == |n.childEdges| + 1
    ensures r.childEdges[..|n.childEdges|] == n.childEdges && r.childEdges[|n.childEdges|] == e
    ensures r.(childEdges := n.childEdges) == n
  {
    n.(childEdges := n.childEdges + [e])
  }

  /** GetChildEdgeAtIndex: the vector is indexed without a bounds check, so
      the index must be in range. */
  function GetChildEdgeAtIndex(n: Node, index: int): (e: Edge)
    requires 0 <= index < |n.childEdges|
    ensures e in n.childEdges
  {
    n.childEdges[index]
  }

  /** Adding the tokens of `ts` one after another. */
  function AddTokens(n: Node, ts: seq<string>): Node
    decreases |ts|
  {
    if |ts| == 0 then n else AddTokens(AddToken(n, ts[0]), ts[1..])
  }

  /** Adding the edges of `es` one after another, as a graph loader does. */
  function AddEdgesToChildNode(n: Node, es: seq<Edge>): Node
    decreases |es|
  {
    if |es| == 0 then n else AddEdgesToChildNode(AddEdgeToChildNode(n, es[0]), es[1..])
  }

  /** Tokens added in turn are the node's answers in the order added. */
  lemma {:induction false} AddTokensAppends(n: Node, ts: seq<string>)
    ensures AddTokens(n, ts) == n.(answers := n.answers + ts)
    decreases |ts|
  {
    if |ts| > 0 {
      AddTokensAppends(AddToken(n, ts[0]), ts[1..]);
      assert n.answers + [ts[0]] + ts[1..] == n.answers + ts;
    }
  }

  /** Edges added in turn come back from GetChildEdgeAtIndex in the order
      added: the `k`-th added edge sits at index `|childEdges| + k`, and the
      edges already there keep their indices. */
  lemma {:induction false} GetChildEdgeAfterAdds(n: Node, es: seq<Edge>, k: nat)
    requires k < |es|
    ensures |AddEdgesToChildNode(n, es).childEdges| == |n.childEdges| + |es|
    ensures GetChildEdgeAtIndex(AddEdgesToChildNode(n, es), |n.childEdges| + k) == es[k]
    ensures forall i :: 0 <= i < |n.childEdges| ==>
      GetChildEdgeAtIndex(AddEdgesToChildNode(n, es), i) == n.childEdges[i]
  {
    AddEdgesAppends(n, es);
  }

  lemma {:induction false} AddEdgesAppends(n: Node, es: seq<Edge>)
    ensures AddEdgesToChildNode(n, es) == n.(childEdges := n.childEdges + es)
    decreases |es|
  {
    if |es| > 0 {
      AddEdgesAppends(AddEdgeToChildNode(n, es[0]), es[1..]);
      assert n.childEdges + [es[0]] + es[1..] == n.childEdges + es;
    }
  }
}
