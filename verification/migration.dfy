/** The chatbot moving between the chatbot slots of the graph's nodes
    (GraphNode::MoveChatbotHere and GraphNode::MoveChatbotToNewNode in
    src/graphnode.cpp, ChatBot::ReceiveMessageFromUser in src/chatbot.cpp).
    The graph is the sequence of its nodes, a node pointer is an index into
    it, and ownership of the bot is the single-live-slot invariant. */
module Migration {
  import opened ChatBots
  import opened GraphNodes
  import opened Selection

  /** The result of one migration: the node now holding the bot, all nodes
      afterwards, and the answer sent to the user (or the failure to pick
      one). */
  datatype Step = Step(holder: nat, nodes: seq<Node>, reply: Result<string>)

  /** Indices of the nodes whose slot holds a live bot. */
  function LiveSlots(nodes: seq<Node>): set<nat> {
    set i: nat | i < |nodes| && Live(nodes[i].chatBot)
  }

  /** Every edge of every node leads to a node of the graph. */
  predicate EdgesInGraph(nodes: seq<Node>) {
    forall i :: 0 <= i < |nodes| ==> TargetsBelow(nodes[i].childEdges, |nodes|)
  }

  /** Node `h` alone holds a live bot, the bot knows it sits at `h`, and its
      root handle points into the graph. */
  predicate HoldsBot(nodes: seq<Node>, h: nat) {
    && h < |nodes|
    && LiveSlots(nodes) == {h}
    && nodes[h].chatBot.currentNode == Ref(h)
    && nodes[h].chatBot.rootNode.Ref? && nodes[h].chatBot.rootNode.addr < |nodes|
  }

  /** The two graphs differ at most in the contents of the chatbot slots. */
  predicate SameGraph(a: seq<Node>, b: seq<Node>) {
    |a| == |b| && forall i :: 0 <= i < |a| ==> a[i].(chatBot := b[i].chatBot) == b[i]
  }

  /** MoveChatbotHere: the node move-assigns the bot (a separate object, its
      by-value parameter) into its slot, registers it with the chat logic
      and makes itself the bot's current node, which sends an answer. */
  function MoveChatbotHere(nodes: seq<Node>, to: nat, bot: ChatBot, answerPick: nat): (r: Step)
    requires to < |nodes| && bot.chatLogic.Ref?
    ensures r.holder == to && |r.nodes| == |nodes|
    ensures r.nodes[to].chatBot == bot.(currentNode := Ref(to))
    ensures forall i :: 0 <= i < |nodes| && i != to ==> r.nodes[i] == nodes[i]
    ensures SameGraph(nodes, r.nodes)
    ensures r.reply.Ok? <==> |nodes[to].answers| > 0
    ensures r.reply.Ok? ==> r.reply.value in nodes[to].answers
  {
    var t := MoveAssign(nodes[to].chatBot, bot, false);
    var (b, reply) := SetCurrentNode(t.dest, to, nodes[to].answers, answerPick);
    Step(to, nodes[to := nodes[to].(chatBot := b)], reply)
  }

  /** MoveChatbotToNewNode: the bot is move-constructed out of this node's
      slot into the parameter of the target's MoveChatbotHere. The source
      slot is emptied before the target slot is written, so a self-loop
      gets its bot back. */
  function MoveChatbotToNewNode(nodes: seq<Node>, from: nat, to: nat, answerPick: nat): (r: Step)
    requires from < |nodes| && to < |nodes|
    requires nodes[from].chatBot.chatLogic.Ref?
    ensures r.holder == to && |r.nodes| == |nodes|
    ensures r.nodes[to].chatBot == nodes[from].chatBot.(currentNode := Ref(to))
    ensures from != to ==> MovedFrom(r.nodes[from].chatBot) && !Live(r.nodes[from].chatBot)
    ensures forall i :: 0 <= i < |nodes| && i != from && i != to ==> r.nodes[i] == nodes[i]
    ensures SameGraph(nodes, r.nodes)
    ensures r.reply.Ok? <==> |nodes[to].answers| > 0
    ensures r.reply.Ok? ==> r.reply.value in nodes[to].answers
  {
    var t := MoveConstruct(nodes[from].chatBot);
    var vacated := nodes[from := nodes[from].(chatBot := t.source)];
    MoveChatbotHere(vacated, to, t.dest, answerPick)
  }

  /** A migration hands the single live bot from `from` to `to`: afterwards
      `to` alone holds it, whether or not `to` is `from`. */
  lemma MigrationKeepsOneBot(nodes: seq<Node>, from: nat, to: nat, answerPick: nat)
    requires HoldsBot(nodes, from) && to < |nodes|
    ensures HoldsBot(MoveChatbotToNewNode(nodes, from, to, answerPick).nodes, to)
  {
    var r := MoveChatbotToNewNode(nodes, from, to, answerPick).nodes;
    forall i: nat | i < |r|
      ensures Live(r[i].chatBot) <==> i == to
    {
      if i != to && i != from {
        assert i !in LiveSlots(nodes);
      }
    }
    assert LiveSlots(r) == {to};
  }

  /** A self-loop puts the bot back exactly as it was. */
  lemma SelfLoopRestoresBot(nodes: seq<Node>, h: nat, answerPick: nat)
    requires HoldsBot(nodes, h)
    ensures MoveChatbotToNewNode(nodes, h, h, answerPick).nodes == nodes
  {
  }

  /** Starting a conversation: a bot with its chat-logic and root handles
      set is moved into the root of a graph holding no live bot, and from
      then on the root alone holds it. */
  lemma AttachEstablishesOneBot(nodes: seq<Node>, root: nat, bot: ChatBot, answerPick: nat)
    requires LiveSlots(nodes) == {} && root < |nodes|
    requires bot.chatLogic.Ref? && bot.rootNode == Ref(root)
    ensures HoldsBot(MoveChatbotHere(nodes, root, bot, answerPick).nodes, root)
  {
  }

  /** ReceiveMessageFromUser, called on the bot in the slot of node `at`:
      score the current node's edges, pick the next node, and tell the
      current node to move its bot there. The root handle is only
      dereferenced when nothing could be scored. */
  function ReceiveMessageFromUser(nodes: seq<Node>, at: nat, message: string, tiePick: nat, answerPick: nat): (r: Step)
    requires at < |nodes|
    requires nodes[at].chatBot.currentNode.Ref? && nodes[at].chatBot.currentNode.addr < |nodes|
    requires var cur := nodes[at].chatBot.currentNode.addr;
      && nodes[cur].chatBot.chatLogic.Ref?
      && TargetsBelow(nodes[cur].childEdges, |nodes|)
      && (!HasKeywords(nodes[cur].childEdges) ==>
            nodes[at].chatBot.rootNode.Ref? && nodes[at].chatBot.rootNode.addr < |nodes|)
    ensures r.holder < |nodes| && |r.nodes| == |nodes|
    ensures var b := nodes[at].chatBot;
      var edges := nodes[b.currentNode.addr].childEdges;
      if HasKeywords(edges) then BestChild(edges, message, r.holder)
      else b.rootNode == Ref(r.holder)
    ensures r.nodes[r.holder].chatBot == nodes[nodes[at].chatBot.currentNode.addr].chatBot.(currentNode := Ref(r.holder))
    ensures var b := nodes[at].chatBot;
      b.rootNode.Ref? ==>
        r.holder == NextNode(nodes[b.currentNode.addr].childEdges, b.rootNode.addr, message, tiePick)
    ensures SameGraph(nodes, r.nodes)
    ensures r.reply.Ok? <==> |nodes[r.holder].answers| > 0
    ensures r.reply.Ok? ==> r.reply.value in nodes[r.holder].answers
  {
    var b := nodes[at].chatBot;
    var cur := b.currentNode.addr;
    var edges := nodes[cur].childEdges;
    var c := Score(edges, message);
    ScoreEmptyIff(edges, message);
    var next :=
      if |c| > 0 then
        BestTargetIsBestChild(edges, message, tiePick);
        BestChildIsChild(edges, message, BestTarget(c, tiePick));
        BestTarget(c, tiePick)
      else b.rootNode.addr;
    MoveChatbotToNewNode(nodes, cur, next, answerPick)
  }

  /** One conversation turn from a state where `h` alone holds the bot
      ends in a state where the next node alone holds it, and the graph's
      edges still stay inside the graph. */
  lemma ReceiveKeepsOneBot(nodes: seq<Node>, h: nat, message: string, tiePick: nat, answerPick: nat)
    requires HoldsBot(nodes, h) && EdgesInGraph(nodes)
    ensures TargetsBelow(nodes[h].childEdges, |nodes|)
    ensures var r := ReceiveMessageFromUser(nodes, h, message, tiePick, answerPick);
      HoldsBot(r.nodes, r.holder) && EdgesInGraph(r.nodes)
  {
    var r := ReceiveMessageFromUser(nodes, h, message, tiePick, answerPick);
    var next := r.holder;
    assert MoveChatbotToNewNode(nodes, h, next, answerPick) == r;
    MigrationKeepsOneBot(nodes, h, next, answerPick);
  }
}
