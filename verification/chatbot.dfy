/** The chatbot object as a value (src/chatbot.cpp): its three non-owning
    handles, its image payload, its special member functions and
    SetCurrentNode. Pointers become `Ptr` values; the image library is an
    uninterpreted payload. */
module ChatBots {

  /** A raw pointer: null, or the address of some object. Node handles
      hold the index of the node in the graph. */
  datatype Ptr = Null | Ref(addr: nat)

  /** The bitmap the chatbot owns through a unique pointer, reduced to the
      name of the file it was loaded from. */
  datatype Image = Image(file: string)

  datatype ChatBot = ChatBot(
    chatLogic: Ptr,
    rootNode: Ptr,
    currentNode: Ptr,
    image: Option<Image>)

  datatype Option<T> = None | Some(value: T)

  /** The only failure the conversation core can hit: a node with no
      answers reached by the bot (`answers.at` throws). */
  datatype Error = EmptyAnswerSet

  datatype Result<T> = Ok(value: T) | Err(error: Error)

  /** A bot that can hold a conversation: all three handles are set. */
  predicate Live(b: ChatBot) {
    b.chatLogic.Ref? && b.rootNode.Ref? && b.currentNode.Ref?
  }

  /** The state a bot is left in once its contents have been moved away:
      every handle null and no image. */
  predicate MovedFrom(b: ChatBot) {
    b.chatLogic == Null && b.rootNode == Null && b.currentNode == Null && b.image == None
  }

  /** Both bots carry the same three handles. */
  predicate SameHandles(a: ChatBot, b: ChatBot) {
    a.chatLogic == b.chatLogic && a.rootNode == b.rootNode && a.currentNode == b.currentNode
  }

  /** The result of a move: the bot that received the contents and the bot
      they were taken from. */
  datatype Transfer = Transfer(dest: ChatBot, source: ChatBot)

  /** The constructor without a file: chat-logic and root handles null, no
      image. The current-node handle is left uninitialised by the source
      and is modelled as null. */
  function DefaultChatBot(): (b: ChatBot)
    ensures b.chatLogic == Null && b.rootNode == Null
    ensures !Live(b) && b.image == None
  {
    ChatBot(Null, Null, Null, None)
  }

  /** The constructor with a file: chat-logic and root handles null, image
      loaded. The current-node handle is left uninitialised by the source
      and is modelled as null. */
  function NewChatBot(filename: string): (b: ChatBot)
    ensures !Live(b) && b.chatLogic == Null && b.rootNode == Null
    ensures b.image == Some(Image(filename))
  {
    ChatBot(Null, Null, Null, Some(Image(filename)))
  }

  /** Copy constructor: the copy shares the three handles and gets a copy of
      the image object, which dereferences the source's image. */
  function CopyConstruct(src: ChatBot): (b: ChatBot)
    requires src.image.Some?
    ensures SameHandles(b, src) && b.image == src.image
    ensures Live(b) <==> Live(src)
  {
    ChatBot(src.chatLogic, src.rootNode, src.currentNode, Some(src.image.value))
  }

  /** Copy assignment. `alias` says that source and destination are the same
      object, in which case nothing happens. */
  function CopyAssign(dst: ChatBot, src: ChatBot, alias: bool): (b: ChatBot)
    requires alias ==> dst == src
    requires !alias ==> src.image.Some?
    ensures alias ==> b == dst
    ensures SameHandles(b, src) && b.image == src.image
  {
    if alias then dst else CopyConstruct(src)
  }

  /** Move constructor: the new bot takes the handles and the image; the
      source is left with null handles and no image. */
  function MoveConstruct(src: ChatBot): (t: Transfer)
    ensures SameHandles(t.dest, src) && t.dest.image == src.image
    ensures MovedFrom(t.source) && !Live(t.source)
    ensures Live(t.dest) <==> Live(src)
  {
    Transfer(src, ChatBot(Null, Null, Null, None))
  }

  /** Move assignment. `alias` says that source and destination are the same
      object, in which case nothing happens; otherwise the destination's old
      contents are dropped and replaced by the source's, and the source is
      left moved-from. */
  function MoveAssign(dst: ChatBot, src: ChatBot, alias: bool): (t: Transfer)
    requires alias ==> dst == src
    ensures alias ==> t.dest == dst && t.source == src
    ensures !alias ==> SameHandles(t.dest, src) && t.dest.image == src.image
    ensures !alias ==> MovedFrom(t.source) && !Live(t.source)
  {
    if alias then Transfer(dst, src) else MoveConstruct(src)
  }

  /** Moving a bot out and back in restores it exactly and leaves the
      temporary moved-from. */
  lemma MoveRoundTrip(b: ChatBot, slot: ChatBot)
    ensures MoveAssign(slot, MoveConstruct(b).dest, false).dest == b
    ensures MovedFrom(MoveAssign(slot, MoveConstruct(b).dest, false).source)
  {
  }

  /** A move never duplicates a live bot: afterwards at most one of the two
      objects is live, and it is live exactly when the source was. */
  lemma MoveKeepsOneLive(dst: ChatBot, src: ChatBot)
    ensures var t := MoveAssign(dst, src, false);
      !(Live(t.dest) && Live(t.source)) && (Live(t.dest) <==> Live(src))
  {
  }

  /** SetCurrentNode: point the bot at `node`, then pick one of the node's
      answers and send it through the chat logic. The random generator is
      the injected `pick`, reduced into range; with no answers the lookup
      fails after the handle has already been updated. */
  function SetCurrentNode(b: ChatBot, node: nat, answers: seq<string>, pick: nat): (r: (ChatBot, Result<string>))
    requires |answers| > 0 ==> b.chatLogic.Ref?
    ensures r.0 == b.(currentNode := Ref(node))
    ensures r.1.Ok? <==> |answers| > 0
    ensures r.1.Ok? ==> r.1.value in answers
  {
    var b' := b.(currentNode := Ref(node));
    if |answers| == 0 then (b', Err(EmptyAnswerSet))
    else (b', Ok(answers[pick % |answers|]))
  }

  /** Every answer of the node can be the one sent. */
  lemma SetCurrentNodeReachesEveryAnswer(b: ChatBot, node: nat, answers: seq<string>, k: nat)
    requires b.chatLogic.Ref? && k < |answers|
    ensures SetCurrentNode(b, node, answers, k).1 == Ok(answers[k])
  {
  }
}
