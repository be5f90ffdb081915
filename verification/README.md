# Chatbot dialogue core in Dafny

A model of the conversation core of a small memory-management chatbot: a
directed graph of dialogue nodes, a case-insensitive Levenshtein distance
used to match the user's message against the keywords on a node's outgoing
edges, and a single chatbot object that is moved (not copied) from the
chatbot slot of one node to the slot of the next on every turn.

Modules, one per concern of the source:

- `Text` — ASCII upper-casing, the normalisation applied before comparing.
- `Levenshtein` — a recursive reference definition of edit distance
  (`Lev`), lemmas about it, and the rolling single-row dynamic programme of
  `ChatBot::ComputeLevenshteinDistance` as an imperative method on an array
  with loop invariants proving it computes `Lev` of the upper-cased strings.
- `ChatBots` — the `ChatBot` value (chat-logic, root-node and current-node
  handles plus an image payload), its constructors, copy and move
  constructors and assignments, and `SetCurrentNode`.
- `GraphNodes` — edges (keywords and child node index), nodes (answers,
  parent edges, child edges, chatbot slot) and the node-building operations.
- `Selection` — scoring of every (edge, keyword) pair of the current node
  and the choice of the next node, with the unstable sort's freedom over
  ties made explicit.
- `Migration` — the graph as a sequence of nodes, `MoveChatbotHere`,
  `MoveChatbotToNewNode`, `ReceiveMessageFromUser`, and the invariant that
  exactly one node's slot holds a live bot.

Modelling choices:

- Pointers are `Ptr` values (`Null` or `Ref(addr)`); a node pointer is the
  node's index in the graph. Object identity in the self-assignment guards
  (`&src == this`) is the explicit `alias` flag.
- A bot is *live* when all three handles are set; a moved-from bot has all
  three null and no image.
- The random answer choice is the injected `answerPick` (any index is
  reachable); the order in which `std::sort`, which is not stable, leaves
  tied pairs is the injected `tiePick`. Every `tiePick` gives a node of
  minimal distance, and every such node is given by some `tiePick`.
- When the target node has no answers, the source's `answers.at(...)`
  fails after `_currentNode` was already updated and the bot already moved;
  the model keeps that state and reports `Err(EmptyAnswerSet)` as the reply.
- A first-in-order tie-break would be the natural reading, but the code
  sorts with `std::sort`, which is not stable and does not promise it; the
  model follows the code and only guarantees minimal distance
  (`Selection.FirstTieIsEarliestMinimal` shows the first-in-order choice is
  one of those it allows).

## Model

| member | source | states |
|---|---|---|
| `Text.UpperChar` | src/chatbot.cpp:176-177 | a lower-case ASCII letter becomes the capital 32 code points below it, every other character is kept, and the result is never a lower-case letter |
| `Text.Upper` | src/chatbot.cpp:176-177 | the upper-cased string has the same length and upper-cases every character at its own position |
| `Text.UpperIdempotent` | src/chatbot.cpp:176-177 | upper-casing an already upper-cased string changes nothing |
| `Text.UpperIdentifiesCaseVariants` | src/chatbot.cpp:176-177 | two strings upper-case to the same string exactly when they agree ignoring letter case |
| `Levenshtein.ComputeLevenshteinDistance` | src/chatbot.cpp:173-221 | the result is the edit distance `Lev` of the two upper-cased strings; an empty first string gives the length of the second and vice versa |
| `Levenshtein.RollingRow` | src/chatbot.cpp:188-220 | for two non-empty strings the cost-row loops end with the full edit distance in the last cell |
| `Levenshtein.NextRow` | src/chatbot.cpp:194-215 | one outer pass turns the row for the first `i` characters into the row for the first `i + 1` characters |
| `Levenshtein.RowCell` | src/chatbot.cpp:200-213 | the value the inner loop stores (the corner when characters match, one plus the least neighbour otherwise) is the next cell of the reference row |
| `Levenshtein.LevMatchLast` | src/chatbot.cpp:203-206 | when the last characters agree the distance equals that of both strings without them, which justifies storing the corner unchanged |
| `Levenshtein.LevInitRight` | src/chatbot.cpp:202-210 | dropping the last character of the second string raises the distance by at most one |
| `Levenshtein.LevLowerBound` | src/chatbot.cpp:173-221 | the distance is at least the difference of the lengths |
| `Levenshtein.LevUpperBound` | src/chatbot.cpp:173-221 | the distance is at most the length of the longer string |
| `Levenshtein.LevSymmetric` | src/chatbot.cpp:173-221 | the distance does not depend on the order of the arguments |
| `Levenshtein.LevZeroIff` | src/chatbot.cpp:173-221 | the distance is zero exactly when the strings are equal |
| `Levenshtein.LevNothingShared` | src/chatbot.cpp:173-221 | strings with no character in common are as far apart as the longer one is long |
| `Levenshtein.Distance` | src/chatbot.cpp:173-221 | the chatbot's distance lies between the difference of the lengths and the length of the longer string |
| `Levenshtein.DistanceEmptyLeft` | src/chatbot.cpp:183-184 | an empty first string is at distance the length of the second |
| `Levenshtein.DistanceEmptyRight` | src/chatbot.cpp:185-186 | an empty second string is at distance the length of the first |
| `Levenshtein.DistanceIgnoresCase` | src/chatbot.cpp:175-177 | replacing either argument by a variant differing only in letter case leaves the distance unchanged |
| `Levenshtein.DistanceZeroIff` | src/chatbot.cpp:173-221 | the chatbot's distance is symmetric and is zero exactly for strings equal ignoring case |
| `Levenshtein.DistanceFoodExample` | src/chatbot.cpp:175-177 | "FOOD" and "food" are at distance zero |
| `ChatBots.DefaultChatBot` | src/chatbot.cpp:12-17 | the default-constructed bot has null chat-logic and root handles, is not live and has no image |
| `ChatBots.NewChatBot` | src/chatbot.cpp:20-30 | the file constructor leaves the handles null and loads the image from the file |
| `ChatBots.CopyConstruct` | src/chatbot.cpp:41-59 | the copy carries the same three handles and the same image payload; it needs the source's image to exist |
| `ChatBots.CopyAssign` | src/chatbot.cpp:61-76 | self copy-assignment leaves the bot unchanged; otherwise the destination takes the source's handles and image |
| `ChatBots.MoveConstruct` | src/chatbot.cpp:78-93 | the new bot takes the source's handles and image; the source is left with null handles, no image, not live |
| `ChatBots.MoveAssign` | src/chatbot.cpp:95-115 | self move-assignment changes nothing; otherwise the destination takes the source's handles and image and the source is left moved-from |
| `ChatBots.MoveRoundTrip` | src/chatbot.cpp:78-115 | moving a bot into a temporary and move-assigning it into a slot restores it exactly and leaves the temporary moved-from |
| `ChatBots.MoveKeepsOneLive` | src/chatbot.cpp:95-115 | after a move the two objects are never both live, and the destination is live exactly when the source was |
| `ChatBots.SetCurrentNode` | src/chatbot.cpp:158-171 | the current-node handle becomes the node and nothing else changes; an answer is sent exactly when the node has answers, and it is one of them |
| `ChatBots.SetCurrentNodeReachesEveryAnswer` | src/chatbot.cpp:163-167 | every answer of the node can be the one chosen |
| `GraphNodes.NewNode` | src/graphnode.cpp:4-7 | a new node has the given id, no answers, no edges and no live bot |
| `GraphNodes.AddToken` | src/graphnode.cpp:23-26 | the token becomes the last answer; earlier answers and every other field are unchanged |
| `GraphNodes.AddEdgeToParentNode` | src/graphnode.cpp:28-31 | the edge is appended to the parent edges and nothing else changes |
| `GraphNodes.AddEdgeToChildNode` | src/graphnode.cpp:33-36 | the edge is appended to the child edges and nothing else changes |
| `GraphNodes.GetChildEdgeAtIndex` | src/graphnode.cpp:54-63 | an in-range index returns one of the node's child edges |
| `GraphNodes.AddTokensAppends` | src/graphnode.cpp:23-26 | tokens added one after another become the answers in the order added |
| `GraphNodes.AddEdgesAppends` | src/graphnode.cpp:33-36 | edges added one after another become the child edges in the order added |
| `GraphNodes.GetChildEdgeAfterAdds` | src/graphnode.cpp:33-60 | after adding edges, the `k`-th added edge is returned at index old count plus `k`, and earlier edges keep their indices |
| `Selection.Score` | src/chatbot.cpp:130-138 | the scored list has one entry per (edge, keyword) pair: its length is the total number of keywords over all edges |
| `Selection.ScoreMembers` | src/chatbot.cpp:130-138 | the scored list holds exactly the scores of the (edge, keyword) pairs, each with the edge's child and the keyword's distance to the message |
| `Selection.ScoreEmptyIff` | src/chatbot.cpp:130-142 | nothing is scored exactly when no edge has a keyword (no edges, or only empty keyword lists) |
| `Selection.MinDist` | src/chatbot.cpp:145-146 | the minimum of a non-empty scored list is at most every distance and is attained |
| `Selection.Ties` | src/chatbot.cpp:145-146 | the listed positions are exactly the entries at the given distance |
| `Selection.BestTarget` | src/chatbot.cpp:145-146 | the entry taken after sorting has the minimal distance of the scored list, and its target is returned |
| `Selection.NextNode` | src/chatbot.cpp:140-152 | with no keyword on any edge the next node is the root; otherwise it is the child of one of the edges |
| `Selection.NextNodeFallback` | src/chatbot.cpp:148-152 | with no keyword to score the next node is the root |
| `Selection.NextNodeSound` | src/chatbot.cpp:140-152 | for every order of ties the next node is allowed: the root when nothing was scored, else the child of an edge owning a keyword whose distance is at most that of every pair |
| `Selection.BestTargetIsBestChild` | src/chatbot.cpp:142-147 | when something was scored, the first pair after sorting leads to the child of an edge owning a minimal keyword |
| `Selection.NextNodeComplete` | src/chatbot.cpp:142-147 | every allowed node is the one chosen for some order of ties |
| `Selection.ClearWinnerIsFollowed` | src/chatbot.cpp:140-147 | a keyword strictly closer than every keyword of edges leading elsewhere decides the next node regardless of tie order |
| `Selection.FirstTieIsEarliestMinimal` | src/chatbot.cpp:145-146 | the first-in-order tie-break is one of the allowed orders: with `tiePick` zero the winner is the earliest pair of minimal distance |
| `Selection.BestChildIsChild` | src/chatbot.cpp:146 | a best child is the child of one of the node's edges |
| `Migration.MoveChatbotHere` | src/graphnode.cpp:40-45 | the target slot holds the given bot with its current node set to the target; no other slot and no answer or edge changes; an answer is sent exactly when the target has answers |
| `Migration.MoveChatbotToNewNode` | src/graphnode.cpp:47-50 | the target slot holds the source's bot with current node the target and the same root and chat-logic handles; a different source slot is left moved-from; all other slots unchanged |
| `Migration.MigrationKeepsOneBot` | src/graphnode.cpp:40-50 | if the source alone holds a live bot, afterwards the target alone does, self-loops included |
| `Migration.SelfLoopRestoresBot` | src/graphnode.cpp:47-50 | moving the bot from a node to itself leaves the graph exactly as it was |
| `Migration.AttachEstablishesOneBot` | src/graphnode.cpp:40-45 | moving a bot with chat-logic and root handles into the root of a graph without a live bot makes the root its sole holder |
| `Migration.ReceiveMessageFromUser` | src/chatbot.cpp:124-156 | the bot ends at the child of an edge with a minimal keyword, or at its root when nothing was scored, carrying its handles with the new current node; when the bot has a root the destination is exactly `Selection.NextNode` of the current node's edges; only chatbot slots change; an answer is sent exactly when the destination has answers, and it is one of them |
| `Migration.ReceiveKeepsOneBot` | src/chatbot.cpp:124-156 | a turn from a state where one node alone holds the bot ends with the next node alone holding it and all edges still inside the graph |

## Left out

- Console logging in constructors, assignments and destructors: output only.
- The image library: the bitmap is an uninterpreted payload named by its file; how the library copies bitmaps is not modelled.
- The random generator seeded from the clock: replaced by the injected `answerPick`.
- `SendMessageToUser` and `SetChatbotHandle` on the chat logic, which is not part of this model: the sent answer is returned as the `reply`, and registering the bot is reduced to the requirement that its chat-logic handle is set.
- The chat logic that builds the graph from a file, creates the bot and sets its handles is not part of this model; its hand-over of the bot to the root is `Migration.AttachEstablishesOneBot`.
- Graph edges beyond their keywords and child node, and the headers, are not part of this model.
- Destructors, array allocation and release, and `unique_ptr` ownership of edges: ownership is the single-live-slot invariant.
- Locale-dependent upper-casing: only ASCII letters are upper-cased.
- Both constructors (with and without a file) leave the current-node handle uninitialised; the model sets it to null.
- Characters of a Dafny `string` stand for the bytes of the source's `std::string`: upper-casing and comparison are per element, so the model agrees with the source only on ASCII text; a multi-byte UTF-8 character counts as one element here but as several bytes in the source.
- `Levenshtein.ComputeLevenshteinDistance`: returns an unbounded natural; the source's `size_t` arithmetic and final narrowing to `int` are not modelled, as they matter only for strings longer than `INT_MAX`.
- `Migration.ReceiveMessageFromUser`: which of several tied minimal pairs wins is left to `tiePick`, because `std::sort` is not stable; the first-in-order tie-break is not promised by the code.
