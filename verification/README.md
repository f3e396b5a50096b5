# Luna-AI chat controller, modelled in Dafny

This project models the chat-session controller of the Luna-AI web client,
plus two small state machines next to it.

The controller keeps three pieces of state:

- an ordered list of chats, each with an id, a display name and its messages;
- the id of the current chat, or null;
- a loading flag that is up while a reply from the remote flow is awaited.

It creates chats seeded with an assistant greeting, deletes them, selects one,
and sends a message. A send is guarded, appends the user's message and calls
the flow. It then ends in one of three ways:

- it appends the reply found at `outputs[0].outputs[0].outputs.message.message.text`;
- it appends a fixed error message, when the call or that access chain threw;
- it appends nothing more, when the response or its `outputs` is falsy.

The flag goes down whatever happened.

The two state machines are the "Thinking" ticker shown while waiting, and the
input box that decides when typed text is handed on.

Files:

- `wrappers.dfy`: `Option`.
- `js_value.dfy`: two modules.
  - `JsValues` holds the JSON values a parsed response can contain, plus `undefined`. It gives JavaScript truthiness, property access that throws a TypeError on `null`/`undefined`, and a walk along a key path.
  - `JsStrings` holds ECMAScript `trim` and the blank test `!s.trim()`.
- `flow_response.dfy` (`FlowResponse`): the tweaks constant, the request, the two call outcomes (threw or returned), and the guarded extraction chain.
- `chat.dfy` (`ChatSession`):
  - the `Message` and `Chat` records;
  - the list operations as functions (`find`, `filter`, `map`);
  - the session invariant and the lemmas about each operation;
  - the class `ChatController`, whose methods update the state fields.
- `message_list.dfy` (`LoadingTicker`): the ticker step and its period-4 cycle.
- `input_form.dfy` (`InputBox`): the class `InputForm`, with the `input` buffer, the submit guard, the Enter/Shift rule and the disabled flag.

The invariant kept by every controller method is:

- chat ids are distinct;
- the current id is null or names a chat in the list.

A send runs in two halves around the awaited call:

- `BeginSend` covers `src/components/Chat.tsx:96-114`. It returns what the closure captured: the pre-send snapshot, the chat id, and the messages with the user's message appended. It also carries the request that lines 117-140 build from the input.
- `CompleteSend` covers lines 142-178. After a reply or a throw it rebuilds the list from that snapshot. When the response or its `outputs` is falsy it leaves the list as it is, and it lowers the flag in every case.
- `SendMessage` runs the two halves back to back.

Four points about the code that the model keeps as written:

- The reply text is stored as it is found at `output.message.text`. An empty string, a non-string value and `undefined` (`MissingText`) are all appended as the assistant's content; none of them is an error.
- No operation fails with a "not found" error. Selection is only offered for listed ids, a send to an unlisted current id is silently rejected, and the list is rebuilt with `map`, which changes nothing when no id matches.
- The single-flight guard is one `isLoading` flag for the whole controller, not one per chat: while any send is in flight, every send is rejected.
- The greeting is stored as the source file spells it: the waving-hand emoji's four UTF-8 bytes, each read as a Windows-1252 character (`ðŸ‘‹`).

## Model

| member | source | states |
|---|---|---|
| `JsValues.Get` | src/components/Chat.tsx:143-149 | a property access throws exactly when the value is `null` or `undefined`; an object answers its own member or `undefined`, an array or string answers an in-range index with its element (a one-character string), an out-of-range index gives `undefined`, `length` of an array or string gives its length, any other name on a non-object and any key on a boolean or number gives `undefined` |
| `JsValues.WalkAppend` | src/components/Chat.tsx:143-149 | walking a joined key path is walking the first part, then the rest from where it stopped (a TypeError ends it) |
| `JsStrings.TrimStart` | src/components/Chat.tsx:97 | leading trim: a suffix of the input that starts with a non-space, and everything dropped is white space |
| `JsStrings.TrimEnd` | src/components/Chat.tsx:97 | trailing trim: a prefix of the input that ends with a non-space, and everything dropped is white space |
| `JsStrings.Trim` | src/components/Chat.tsx:97 | `trim` returns a contiguous slice of the input that is empty or starts and ends with a non-space, and everything cut on either side is white space |
| `JsStrings.TrimEmptyIffAllWhiteSpace` | src/components/InputForm.tsx:40 | `trim` gives the empty string exactly when every character is ECMAScript white space or a line terminator |
| `JsStrings.Blank` | src/components/InputForm.tsx:40 | `!input.trim()` holds exactly when every character is ECMAScript white space or a line terminator |
| `FlowResponse.RequestFor` | src/components/Chat.tsx:117-140 | the flow gets the input untrimmed, "chat" in and out, no streaming, and a tweaks object keyed by exactly the 13 node ids, each mapped to an empty object |
| `FlowResponse.Extract` | src/components/Chat.tsx:142-149 | no reply iff the response or its `outputs` is falsy; otherwise the extraction throws, yields `undefined` text, or yields text t, exactly as the full path walk `outputs[0].outputs[0].outputs.message.message.text` does |
| `FlowResponse.Settle` | src/components/Chat.tsx:132-175 | the fallback is taken iff the call threw or the walk threw behind the guard; a reply t iff the call returned, passed the guard and the walk reached t; nothing iff the call returned and the guard failed |
| `FlowResponse.WalkWellFormed` | src/components/Chat.tsx:143-149 | the full key path through a response of the shape `{outputs:[{outputs:[{outputs:{message:{message:{text}}}}]}]}` (`WellFormed`) reaches its text |
| `FlowResponse.ExtractWellFormed` | src/components/Chat.tsx:142-149 | a response of the shape `{outputs:[{outputs:[{outputs:{message:{message:{text}}}}]}]}` (`WellFormed`) yields `Reply` of its text, whatever that text is, the empty string included |
| `FlowResponse.ExtractEmptyOutputsThrows` | src/components/Chat.tsx:142-145 | `{outputs: []}` passes the guard and then throws, so it ends in the fallback |
| `ChatSession.Ids` | src/components/Chat.tsx:27-31 | the ids of the chats, position by position |
| `ChatSession.NewChat` | src/components/Chat.tsx:70-80 | a new chat carries the given id and name and exactly one message: the assistant's greeting, stamped with the creation time |
| `ChatSession.Find` | src/components/Chat.tsx:99-100 | `find` finds nothing iff no chat has the id; otherwise it returns the first chat in the list with that id |
| `ChatSession.FindUnique` | src/components/Chat.tsx:99 | with distinct ids, `find` returns the one chat carrying the id |
| `ChatSession.Without` | src/components/Chat.tsx:89 | `filter` keeps exactly the chats whose id differs; an absent id leaves the list unchanged |
| `ChatSession.WithoutAppend` | src/components/Chat.tsx:89 | `filter` keeps relative order: it distributes over concatenation |
| `ChatSession.WithoutIds` | src/components/Chat.tsx:89 | after `filter` the id is gone, and every remaining id was there before |
| `ChatSession.WithoutUnique` | src/components/Chat.tsx:89 | `filter` keeps ids distinct |
| `ChatSession.FirstIdOrNull` | src/components/Chat.tsx:92 | `updatedChats[0]?.id \|\| null` is null iff the list is empty or its first id is ""; otherwise it is the first id |
| `ChatSession.Repoint` | src/components/Chat.tsx:91-93 | the current id is kept when another chat is deleted; when the current chat is deleted it becomes the first remaining id, or null if none remains or that id is "" |
| `ChatSession.CreateKeepsInvariant` | src/components/Chat.tsx:69-82 | appending a chat with a fresh id and making it current keeps the invariant, and its id is last |
| `ChatSession.DeleteKeepsInvariant` | src/components/Chat.tsx:88-94 | deleting, and re-pointing current to the first remaining chat (or null) when it was the deleted one, keeps the invariant |
| `ChatSession.WithMessages` | src/components/Chat.tsx:109-111 | the `map` keeps length, ids and order, leaves every other chat unchanged and replaces only the messages of the matching chat |
| `ChatSession.SendRejected` | src/components/Chat.tsx:97-100 | a send is rejected iff the input is only white space, a send is in flight, the current id is null or "", or no listed chat carries it |
| `ChatSession.Prepare` | src/components/Chat.tsx:99-111 | the pending send keeps the pre-send list and the current id; its messages are those of the first chat with the id plus the untrimmed user message; the request carries the untrimmed input |
| `ChatSession.ReplyMessages` | src/components/Chat.tsx:147-167 | no message for a failed guard; otherwise one assistant message stamped with the reply time, holding the fixed error text after a throw, the value reached otherwise (`undefined` included) |
| `ChatSession.SendResult` | src/components/Chat.tsx:153-157 | the list rebuilt from the snapshot keeps every id in order and leaves every chat but the current one as it was |
| `ChatSession.SendFrame` | src/components/Chat.tsx:153-157 | after a send, ids and order are unchanged, and every chat other than the current one is unchanged |
| `ChatSession.SendAppendsToCurrent` | src/components/Chat.tsx:102-173 | the current chat keeps its name and ends with its old messages, then the untrimmed user message, then the reply messages; the flow gets the untrimmed input |
| `ChatSession.ReplyFollowsOutcome` | src/components/Chat.tsx:142-175 | nothing is appended after the user message iff the call returned without `outputs`; a thrown call or walk appends the fixed error message; a resolved path appends one assistant message with that value |
| `ChatSession.FallbackOnFailure` | src/components/Chat.tsx:161-175 | a failing call on a fresh chat leaves it holding greeting, user text and error message, in that order |
| `ChatSession.ChatController.constructor` | src/components/Chat.tsx:34-36 | the state starts with no chats, no current chat and the flag down |
| `ChatSession.ChatController.CreateNewChat` | src/components/Chat.tsx:69-82 | appends one greeted chat under a fresh id at the end, makes it current, keeps the invariant |
| `ChatSession.ChatController.DeleteChat` | src/components/Chat.tsx:88-94 | the list becomes the filtered list; current is re-pointed only if it was the deleted id; keeps the invariant |
| `ChatSession.ChatController.SelectChat` | src/components/Chat.tsx:202-207 | a listed id becomes current, nothing else changes |
| `ChatSession.ChatController.BeginSend` | src/components/Chat.tsx:96-114 | rejected, changing nothing, iff the input is blank, a send is in flight, there is no current id, or it is not listed; otherwise it appends the user message to the current chat and raises the flag |
| `ChatSession.ChatController.CompleteSend` | src/components/Chat.tsx:142-178 | the list becomes the snapshot with user message and reply messages on the current chat; the flag is down |
| `ChatSession.ChatController.SendMessage` | src/components/Chat.tsx:96-179 | the whole send: a rejected send changes nothing; an accepted one leaves the list at the send result and the flag down |
| `LoadingTicker.Next` | src/components/MessageList.tsx:29-32 | a tick turns "Thinking..." into "Thinking" and appends one dot to any other text |
| `LoadingTicker.TickStep` | src/components/MessageList.tsx:29-32 | from "Thinking" with k dots, a tick gives k + 1 dots, wrapping from three to none |
| `LoadingTicker.Dots` | src/components/MessageList.tsx:30-31 | a run of k dots |
| `LoadingTicker.AfterCycles` | src/components/MessageList.tsx:29-32 | after n ticks from "Thinking", the text is "Thinking" followed by n mod 4 dots |
| `LoadingTicker.Reachable` | src/components/MessageList.tsx:16-32 | every reachable text is "Thinking" with 0 to 3 dots |
| `LoadingTicker.PeriodFour` | src/components/MessageList.tsx:16-32 | two tick counts give the same text iff they agree mod 4, so the period is exactly 4 |
| `InputBox.IsSubmitKey` | src/components/InputForm.tsx:33 | a key submits iff it is Enter and Shift is not held |
| `InputBox.InputForm.constructor` | src/components/InputForm.tsx:22 | the buffer starts empty |
| `InputBox.InputForm.OnChange` | src/components/InputForm.tsx:58 | typing replaces the buffer with the textarea's value |
| `InputBox.InputForm.SendDisabled` | src/components/InputForm.tsx:84 | the send button is disabled exactly while loading or while the buffer holds only white space |
| `InputBox.InputForm.HandleSendMessage` | src/components/InputForm.tsx:39-43 | nothing is sent and the buffer is kept exactly when the send button is disabled (blank or loading); otherwise the untrimmed buffer is sent and cleared |
| `InputBox.InputForm.HandleKeyDown` | src/components/InputForm.tsx:32-37 | only Enter without Shift prevents the default and submits, with the same guard as the button |

## Left out

- Persistence to `localStorage` (src/components/Chat.tsx:58-67): browser I/O. The stored JSON is parsed without a guard, and dates come back as strings.
- Generated values: `uuidv4()`, `new Date()` and `toLocaleString()` are parameters. The new id must not be in the list.
- The flow call `runFlow`: its code is not part of this model. It is an outcome parameter, either threw or returned a value. The flow and workspace ids and the token (lines 13-19, from the environment) are not modelled.
- The await interleaving. `CompleteSend` requires `Sending(p)`: nothing changed the state since `BeginSend`. So the model says nothing about a create, delete or select made while a reply is awaited; the sidebar's buttons stay enabled during a send (src/components/Sidebar.tsx:58-88). In the source:
  - only two of the three endings rebuild the list from the pre-send snapshot: the reply path (src/components/Chat.tsx:153-159) and the catch (src/components/Chat.tsx:169-175). Either one discards a create or delete made during the await;
  - when the response or its `outputs` is falsy, the list is not written again, so such a change stays;
  - a create during a send makes the new chat current (src/components/Chat.tsx:82), and the rebuild then drops that chat. The current id then names no listed chat, so the source itself breaks the invariant "the current id is null or names a listed chat". The model proves the invariant only for sends that nothing interleaves;
  - a select during a send changes the current id, but the reply still goes to the chat captured when the send began.
- Logging of the caught error (`console.error`).
- UI plumbing:
  - closing the mobile sidebar on create and select (lines 83-85, 204-206);
  - theme, resize handling and rendering;
  - the `setInterval` timing that drives the ticker, and its start/stop on the loading flag.
- src/app/api/chat/route.ts and next.config.ts: a proxy and a rewrite rule with no state.
- JavaScript value details:
  - string indexing and string `length` count Unicode scalar values, not UTF-16 code units;
  - numbers are reals (JSON has no NaN);
  - property names inherited from built-in prototypes are not modelled; only the names on the reply path are looked up, and `length` of arrays and strings is the only own non-index property modelled on them.
- `Role` is an enumeration. The source types the role as any string, but only ever writes "user" and "assistant".
- Selection of an unlisted id is not modelled. `SelectChat` requires a listed id, because the sidebar only offers the ids of the displayed chats (src/components/Sidebar.tsx:67-76).
- ChatSession.SendAppendsToCurrent: stated only for distinct ids. With duplicate ids, `find` takes the first match and every chat with that id receives its messages. `WithMessages` and `Prepare` model that case, but no lemma states it.
- ChatSession.ReplyFollowsOutcome: the fixed error message is stated as a consequence of a throw, not as an if-and-only-if. A reply whose text equals the error text is indistinguishable from it.
