/**
 * The chat-session controller: an ordered list of chats, the id of the
 * current chat and a loading flag, with the operations that create, delete
 * and select chats and send one message through the flow.
 */
module ChatSession {
  import opened Wrappers
  import opened JsValues
  import opened JsStrings
  import opened FlowResponse

  /** A wall-clock instant, as `new Date()` would give it; supplied by the caller. */
  type Instant = int

  datatype Role = User | Assistant

  /** `content` is whatever value was stored, which for a reply may be `undefined`. */
  datatype Message = Message(role: Role, content: JsValue, timestamp: Instant)

  datatype Chat = Chat(id: string, name: string, messages: seq<Message>)

  /** As the source file spells it: the waving-hand emoji's UTF-8 bytes read as four characters. */
  const Greeting: string := "Hello! How can I help you today? \U{00F0}\U{0178}\U{2018}\U{2039}"

  const ErrorText: string := "Sorry, an error occurred. Please try again."

  function Text(s: string): JsValue {
    Val(JStr(s))
  }

  // ---------------------------------------------------------------------------
  // The chat list and its invariant
  // ---------------------------------------------------------------------------

  /** The ids of the chats, in display order. */
  function Ids(chats: seq<Chat>): (r: seq<string>)
    ensures |r| == |chats|
    ensures forall i :: 0 <= i < |chats| ==> r[i] == chats[i].id
  {
    if chats == [] then [] else [chats[0].id] + Ids(chats[1..])
  }

  predicate UniqueIds(chats: seq<Chat>) {
    forall i, j :: 0 <= i < j < |chats| ==> chats[i].id != chats[j].id
  }

  /** Ids are distinct, and the current id is null or names a chat in the list. */
  predicate SessionInvariant(chats: seq<Chat>, current: Option<string>) {
    UniqueIds(chats) && (current.Some? ==> current.value in Ids(chats))
  }

  /** A new chat holds exactly one message: the assistant's greeting. */
  function NewChat(id: string, name: string, createdAt: Instant): (c: Chat)
    ensures c.id == id && c.name == name
    ensures |c.messages| == 1 && c.messages[0].role == Assistant
    ensures c.messages[0].content == Text(Greeting) && c.messages[0].timestamp == createdAt
  {
    Chat(id, name, [Message(Assistant, Text(Greeting), createdAt)])
  }

  /** `chats.find(chat => chat.id === id)`: the first chat with that id. */
  function Find(chats: seq<Chat>, id: string): (r: Option<Chat>)
    ensures r.None? <==> id !in Ids(chats)
    ensures r.Some? ==> r.value in chats && r.value.id == id
    ensures r.Some? ==> exists k :: (0 <= k < |chats| && chats[k] == r.value
      && forall j :: 0 <= j < k ==> chats[j].id != id)
  {
    if chats == [] then None
    else if chats[0].id == id then Some(chats[0])
    else
      var r := Find(chats[1..], id);
      assert r.Some? ==> exists k :: (0 <= k < |chats| && chats[k] == r.value
        && forall j :: 0 <= j < k ==> chats[j].id != id)
      by {
        if r.Some? {
          var k :| 0 <= k < |chats[1..]| && chats[1..][k] == r.value
            && forall j :: 0 <= j < k ==> chats[1..][j].id != id;
          assert chats[k + 1] == r.value;
          assert forall j :: 0 <= j < k + 1 ==> chats[j].id != id by {
            forall j | 0 <= j < k + 1 ensures chats[j].id != id {
              if j > 0 { assert chats[j] == chats[1..][j - 1]; }
            }
          }
        }
      }
      r
  }

  /** With distinct ids, the chat found is the one chat carrying the id. */
  lemma FindUnique(chats: seq<Chat>, k: int)
    requires UniqueIds(chats) && 0 <= k < |chats|
    ensures Find(chats, chats[k].id) == Some(chats[k])
  {
    var r := Find(chats, chats[k].id);
    assert chats[k].id in Ids(chats);
    var j :| 0 <= j < |chats| && chats[j] == r.value;
  }

  /** `chats.filter(chat => chat.id !== id)`. */
  function Without(chats: seq<Chat>, id: string): (r: seq<Chat>)
    ensures forall c :: c in r <==> c in chats && c.id != id
    ensures id !in Ids(chats) ==> r == chats
    ensures |r| <= |chats|
  {
    if chats == [] then []
    else if chats[0].id != id then [chats[0]] + Without(chats[1..], id)
    else Without(chats[1..], id)
  }

  /** Filtering keeps the relative order: it distributes over concatenation. */
  lemma {:induction false} WithoutAppend(a: seq<Chat>, b: seq<Chat>, id: string)
    ensures Without(a + b, id) == Without(a, id) + Without(b, id)
  {
    if a == [] {
      assert a + b == b;
    } else {
      assert (a + b)[0] == a[0];
      assert (a + b)[1..] == a[1..] + b;
      WithoutAppend(a[1..], b, id);
    }
  }

  /** The id is gone, and every remaining id was already there. */
  lemma WithoutIds(chats: seq<Chat>, id: string)
    ensures id !in Ids(Without(chats, id))
    ensures forall x :: x in Ids(Without(chats, id)) ==> x in Ids(chats)
  {
    var r := Without(chats, id);
    forall x | x in Ids(r)
      ensures x in Ids(chats) && x != id
    {
      var i :| 0 <= i < |r| && Ids(r)[i] == x;
      assert r[i] in r;
      var j :| 0 <= j < |chats| && chats[j] == r[i];
      assert Ids(chats)[j] == x;
    }
  }

  /** Distinct ids, split at the head: the head's id is not among the rest. */
  lemma UniqueCons(chats: seq<Chat>)
    requires chats != []
    ensures UniqueIds(chats) <==> chats[0].id !in Ids(chats[1..]) && UniqueIds(chats[1..])
  {
    var rest := chats[1..];
    if UniqueIds(chats) {
      forall i | 0 <= i < |rest|
        ensures Ids(rest)[i] != chats[0].id
      {
        assert rest[i] == chats[i + 1];
      }
    }
    if chats[0].id !in Ids(rest) && UniqueIds(rest) {
      forall i, j | 0 <= i < j < |chats|
        ensures chats[i].id != chats[j].id
      {
        if i == 0 {
          assert Ids(rest)[j - 1] == chats[j].id;
        } else {
          assert chats[i] == rest[i - 1] && chats[j] == rest[j - 1];
        }
      }
    }
  }

  /** Filtering a list with distinct ids leaves distinct ids. */
  lemma {:induction false} WithoutUnique(chats: seq<Chat>, id: string)
    requires UniqueIds(chats)
    ensures UniqueIds(Without(chats, id))
  {
    if chats != [] {
      UniqueCons(chats);
      WithoutUnique(chats[1..], id);
      if chats[0].id != id {
        var rest := Without(chats[1..], id);
        WithoutIds(chats[1..], id);
        assert ([chats[0]] + rest)[1..] == rest;
        UniqueCons([chats[0]] + rest);
      }
    }
  }

  /** `updatedChats[0]?.id || null`: the first id, unless there is none or it is "". */
  function FirstIdOrNull(chats: seq<Chat>): (r: Option<string>)
    ensures r.None? <==> chats == [] || Ids(chats)[0] == ""
    ensures r.Some? ==> r.value == Ids(chats)[0] && r.value in Ids(chats)
  {
    if chats != [] && chats[0].id != "" then Some(chats[0].id) else None
  }

  /**
   * The current id after deleting `deleted` and keeping `remaining`: kept when
   * another chat was deleted, otherwise the first remaining id, or null when
   * no chat remains or the first id is "".
   */
  function Repoint(current: Option<string>, deleted: string, remaining: seq<Chat>): (r: Option<string>)
    ensures current != Some(deleted) ==> r == current
    ensures current == Some(deleted) && (remaining == [] || remaining[0].id == "") ==> r == None
    ensures current == Some(deleted) && remaining != [] && remaining[0].id != "" ==> r == Some(remaining[0].id)
  {
    if current == Some(deleted) then FirstIdOrNull(remaining) else current
  }

  /** Appending a chat with a fresh id and making it current keeps the invariant. */
  lemma CreateKeepsInvariant(chats: seq<Chat>, current: Option<string>, c: Chat)
    requires SessionInvariant(chats, current) && c.id !in Ids(chats)
    ensures SessionInvariant(chats + [c], Some(c.id))
    ensures Ids(chats + [c]) == Ids(chats) + [c.id]
  {
    var r := chats + [c];
    forall i, j | 0 <= i < j < |r|
      ensures r[i].id != r[j].id
    {
      if j == |chats| {
        assert Ids(chats)[i] == r[i].id;
      }
    }
    assert Ids(r)[|chats|] == c.id;
  }

  /** Deleting a chat, and re-pointing the current id if it was that chat, keeps the invariant. */
  lemma DeleteKeepsInvariant(chats: seq<Chat>, current: Option<string>, id: string)
    requires SessionInvariant(chats, current)
    ensures SessionInvariant(Without(chats, id), Repoint(current, id, Without(chats, id)))
  {
    var r := Without(chats, id);
    WithoutUnique(chats, id);
    var next := Repoint(current, id, r);
    if current.Some? && current.value != id {
      var k :| 0 <= k < |chats| && chats[k].id == current.value;
      assert chats[k] in r;
      var m :| 0 <= m < |r| && r[m] == chats[k];
      assert Ids(r)[m] == current.value;
    } else if next.Some? {
      assert next.value == Ids(r)[0];
    }
  }

  // ---------------------------------------------------------------------------
  // Sending a message
  // ---------------------------------------------------------------------------

  /** `chats.map(chat => chat.id === id ? { ...chat, messages } : chat)`. */
  function WithMessages(chats: seq<Chat>, id: string, messages: seq<Message>): (r: seq<Chat>)
    ensures |r| == |chats| && Ids(r) == Ids(chats)
    ensures forall i :: 0 <= i < |r| && chats[i].id != id ==> r[i] == chats[i]
    ensures forall i :: 0 <= i < |r| && chats[i].id == id ==>
      r[i].name == chats[i].name && r[i].messages == messages
  {
    var r := seq(|chats|, i requires 0 <= i < |chats| =>
      if chats[i].id == id then chats[i].(messages := messages) else chats[i]);
    assert Ids(r) == Ids(chats);
    r
  }

  /** Replacing one chat's messages keeps the invariant for any current id. */
  lemma WithMessagesKeepsInvariant(chats: seq<Chat>, current: Option<string>, id: string, messages: seq<Message>)
    requires SessionInvariant(chats, current)
    ensures SessionInvariant(WithMessages(chats, id, messages), current)
  {
    var r := WithMessages(chats, id, messages);
    forall i, j | 0 <= i < j < |r|
      ensures r[i].id != r[j].id
    {
      assert Ids(r)[i] == chats[i].id && Ids(r)[j] == chats[j].id;
    }
  }

  /**
   * The guard of a send: input that is only white space, a send in flight,
   * no current id (null or ""), or a current id that no listed chat carries.
   */
  function SendRejected(input: string, isLoading: bool, chats: seq<Chat>, current: Option<string>): (rejected: bool)
    ensures rejected <==>
      || AllWhiteSpace(input)
      || isLoading
      || current.None?
      || current.value == ""
      || current.value !in Ids(chats)
  {
    || Blank(input)
    || isLoading
    || current.None?
    || current.value == ""
    || Find(chats, current.value).None?
  }

  /** What the send closure holds across the awaited call. */
  datatype PendingSend = PendingSend(
    snapshot: seq<Chat>,
    chatId: string,
    updatedMessages: seq<Message>,
    request: FlowRequest)

  /**
   * The user message and the request, built from the pre-send snapshot: the
   * first chat with the id gets the untrimmed input appended as a user message.
   */
  function Prepare(chats: seq<Chat>, chatId: string, input: string, sentAt: Instant): (p: PendingSend)
    requires chatId in Ids(chats)
    ensures p.snapshot == chats && p.chatId == chatId && p.request == RequestFor(input)
    ensures exists k :: (0 <= k < |chats| && chats[k].id == chatId
      && (forall j :: 0 <= j < k ==> chats[j].id != chatId)
      && p.updatedMessages == chats[k].messages + [Message(User, Text(input), sentAt)])
  {
    var current := Find(chats, chatId).value;
    PendingSend(chats, chatId, current.messages + [Message(User, Text(input), sentAt)], RequestFor(input))
  }

  /** The messages appended after the user's, for each way the call can end. */
  function ReplyMessages(e: Extraction, at: Instant): (r: seq<Message>)
    ensures e == NoReply <==> r == []
    ensures e != NoReply ==> |r| == 1 && r[0].role == Assistant && r[0].timestamp == at
    ensures e == Threw ==> r[0].content == Text(ErrorText)
    ensures e.Reply? ==> r[0].content == Val(e.text)
    ensures e == MissingText ==> r[0].content == Undefined
  {
    match e
    case NoReply => []
    case Reply(text) => [Message(Assistant, Val(text), at)]
    case MissingText => [Message(Assistant, Undefined, at)]
    case Threw => [Message(Assistant, Text(ErrorText), at)]
  }

  /**
   * The chat list once the send has settled, rebuilt from the snapshot: same
   * ids in the same order, every other chat as it was.
   */
  function SendResult(p: PendingSend, e: Extraction, at: Instant): (r: seq<Chat>)
    ensures Ids(r) == Ids(p.snapshot)
    ensures forall i :: 0 <= i < |r| && p.snapshot[i].id != p.chatId ==> r[i] == p.snapshot[i]
  {
    WithMessages(p.snapshot, p.chatId, p.updatedMessages + ReplyMessages(e, at))
  }

  /**
   * A send leaves every chat but the current one as it was, and keeps the
   * ids and their order.
   */
  lemma SendFrame(chats: seq<Chat>, chatId: string, input: string, sentAt: Instant,
                  e: Extraction, at: Instant)
    requires chatId in Ids(chats)
    ensures var r := SendResult(Prepare(chats, chatId, input, sentAt), e, at);
      && Ids(r) == Ids(chats)
      && forall i :: 0 <= i < |chats| && chats[i].id != chatId ==> r[i] == chats[i]
  {
  }

  /**
   * The current chat keeps its name and gains the untrimmed user message
   * followed by the reply messages, and nothing else; the flow is handed
   * the input exactly as typed.
   */
  lemma SendAppendsToCurrent(chats: seq<Chat>, k: int, input: string, sentAt: Instant,
                             e: Extraction, at: Instant)
    requires UniqueIds(chats) && 0 <= k < |chats|
    ensures Prepare(chats, chats[k].id, input, sentAt).request.inputValue == input
    ensures var r := SendResult(Prepare(chats, chats[k].id, input, sentAt), e, at);
      && r[k].name == chats[k].name
      && r[k].messages == chats[k].messages + [Message(User, Text(input), sentAt)] + ReplyMessages(e, at)
  {
    assert chats[k].id in Ids(chats);
    FindUnique(chats, k);
    var p := Prepare(chats, chats[k].id, input, sentAt);
    assert p.updatedMessages == chats[k].messages + [Message(User, Text(input), sentAt)];
  }

  /**
   * The three ways a send can end, stated against the call outcome and the
   * response path alone: the reply at `outputs[0].outputs[0].outputs.message.message.text`,
   * the fixed error message when the call or the walk throws, or nothing
   * more when the response or its `outputs` is falsy.
   */
  lemma ReplyFollowsOutcome(outcome: FlowOutcome, at: Instant)
    ensures ReplyMessages(Settle(outcome), at) == [] <==>
      outcome.Returned? && !HasOutputs(outcome.response)
    ensures outcome.Raised? || (HasOutputs(outcome.response) && Walk(outcome.response, FullPath).TypeError?)
      ==> ReplyMessages(Settle(outcome), at) == [Message(Assistant, Text(ErrorText), at)]
    ensures forall v ::
      (outcome.Returned? && HasOutputs(outcome.response) && Walk(outcome.response, FullPath) == Ok(v))
      ==> ReplyMessages(Settle(outcome), at) == [Message(Assistant, v, at)]
  {
  }

  // ---------------------------------------------------------------------------
  // The controller state
  // ---------------------------------------------------------------------------

  class ChatController {
    var chats: seq<Chat>
    var currentChatId: Option<string>
    var isLoading: bool

    ghost predicate Valid()
      reads this
    {
      SessionInvariant(chats, currentChatId)
    }

    /** The state between the two halves of a send: the flag is up and the user message is in. */
    ghost predicate Sending(p: PendingSend)
      reads this
    {
      && isLoading
      && currentChatId == Some(p.chatId)
      && SessionInvariant(p.snapshot, Some(p.chatId))
      && chats == WithMessages(p.snapshot, p.chatId, p.updatedMessages)
    }

    constructor ()
      ensures Valid() && chats == [] && currentChatId == None && !isLoading
    {
      chats := [];
      currentChatId := None;
      isLoading := false;
    }

    /** Appends a greeted chat under a fresh id and makes it current. */
    method CreateNewChat(id: string, name: string, createdAt: Instant)
      requires Valid() && id !in Ids(chats)
      modifies this
      ensures Valid()
      ensures chats == old(chats) + [NewChat(id, name, createdAt)]
      ensures currentChatId == Some(id) && isLoading == old(isLoading)
    {
      var newChat := NewChat(id, name, createdAt);
      CreateKeepsInvariant(chats, currentChatId, newChat);
      chats := chats + [newChat];
      currentChatId := Some(newChat.id);
    }

    /** Removes the chat; if it was current, the first remaining chat becomes current. */
    method DeleteChat(id: string)
      requires Valid()
      modifies this
      ensures Valid()
      ensures chats == Without(old(chats), id)
      ensures currentChatId == Repoint(old(currentChatId), id, chats)
      ensures old(currentChatId) != Some(id) ==> currentChatId == old(currentChatId)
      ensures old(currentChatId) == Some(id) && chats == [] ==> currentChatId == None
      ensures old(currentChatId) == Some(id) && chats != [] && chats[0].id != "" ==>
        currentChatId == Some(chats[0].id)
      ensures isLoading == old(isLoading)
    {
      DeleteKeepsInvariant(chats, currentChatId, id);
      var updatedChats := Without(chats, id);
      chats := updatedChats;
      if currentChatId == Some(id) {
        currentChatId := FirstIdOrNull(updatedChats);
      }
    }

    /** The sidebar's select handler; its ids come from the displayed list. */
    method SelectChat(id: string)
      requires Valid() && id in Ids(chats)
      modifies this
      ensures Valid()
      ensures currentChatId == Some(id) && chats == old(chats) && isLoading == old(isLoading)
    {
      currentChatId := Some(id);
    }

    /** The send up to the awaited call: guard, append the user message, raise the flag. */
    method BeginSend(input: string, sentAt: Instant) returns (pending: Option<PendingSend>)
      requires Valid()
      modifies this
      ensures Valid()
      ensures pending ==
        if SendRejected(input, old(isLoading), old(chats), old(currentChatId)) then None
        else Some(Prepare(old(chats), old(currentChatId).value, input, sentAt))
      ensures pending.None? ==>
        chats == old(chats) && currentChatId == old(currentChatId) && isLoading == old(isLoading)
      ensures pending.Some? ==> Sending(pending.value)
    {
      if SendRejected(input, isLoading, chats, currentChatId) {
        return None;
      }
      var chatId := currentChatId.value;
      var p := Prepare(chats, chatId, input, sentAt);
      WithMessagesKeepsInvariant(chats, currentChatId, chatId, p.updatedMessages);
      chats := WithMessages(chats, chatId, p.updatedMessages);
      isLoading := true;
      pending := Some(p);
    }

    /** The send after the awaited call: write the reply (or not) from the snapshot, lower the flag. */
    method CompleteSend(p: PendingSend, outcome: FlowOutcome, repliedAt: Instant)
      requires Valid() && Sending(p)
      modifies this
      ensures Valid()
      ensures chats == SendResult(p, Settle(outcome), repliedAt)
      ensures currentChatId == old(currentChatId) && !isLoading
    {
      var e := Settle(outcome);
      WithMessagesKeepsInvariant(p.snapshot, currentChatId, p.chatId, p.updatedMessages + ReplyMessages(e, repliedAt));
      if e != NoReply {
        chats := WithMessages(p.snapshot, p.chatId, p.updatedMessages + ReplyMessages(e, repliedAt));
      } else {
        assert p.updatedMessages + ReplyMessages(e, repliedAt) == p.updatedMessages;
      }
      isLoading := false;
    }

    /** One whole send, with the awaited call's outcome as a parameter. */
    method SendMessage(input: string, sentAt: Instant, outcome: FlowOutcome, repliedAt: Instant)
      returns (accepted: bool)
      requires Valid()
      modifies this
      ensures Valid()
      ensures accepted <==> !SendRejected(input, old(isLoading), old(chats), old(currentChatId))
      ensures !accepted ==>
        chats == old(chats) && currentChatId == old(currentChatId) && isLoading == old(isLoading)
      ensures accepted ==>
        && chats == SendResult(Prepare(old(chats), old(currentChatId).value, input, sentAt),
                               Settle(outcome), repliedAt)
        && currentChatId == old(currentChatId)
        && !isLoading
    {
      var pending := BeginSend(input, sentAt);
      accepted := pending.Some?;
      if accepted {
        CompleteSend(pending.value, outcome, repliedAt);
      }
    }
  }

  /**
   * A call that throws on a fresh chat: the chat ends with the greeting, the
   * user's text and the fixed error message, in that order.
   */
  lemma FallbackOnFailure(id: string, name: string, t0: Instant, t1: Instant, t2: Instant)
    ensures SendResult(Prepare([NewChat(id, name, t0)], id, "hello", t1), Settle(Raised), t2)
      == [Chat(id, name, [
            Message(Assistant, Text(Greeting), t0),
            Message(User, Text("hello"), t1),
            Message(Assistant, Text(ErrorText), t2)])]
  {
    var chats := [NewChat(id, name, t0)];
    assert Ids(chats) == [id];
    SendAppendsToCurrent(chats, 0, "hello", t1, Threw, t2);
    var r := SendResult(Prepare(chats, id, "hello", t1), Threw, t2);
    assert |r| == 1 && Ids(r) == [id];
    assert r[0].id == id;
    assert r[0].messages == [
      Message(Assistant, Text(Greeting), t0),
      Message(User, Text("hello"), t1),
      Message(Assistant, Text(ErrorText), t2)];
    assert r == [r[0]];
  }

  /** A second send while the first awaits the flow is a no-op. */
  method SingleFlightScenario(id: string, name: string, t0: Instant, t1: Instant)
  {
    var session := new ChatController();
    session.CreateNewChat(id, name, t0);
    var first := session.BeginSend("hello", t1);
    if first.Some? {
      var before := session.chats;
      var second := session.BeginSend("again", t1);
      assert second.None? && session.chats == before && session.isLoading;
    }
  }
}
