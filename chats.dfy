/**
 * The chat list of the home page and the pure transformations the page's handlers
 * apply to it: finding the active chat, replacing one chat's messages (and title),
 * removing a chat, and working out the reply message a send ends with.
 */
module Chats {
  import opened Wrappers
  import opened JsText

  datatype Role = User | Ai

  /** `images` and `typing` are optional fields; `None` is an absent field. */
  datatype Message = Message(role: Role, text: string, images: Option<seq<string>>, typing: Option<bool>)

  datatype Chat = Chat(id: string, messages: seq<Message>, title: string)

  const NewChatTitle := "Obrolan Baru"
  const FirstChatTitle := "Obrolan Pertama"
  const DefaultChatId := "default"
  const TitleLength := 20

  const NoAnswerReply := "Saya belum bisa menjawab itu."
  const ServerErrorReply := "Terjadi kesalahan server."
  const FailureReply := "Terjadi kesalahan saat memproses jawaban."

  /**
   * `newMessages[0]?.text.slice(0, 20) || "Obrolan Baru"`: the first 20 characters of
   * the first message, or the placeholder when there is no message or its text is empty.
   */
  function Title(messages: seq<Message>): (t: string)
    ensures t != "" && |t| <= TitleLength
    ensures messages == [] || messages[0].text == "" ==> t == NewChatTitle
    ensures messages != [] && messages[0].text != "" ==>
              t <= messages[0].text && |t| == if |messages[0].text| < TitleLength then |messages[0].text| else TitleLength
  {
    var head := if messages == [] then "" else Take(messages[0].text, TitleLength);
    if head == "" then NewChatTitle else head
  }

  /** `chats.find(c => c.id === id)`, as the index of the first chat with that id. */
  function FindIndex(chats: seq<Chat>, id: string): (r: Option<nat>)
    ensures r.None? <==> forall j :: 0 <= j < |chats| ==> chats[j].id != id
    ensures r.Some? ==> r.value < |chats| && chats[r.value].id == id
    ensures r.Some? ==> forall j :: 0 <= j < r.value ==> chats[j].id != id
  {
    if chats == [] then None
    else if chats[0].id == id then Some(0)
    else
      match FindIndex(chats[1..], id)
      case None => None
      case Some(k) => Some(k + 1)
  }

  /** `chats.find(c => c.id === id)`: the first chat with that id, if any. */
  function Find(chats: seq<Chat>, id: string): (r: Option<Chat>)
    ensures r.None? <==> forall j :: 0 <= j < |chats| ==> chats[j].id != id
    ensures r.Some? ==> r.value.id == id
    ensures r.Some? ==> exists k :: 0 <= k < |chats| && chats[k] == r.value && forall j :: 0 <= j < k ==> chats[j].id != id
  {
    match FindIndex(chats, id)
    case None => None
    case Some(k) =>
      assert forall j :: 0 <= j < k ==> chats[j].id != id;
      Some(chats[k])
  }

  /** The chat `c` given `messages` and the title derived from them. */
  function WithMessages(c: Chat, messages: seq<Message>): Chat {
    c.(messages := messages, title := Title(messages))
  }

  /**
   * The map in `updateChatMessages`: every chat whose id is `id` gets `messages` and the
   * title derived from them; every other chat stays as it is, in its place.
   */
  function ReplaceMessages(chats: seq<Chat>, id: string, messages: seq<Message>): (r: seq<Chat>)
    ensures |r| == |chats|
  {
    if chats == [] then []
    else
      [if chats[0].id == id then WithMessages(chats[0], messages) else chats[0]]
      + ReplaceMessages(chats[1..], id, messages)
  }

  /**
   * The replacement chat by chat: the list keeps its length and order, every chat keeps
   * its id, the chats with id `id` get the messages and their title, the others are unchanged.
   */
  lemma {:induction false} ReplaceMessagesPointwise(chats: seq<Chat>, id: string, messages: seq<Message>)
    ensures var r := ReplaceMessages(chats, id, messages);
            && |r| == |chats|
            && (forall i :: 0 <= i < |chats| ==> r[i].id == chats[i].id)
            && (forall i :: 0 <= i < |chats| && chats[i].id == id ==> r[i] == WithMessages(chats[i], messages))
            && (forall i :: 0 <= i < |chats| && chats[i].id != id ==> r[i] == chats[i])
  {
    if chats != [] {
      ReplaceMessagesPointwise(chats[1..], id, messages);
    }
  }

  /** After a replacement the same chat is found for the id, now holding the new messages. */
  lemma FindAfterReplace(chats: seq<Chat>, id: string, messages: seq<Message>)
    ensures var r := ReplaceMessages(chats, id, messages);
            && FindIndex(r, id) == FindIndex(chats, id)
            && (FindIndex(chats, id).Some? ==> r[FindIndex(chats, id).value] == WithMessages(chats[FindIndex(chats, id).value], messages))
  {
    ReplaceMessagesPointwise(chats, id, messages);
  }

  /** Replacing twice is replacing once with the later messages. */
  lemma {:induction false} ReplaceMessagesTwice(chats: seq<Chat>, id: string, first: seq<Message>, second: seq<Message>)
    ensures ReplaceMessages(ReplaceMessages(chats, id, first), id, second) == ReplaceMessages(chats, id, second)
  {
    var a := ReplaceMessages(ReplaceMessages(chats, id, first), id, second);
    var b := ReplaceMessages(chats, id, second);
    ReplaceMessagesPointwise(chats, id, first);
    ReplaceMessagesPointwise(ReplaceMessages(chats, id, first), id, second);
    ReplaceMessagesPointwise(chats, id, second);
    assert forall i :: 0 <= i < |chats| ==> a[i] == b[i];
  }

  /** `chats.filter(c => c.id !== id)`. */
  function RemoveChat(chats: seq<Chat>, id: string): (r: seq<Chat>)
    ensures |r| <= |chats|
    ensures forall i :: 0 <= i < |r| ==> r[i].id != id
    ensures forall c :: c in r <==> c in chats && c.id != id
  {
    if chats == [] then []
    else (if chats[0].id == id then [] else [chats[0]]) + RemoveChat(chats[1..], id)
  }

  /** The filter keeps the order of the chats it keeps: it distributes over concatenation. */
  lemma {:induction false} RemoveChatAppend(a: seq<Chat>, b: seq<Chat>, id: string)
    ensures RemoveChat(a + b, id) == RemoveChat(a, id) + RemoveChat(b, id)
  {
    if a == [] {
      assert a + b == b;
    } else {
      assert (a + b)[1..] == a[1..] + b;
      RemoveChatAppend(a[1..], b, id);
    }
  }

  /** Deleting an id no chat has leaves the list as it is. */
  lemma {:induction false} RemoveAbsentChat(chats: seq<Chat>, id: string)
    requires forall i :: 0 <= i < |chats| ==> chats[i].id != id
    ensures RemoveChat(chats, id) == chats
  {
    if chats != [] {
      RemoveAbsentChat(chats[1..], id);
    }
  }

  /**
   * The active id after `handleDeleteChat(id)`, as written: unchanged when another chat
   * is deleted; otherwise `chats[0]?.id || "default"` read from the list as it was
   * BEFORE the filter.
   */
  function ActiveAfterDelete(chats: seq<Chat>, active: string, id: string): (r: string)
    ensures active != id ==> r == active
    ensures active == id && chats != [] && chats[0].id != "" ==> r == chats[0].id
    ensures active == id && (chats == [] || chats[0].id == "") ==> r == DefaultChatId
  {
    if active == id then
      if chats != [] && chats[0].id != "" then chats[0].id else DefaultChatId
    else active
  }

  /**
   * Deleting the active chat when it is not the first: the first chat becomes active,
   * and it is the first chat that remains.
   */
  lemma DeleteActiveMovesToFirstRemaining(chats: seq<Chat>, id: string)
    requires chats != [] && chats[0].id != id && chats[0].id != ""
    ensures var r := RemoveChat(chats, id);
            r != [] && ActiveAfterDelete(chats, id, id) == r[0].id
            && Find(r, ActiveAfterDelete(chats, id, id)) == Some(chats[0])
  {
    var r := RemoveChat(chats, id);
    assert r == [chats[0]] + RemoveChat(chats[1..], id);
  }

  /**
   * Deleting the active chat when it is the first one (and its id is not empty) leaves
   * the active id naming the deleted chat: afterwards no chat is active.
   */
  lemma DeleteFirstActiveLeavesDanglingId(chats: seq<Chat>)
    requires chats != [] && chats[0].id != ""
    ensures var id := chats[0].id;
            ActiveAfterDelete(chats, id, id) == id
            && Find(RemoveChat(chats, id), ActiveAfterDelete(chats, id, id)).None?
  {
  }

  /**
   * `prev.filter((_, i) => i !== idx)`: the element at `idx` removed, when there is one.
   */
  function RemoveAt<T>(s: seq<T>, idx: nat): (r: seq<T>)
    ensures idx < |s| ==> r == s[..idx] + s[idx + 1..]
    ensures |s| <= idx ==> r == s
    ensures |r| == if idx < |s| then |s| - 1 else |s|
  {
    if s == [] then []
    else if idx == 0 then s[1..]
    else [s[0]] + RemoveAt(s[1..], idx - 1)
  }

  /** Removing the asterisks from the fallback reply changes nothing. */
  lemma NoAnswerReplyIsStarless()
    ensures RemoveStars(NoAnswerReply) == NoAnswerReply
  {
    assert forall i :: 0 <= i < |NoAnswerReply| ==> NoAnswerReply[i] != '*';
    RemoveStarsKeepsStarless(NoAnswerReply);
  }

  /** What `fetch` and `res.json()` give the page. */
  datatype FetchOutcome =
    | Failed                        // the request or the parsing of its body throws
    | NotOk                         // a response whose `ok` is false
    | OkJson(output: Option<string>) // `data.output`; `None` when absent

  /**
   * The assistant message a send ends with. A thrown request gives the fixed failure text
   * (appended without the reveal); otherwise the reply text, which the reveal stores with
   * `typing: false`: the output without asterisks, the fallback for an empty output, or
   * the server-error text for a response that is not ok.
   */
  function Reply(outcome: FetchOutcome): (m: Message)
    ensures m.role == Ai && m.images.None?
    ensures outcome.Failed? <==> m.typing.None?
    ensures !outcome.Failed? ==> m.typing == Some(false)
  {
    match outcome
    case Failed => Message(Ai, FailureReply, None, None)
    case NotOk => Message(Ai, ServerErrorReply, None, Some(false))
    case OkJson(output) =>
      // The fallback text has no asterisk, so the replacement leaves it as it is
      // (NoAnswerReplyIsStarless).
      if output.None? || output.value == "" then Message(Ai, NoAnswerReply, None, Some(false))
      else
        Message(Ai, RemoveStars(output.value), None, Some(false))
  }
  /**
   * The reply text for each outcome: the fixed failure and server-error texts, the
   * fallback for an absent or empty output, and otherwise the output with every
   * asterisk removed and every other character kept, in order.
   */
  lemma ReplyText(outcome: FetchOutcome)
    ensures outcome.Failed? ==> Reply(outcome).text == FailureReply
    ensures outcome.NotOk? ==> Reply(outcome).text == ServerErrorReply
    ensures outcome.OkJson? && (outcome.output.None? || outcome.output.value == "") ==>
              Reply(outcome).text == NoAnswerReply
    ensures outcome.OkJson? && outcome.output.Some? && outcome.output.value != "" ==>
              Reply(outcome).text == RemoveStars(outcome.output.value)
  {
  }

  /** A reply built from a response body never shows an asterisk. */
  lemma ReplyHasNoStars(outcome: FetchOutcome)
    requires outcome.OkJson?
    ensures forall i :: 0 <= i < |Reply(outcome).text| ==> Reply(outcome).text[i] != '*'
  {
    if outcome.output.None? || outcome.output.value == "" {
      NoAnswerReplyIsStarless();
    }
  }
}
