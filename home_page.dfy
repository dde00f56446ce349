/**
 * The state of the chat page and the handlers that change it: new chat, delete chat,
 * attach and remove images, send (split at its `await` into the part before the
 * request and the part after the response) and the typewriter reveal of a reply.
 */
module HomePage {
  import opened Wrappers
  import opened JsText
  import opened Chats

  /** The JSON body the page posts to `/api/generate`. */
  datatype ClientRequest = ClientRequest(prompt: string, images: seq<string>)

  /**
   * What a send carries across its `await`: the values its closures captured when it
   * started (the active id, the active chat's messages, the user message) and the body
   * it posted.
   */
  datatype PendingSend = PendingSend(chatId: string, history: seq<Message>, user: Message, request: ClientRequest)

  /** The number of timer ticks a reveal of `text` takes: one per character, and at least one. */
  function RevealTicks(text: string): (n: nat)
    ensures n >= 1 && n >= |text|
    ensures |text| >= 1 ==> n == |text|
    ensures |text| == 0 ==> n == 1
  {
    if |text| == 0 then 1 else |text|
  }

  /** `frames[k]` is the reveal buffer after tick `k + 1`: `text.slice(0, k + 1)`. */
  predicate IsReveal(frames: seq<string>, text: string) {
    |frames| == RevealTicks(text) && forall k :: 0 <= k < |frames| ==> frames[k] == Take(text, k + 1)
  }

  /** Every frame of a reveal is a prefix of the text, frames only grow, and the last one is the whole text. */
  lemma RevealShowsGrowingPrefixes(frames: seq<string>, text: string)
    requires IsReveal(frames, text)
    ensures forall k :: 0 <= k < |frames| ==> frames[k] <= text
    ensures forall j, k :: 0 <= j <= k < |frames| ==> frames[j] <= frames[k]
    ensures frames[|frames| - 1] == text
  {
    forall j, k | 0 <= j <= k < |frames|
      ensures frames[j] <= frames[k]
    {
      assert frames[j] == Take(text, j + 1) && frames[k] == Take(text, k + 1);
    }
  }

  /** `text ?? prompt.trim()`: a preset question as given, otherwise the trimmed prompt. */
  function SendText(text: Option<string>, prompt: string): (r: string)
    ensures text.Some? ==> r == text.value
    ensures text.None? ==> r == Trim(prompt) && |r| <= |prompt|
    ensures text.None? ==> (r == "" <==> AllSpace(prompt))
  {
    TrimEmptyIffBlank(prompt);
    if text.Some? then text.value else Trim(prompt)
  }

  /**
   * `handleSend`'s guard lets a send go ahead: there is a current chat, and the text is
   * not empty or an image payload is attached.
   */
  function SendProceeds(current: Option<Chat>, sendText: string, imageBase64: seq<string>): (b: bool)
    ensures !b <==> current.None? || |sendText| + |imageBase64| == 0
  {
    current.Some? && (sendText != "" || imageBase64 != [])
  }

  /** The `disabled` condition of the send button, negated. */
  function CanSubmit(loading: bool, prompt: string, selectedImages: seq<string>): (b: bool)
    ensures b <==> !loading && (!AllSpace(prompt) || selectedImages != [])
  {
    TrimEmptyIffBlank(prompt);
    !(loading || (Trim(prompt) == "" && |selectedImages| == 0))
  }

  /**
   * What `handleSend` captures before its `await`, or `None` when its guard stops it:
   * there is no current chat, or the text is empty and no image payload is attached.
   */
  function StartSend(chats: seq<Chat>, activeChat: string, prompt: string, selectedImages: seq<string>,
                     imageBase64: seq<string>, text: Option<string>): (r: Option<PendingSend>)
    ensures r.None? <==> !SendProceeds(Find(chats, activeChat), SendText(text, prompt), imageBase64)
    ensures r.Some? ==>
              && r.value.chatId == activeChat
              && r.value.history == Find(chats, activeChat).value.messages
              && r.value.user == Message(User, r.value.request.prompt, Some(selectedImages), None)
              && r.value.request == ClientRequest(SendText(text, prompt), imageBase64)
              && (r.value.request.prompt != "" || r.value.request.images != [])
  {
    var current := Find(chats, activeChat);
    var sendText := SendText(text, prompt);
    if !SendProceeds(current, sendText, imageBase64) then None
    else
      Some(PendingSend(activeChat, current.value.messages, Message(User, sendText, Some(selectedImages), None),
                       ClientRequest(sendText, imageBase64)))
  }

  /** The `useState` cells of the page that hold chat and composer state. */
  class Session {
    var chats: seq<Chat>
    var activeChat: string
    var prompt: string
    var selectedImages: seq<string>   // object URLs shown as previews
    var imageBase64: seq<string>      // the base64 payloads, one per preview
    var loading: bool
    var typingMessage: string         // the reveal buffer

    /** The preview list and the payload list are filled and emptied together. */
    predicate Valid()
      reads this
    {
      |selectedImages| == |imageBase64|
    }

    /** The initial state: one chat "default" titled "Obrolan Pertama", an empty composer. */
    constructor ()
      ensures Valid()
      ensures chats == [Chat(DefaultChatId, [], FirstChatTitle)] && activeChat == DefaultChatId
      ensures prompt == "" && selectedImages == [] && imageBase64 == []
      ensures !loading && typingMessage == ""
    {
      chats := [Chat(DefaultChatId, [], FirstChatTitle)];
      activeChat := DefaultChatId;
      prompt := "";
      selectedImages := [];
      imageBase64 := [];
      loading := false;
      typingMessage := "";
    }

    /** `handleNewChat`, with `newId` standing for `Date.now().toString()`. */
    method NewChat(newId: string)
      requires Valid()
      modifies this
      ensures Valid()
      ensures chats == old(chats) + [Chat(newId, [], NewChatTitle)]
      ensures activeChat == newId
      ensures prompt == "" && selectedImages == [] && imageBase64 == []
      ensures loading == old(loading) && typingMessage == old(typingMessage)
    {
      // React applies a handler's state updates together, in one render.
      chats, activeChat, prompt, selectedImages, imageBase64 :=
        chats + [Chat(newId, [], NewChatTitle)], newId, "", [], [];
    }

    /**
     * `handleDeleteChat`: the filter, and the new active id read from the list as it
     * was before the filter.
     */
    method DeleteChat(id: string)
      modifies this`chats, this`activeChat
      ensures chats == RemoveChat(old(chats), id)
      ensures activeChat == ActiveAfterDelete(old(chats), old(activeChat), id)
    {
      var before := chats;
      chats := RemoveChat(chats, id);
      if activeChat == id {
        activeChat := if before != [] && before[0].id != "" then before[0].id else DefaultChatId;
      }
    }

    /** The `onloadend` callback of one uploaded file: its payload and its preview, appended. */
    method AddAttachment(preview: string, payload: string)
      requires Valid()
      modifies this`selectedImages, this`imageBase64
      ensures Valid()
      ensures imageBase64 == old(imageBase64) + [payload]
      ensures selectedImages == old(selectedImages) + [preview]
    {
      imageBase64, selectedImages := imageBase64 + [payload], selectedImages + [preview];
    }

    /** The remove button of preview `idx`: the same index leaves both lists. */
    method RemovePreview(idx: nat)
      requires Valid()
      modifies this`selectedImages, this`imageBase64
      ensures Valid()
      ensures selectedImages == RemoveAt(old(selectedImages), idx)
      ensures imageBase64 == RemoveAt(old(imageBase64), idx)
    {
      selectedImages, imageBase64 := RemoveAt(selectedImages, idx), RemoveAt(imageBase64, idx);
    }

    /**
     * The updates `handleSend` makes before its request, applied together in one render:
     * the active chat gets `messages`, the composer is cleared, loading starts and the
     * reveal buffer is reset.
     */
    method ApplySendStart(messages: seq<Message>)
      modifies this
      ensures chats == ReplaceMessages(old(chats), old(activeChat), messages)
      ensures activeChat == old(activeChat)
      ensures prompt == "" && selectedImages == [] && imageBase64 == []
      ensures loading && typingMessage == ""
    {
      prompt, selectedImages, imageBase64, loading, typingMessage, chats :=
        "", [], [], true, "", ReplaceMessages(chats, activeChat, messages);
    }

    /**
     * `handleSend` up to its `await`: nothing happens when the guard stops the send;
     * otherwise the user message is appended to the active chat, the composer is
     * cleared and loading starts.
     */
    method BeginSend(text: Option<string>)
      requires Valid()
      modifies this
      ensures Valid()
      ensures var pending := StartSend(old(chats), old(activeChat), old(prompt), old(selectedImages), old(imageBase64), text);
              && (pending.None? ==> unchanged(this))
              && (pending.Some? ==>
                && chats == ReplaceMessages(old(chats), old(activeChat), pending.value.history + [pending.value.user])
                && activeChat == old(activeChat)
                && prompt == "" && selectedImages == [] && imageBase64 == []
                && loading && typingMessage == "")
    {
      var pending := StartSend(chats, activeChat, prompt, selectedImages, imageBase64, text);
      if pending.Some? {
        ApplySendStart(pending.value.history + [pending.value.user]);
      }
    }

    /**
     * `updateChatMessages`, with `id` the active id its closure captured: the chats with
     * that id get `messages` and the title derived from them.
     */
    method UpdateChatMessages(id: string, messages: seq<Message>)
      modifies this`chats
      ensures chats == ReplaceMessages(old(chats), id, messages)
    {
      chats := ReplaceMessages(chats, id, messages);
    }

    /**
     * `typeWriterEffect`: one loop iteration per timer tick. Each tick shows one more
     * character; the tick that reaches the end of the text stores the whole reply after
     * the history and the user message, and empties the buffer.
     */
    method TypeWriterEffect(chatId: string, history: seq<Message>, user: Message, text: string)
      returns (frames: seq<string>)
      modifies this`chats, this`typingMessage
      ensures IsReveal(frames, text)
      ensures chats == ReplaceMessages(old(chats), chatId, history + [user, Message(Ai, text, None, Some(false))])
      ensures typingMessage == ""
    {
      var i := 0;
      typingMessage := "";
      frames := [];
      var done := false;
      while !done
        invariant 0 <= i <= RevealTicks(text)
        invariant done <==> i == RevealTicks(text)
        invariant |frames| == i
        invariant forall k :: 0 <= k < i ==> frames[k] == Take(text, k + 1)
        invariant !done ==> chats == old(chats) && typingMessage == Take(text, i)
        invariant done ==> typingMessage == ""
        invariant done ==> chats == ReplaceMessages(old(chats), chatId, history + [user, Message(Ai, text, None, Some(false))])
        decreases RevealTicks(text) - i
      {
        i := i + 1;
        typingMessage := Take(text, i);
        frames := frames + [typingMessage];
        if i >= |text| {
          UpdateChatMessages(chatId, history + [user, Message(Ai, text, None, Some(false))]);
          typingMessage := "";
          done := true;
        }
      }
    }

    /**
     * `handleSend` after its `await`: a thrown request appends the fixed failure message
     * at once; a response is revealed and then stored. Either way loading ends.
     */
    method CompleteSend(p: PendingSend, outcome: FetchOutcome) returns (frames: seq<string>)
      requires Valid()
      modifies this`chats, this`loading, this`typingMessage
      ensures Valid()
      ensures chats == ReplaceMessages(old(chats), p.chatId, p.history + [p.user, Reply(outcome)])
      ensures !loading
      ensures outcome.Failed? ==> frames == [] && typingMessage == old(typingMessage)
      ensures !outcome.Failed? ==> IsReveal(frames, Reply(outcome).text) && typingMessage == ""
    {
      var reply := Reply(outcome);
      if outcome.Failed? {
        assert reply == Message(Ai, FailureReply, None, None);
        UpdateChatMessages(p.chatId, p.history + [p.user, reply]);
        loading := false;
        frames := [];
      } else {
        assert reply == Message(Ai, reply.text, None, Some(false));
        frames := TypeWriterEffect(p.chatId, p.history, p.user, reply.text);
        // The `finally` block runs once the reveal is scheduled, before its first tick;
        // the ticks do not read `loading`.
        loading := false;
      }
    }

    /**
     * A whole send. When the guard lets it through, the active chat ends up with its old
     * messages, then the user message, then exactly one reply, and the composer is empty.
     */
    method Send(text: Option<string>, outcome: FetchOutcome) returns (request: Option<ClientRequest>, frames: seq<string>)
      requires Valid()
      modifies this
      ensures Valid()
      ensures request.None? <==>
                !SendProceeds(Find(old(chats), old(activeChat)), SendText(text, old(prompt)), old(imageBase64))
      ensures request.None? ==> unchanged(this) && frames == []
      ensures request.Some? ==> request.value == ClientRequest(SendText(text, old(prompt)), old(imageBase64))
      ensures request.Some? ==>
                chats == ReplaceMessages(old(chats), old(activeChat),
                  Find(old(chats), old(activeChat)).value.messages
                  + [Message(User, SendText(text, old(prompt)), Some(old(selectedImages)), None), Reply(outcome)])
      ensures request.Some? ==>
                && activeChat == old(activeChat)
                && prompt == "" && selectedImages == [] && imageBase64 == []
                && !loading && typingMessage == ""
      ensures request.Some? && outcome.Failed? ==> frames == []
      ensures request.Some? && !outcome.Failed? ==> IsReveal(frames, Reply(outcome).text)
    {
      var pending := StartSend(chats, activeChat, prompt, selectedImages, imageBase64, text);
      BeginSend(text);
      if pending.None? {
        return None, [];
      }
      var p := pending.value;
      request := Some(p.request);
      frames := CompleteSend(p, outcome);
      ReplaceMessagesTwice(old(chats), p.chatId, p.history + [p.user], p.history + [p.user, Reply(outcome)]);
      assert p.history + [p.user] + [Reply(outcome)] == p.history + [p.user, Reply(outcome)];
    }
  }

  /** A chat created with an id no other chat has is the one the new active id finds. */
  lemma NewChatIsCurrent(chats: seq<Chat>, newId: string)
    requires forall i :: 0 <= i < |chats| ==> chats[i].id != newId
    ensures Find(chats + [Chat(newId, [], NewChatTitle)], newId) == Some(Chat(newId, [], NewChatTitle))
  {
    var all := chats + [Chat(newId, [], NewChatTitle)];
    assert all[|chats|].id == newId;
    assert FindIndex(all, newId) == Some(|chats|);
  }

  /**
   * After a send the active chat is found again, holding its old messages followed by
   * the messages the send appended, with its title derived from them.
   */
  lemma SendUpdatesCurrentChat(chats: seq<Chat>, active: string, messages: seq<Message>)
    requires Find(chats, active).Some?
    ensures Find(ReplaceMessages(chats, active, messages), active) == Some(WithMessages(Find(chats, active).value, messages))
  {
    FindAfterReplace(chats, active, messages);
  }

  /**
   * Both halves of a send together: the chat the send started in ends up with its old
   * messages followed by exactly the user message and the reply, under the title the
   * new list gives it; no other chat changes.
   */
  lemma SendAppendsUserMessageAndReply(chats: seq<Chat>, active: string, user: Message, reply: Message)
    requires Find(chats, active).Some?
    ensures var history := Find(chats, active).value.messages;
            var after := ReplaceMessages(ReplaceMessages(chats, active, history + [user]), active, history + [user, reply]);
            && |after| == |chats|
            && Find(after, active).Some?
            && Find(after, active).value.messages == history + [user, reply]
            && Find(after, active).value.title == Title(history + [user, reply])
            && (forall i :: 0 <= i < |chats| && chats[i].id != active ==> after[i] == chats[i])
  {
    var history := Find(chats, active).value.messages;
    ReplaceMessagesTwice(chats, active, history + [user], history + [user, reply]);
    FindAfterReplace(chats, active, history + [user, reply]);
    ReplaceMessagesPointwise(chats, active, history + [user, reply]);
  }

  /**
   * A typed prompt is sent trimmed: the text posted and shown neither starts nor ends with
   * a space character, and it is empty only when an image payload goes with it.
   */
  lemma TypedPromptIsSentTrimmed(
    chats: seq<Chat>, activeChat: string, prompt: string, selectedImages: seq<string>, imageBase64: seq<string>)
    requires StartSend(chats, activeChat, prompt, selectedImages, imageBase64, None).Some?
    ensures var sent := StartSend(chats, activeChat, prompt, selectedImages, imageBase64, None).value.request;
            && sent.prompt == Trim(prompt)
            && (sent.prompt != [] ==> !IsSpace(sent.prompt[0]) && !IsSpace(sent.prompt[|sent.prompt| - 1]))
            && (sent.prompt == [] ==> sent.images != [])
  {
    TrimEdgesAreNotSpace(prompt);
  }

  /**
   * With a current chat, the send button is enabled exactly when nothing is loading and
   * the button's handler would get past `handleSend`'s guard.
   */
  lemma CanSubmitIffSendProceeds(
    current: Option<Chat>, loading: bool, prompt: string, selectedImages: seq<string>, imageBase64: seq<string>)
    requires current.Some? && |selectedImages| == |imageBase64|
    ensures CanSubmit(loading, prompt, selectedImages) <==>
              !loading && SendProceeds(current, SendText(None, prompt), imageBase64)
  {
  }
}
