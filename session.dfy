/** The per-session state of the chat page: the live conversation and the
    registry of saved conversations, with one method per user action. */
module Session {
  import opened PyStrings
  import opened Messages
  import opened Recommendation
  import opened Stream

  /** The request sent to the inference API: the system prompt once more in
      front of the whole conversation. A conversation already starts with the
      system prompt, so the request carries it twice; what the chat log shows
      of the request is what it shows of the conversation. */
  function Request(messages: seq<Message>): (r: seq<Message>)
    ensures |r| == |messages| + 1 && r[1..] == messages
    ensures IsConversation(messages) ==> r[..2] == [SystemMessage, SystemMessage]
    ensures IsConversation(messages) ==> IsConversation(r)
    ensures Visible(r) == Visible(messages)
  {
    VisibleAppend([SystemMessage], messages);
    assert [SystemMessage][1..] == [];
    [SystemMessage] + messages
  }

  /** The suggestion appended by a turn does not depend on the streamed
      reply: only the user messages are scanned. */
  lemma SuggestionIgnoresReply(h: seq<Message>, prompt: string, aiText: string)
    requires AllReadable(h)
    ensures AllReadable(h + [UserMessage(prompt), AssistantMessage(aiText)])
    ensures AllReadable(h + [UserMessage(prompt)])
    ensures Recommend(h + [UserMessage(prompt), AssistantMessage(aiText)])
            == Recommend(h + [UserMessage(prompt)])
  {
    var u := UserMessage(prompt);
    assert AllReadable([u]) by { assert forall m :: m in [u] ==> m == u; }
    UserTextsAppend(h, [u]);
    RecommendIgnoresNonUser(h + [u], AssistantMessage(aiText), []);
    assert h + [u] + [AssistantMessage(aiText)] + [] == h + [u, AssistantMessage(aiText)];
    assert h + [u] + [] == h + [u];
  }

  class ChatSession {
    /** The live conversation (`st.session_state.messages`). */
    var messages: seq<Message>
    /** Named snapshots (`st.session_state.saved_chats`). */
    var savedChats: map<string, seq<Message>>

    /** The live conversation and every snapshot start with the system
        prompt, and their user messages are readable by the heuristic. */
    ghost predicate Valid()
      reads this
    {
      IsConversation(messages) &&
      forall name :: name in savedChats ==> IsConversation(savedChats[name])
    }

    /** First load of the page: the conversation holds only the system prompt
        and nothing is saved. */
    constructor ()
      ensures Valid()
      ensures messages == [SystemMessage] && savedChats == map[]
    {
      messages := [SystemMessage];
      savedChats := map[];
    }

    /** "대화 저장": store a snapshot of the conversation under the stripped
        name, replacing any earlier one; a blank name does nothing. */
    method Save(name: string)
      requires Valid()
      modifies this
      ensures Valid()
      ensures messages == old(messages)
      ensures savedChats == if Strip(name) == "" then old(savedChats)
                            else old(savedChats)[Strip(name) := old(messages)]
    {
      var key := Strip(name);
      if key != "" {
        savedChats := savedChats[key := messages];
      }
    }

    /** "새 채팅": start over from the system prompt; snapshots stay. */
    method NewChat()
      requires Valid()
      modifies this
      ensures Valid()
      ensures messages == [SystemMessage]
      ensures savedChats == old(savedChats)
    {
      messages := [SystemMessage];
    }

    /** The button of a saved chat: continue from a copy of its snapshot. */
    method Load(name: string)
      requires Valid()
      requires name in savedChats
      modifies this
      ensures Valid()
      ensures messages == old(savedChats)[name]
      ensures savedChats == old(savedChats)
    {
      messages := savedChats[name];
    }

    /** One chat turn for the submitted `prompt` (nothing happens for the
        empty string). The user message is appended first, so the request
        sent to `infer` contains it; then the streamed reply and the
        recommendation for the resulting history are appended. */
    method Turn(prompt: string, infer: seq<Message> -> seq<Chunk>)
      returns (aiText: string, displays: seq<string>)
      requires Valid()
      modifies this
      ensures Valid()
      ensures savedChats == old(savedChats)
      ensures prompt == "" ==> messages == old(messages) && aiText == "" && displays == []
      ensures prompt != "" ==>
                var user := UserMessage(prompt);
                var reply := AssistantMessage(aiText);
                aiText == Collected(infer(Request(old(messages) + [user]))) &&
                |displays| == |Fragments(infer(Request(old(messages) + [user])))| + 1 &&
                displays[|displays| - 1] == aiText &&
                messages == old(messages) + [user, reply,
                              AssistantMessage(Recommend(old(messages) + [user, reply]))]
    {
      if prompt == "" {
        return "", [];
      }
      ghost var before := messages;
      var user := UserMessage(prompt);
      ExtendConversation(messages, user);
      messages := messages + [user];
      var stream := infer(Request(messages));
      aiText, displays := Aggregate(stream);
      var reply := AssistantMessage(aiText);
      ExtendConversation(messages, reply);
      messages := messages + [reply];
      assert messages == before + [user, reply];
      var reco := Recommend(messages);
      ExtendConversation(messages, AssistantMessage(reco));
      messages := messages + [AssistantMessage(reco)];
      assert messages == before + [user, reply, AssistantMessage(reco)];
    }
  }

  /** A saved snapshot is a value: a later turn leaves it as it was, and
      loading it restores the conversation as saved. */
  method SnapshotIsolation(name: string, prompt: string, infer: seq<Message> -> seq<Chunk>)
    returns (live: seq<Message>, stored: seq<Message>, restored: seq<Message>)
    requires Strip(name) != ""
    ensures stored == [SystemMessage] && restored == [SystemMessage]
    ensures prompt != "" ==> |live| == 4 && live[0] == SystemMessage
  {
    var session := new ChatSession();
    session.Save(name);
    var key := Strip(name);
    var _, _ := session.Turn(prompt, infer);
    live := session.messages;
    stored := session.savedChats[key];
    session.Load(key);
    restored := session.messages;
  }
}
