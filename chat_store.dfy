/**
 * The chat store of src/store/chatStore.tsx: the conversation id, the
 * message list and whether a reply is being streamed.
 */
module ChatStore {

  /** Who sent a message. */
  datatype Role = User | Assistant

  /** A chat message. */
  datatype Message = Message(role: Role, content: string)

  /** A conversation id is a number or a string. */
  datatype ConversationId = NumberId(n: int) | TextId(s: string)

  /**
   * The list after `updateLastMessage(content)`: the last message gets the
   * content when it is the assistant's, and nothing changes otherwise.
   */
  function UpdatedLast(msgs: seq<Message>, content: string): (r: seq<Message>)
    ensures |r| == |msgs|
    ensures forall i :: 0 <= i < |r| ==> r[i].role == msgs[i].role
    ensures forall i :: 0 <= i < |r| - 1 ==> r[i] == msgs[i]
    ensures |msgs| > 0 && msgs[|msgs| - 1].role == Assistant ==> r[|r| - 1].content == content
    ensures |msgs| == 0 || msgs[|msgs| - 1].role == User ==> r == msgs
  {
    if |msgs| > 0 && msgs[|msgs| - 1].role == Assistant then
      msgs[|msgs| - 1 := msgs[|msgs| - 1].(content := content)]
    else msgs
  }

  /** Replacing the content twice keeps only the second: updates replace rather than append. */
  lemma UpdatedLastTwice(msgs: seq<Message>, a: string, b: string)
    ensures UpdatedLast(UpdatedLast(msgs, a), b) == UpdatedLast(msgs, b)
  {
  }

  /** After an assistant message is appended, an update lands on it and leaves the rest as it was. */
  lemma UpdateAfterAppend(msgs: seq<Message>, content: string)
    ensures UpdatedLast(msgs + [Message(Assistant, "")], content) == msgs + [Message(Assistant, content)]
  {
  }

  /** The store's state. */
  class Store {
    var conversationId: ConversationId
    var messages: seq<Message>
    var isTyping: bool

    /** The initial state: conversation 4, no messages, not typing. */
    constructor()
      ensures conversationId == NumberId(4) && messages == [] && !isTyping
    {
      conversationId := NumberId(4);
      messages := [];
      isTyping := false;
    }

    /** `setConversationId(id)` */
    method SetConversationId(id: ConversationId)
      modifies this
      ensures conversationId == id
      ensures messages == old(messages) && isTyping == old(isTyping)
    {
      conversationId := id;
    }

    /** `setIsTyping(status)` */
    method SetIsTyping(status: bool)
      modifies this
      ensures isTyping == status
      ensures messages == old(messages) && conversationId == old(conversationId)
    {
      isTyping := status;
    }

    /** `addMessage(msg)`: one message appended at the end. */
    method AddMessage(msg: Message)
      modifies this
      ensures messages == old(messages) + [msg]
      ensures conversationId == old(conversationId) && isTyping == old(isTyping)
    {
      messages := messages + [msg];
    }

    /** `updateLastMessage(content)` */
    method UpdateLastMessage(content: string)
      modifies this
      ensures messages == UpdatedLast(old(messages), content)
      ensures conversationId == old(conversationId) && isTyping == old(isTyping)
    {
      messages := UpdatedLast(messages, content);
    }

    /** `clearHistory()`: the messages go, the id and the typing flag stay. */
    method ClearHistory()
      modifies this
      ensures messages == []
      ensures conversationId == old(conversationId) && isTyping == old(isTyping)
    {
      messages := [];
    }
  }
}
