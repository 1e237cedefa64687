/** The chat log and its queue of pending messages (src/core/app_state.cpp). */
module AppState {

  datatype ChatMessage = ChatMessage(user: string, text: string, badges: seq<string>)

  datatype Chat = Chat(log: seq<ChatMessage>, pending: seq<ChatMessage>) {
    function Push(m: ChatMessage): Chat {
      this.(pending := pending + [m])
    }

    function Process(): Chat {
      Chat(log + pending, [])
    }
  }

  class ChatState {
    var chatLog: seq<ChatMessage>
    var pendingMessages: seq<ChatMessage>

    function View(): Chat
      reads this
    {
      Chat(chatLog, pendingMessages)
    }

    constructor ()
      ensures View() == Chat([], [])
    {
      chatLog, pendingMessages := [], [];
    }

    method PushChatMessage(m: ChatMessage)
      modifies this
      ensures View() == old(View()).Push(m)
    {
      pendingMessages := pendingMessages + [m];
    }

    method ProcessPendingMessages()
      modifies this
      ensures View() == old(View()).Process()
    {
      while pendingMessages != []
        invariant chatLog + pendingMessages == old(chatLog + pendingMessages)
        decreases |pendingMessages|
      {
        chatLog := chatLog + [pendingMessages[0]];
        pendingMessages := pendingMessages[1..];
      }
    }

    method PendingMessageCount() returns (n: nat)
      ensures n == |View().pending|
    {
      n := |pendingMessages|;
    }
  }
}
