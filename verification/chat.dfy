// The client's chat log (`src/features/stateSlices/chatEntries.js`):
// `addChatEntry` pushes onto the draft list and `clearChat` replaces it.

module ChatEntries {
  /** One line of the log. */
  datatype ChatEntry = ChatEntry(msg: string, isStrong: bool)

  /** The chat slice. */
  class ChatSlice {
    var entries: seq<ChatEntry>

    /** The initial chat is empty. */
    constructor ()
      ensures entries == []
    {
      entries := [];
    }

    /** `addChatEntry`: one entry pushed at the end. */
    method AddChatEntry(msg: string, isStrong: bool)
      modifies this
      ensures entries == old(entries) + [ChatEntry(msg, isStrong)]
    {
      entries := entries + [ChatEntry(msg, isStrong)];
    }

    /** `clearChat`: the empty list, whatever came before. */
    method ClearChat()
      modifies this
      ensures entries == []
    {
      entries := [];
    }
  }
}
