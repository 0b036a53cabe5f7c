/**
 * `lib/gemini-session.ts`: the process-wide slot holding the active Gemini chat session.
 * The module-level `let` becomes a field of a registry object; `null` is `None`.
 */
module GeminiSession {
  import opened Wrappers
  import opened GenAi

  class SessionRegistry {
    /** The chat session the generate-pose handler continues, if any. */
    var activeChatSession: Option<ChatSession>

    /** Module load: the slot starts out empty. */
    constructor ()
      ensures activeChatSession == None
    {
      activeChatSession := None;
    }

    /** Overwrites the slot with `session`, whatever it held. */
    method SetActiveSession(session: ChatSession)
      modifies this
      ensures activeChatSession == Some(session)
    {
      activeChatSession := Some(session);
    }

    /** Reads the slot without changing it. */
    method GetActiveSession() returns (chat: Option<ChatSession>)
      ensures chat == activeChatSession
    {
      chat := activeChatSession;
    }
  }

  /** Before any `setActiveSession`, `getActiveSession()` returns null. */
  method ReadBeforeAnySet() returns (chat: Option<ChatSession>)
    ensures chat == None
  {
    var registry := new SessionRegistry();
    chat := registry.GetActiveSession();
  }

  /** After `setActiveSession(s)`, `getActiveSession()` returns `s`. */
  method ReadAfterSet(s: ChatSession) returns (chat: Option<ChatSession>)
    ensures chat == Some(s)
  {
    var registry := new SessionRegistry();
    registry.SetActiveSession(s);
    chat := registry.GetActiveSession();
  }

  /** Last writer wins: setting `a` and then `b` leaves `b` in the slot. */
  method LastWriterWins(a: ChatSession, b: ChatSession) returns (chat: Option<ChatSession>)
    ensures chat == Some(b)
  {
    var registry := new SessionRegistry();
    registry.SetActiveSession(a);
    registry.SetActiveSession(b);
    chat := registry.GetActiveSession();
  }

  /** Reading is side-effect free, so two reads in a row agree whatever the slot holds. */
  method ReadTwice(registry: SessionRegistry) returns (first: Option<ChatSession>, second: Option<ChatSession>)
    ensures first == second == registry.activeChatSession
  {
    first := registry.GetActiveSession();
    second := registry.GetActiveSession();
  }
}
