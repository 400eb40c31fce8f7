/**
 * The chat endpoint's conversation store: per session, the message list
 * sent to the chat model.  A request appends the user's message, rewrites
 * the system message, appends the model's answer and keeps the system
 * message plus the 40 most recent messages.
 */
module ChatEndpoint {
  import opened Records

  /** One message of a conversation. */
  datatype Message = Message(role: string, content: string)

  /** What an endpoint answers: the reply and the session, a deleted session's message, or an HTTP error. */
  datatype Response = ChatOk(response: string, sessionId: string) | SessionDeleted(message: string) | HttpError(status: int, detail: string)

  /** The message `delete_session` answers a removed session with. */
  const DeletedMessage := "세션이 삭제되었습니다."
  /** The 404 detail for an unknown session. */
  const SessionNotFound := "세션을 찾을 수 없습니다."

  const HistoryLimit: nat := 41
  const RecentKept: nat := 40

  /** The trim after a turn: a history over 41 messages becomes its first message and its last 40. */
  function Trim(ms: seq<Message>): (r: seq<Message>)
    ensures |ms| > HistoryLimit ==> |r| == HistoryLimit && r[0] == ms[0] && r[1..] == ms[|ms| - RecentKept..]
    ensures |ms| <= HistoryLimit ==> r == ms
  {
    if |ms| > HistoryLimit then [ms[0]] + ms[|ms| - RecentKept..] else ms
  }

  /** `messages[0]["content"] = system_message` */
  function SetSystem(ms: seq<Message>, system: string): (r: seq<Message>)
    requires ms != []
    ensures |r| == |ms| && r[0] == Message(ms[0].role, system) && r[1..] == ms[1..]
  {
    ms[0 := Message(ms[0].role, system)]
  }

  /**
   * The history after a turn whose call answered `answer`: never over 41
   * messages, and nothing is dropped while the history fits.
   */
  function TurnHistory(ms: seq<Message>, user: string, system: string, answer: string): (r: seq<Message>)
    ensures |r| <= HistoryLimit
    ensures |ms| + 2 <= HistoryLimit ==> |r| == |ms| + 2
  {
    Trim(SetSystem(ms + [Message("user", user)], system) + [Message("assistant", answer)])
  }

  /**
   * After a turn the first message carries the new system text, and the
   * rest is the most recent part of the earlier history followed by the
   * user's message and the answer.
   */
  lemma TurnKeepsRecent(ms: seq<Message>, user: string, system: string, answer: string)
    requires ms != []
    ensures var r := TurnHistory(ms, user, system, answer);
      var full := ms[1..] + [Message("user", user), Message("assistant", answer)];
      r[0] == Message(ms[0].role, system) && r[1..] == full[|full| - (|r| - 1)..]
  {
    var full := ms[1..] + [Message("user", user), Message("assistant", answer)];
    var whole := SetSystem(ms + [Message("user", user)], system) + [Message("assistant", answer)];
    assert whole[1..] == full;
  }

  /** The conversations of all sessions, by session id. */
  class ConversationStore {
    var sessions: map<string, seq<Message>>

    constructor ()
      ensures sessions == map[]
    {
      sessions := map[];
    }

    /**
     * `chat_endpoint` for a session `get_or_create_session` returned.
     * `reply` is the outcome of the chat model call.  A failed call is
     * answered with status 500 and leaves the user's message and the new
     * system text in the history.
     */
    method Chat(sessionId: string, user: string, system: string, reply: Reply) returns (resp: Response)
      requires sessionId in sessions
      modifies this
      ensures reply.Answer? ==>
        resp == ChatOk(reply.text, sessionId)
        && sessions == old(sessions)[sessionId := TurnHistory(old(sessions)[sessionId], user, system, reply.text)]
      ensures reply.Failure? ==>
        resp == HttpError(500, reply.message)
        && sessions == old(sessions)[sessionId := SetSystem(old(sessions)[sessionId] + [Message("user", user)], system)]
    {
      var messages := sessions[sessionId] + [Message("user", user)];
      sessions := sessions[sessionId := messages];
      messages := messages[0 := Message(messages[0].role, system)];
      sessions := sessions[sessionId := messages];
      if reply.Failure? {
        return HttpError(500, reply.message);
      }
      messages := messages + [Message("assistant", reply.text)];
      sessions := sessions[sessionId := messages];
      if |messages| > HistoryLimit {
        var systemMessage := messages[0];
        var recent := messages[|messages| - RecentKept..];
        sessions := sessions[sessionId := [systemMessage] + recent];
      }
      resp := ChatOk(reply.text, sessionId);
    }

    /** `delete_session`: an unknown id is answered with status 404 and changes nothing. */
    method DeleteSession(sessionId: string) returns (resp: Response)
      modifies this
      ensures old(sessionId in sessions) ==> resp == SessionDeleted(DeletedMessage) && sessions == old(sessions) - {sessionId}
      ensures old(sessionId !in sessions) ==> resp == HttpError(404, SessionNotFound) && sessions == old(sessions)
    {
      if sessionId in sessions {
        sessions := sessions - {sessionId};
        return SessionDeleted(DeletedMessage);
      }
      return HttpError(404, SessionNotFound);
    }
  }
}
