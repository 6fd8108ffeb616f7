/** Shapes shared by the chat route and the chat actions: the chat message,
    the persisted chat payload, and how a JavaScript call ends (it returns a
    value or throws). */
module ChatTypes {

  datatype Option<+T> = None | Some(value: T)

  /** The role field of a chat message as the completion provider reads it. */
  datatype Role = System | User | Assistant

  datatype Message = Message(role: Role, content: string)

  /** An embedding vector: what the embedding service returns, what
      `match_reviews` compares, and what the `reviews` table stores. */
  type Embedding = seq<real>

  /** The JSON payload stored in the `payload` column of the `chats` table.
      `sharePath` is absent (None) until the chat is shared. */
  datatype Chat = Chat(
    id: string,
    title: string,
    userId: string,
    createdAt: int,
    path: string,
    messages: seq<Message>,
    sharePath: Option<string>)

  /** What a thrown JavaScript value is, as far as the callers here care:
      a database error raised by `throwOnError()`, a runtime error of the
      script itself (a TypeError), a failed external request, or the signal
      that Next.js's `redirect` throws to perform a redirect. */
  datatype Exception = DbError | TypeError | ServiceError | RedirectSignal(to: string)

  /** The end of a JavaScript call: a returned value or a thrown exception. */
  datatype Outcome<+T> = Returned(value: T) | Threw(exception: Exception)

  /** `s.substring(0, n)`: the first `n` characters, or all of `s` when it is shorter. */
  function Prefix(s: string, n: nat): (r: string)
    ensures |r| <= n && |r| <= |s|
    ensures |r| == n || r == s
    ensures r <= s
  {
    if |s| <= n then s else s[..n]
  }
}
