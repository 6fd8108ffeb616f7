/** One chat turn (app/api/chat/route.ts, POST).

    The turn is a straight line of awaits with early returns: resolve the
    user, embed the last message, fetch matching reviews, ask for a streamed
    completion, and, when the stream finishes, upsert the transcript. Every
    external result is a parameter: the user id from the session, the
    embedding service (`embed`), the `match_reviews` call (`matchReviews`),
    the completion (`complete`), `nanoid()` (`freshId`) and `Date.now()`
    (`now`). `HandleTurn` returns the response together with the sequence of
    external calls it issued, so that "no call happens" is a statement about
    that sequence. */
module ChatRoute {
  import opened ChatTypes
  import ChatStore

  /** The five columns the route selects from `match_reviews`; a column the
      database returns as null is None. */
  datatype Review = Review(
    title: Option<string>,
    likes: Option<string>,
    dislikes: Option<string>,
    problem: Option<string>,
    recommendations: Option<string>)


  datatype MatchResult = MatchError | Matched(reviews: seq<Review>)

  /** How the completion request ends: the provider rejects the request (the
      await throws), the stream ends normally with the full text, or the
      stream is cut short by a provider error or a client disconnect. */
  datatype Completion = Rejected | Finished(text: string) | Cut

  /** The request body: `messages` and `id` (`previewToken` is not modelled). */
  datatype Request = Request(messages: seq<Message>, id: Option<string>)

  /** An external call issued during the turn. */
  datatype Call =
    | Embed(input: string)
    | MatchReviews(embedding: Embedding)
    | Complete(messages: seq<Message>)
    | Upsert(id: string, payload: Chat)

  datatype Response =
    | Status(code: int, body: string)
    | Stream(completion: Completion)
    | Uncaught(exception: Exception)

  /** `if (!userId)`: no session, or an empty id, is not a user. */
  function Authorized(userId: Option<string>): (ok: bool)
    ensures userId.None? ==> !ok
    ensures userId == Some("") ==> !ok
    ensures userId.Some? && userId.value != "" ==> ok
  {
    userId.Some? && userId.value != ""
  }

  /** A value interpolated into a template literal: null prints as "null". */
  function Render(field: Option<string>): (text: string)
    ensures field.Some? ==> text == field.value
    ensures field.None? ==> text == "null"
  {
    match field
    case None => "null"
    case Some(s) => s
  }

  /** The template literal of line 75 over the five rendered columns. */
  function ReviewTemplate(t: string, l: string, d: string, p: string, c: string): (content: string) {
    "Review: " + t + ". Likes: " + l + ", Dislikes: " + d + ". Problems: " + p + ". Recommendations: " + c
  }

  /** The review template puts each label before its column, in order, and
      adds nothing else. */
  lemma ReviewTemplateSections(t: string, l: string, d: string, p: string, c: string)
    ensures var content := ReviewTemplate(t, l, d, p, c);
      && |content| == 60 + |t| + |l| + |d| + |p| + |c|
      && content[..8] == "Review: " && content[8..8 + |t|] == t
      && content[8 + |t|..17 + |t|] == ". Likes: " && content[17 + |t|..17 + |t| + |l|] == l
      && content[17 + |t| + |l|..29 + |t| + |l|] == ", Dislikes: "
      && content[29 + |t| + |l|..29 + |t| + |l| + |d|] == d
      && content[29 + |t| + |l| + |d|..41 + |t| + |l| + |d|] == ". Problems: "
      && content[41 + |t| + |l| + |d|..41 + |t| + |l| + |d| + |p|] == p
      && content[|content| - |c| - 19..|content| - |c|] == ". Recommendations: "
      && content[|content| - |c|..] == c
  {
  }

  /** The text of the system message made from one review. */
  function ReviewContent(r: Review): (content: string) {
    ReviewTemplate(Render(r.title), Render(r.likes), Render(r.dislikes), Render(r.problem), Render(r.recommendations))
  }

  /** `reviews.map(review => ({ content: ..., role: 'system' }))`. */
  function ReviewMessages(reviews: seq<Review>): (ms: seq<Message>)
    ensures |ms| == |reviews|
    ensures forall i :: 0 <= i < |reviews| ==> ms[i] == Message(System, ReviewContent(reviews[i]))
  {
    if reviews == [] then []
    else [Message(System, ReviewContent(reviews[0]))] + ReviewMessages(reviews[1..])
  }

  /** `[...reviewMessages, ...messages]`. */
  function CombinedMessages(reviews: seq<Review>, messages: seq<Message>): (ms: seq<Message>)
    ensures |ms| == |reviews| + |messages|
    ensures forall i :: 0 <= i < |reviews| ==> ms[i] == Message(System, ReviewContent(reviews[i]))
    ensures ms[|reviews|..] == messages
    ensures reviews == [] ==> ms == messages
  {
    ReviewMessages(reviews) + messages
  }

  /** `messages[messages.length - 1].content`: what is embedded. */
  function LastContent(messages: seq<Message>): (content: string)
    requires messages != []
    ensures content == messages[|messages| - 1].content
  {
    messages[|messages| - 1].content
  }

  /** `json.id ?? nanoid()`: a given id is kept, even an empty one. */
  function ChatId(requested: Option<string>, freshId: string): (id: string)
    ensures requested.Some? ==> id == requested.value
    ensures requested.None? ==> id == freshId
  {
    match requested
    case Some(given) => given
    case None => freshId
  }

  /** The payload built in `onCompletion`. */
  function TurnPayload(req: Request, userId: string, combined: seq<Message>, completion: string,
                       freshId: string, now: int): (p: Chat)
    requires req.messages != []
    ensures p.id == ChatId(req.id, freshId)
    ensures p.title == Prefix(req.messages[0].content, 100)
    ensures p.title <= req.messages[0].content && |p.title| <= 100
    ensures p.path == "/chat/" + p.id
    ensures p.userId == userId && p.createdAt == now && p.sharePath == None
    ensures |p.messages| == |combined| + 1
    ensures p.messages[..|combined|] == combined
    ensures p.messages[|combined|] == Message(Assistant, completion)
  {
    var id := ChatId(req.id, freshId);
    Chat(id, Prefix(req.messages[0].content, 100), userId, now, "/chat/" + id,
         combined + [Message(Assistant, completion)], None)
  }

  /** What one turn promises about its response and its external calls,
      in the order issued. */
  predicate TurnOutcome(req: Request, userId: Option<string>,
                        embed: string -> Option<Embedding>,
                        matchReviews: Embedding -> MatchResult,
                        complete: seq<Message> -> Completion,
                        freshId: string, now: int, resp: Response, calls: seq<Call>)
  {
    // 401 before anything else, with no external call
    && (!Authorized(userId) <==> resp == Status(401, "Unauthorized"))
    && (!Authorized(userId) ==> calls == [])
    // the last message is read before any call; with none the handler throws
    && (Authorized(userId) && req.messages == [] ==> resp == Uncaught(TypeError) && calls == [])
    && (Authorized(userId) && req.messages != [] ==>
          var input := LastContent(req.messages);
          && |calls| >= 1 && calls[0] == Embed(input)
          && (embed(input).None? ==> resp == Uncaught(ServiceError) && calls == [Embed(input)])
          && (embed(input).Some? ==>
                var e := embed(input).value;
                && |calls| >= 2 && calls[1] == MatchReviews(e)
                && (matchReviews(e).MatchError? <==> resp == Status(500, "Failed to fetch reviews"))
                && (matchReviews(e).MatchError? ==> calls == [Embed(input), MatchReviews(e)])
                && (matchReviews(e).Matched? ==>
                      var combined := CombinedMessages(matchReviews(e).reviews, req.messages);
                      && |calls| >= 3 && calls[2] == Complete(combined)
                      && (complete(combined).Rejected? ==> resp == Uncaught(ServiceError) && |calls| == 3)
                      && (!complete(combined).Rejected? ==> resp == Stream(complete(combined)))
                      && (complete(combined).Cut? ==> |calls| == 3)
                      && (complete(combined).Finished? ==>
                            var p := TurnPayload(req, userId.value, combined, complete(combined).text, freshId, now);
                            calls == [Embed(input), MatchReviews(e), Complete(combined), Upsert(p.id, p)]))))
    // persistence only after a finished stream, as the last call
    && |calls| <= 4
    && (forall i :: 0 <= i < |calls| && calls[i].Upsert? ==> i == 3)
    && (|calls| == 4 <==> resp.Stream? && resp.completion.Finished?)
  }

  /** POST: the response and the external calls, in the order issued. */
  method HandleTurn(req: Request, userId: Option<string>,
                    embed: string -> Option<Embedding>,
                    matchReviews: Embedding -> MatchResult,
                    complete: seq<Message> -> Completion,
                    freshId: string, now: int)
    returns (resp: Response, calls: seq<Call>)
    ensures TurnOutcome(req, userId, embed, matchReviews, complete, freshId, now, resp, calls)
  {
    calls := [];
    if !Authorized(userId) {
      resp := Status(401, "Unauthorized");
      return;
    }
    if req.messages == [] {
      resp := Uncaught(TypeError);
      return;
    }
    var input := LastContent(req.messages);
    calls := calls + [Embed(input)];
    var embedding := embed(input);
    if embedding.None? {
      resp := Uncaught(ServiceError);
      return;
    }
    calls := calls + [MatchReviews(embedding.value)];
    var matched := matchReviews(embedding.value);
    if matched.MatchError? {
      resp := Status(500, "Failed to fetch reviews");
      return;
    }
    var combined := CombinedMessages(matched.reviews, req.messages);
    calls := calls + [Complete(combined)];
    var completion := complete(combined);
    if completion.Rejected? {
      resp := Uncaught(ServiceError);
      return;
    }
    if completion.Finished? {
      var payload := TurnPayload(req, userId.value, combined, completion.text, freshId, now);
      calls := calls + [Upsert(payload.id, payload)];
    }
    resp := Stream(completion);
  }

  /** POST against the `chats` table: the turn's upsert, if any, is applied
      to the table; a failed upsert leaves it unchanged and does not change
      the response, which has already been streamed. `newOwner` is the
      `user_id` the database gives a new row. */
  method Post(table: ChatStore.ChatTable, req: Request, userId: Option<string>,
              embed: string -> Option<Embedding>,
              matchReviews: Embedding -> MatchResult,
              complete: seq<Message> -> Completion,
              freshId: string, now: int, newOwner: string, upsertFails: bool)
    returns (resp: Response, calls: seq<Call>)
    modifies table
    ensures TurnOutcome(req, userId, embed, matchReviews, complete, freshId, now, resp, calls)
    ensures |calls| == 4 ==>
      && calls[3].Upsert?
      && table.rows == (if upsertFails then old(table.rows)
                        else ChatStore.Upserted(old(table.rows), calls[3].id, calls[3].payload, newOwner))
    ensures |calls| != 4 ==> table.rows == old(table.rows)
  {
    resp, calls := HandleTurn(req, userId, embed, matchReviews, complete, freshId, now);
    if |calls| == 4 {
      var upsert := calls[3];
      assert upsert.Upsert?;
      var _ := table.Upsert(upsert.id, upsert.payload, newOwner, upsertFails);
    }
  }

  /** When every service succeeds and the stream finishes, the turn streams
      the reply and its fourth and last call upserts the payload built from
      this request, keyed by its id. */
  lemma FinishedTurnUpsertsPayload(req: Request, userId: Option<string>,
                                   embed: string -> Option<Embedding>,
                                   matchReviews: Embedding -> MatchResult,
                                   complete: seq<Message> -> Completion,
                                   freshId: string, now: int, resp: Response, calls: seq<Call>,
                                   e: Embedding, reviews: seq<Review>, text: string)
    requires TurnOutcome(req, userId, embed, matchReviews, complete, freshId, now, resp, calls)
    requires Authorized(userId) && req.messages != []
    requires embed(LastContent(req.messages)) == Some(e)
    requires matchReviews(e) == Matched(reviews)
    requires complete(CombinedMessages(reviews, req.messages)) == Finished(text)
    ensures var p := TurnPayload(req, userId.value, CombinedMessages(reviews, req.messages), text, freshId, now);
      && resp == Stream(Finished(text))
      && |calls| == 4 && calls[3] == Upsert(p.id, p)
      && p.userId == userId.value
  {
  }

  /** The transcript persisted by a finished turn is what was sent to the
      model followed by the reply, and reading it back by id returns it. */
  lemma PersistedTranscriptRoundTrip(rows: ChatStore.Table, req: Request, userId: string,
                                     reviews: seq<Review>, completion: string,
                                     freshId: string, now: int, newOwner: string)
    requires req.messages != []
    ensures var combined := CombinedMessages(reviews, req.messages);
      var p := TurnPayload(req, userId, combined, completion, freshId, now);
      var stored := ChatStore.GetChat(ChatStore.Upserted(rows, p.id, p, newOwner), p.id, false);
      && stored == Some(p)
      && p.messages[..|reviews|] == ReviewMessages(reviews)
      && p.messages[|reviews|..|reviews| + |req.messages|] == req.messages
      && p.messages[|p.messages| - 1] == Message(Assistant, completion)
  {
  }
}
