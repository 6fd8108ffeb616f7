# Review-grounded chat: a Dafny model

This project models the logic of a Next.js chat application that answers
questions about software reviews. Each chat turn goes through these steps:

1. embed the caller's last message;
2. fetch the matching reviews from the `reviews` table through the
   `match_reviews` RPC;
3. put one system message per review in front of the caller's messages;
4. stream a completion;
5. once the stream finishes, upsert the transcript into the `chats` table.

Around that turn, the model covers:

- the server actions that read and write `chats`;
- the OAuth redirect address built from two environment variables;
- the avatar address built from the user's name;
- the Python script that fills the `reviews` table from a CSV export.

Modules, one per source file:

| module | file | source |
|---|---|---|
| `ChatTypes` | `chat_types.dfy` | the chat message and payload shapes, and how a JavaScript call ends (it returns or throws) |
| `ChatStore` | `chat_store.dfy` | `app/actions.ts` |
| `ChatRoute` | `chat_route.dfy` | `app/api/chat/route.ts` |
| `SiteUrl` | `site_url.dfy` | `components/login-button.tsx` (`getURL`, `redirectTo`) |
| `AvatarUrl` | `avatar_url.dfy` | `components/user-menu.tsx` (`getAvatarUrl`) |
| `ReviewIngest` | `review_ingest.dfy` | `scripts/generate_embeddings/generate_embeddings/main.py` |

### How the model represents the system

**The `chats` table.** It is a map from the `id` column to the row's
`user_id` and `payload`.
- The reads are functions of that map: `GetChats`, `GetChat` and
  `GetSharedChat`.
- The writes are methods of the `ChatStore.ChatTable` class, which holds the
  map.
- Whether a query fails is a parameter.

**External results are parameters.** These are:
- the session's user id;
- the embedding service, the `match_reviews` RPC and the completion provider;
- `nanoid()` and `Date.now()`;
- the sets of rows the database's row policies let the caller delete
  (`removeChat`, `clearChats`) and update (`shareChat`).

**The call trace.** `ChatRoute.HandleTurn` returns the sequence of external
calls it makes. This lets "no call happens" be stated as a property.

**JavaScript semantics are written out explicitly:**
- `??` keeps an empty string, but `!userId` rejects one.
- A `null` field interpolated into a template literal prints `null`.
- On an empty list, `messages[messages.length - 1]` is `undefined`, and
  reading its `.content` throws.
- `\s` matches exactly the ECMAScript WhiteSpace and LineTerminator code
  points.
- Next.js's `redirect` throws a signal instead of returning.

**Notes on what the code does:**
- The route sends one system message per review.
- The reviews' links are neither selected nor rendered.
- A failed embedding request throws out of the handler. The handler does
  not catch it, so the response is the framework's error, not the
  handler's 500 'Failed to fetch reviews'.
- `clearChats` issues a delete with no filter. Which rows go is up to the
  database's row policies.
- The code checks no ownership itself. A delete or update that the
  policies forbid skips the row without an error, so `removeChat` and
  `shareChat` still report success.

## Model

| member | source | states |
|---|---|---|
| ChatTypes.Prefix | app/api/chat/route.ts:90 | `substring(0, n)`: at most `n` characters, a prefix of the string, and the whole string when it is shorter |
| ChatStore.InsertByCreatedDesc | app/actions.ts:36 | inserting a chat adds exactly that chat to the multiset of the list |
| ChatStore.InsertKeepsOrder | app/actions.ts:36 | inserting into a list ordered newest first keeps it ordered newest first |
| ChatStore.SortByCreatedDesc | app/actions.ts:36 | the result is a permutation of the input ordered by `createdAt` descending |
| ChatStore.OwnedIds | app/actions.ts:37 | an id is selected iff its row's `user_id` equals the argument |
| ChatStore.Payloads | app/actions.ts:40 | the payload column of the selected rows, one per id, in order |
| ChatStore.PayloadsMembership | app/actions.ts:33-40 | a chat is in the result iff some row owned by the user has it as payload |
| ChatStore.PayloadCount | app/actions.ts:40 | mapping distinct rows to their payloads lists each payload once per row holding it |
| ChatStore.HoldingSplit | app/actions.ts:40 | the rows holding a payload, counted over a list of distinct keys, split into the first key and the rest |
| ChatStore.PayloadsCount | app/actions.ts:33-40 | each chat occurs in the result exactly as often as there are rows of the user holding it |
| ChatStore.GetChats | app/actions.ts:10-44 | `[]` for a null, undefined or empty user id and on any query failure; otherwise the payloads of the user's rows, each occurring exactly once per row that holds it, newest first |
| ChatStore.GetChat | app/actions.ts:46-72 | the payload of row `id` if it exists and the query did not fail, else null |
| ChatStore.GetSharedChat | app/actions.ts:136-163 | as getChat, but only when the stored payload has a `sharePath` |
| ChatStore.Upserted | app/api/chat/route.ts:108 | insert-or-replace of row `id`: the payload is replaced, an existing row keeps its `user_id`, every other row is unchanged |
| ChatStore.PayloadUpdated | app/actions.ts:189-193 | only row `id` gets the new payload, with its owner kept; no row is created |
| ChatStore.Removed | app/actions.ts:94 | exactly row `id` is gone; every other row is unchanged |
| ChatStore.Cleared | app/actions.ts:125 | exactly the rows the policies allow are gone; the rest are unchanged |
| ChatStore.RemoveWithinPolicy | app/actions.ts:94 | removeChat's delete removes row `id` when the policies allow it, and otherwise leaves the table as it was |
| ChatStore.Shared | app/actions.ts:166-169 | `sharePath` is `/share/` + id and every other field is the chat's own |
| ChatStore.ClearChatsTryBlock | app/actions.ts:125-127 | the try block always throws: a database error with nothing revalidated, or, after revalidating '/', the redirect signal for '/' |
| ChatStore.CatchAll | app/actions.ts:128-133 | every thrown value becomes `{ error: 'Unauthorized' }` |
| ChatStore.ClearChatsResultAsWritten | app/actions.ts:105-134 | as written, clearChats returns `{ error: 'Unauthorized' }` whether or not the delete succeeded |
| ChatStore.CatchAllButRedirect | app/actions.ts:128-133 | corrected catch: the redirect signal passes through; every other thrown value becomes the fixed error |
| ChatStore.ClearChatsResult | app/actions.ts:105-134 | corrected clearChats: it redirects to '/' iff the delete succeeded, and returns the fixed error iff it failed |
| ChatStore.ClearChatsAsWrittenHidesSuccess | app/actions.ts:125-133 | after a successful delete, the code as written reports an error where the intended result is a redirect; the revalidation of '/' is the only trace of the success |
| ChatStore.ChatTable.Upsert | app/api/chat/route.ts:108 | on success the table becomes `Upserted`; on failure it is unchanged and the call throws |
| ChatStore.ChatTable.RemoveChat | app/actions.ts:74-103 | on success row `id` is removed if the policies let the caller delete it (otherwise it stays), and '/' and `path` are revalidated either way; any failure returns the fixed error and leaves the table unchanged |
| ChatStore.ChatTable.ClearChats | app/actions.ts:105-134 | corrected clearChats (see ## Findings): on success the allowed rows are removed, '/' is revalidated and the result redirects to '/', where the code as written returns the fixed error; a failure returns the fixed error, revalidates nothing and leaves the table unchanged |
| ChatStore.ChatTable.ShareChat | app/actions.ts:165-196 | on success the shared payload is returned, and only row `chat.id` is rewritten with it, if the policies let the caller update it (otherwise the table is unchanged); a failure throws to the caller |
| ChatStore.ShareIdempotent | app/actions.ts:165-195 | sharing twice gives the same payload and the same table as sharing once |
| ChatStore.ShareThenGetShared | app/actions.ts:136-196 | after sharing an existing chat, getSharedChat finds the shared payload and the row keeps its owner |
| ChatStore.ShareMissingRowChangesNothing | app/actions.ts:189-195 | sharing a chat with no row leaves the table unchanged |
| ChatStore.UpsertThenGetChat | app/actions.ts:46-72 | after the route's upsert, getChat on that id returns the upserted payload |
| ChatStore.UpsertThenGetChats | app/actions.ts:33-40 | after the route's upsert of a chat owned by the user, the user's chat list holds that payload |
| ChatStore.RemoveKeepsOthers | app/actions.ts:94 | after removeChat, getChat on every other id returns what it returned before, and on the removed id returns null |
| ChatRoute.Authorized | app/api/chat/route.ts:41 | `!userId` rejects a missing session and an empty id, and accepts every other id |
| ChatRoute.Render | app/api/chat/route.ts:75 | a column interpolated into the template prints its text, or "null" when the database returns null |
| ChatRoute.ReviewTemplate | app/api/chat/route.ts:75 | the review template literal over the five rendered columns (its layout is stated by `ReviewTemplateSections`) |
| ChatRoute.ReviewTemplateSections | app/api/chat/route.ts:75 | "Review: T. Likes: L, Dislikes: D. Problems: P. Recommendations: R": each label precedes its column at a fixed offset, and nothing else is added |
| ChatRoute.ReviewContent | app/api/chat/route.ts:75 | the template applied to a review's title, likes, dislikes, problem and recommendations, each rendered by `Render` |
| ChatRoute.LastContent | app/api/chat/route.ts:53 | the embedding input is the content of the last message |
| ChatRoute.TurnOutcome | app/api/chat/route.ts:18-113 | the whole contract of a turn: 401 and no calls iff unauthorized; TypeError on an empty list; the embed, match, complete and upsert calls in that order, each only after the previous one succeeded; the upsert of `TurnPayload` as the fourth call iff the stream finished |
| ChatRoute.ReviewMessages | app/api/chat/route.ts:74-77 | one system message per review, in the same order, with the review rendered into it |
| ChatRoute.CombinedMessages | app/api/chat/route.ts:79 | the review messages followed by the caller's messages unchanged; length is the sum; with no reviews it is the caller's messages |
| ChatRoute.ChatId | app/api/chat/route.ts:91 | the caller's id if given (even an empty one), else the fresh id |
| ChatRoute.TurnPayload | app/api/chat/route.ts:89-107 | title is the first at most 100 characters of the first message; path is `/chat/` + id; `createdAt` is the callback time; messages are the combined messages followed by exactly one assistant message holding the completion |
| ChatRoute.HandleTurn | app/api/chat/route.ts:18-113 | 401 with no external call iff there is no user; 500 "Failed to fetch reviews" iff the match fails, with no completion and no upsert; embedding input is the last message's content; a rejected completion throws; the upsert of `TurnPayload` happens only after a finished stream, as the fourth and last call (all stated by the predicate `TurnOutcome`) |
| ChatRoute.Post | app/api/chat/route.ts:18-113 | the response and calls meet the same `TurnOutcome` as HandleTurn; the table changes only after a finished stream whose upsert succeeds, and then by exactly the upsert of that turn's payload; otherwise it is unchanged |
| ChatRoute.FinishedTurnUpsertsPayload | app/api/chat/route.ts:88-112 | when every service succeeds and the stream finishes, the reply is streamed and the fourth call upserts the payload built from this request, whose `userId` field is the caller's id |
| ChatRoute.PersistedTranscriptRoundTrip | app/api/chat/route.ts:88-110 | fetching the persisted chat by id returns the payload, whose messages are the review messages, then the caller's messages, then the reply |
| SiteUrl.Contains | components/login-button.tsx:21 | `includes`: `t` occurs in `s` at some index |
| SiteUrl.EndsWithSlash | components/login-button.tsx:23 | `charAt(length - 1) === '/'`, false on the empty string |
| SiteUrl.ContainsInLonger | components/login-button.tsx:21 | a substring of a string is a substring of any string built around it |
| SiteUrl.SiteBase | components/login-button.tsx:16-19 | `NEXT_PUBLIC_SITE_URL` if set, else `NEXT_PUBLIC_VERCEL_URL` if set, else `http://localhost:3000/`; an empty string counts as set |
| SiteUrl.WithScheme | components/login-button.tsx:21 | unchanged iff "http" occurs anywhere, otherwise "https://" is put in front; the result contains "http" |
| SiteUrl.WithTrailingSlash | components/login-button.tsx:23 | the result ends with '/', and one is appended iff it was missing |
| SiteUrl.Normalize | components/login-button.tsx:21-23 | the result contains "http", ends with '/', and contains the input |
| SiteUrl.NormalizeIdempotent | components/login-button.tsx:21-23 | normalising a normalised URL changes nothing |
| SiteUrl.GetUrl | components/login-button.tsx:15-25 | the three assignments give the normalised base, which contains "http", ends with '/', and is exactly `http://localhost:3000/` when neither variable is set |
| SiteUrl.EndsWithSlashThenPath | components/login-button.tsx:48 | a URL ending in '/' followed by the callback path ends in "//api/auth/callback" |
| SiteUrl.RedirectTo | components/login-button.tsx:48 | the target is getURL() + "/api/auth/callback"; it contains "http" and ends with "//api/auth/callback" |
| AvatarUrl.IsSpace | components/user-menu.tsx:36 | `\s`: exactly the ECMAScript WhiteSpace and LineTerminator code points |
| AvatarUrl.SkipSpaces | components/user-menu.tsx:36 | the longest whitespace prefix is dropped: the result is a suffix of the input, everything before it is whitespace, and it is empty or starts with a non-space |
| AvatarUrl.ReplaceSpaceRuns | components/user-menu.tsx:35-37 | the rewritten name is never longer than the name |
| AvatarUrl.ReplaceLeavesNoSpace | components/user-menu.tsx:35-37 | the rewritten name contains no whitespace |
| AvatarUrl.ReplaceKeepsSpacelessName | components/user-menu.tsx:35-38 | a name without whitespace passes through unchanged |
| AvatarUrl.AvatarUrlFor | components/user-menu.tsx:35-38 | the ui-avatars endpoint followed by the rewritten name, which holds no whitespace and is no longer than the name; a name without whitespace is appended as is |
| AvatarUrl.GetAvatarUrl | components/user-menu.tsx:34-39 | throws a TypeError iff the user has no name; otherwise the endpoint followed by the rewritten name, which holds no whitespace and is no longer than the name, and a name without whitespace is appended as is |
| AvatarUrl.SkipSpacesAppend | components/user-menu.tsx:36 | skipping whitespace over a concatenation skips into the second part only when the first is all whitespace |
| AvatarUrl.AllSpacesSkipped | components/user-menu.tsx:36 | a run of whitespace is skipped entirely |
| AvatarUrl.RunBecomesOnePlus | components/user-menu.tsx:35-37 | a whitespace run followed by a non-space becomes exactly one '+' |
| AvatarUrl.SkipSpacesKeepsLast | components/user-menu.tsx:36 | skipping stops before a last non-space character |
| AvatarUrl.ReplaceAppend | components/user-menu.tsx:35-37 | rewriting splits over a concatenation whose first part does not end in whitespace |
| AvatarUrl.RunInNameBecomesOnePlus | components/user-menu.tsx:35-37 | each maximal whitespace run inside a name becomes exactly one '+', and the text on both sides is rewritten on its own |
| AvatarUrl.VisibleSkipSpaces | components/user-menu.tsx:36 | skipping removes no character other than whitespace and '+' (that only whitespace is dropped is `SkipSpaces`'s own contract) |
| AvatarUrl.ReplaceKeepsVisible | components/user-menu.tsx:35-37 | apart from whitespace and '+', the rewritten name holds exactly the name's characters, in order, with no escaping |
| ReviewIngest.Header | scripts/generate_embeddings/generate_embeddings/main.py:59-69 | the CSV header read for each column (that reading it back gives the column is `HeaderOneToOne`) |
| ReviewIngest.FieldName | scripts/generate_embeddings/generate_embeddings/main.py:58-71 | the `reviews` column name of each key (that reading it back gives the key is `FieldNameOneToOne`) |
| ReviewIngest.HeaderOneToOne | scripts/generate_embeddings/generate_embeddings/main.py:59-69 | the eleven CSV headers read are distinct: reading a header back gives its column |
| ReviewIngest.FieldNameOneToOne | scripts/generate_embeddings/generate_embeddings/main.py:58-71 | the twelve DB column names are distinct: reading a name back gives its key |
| ReviewIngest.FillNa | scripts/generate_embeddings/generate_embeddings/main.py:33 | every missing cell becomes "" and every other cell keeps its text; the columns are the same |
| ReviewIngest.RowCombinedReview | scripts/generate_embeddings/generate_embeddings/main.py:37-40 | the combined review of a filled row, read from its likes, dislikes, problem and recommendations cells |
| ReviewIngest.RowCombinedReviewSections | scripts/generate_embeddings/generate_embeddings/main.py:37-40 | a row's combined review holds its likes, dislikes, problem and recommendations cells in that order at the template's offsets |
| ReviewIngest.CombinedReview | scripts/generate_embeddings/generate_embeddings/main.py:37-40 | "Likes: L . Dislikes: D . Problem: P . Recommendations: R": each section sits at a fixed offset between its labels |
| ReviewIngest.CombinedReviewIgnoresOtherColumns | scripts/generate_embeddings/generate_embeddings/main.py:37-40 | the combined text depends only on the four review sections, not on the title or any other column |
| ReviewIngest.DataRow | scripts/generate_embeddings/generate_embeddings/main.py:58-71 | the record holds the row's embedding under `embedding` |
| ReviewIngest.DataRowRenames | scripts/generate_embeddings/generate_embeddings/main.py:58-71 | each of the eleven CSV columns lands unchanged under its own DB column |
| ReviewIngest.Ingest | scripts/generate_embeddings/generate_embeddings/main.py:33-72 | one combined text, one embedding and one upserted record per row, in frame order; each is computed from the filled cells of that row |
| ReviewIngest.UpsertedRecordsRenameCells | scripts/generate_embeddings/generate_embeddings/main.py:57-72 | each upserted record carries the row's cell texts (a missing cell as "") under their DB columns, and the embedding of that row's combined text |

## Left out

- Supabase client construction and its cookie adapters are library plumbing.
- `auth.ts` is not part of this model. The session's user id is an input; `auth` throwing on a failed session lookup is not modelled.
- The OpenAI embedding and completion requests, `OpenAIStream` and `StreamingTextResponse` are external and asynchronous.
  - Each request is a given function of its input.
  - How a stream ends is an input (rejected, finished or cut).
  - Partial-stream forwarding is inside the SDK.
- The `previewToken` assignment to the module-level `configuration` (app/api/chat/route.ts:47-49) is shared state across requests and does not reach the client already built.
- The similarity threshold and the 20-result cap (app/api/chat/route.ts:61-68) are enforced by the `match_reviews` RPC. No bound on the reviews is claimed.
- Concurrent upserts race, and the last writer wins. Concurrency is not modelled.
- The `user_id` of a new row is filled in by the database. It is the `newOwner` parameter.
- `revalidatePath` has cache effects. Only the paths it is called with are recorded.
- The request body is taken to have a `messages` list. A missing or non-list body is not modelled.
- ChatRoute.HandleTurn: a failed embedding request and an empty embedding response both throw. Both are one outcome, `Uncaught(ServiceError)`.
- ChatStore.ChatTable.Upsert: the upsert and the reads (`ChatStore.GetChats`, `ChatStore.GetChat`, `ChatStore.GetSharedChat`) are modelled as if the row policies let the caller see and write every row. A policy that refuses the upsert raises an error, which is the `fails` input. A read that the policies hide is not modelled.
- ChatStore.GetChats: the database leaves the order of chats with equal `createdAt` open. The model fixes one admissible order and states only "newest first" and the contents, counted per row.
- ChatTypes.Prefix: `substring(0, 100)` counts UTF-16 code units, while Prefix counts Unicode scalar values, so `ChatRoute.TurnPayload`'s title may hold more characters than the source's. The source can also cut a surrogate pair in half, and a Dafny character cannot hold a lone surrogate.
- AvatarUrl.GetAvatarUrl: JavaScript strings are UTF-16 code units, while Dafny characters are Unicode scalar values. The length bound is stated in characters.
- ReviewIngest.FillNa: pandas reads a numeric column such as `Rating` as numbers. The model treats every cell as text.
- The script's I/O is not modelled: reading and writing the CSV files, the `df["embedding"]` column written back to disk, the Supabase client setup, and the progress messages.
- ReviewIngest.Ingest: requires every read column to be present. A CSV without one of the four review sections raises a KeyError while combining (main.py:37-40). A CSV without any other read column gets past the embeddings and the CSV write, and then raises a KeyError in the upsert loop (main.py:58-71). Neither failure is modelled.
- Errors of the embedding or upsert requests in the script are not modelled. The script has no handling for them and stops.
- The React components around `getURL`, `redirectTo` and `getAvatarUrl` are presentational: the button state and the `NEXT_PUBLIC_AUTH_GOOGLE` check.

## Findings

| source | as written | input that shows it | evidently intended | confidence | as-written member | corrected member |
|---|---|---|---|---|---|---|
| app/actions.ts:125-133 | `return redirect('/')` sits inside a `try` whose `catch` turns every thrown value into `{ error: 'Unauthorized' }`. Next.js's `redirect` works by throwing a redirect signal, so the catch swallows it. | a successful delete (`deleteFails = false`): the result is `{ error: 'Unauthorized' }` and no redirect happens | after a successful delete, redirect to '/'; return the error only when the delete fails | not executed | ChatStore.ClearChatsResultAsWritten (shown by ChatStore.ClearChatsAsWrittenHidesSuccess) | ChatStore.ClearChatsResult (used by ChatStore.ChatTable.ClearChats) |
