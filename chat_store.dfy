/** The server actions over the `chats` table (app/actions.ts).

    The table is a map from the `id` column to the row's `user_id` and
    `payload` columns. The reads (getChats, getChat, getSharedChat) are
    functions of that map; the writes (the route's upsert, removeChat,
    clearChats, shareChat) are methods of `ChatTable`, which holds the map.
    Whether a query fails (network, policy, malformed request) is a
    parameter: the database is outside this model. */
module ChatStore {
  import opened ChatTypes

  /** One row of `chats`: the `user_id` column and the `payload` column. */
  datatype Row = Row(userId: string, payload: Chat)

  type Table = map<string, Row>

  /** What a server action that catches its own errors hands back:
      `undefined` after revalidating some paths, a redirect, or `{ error }`. */
  datatype ActionResult = Revalidated(paths: seq<string>) | Redirected(to: string) | ActionError(error: string)

  /** The fixed result every caught failure collapses into. */
  const Unauthorized: ActionResult := ActionError("Unauthorized")

  // ---------------------------------------------------------------- getChats

  ghost predicate SortedByCreatedDesc(cs: seq<Chat>) {
    forall i, j :: 0 <= i < j < |cs| ==> cs[i].createdAt >= cs[j].createdAt
  }

  /** Inserts `c` into a list ordered newest first, before the first
      element that is not newer. */
  function InsertByCreatedDesc(c: Chat, cs: seq<Chat>): (r: seq<Chat>)
    ensures multiset(r) == multiset(cs) + multiset{c}
  {
    if cs == [] || cs[0].createdAt <= c.createdAt then [c] + cs
    else
      assert cs == [cs[0]] + cs[1..];
      [cs[0]] + InsertByCreatedDesc(c, cs[1..])
  }

  lemma {:induction false} InsertKeepsOrder(c: Chat, cs: seq<Chat>)
    requires SortedByCreatedDesc(cs)
    ensures SortedByCreatedDesc(InsertByCreatedDesc(c, cs))
  {
    if cs == [] || cs[0].createdAt <= c.createdAt {
    } else {
      var rest := InsertByCreatedDesc(c, cs[1..]);
      InsertKeepsOrder(c, cs[1..]);
      forall i | 0 <= i < |rest| ensures rest[i].createdAt <= cs[0].createdAt {
        assert rest[i] in multiset(rest);
        if rest[i] != c {
          assert rest[i] in multiset(cs[1..]);
          var j :| 0 <= j < |cs[1..]| && cs[1..][j] == rest[i];
          assert cs[j + 1] == rest[i];
        }
      }
      assert InsertByCreatedDesc(c, cs) == [cs[0]] + rest;
    }
  }

  /** `.order('payload->createdAt', { ascending: false })`: newest first.
      The database leaves the order of equal timestamps open; this is one
      admissible order. */
  function SortByCreatedDesc(cs: seq<Chat>): (r: seq<Chat>)
    ensures multiset(r) == multiset(cs)
    ensures SortedByCreatedDesc(r)
  {
    if cs == [] then []
    else
      assert cs == [cs[0]] + cs[1..];
      var sortedTail := SortByCreatedDesc(cs[1..]);
      InsertKeepsOrder(cs[0], sortedTail);
      InsertByCreatedDesc(cs[0], sortedTail)
  }

  /** The ids of the rows whose `user_id` is `userId`. */
  function OwnedIds(rows: Table, userId: string): (ids: set<string>)
    ensures forall k :: k in ids <==> k in rows && rows[k].userId == userId
  {
    set k | k in rows && rows[k].userId == userId
  }

  /** The rows of a set, in the order the database happens to scan them. */
  ghost function Enumerate(ids: set<string>): (r: seq<string>)
    ensures |r| == |ids|
    ensures forall k :: k in r <==> k in ids
    ensures Distinct(r)
    decreases ids
  {
    if ids == {} then []
    else
      var k :| k in ids;
      [k] + Enumerate(ids - {k})
  }

  predicate Distinct(ks: seq<string>) {
    forall i, j :: 0 <= i < j < |ks| ==> ks[i] != ks[j]
  }

  /** The keys of the rows owned by `userId` whose payload is `c`. */
  function RowsHolding(rows: Table, userId: string, c: Chat): (ids: set<string>) {
    set k | k in rows && rows[k].userId == userId && rows[k].payload == c
  }

  /** The listed keys whose row holds payload `c`. */
  function Holding(rows: Table, ids: seq<string>, c: Chat): (held: set<string>) {
    set k | k in ids && k in rows && rows[k].payload == c
  }

  /** Each payload occurs in `Payloads` once per listed row holding it. */
  lemma {:induction false} PayloadCount(rows: Table, ids: seq<string>, c: Chat)
    requires forall k :: k in ids ==> k in rows
    requires Distinct(ids)
    ensures multiset(Payloads(rows, ids))[c] == |Holding(rows, ids, c)|
  {
    if ids == [] {
      assert Holding(rows, ids, c) == {};
    } else {
      var h, t := ids[0], ids[1..];
      var here := if rows[h].payload == c then 1 else 0;
      assert multiset(Payloads(rows, ids))[c] == here + multiset(Payloads(rows, t))[c] by {
        assert Payloads(rows, ids) == [rows[h].payload] + Payloads(rows, t);
      }
      assert multiset(Payloads(rows, t))[c] == |Holding(rows, t, c)| by {
        assert Distinct(t) by {
          forall i, j | 0 <= i < j < |t| ensures t[i] != t[j] {
            assert t[i] == ids[i + 1] && t[j] == ids[j + 1];
          }
        }
        PayloadCount(rows, t, c);
      }
      assert |Holding(rows, ids, c)| == here + |Holding(rows, t, c)| by {
        HoldingSplit(rows, ids, c);
      }
    }
  }

  lemma HoldingSplit(rows: Table, ids: seq<string>, c: Chat)
    requires ids != [] && ids[0] in rows
    requires Distinct(ids)
    ensures |Holding(rows, ids, c)| == (if rows[ids[0]].payload == c then 1 else 0) + |Holding(rows, ids[1..], c)|
  {
    var h, t := ids[0], ids[1..];
    assert ids == [h] + t;
    assert h !in t by {
      forall j | 0 <= j < |t| ensures t[j] != h {
        assert t[j] == ids[j + 1];
      }
    }
    if rows[h].payload == c {
      assert Holding(rows, ids, c) == Holding(rows, t, c) + {h};
    } else {
      assert Holding(rows, ids, c) == Holding(rows, t, c);
    }
  }

  function Payloads(rows: Table, ids: seq<string>): (r: seq<Chat>)
    requires forall k :: k in ids ==> k in rows
    ensures |r| == |ids|
    ensures forall i :: 0 <= i < |ids| ==> r[i] == rows[ids[i]].payload
  {
    seq(|ids|, i requires 0 <= i < |ids| => rows[ids[i]].payload)
  }

  /** getChats(userId): no user id (null, undefined or '') gives [] without
      a query; a failed query gives []; otherwise the payloads of the rows
      owned by `userId`, newest first. */
  ghost function GetChats(rows: Table, userId: Option<string>, fails: bool): (r: seq<Chat>)
    ensures userId == None || userId == Some("") || fails ==> r == []
    ensures SortedByCreatedDesc(r)
    ensures userId.Some? && userId.value != "" && !fails ==>
      |r| == |OwnedIds(rows, userId.value)| &&
      (forall c :: c in r <==> exists k :: k in rows && rows[k].userId == userId.value && rows[k].payload == c) &&
      forall c :: multiset(r)[c] == |RowsHolding(rows, userId.value, c)|
  {
    if userId == None || userId == Some("") || fails then []
    else
      var ids := Enumerate(OwnedIds(rows, userId.value));
      var payloads := Payloads(rows, ids);
      var r := SortByCreatedDesc(payloads);
      PayloadsMembership(rows, userId.value, ids, payloads, r);
      assert |r| == |multiset(r)| == |multiset(payloads)| == |payloads|;
      PayloadsCount(rows, userId.value, ids, payloads, r);
      r
  }

  lemma PayloadsMembership(rows: Table, userId: string, ids: seq<string>, payloads: seq<Chat>, r: seq<Chat>)
    requires forall k :: k in ids <==> k in rows && rows[k].userId == userId
    requires payloads == Payloads(rows, ids)
    requires multiset(r) == multiset(payloads)
    ensures forall c :: c in r <==> exists k :: k in rows && rows[k].userId == userId && rows[k].payload == c
  {
    forall c
      ensures c in r <==> exists k :: k in rows && rows[k].userId == userId && rows[k].payload == c
    {
      calc {
        c in r;
        c in multiset(r);
        c in multiset(payloads);
        c in payloads;
      }
      if c in payloads {
        var i :| 0 <= i < |payloads| && payloads[i] == c;
        assert ids[i] in rows && rows[ids[i]].userId == userId && rows[ids[i]].payload == c;
      }
      if k :| k in rows && rows[k].userId == userId && rows[k].payload == c {
        var i :| 0 <= i < |ids| && ids[i] == k;
        assert payloads[i] == c;
      }
    }
  }

  lemma PayloadsCount(rows: Table, userId: string, ids: seq<string>, payloads: seq<Chat>, r: seq<Chat>)
    requires forall k :: k in ids <==> k in rows && rows[k].userId == userId
    requires Distinct(ids)
    requires payloads == Payloads(rows, ids)
    requires multiset(r) == multiset(payloads)
    ensures forall c :: multiset(r)[c] == |RowsHolding(rows, userId, c)|
  {
    forall c
      ensures multiset(r)[c] == |RowsHolding(rows, userId, c)|
    {
      PayloadCount(rows, ids, c);
      assert Holding(rows, ids, c) == RowsHolding(rows, userId, c);
    }
  }

  // ------------------------------------------------- getChat, getSharedChat

  /** getChat(id): `.eq('id', id).maybeSingle()`; the query error is not
      looked at, so a failure also reads as null (None). */
  function GetChat(rows: Table, id: string, fails: bool): (r: Option<Chat>)
    ensures r.Some? <==> !fails && id in rows
    ensures r.Some? ==> r.value == rows[id].payload
  {
    if !fails && id in rows then Some(rows[id].payload) else None
  }

  /** getSharedChat(id): as getChat, but only a row whose payload has a
      `sharePath` is found. */
  function GetSharedChat(rows: Table, id: string, fails: bool): (r: Option<Chat>)
    ensures r.Some? <==> GetChat(rows, id, fails).Some? && rows[id].payload.sharePath.Some?
    ensures r.Some? ==> r == GetChat(rows, id, fails)
  {
    if !fails && id in rows && rows[id].payload.sharePath.Some? then Some(rows[id].payload) else None
  }

  // ------------------------------------------------------ table rewrites

  /** `upsert({ id, payload })`: insert or replace the payload of row `id`.
      The upsert names only `id` and `payload`, so an existing row keeps its
      `user_id`; a new row gets the one the database fills in (`newOwner`). */
  function Upserted(rows: Table, id: string, payload: Chat, newOwner: string): (r: Table)
    ensures r.Keys == rows.Keys + {id}
    ensures r[id].payload == payload
    ensures r[id].userId == (if id in rows then rows[id].userId else newOwner)
    ensures forall k :: k in rows && k != id ==> r[k] == rows[k]
  {
    rows[id := Row(if id in rows then rows[id].userId else newOwner, payload)]
  }

  /** `update({ payload }).eq('id', id)`: rewrites the payload of row `id`
      if there is one; no row is created. */
  function PayloadUpdated(rows: Table, id: string, payload: Chat): (r: Table)
    ensures r.Keys == rows.Keys
    ensures id in rows ==> r[id] == Row(rows[id].userId, payload)
    ensures forall k :: k in rows && k != id ==> r[k] == rows[k]
  {
    if id in rows then rows[id := Row(rows[id].userId, payload)] else rows
  }

  /** `delete().eq('id', id)`. */
  function Removed(rows: Table, id: string): (r: Table)
    ensures r.Keys == rows.Keys - {id}
    ensures forall k :: k in r ==> r[k] == rows[k]
  {
    rows - {id}
  }

  /** A delete over the rows in `candidates`: the database's row policies
      silently skip the rows this caller may not delete, so the rows removed
      are the candidates in `deletable`. clearChats has no filter (every
      row is a candidate); removeChat's filter is `{id}`. */
  function Cleared(rows: Table, deletable: set<string>): (r: Table)
    ensures r.Keys == rows.Keys - deletable
    ensures forall k :: k in r ==> r[k] == rows[k]
  {
    rows - deletable
  }

  /** removeChat's delete under the row policies: row `id` goes when the
      caller may delete it, and otherwise the table stays as it was. */
  lemma RemoveWithinPolicy(rows: Table, id: string, deletable: set<string>)
    ensures id in deletable ==> Cleared(rows, {id} * deletable) == Removed(rows, id)
    ensures id !in deletable ==> Cleared(rows, {id} * deletable) == rows
  {
  }

  // ------------------------------------------------------------- shareChat

  /** `{ ...chat, sharePath: '/share/' + chat.id }`. */
  function Shared(chat: Chat): (r: Chat)
    ensures r.sharePath == Some("/share/" + chat.id)
    ensures r.(sharePath := chat.sharePath) == chat
  {
    chat.(sharePath := Some("/share/" + chat.id))
  }

  // ------------------------------------------------------------- clearChats

  /** What a try block did before it ended: the paths it revalidated, and
      how it ended. */
  datatype Attempt = Attempt(revalidated: seq<string>, outcome: Outcome<ActionResult>)

  /** The try block of clearChats as written: the delete (throws on failure),
      `revalidatePath('/')`, then `return redirect('/')`. Next.js's
      `redirect` never returns: it throws a redirect signal. */
  function ClearChatsTryBlock(deleteFails: bool): (a: Attempt)
    ensures a.outcome.Threw?
    ensures a.outcome.exception == (if deleteFails then DbError else RedirectSignal("/"))
    ensures a.revalidated == [] <==> deleteFails
    ensures !deleteFails ==> a.revalidated == ["/"]
  {
    if deleteFails then Attempt([], Threw(DbError))
    else Attempt(["/"], Threw(RedirectSignal("/")))
  }

  /** The catch block as written: every exception becomes the fixed error. */
  function CatchAll(o: Outcome<ActionResult>): (r: ActionResult)
    ensures o.Threw? ==> r == Unauthorized
    ensures o.Returned? ==> r == o.value
  {
    match o
    case Returned(v) => v
    case Threw(_) => Unauthorized
  }

  /** clearChats as written: the redirect signal is caught with the rest. */
  function ClearChatsResultAsWritten(deleteFails: bool): (r: ActionResult)
    ensures r == Unauthorized
  {
    CatchAll(ClearChatsTryBlock(deleteFails).outcome)
  }

  /** A catch block that lets the redirect signal through, so that Next.js
      performs the redirect; every other exception becomes the fixed error. */
  function CatchAllButRedirect(o: Outcome<ActionResult>): (r: ActionResult)
    ensures o.Threw? && o.exception.RedirectSignal? ==> r == Redirected(o.exception.to)
    ensures o.Threw? && !o.exception.RedirectSignal? ==> r == Unauthorized
    ensures o.Returned? ==> r == o.value
  {
    match o
    case Returned(v) => v
    case Threw(RedirectSignal(to)) => Redirected(to)
    case Threw(_) => Unauthorized
  }

  /** clearChats as intended: a redirect to '/' after a successful delete,
      the fixed error after a failed one. */
  function ClearChatsResult(deleteFails: bool): (r: ActionResult)
    ensures r == Redirected("/") <==> !deleteFails
    ensures r == Unauthorized <==> deleteFails
  {
    CatchAllButRedirect(ClearChatsTryBlock(deleteFails).outcome)
  }

  /** The discrepancy: with the delete done, clearChats as written still
      reports `{ error: 'Unauthorized' }` and no redirect happens; the
      revalidation of '/' is the only trace of the success. */
  lemma ClearChatsAsWrittenHidesSuccess()
    ensures ClearChatsResultAsWritten(false) == ActionError("Unauthorized")
    ensures ClearChatsTryBlock(false).revalidated == ["/"]
    ensures ClearChatsResult(false) == Redirected("/")
  {
  }

  // ------------------------------------------------------------- the table

  class ChatTable {
    var rows: Table

    constructor (initial: Table)
      ensures rows == initial
    {
      rows := initial;
    }

    /** The chat route's `upsert({ id, payload }).throwOnError()`. */
    method Upsert(id: string, payload: Chat, newOwner: string, fails: bool) returns (o: Outcome<()>)
      modifies this
      ensures fails ==> rows == old(rows) && o == Threw(DbError)
      ensures !fails ==> rows == Upserted(old(rows), id, payload, newOwner) && o == Returned(())
    {
      if fails {
        o := Threw(DbError);
      } else {
        rows := Upserted(rows, id, payload, newOwner);
        o := Returned(());
      }
    }

    /** removeChat({ id, path }): deletes row `id` if the row policies let
        this caller (`deletable`), then revalidates '/' and `path`. A row the
        policies protect stays, and the action still succeeds. Any failure
        gives the fixed error and changes nothing. */
    method RemoveChat(id: string, path: string, deletable: set<string>, fails: bool) returns (r: ActionResult)
      modifies this
      ensures fails ==> rows == old(rows) && r == Unauthorized
      ensures !fails ==> rows == Cleared(old(rows), {id} * deletable) && r == Revalidated(["/", path])
    {
      if fails {
        r := Unauthorized;
      } else {
        rows := Cleared(rows, {id} * deletable);
        r := Revalidated(["/", path]);
      }
    }

    /** clearChats(): an unfiltered delete, a revalidation of '/', then a
        redirect to '/'; `revalidated` lists the paths revalidated. */
    method ClearChats(deletable: set<string>, fails: bool) returns (r: ActionResult, revalidated: seq<string>)
      modifies this
      ensures fails ==> rows == old(rows) && r == Unauthorized && revalidated == []
      ensures !fails ==> rows == Cleared(old(rows), deletable) && r == Redirected("/") && revalidated == ["/"]
    {
      if !fails {
        rows := Cleared(rows, deletable);
      }
      var attempt := ClearChatsTryBlock(fails);
      revalidated := attempt.revalidated;
      r := CatchAllButRedirect(attempt.outcome);
    }

    /** shareChat(chat): writes the shared payload over row `chat.id` when
        the row policies let this caller update it (`updatable`), and returns
        the payload either way. There is no try block: a failed update throws
        to the caller. */
    method ShareChat(chat: Chat, updatable: set<string>, fails: bool) returns (o: Outcome<Chat>)
      modifies this
      ensures fails ==> rows == old(rows) && o == Threw(DbError)
      ensures !fails ==> o == Returned(Shared(chat))
      ensures !fails && chat.id in updatable ==> rows == PayloadUpdated(old(rows), chat.id, Shared(chat))
      ensures !fails && chat.id !in updatable ==> rows == old(rows)
    {
      var payload := Shared(chat);
      if fails {
        o := Threw(DbError);
      } else {
        if chat.id in updatable {
          rows := PayloadUpdated(rows, chat.id, payload);
        }
        o := Returned(payload);
      }
    }
  }

  // ------------------------------------------------------------- properties

  /** Sharing twice writes and returns what sharing once did. */
  lemma ShareIdempotent(rows: Table, chat: Chat)
    ensures Shared(Shared(chat)) == Shared(chat)
    ensures PayloadUpdated(PayloadUpdated(rows, chat.id, Shared(chat)), Shared(chat).id, Shared(Shared(chat)))
         == PayloadUpdated(rows, chat.id, Shared(chat))
  {
  }

  /** A shared chat whose row exists can be fetched through getSharedChat,
      and the row keeps its owner. */
  lemma ShareThenGetShared(rows: Table, chat: Chat)
    requires chat.id in rows
    ensures GetSharedChat(PayloadUpdated(rows, chat.id, Shared(chat)), chat.id, false) == Some(Shared(chat))
    ensures PayloadUpdated(rows, chat.id, Shared(chat))[chat.id].userId == rows[chat.id].userId
  {
  }

  /** Sharing a chat with no row leaves the table as it was. */
  lemma ShareMissingRowChangesNothing(rows: Table, chat: Chat)
    requires chat.id !in rows
    ensures PayloadUpdated(rows, chat.id, Shared(chat)) == rows
  {
  }

  /** Persisting a transcript and reading it back by id gives the payload. */
  lemma UpsertThenGetChat(rows: Table, id: string, payload: Chat, newOwner: string)
    ensures GetChat(Upserted(rows, id, payload, newOwner), id, false) == Some(payload)
  {
  }

  /** After an upsert, the owner's chat list holds the new payload. */
  lemma UpsertThenGetChats(rows: Table, id: string, payload: Chat, newOwner: string)
    requires newOwner != ""
    requires id in rows ==> rows[id].userId == newOwner
    ensures payload in GetChats(Upserted(rows, id, payload, newOwner), Some(newOwner), false)
  {
    var after := Upserted(rows, id, payload, newOwner);
    assert id in after && after[id].userId == newOwner && after[id].payload == payload;
  }

  /** removeChat leaves every other chat readable as before. */
  lemma RemoveKeepsOthers(rows: Table, id: string, other: string, fails: bool)
    requires other != id
    ensures GetChat(Removed(rows, id), other, fails) == GetChat(rows, other, fails)
    ensures GetChat(Removed(rows, id), id, fails) == None
  {
  }
}
