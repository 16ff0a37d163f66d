/**
 * The `Github_Repos` table as the routes and components see it: a list of
 * rows, updated by `.update(...).eq(column, value)` (every matching row)
 * and read by `.select(...).eq(column, value).single()` (a row only when
 * exactly one matches).
 */
module RepoStore {
  import opened Wrappers

  /** One row of `Github_Repos`; `None` stands for a null column. */
  datatype RepoRow = RepoRow(
    id: string,
    userId: string,
    repoName: string,
    discordBotId: Option<string>,
    commits: Option<int>,
    lastSync: Option<string>)

  /** The rows for which `p` holds, in table order (`.eq(...)` as a filter). */
  function Where(rows: seq<RepoRow>, p: RepoRow -> bool): (r: seq<RepoRow>)
    ensures |r| <= |rows|
    ensures forall k :: 0 <= k < |r| ==> p(r[k])
  {
    if rows == [] then []
    else if p(rows[0]) then [rows[0]] + Where(rows[1..], p)
    else Where(rows[1..], p)
  }

  /** The filter keeps exactly the rows for which `p` holds. */
  lemma {:induction false} WhereMembers(rows: seq<RepoRow>, p: RepoRow -> bool)
    ensures forall row :: row in Where(rows, p) <==> row in rows && p(row)
  {
    if rows != [] {
      WhereMembers(rows[1..], p);
      assert rows == [rows[0]] + rows[1..];
    }
  }

  /** `.single()`: the one matching row, or `None` (null data) for none or several. */
  function Single(rows: seq<RepoRow>, p: RepoRow -> bool): (r: Option<RepoRow>)
    ensures r.Some? ==> r.value in rows && p(r.value)
    ensures r.Some? ==> forall row :: row in rows && p(row) ==> row == r.value
    ensures r.None? ==> |Where(rows, p)| != 1
  {
    var hits := Where(rows, p);
    WhereMembers(rows, p);
    if |hits| == 1 then
      assert forall row :: row in hits ==> row == hits[0];
      Some(hits[0])
    else None
  }

  /** `.update(f).eq(key, value)`: `f` applied to every matching row, the rest kept. */
  function UpdateWhere(rows: seq<RepoRow>, p: RepoRow -> bool, f: RepoRow -> RepoRow): (r: seq<RepoRow>)
    ensures |r| == |rows|
    ensures forall k :: 0 <= k < |rows| ==> r[k] == if p(rows[k]) then f(rows[k]) else rows[k]
  {
    if rows == [] then []
    else [if p(rows[0]) then f(rows[0]) else rows[0]] + UpdateWhere(rows[1..], p, f)
  }

  /** The webhook's write: `commits` and `last_sync` of every row named `name`. */
  function RecordPush(rows: seq<RepoRow>, name: string, count: nat, now: string): (r: seq<RepoRow>)
    ensures |r| == |rows|
    ensures forall k :: 0 <= k < |rows| ==>
      r[k] == if rows[k].repoName == name then rows[k].(commits := Some(count), lastSync := Some(now)) else rows[k]
  {
    UpdateWhere(rows, (row: RepoRow) => row.repoName == name, (row: RepoRow) => row.(commits := Some(count), lastSync := Some(now)))
  }

  /** The sync write of the repository page: `last_sync` and `discord_bot_id` of the row `id`. */
  function RecordSync(rows: seq<RepoRow>, id: string, botId: string, now: string): (r: seq<RepoRow>)
    ensures |r| == |rows|
    ensures forall k :: 0 <= k < |rows| ==>
      r[k] == if rows[k].id == id then rows[k].(lastSync := Some(now), discordBotId := Some(botId)) else rows[k]
  {
    UpdateWhere(rows, (row: RepoRow) => row.id == id, (row: RepoRow) => row.(lastSync := Some(now), discordBotId := Some(botId)))
  }

  /** `.eq('id', id)` as a filter. */
  function HasId(id: string): RepoRow -> bool
  {
    (row: RepoRow) => row.id == id
  }

  /** `.eq('user_id', userId)` as a filter: the rows of one user. */
  function OwnedBy(userId: string): RepoRow -> bool
  {
    (row: RepoRow) => row.userId == userId
  }

  /** `.eq('discord_bot_id', botId)` as a filter. */
  function LinkedTo(botId: string): RepoRow -> bool
  {
    (row: RepoRow) => row.discordBotId == Some(botId)
  }

  /** `.eq('discord_bot_id', botId).single()`. */
  function SingleByBot(rows: seq<RepoRow>, botId: string): Option<RepoRow>
  {
    Single(rows, LinkedTo(botId))
  }

  /**
   * When no row was linked to `botId`, the sync write of row `id` leaves
   * exactly the rows with that id linked to it.
   */
  lemma {:induction false} SyncLinksExactly(rows: seq<RepoRow>, id: string, botId: string, now: string)
    requires forall k :: 0 <= k < |rows| ==> rows[k].discordBotId != Some(botId)
    ensures |Where(RecordSync(rows, id, botId, now), LinkedTo(botId))| == |Where(rows, HasId(id))|
    ensures forall row :: row in RecordSync(rows, id, botId, now) && LinkedTo(botId)(row) ==> row.id == id
  {
    var after := RecordSync(rows, id, botId, now);
    forall row | row in after && LinkedTo(botId)(row)
      ensures row.id == id
    {
      var k :| 0 <= k < |after| && after[k] == row;
    }
    if rows != [] {
      SyncLinksExactly(rows[1..], id, botId, now);
      assert after[1..] == RecordSync(rows[1..], id, botId, now);
    }
  }

  /**
   * After the sync write links the one row with id `id` to a bot no row was
   * linked to, `.eq('discord_bot_id', botId).single()` finds that row, under
   * its repository name.
   */
  lemma SyncThenSingle(rows: seq<RepoRow>, id: string, botId: string, now: string)
    requires forall k :: 0 <= k < |rows| ==> rows[k].discordBotId != Some(botId)
    requires |Where(rows, HasId(id))| == 1
    ensures SingleByBot(RecordSync(rows, id, botId, now), botId).Some?
    ensures var row := SingleByBot(RecordSync(rows, id, botId, now), botId).value;
      row.id == id && exists k :: 0 <= k < |rows| && rows[k].id == id && rows[k].repoName == row.repoName
  {
    SyncLinksExactly(rows, id, botId, now);
    var after := RecordSync(rows, id, botId, now);
    var row := SingleByBot(after, botId).value;
    var k :| 0 <= k < |after| && after[k] == row;
  }

  /** `.eq('repo_name', name).single()`. */
  function SingleByName(rows: seq<RepoRow>, name: string): Option<RepoRow>
  {
    Single(rows, (row: RepoRow) => row.repoName == name)
  }

  /**
   * `Where` commutes with an update that keeps the filtered column: the
   * matches after the update are the updated matches.
   */
  lemma {:induction false} WhereUpdate(rows: seq<RepoRow>, p: RepoRow -> bool, q: RepoRow -> bool, f: RepoRow -> RepoRow)
    requires forall row :: p(f(row)) == p(row)
    ensures Where(UpdateWhere(rows, q, f), p) == UpdateWhere(Where(rows, p), q, f)
  {
    if rows != [] {
      WhereUpdate(rows[1..], p, q, f);
      var u := UpdateWhere(rows, q, f);
      assert u == [u[0]] + UpdateWhere(rows[1..], q, f);
      assert u[1..] == UpdateWhere(rows[1..], q, f);
      if p(rows[0]) {
        var w := [rows[0]] + Where(rows[1..], p);
        assert w[1..] == Where(rows[1..], p);
      }
    }
  }

  /**
   * The webhook's write leaves the `.single()` lookup by name answering for
   * the same row: found before iff found after, with the same linked bot.
   */
  lemma RecordPushKeepsLink(rows: seq<RepoRow>, name: string, count: nat, now: string)
    ensures SingleByName(RecordPush(rows, name, count, now), name).Some? == SingleByName(rows, name).Some?
    ensures SingleByName(rows, name).Some? ==>
      SingleByName(RecordPush(rows, name, count, now), name).value.discordBotId == SingleByName(rows, name).value.discordBotId
  {
    var p := (row: RepoRow) => row.repoName == name;
    var f := (row: RepoRow) => row.(commits := Some(count), lastSync := Some(now));
    WhereUpdate(rows, p, p, f);
  }

  /**
   * The webhook's write keeps every row with its owner: a user's rows after
   * it are that user's rows before it, with the push recorded.
   */
  lemma RecordPushOwned(rows: seq<RepoRow>, name: string, count: nat, now: string, userId: string)
    ensures Where(RecordPush(rows, name, count, now), OwnedBy(userId)) == RecordPush(Where(rows, OwnedBy(userId)), name, count, now)
  {
    var p := (row: RepoRow) => row.repoName == name;
    var f := (row: RepoRow) => row.(commits := Some(count), lastSync := Some(now));
    WhereUpdate(rows, OwnedBy(userId), p, f);
  }

  /**
   * The sync write keeps every row with its owner: a user's rows after it
   * are that user's rows before it, with the sync recorded.
   */
  lemma RecordSyncOwned(rows: seq<RepoRow>, id: string, botId: string, now: string, userId: string)
    ensures Where(RecordSync(rows, id, botId, now), OwnedBy(userId)) == RecordSync(Where(rows, OwnedBy(userId)), id, botId, now)
  {
    var p := (row: RepoRow) => row.id == id;
    var f := (row: RepoRow) => row.(lastSync := Some(now), discordBotId := Some(botId));
    WhereUpdate(rows, OwnedBy(userId), p, f);
  }

  /**
   * A redelivered push with the same name, count and time leaves the table
   * as the first delivery left it.
   */
  lemma RecordPushIdempotent(rows: seq<RepoRow>, name: string, count: nat, now: string)
    ensures RecordPush(RecordPush(rows, name, count, now), name, count, now) == RecordPush(rows, name, count, now)
  {
    var once := RecordPush(rows, name, count, now);
    var twice := RecordPush(once, name, count, now);
    assert forall k :: 0 <= k < |rows| ==> twice[k] == once[k];
  }

  /** Repeating a sync write with the same arguments changes nothing more. */
  lemma RecordSyncIdempotent(rows: seq<RepoRow>, id: string, botId: string, now: string)
    ensures RecordSync(RecordSync(rows, id, botId, now), id, botId, now) == RecordSync(rows, id, botId, now)
  {
    var once := RecordSync(rows, id, botId, now);
    var twice := RecordSync(once, id, botId, now);
    assert forall k :: 0 <= k < |rows| ==> twice[k] == once[k];
  }

  /** The table itself, which the routes and the repository page update in place. */
  class Table {
    var rows: seq<RepoRow>

    constructor(rows0: seq<RepoRow>)
      ensures rows == rows0
    {
      rows := rows0;
    }
  }
}
