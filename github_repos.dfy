/**
 * The repository page (`GitHubRepos`): the statistics it derives from the
 * user's `Github_Repos` rows, and `syncRepo`, which pushes a bot's code to
 * a repository through the push route and records the link.
 *
 * The signed-in user's id, the session token, the bot's stored code, the
 * push route's answer, the bot list the page reads and the clock are
 * inputs.
 */
module GitHubRepos {
  import opened Wrappers
  import opened Text
  import opened RepoStore
  import PushRoute
  import Webhook

  /** The bot fields the page selects. */
  datatype BotSummary = BotSummary(id: string, name: string, status: string)

  datatype Stats = Stats(totalRepos: nat, syncedRepos: nat, totalCommits: int, lastSync: Option<string>)

  /** The request the page sends to the push route. */
  datatype PushCall = PushCall(authorization: string, repoName: string, content: string, path: string, message: string)

  /** The push route's answer as `fetch` sees it: a throw, or a response that is ok or not. */
  datatype PushReply = PushThrew(message: string) | PushAnswered(ok: bool)

  const SyncPath := "discord-bot/bot.js"
  const SyncMessagePrefix := "Sync Discord bot: "

  predicate Linked(row: RepoRow)
  {
    Truthy(row.discordBotId)
  }

  /** `data.filter(r => r.discord_bot_id).length`. */
  function SyncedCount(rows: seq<RepoRow>): (n: nat)
    ensures n <= |rows|
  {
    |Where(rows, Linked)|
  }

  /** `data.reduce((acc, repo) => acc + (repo.commits || 0), acc)`, a left fold. */
  function SumCommits(acc: int, rows: seq<RepoRow>): int
    decreases |rows|
  {
    if rows == [] then acc else SumCommits(acc + rows[0].commits.GetOr(0), rows[1..])
  }

  /** The sum of the commit counts, a missing count taken as 0. */
  function CommitsOf(rows: seq<RepoRow>): int
  {
    if rows == [] then 0 else rows[0].commits.GetOr(0) + CommitsOf(rows[1..])
  }

  /** `data[0]?.last_sync || null`. */
  function LastSync(rows: seq<RepoRow>): (r: Option<string>)
    ensures r.Some? ==> rows != [] && r == rows[0].lastSync && r.value != []
    ensures rows != [] && Truthy(rows[0].lastSync) ==> r == rows[0].lastSync
  {
    if rows != [] && Truthy(rows[0].lastSync) then rows[0].lastSync else None
  }

  /** The statistics `fetchData` sets. */
  function ComputeStats(rows: seq<RepoRow>): (s: Stats)
    ensures s.totalRepos == |rows|
    ensures s.syncedRepos <= s.totalRepos
    ensures s.totalCommits == CommitsOf(rows)
    ensures s.lastSync == LastSync(rows)
  {
    FoldIsSum(0, rows);
    Stats(|rows|, SyncedCount(rows), SumCommits(0, rows), LastSync(rows))
  }

  /** The left fold from `acc` adds the sum of the counts to `acc`. */
  lemma {:induction false} FoldIsSum(acc: int, rows: seq<RepoRow>)
    ensures SumCommits(acc, rows) == acc + CommitsOf(rows)
    decreases |rows|
  {
    if rows != [] {
      FoldIsSum(acc + rows[0].commits.GetOr(0), rows[1..]);
    }
  }

  /** The commit total of two lists of rows is the sum of their totals. */
  lemma {:induction false} CommitsOfAppend(a: seq<RepoRow>, b: seq<RepoRow>)
    ensures CommitsOf(a + b) == CommitsOf(a) + CommitsOf(b)
  {
    if a == [] {
      assert a + b == b;
    } else {
      assert (a + b)[1..] == a[1..] + b;
      CommitsOfAppend(a[1..], b);
    }
  }

  /** Rows without a commit count add nothing to the total. */
  lemma {:induction false} CommitsOfMissing(rows: seq<RepoRow>)
    requires forall k :: 0 <= k < |rows| ==> rows[k].commits.None?
    ensures CommitsOf(rows) == 0
  {
    if rows != [] {
      CommitsOfMissing(rows[1..]);
    }
  }

  /**
   * Linking a bot to a row never lowers the synced count, and raises it
   * when the row was not linked before.
   */
  lemma {:induction false} RecordSyncCount(rows: seq<RepoRow>, id: string, botId: string, now: string)
    requires botId != []
    ensures SyncedCount(RecordSync(rows, id, botId, now)) >= SyncedCount(rows)
    ensures (exists k :: 0 <= k < |rows| && rows[k].id == id && !Linked(rows[k])) ==>
      SyncedCount(RecordSync(rows, id, botId, now)) > SyncedCount(rows)
  {
    if rows != [] {
      var after := RecordSync(rows, id, botId, now);
      RecordSyncCount(rows[1..], id, botId, now);
      assert after[1..] == RecordSync(rows[1..], id, botId, now);
      assert after[0] == (if rows[0].id == id then rows[0].(lastSync := Some(now), discordBotId := Some(botId)) else rows[0]);
      if exists k :: 0 <= k < |rows| && rows[k].id == id && !Linked(rows[k]) {
        var k :| 0 <= k < |rows| && rows[k].id == id && !Linked(rows[k]);
        if k > 0 {
          assert rows[1..][k - 1] == rows[k];
        }
      }
    }
  }

  /** `repos.find(r => r.id === id)`: the first row with that id. */
  function FindRepo(repos: seq<RepoRow>, id: string): (r: Option<RepoRow>)
    ensures r.Some? ==> exists k :: (0 <= k < |repos| && repos[k] == r.value && r.value.id == id
      && forall j :: 0 <= j < k ==> repos[j].id != id)
    ensures r.None? ==> forall k :: 0 <= k < |repos| ==> repos[k].id != id
  {
    if repos == [] then None
    else if repos[0].id == id then Some(repos[0])
    else
      var r := FindRepo(repos[1..], id);
      if r.Some? then
        var k :| 0 <= k < |repos[1..]| && repos[1..][k] == r.value && r.value.id == id
          && forall j :: 0 <= j < k ==> repos[1..][j].id != id;
        assert repos[k + 1] == r.value;
        r
      else
        r
  }

  /** `bots.find(b => b.id === id)`: the first bot with that id. */
  function FindBot(bots: seq<BotSummary>, id: string): (r: Option<BotSummary>)
    ensures r.Some? ==> r.value in bots && r.value.id == id
    ensures r.None? ==> forall k :: 0 <= k < |bots| ==> bots[k].id != id
  {
    if bots == [] then None
    else if bots[0].id == id then Some(bots[0])
    else FindBot(bots[1..], id)
  }

  /** The `Authorization` header the page sends. */
  function Authorization(token: string): string
  {
    "Bearer " + token
  }

  /** The header the page builds is accepted by the push route, which recovers the token. */
  lemma AuthorizationAccepted(token: string)
    ensures PushRoute.BearerToken(Some(Authorization(token))) == Some(token)
  {
    PushRoute.BearerTokenRoundTrip(token);
  }

  /** The sync path is one the webhook treats as a bot change. */
  lemma SyncPathRelevant()
    ensures Webhook.Relevant(SyncPath)
  {
    Webhook.PushedPathsRelevant();
  }

  class ReposPage {
    var repos: seq<RepoRow>
    var bots: seq<BotSummary>
    var syncing: map<string, bool>
    var stats: Stats
    var loading: bool
    /** The `Github_Repos` table the page reads and writes. */
    const store: Table

    constructor(store0: Table)
      ensures store == store0
      ensures repos == [] && bots == [] && syncing == map[] && loading
      ensures stats == Stats(0, 0, 0, None)
    {
      store := store0;
      repos, bots, syncing, loading := [], [], map[], true;
      stats := Stats(0, 0, 0, None);
    }

    /**
     * `fetchData`: with a user, that user's rows are read back and the
     * statistics recomputed from them; the bot list (the user's bots, read
     * by the caller) is replaced when it was read.
     */
    method FetchData(user: Option<string>, botsData: Option<seq<BotSummary>>)
      modifies this
      ensures user.None? ==> repos == old(repos) && bots == old(bots) && stats == old(stats) && loading == old(loading)
      ensures user.Some? ==> repos == Where(store.rows, OwnedBy(user.value)) && stats == ComputeStats(repos) && !loading
      ensures user.Some? ==> bots == if botsData.Some? then botsData.value else old(bots)
      ensures syncing == old(syncing)
    {
      if user.None? {
        return;
      }
      repos := Where(store.rows, OwnedBy(user.value));
      stats := ComputeStats(repos);
      if botsData.Some? {
        bots := botsData.value;
      }
      loading := false;
    }

    /**
     * `syncRepo(repoId, botId)`: returns the `syncing` map while the call
     * is in flight and the push request made, if any. At the end `syncing`
     * is the map of the call's start with `repoId` set to false, whatever
     * other syncs did meanwhile.
     */
    method SyncRepo(repoId: string, botId: string, token: Option<string>, botCode: Option<string>,
                    reply: PushReply, now: string, user: Option<string>, botsData: Option<seq<BotSummary>>)
      returns (during: map<string, bool>, call: Option<PushCall>)
      modifies this, store
      ensures during == old(syncing)[repoId := true]
      ensures syncing == old(syncing)[repoId := false]
      ensures call.Some? <==> (Truthy(token) && Truthy(botCode)
        && FindRepo(old(repos), repoId).Some? && FindBot(old(bots), botId).Some?)
      ensures call.Some? ==> call.value == PushCall(Authorization(token.value),
        FindRepo(old(repos), repoId).value.repoName, botCode.value, SyncPath,
        SyncMessagePrefix + FindBot(old(bots), botId).value.name)
      ensures store.rows == if call.Some? && reply == PushAnswered(true)
        then RecordSync(old(store.rows), repoId, botId, now) else old(store.rows)
      ensures !(call.Some? && reply == PushAnswered(true) && user.Some?) ==>
        repos == old(repos) && stats == old(stats) && bots == old(bots) && loading == old(loading)
      ensures call.Some? && reply == PushAnswered(true) && user.Some? ==>
        repos == Where(store.rows, OwnedBy(user.value)) && stats == ComputeStats(repos) && !loading
        && bots == if botsData.Some? then botsData.value else old(bots)
    {
      var snapshot := syncing;
      syncing := snapshot[repoId := true];
      during := syncing;
      call := None;
      if Truthy(token) {
        var repo := FindRepo(repos, repoId);
        var bot := FindBot(bots, botId);
        if Truthy(botCode) && repo.Some? && bot.Some? {
          call := Some(PushCall(Authorization(token.value), repo.value.repoName, botCode.value, SyncPath,
            SyncMessagePrefix + bot.value.name));
          if reply == PushAnswered(true) {
            store.rows := RecordSync(store.rows, repoId, botId, now);
            FetchData(user, botsData);
          }
        }
      }
      syncing := snapshot[repoId := false];
    }
  }
}
