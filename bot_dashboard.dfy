/**
 * The bot dashboard (`BotDashboard`): the list of the user's bots and the
 * three handlers that change it after a store call (create, start/stop,
 * delete), plus the status badge.
 *
 * The store's answers, the ids it assigns and the answers to `confirm`
 * are inputs.
 */
module BotDashboard {
  import opened Wrappers

  /** A `Discord_bots` row as the dashboard keeps it. */
  datatype Bot = Bot(id: string, name: string, token: string, clientId: string, status: string, code: string)

  /** The row `handleCreateBot` inserts (before the store assigns its id). */
  datatype NewBotRow = NewBotRow(name: string, token: string, clientId: string, userId: string, status: string, code: string)

  /**
   * The starter code stored with a new bot. The identifier the dashboard
   * uses for it is not defined in the component, so its text is left open.
   */
  const DefaultCode: string

  /** `bot.status === 'online' ? 'offline' : 'online'`. */
  function NextStatus(status: string): (r: string)
    ensures r == "offline" <==> status == "online"
    ensures r == "online" || r == "offline"
  {
    if status == "online" then "offline" else "online"
  }

  /** The badge class for a status. */
  function Badge(status: string): (r: string)
    ensures status == "online" <==> r == "status-online"
    ensures status == "testing" <==> r == "status-testing"
    ensures r == "status-offline" <==> status != "online" && status != "testing"
  {
    if status == "online" then "status-online"
    else if status == "testing" then "status-testing"
    else "status-offline"
  }

  /** `bots.map(b => b.id === id ? { ...b, status } : b)`. */
  function WithStatus(bots: seq<Bot>, id: string, status: string): (r: seq<Bot>)
    ensures |r| == |bots|
    ensures forall k :: 0 <= k < |bots| ==> r[k] == if bots[k].id == id then bots[k].(status := status) else bots[k]
  {
    if bots == [] then [] else [if bots[0].id == id then bots[0].(status := status) else bots[0]] + WithStatus(bots[1..], id, status)
  }

  /** `bots.filter(bot => bot.id !== id)`. */
  function Without(bots: seq<Bot>, id: string): (r: seq<Bot>)
    ensures |r| <= |bots|
    ensures forall b :: b in r <==> b in bots && b.id != id
  {
    if bots == [] then []
    else if bots[0].id == id then Without(bots[1..], id)
    else [bots[0]] + Without(bots[1..], id)
  }

  /** The row a create inserts: pending client id, offline, starter code. */
  function NewRow(name: string, token: string, userId: string): (r: NewBotRow)
    ensures r.clientId == "pending" && r.status == "offline" && r.code == DefaultCode
    ensures r.name == name && r.token == token && r.userId == userId
  {
    NewBotRow(name, token, "pending", userId, "offline", DefaultCode)
  }

  /** The bot the store returns for an inserted row, under the id it gives it. */
  function Stored(id: string, row: NewBotRow): Bot
  {
    Bot(id, row.name, row.token, row.clientId, row.status, row.code)
  }

  /** Toggling twice returns a started or stopped bot to where it was. */
  lemma NextStatusTwice(status: string)
    requires status == "online" || status == "offline"
    ensures NextStatus(NextStatus(status)) == status
  {
  }

  /** A status other than `online`, such as `testing`, toggles to `online`. */
  lemma TestingStarts()
    ensures NextStatus("testing") == "online"
  {
  }

  /** The filter is order-preserving: it distributes over concatenation. */
  lemma {:induction false} WithoutAppend(a: seq<Bot>, b: seq<Bot>, id: string)
    ensures Without(a + b, id) == Without(a, id) + Without(b, id)
  {
    if a == [] {
      assert a + b == b;
    } else {
      assert (a + b)[1..] == a[1..] + b;
      WithoutAppend(a[1..], b, id);
    }
  }

  /** The filter leaves a list with no such id as it is. */
  lemma {:induction false} WithoutAbsent(bots: seq<Bot>, id: string)
    requires forall k :: 0 <= k < |bots| ==> bots[k].id != id
    ensures Without(bots, id) == bots
  {
    if bots != [] {
      WithoutAbsent(bots[1..], id);
      assert [bots[0]] + bots[1..] == bots;
    }
  }

  /** Setting a status keeps every id in its place. */
  lemma WithStatusKeepsIds(bots: seq<Bot>, id: string, status: string)
    ensures forall k :: 0 <= k < |bots| ==> WithStatus(bots, id, status)[k].id == bots[k].id
    ensures Without(WithStatus(bots, id, status), id) == Without(bots, id)
  {
    WithoutWithStatus(bots, id, status);
  }

  lemma {:induction false} WithoutWithStatus(bots: seq<Bot>, id: string, status: string)
    ensures Without(WithStatus(bots, id, status), id) == Without(bots, id)
  {
    if bots != [] {
      WithoutWithStatus(bots[1..], id, status);
      var w := WithStatus(bots, id, status);
      assert w[1..] == WithStatus(bots[1..], id, status);
    }
  }

  class Dashboard {
    var bots: seq<Bot>

    constructor(bots0: seq<Bot>)
      ensures bots == bots0
    {
      bots := bots0;
    }

    /**
     * `handleCreateBot`: the row inserted (none without a user) and, when
     * the store assigns it an id, the stored bot put first in the list.
     */
    method Create(name: string, token: string, user: Option<string>, newId: Option<string>)
      returns (inserted: Option<NewBotRow>)
      modifies this
      ensures inserted.Some? <==> user.Some?
      ensures inserted.Some? ==> inserted.value == NewRow(name, token, user.value)
      ensures bots == if user.Some? && newId.Some? then [Stored(newId.value, inserted.value)] + old(bots) else old(bots)
    {
      inserted := None;
      if user.None? {
        return;
      }
      var row := NewRow(name, token, user.value);
      inserted := Some(row);
      if newId.Some? {
        bots := [Stored(newId.value, row)] + bots;
      }
    }

    /**
     * `toggleBotStatus(bot)`: the status written is computed from the bot
     * passed in; after a successful write only that id's status changes.
     */
    method Toggle(bot: Bot, failed: bool) returns (written: string)
      modifies this
      ensures written == NextStatus(bot.status)
      ensures bots == if failed then old(bots) else WithStatus(old(bots), bot.id, written)
    {
      written := NextStatus(bot.status);
      if !failed {
        bots := WithStatus(bots, bot.id, written);
      }
    }

    /**
     * `deleteBot(id)`: no store call without confirmation; after a
     * successful delete exactly the entries with that id are gone.
     */
    method Delete(id: string, confirmed: bool, failed: bool) returns (requested: bool)
      modifies this
      ensures requested == confirmed
      ensures bots == if confirmed && !failed then Without(old(bots), id) else old(bots)
    {
      requested := confirmed;
      if confirmed && !failed {
        bots := Without(bots, id);
      }
    }
  }
}
