/**
 * The GitHub webhook route (`POST /api/github/webhook`): a signature gate,
 * then for `push` events a write of the sync metadata to `Github_Repos`,
 * then a redeploy decision from the changed files and the linked bot.
 *
 * HMAC-SHA256 is the input function `hmacHex` (secret, body) to hex
 * digest; `JSON.parse(body)` is the input `payload` (`None` when the body
 * is not JSON); the clock is the input `now`.
 */
module Webhook {
  import opened Wrappers
  import opened Text
  import opened RepoStore

  /** A commit of the push payload; a missing or null list is `None`. */
  datatype Commit = Commit(added: Option<seq<string>>, modified: Option<seq<string>>, removed: Option<seq<string>>)

  /**
   * The fields of the payload the handler reads: `repository.full_name`
   * (`None` when `repository` is missing, so that reading `full_name`
   * throws; a `repository` without `full_name` puts `undefined` into the
   * filter, which the query carries as the text "undefined", so it is
   * `Some("undefined")`) and `commits`.
   */
  datatype Payload = Payload(repository: Option<string>, commits: Option<seq<Commit>>)

  datatype Request = Request(signature: Option<string>, body: string, event: Option<string>, payload: Option<Payload>)

  /** The JSON reply: `{ success: true }` or `{ error }` with its status. */
  datatype Response = Response(status: nat, error: Option<string>)

  const Succeeded := Response(200, None)
  const InvalidSignature := Response(401, Some("Invalid signature"))
  const ProcessingFailed := Response(500, Some("Webhook processing failed"))

  /**
   * The signature gate: with a truthy secret the header must equal
   * `"sha256="` followed by the hex HMAC of the body; with no secret any
   * header, or none, passes.
   */
  predicate SignatureOk(secret: Option<string>, hmacHex: (string, string) -> string, signature: Option<string>, body: string)
  {
    !Truthy(secret) || signature == Some("sha256=" + hmacHex(secret.value, body))
  }

  /** `(commits || []).length`. */
  function CommitCount(commits: Option<seq<Commit>>): nat
  {
    if commits.Some? then |commits.value| else 0
  }

  /** A list as the array `concat` receives: a missing one is a single `undefined`. */
  function Part(files: Option<seq<string>>): seq<Option<string>>
  {
    if files.None? then [None] else Defined(files.value)
  }

  /** Paths as array elements, all defined. */
  function Defined(files: seq<string>): (r: seq<Option<string>>)
    ensures |r| == |files|
    ensures forall k :: 0 <= k < |files| ==> r[k] == Some(files[k])
  {
    if files == [] then [] else [Some(files[0])] + Defined(files[1..])
  }

  /**
   * `c.added.concat(c.modified).concat(c.removed)`; `None` when `added` is
   * missing, which throws. A missing `modified` or `removed` contributes
   * one `undefined` element.
   */
  function CommitFiles(c: Commit): Option<seq<Option<string>>>
  {
    if c.added.None? then None else Some(Defined(c.added.value) + Part(c.modified) + Part(c.removed))
  }

  /** `xs.flatMap(f)` for an `f` that may throw (`None`): `None` as soon as one call throws. */
  function FlatMap<A, B>(f: A -> Option<seq<B>>, xs: seq<A>): Option<seq<B>>
  {
    if xs == [] then Some([])
    else
      match f(xs[0])
      case None => None
      case Some(head) =>
        match FlatMap(f, xs[1..])
        case None => None
        case Some(tail) => Some(head + tail)
  }

  /** `commits.flatMap(...)` over the commit file lists. */
  function ChangedFiles(commits: seq<Commit>): Option<seq<Option<string>>>
  {
    FlatMap(CommitFiles, commits)
  }

  /** The redeploy markers. */
  predicate Relevant(path: string)
  {
    Contains(path, "bot.js") || Contains(path, "discord-bot")
  }

  /**
   * `changedFiles.some(f => f.includes(...) || ...)`: `Some(true)` at the
   * first relevant path, `None` (a throw) at an `undefined` element reached
   * before any relevant path, `Some(false)` otherwise.
   */
  function AnyRelevant(files: seq<Option<string>>): (r: Option<bool>)
    ensures r == Some(true) <==> exists i :: (0 <= i < |files| && files[i].Some? && Relevant(files[i].value)
      && forall j :: 0 <= j < i ==> files[j].Some?)
    ensures r.None? <==> exists i :: (0 <= i < |files| && files[i].None?
      && forall j :: 0 <= j < i ==> files[j].Some? && !Relevant(files[j].value))
  {
    if files == [] then Some(false)
    else if files[0].None? then
      None
    else if Relevant(files[0].value) then
      Some(true)
    else
      var r := AnyRelevant(files[1..]);
      assert forall i :: 1 <= i < |files| ==> files[i] == files[1..][i - 1];
      if r == Some(true) then
        var i :| 0 <= i < |files[1..]| && files[1..][i].Some? && Relevant(files[1..][i].value)
          && forall j :: 0 <= j < i ==> files[1..][j].Some?;
        assert files[i + 1].Some? && Relevant(files[i + 1].value);
        r
      else if r.None? then
        var i :| 0 <= i < |files[1..]| && files[1..][i].None?
          && forall j :: 0 <= j < i ==> files[1..][j].Some? && !Relevant(files[1..][j].value);
        assert files[i + 1].None?;
        r
      else
        r
  }

  /** The relevance test of a payload: `None` when computing it throws. */
  function PushRelevance(commits: Option<seq<Commit>>): Option<bool>
  {
    if commits.None? then Some(false)
    else
      match ChangedFiles(commits.value)
      case None => None
      case Some(files) => AnyRelevant(files)
  }

  /** The bot a relevant push redeploys: the single row's truthy `discord_bot_id`. */
  function LinkedBot(rows: seq<RepoRow>, name: string): Option<string>
  {
    match SingleByName(rows, name)
    case None => None
    case Some(row) => if Truthy(row.discordBotId) then row.discordBotId else None
  }

  /** The files of a commit that has all three lists. */
  function AllFiles(c: Commit): seq<string>
  {
    c.added.GetOr([]) + c.modified.GetOr([]) + c.removed.GetOr([])
  }

  predicate Complete(c: Commit)
  {
    c.added.Some? && c.modified.Some? && c.removed.Some?
  }

  lemma DefinedAppend(a: seq<string>, b: seq<string>)
    ensures Defined(a + b) == Defined(a) + Defined(b)
  {
  }

  /**
   * For commits that carry all three lists, the changed files are the
   * in-order concatenation of `added ++ modified ++ removed` per commit.
   */
  lemma {:induction false} ChangedFilesComplete(commits: seq<Commit>)
    requires forall k :: 0 <= k < |commits| ==> Complete(commits[k])
    ensures ChangedFiles(commits).Some?
    ensures commits != [] ==>
      ChangedFiles(commits).value == Defined(AllFiles(commits[0])) + ChangedFiles(commits[1..]).value
  {
    if commits != [] {
      ChangedFilesComplete(commits[1..]);
      var c := commits[0];
      DefinedAppend(c.added.value, c.modified.value);
      DefinedAppend(c.added.value + c.modified.value, c.removed.value);
    }
  }

  /** Flattening distributes over the commit list: a push of `a ++ b` changes `a`'s files, then `b`'s. */
  lemma ChangedFilesAppend(a: seq<Commit>, b: seq<Commit>)
    requires ChangedFiles(a).Some? && ChangedFiles(b).Some?
    ensures ChangedFiles(a + b) == Some(ChangedFiles(a).value + ChangedFiles(b).value)
  {
    FlatMapAppend(CommitFiles, a, b);
  }

  lemma {:induction false} FlatMapAppend<A, B>(f: A -> Option<seq<B>>, a: seq<A>, b: seq<A>)
    requires FlatMap(f, a).Some? && FlatMap(f, b).Some?
    ensures FlatMap(f, a + b) == Some(FlatMap(f, a).value + FlatMap(f, b).value)
  {
    if a == [] {
      assert a + b == b;
      assert FlatMap(f, a).value + FlatMap(f, b).value == FlatMap(f, b).value;
    } else {
      assert (a + b)[0] == a[0];
      assert (a + b)[1..] == a[1..] + b;
      FlatMapAppend(f, a[1..], b);
      var head, x, y := f(a[0]).value, FlatMap(f, a[1..]).value, FlatMap(f, b).value;
      assert head + (x + y) == (head + x) + y;
    }
  }

  /** A commit lacking `added` makes the flattening throw, whatever surrounds it. */
  lemma {:induction false} ChangedFilesThrows(commits: seq<Commit>, k: nat)
    requires k < |commits| && commits[k].added.None?
    ensures ChangedFiles(commits).None?
  {
    if k > 0 {
      assert commits[1..][k - 1] == commits[k];
      ChangedFilesThrows(commits[1..], k - 1);
    }
  }

  /**
   * `POST`: the response and the bot a redeploy is triggered for. The
   * store is written only for a push that passes the gate, parses and
   * names a repository, and that write stays in place when the
   * relevance test throws afterwards.
   */
  method Post(table: Table, secret: Option<string>, hmacHex: (string, string) -> string, req: Request, now: string)
    returns (resp: Response, trigger: Option<string>)
    modifies table
    ensures !SignatureOk(secret, hmacHex, req.signature, req.body) ==>
      resp == InvalidSignature && table.rows == old(table.rows) && trigger.None?
    ensures SignatureOk(secret, hmacHex, req.signature, req.body) && req.payload.None? ==>
      resp == ProcessingFailed && table.rows == old(table.rows) && trigger.None?
    ensures SignatureOk(secret, hmacHex, req.signature, req.body) && req.payload.Some? && req.event != Some("push") ==>
      resp == Succeeded && table.rows == old(table.rows) && trigger.None?
    ensures (SignatureOk(secret, hmacHex, req.signature, req.body) && req.payload.Some? && req.event == Some("push")
      && req.payload.value.repository.None?) ==>
      resp == ProcessingFailed && table.rows == old(table.rows) && trigger.None?
    ensures (SignatureOk(secret, hmacHex, req.signature, req.body) && req.payload.Some? && req.event == Some("push")
      && req.payload.value.repository.Some?) ==>
      var p := req.payload.value;
      && table.rows == RecordPush(old(table.rows), p.repository.value, CommitCount(p.commits), now)
      && resp == (if PushRelevance(p.commits).None? then ProcessingFailed else Succeeded)
      && trigger == (if PushRelevance(p.commits) == Some(true) then LinkedBot(table.rows, p.repository.value) else None)
  {
    trigger := None;
    if !SignatureOk(secret, hmacHex, req.signature, req.body) {
      return InvalidSignature, None;
    }
    if req.payload.None? {
      return ProcessingFailed, None;
    }
    var p := req.payload.value;
    if req.event == Some("push") {
      if p.repository.None? {
        return ProcessingFailed, None;
      }
      var name := p.repository.value;
      table.rows := RecordPush(table.rows, name, CommitCount(p.commits), now);
      var relevant := PushRelevance(p.commits);
      if relevant.None? {
        return ProcessingFailed, None;
      }
      if relevant.value {
        trigger := LinkedBot(table.rows, name);
      }
    }
    resp := Succeeded;
  }

  /** With no secret configured the signature header is never examined. */
  lemma NoSecretIgnoresSignature(hmacHex: (string, string) -> string, signature: Option<string>, body: string)
    ensures SignatureOk(None, hmacHex, signature, body)
    ensures SignatureOk(Some(""), hmacHex, signature, body)
  {
  }

  /** With a secret, a missing header never passes. */
  lemma MissingSignatureFails(secret: string, hmacHex: (string, string) -> string, body: string)
    requires secret != ""
    ensures !SignatureOk(Some(secret), hmacHex, None, body)
  {
  }

  /**
   * The redeploy target does not depend on the write the push made first:
   * it is the bot linked to the repository before the write.
   */
  lemma TriggerIgnoresWrite(rows: seq<RepoRow>, name: string, count: nat, now: string)
    ensures LinkedBot(RecordPush(rows, name, count, now), name) == LinkedBot(rows, name)
  {
    RecordPushKeepsLink(rows, name, count, now);
  }

  /** Both paths the application pushes to match the redeploy markers. */
  lemma PushedPathsRelevant()
    ensures Relevant("bot.js")
    ensures Relevant("discord-bot/bot.js")
  {
    assert "bot.js" <= "bot.js";
    assert "discord-bot" <= "discord-bot/bot.js";
  }
}
