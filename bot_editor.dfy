/**
 * The bot editor (`BotEditor`): the code it opens with, the quick actions
 * that rewrite the code (load template, format, add a suggestion), the
 * invite link, and the two handlers that talk to the server: `testBot`,
 * which logs to the terminal, and `saveCode`, which stores the code and
 * pushes it to the linked repository.
 *
 * The signed-in user, the store's answers, the session's provider token
 * and the test route's answer are inputs; toasts and timestamps are left
 * out.
 */
module BotEditor {
  import opened Wrappers
  import opened Text
  import opened BotTemplate
  import CodeFormat
  import BotTestRoute
  import RepoStore
  import GitHubRepos
  import PushRoute
  import Webhook
  import BotDashboard

  /** The fields of the bot the editor is opened on; `None` for a missing one. */
  datatype EditorBot = EditorBot(id: string, botToken: Option<string>, clientId: Option<string>, savedCode: Option<string>)

  datatype LogKind = Info | Success | Error

  /** A terminal line (its timestamp is left out). */
  datatype LogEntry = LogEntry(kind: LogKind, message: string)

  /**
   * What `testBot` gets from `POST /api/bot/test`: a throw (of the fetch or
   * of reading the JSON) with its message, or the route's response.
   */
  datatype TestAnswer = TestThrew(message: string) | TestAnswered(response: BotTestRoute.Response)

  const TokenFallback := "YOUR_TOKEN"
  const Starting := "\U{1F680} Starting bot test..."
  const TestPassed := "\U{2705} Bot test passed!"
  const TestFailed := "\U{274C} Bot test failed"
  const TestThrewPrefix := "\U{274C} Test failed: "
  const SuggestionTail := "\n// TODO: Implement this feature"
  const InvitePrefix := "https://discord.com/oauth2/authorize?client_id="
  const InviteSuffix := "&scope=bot&permissions=8"
  const SavePath := "bot.js"
  const SaveMessage := "Update Discord bot code"

  /**
   * The code the editor opens with: the saved code when it is non-empty,
   * otherwise the template with its placeholder replaced by the bot's token
   * (or by `YOUR_TOKEN` when the bot has none).
   */
  function InitialCode(bot: EditorBot): (r: string)
    ensures Truthy(bot.savedCode) ==> r == bot.savedCode.value
  {
    if Truthy(bot.savedCode) then bot.savedCode.value
    else ReplaceFirst(Template, TokenPlaceholder, TokenUsed(bot))
  }

  /** The text that takes the placeholder's place. */
  function TokenUsed(bot: EditorBot): (r: string)
    ensures r != []
    ensures Truthy(bot.botToken) ==> r == bot.botToken.value
  {
    if Truthy(bot.botToken) then bot.botToken.value else TokenFallback
  }

  /** The code after a suggestion button: the old code with a comment block appended. */
  function WithSuggestion(code: string, suggestion: string): (r: string)
    ensures code <= r
    ensures |r| == |code| + 5 + |suggestion| + |SuggestionTail|
  {
    code + "\n\n// " + suggestion + SuggestionTail
  }

  /** The invite link, when the client id is non-empty and not `pending`. */
  function InviteLink(clientId: Option<string>): (r: Option<string>)
    ensures r.Some? <==> Truthy(clientId) && clientId.value != "pending"
  {
    if Truthy(clientId) && clientId.value != "pending" then Some(InvitePrefix + clientId.value + InviteSuffix) else None
  }

  /** The client id an invite link carries, read back from the link. */
  function InviteClientId(link: string): Option<string>
  {
    if |InvitePrefix| + |InviteSuffix| <= |link| && InvitePrefix <= link && link[|link| - |InviteSuffix|..] == InviteSuffix
    then Some(link[|InvitePrefix|..|link| - |InviteSuffix|])
    else None
  }

  /** The second terminal line of a test: success exactly when the route passed the bot. */
  function TestEntry(answer: TestAnswer): (e: LogEntry)
    ensures e.kind == Success <==> answer.TestAnswered? && answer.response.Passed?
    ensures e.kind != Info
  {
    match answer
    case TestThrew(message) => LogEntry(Error, TestThrewPrefix + message)
    case TestAnswered(response) =>
      if response.Passed? then LogEntry(Success, TestPassed) else LogEntry(Error, TestFailed)
  }

  /** A string equal to the assembled template contains its named pieces. */
  lemma AssembledTemplate(s: string)
    requires s == TemplateHead + BotTestRoute.DiscordImport + TemplateBody + BotTestRoute.LoginCall
      + "('" + TokenPlaceholder + TemplateTail
    ensures Contains(s, BotTestRoute.DiscordImport) && Contains(s, BotTestRoute.LoginCall)
    ensures Contains(s, TokenPlaceholder)
  {
    AssembledContains(TemplateHead, BotTestRoute.DiscordImport, TemplateBody, BotTestRoute.LoginCall,
      TokenPlaceholder, TemplateTail);
  }

  /**
   * The template holds the two markers the test route looks for and the
   * placeholder the editor replaces.
   */
  lemma TemplateMarkers(s: string)
    requires s == Template
    ensures Contains(s, BotTestRoute.DiscordImport) && Contains(s, BotTestRoute.LoginCall)
    ensures Contains(s, TokenPlaceholder)
  {
    AssembledTemplate(s);
  }

  /** The raw template, as "Load Template" sets it, passes the test route's code checks. */
  lemma TemplatePasses()
    ensures BotTestRoute.CodeError(Some(Template)).None?
  {
    TemplatePassesAs(Template);
  }

  lemma TemplatePassesAs(s: string)
    requires s == Template
    ensures BotTestRoute.CodeError(Some(s)).None?
  {
    TemplateMarkers(s);
  }

  /**
   * Code holding both markers and the placeholder still holds both markers
   * once the placeholder is replaced, whatever the replacement expands to,
   * and holds the replacement when it has no `$` pattern.
   */
  lemma ReplacedPasses(s: string, rep: string)
    requires Contains(s, BotTestRoute.DiscordImport) && Contains(s, BotTestRoute.LoginCall)
    requires Contains(s, TokenPlaceholder)
    ensures BotTestRoute.CodeError(Some(ReplaceFirst(s, TokenPlaceholder, rep))).None?
    ensures '$' !in rep ==> Contains(ReplaceFirst(s, TokenPlaceholder, rep), rep)
  {
    MarkersApartFromPlaceholder();
    ContainsIffIndexOf(s, BotTestRoute.LoginCall);
    ReplaceKeeps(s, TokenPlaceholder, rep, BotTestRoute.LoginCall, IndexOf(s, BotTestRoute.LoginCall).value);
    ContainsIffIndexOf(s, BotTestRoute.DiscordImport);
    ReplaceKeeps(s, TokenPlaceholder, rep, BotTestRoute.DiscordImport, IndexOf(s, BotTestRoute.DiscordImport).value);
    if '$' !in rep {
      ReplaceInserts(s, TokenPlaceholder, rep);
    }
  }

  /**
   * A bot without saved code opens with code that passes the test route's
   * code checks and, when the token has no `$` pattern, carries the bot's
   * token (or `YOUR_TOKEN`).
   */
  lemma InitialCodePasses(bot: EditorBot)
    requires !Truthy(bot.savedCode)
    ensures BotTestRoute.CodeError(Some(InitialCode(bot))).None?
    ensures '$' !in TokenUsed(bot) ==> Contains(InitialCode(bot), TokenUsed(bot))
  {
    InitialCodePassesAs(bot, Template);
  }

  lemma InitialCodePassesAs(bot: EditorBot, s: string)
    requires !Truthy(bot.savedCode) && s == Template
    ensures BotTestRoute.CodeError(Some(InitialCode(bot))).None?
    ensures '$' !in TokenUsed(bot) ==> Contains(InitialCode(bot), TokenUsed(bot))
  {
    TemplateMarkers(s);
    ReplacedPasses(s, TokenUsed(bot));
  }

  /**
   * A token that is the pattern `$&` is expanded to the placeholder it
   * replaces: the bot opens with the template unchanged, placeholder and all.
   */
  lemma DollarTokenKeepsPlaceholder(bot: EditorBot)
    requires !Truthy(bot.savedCode) && bot.botToken == Some("$&")
    ensures InitialCode(bot) == Template
  {
    assert TokenUsed(bot) == "$&";
    DollarTokenKeepsPlaceholderAs(bot, Template);
  }

  lemma DollarTokenKeepsPlaceholderAs(bot: EditorBot, s: string)
    requires !Truthy(bot.savedCode) && TokenUsed(bot) == "$&" && s == Template
    ensures InitialCode(bot) == s
  {
    TemplateMarkers(s);
    ReplaceMatchKeeps(s, TokenPlaceholder, TokenUsed(bot));
  }

  /** Saved code, when present, is opened as it is, even if it fails the checks. */
  lemma SavedCodeWins(id: string, token: Option<string>, clientId: Option<string>)
    ensures InitialCode(EditorBot(id, token, clientId, Some("x"))) == "x"
    ensures BotTestRoute.CodeError(Some(InitialCode(EditorBot(id, token, clientId, Some("x"))))) == Some(BotTestRoute.MissingLogin)
  {
    var code := InitialCode(EditorBot(id, token, clientId, Some("x")));
    assert !Contains(code, BotTestRoute.LoginCall) by {
      assert !(BotTestRoute.LoginCall <= code);
      assert !(BotTestRoute.LoginCall <= code[1..]);
    }
  }

  /** With Discord accepting the token, the test of a fresh bot's code passes. */
  lemma FreshBotTestPasses(bot: EditorBot, user: BotTestRoute.BotUser)
    requires !Truthy(bot.savedCode)
    ensures TestEntry(TestAnswered(BotTestRoute.Post(
      BotTestRoute.Parsed(BotTestRoute.TestBody(bot.botToken, Some(InitialCode(bot)))),
      BotTestRoute.DiscordAccepted(user)))).kind == Success
  {
    InitialCodePasses(bot);
  }

  /** A suggestion never makes code that passed the checks fail them. */
  lemma SuggestionKeepsCheck(code: string, suggestion: string)
    requires BotTestRoute.CodeError(Some(code)).None?
    ensures BotTestRoute.CodeError(Some(WithSuggestion(code, suggestion))).None?
  {
    var tail := "\n\n// " + suggestion + SuggestionTail;
    assert WithSuggestion(code, suggestion) == [] + code + tail;
    ContainsExtend([], code, tail, BotTestRoute.LoginCall);
    ContainsExtend([], code, tail, BotTestRoute.DiscordImport);
  }

  /** The suggestion's text appears in the code, after the old code. */
  lemma SuggestionAppended(code: string, suggestion: string)
    ensures OccursAt(WithSuggestion(code, suggestion), suggestion, |code| + 5)
  {
    var r := WithSuggestion(code, suggestion);
    assert r == code + "\n\n// " + suggestion + SuggestionTail;
    assert r[|code| + 5..|code| + 5 + |suggestion|] == suggestion;
  }

  /** Formatting never makes code that passed the checks fail them. */
  lemma FormatKeepsCheck(code: string)
    requires BotTestRoute.CodeError(Some(code)).None?
    ensures BotTestRoute.CodeError(Some(CodeFormat.Format(code))).None?
  {
    assert CodeFormat.NoSpace(BotTestRoute.LoginCall);
    assert CodeFormat.NoSpace(BotTestRoute.DiscordImport);
    CodeFormat.FormatKeeps(code, BotTestRoute.LoginCall);
    CodeFormat.FormatKeeps(code, BotTestRoute.DiscordImport);
  }

  /** The client id is read back from the link built with it. */
  lemma InviteLinkRoundTrip(clientId: Option<string>)
    requires InviteLink(clientId).Some?
    ensures InviteClientId(InviteLink(clientId).value) == clientId
  {
    var link := InviteLink(clientId).value;
    assert link[..|InvitePrefix|] == InvitePrefix;
    assert link[|link| - |InviteSuffix|..] == InviteSuffix;
    assert link[|InvitePrefix|..|link| - |InviteSuffix|] == clientId.value;
  }

  /** A bot just created on the dashboard has no invite link yet. */
  lemma NewBotHasNoInvite(name: string, token: string, userId: string)
    ensures InviteLink(Some(BotDashboard.NewRow(name, token, userId).clientId)).None?
  {
  }

  /**
   * The push `saveCode` sends is accepted by the push route with the
   * session's token and the editor's message, and the webhook counts the
   * pushed path as a bot change.
   */
  lemma SavePushLands(token: string)
    ensures PushRoute.BearerToken(Some(GitHubRepos.Authorization(token))) == Some(token)
    ensures PushRoute.CommitMessage(Some(SaveMessage)) == SaveMessage
    ensures Webhook.Relevant(SavePath)
  {
    GitHubRepos.AuthorizationAccepted(token);
    Webhook.PushedPathsRelevant();
  }

  /**
   * After the repository page links the one repository with id `repoId` to
   * a bot that was linked to none, saving that bot's code pushes to that
   * repository.
   */
  lemma SyncThenSavePushes(rows: seq<RepoStore.RepoRow>, repoId: string, botId: string, now: string)
    requires forall k :: 0 <= k < |rows| ==> rows[k].discordBotId != Some(botId)
    requires |RepoStore.Where(rows, RepoStore.HasId(repoId))| == 1
    ensures RepoStore.SingleByBot(RepoStore.RecordSync(rows, repoId, botId, now), botId).Some?
    ensures RepoStore.SingleByBot(RepoStore.RecordSync(rows, repoId, botId, now), botId).value.id == repoId
  {
    RepoStore.SyncThenSingle(rows, repoId, botId, now);
  }

  class Editor {
    const bot: EditorBot
    /** The `Github_Repos` table `saveCode` reads. */
    const store: RepoStore.Table
    var code: string
    var isSaving: bool
    var isRunning: bool
    var showTerminal: bool
    var terminal: seq<LogEntry>

    /** The editor as the opening effect leaves it. */
    constructor(bot0: EditorBot, store0: RepoStore.Table)
      ensures bot == bot0 && store == store0
      ensures code == InitialCode(bot0)
      ensures !isSaving && !isRunning && !showTerminal && terminal == []
    {
      bot, store := bot0, store0;
      code := InitialCode(bot0);
      isSaving, isRunning, showTerminal, terminal := false, false, false, [];
    }

    /** "Load Template": the raw template, placeholder included. */
    method LoadTemplate()
      modifies this
      ensures code == Template
      ensures isSaving == old(isSaving) && isRunning == old(isRunning)
      ensures showTerminal == old(showTerminal) && terminal == old(terminal)
    {
      code := Template;
    }

    /** "Format Code". */
    method FormatCode()
      modifies this
      ensures code == CodeFormat.Format(old(code))
      ensures isSaving == old(isSaving) && isRunning == old(isRunning)
      ensures showTerminal == old(showTerminal) && terminal == old(terminal)
    {
      code := CodeFormat.Format(code);
    }

    /** A suggestion button. */
    method AddSuggestion(suggestion: string)
      modifies this
      ensures code == WithSuggestion(old(code), suggestion)
      ensures isSaving == old(isSaving) && isRunning == old(isRunning)
      ensures showTerminal == old(showTerminal) && terminal == old(terminal)
    {
      code := WithSuggestion(code, suggestion);
    }

    /**
     * `testBot`: sends the bot's token and the code, and appends exactly two
     * lines to the terminal, the start line and the outcome; the running
     * flag is down again at the end.
     */
    method TestBot(answer: TestAnswer) returns (body: BotTestRoute.TestBody)
      modifies this
      ensures body == BotTestRoute.TestBody(bot.botToken, Some(old(code)))
      ensures terminal == old(terminal) + [LogEntry(Info, Starting), TestEntry(answer)]
      ensures showTerminal && !isRunning
      ensures code == old(code) && isSaving == old(isSaving)
    {
      isRunning := true;
      showTerminal := true;
      terminal := terminal + [LogEntry(Info, Starting)];
      body := BotTestRoute.TestBody(bot.botToken, Some(code));
      terminal := terminal + [TestEntry(answer)];
      isRunning := false;
    }

    /**
     * `saveCode` and `pushToGitHub`: the code written to the bot's row (only
     * with a signed-in user) and the push made, if any. The push needs a
     * successful write, exactly one repository linked to the bot and a
     * provider token, and always targets `bot.js`. The saving flag is down
     * again at the end.
     */
    method SaveCode(user: Option<string>, updateError: Option<string>, providerToken: Option<string>)
      returns (written: Option<string>, call: Option<GitHubRepos.PushCall>)
      modifies this
      ensures written == if user.Some? then Some(code) else None
      ensures call.Some? <==> (user.Some? && updateError.None?
        && RepoStore.SingleByBot(store.rows, bot.id).Some? && Truthy(providerToken))
      ensures call.Some? ==> call.value == GitHubRepos.PushCall(GitHubRepos.Authorization(providerToken.value),
        RepoStore.SingleByBot(store.rows, bot.id).value.repoName, code, SavePath, SaveMessage)
      ensures !isSaving
      ensures code == old(code) && isRunning == old(isRunning)
      ensures showTerminal == old(showTerminal) && terminal == old(terminal)
    {
      isSaving := true;
      written, call := None, None;
      if user.Some? {
        written := Some(code);
        if updateError.None? {
          var repo := RepoStore.SingleByBot(store.rows, bot.id);
          if repo.Some? && Truthy(providerToken) {
            call := Some(GitHubRepos.PushCall(GitHubRepos.Authorization(providerToken.value),
              repo.value.repoName, code, SavePath, SaveMessage));
          }
        }
      }
      isSaving := false;
    }
  }
}
