/**
 * The bot test route (`POST /api/bot/test`): it asks Discord who the token
 * belongs to, then checks the code for two substrings, in a fixed order,
 * each failure with its own fixed reply.
 *
 * The request body is the input `body` (`Malformed` when it is not JSON)
 * and Discord's answer to `GET /users/@me` is the input `discord`.
 */
module BotTestRoute {
  import opened Wrappers
  import opened Text

  datatype Json<T> = Parsed(value: T) | Malformed(message: string)

  /** The fields of the request body; `None` for a missing one. */
  datatype TestBody = TestBody(botToken: Option<string>, code: Option<string>)

  /** The fields of Discord's user object that the reply echoes. */
  datatype BotUser = BotUser(id: Option<string>, username: Option<string>, discriminator: Option<string>, avatar: Option<string>)

  /**
   * Discord's answer: the call (or reading its JSON) throws with a message,
   * the response is not ok, or it is ok with the bot's user.
   */
  datatype DiscordReply = DiscordThrew(message: string) | DiscordRejected | DiscordAccepted(user: BotUser)

  datatype Response =
    | Passed(bot: BotUser, message: string)
    | Failed(status: nat, error: string)

  /** The substrings the code must contain. */
  const LoginCall := "client.login"
  const DiscordImport := "require('discord.js')"

  const PassedMessage := "Bot token is valid and code passes basic validation"
  const ValidationPrefix := "Code validation failed: "
  const MissingLogin := "Missing client.login()"
  const MissingImport := "Missing discord.js import"

  /** The message of the `TypeError` that `code.includes` throws on missing code. */
  const IncludesOfUndefined := "Cannot read properties of undefined (reading 'includes')"

  /** The `Authorization` header sent to Discord; a missing token is rendered `undefined`. */
  function DiscordAuthorization(body: TestBody): string
  {
    "Bot " + body.botToken.GetOr("undefined")
  }

  /**
   * The code checks in order: the message of the first one that fails, or
   * `None` when the code passes both.
   */
  function CodeError(code: Option<string>): (r: Option<string>)
    ensures r.None? <==> code.Some? && Contains(code.value, LoginCall) && Contains(code.value, DiscordImport)
    ensures code.Some? && !Contains(code.value, LoginCall) ==> r == Some(MissingLogin)
  {
    if code.None? then Some(IncludesOfUndefined)
    else if !Contains(code.value, LoginCall) then Some(MissingLogin)
    else if !Contains(code.value, DiscordImport) then Some(MissingImport)
    else None
  }

  /** `POST` as a function of the body and Discord's answer. */
  function Post(body: Json<TestBody>, discord: DiscordReply): (r: Response)
    ensures body.Malformed? ==> r == Failed(500, "Test failed: " + body.message)
    ensures body.Parsed? && discord.DiscordThrew? ==> r == Failed(500, "Test failed: " + discord.message)
    ensures body.Parsed? && discord.DiscordRejected? ==> r == Failed(401, "Invalid bot token")
    ensures body.Parsed? && discord.DiscordAccepted? && CodeError(body.value.code).Some? ==>
      r == Failed(400, ValidationPrefix + CodeError(body.value.code).value)
  {
    if body.Malformed? then Failed(500, "Test failed: " + body.message)
    else
      match discord
      case DiscordThrew(message) => Failed(500, "Test failed: " + message)
      case DiscordRejected => Failed(401, "Invalid bot token")
      case DiscordAccepted(user) =>
        match CodeError(body.value.code)
        case Some(e) => Failed(400, ValidationPrefix + e)
        case None => Passed(user, PassedMessage)
  }

  /**
   * A test passes exactly when the body parses, Discord accepts the token
   * and the code holds both substrings; the reply then echoes the user.
   */
  lemma PassesIff(body: Json<TestBody>, discord: DiscordReply)
    ensures Post(body, discord).Passed? <==>
      body.Parsed? && discord.DiscordAccepted? && body.value.code.Some?
      && Contains(body.value.code.value, LoginCall) && Contains(body.value.code.value, DiscordImport)
    ensures Post(body, discord).Passed? ==>
      Post(body, discord) == Passed(discord.user, PassedMessage)
  {
  }

  /** A rejected token is reported whatever the code, so the code is not examined. */
  lemma RejectedTokenIgnoresCode(token: Option<string>, code1: Option<string>, code2: Option<string>)
    ensures Post(Parsed(TestBody(token, code1)), DiscordRejected) == Post(Parsed(TestBody(token, code2)), DiscordRejected)
  {
  }

  /** Code missing both substrings is reported as missing the login call. */
  lemma LoginCheckedFirst(code: string)
    requires !Contains(code, LoginCall) && !Contains(code, DiscordImport)
    ensures CodeError(Some(code)) == Some(MissingLogin)
  {
  }

  /** The import check looks for the exact substring: a double-quoted import does not count. */
  lemma ImportIsExact()
    ensures CodeError(Some("client.login(t); require(\"discord.js\")")) == Some(MissingImport)
  {
    var code := "client.login(t); require(\"discord.js\")";
    assert LoginCall <= code;
    assert !Contains(code, DiscordImport) by {
      NoSingleQuote(code, DiscordImport);
    }
  }

  /** A string without `'` contains no piece that has one. */
  lemma {:induction false} NoSingleQuote(s: string, t: string)
    requires '\'' !in s && '\'' in t
    ensures !Contains(s, t)
    decreases |s|
  {
    var k :| 0 <= k < |t| && t[k] == '\'';
    assert k < |s| ==> s[k] != t[k];
    if s != [] {
      NoSingleQuote(s[1..], t);
    }
  }
}
