/**
 * The bot source the editor starts from (the `defaultCode` template of
 * app/components/BotEditor.jsx). It is kept as the concatenation of its
 * lines, with the two markers the test route looks for and the token
 * placeholder as named pieces, so that the facts below are proved from the
 * shape of the template rather than by scanning it.
 */
module BotTemplate {
  import opened Text
  import opened BotTestRoute

  /** The token placeholder the editor substitutes. */
  const TokenPlaceholder: string := "YOUR_BOT_TOKEN_HERE"

  /** Line 1 and the start of line 2, up to the import. */
  const TemplateHead: string := "// Discord Bot Template\nconst { Client, GatewayIntentBits, EmbedBuilder } = "

  /** From the end of the import to the start of the last line. */
  const TemplateBody: string :=
    Line02
    + Line03
    + Line04
    + Line05
    + Line06
    + Line07
    + Line08
    + Line09
    + Line10
    + Line11
    + Line12
    + Line13
    + Line14
    + Line15
    + Line16
    + Line17
    + Line18
    + Line19
    + Line20
    + Line21
    + Line22
    + Line23
    + Line24
    + Line25
    + Line26
    + Line27
    + Line28
    + Line29
    + Line30
    + Line31
    + Line32
    + Line33
    + Line34
    + Line35
    + Line36
    + Line37
    + Line38
    + Line39
    + Line40
    + Line41
    + Line42
    + Line43
    + Line44
    + Line45
    + Line46
    + Line47
    + Line48

  /** The last line, after the token placeholder. */
  const TemplateTail: string := "').catch(console.error);"

  /** The whole template, as the editor's "Load Template" button sets it. */
  const Template: string :=
    TemplateHead + DiscordImport + TemplateBody + LoginCall + "('" + TokenPlaceholder + TemplateTail

  const Line02: string := ";\n"  // the rest of line 2, after the import
  const Line03: string := "\n"
  const Line04: string := "// Create a new Discord client\n"
  const Line05: string := "const client = new Client({\n"
  const Line06: string := "  intents: [\n"
  const Line07: string := "    GatewayIntentBits.Guilds,\n"
  const Line08: string := "    GatewayIntentBits.GuildMessages,\n"
  const Line09: string := "    GatewayIntentBits.MessageContent\n"
  const Line10: string := "  ]\n"
  const Line11: string := "});\n"
  const Line12: string := "\n"
  const Line13: string := "// Bot ready event\n"
  const Line14: string := "client.once('ready', () => {\n"
  const Line15: string := "  console.log(`" + "\U{2705}" + " Bot is online as ${client.user.tag}`);\n"
  const Line16: string := "  client.user.setActivity('with Discord.js');\n"
  const Line17: string := "});\n"
  const Line18: string := "\n"
  const Line19: string := "// Message handler\n"
  const Line20: string := "client.on('messageCreate', async (message) => {\n"
  const Line21: string := "  if (message.author.bot) return;\n"
  const Line22: string := "  \n"
  const Line23: string := "  // Ping command\n"
  const Line24: string := "  if (message.content === '!ping') {\n"
  const Line25: string := "    const embed = new EmbedBuilder()\n"
  const Line26: string := "      .setColor(0x5865F2)\n"
  const Line27: string := "      .setTitle('" + "\U{1F3D3}" + " Pong!')\n"
  const Line28: string := "      .setDescription(`Latency: ${Date.now() - message.createdTimestamp}ms\\nAPI: ${Math.round(client.ws.ping)}ms`);\n"
  const Line29: string := "    \n"
  const Line30: string := "    await message.reply({ embeds: [embed] });\n"
  const Line31: string := "  }\n"
  const Line32: string := "  \n"
  const Line33: string := "  // Help command\n"
  const Line34: string := "  if (message.content === '!help') {\n"
  const Line35: string := "    const embed = new EmbedBuilder()\n"
  const Line36: string := "      .setColor(0x57F287)\n"
  const Line37: string := "      .setTitle('" + "\U{1F916}" + " Bot Commands')\n"
  const Line38: string := "      .addFields(\n"
  const Line39: string := "        { name: '!ping', value: 'Check bot latency', inline: true },\n"
  const Line40: string := "        { name: '!help', value: 'Show this menu', inline: true },\n"
  const Line41: string := "        { name: '!info', value: 'Bot information', inline: true }\n"
  const Line42: string := "      );\n"
  const Line43: string := "    \n"
  const Line44: string := "    await message.reply({ embeds: [embed] });\n"
  const Line45: string := "  }\n"
  const Line46: string := "});\n"
  const Line47: string := "\n"
  const Line48: string := "// Login with your bot token\n"

  /** A string assembled like the template contains each of its named pieces. */
  lemma {:induction false} AssembledContains(head: string, imp: string, body: string, login: string, ph: string, tail: string)
    ensures var s := head + imp + body + login + "('" + ph + tail;
      Contains(s, imp) && Contains(s, login) && Contains(s, ph)
  {
    var s := head + imp + body + login + "('" + ph + tail;
    assert s == head + imp + (body + login + "('" + ph + tail);
    ContainsMiddle(head, imp, body + login + "('" + ph + tail);
    assert s == (head + imp + body) + login + ("('" + ph + tail);
    ContainsMiddle(head + imp + body, login, "('" + ph + tail);
    ContainsMiddle(head + imp + body + login + "('", ph, tail);
  }

  /** No character of the two markers can be part of the placeholder. */
  lemma MarkersApartFromPlaceholder()
    ensures forall k :: 0 <= k < |LoginCall| ==> LoginCall[k] !in TokenPlaceholder
    ensures forall k :: 0 <= k < |DiscordImport| ==> DiscordImport[k] !in TokenPlaceholder
  {
  }
}
