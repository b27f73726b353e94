/** The chat-platform and HTTP calls the bot makes, recorded as effects. Every
    call that acts on the platform or the web site becomes one `Effect` entry;
    calls that only read (listing the guild's invites, the lookups) are inputs
    instead. The prose of chat messages is kept only as far as the bot varies
    it. */
module Platform {
  import opened Wrappers

  type UserId = int
  type ChannelId = int
  type MessageId = int
  type RoleId = int

  /** An incoming chat message; `inGuild` is false for a direct message,
      which has no guild. */
  datatype Message = Message(id: MessageId, author: UserId, content: string, channel: ChannelId, inGuild: bool)

  /** A role of the guild; a guild's role list always holds `@everyone`. */
  datatype Role = Role(id: RoleId, name: string)

  /** The member a ban command names. */
  datatype Member = Member(id: UserId, name: string, isAdmin: bool)

  /** An active invite of the guild and the channel it points at. */
  datatype Invite = Invite(code: string, channel: ChannelId)

  /** The chat messages the bot posts, by kind, with the parts that vary. */
  datatype Notice =
    | CurseWarning(offender: UserId)                         // "<mention> Don't use that word."
    | CurseReport(offender: UserId, modRole: Option<RoleId>) // "<role mention> <user> has cursed. !warn <user> Cursed"
    | MuteCommand(offender: UserId)                          // "!mute <mention> Cursed"
    | AdminRefusal(requester: string)                        // the target is an administrator
    | BanDm(member: string, guild: string, reason: string)   // "... banned from <guild> ... Reason: <reason>"
    | BanConfirmation(member: string, rules: ChannelId, reason: string)
    | VideoAnnouncement(title: string, url: string)          // "... **<title>**\nWatch here: <url>"

  datatype Effect =
    | DeleteMessage(message: MessageId)
    | Post(channel: ChannelId, notice: Notice)
    | DirectMessage(member: UserId, notice: Notice)
    | BanMember(member: UserId)
    | ProcessCommands(message: MessageId)
    | DeleteInvite(invite: Invite)
    | CreateInvite(channel: ChannelId, maxAge: nat, unique: bool)
    | HttpGet(url: string)
    | HttpPost(url: string, apiKey: string, inviteUrl: string)  // header X-API-KEY, JSON body {url}

  /** The values read from the environment at start-up. */
  datatype Config = Config(
    guildId: int,
    welcomeChannel: ChannelId,
    announcementChannel: ChannelId,
    siteUp: bool,
    apiKeyUrl: string,
    inviteUpdateUrl: string)
}
