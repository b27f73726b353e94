/** The running bot: its one piece of mutable state, `last_video_id`, and the
    log, in order, of the platform and HTTP calls it has made that act (calls
    that only read are inputs). Each handler appends exactly the effects its
    specification function describes. */
module DiscordBot {
  import opened Wrappers
  import opened Text
  import opened Platform
  import opened MessageFilter
  import opened BanCommand
  import opened InviteRotation
  import opened Announcements

  class Bot {
    const user: UserId
    const config: Config
    var lastVideoId: Option<string>
    var log: seq<Effect>

    /** Start-up: no video seen yet (main.py:26), nothing done yet. */
    constructor (user: UserId, config: Config)
      ensures this.user == user && this.config == config
      ensures lastVideoId == None && log == []
    {
      this.user := user;
      this.config := config;
      lastVideoId := None;
      log := [];
    }

    /** `on_message`: scan the words in order, stop at the first one the
        lowered content contains, then hand the message to command
        processing. `roles` are the guild's roles, in which the moderator
        role "Podcasters" is looked up case-insensitively. */
    method OnMessage(m: Message, roles: seq<Role>, words: seq<string>)
      modifies this`log
      ensures log == old(log) + MessageEffects(user, m, PodcasterRole(roles), words)
    {
      if m.author == user {
        return;
      }
      if !m.inGuild {
        return;
      }
      var modRole := PodcasterRole(roles);
      var text := Lower(m.content);
      var i := 0;
      ghost var warned := false;
      while i < |words|
        invariant 0 <= i <= |words|
        invariant forall j :: 0 <= j < i ==> !Contains(text, words[j])
        invariant log == old(log) && !warned
      {
        if Contains(text, words[i]) {
          warned := true;
          log := log + [DeleteMessage(m.id)];
          log := log + [Post(m.channel, CurseWarning(m.author))];
          log := log + [Post(m.channel, CurseReport(m.author, modRole))];
          log := log + [Post(m.channel, MuteCommand(m.author))];
          break;
        }
        i := i + 1;
      }
      assert warned ==> AnyContained(text, words) && log == old(log) + WarningCycle(m, modRole);
      assert !warned ==> !AnyContained(text, words) && log == old(log);
      log := log + [ProcessCommands(m.id)];
    }

    /** `ban`: refuse an administrator; otherwise DM, confirm, ban. A raised
        error (DM refused, no "rules" channel) ends the command. */
    method Ban(channel: ChannelId, requester: string, guild: string, target: Member,
               reason: Option<string>, rules: Option<ChannelId>, dmDelivered: bool)
      modifies this`log
      ensures log == old(log) + BanEffects(channel, requester, guild, target, reason, rules, dmDelivered)
    {
      if target.isAdmin {
        log := log + [Post(channel, AdminRefusal(requester))];
        return;
      }
      var why := ReasonText(reason);
      log := log + [DirectMessage(target.id, BanDm(target.name, guild, why))];
      if !dmDelivered || rules.None? {
        return;
      }
      log := log + [Post(channel, BanConfirmation(target.name, rules.value, why))];
      log := log + [BanMember(target.id)];
    }

    /** `rotate_invite`: delete the welcome channel's invites, create the
        new one, then run the sync. `inviteUrl` is the URL the platform gives
        the new invite; `keyStatus` and `key` are the key request's status
        and its `DISCORD-BOT-APP-KEY` field. */
    method RotateInvite(guildFound: bool, channelFound: bool, invites: seq<Invite>,
                        inviteUrl: string, keyStatus: int, key: Option<string>)
      modifies this`log
      ensures log == old(log) + RotationEffects(config, guildFound, channelFound, invites, inviteUrl, keyStatus, key)
    {
      if !guildFound {
        return;
      }
      var i := 0;
      while i < |invites|
        invariant 0 <= i <= |invites|
        invariant log == old(log) + StaleInviteDeletes(invites[..i], config.welcomeChannel)
      {
        assert invites[..i + 1][..i] == invites[..i];
        if invites[i].channel == config.welcomeChannel {
          log := log + [DeleteInvite(invites[i])];
        }
        i := i + 1;
      }
      assert invites[..i] == invites;
      if !channelFound {
        return;
      }
      log := log + [CreateInvite(config.welcomeChannel, InviteMaxAge, true)];
      log := log + SyncEffects(config, inviteUrl, keyStatus, key);
    }

    /** `check_new_youtube_video`: `items` is the search response, newest
        upload first, which the source assumes is never empty. */
    method CheckNewYoutubeVideo(items: seq<SearchItem>, channelFound: bool)
      requires |items| > 0
      modifies this
      ensures var t := AnnouncementTick(config.announcementChannel, old(lastVideoId), items[0], channelFound);
        lastVideoId == t.lastVideoId && log == old(log) + t.effects
    {
      var latest := items[0];
      if Some(latest.videoId) != lastVideoId {
        lastVideoId := Some(latest.videoId);
        if channelFound {
          log := log + [Post(config.announcementChannel, VideoAnnouncement(latest.title, WatchUrl(latest.videoId)))];
        }
      }
    }
  }
}
