/** `rotate_invite`: replace the welcome channel's invites with one fresh
    invite, then optionally push its URL to the web site. */
module InviteRotation {
  import opened Wrappers
  import opened Platform

  /** `max_age=72*60*60`: the new invite lives for one rotation period. */
  const InviteMaxAge: nat := 72 * 60 * 60

  /** The deletes the cleanup loop issues, in list order: one per invite
      that points at the welcome channel. */
  function StaleInviteDeletes(invites: seq<Invite>, welcome: ChannelId): (r: seq<Effect>)
    ensures |r| <= |invites|
    ensures forall e :: e in r ==> e.DeleteInvite? && e.invite in invites && e.invite.channel == welcome
    ensures forall inv :: inv in invites && inv.channel == welcome ==> DeleteInvite(inv) in r
  {
    if invites == [] then []
    else
      var init, last := invites[..|invites| - 1], invites[|invites| - 1];
      assert invites == init + [last];
      StaleInviteDeletes(init, welcome) + (if last.channel == welcome then [DeleteInvite(last)] else [])
  }

  /** The cleanup deletes each invite once for every time it is listed, if it
      points at the welcome channel, and never otherwise. */
  lemma {:induction false} StaleInviteDeletesCount(invites: seq<Invite>, welcome: ChannelId, inv: Invite)
    ensures multiset(StaleInviteDeletes(invites, welcome))[DeleteInvite(inv)]
      == if inv.channel == welcome then multiset(invites)[inv] else 0
  {
    if invites != [] {
      var init, last := invites[..|invites| - 1], invites[|invites| - 1];
      assert invites == init + [last];
      StaleInviteDeletesCount(init, welcome, inv);
      var tail := if last.channel == welcome then [DeleteInvite(last)] else [];
      assert multiset(StaleInviteDeletes(invites, welcome)) == multiset(StaleInviteDeletes(init, welcome)) + multiset(tail);
      assert multiset(invites) == multiset(init) + multiset{last};
    }
  }

  /** `x` occurs in `r` at an earlier index than `y`. */
  predicate Precedes(r: seq<Effect>, x: Effect, y: Effect)
  {
    exists a, b :: 0 <= a < b < |r| && r[a] == x && r[b] == y
  }

  /** The cleanup deletes in list order: of two welcome-channel invites, the
      one listed first is deleted first. */
  lemma {:induction false} StaleInviteDeletesInOrder(invites: seq<Invite>, welcome: ChannelId, i: nat, j: nat)
    requires i < j < |invites| && invites[i].channel == welcome && invites[j].channel == welcome
    ensures Precedes(StaleInviteDeletes(invites, welcome), DeleteInvite(invites[i]), DeleteInvite(invites[j]))
  {
    var init, last := invites[..|invites| - 1], invites[|invites| - 1];
    assert invites == init + [last];
    var front := StaleInviteDeletes(init, welcome);
    if j == |invites| - 1 {
      assert invites[i] == init[i];
      assert DeleteInvite(init[i]) in front;
      var a :| 0 <= a < |front| && front[a] == DeleteInvite(init[i]);
      assert StaleInviteDeletes(invites, welcome) == front + [DeleteInvite(last)];
      var all := StaleInviteDeletes(invites, welcome);
      assert all[a] == DeleteInvite(invites[i]) && all[|front|] == DeleteInvite(invites[j]);
    } else {
      assert invites[i] == init[i] && invites[j] == init[j];
      StaleInviteDeletesInOrder(init, welcome, i, j);
      var a, b :| 0 <= a < b < |front| && front[a] == DeleteInvite(init[i]) && front[b] == DeleteInvite(init[j]);
      var all := StaleInviteDeletes(invites, welcome);
      assert all == front + (if last.channel == welcome then [DeleteInvite(last)] else []);
      assert 0 <= a < b < |all| && all[a] == DeleteInvite(invites[i]) && all[b] == DeleteInvite(invites[j]);
    }
  }

  /** Whether the key response lets the sync go on: status 200 and a
      non-empty `DISCORD-BOT-APP-KEY` value. */
  predicate KeyUsable(keyStatus: int, key: Option<string>)
  {
    keyStatus == 200 && key.Some? && key.value != ""
  }

  /** The sync with the web site: nothing unless `SITE_UP`; otherwise the key
      request, and the one invite POST only when the key is usable. The POST's
      own status is only logged, so nothing follows it. */
  function SyncEffects(cfg: Config, inviteUrl: string, keyStatus: int, key: Option<string>): (r: seq<Effect>)
    ensures forall e :: e in r ==> e.HttpGet? || e.HttpPost?
    ensures !cfg.siteUp ==> r == []
    ensures cfg.siteUp ==> 0 < |r| && r[0] == HttpGet(cfg.apiKeyUrl)
    ensures (exists i :: 0 <= i < |r| && r[i].HttpPost?) <==> cfg.siteUp && KeyUsable(keyStatus, key)
    ensures forall i :: 0 <= i < |r| && r[i].HttpPost? ==>
      i == 1 == |r| - 1 && r[i] == HttpPost(cfg.inviteUpdateUrl, key.value, inviteUrl)
    ensures forall i :: 0 <= i < |r| && r[i].HttpGet? ==> i == 0
  {
    if !cfg.siteUp then []
    else if !KeyUsable(keyStatus, key) then [HttpGet(cfg.apiKeyUrl)]
    else
      var r := [HttpGet(cfg.apiKeyUrl), HttpPost(cfg.inviteUpdateUrl, key.value, inviteUrl)];
      assert r[1].HttpPost?;
      r
  }

  /** The whole tick. Without the guild (`get_guild` gives None) it fails at
      once; without the welcome channel it fails at `create_invite`, after the
      deletes. Otherwise: the deletes, one new invite, then the sync. */
  function RotationEffects(cfg: Config, guildFound: bool, channelFound: bool, invites: seq<Invite>,
                           inviteUrl: string, keyStatus: int, key: Option<string>): (r: seq<Effect>)
    ensures !guildFound ==> r == []
    ensures guildFound && channelFound ==>
      r == StaleInviteDeletes(invites, cfg.welcomeChannel) + [CreateInvite(cfg.welcomeChannel, InviteMaxAge, true)]
           + SyncEffects(cfg, inviteUrl, keyStatus, key)
    ensures guildFound && !channelFound ==> r == StaleInviteDeletes(invites, cfg.welcomeChannel)
    ensures !channelFound ==> forall e :: e in r ==> e.DeleteInvite?
    ensures forall e :: e in r && e.CreateInvite? ==> e == CreateInvite(cfg.welcomeChannel, InviteMaxAge, true)
    ensures forall e :: e in r && (e.HttpGet? || e.HttpPost?) ==> guildFound && channelFound && cfg.siteUp
  {
    if !guildFound then []
    else
      var created := if channelFound
        then [CreateInvite(cfg.welcomeChannel, InviteMaxAge, true)] + SyncEffects(cfg, inviteUrl, keyStatus, key)
        else [];
      StaleInviteDeletes(invites, cfg.welcomeChannel) + created
  }

  /** A tick deletes exactly the welcome-channel invites and no other invite,
      and every delete comes before every other effect. (That the new invite
      then precedes the HTTP requests is the shape `RotationEffects` states.) */
  lemma RotationDeletesOnlyWelcomeInvites(cfg: Config, channelFound: bool, invites: seq<Invite>,
                                          inviteUrl: string, keyStatus: int, key: Option<string>)
    ensures var r := RotationEffects(cfg, true, channelFound, invites, inviteUrl, keyStatus, key);
      && (forall inv :: DeleteInvite(inv) in r <==> inv in invites && inv.channel == cfg.welcomeChannel)
      && (forall i, j :: 0 <= i < j < |r| && r[j].DeleteInvite? ==> r[i].DeleteInvite?)
  {
    var r := RotationEffects(cfg, true, channelFound, invites, inviteUrl, keyStatus, key);
    var deletes := StaleInviteDeletes(invites, cfg.welcomeChannel);
    var rest := if channelFound
      then [CreateInvite(cfg.welcomeChannel, InviteMaxAge, true)] + SyncEffects(cfg, inviteUrl, keyStatus, key)
      else [];
    assert r == deletes + rest;
    assert forall e :: e in rest ==> !e.DeleteInvite?;
    assert forall k :: 0 <= k < |deletes| ==> r[k] == deletes[k] && deletes[k] in deletes;
    assert forall k :: |deletes| <= k < |r| ==> r[k] == rest[k - |deletes|] && rest[k - |deletes|] in rest;
  }

  /** An element absent from both sides occurs once in `a + [x] + b`. */
  lemma OccursOnceBetween(a: seq<Effect>, x: Effect, b: seq<Effect>)
    requires x !in a && x !in b
    ensures multiset(a + [x] + b)[x] == 1
  {
    assert multiset(a + [x] + b) == multiset(a) + multiset{x} + multiset(b);
  }

  /** With the guild and welcome channel found, exactly one invite is created:
      the welcome-channel invite lasting 259200 seconds, marked unique. */
  lemma RotationCreatesOneInvite(cfg: Config, invites: seq<Invite>, inviteUrl: string,
                                 keyStatus: int, key: Option<string>)
    ensures var r := RotationEffects(cfg, true, true, invites, inviteUrl, keyStatus, key);
      multiset(r)[CreateInvite(cfg.welcomeChannel, 259200, true)] == 1
  {
    var deletes := StaleInviteDeletes(invites, cfg.welcomeChannel);
    var sync := SyncEffects(cfg, inviteUrl, keyStatus, key);
    var create := CreateInvite(cfg.welcomeChannel, 259200, true);
    assert RotationEffects(cfg, true, true, invites, inviteUrl, keyStatus, key) == deletes + [create] + sync;
    OccursOnceBetween(deletes, create, sync);
  }
}
