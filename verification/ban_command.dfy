/** The `#ban <member> [reason]` command. Who may invoke it (the
    "Podcasters" role check) is decided before the command body runs. */
module BanCommand {
  import opened Wrappers
  import opened Platform

  /** The text after "Reason: " in both ban messages. */
  function ReasonText(reason: Option<string>): (t: string)
  {
    match reason
    case None => "Not Specified"
    case Some(r) => r
  }

  /** What the command does. An administrator target gets only the refusal
      in the invoking channel. Otherwise the member is sent a direct message,
      then the confirmation is posted, then the member is banned. A failed
      direct message (`dmDelivered` false) raises and ends the command; so
      does a guild without a channel named "rules", whose mention the
      confirmation needs. */
  function BanEffects(channel: ChannelId, requester: string, guild: string, target: Member,
                      reason: Option<string>, rules: Option<ChannelId>, dmDelivered: bool): (r: seq<Effect>)
    ensures target.isAdmin ==> r == [Post(channel, AdminRefusal(requester))]
    ensures !target.isAdmin ==> 0 < |r| && r[0] == DirectMessage(target.id, BanDm(target.name, guild, ReasonText(reason)))
    ensures BanMember(target.id) in r <==> !target.isAdmin && dmDelivered && rules.Some?
    ensures !target.isAdmin && !(dmDelivered && rules.Some?) ==>
      r == [DirectMessage(target.id, BanDm(target.name, guild, ReasonText(reason)))]
    ensures !target.isAdmin && dmDelivered && rules.Some? ==> r == [
      DirectMessage(target.id, BanDm(target.name, guild, ReasonText(reason))),
      Post(channel, BanConfirmation(target.name, rules.value, ReasonText(reason))),
      BanMember(target.id)]
    ensures forall i :: 0 <= i < |r| && r[i].BanMember? ==> i == 2 && r[0].DirectMessage? && r[1].Post?
  {
    if target.isAdmin then [Post(channel, AdminRefusal(requester))]
    else
      var dm := DirectMessage(target.id, BanDm(target.name, guild, ReasonText(reason)));
      if !dmDelivered || rules.None? then [dm]
      else [dm, Post(channel, BanConfirmation(target.name, rules.value, ReasonText(reason))), BanMember(target.id)]
  }

  /** Both messages carry "Not Specified" when no reason is given. */
  lemma MissingReasonIsNotSpecified(channel: ChannelId, requester: string, guild: string, target: Member,
                                    rules: Option<ChannelId>, dmDelivered: bool)
    requires !target.isAdmin
    ensures forall e :: e in BanEffects(channel, requester, guild, target, None, rules, dmDelivered) ==>
      (e.DirectMessage? ==> e.notice.reason == "Not Specified")
      && (e.Post? ==> e.notice.BanConfirmation? && e.notice.reason == "Not Specified")
  {
  }
}
