/** `on_message`: the banned-word filter. */
module MessageFilter {
  import opened Wrappers
  import opened Text
  import opened Platform

  /** Some word of `words` occurs in `text`. */
  function AnyContained(text: string, words: seq<string>): (r: bool)
    ensures r <==> exists j :: 0 <= j < |words| && Contains(text, words[j])
  {
    if words == [] then false
    else if Contains(text, words[0]) then true
    else
      assert forall j :: 1 <= j < |words| ==> words[j] == words[1..][j - 1];
      AnyContained(text, words[1..])
  }

  /** A role name that a case-insensitive match takes for "Podcasters":
      lower-cased, it is "podcasters". */
  predicate IsPodcasters(name: string)
  {
    Lower(name) == "podcasters"
  }

  /** `roles[i]` is the first role of the list named "Podcasters", case aside. */
  predicate FirstPodcasters(roles: seq<Role>, i: int)
  {
    && 0 <= i < |roles|
    && IsPodcasters(roles[i].name)
    && forall j :: 0 <= j < i ==> !IsPodcasters(roles[j].name)
  }

  /** The moderator role main.py:46 evidently means to look up: the first
      role of the guild whose name is "Podcasters" in any letter case. */
  function PodcasterRole(roles: seq<Role>): (r: Option<RoleId>)
    ensures r.None? <==> forall i :: 0 <= i < |roles| ==> !IsPodcasters(roles[i].name)
    ensures r.Some? ==> exists i :: FirstPodcasters(roles, i) && roles[i].id == r.value
  {
    if roles == [] then None
    else if IsPodcasters(roles[0].name) then
      assert FirstPodcasters(roles, 0);
      Some(roles[0].id)
    else
      var rest := PodcasterRole(roles[1..]);
      assert forall i :: 1 <= i < |roles| ==> roles[i] == roles[1..][i - 1];
      if rest.Some? then
        var k :| FirstPodcasters(roles[1..], k) && roles[1..][k].id == rest.value;
        assert FirstPodcasters(roles, k + 1);
        rest
      else rest
  }

  /** One warning cycle: the message is deleted, then three posts follow in
      its channel. */
  function WarningCycle(m: Message, modRole: Option<RoleId>): seq<Effect>
  {
    [ DeleteMessage(m.id),
      Post(m.channel, CurseWarning(m.author)),
      Post(m.channel, CurseReport(m.author, modRole)),
      Post(m.channel, MuteCommand(m.author)) ]
  }

  /** What `on_message` does, as the code at main.py:53 evidently intends it
      (`word in message.content.lower()`): nothing for the bot's own messages;
      nothing on a direct message, because `message.guild.roles` fails there;
      otherwise at most one warning cycle, then command processing. */
  function MessageEffects(botUser: UserId, m: Message, modRole: Option<RoleId>, words: seq<string>): (r: seq<Effect>)
    ensures m.author == botUser ==> r == []
    ensures !m.inGuild ==> r == []
    ensures m.author != botUser && m.inGuild && (forall w :: w in words ==> !Contains(Lower(m.content), w))
      ==> r == [ProcessCommands(m.id)]
    ensures m.author != botUser && m.inGuild && (exists w :: w in words && Contains(Lower(m.content), w))
      ==> r == WarningCycle(m, modRole) + [ProcessCommands(m.id)]
  {
    if m.author == botUser || !m.inGuild then []
    else if AnyContained(Lower(m.content), words) then WarningCycle(m, modRole) + [ProcessCommands(m.id)]
    else [ProcessCommands(m.id)]
  }

  /** A message is deleted at most once, however many banned words it holds:
      the scan stops at the first one. */
  lemma MessageDeletedAtMostOnce(botUser: UserId, m: Message, modRole: Option<RoleId>, words: seq<string>)
    ensures multiset(MessageEffects(botUser, m, modRole, words))[DeleteMessage(m.id)] <= 1
  {
    if m.author != botUser && m.inGuild && AnyContained(Lower(m.content), words) {
      WarningCycleDeletesOnce(m, modRole);
    }
  }

  /** One warning cycle, then command processing, holds exactly one delete. */
  lemma WarningCycleDeletesOnce(m: Message, modRole: Option<RoleId>)
    ensures multiset(WarningCycle(m, modRole) + [ProcessCommands(m.id)])[DeleteMessage(m.id)] == 1
  {
    var rest := [Post(m.channel, CurseWarning(m.author)), Post(m.channel, CurseReport(m.author, modRole)),
                 Post(m.channel, MuteCommand(m.author)), ProcessCommands(m.id)];
    assert WarningCycle(m, modRole) + [ProcessCommands(m.id)] == [DeleteMessage(m.id)] + rest;
    assert multiset(rest)[DeleteMessage(m.id)] == 0;
  }

  /** `on_message` as main.py:53 is written, once the role lookup of
      main.py:46 has returned: `word in message.content.lower` asks whether
      the word is in the bound method object, not in the lowered text. That
      raises a TypeError on the first word, so the handler stops there,
      before any delete and before `process_commands`. */
  function MessageEffectsAsWritten(botUser: UserId, m: Message, modRole: Option<RoleId>, words: seq<string>): (r: seq<Effect>)
    ensures |r| <= 1 && forall e :: e in r ==> e == ProcessCommands(m.id)
    ensures DeleteMessage(m.id) !in r
    ensures ProcessCommands(m.id) in r <==> m.author != botUser && m.inGuild && words == []
  {
    if m.author == botUser || !m.inGuild then []
    else if words == [] then [ProcessCommands(m.id)]
    else []
  }

  /** `on_message` as main.py:46 and main.py:53 are written. The lookup
      `discord.utils.get(roles, name__iexact="Podcasters")` reads the keyword
      `name__iexact` as the attribute path `name.iexact`, so it asks the first
      role for `role.name.iexact`; a name is a string, which has no such
      attribute, and the handler stops with an AttributeError. Only an empty
      role list gets past line 46. As every guild lists `@everyone`, no guild
      message from another user ever reaches `process_commands`, so no
      command, `#ban` included, is ever dispatched. */
  function OnMessageAsWritten(botUser: UserId, m: Message, roles: seq<Role>, words: seq<string>): (r: seq<Effect>)
    ensures roles != [] ==> r == []
    ensures |r| <= 1 && forall e :: e in r ==> e == ProcessCommands(m.id)
    ensures ProcessCommands(m.id) in r <==> m.author != botUser && m.inGuild && roles == [] && words == []
  {
    if m.author == botUser || !m.inGuild then []
    else if roles != [] then []
    else MessageEffectsAsWritten(botUser, m, None, words)
  }

  /** The lookup as written loses every guild message from another user:
      the code makes no call at all, where the evident intent always hands
      the message to command processing, whatever words it holds. */
  lemma LookupAsWrittenLosesCommands(botUser: UserId, m: Message, roles: seq<Role>, words: seq<string>)
    requires m.author != botUser && m.inGuild && roles != []
    ensures OnMessageAsWritten(botUser, m, roles, words) == []
    ensures ProcessCommands(m.id) in MessageEffects(botUser, m, PodcasterRole(roles), words)
  {
    var r := MessageEffects(botUser, m, PodcasterRole(roles), words);
    assert r[|r| - 1] == ProcessCommands(m.id);
  }

  /** A concrete message on which the code as written and its evident
      intent differ: "bad" against the word list ["bad"]. */
  lemma AsWrittenDiffersFromIntent()
    ensures MessageEffectsAsWritten(0, Message(1, 7, "bad", 3, true), None, ["bad"]) == []
    ensures MessageEffects(0, Message(1, 7, "bad", 3, true), None, ["bad"])
      == WarningCycle(Message(1, 7, "bad", 3, true), None) + [ProcessCommands(1)]
  {
    var lowered := Lower("bad");
    assert lowered == "bad" by {
      assert |lowered| == 3;
      assert lowered[0] == 'b' && lowered[1] == 'a' && lowered[2] == 'd';
    }
    assert OccursAt(lowered, "bad", 0);
  }
}
