# Bible-QnA-Bot: a Dafny model of the moderation bot and its video-id extractor

This project models the decision logic of a chat-community bot and of its
YouTube URL parser, and proves what each promises.

- **Video-id extraction** (`extract_video_id`, module `VideoId`). This is a pure string parser. Three URL
  shapes are tried in a fixed order: `youtube.com/watch?v=<id>`,
  `youtube.com/shorts/<id>` and `youtu.be/<id>`. Each shape is a literal
  marker followed by a greedy, non-empty capture of characters that are not
  whitespace, `&` or `#` (and, for shorts, not `/`). Python's `re.search` is
  modelled explicitly. The match is the leftmost index where the marker is
  followed by an allowed character. The capture is the maximal run of
  allowed characters from there. `SearchIsLeftmostGreedy` shows that this
  specification determines the answer.
- **Bot handlers** (`main.py`). A `DiscordBot.Bot` object holds the in-memory
  `last_video_id` and a log of the platform and HTTP calls that act: deletes,
  posts, direct messages, bans, command processing, invite changes and web
  requests. Calls that only read (listing invites, the video search, decoding
  the key response) are inputs instead. Each handler is a method that appends
  to the log. Each method is proved equal to
  a specification function, and the properties are lemmas about those
  functions:
  - `MessageFilter`: the banned-word filter (`on_message`);
  - `BanCommand`: the `#ban` command;
  - `InviteRotation`: invite rotation and the web-site sync;
  - `Announcements`: the new-upload announcement (`check_new_youtube_video`).

Platform lookups and responses are inputs:
- the guild's roles are a list of `Role`s, in which the "Podcasters" role is
  looked up;
- the "rules" channel is an `Option` value;
- guild and channel resolution are booleans;
- so is whether a direct message was delivered;
- the key response is a status code plus an optional key;
- the video search result is a list of `SearchItem`s;
- the new invite's URL is a string.

The effect entries keep only the parts of chat messages that the bot varies:
who is addressed, the reason text, the role mention, and the title and watch
URL of an announcement.

Where the code and the behaviour one might expect differ, the model follows
the code:
- **No retry in the sync.** The invite POST is made once. Its status is only
  printed, and a 403 is not retried (main.py:132-138).
- **In-memory video id.** `last_video_id` is a global held in memory and is
  never written to a file (main.py:26, main.py:142-155).
- **DM failure stops the ban.** `member.send` is not guarded. A refused
  direct message raises, and the member is then neither confirmed nor banned
  (main.py:82, main.py:93).
- **Missing "rules" channel stops the ban.** The confirmation needs
  `channel.mention`, so without a "rules" channel the command fails after the
  DM.
- **Ban reason.** `member.ban()` is called without the reason. The default
  reason text is exactly "Not Specified".
- **Failed invite delete is not caught.** A failed invite delete raises
  out of the tick, like the other unguarded calls.
- **Three posts per warning cycle.** A warning cycle always makes three posts.
  When no moderator role exists, the second post only lacks the mention.
- **Direct messages crash the filter.** `on_message` fails on a direct
  message, before any effect and before command processing:
  `message.guild.roles` is read on a `None` guild (main.py:46).
- **Words keep their newline.** The banned words come from `readlines()`
  and keep their trailing `"\n"` (main.py:50). The model takes the word list
  verbatim, so a word only matches text that holds it with its newline.
- **Announcements never start.** `on_ready` starts only `rotate_invite`
  (main.py:39). `check_new_youtube_video` is never started, so as the program
  stands no announcement is ever made. The model describes one tick of it as
  written.
- **`#ban` is never dispatched.** Commands reach `ban` only through
  `process_commands` (main.py:64). As written, `on_message` never gets
  there for a guild message from another user: the role lookup at main.py:46
  raises first (see "## Findings"). `BanCommand` models the command as it
  would run once dispatched.

## Model

| member | source | states |
|---|---|---|
| `VideoId.RunLength` | extract_video_id.py:7-9 | the run of allowed characters from `j` stays inside the string, holds only allowed characters and ends at the end of the string or before a disallowed one |
| `VideoId.SearchFrom` | extract_video_id.py:13 | a match found from `i` is the leftmost one at or after `i` and its capture is maximal; `None` means no index from `i` on matches |
| `VideoId.Capture` | extract_video_id.py:7-9 | the greedy `+` group taken where an allowed character stands is a maximal non-empty run |
| `VideoId.Search` | extract_video_id.py:13 | `re.search`: `None` exactly when no index matches; otherwise the match starts at the leftmost matching index and `group(1)` is the maximal run after the marker |
| `VideoId.MaximalRunIsUnique` | extract_video_id.py:7-9 | two maximal runs at the same index are equal |
| `VideoId.SearchIsLeftmostGreedy` | extract_video_id.py:13-15 | any leftmost match with a maximal capture is exactly what `Search` returns, so the leftmost-greedy specification determines the result |
| `VideoId.FirstMatch` | extract_video_id.py:12-16 | the loop over patterns gives `None` exactly when no pattern matches anywhere, and otherwise the capture of a matching pattern |
| `VideoId.FirstMatchInOrder` | extract_video_id.py:6-16 | the loop tries watch, then shorts, then short link, and the first that matches decides |
| `VideoId.ExtractVideoId` | extract_video_id.py:4-16 | total on every string; `None` iff none of the three markers is followed by an allowed character; a returned id is non-empty and holds no whitespace, `&` or `#` |
| `VideoId.ExtractVideoIdInOrder` | extract_video_id.py:12-16 | the result is the watch capture if the watch shape matches, else the shorts capture, else the short-link capture, else `None` |
| `VideoId.WatchTakesPriority` | extract_video_id.py:6-15 | if the watch shape matches anywhere, its capture is returned whatever shorts or short-link markers the string also holds |
| `VideoId.ShortsBeforeShortLink` | extract_video_id.py:8-15 | without a watch match, a shorts match is returned and its id holds no `/` |
| `VideoId.ShortLinkRoundTrip` | extract_video_id.py:9 | for a non-empty id over letters, digits, `-` and `_`, extracting from `https://youtu.be/<id>` returns exactly the id |
| `Text.ContainsFrom` | main.py:53 | the substring test from index `i` holds iff the word occurs at some index at or after `i` |
| `Text.Contains` | main.py:53 | Python's `word in text` holds iff the word occurs at some index of the text |
| `Text.Lower` | main.py:53 | `str.lower()`: the result has the input's length and each character is the lower-cased input character |
| `MessageFilter.PodcasterRole` | main.py:46 | the case-insensitive lookup of "Podcasters": `None` iff no role's lower-cased name is "podcasters", otherwise the id of the first such role |
| `MessageFilter.AnyContained` | main.py:52-53 | true iff some word of the list is contained in the text |
| `MessageFilter.MessageEffects` | main.py:42-64 | the bot's own message causes nothing, not even command processing; a direct message causes nothing either; a guild message containing a banned word gets exactly one delete and three posts, then command processing; a message with none gets only command processing |
| `MessageFilter.MessageDeletedAtMostOnce` | main.py:52-62 | a message is deleted at most once, however many banned words it holds, because the scan stops at the first |
| `MessageFilter.WarningCycleDeletesOnce` | main.py:54-64 | one warning cycle followed by command processing holds exactly one delete |
| `MessageFilter.MessageEffectsAsWritten` | main.py:53 | once the role lookup has returned, as written, the handler makes at most one call, and that call can only be command processing: nothing is deleted, posted or banned, and commands are processed only when the word list is empty |
| `MessageFilter.OnMessageAsWritten` | main.py:42-64 | with the lookup and the word test as written, any non-empty role list stops the handler with no call at all; otherwise at most one call, command processing, and only with no roles and no words |
| `MessageFilter.LookupAsWrittenLosesCommands` | main.py:46-64 | for every guild message from another user in a guild with roles, the code as written makes no call, while the intended handler always processes commands |
| `MessageFilter.AsWrittenDiffersFromIntent` | main.py:52-64 | for content "bad" and words ["bad"] the code as written does nothing, while the intended filter deletes, warns and processes commands |
| `BanCommand.BanEffects` | main.py:67-100 | an administrator target gets only the refusal post; otherwise the DM comes first; a refused DM or a missing "rules" channel leaves the DM alone, with no confirmation and no ban; the member is banned iff the DM went through and the "rules" channel exists, and then the log is exactly DM, confirmation, ban, with the reason text in both messages |
| `BanCommand.MissingReasonIsNotSpecified` | main.py:80-89 | with no reason, both the DM and the confirmation say "Not Specified" |
| `InviteRotation.StaleInviteDeletes` | main.py:107-110 | the cleanup deletes every invite of the welcome channel and only invites of the welcome channel, never more deletes than invites |
| `InviteRotation.StaleInviteDeletesCount` | main.py:108-110 | each invite is deleted exactly as many times as it is listed if it points at the welcome channel, and never otherwise |
| `InviteRotation.StaleInviteDeletesInOrder` | main.py:108-110 | of two listed welcome-channel invites, the one listed first is deleted first |
| `InviteRotation.SyncEffects` | main.py:113-138 | only HTTP requests; no request unless `SITE_UP`; the key GET comes first; a POST happens iff the key status is 200 and the key is present and non-empty; then it is the single last request, carrying the key and the invite URL; the key GET is never repeated, so an unusable key ends the sync after that one request |
| `InviteRotation.RotationEffects` | main.py:102-138 | no guild, no effect; no welcome channel, exactly the one cleanup pass of deletes; with guild and welcome channel, the deletes, then the one new invite, then exactly the sync; any created invite is on the welcome channel with max age 72 hours and `unique` set; HTTP requests only with guild, channel and `SITE_UP` |
| `InviteRotation.RotationDeletesOnlyWelcomeInvites` | main.py:107-112 | an invite is deleted iff it points at the welcome channel, and all deletes precede everything else |
| `InviteRotation.RotationCreatesOneInvite` | main.py:112 | with guild and welcome channel found, exactly one invite is created: the welcome-channel invite with max age 259200 and `unique` set |
| `Announcements.AnnouncementTick` | main.py:150-160 | a repeated id changes nothing and posts nothing; a new id becomes `last_video_id` even when the channel does not resolve; at most one post, made iff the id is new and the channel resolves, carrying the title and `https://youtu.be/<id>` |
| `Announcements.RepeatedTickIsSilent` | main.py:154-160 | two ticks that see the same id announce at most once between them and the second changes nothing |
| `Announcements.WatchUrlRoundTrip` | main.py:157 | the watch URL built from an id extracts back to that id |
| `Announcements.AnnouncedUrlYieldsVideoId` | main.py:157 | the URL an announcement carries extracts back to the announced id |
| `DiscordBot.Bot.constructor` | main.py:26 | the bot starts with no video seen and an empty log |
| `DiscordBot.Bot.OnMessage` | main.py:42-64 | the moderator role is the case-insensitive "Podcasters" lookup; the scan stops at the first contained word; the log grows by exactly `MessageEffects` |
| `DiscordBot.Bot.Ban` | main.py:67-100 | the log grows by exactly `BanEffects` |
| `DiscordBot.Bot.RotateInvite` | main.py:102-138 | the cleanup loop and what follows grow the log by exactly `RotationEffects` |
| `DiscordBot.Bot.CheckNewYoutubeVideo` | main.py:140-160 | `last_video_id` and the log change exactly as `AnnouncementTick` says, from the first search item |

## Left out

- Chat client, gateway events, `bot.run`, the internals of `process_commands` and the `has_role("Podcasters")` authorization are left out. `process_commands` is one effect entry. Role, channel and guild lookups are inputs.
- HTTP transport and JSON decoding are left out. The key response is a status code and an optional string. A JSON key value that is not a string is not modelled.
- The YouTube API client is left out. The search response is given as its list of items.
- Configuration from the environment is a `Config` value. The banned-word file is a word list passed in.
- Log files, `print` calls and the POST's status, which is only printed, are left out.
- Scheduling is left out: the 72-hour and 45-minute loops, the event loop and concurrency. One method call is one tick. What a raised error does to the loop itself is not modelled either: in discord.py's task loop most errors (a failed invite delete, the missing guild or channel, the empty search result) stop the loop for good, while a network error in the sync re-runs the tick after a backoff.
- The command-line block of extract_video_id.py (lines 18-29) is left out.
- Chat message prose is left out, except the parts the bot varies.
- `MessageFilter.MessageEffectsAsWritten` models main.py:53 alone, taking the role lookup of main.py:46 as having returned; `MessageFilter.OnMessageAsWritten` puts the two together.
- Exceptions from platform calls are left out, except a refused ban DM and the missing lookups above. This covers deleting a message or invite, posting, banning, listing or creating invites, the search request and the network. In the source such an exception ends the handler at that call. The log would then hold a prefix of the modelled effects.
- `Text.Lower` lower-cases only ASCII `A`-`Z`. Python's `str.lower()` also folds other Unicode letters.
- `VideoId.IsSpace` is the fixed list of characters for which `str.isspace()` holds. Changes to that set in later Unicode versions are not followed.
- `DiscordBot.Bot.CheckNewYoutubeVideo` requires a non-empty item list. The source indexes `items[0]` without a check and would raise an `IndexError` on an empty list.

## Findings

| source | as written | input that shows it | evidently intended | confidence | as-written member | corrected member |
|---|---|---|---|---|---|---|
| main.py:53 | `word in message.content.lower` tests membership in the bound method object. That raises a `TypeError` on the first word, so nothing is deleted and `process_commands` is never reached. | a guild message "bad" from another user, with the word list ["bad"] | `word in message.content.lower()` | high; not executed | `MessageFilter.MessageEffectsAsWritten`, shown by `MessageFilter.AsWrittenDiffersFromIntent` | `MessageFilter.MessageEffects` (used by `DiscordBot.Bot.OnMessage`) |
| main.py:46 | `discord.utils.get(message.guild.roles, name__iexact="Podcasters")`: `utils.get` reads `a__b` as the attribute path `a.b`, so it asks the first role for `role.name.iexact`. A role name is a string and has no `iexact`, so an `AttributeError` is raised on every guild message from another user, before the word scan and before `process_commands`. This reading of `discord.utils.get` is based on discord.py, which is not part of this model. | any guild message from another user; every guild lists `@everyone`, so the role list is never empty | the first role whose name equals "Podcasters" ignoring case | medium; not executed | `MessageFilter.OnMessageAsWritten`, shown by `MessageFilter.LookupAsWrittenLosesCommands` | `MessageFilter.PodcasterRole` (used by `DiscordBot.Bot.OnMessage`) |
