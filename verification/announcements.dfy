/** `check_new_youtube_video`: announce the channel's newest upload once. */
module Announcements {
  import opened Wrappers
  import opened Platform
  import VideoId

  /** One entry of the search response: `id.videoId` and `snippet.title`. */
  datatype SearchItem = SearchItem(videoId: string, title: string)

  /** The watch URL the announcement carries. */
  function WatchUrl(videoId: string): string
  {
    VideoId.ShortLinkPrefix + videoId
  }

  /** The outcome of one tick: the new `last_video_id` and what was posted. */
  datatype Tick = Tick(lastVideoId: Option<string>, effects: seq<Effect>)

  /** One tick given the newest upload: a repeat of `last` changes nothing;
      a new id is remembered even when the announcement channel does not
      resolve, and is announced only when it does. */
  function AnnouncementTick(announcementChannel: ChannelId, last: Option<string>, latest: SearchItem, channelFound: bool): (t: Tick)
    ensures last == Some(latest.videoId) ==> t == Tick(last, [])
    ensures last != Some(latest.videoId) ==> t.lastVideoId == Some(latest.videoId)
    ensures |t.effects| <= 1
    ensures t.effects != [] <==> last != Some(latest.videoId) && channelFound
    ensures t.effects != [] ==> t.effects[0] == Post(announcementChannel, VideoAnnouncement(latest.title, WatchUrl(latest.videoId)))
  {
    if last == Some(latest.videoId) then Tick(last, [])
    else if channelFound then
      Tick(Some(latest.videoId), [Post(announcementChannel, VideoAnnouncement(latest.title, WatchUrl(latest.videoId)))])
    else Tick(Some(latest.videoId), [])
  }

  /** Two ticks that see the same newest upload announce it at most once
      between them, and the second one changes nothing. */
  lemma RepeatedTickIsSilent(announcementChannel: ChannelId, last: Option<string>, first: SearchItem, second: SearchItem,
                             found1: bool, found2: bool)
    requires second.videoId == first.videoId
    ensures var t1 := AnnouncementTick(announcementChannel, last, first, found1);
      var t2 := AnnouncementTick(announcementChannel, t1.lastVideoId, second, found2);
      && t2 == Tick(t1.lastVideoId, [])
      && |t1.effects + t2.effects| <= 1
  {
  }

  /** The URL an announcement carries leads back to the announced id: the
      extractor takes it from the short link unchanged. */
  lemma AnnouncedUrlYieldsVideoId(announcementChannel: ChannelId, last: Option<string>, latest: SearchItem, channelFound: bool)
    requires 0 < |latest.videoId|
    requires forall i :: 0 <= i < |latest.videoId| ==> VideoId.IsIdChar(latest.videoId[i])
    ensures forall e :: e in AnnouncementTick(announcementChannel, last, latest, channelFound).effects ==>
      e.Post? && e.notice.VideoAnnouncement? && VideoId.ExtractVideoId(e.notice.url) == Some(latest.videoId)
  {
    var t := AnnouncementTick(announcementChannel, last, latest, channelFound);
    var post := Post(announcementChannel, VideoAnnouncement(latest.title, WatchUrl(latest.videoId)));
    assert t.effects == [] || t.effects == [post];
    WatchUrlRoundTrip(latest.videoId);
    forall e | e in t.effects
      ensures e.Post? && e.notice.VideoAnnouncement? && VideoId.ExtractVideoId(e.notice.url) == Some(latest.videoId)
    {
      assert e == post;
    }
  }

  /** The watch URL of an id extracts back to that id. */
  lemma WatchUrlRoundTrip(videoId: string)
    requires 0 < |videoId|
    requires forall i :: 0 <= i < |videoId| ==> VideoId.IsIdChar(videoId[i])
    ensures VideoId.ExtractVideoId(WatchUrl(videoId)) == Some(videoId)
  {
    VideoId.ShortLinkRoundTrip(videoId);
  }
}
