/** `extract_video_id(url)`: three URL shapes tried in a fixed order, each a
    literal marker followed by a captured, non-empty run of allowed
    characters; the first shape that `re.search` finds supplies the id. */
module VideoId {
  import opened Wrappers

  /** Python's `\s` in a `str` pattern: exactly the characters for which
      `str.isspace()` holds. */
  predicate IsSpace(c: char)
  {
    ('\t' <= c <= '\r') || ('\U{1C}' <= c <= '\U{1F}') || c == ' '
    || c == '\U{85}' || c == '\U{A0}' || c == '\U{1680}'
    || ('\U{2000}' <= c <= '\U{200A}') || c == '\U{2028}' || c == '\U{2029}'
    || c == '\U{202F}' || c == '\U{205F}' || c == '\U{3000}'
  }

  /** A pattern `marker([^\s<stops>]+)`: the marker is matched literally
      (the regex escapes its `.` and `?`), and the capture may hold any
      character that is neither whitespace nor one of `stops`. */
  datatype Pattern = Pattern(marker: string, stops: set<char>)

  predicate Allowed(p: Pattern, c: char)
  {
    !IsSpace(c) && c !in p.stops
  }

  const Watch := Pattern("youtube.com/watch?v=", {'&', '#'})
  const Shorts := Pattern("youtube.com/shorts/", {'&', '#', '/'})
  const ShortLink := Pattern("youtu.be/", {'&', '#'})

  /** The pattern list, in the order it is tried. */
  const Patterns := [Watch, Shorts, ShortLink]

  /** The regular expression of `p` matches at index `i` of `s`: the marker
      sits at `i` and at least one allowed character follows it. */
  predicate MatchesAt(p: Pattern, s: string, i: nat)
  {
    i + |p.marker| < |s| && s[i..i + |p.marker|] == p.marker && Allowed(p, s[i + |p.marker|])
  }

  /** `id` is what the greedy `+` captures at index `j`: a non-empty run of
      allowed characters that ends at the end of `s` or before a character
      the pattern does not allow. */
  predicate IsMaximalRun(p: Pattern, s: string, j: nat, id: string)
  {
    && 0 < |id|
    && j + |id| <= |s|
    && s[j..j + |id|] == id
    && (forall k :: 0 <= k < |id| ==> Allowed(p, id[k]))
    && (j + |id| == |s| || !Allowed(p, s[j + |id|]))
  }

  /** The length of the run of allowed characters of `s` starting at `j`. */
  function RunLength(p: Pattern, s: string, j: nat): (n: nat)
    requires j <= |s|
    ensures j + n <= |s|
    ensures forall k :: j <= k < j + n ==> Allowed(p, s[k])
    ensures j + n == |s| || !Allowed(p, s[j + n])
    decreases |s| - j
  {
    if j < |s| && Allowed(p, s[j]) then 1 + RunLength(p, s, j + 1) else 0
  }

  /** What `re.search` returns: where the match starts and `group(1)`. */
  datatype Match = Match(start: nat, group: string)

  /** `re.search(p, s)` restricted to matches that start at `i` or later. */
  function SearchFrom(p: Pattern, s: string, i: nat): (r: Option<Match>)
    ensures r.None? ==> forall k :: i <= k ==> !MatchesAt(p, s, k)
    ensures r.Some? ==>
      && i <= r.value.start
      && MatchesAt(p, s, r.value.start)
      && (forall k :: i <= k < r.value.start ==> !MatchesAt(p, s, k))
      && IsMaximalRun(p, s, r.value.start + |p.marker|, r.value.group)
    decreases |s| - i
  {
    if i + |p.marker| >= |s| then None
    else if MatchesAt(p, s, i) then Some(Match(i, Capture(p, s, i + |p.marker|)))
    else
      // A later match either starts at `i`, which fails, or at `i + 1` on.
      assert forall k {:trigger MatchesAt(p, s, k)} :: i <= k ==> k == i || i + 1 <= k;
      SearchFrom(p, s, i + 1)
  }

  /** The greedy capture at index `j`, where an allowed character stands. */
  function Capture(p: Pattern, s: string, j: nat): (id: string)
    requires j < |s| && Allowed(p, s[j])
    ensures IsMaximalRun(p, s, j, id)
  {
    var n := RunLength(p, s, j);
    s[j..j + n]
  }

  /** `re.search(p, s)`: the leftmost match, with a greedy capture. */
  function Search(p: Pattern, s: string): (r: Option<Match>)
    ensures r.None? <==> forall k :: !MatchesAt(p, s, k)
    ensures r.Some? ==>
      && MatchesAt(p, s, r.value.start)
      && (forall k :: 0 <= k < r.value.start ==> !MatchesAt(p, s, k))
      && IsMaximalRun(p, s, r.value.start + |p.marker|, r.value.group)
  {
    SearchFrom(p, s, 0)
  }

  /** The `k`-th character of a run is the character of `s` at `j + k`. */
  lemma RunCharAt(p: Pattern, s: string, j: nat, id: string, k: nat)
    requires IsMaximalRun(p, s, j, id) && k < |id|
    ensures s[j + k] == id[k] && Allowed(p, s[j + k])
  {
    assert s[j..j + |id|][k] == s[j + k];
  }

  /** Two maximal runs at the same index are the same string. */
  lemma MaximalRunIsUnique(p: Pattern, s: string, j: nat, a: string, b: string)
    requires IsMaximalRun(p, s, j, a) && IsMaximalRun(p, s, j, b)
    ensures a == b
  {
    if |a| < |b| {
      RunCharAt(p, s, j, b, |a|);
      assert false;
    } else if |b| < |a| {
      RunCharAt(p, s, j, a, |b|);
      assert false;
    }
  }

  /** `Search` is the only answer `re.search` can give: any match that is
      leftmost and whose capture is maximal is the one `Search` returns. */
  lemma SearchIsLeftmostGreedy(p: Pattern, s: string, i: nat, id: string)
    requires MatchesAt(p, s, i)
    requires forall k :: 0 <= k < i ==> !MatchesAt(p, s, k)
    requires IsMaximalRun(p, s, i + |p.marker|, id)
    ensures Search(p, s) == Some(Match(i, id))
  {
    var m := Search(p, s).value;
    assert m.start == i;
    MaximalRunIsUnique(p, s, i + |p.marker|, m.group, id);
  }

  /** The loop over the pattern list: the capture of the first pattern in
      `ps` that matches anywhere in `url`, or `None`. */
  function FirstMatch(ps: seq<Pattern>, url: string): (r: Option<string>)
    ensures r.None? <==> forall q, k :: 0 <= q < |ps| ==> !MatchesAt(ps[q], url, k)
    ensures r.Some? ==> exists q :: 0 <= q < |ps| && Search(ps[q], url).Some? && Search(ps[q], url).value.group == r.value
  {
    if ps == [] then None
    else match Search(ps[0], url)
      case Some(m) => Some(m.group)
      case None =>
        assert forall q :: 1 <= q < |ps| ==> ps[q] == ps[1..][q - 1];
        FirstMatch(ps[1..], url)
  }

  /** The pattern list is tried in the order watch, shorts, short link. */
  lemma FirstMatchInOrder(url: string)
    ensures FirstMatch(Patterns, url) ==
      if Search(Watch, url).Some? then Some(Search(Watch, url).value.group)
      else if Search(Shorts, url).Some? then Some(Search(Shorts, url).value.group)
      else if Search(ShortLink, url).Some? then Some(Search(ShortLink, url).value.group)
      else None
  {
    var rest := [Shorts, ShortLink];
    assert Patterns[1..] == rest && rest[1..] == [ShortLink] && [ShortLink][1..] == [];
    var last := FirstMatch([ShortLink], url);
    assert last == if Search(ShortLink, url).Some? then Some(Search(ShortLink, url).value.group) else None;
    assert FirstMatch(rest, url) == if Search(Shorts, url).Some? then Some(Search(Shorts, url).value.group) else last;
  }

  /** Every character of a capture is allowed by its pattern. */
  lemma CaptureIsAllowed(p: Pattern, url: string)
    ensures Search(p, url).Some? ==> forall c :: c in Search(p, url).value.group ==> Allowed(p, c)
  {
    if Search(p, url).Some? {
      var id := Search(p, url).value.group;
      assert forall c :: c in id ==> exists k :: 0 <= k < |id| && id[k] == c;
    }
  }

  /** `extract_video_id(url)`. It is total: every string has an answer. */
  function ExtractVideoId(url: string): (r: Option<string>)
    ensures r.None? <==> forall q, k :: 0 <= q < |Patterns| ==> !MatchesAt(Patterns[q], url, k)
    ensures r.Some? ==> 0 < |r.value|
    ensures r.Some? ==> forall c :: c in r.value ==> !IsSpace(c) && c != '&' && c != '#'
  {
    FirstMatchInOrder(url);
    CaptureIsAllowed(Watch, url);
    CaptureIsAllowed(Shorts, url);
    CaptureIsAllowed(ShortLink, url);
    FirstMatch(Patterns, url)
  }

  /** The patterns are tried in the order watch, shorts, short link, and
      the first one found anywhere in `url` decides the answer. */
  lemma ExtractVideoIdInOrder(url: string)
    ensures ExtractVideoId(url) ==
      if Search(Watch, url).Some? then Some(Search(Watch, url).value.group)
      else if Search(Shorts, url).Some? then Some(Search(Shorts, url).value.group)
      else if Search(ShortLink, url).Some? then Some(Search(ShortLink, url).value.group)
      else None
  {
    FirstMatchInOrder(url);
  }

  /** Priority: when the watch shape matches anywhere, its leftmost capture is
      returned, whatever other markers the string holds. */
  lemma WatchTakesPriority(url: string, k: nat)
    requires MatchesAt(Watch, url, k)
    ensures Search(Watch, url).Some?
    ensures ExtractVideoId(url) == Some(Search(Watch, url).value.group)
  {
    ExtractVideoIdInOrder(url);
  }

  /** Without a watch match, a shorts match wins over a short link, and its
      id never holds a `/`. */
  lemma ShortsBeforeShortLink(url: string, k: nat)
    requires forall i :: !MatchesAt(Watch, url, i)
    requires MatchesAt(Shorts, url, k)
    ensures Search(Shorts, url).Some?
    ensures ExtractVideoId(url) == Some(Search(Shorts, url).value.group)
    ensures '/' !in ExtractVideoId(url).value
  {
    ExtractVideoIdInOrder(url);
    var id := Search(Shorts, url).value.group;
    assert forall c :: c in id ==> Allowed(Shorts, c);
  }

  /** A character YouTube uses in video ids. */
  predicate IsIdChar(c: char)
  {
    ('a' <= c <= 'z') || ('A' <= c <= 'Z') || ('0' <= c <= '9') || c == '-' || c == '_'
  }

  const ShortLinkPrefix := "https://youtu.be/"

  /** No marker longer than the short-link prefix fits into a short link
      whose tail is an id: each such marker ends in `/` or `=`, which would
      have to be a character of the id. */
  lemma NoLongMarkerInShortLink(p: Pattern, id: string, k: nat)
    requires |p.marker| > |ShortLinkPrefix|
    requires p.marker[|p.marker| - 1] in {'/', '='}
    requires forall i :: 0 <= i < |id| ==> IsIdChar(id[i])
    ensures !MatchesAt(p, ShortLinkPrefix + id, k)
  {
    var s, n := ShortLinkPrefix + id, |p.marker|;
    if k + n < |s| {
      assert s[k..k + n][n - 1] == s[k + n - 1] == id[k + n - 1 - |ShortLinkPrefix|];
    }
  }

  /** Round trip: an id written into a short link, as the announcement
      builds it, is extracted back unchanged. */
  lemma ShortLinkRoundTrip(id: string)
    requires 0 < |id|
    requires forall i :: 0 <= i < |id| ==> IsIdChar(id[i])
    ensures ExtractVideoId(ShortLinkPrefix + id) == Some(id)
  {
    var s := ShortLinkPrefix + id;
    forall k: nat ensures !MatchesAt(Watch, s, k) && !MatchesAt(Shorts, s, k) {
      NoLongMarkerInShortLink(Watch, id, k);
      NoLongMarkerInShortLink(Shorts, id, k);
    }
    // The marker "youtu.be/" ends the prefix; any earlier start would need
    // its closing `/` inside "youtu.be".
    var n := |ShortLink.marker|;
    var at := |ShortLinkPrefix| - n;
    forall k: nat | k < at ensures !MatchesAt(ShortLink, s, k) {
      assert s[k..k + n][n - 1] == s[k + n - 1] == ShortLinkPrefix[k + n - 1];
    }
    assert s[at..|ShortLinkPrefix|] == ShortLink.marker;
    assert s[|ShortLinkPrefix|..|ShortLinkPrefix| + |id|] == id;
    SearchIsLeftmostGreedy(ShortLink, s, at, id);
    ExtractVideoIdInOrder(s);
  }
}
