/** The M3U playlist parser: it reads the fetched document line by line, keeps
    the attributes of the last `#EXTINF:` line (the media-segment tag of
    section 4.3.2.1 of RFC 8216, here with the IPTV attributes `tvg-id`,
    `tvg-name`, `tvg-logo` and `group-title`) until a stream-URL line arrives,
    and then emits one channel with the next dense position. A URL line with no
    pending `#EXTINF:` is dropped, and every URL line clears the pending
    attributes. */
module M3UParser {
  import opened Models
  import opened Text

  const EXTINF_TAG := "#EXTINF:"
  const UNKNOWN_CHANNEL := "Unknown Channel"

  /** The attributes `parseExtInf` extracts from one `#EXTINF:` line; a field is
      None where the source's map has no entry. */
  datatype ExtInf = ExtInf(
    tvgId: Option<string>,
    tvgName: Option<string>,
    logo: Option<string>,
    group: Option<string>,
    title: Option<string>)

  /** How the loop treats a line: the `#EXTINF:` branch, the stream-URL branch
      (not blank, not a `#` line), or neither. */
  datatype LineKind = ExtInfLine | UrlLine | OtherLine

  function Kind(line: string): LineKind {
    if StartsWith(line, EXTINF_TAG) then ExtInfLine
    else if !IsBlank(line) && !StartsWith(line, "#") then UrlLine
    else OtherLine
  }

  /** `parseExtInf`: the first non-empty quoted value of each attribute, and the
      trimmed text after the last comma as the title when it is not empty. */
  function ParseExtInf(line: string): (info: ExtInf)
    ensures info.title != Some([])
  {
    var title := Trim(SubstringAfterLast(line, ','));
    ExtInf(
      FindQuotedValue(line, "tvg-id"),
      FindQuotedValue(line, "tvg-name"),
      FindQuotedValue(line, "tvg-logo"),
      FindQuotedValue(line, "group-title"),
      if title == [] then None else Some(title))
  }

  /** Each attribute is the value of the leftmost `key="..."` with a non-empty
      value, or absent when the line has none; the title is the trimmed text
      after the last comma (the whole line when it has no comma), absent
      exactly when that text is blank. */
  lemma ParseExtInfSpec(line: string)
    ensures var info := ParseExtInf(line);
            && IsFirstMatch(line, "tvg-id", info.tvgId)
            && IsFirstMatch(line, "tvg-name", info.tvgName)
            && IsFirstMatch(line, "tvg-logo", info.logo)
            && IsFirstMatch(line, "group-title", info.group)
            && (info.title.None? <==> IsBlank(SubstringAfterLast(line, ',')))
            && (info.title.Some? ==>
                  && ',' !in info.title.value
                  && !IsWhitespace(info.title.value[0])
                  && !IsWhitespace(info.title.value[|info.title.value| - 1]))
            && (info.title.Some? ==>
                  exists a, b :: && SubstringAfterLast(line, ',') == a + info.title.value + b
                                 && IsBlank(a) && IsBlank(b))
            && (',' !in line && info.title.Some? ==> info.title.value == Trim(line))
  {
    FindQuotedValueSpec(line, "tvg-id");
    FindQuotedValueSpec(line, "tvg-name");
    FindQuotedValueSpec(line, "tvg-logo");
    FindQuotedValueSpec(line, "group-title");
    var after := SubstringAfterLast(line, ',');
    var title := Trim(after);
    TrimSpec(after);
    assert ',' !in title by {
      assert title == after[LeadingWhitespace(after)..LeadingWhitespace(after) + |title|];
    }
    TrimSurrounded(after);
  }

  /** The channel the loop builds from pending attributes `info` and the URL
      line `line`; `id` 0 asks the table for a fresh id. */
  function MakeChannel(info: ExtInf, line: string, playlistId: int, position: int): Channel {
    Channel(
      id := 0,
      name := info.title.GetOr(UNKNOWN_CHANNEL),
      url := Trim(line),
      logo := info.logo,
      groupTitle := info.group,
      tvgId := info.tvgId,
      tvgName := info.tvgName,
      playlistId := playlistId,
      isFavorite := false,
      position := position)
  }

  /** How one line changes the pending attributes. */
  function NextPending(pending: Option<ExtInf>, line: string): (r: Option<ExtInf>)
    requires pending.Some? ==> pending.value.title != Some([])
    ensures r.Some? ==> r.value.title != Some([])
  {
    match Kind(line)
    case ExtInfLine => Some(ParseExtInf(line))
    case UrlLine => None
    case OtherLine => pending
  }

  /** How one line extends the channels emitted so far. */
  function Emit(prev: seq<Channel>, pending: Option<ExtInf>, line: string, playlistId: int): seq<Channel> {
    if Kind(line) == UrlLine && pending.Some? then
      prev + [MakeChannel(pending.value, line, playlistId, |prev|)]
    else prev
  }

  /** The attributes waiting for a URL line after the loop has read `lines`. */
  function Pending(lines: seq<string>): (r: Option<ExtInf>)
    ensures r.Some? ==> r.value.title != Some([])
  {
    if lines == [] then None
    else NextPending(Pending(lines[..|lines| - 1]), lines[|lines| - 1])
  }

  /** The channels the loop has emitted after reading `lines`. */
  function ChannelsOf(lines: seq<string>, playlistId: int): (r: seq<Channel>)
    ensures forall k :: 0 <= k < |r| ==> r[k].position == k
    ensures forall k :: 0 <= k < |r| ==>
              && r[k].id == 0
              && r[k].playlistId == playlistId
              && !r[k].isFavorite
              && r[k].name != []
              && r[k].url != []
  {
    if lines == [] then []
    else
      var last := lines[|lines| - 1];
      TrimSpec(last);
      Emit(ChannelsOf(lines[..|lines| - 1], playlistId), Pending(lines[..|lines| - 1]), last, playlistId)
  }

  /** The line loop of `parsePlaylist`, over the already fetched and split
      document. */
  method ParsePlaylist(lines: seq<string>, playlistId: int) returns (channels: seq<Channel>)
    ensures channels == ChannelsOf(lines, playlistId)
    ensures forall k :: 0 <= k < |channels| ==>
              channels[k].position == k && channels[k].playlistId == playlistId
  {
    channels := [];
    var currentInfo: Option<ExtInf> := None;
    var position := 0;
    var i := 0;
    while i < |lines|
      invariant 0 <= i <= |lines|
      invariant channels == ChannelsOf(lines[..i], playlistId)
      invariant currentInfo == Pending(lines[..i])
      invariant position == |channels|
    {
      var line := lines[i];
      assert lines[..i + 1][..i] == lines[..i];
      if StartsWith(line, EXTINF_TAG) {
        currentInfo := Some(ParseExtInf(line));
      } else if !IsBlank(line) && !StartsWith(line, "#") {
        if currentInfo.Some? {
          var info := currentInfo.value;
          var channel := Channel(
            id := 0,
            name := info.title.GetOr(UNKNOWN_CHANNEL),
            url := Trim(line),
            logo := info.logo,
            groupTitle := info.group,
            tvgId := info.tvgId,
            tvgName := info.tvgName,
            playlistId := playlistId,
            isFavorite := false,
            position := position);
          position := position + 1;
          channels := channels + [channel];
        }
        currentInfo := None;
      }
      i := i + 1;
    }
    assert lines[..i] == lines;
  }

  // --- What the parser promises ---------------------------------------------

  /** The pending attributes are those of the last `#EXTINF:` line, provided
      only lines of neither kind follow it (a later `#EXTINF:` overrides it). */
  lemma {:induction false} PendingIsLastExtInf(lines: seq<string>, i: nat)
    requires i < |lines| && Kind(lines[i]) == ExtInfLine
    requires forall k :: i < k < |lines| ==> Kind(lines[k]) == OtherLine
    ensures Pending(lines) == Some(ParseExtInf(lines[i]))
  {
    if i < |lines| - 1 {
      var init := lines[..|lines| - 1];
      assert init[i] == lines[i];
      assert forall k :: i < k < |init| ==> init[k] == lines[k];
      PendingIsLastExtInf(init, i);
    }
  }

  /** Conversely, pending attributes always come from such a line: a URL line
      clears them and nothing else creates them. */
  lemma {:induction false} PendingHasSource(lines: seq<string>) returns (i: nat)
    requires Pending(lines).Some?
    ensures i < |lines| && Kind(lines[i]) == ExtInfLine
    ensures Pending(lines) == Some(ParseExtInf(lines[i]))
    ensures forall k :: i < k < |lines| ==> Kind(lines[k]) == OtherLine
  {
    var n := |lines| - 1;
    var init := lines[..n];
    PendingLastLine(lines);
    if Kind(lines[n]) == OtherLine {
      i := PendingHasSource(init);
      assert lines[i] == init[i];
      assert forall k :: i < k < n ==> lines[k] == init[k];
    } else {
      i := n;
    }
  }

  /** What the last line does to the pending attributes. */
  lemma PendingLastLine(lines: seq<string>)
    requires lines != []
    ensures var last := lines[|lines| - 1];
            && (Kind(last) == OtherLine ==> Pending(lines) == Pending(lines[..|lines| - 1]))
            && (Kind(last) == ExtInfLine ==> Pending(lines) == Some(ParseExtInf(last)))
            && (Kind(last) == UrlLine ==> Pending(lines) == None)
  {
  }

  /** After a URL line nothing is pending. */
  lemma UrlLineClearsPending(a: seq<string>, url: string)
    requires Kind(url) == UrlLine
    ensures Pending(a + [url]).None?
  {
    assert (a + [url])[|a|] == url;
  }

  /** A URL line with nothing pending emits nothing: no default entry. */
  lemma {:induction false} OrphanUrlDropped(a: seq<string>, url: string, playlistId: int)
    requires Kind(url) == UrlLine && Pending(a).None?
    ensures ChannelsOf(a + [url], playlistId) == ChannelsOf(a, playlistId)
  {
    assert (a + [url])[..|a|] == a;
  }

  /** A URL line with pending attributes `info` emits exactly one channel, at
      the next position, named from `info` and carrying the trimmed URL. */
  lemma {:induction false} UrlLineEmits(a: seq<string>, url: string, playlistId: int)
    requires Kind(url) == UrlLine && Pending(a).Some?
    ensures var prev := ChannelsOf(a, playlistId);
            ChannelsOf(a + [url], playlistId)
              == prev + [MakeChannel(Pending(a).value, url, playlistId, |prev|)]
  {
    assert (a + [url])[..|a|] == a;
  }

  /** Of two URL lines after one `#EXTINF:`, only the first becomes a channel. */
  lemma {:induction false} SecondUrlDropped(a: seq<string>, url1: string, url2: string, playlistId: int)
    requires Kind(url1) == UrlLine && Kind(url2) == UrlLine
    ensures ChannelsOf(a + [url1, url2], playlistId) == ChannelsOf(a + [url1], playlistId)
  {
    UrlLineClearsPending(a, url1);
    assert a + [url1, url2] == (a + [url1]) + [url2];
    OrphanUrlDropped(a + [url1], url2, playlistId);
  }

  /** Two documents that leave the parser in the same state (the same channels
      and the same pending attributes) go on to produce the same channels. */
  lemma {:induction false} SameStateSameOutput(x: seq<string>, y: seq<string>, b: seq<string>, playlistId: int)
    requires ChannelsOf(x, playlistId) == ChannelsOf(y, playlistId)
    requires Pending(x) == Pending(y)
    ensures ChannelsOf(x + b, playlistId) == ChannelsOf(y + b, playlistId)
    ensures Pending(x + b) == Pending(y + b)
    decreases |b|
  {
    if b == [] {
      AppendNothing(x, b);
      AppendNothing(y, b);
    } else {
      var b', last := b[..|b| - 1], b[|b| - 1];
      SameStateSameOutput(x, y, b', playlistId);
      AppendLast(x, b);
      AppendLast(y, b);
      SameStateStep(x + b', y + b', last, playlistId);
    }
  }

  lemma AppendNothing(x: seq<string>, b: seq<string>)
    requires b == []
    ensures x + b == x
  {
  }

  lemma AppendLast(x: seq<string>, b: seq<string>)
    requires b != []
    ensures x + b == (x + b[..|b| - 1]) + [b[|b| - 1]]
  {
  }

  lemma SameStateStep(x: seq<string>, y: seq<string>, line: string, playlistId: int)
    requires ChannelsOf(x, playlistId) == ChannelsOf(y, playlistId)
    requires Pending(x) == Pending(y)
    ensures ChannelsOf(x + [line], playlistId) == ChannelsOf(y + [line], playlistId)
    ensures Pending(x + [line]) == Pending(y + [line])
  {
    ReadOneLine(x, line, playlistId);
    ReadOneLine(y, line, playlistId);
  }

  /** Reading one more line is one step of the loop. */
  lemma ReadOneLine(a: seq<string>, line: string, playlistId: int)
    ensures ChannelsOf(a + [line], playlistId)
              == Emit(ChannelsOf(a, playlistId), Pending(a), line, playlistId)
    ensures Pending(a + [line]) == NextPending(Pending(a), line)
  {
    assert (a + [line])[..|a|] == a;
  }

  /** Blank lines, `#EXTM3U` and every other `#` line that is not `#EXTINF:`
      can be inserted anywhere without changing the result. */
  lemma {:induction false} OtherLineIgnored(a: seq<string>, g: string, b: seq<string>, playlistId: int)
    requires Kind(g) == OtherLine
    ensures ChannelsOf(a + [g] + b, playlistId) == ChannelsOf(a + b, playlistId)
  {
    assert (a + [g])[..|a|] == a;
    assert (a + [g])[|a|] == g;
    SameStateSameOutput(a + [g], a, b, playlistId);
  }

  /** Of two consecutive `#EXTINF:` lines, the first has no effect. */
  lemma {:induction false} LastExtInfWins(a: seq<string>, e1: string, e2: string, b: seq<string>, playlistId: int)
    requires Kind(e1) == ExtInfLine && Kind(e2) == ExtInfLine
    ensures ChannelsOf(a + [e1, e2] + b, playlistId) == ChannelsOf(a + [e2] + b, playlistId)
  {
    var x := a + [e1, e2];
    var y := a + [e2];
    assert x[..|x| - 1] == a + [e1] && x[|x| - 1] == e2;
    assert (a + [e1])[..|a|] == a;
    assert y[..|a|] == a && y[|a|] == e2;
    SameStateSameOutput(x, y, b, playlistId);
  }

  /** Number of lines of kind `k`. */
  function CountKind(lines: seq<string>, k: LineKind): nat {
    if lines == [] then 0
    else CountKind(lines[..|lines| - 1], k) + (if Kind(lines[|lines| - 1]) == k then 1 else 0)
  }

  /** Each channel consumes one URL line and one `#EXTINF:` line of its own,
      so there are at most as many channels as either. */
  lemma {:induction false} ChannelCountBounds(lines: seq<string>, playlistId: int)
    ensures |ChannelsOf(lines, playlistId)| <= CountKind(lines, UrlLine)
    ensures |ChannelsOf(lines, playlistId)| + (if Pending(lines).Some? then 1 else 0)
              <= CountKind(lines, ExtInfLine)
  {
    if lines != [] {
      ChannelCountBounds(lines[..|lines| - 1], playlistId);
    }
  }
}
