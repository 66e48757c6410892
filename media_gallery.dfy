/** The chat media gallery: every attachment URL is classified by its file
    extension, the attachments of all messages are listed newest first,
    and counted per kind. */
module MediaGallery {
  import opened Wrappers
  import opened Strings
  import opened Seqs

  const ImageExtensions: set<string> := {"jpg", "jpeg", "png", "gif", "webp"}
  const VideoExtensions: set<string> := {"mp4", "webm", "ogg"}
  const AudioExtensions: set<string> := {"mp3", "wav", "ogg"}

  datatype MediaType = Image | Video | Audio | Document

  /** `url.split('.').pop()`: the text after the last '.', or the whole
      text when there is none. */
  function AfterLastDot(s: string): (r: string)
    ensures |r| <= |s| && r == s[|s| - |r|..]
    ensures '.' !in r
    ensures |r| < |s| ==> s[|s| - |r| - 1] == '.'
  {
    if s == [] then []
    else if s[|s| - 1] == '.' then []
    else AfterLastDot(s[..|s| - 1]) + [s[|s| - 1]]
  }

  /** The lower-cased extension of a URL. */
  function Extension(url: string): string
  {
    Lower(AfterLastDot(url))
  }

  /** `getMediaType`: image, then video, then audio, else document. */
  function GetMediaType(url: string): MediaType
  {
    var ext := Extension(url);
    if ext in ImageExtensions then Image
    else if ext in VideoExtensions then Video
    else if ext in AudioExtensions then Audio
    else Document
  }

  /** Each URL gets exactly one type, decided by the first list its
      extension is in. */
  lemma MediaTypeOfExtension(url: string)
    ensures var t := GetMediaType(url);
      (t == Image <==> Extension(url) in ImageExtensions)
      && (t == Video <==> Extension(url) !in ImageExtensions && Extension(url) in VideoExtensions)
      && (t == Audio <==> Extension(url) !in ImageExtensions + VideoExtensions && Extension(url) in AudioExtensions)
      && (t == Document <==> Extension(url) !in ImageExtensions + VideoExtensions + AudioExtensions)
  {
  }

  /** 'ogg' is listed as both a video and an audio extension; video is
      tested first, so an .ogg file is never counted as audio. */
  lemma OggIsVideo(url: string)
    requires Extension(url) == "ogg"
    ensures GetMediaType(url) == Video
  {
    OggListed();
  }

  lemma OggListed()
    ensures "ogg" !in ImageExtensions && "ogg" in VideoExtensions
  {
  }

  /** Only the text after the last dot counts: 'clip.mp4.pdf' is a document. */
  lemma {:induction false} LastDotDecides(stem: string, ext: string)
    requires '.' !in ext
    ensures AfterLastDot(stem + "." + ext) == ext
    decreases |ext|
  {
    if ext == [] {
      assert (stem + "." + ext)[|stem + "." + ext| - 1] == '.';
    } else {
      var s := stem + "." + ext;
      var init := ext[..|ext| - 1];
      assert s[..|s| - 1] == stem + "." + init;
      LastDotDecides(stem, init);
      assert init + [ext[|ext| - 1]] == ext;
    }
  }

  /** A message; `mediaUrls` None stands for a message without attachments. */
  datatype Message = Message(id: string, createdAt: int, mediaUrls: Option<seq<string>>)

  datatype MediaItem = MediaItem(url: string, mediaType: MediaType, date: int, message: Message)

  function ItemOf(url: string, m: Message): MediaItem
  {
    MediaItem(url, GetMediaType(url), m.createdAt, m)
  }

  /** `mediaUrls.map(...)`: one item per URL of the message, in order. */
  function ItemsOfMessage(m: Message, urls: seq<string>): (r: seq<MediaItem>)
    ensures |r| == |urls| && forall i :: 0 <= i < |urls| ==> r[i] == ItemOf(urls[i], m)
  {
    Map(urls, u => ItemOf(u, m))
  }

  function UrlCount(messages: seq<Message>): nat
  {
    if messages == [] then 0
    else (if messages[0].mediaUrls.Some? then |messages[0].mediaUrls.value| else 0) + UrlCount(messages[1..])
  }

  /** The items of one message carry it, its date, one of its URLs and
      that URL's type. */
  lemma OwnItems(m: Message)
    ensures m.mediaUrls.Some? ==> forall it :: it in ItemsOfMessage(m, m.mediaUrls.value) ==>
      it.message == m && it.url in m.mediaUrls.value
      && it.mediaType == GetMediaType(it.url) && it.date == m.createdAt
  {
    if m.mediaUrls.Some? {
      var urls := m.mediaUrls.value;
      forall it | it in ItemsOfMessage(m, urls)
        ensures it.message == m && it.url in urls && it.mediaType == GetMediaType(it.url) && it.date == m.createdAt
      {
        var i :| 0 <= i < |urls| && ItemsOfMessage(m, urls)[i] == it;
        assert it == ItemOf(urls[i], m);
      }
    }
  }

  /** The `filter` and `flatMap` stages: one item per URL, message by message. */
  function FlatItems(messages: seq<Message>): (r: seq<MediaItem>)
    ensures |r| == UrlCount(messages)
    ensures forall it :: it in r ==>
      (it.message in messages && it.message.mediaUrls.Some?
       && it.url in it.message.mediaUrls.value && it.mediaType == GetMediaType(it.url)
       && it.date == it.message.createdAt)
  {
    if messages == [] then []
    else
      var m := messages[0];
      var own := if m.mediaUrls.Some? && |m.mediaUrls.value| > 0 then ItemsOfMessage(m, m.mediaUrls.value) else [];
      var rest := FlatItems(messages[1..]);
      OwnItems(m);
      assert forall x :: x in messages[1..] ==> x in messages;
      own + rest
  }

  function DateOf(it: MediaItem): int
  {
    it.date
  }

  /** `mediaItems`: the flattened items, newest first; items of equal date
      keep their order. */
  function MediaItems(messages: seq<Message>): (r: seq<MediaItem>)
    ensures multiset(r) == multiset(FlatItems(messages))
    ensures |r| == UrlCount(messages)
    ensures SortedDesc(r, DateOf)
    ensures forall d :: WithKey(r, DateOf, d) == WithKey(FlatItems(messages), DateOf, d)
  {
    var flat := FlatItems(messages);
    SortDescPermutes(flat, DateOf);
    SortDescSorted(flat, DateOf);
    forall d ensures WithKey(SortDesc(flat, DateOf), DateOf, d) == WithKey(flat, DateOf, d) {
      SortDescStable(flat, DateOf, d);
    }
    assert |SortDesc(flat, DateOf)| == |multiset(SortDesc(flat, DateOf))|;
    SortDesc(flat, DateOf)
  }

  datatype Stats = Stats(images: nat, videos: nat, documents: nat, audio: nat)

  function CountType(items: seq<MediaItem>, t: MediaType): nat
  {
    if items == [] then 0 else (if items[0].mediaType == t then 1 else 0) + CountType(items[1..], t)
  }

  /** `stats`. */
  function StatsOf(items: seq<MediaItem>): Stats
  {
    Stats(CountType(items, Image), CountType(items, Video), CountType(items, Document), CountType(items, Audio))
  }

  /** Every item is counted once: the four counts add up to the item count. */
  lemma {:induction false} StatsSum(items: seq<MediaItem>)
    ensures var s := StatsOf(items); s.images + s.videos + s.documents + s.audio == |items|
  {
    if items != [] {
      StatsSum(items[1..]);
    }
  }

  /** The gallery's counts add up to the number of attachment URLs. */
  lemma GalleryStatsSum(messages: seq<Message>)
    ensures var s := StatsOf(MediaItems(messages));
      s.images + s.videos + s.documents + s.audio == UrlCount(messages)
  {
    StatsSum(MediaItems(messages));
  }
}
