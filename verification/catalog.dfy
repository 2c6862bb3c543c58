/**
 * The video catalog: the records the catalog JSON decodes into, and the
 * specifications of the catalog queries (all videos, videos of a category).
 * Strings that may be null and whose null-ness the queries observe are
 * `Option<string>`; the other strings are plain.
 */
module Catalog {
  import opened Wrappers
  import opened Sequences

  datatype VideoContent = VideoContent(
    id: int,
    title: string,
    src: string,
    kind: string,          // the JSON field "type"
    thumbnail: string,     // the URL the thumbnail is fetched from
    duration: real,
    category: Option<string>,
    show: string,
    episode: int,
    artist: string,
    part: string,
    song: string,
    director: string,
    film: string,
    isTrailer: bool)

  datatype Channel = Channel(
    id: Option<string>,
    name: string,
    description: string,
    currentShow: string,
    thumbnail: string,
    content: seq<VideoContent>)

  datatype Metadata = Metadata(version: string, lastUpdated: string, totalChannels: int, totalVideos: int)

  datatype VideoData = VideoData(channels: Option<seq<Channel>>, metadata: Option<Metadata>)

  /** A downloaded texture, known to the model only by an opaque handle. */
  datatype Texture = Texture(handle: nat)

  /** The contents of the channels joined in channel order. */
  function AllContent(channels: seq<Channel>): seq<VideoContent> {
    if channels == [] then []
    else AllContent(channels[..|channels| - 1]) + channels[|channels| - 1].content
  }

  /** The number of videos summed over the channels, first channel first. */
  function TotalVideos(channels: seq<Channel>): nat {
    if channels == [] then 0 else |channels[0].content| + TotalVideos(channels[1..])
  }

  /** The videos whose category equals `category` (null equal to null), in order. */
  function InCategory(videos: seq<VideoContent>, category: Option<string>): seq<VideoContent> {
    if videos == [] then []
    else
      var last := videos[|videos| - 1];
      InCategory(videos[..|videos| - 1], category) + (if last.category == category then [last] else [])
  }

  lemma {:induction false} AllContentPrepend(c: Channel, channels: seq<Channel>)
    ensures AllContent([c] + channels) == c.content + AllContent(channels)
    decreases |channels|
  {
    if channels != [] {
      var init := channels[..|channels| - 1];
      AllContentPrepend(c, init);
      assert ([c] + channels)[..|channels|] == [c] + init;
    } else {
      assert [c] + channels == [c];
    }
  }

  /** The number of all videos is the sum of the channel content lengths. */
  lemma {:induction false} AllContentLength(channels: seq<Channel>)
    ensures |AllContent(channels)| == TotalVideos(channels)
  {
    if channels != [] {
      AllContentLength(channels[1..]);
      AllContentPrepend(channels[0], channels[1..]);
      assert channels == [channels[0]] + channels[1..];
    }
  }

  /** A video is among all videos exactly when some channel holds it. */
  lemma {:induction false} AllContentMembers(channels: seq<Channel>, v: VideoContent)
    ensures v in AllContent(channels) <==> exists i :: 0 <= i < |channels| && v in channels[i].content
  {
    if channels != [] {
      var init := channels[..|channels| - 1];
      AllContentMembers(init, v);
      if exists i :: 0 <= i < |channels| && v in channels[i].content {
        var i :| 0 <= i < |channels| && v in channels[i].content;
        if i < |init| {
          assert init[i] == channels[i];
        }
      }
      if v in AllContent(init) {
        var i :| 0 <= i < |init| && v in init[i].content;
        assert channels[i] == init[i];
      }
    }
  }

  /** Filtering by category distributes over concatenation. */
  lemma {:induction false} InCategoryAppend(a: seq<VideoContent>, b: seq<VideoContent>, category: Option<string>)
    ensures InCategory(a + b, category) == InCategory(a, category) + InCategory(b, category)
    decreases |b|
  {
    if b == [] {
      assert a + b == a;
    } else {
      var init := b[..|b| - 1];
      InCategoryAppend(a, init, category);
      assert (a + b)[..|a + b| - 1] == a + init;
    }
  }

  /** The category filter keeps exactly the videos of that category, each as
      often as it occurs, in their original order: it is a subsequence of its input. */
  lemma {:induction false} InCategoryExact(videos: seq<VideoContent>, category: Option<string>)
    ensures forall v :: v in InCategory(videos, category) <==> v in videos && v.category == category
    ensures forall v ::
              multiset(InCategory(videos, category))[v] == if v.category == category then multiset(videos)[v] else 0
    ensures IsSubsequence(InCategory(videos, category), videos)
  {
    InCategoryCounts(videos, category);
    if videos != [] {
      var init, last := videos[..|videos| - 1], videos[|videos| - 1];
      InCategoryExact(init, category);
      assert videos == init + [last];
      var r := InCategory(videos, category);
      if last.category == category {
        assert r[..|r| - 1] == InCategory(init, category);
      } else {
        assert r == InCategory(init, category);
        assert videos[..|videos| - 1] == init;
        SubsequenceOfInit(r, videos);
      }
    }
  }

  /** Each video of the category occurs in the filter's result as often as in its
      input; no other video occurs in it. */
  lemma {:induction false} InCategoryCounts(videos: seq<VideoContent>, category: Option<string>)
    ensures forall v ::
              multiset(InCategory(videos, category))[v] == if v.category == category then multiset(videos)[v] else 0
  {
    if videos != [] {
      var init, last := videos[..|videos| - 1], videos[|videos| - 1];
      InCategoryCounts(init, category);
      assert videos == init + [last];
      var extra := if last.category == category then [last] else [];
      assert multiset(videos) == multiset(init) + multiset{last};
      assert multiset(InCategory(videos, category)) == multiset(InCategory(init, category)) + multiset(extra);
    }
  }

  lemma SubsequenceOfInit(a: seq<VideoContent>, b: seq<VideoContent>)
    requires b != [] && IsSubsequence(a, b[..|b| - 1])
    ensures IsSubsequence(a, b)
  {
  }
}
