/**
 * The catalog manager: the loaded catalog, the queries over it, the choice of
 * the videos a channel selection shows, and the cache of downloaded
 * thumbnails. Downloads are not performed: the outcome a download would have
 * is a parameter.
 */
module VideoManager {
  import opened Wrappers
  import opened Catalog
  import opened Thumbnail

  /** The outcome of a thumbnail download. */
  datatype Fetch = Downloaded(texture: Texture) | Failed

  /** `string.IsNullOrEmpty`. */
  predicate IsNullOrEmpty(s: Option<string>) {
    s.None? || s.value == ""
  }

  class VideoDataManager {
    var videoData: Option<VideoData>
    var thumbnailCache: map<string, Texture>

    constructor ()
      ensures videoData.None? && thumbnailCache == map[]
    {
      videoData := None;
      thumbnailCache := map[];
    }

    /** Takes in the decoded catalog (`None` when the text does not decode, which
        leaves the loaded catalog as it was) and builds the channel list and the
        thumbnail grid from it. `channelsWired` and `thumbnailsWired` say whether
        the container and prefab of each are set; an unset one skips that step.
        Returns whether the catalog was announced (which reads its metadata), the
        channels a button is built for and the videos a tile is built for, `None`
        for a step that is skipped or not reached. Any null dereference ends the
        whole load, after the catalog is already stored. */
    method LoadCatalog(decoded: Option<VideoData>, channelsWired: bool, thumbnailsWired: bool)
      returns (announced: bool, channelButtons: Option<seq<Channel>>, tiles: Option<seq<VideoContent>>)
      modifies this
      ensures decoded.None? ==> videoData == old(videoData)
      ensures decoded.Some? ==> videoData == decoded
      ensures announced <==> decoded.Some? && decoded.value.metadata.Some?
      ensures channelButtons.Some? <==> announced && channelsWired && decoded.value.channels.Some?
      ensures channelButtons.Some? ==> channelButtons.value == decoded.value.channels.value
      ensures tiles.Some? <==> announced && thumbnailsWired && decoded.value.channels.Some?
      ensures tiles.Some? ==> tiles.value == AllContent(decoded.value.channels.value)
      ensures thumbnailCache == old(thumbnailCache)
    {
      announced, channelButtons, tiles := false, None, None;
      if decoded.None? {
        return;
      }
      videoData := decoded;
      if decoded.value.metadata.None? {
        return;
      }
      announced := true;
      if channelsWired {
        if decoded.value.channels.None? {
          return;
        }
        channelButtons := Some(decoded.value.channels.value);
      }
      if thumbnailsWired {
        var shown := VideosToShow(None);
        if shown.None? {
          return;
        }
        tiles := shown;
      }
    }

    /** The channel list, or no channels when the catalog or its channel list is null. */
    function Channels(): seq<Channel>
      reads this
    {
      if videoData.Some? && videoData.value.channels.Some? then videoData.value.channels.value else []
    }

    method GetAllChannels() returns (channels: seq<Channel>)
      ensures videoData.None? || videoData.value.channels.None? ==> channels == []
      ensures videoData.Some? && videoData.value.channels.Some? ==> channels == videoData.value.channels.value
    {
      if videoData.Some? && videoData.value.channels.Some? {
        channels := videoData.value.channels.value;
      } else {
        channels := [];
      }
    }

    /** All videos: the channel contents joined in channel order (see
        `AllContentLength` and `AllContentMembers` for what that list holds). */
    method GetAllVideos() returns (allVideos: seq<VideoContent>)
      ensures allVideos == AllContent(Channels())
      ensures videoData.None? || videoData.value.channels.None? ==> allVideos == []
    {
      allVideos := [];
      if videoData.Some? && videoData.value.channels.Some? {
        var channels := videoData.value.channels.value;
        for i := 0 to |channels|
          invariant allVideos == AllContent(channels[..i])
        {
          allVideos := allVideos + channels[i].content;
          assert channels[..i + 1][..i] == channels[..i];
        }
        assert channels[..|channels|] == channels;
      }
    }

    /** The videos of one category: exactly the elements of `GetAllVideos` with
        that category, in the same order (see `InCategoryExact`). */
    method GetVideosByCategory(category: Option<string>) returns (categoryVideos: seq<VideoContent>)
      ensures categoryVideos == InCategory(AllContent(Channels()), category)
    {
      categoryVideos := [];
      if videoData.Some? && videoData.value.channels.Some? {
        var channels := videoData.value.channels.value;
        for i := 0 to |channels|
          invariant categoryVideos == InCategory(AllContent(channels[..i]), category)
        {
          var content := channels[i].content;
          ghost var before := categoryVideos;
          for j := 0 to |content|
            invariant categoryVideos == before + InCategory(content[..j], category)
          {
            var video := content[j];
            if video.category == category {
              categoryVideos := categoryVideos + [video];
            }
            assert content[..j + 1][..j] == content[..j];
          }
          assert categoryVideos == before + InCategory(content, category) by {
            assert content[..|content|] == content;
          }
          assert AllContent(channels[..i + 1]) == AllContent(channels[..i]) + content by {
            assert channels[..i + 1][..i] == channels[..i];
          }
          InCategoryAppend(AllContent(channels[..i]), content, category);
        }
        assert channels[..|channels|] == channels;
      }
    }

    /** The videos the thumbnail grid shows for a channel selection: all videos
        when no channel id is given, otherwise the content of the first channel
        with that id, or nothing when no channel has it. `None` when the catalog
        or its channel list is null (the grid then fails with a null dereference). */
    method VideosToShow(channelId: Option<string>) returns (videosToShow: Option<seq<VideoContent>>)
      ensures videoData.None? || videoData.value.channels.None? ==> videosToShow.None?
      ensures videoData.Some? && videoData.value.channels.Some? ==> videosToShow.Some?
      ensures videosToShow.Some? && IsNullOrEmpty(channelId) ==> videosToShow.value == AllContent(Channels())
      ensures videosToShow.Some? && !IsNullOrEmpty(channelId) ==>
        var channels := Channels();
        || (exists k :: 0 <= k < |channels| && channels[k].id == channelId
              && (forall j :: 0 <= j < k ==> channels[j].id != channelId)
              && videosToShow.value == channels[k].content)
        || ((forall j :: 0 <= j < |channels| ==> channels[j].id != channelId) && videosToShow.value == [])
    {
      if videoData.None? || videoData.value.channels.None? {
        return None;
      }
      var channels := videoData.value.channels.value;
      if IsNullOrEmpty(channelId) {
        var all := GetAllVideos();
        return Some(all);
      }
      var k := 0;
      while k < |channels| && channels[k].id != channelId
        invariant 0 <= k <= |channels|
        invariant forall j :: 0 <= j < k ==> channels[j].id != channelId
      {
        k := k + 1;
      }
      if k < |channels| {
        videosToShow := Some(channels[k].content);
      } else {
        videosToShow := Some([]);
      }
    }

    /** Shows the thumbnail at `url` on `button`. A cached texture is used without
        a download; otherwise the download is issued and, when it succeeds, its
        texture is cached under `url` and shown. Returns whether a download was issued. */
    method LoadThumbnail(url: string, button: ThumbnailButton, fetch: Fetch) returns (requested: bool)
      modifies this, button
      ensures videoData == old(videoData)
      ensures requested <==> url !in old(thumbnailCache)
      ensures !requested ==> thumbnailCache == old(thumbnailCache)
                             && button.ThumbnailApplied(Some(old(thumbnailCache)[url]))
      ensures requested && fetch.Downloaded? ==>
                thumbnailCache == old(thumbnailCache)[url := fetch.texture]
                && button.ThumbnailApplied(Some(fetch.texture))
      ensures requested && fetch.Failed? ==>
                thumbnailCache == old(thumbnailCache) && unchanged(button)
      // the cache only grows, and an entry once cached is never replaced
      ensures old(thumbnailCache).Keys <= thumbnailCache.Keys
      ensures forall u :: u in old(thumbnailCache) ==> thumbnailCache[u] == old(thumbnailCache)[u]
    {
      if url in thumbnailCache {
        button.SetThumbnail(Some(thumbnailCache[url]));
        return false;
      }
      requested := true;
      match fetch
      case Downloaded(texture) =>
        thumbnailCache := thumbnailCache[url := texture];
        button.SetThumbnail(Some(texture));
      case Failed =>
        // a failed download only logs a warning
    }

    method OnDestroy()
      modifies this
      ensures thumbnailCache == map[]
      ensures videoData == old(videoData)
    {
      thumbnailCache := map[];
    }
  }
}
