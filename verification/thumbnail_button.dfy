/**
 * A thumbnail tile of the video catalog: its label rules (category display
 * name, "m:ss" duration) and the state it keeps (the video it shows, the
 * selected flag, and the visibility of its loading indicator and play button).
 * Every UI object the tile writes to is an `Option`: `None` when the reference
 * is not set in the scene, otherwise the part of that object's state the tile
 * writes (a text, an active flag, an image's sprite and colour).
 */
module Thumbnail {
  import opened Wrappers
  import opened Text
  import opened Catalog

  // ---------------------------------------------------------------------
  // Category display name

  /** The label of a category: the four known categories, matched in any letter
      case, get their display label; any other category is shown as it is. */
  function CategoryDisplayName(category: Option<string>): string {
    if category.None? then "Unknown"
    else
      var key := ToLower(category.value);
      if key == "episodes" then "Episode"
      else if key == "clips" then "Clip"
      else if key == "music" then "Music Video"
      else if key == "shorts" then "Short Film"
      else category.value
  }

  /** The label table, case-insensitively, and the null fallback. */
  lemma CategoryLabels(s: string)
    ensures CategoryDisplayName(None) == "Unknown"
    ensures SpellsIgnoringCase(s, "episodes") ==> CategoryDisplayName(Some(s)) == "Episode"
    ensures SpellsIgnoringCase(s, "clips") ==> CategoryDisplayName(Some(s)) == "Clip"
    ensures SpellsIgnoringCase(s, "music") ==> CategoryDisplayName(Some(s)) == "Music Video"
    ensures SpellsIgnoringCase(s, "shorts") ==> CategoryDisplayName(Some(s)) == "Short Film"
  {
    ToLowerMatchesKey(s, "episodes");
    ToLowerMatchesKey(s, "clips");
    ToLowerMatchesKey(s, "music");
    ToLowerMatchesKey(s, "shorts");
  }

  /** Any other category comes back unchanged, in its original letter case. */
  lemma CategoryFallThrough(s: string)
    requires !SpellsIgnoringCase(s, "episodes") && !SpellsIgnoringCase(s, "clips")
    requires !SpellsIgnoringCase(s, "music") && !SpellsIgnoringCase(s, "shorts")
    ensures CategoryDisplayName(Some(s)) == s
  {
    ToLowerMatchesKey(s, "episodes");
    ToLowerMatchesKey(s, "clips");
    ToLowerMatchesKey(s, "music");
    ToLowerMatchesKey(s, "shorts");
  }

  // ---------------------------------------------------------------------
  // Duration label

  /** "m:ss" for a positive duration in seconds, the empty string otherwise.
      The duration is a real number; float rounding is not modelled. */
  function FormatDuration(duration: real): string {
    if duration <= 0.0 then ""
    else
      var minutes := (duration / 60.0).Floor;
      // C#'s `%` on a positive float: what is left after whole minutes
      var remainder := duration - 60.0 * minutes as real;
      ClockLabel(minutes, remainder.Floor)
  }

  /** A positive duration reads back as whole minutes and seconds 0..59 that
      together make the whole seconds of the duration; sub-second parts are cut. */
  lemma FormatDurationFields(duration: real)
    requires duration > 0.0
    ensures ParseClock(FormatDuration(duration)).Some?
    ensures var (m, s) := ParseClock(FormatDuration(duration)).value;
      0 <= m && s < 60 && m * 60 + s == duration.Floor
  {
    var minutes := (duration / 60.0).Floor;
    var remainder := duration - 60.0 * minutes as real;
    var whole := duration.Floor;
    assert 60.0 * minutes as real <= duration < 60.0 * minutes as real + 60.0;
    assert remainder.Floor == whole - 60 * minutes;
    ClockLabelRoundTrip(minutes, remainder.Floor);
  }

  lemma FormatDurationNonPositive(duration: real)
    requires duration <= 0.0
    ensures FormatDuration(duration) == ""
  {
  }

  // ---------------------------------------------------------------------
  // The tile

  datatype Color = Color(r: real, g: real, b: real, a: real)

  datatype Image = Image(sprite: Option<Texture>, color: Color)

  /** The new state of a referenced UI object, or None when it is not referenced. */
  function Wired<T>(slot: Option<T>, x: T): Option<T> {
    if slot.Some? then Some(x) else None
  }

  class ThumbnailButton {
    var thumbnailImage: Option<Image>
    var titleText: Option<string>
    var categoryText: Option<string>
    var durationText: Option<string>
    var playButton: Option<bool>        // whether the play button is active
    var loadingIndicator: Option<bool>  // whether the loading indicator is active

    const normalColor: Color
    const hoverColor: Color
    const selectedColor: Color

    var videoData: Option<VideoContent>
    var isSelected: bool

    /** When both are referenced, exactly one of loading indicator and play button is shown. */
    predicate OneIndicatorShown()
      reads this
    {
      loadingIndicator.Some? && playButton.Some? ==> loadingIndicator.value != playButton.value
    }

    /** The effect of `SetThumbnail(texture)`: with an image and a texture, the
        sprite is set, the loading indicator hidden and the play button shown;
        otherwise nothing changes. */
    twostate predicate ThumbnailApplied(texture: Option<Texture>)
      reads this
    {
      && videoData == old(videoData) && isSelected == old(isSelected)
      && titleText == old(titleText) && categoryText == old(categoryText)
      && durationText == old(durationText)
      && if old(thumbnailImage).Some? && texture.Some? then
           && thumbnailImage == Some(old(thumbnailImage).value.(sprite := texture))
           && loadingIndicator == Wired(old(loadingIndicator), false)
           && playButton == Wired(old(playButton), true)
         else
           && thumbnailImage == old(thumbnailImage)
           && loadingIndicator == old(loadingIndicator)
           && playButton == old(playButton)
    }

    constructor (thumbnailImage: Option<Image>, titleText: Option<string>, categoryText: Option<string>,
                 durationText: Option<string>, playButton: Option<bool>, loadingIndicator: Option<bool>)
      ensures this.thumbnailImage == thumbnailImage && this.titleText == titleText
      ensures this.categoryText == categoryText && this.durationText == durationText
      ensures this.playButton == playButton && this.loadingIndicator == loadingIndicator
      ensures normalColor == Color(1.0, 1.0, 1.0, 1.0)
      ensures hoverColor == Color(0.9, 0.9, 0.9, 1.0)
      ensures selectedColor == Color(0.8, 0.8, 1.0, 1.0)
      ensures videoData.None? && !isSelected
    {
      this.thumbnailImage := thumbnailImage;
      this.titleText := titleText;
      this.categoryText := categoryText;
      this.durationText := durationText;
      this.playButton := playButton;
      this.loadingIndicator := loadingIndicator;
      normalColor := Color(1.0, 1.0, 1.0, 1.0);
      hoverColor := Color(0.9, 0.9, 0.9, 1.0);
      selectedColor := Color(0.8, 0.8, 1.0, 1.0);
      videoData := None;
      isSelected := false;
    }

    /** Binds the tile to a video and refreshes its labels: after it, the loading
        indicator is shown and the play button hidden. */
    method Initialize(video: Option<VideoContent>)
      modifies this
      ensures videoData == video && isSelected == old(isSelected) && thumbnailImage == old(thumbnailImage)
      ensures video.None? ==>
        && titleText == old(titleText) && categoryText == old(categoryText) && durationText == old(durationText)
        && loadingIndicator == old(loadingIndicator) && playButton == old(playButton)
      ensures video.Some? ==>
        && titleText == Wired(old(titleText), video.value.title)
        && categoryText == Wired(old(categoryText), CategoryDisplayName(video.value.category))
        && durationText == Wired(old(durationText), FormatDuration(video.value.duration))
        && loadingIndicator == Wired(old(loadingIndicator), true)
        && playButton == Wired(old(playButton), false)
      ensures video.Some? ==> OneIndicatorShown()
    {
      videoData := video;
      UpdateUI();
    }

    method UpdateUI()
      modifies this
      ensures videoData == old(videoData) && isSelected == old(isSelected) && thumbnailImage == old(thumbnailImage)
      ensures videoData.None? ==>
        && titleText == old(titleText) && categoryText == old(categoryText) && durationText == old(durationText)
        && loadingIndicator == old(loadingIndicator) && playButton == old(playButton)
      ensures videoData.Some? ==>
        && titleText == Wired(old(titleText), videoData.value.title)
        && categoryText == Wired(old(categoryText), CategoryDisplayName(videoData.value.category))
        && durationText == Wired(old(durationText), FormatDuration(videoData.value.duration))
        && loadingIndicator == Wired(old(loadingIndicator), true)
        && playButton == Wired(old(playButton), false)
    {
      if videoData.None? {
        return;
      }
      var video := videoData.value;
      if titleText.Some? {
        titleText := Some(video.title);
      }
      if categoryText.Some? {
        categoryText := Some(CategoryDisplayName(video.category));
      }
      if durationText.Some? {
        durationText := Some(FormatDuration(video.duration));
      }
      if loadingIndicator.Some? {
        loadingIndicator := Some(true);
      }
      if playButton.Some? {
        playButton := Some(false);
      }
    }

    method SetThumbnail(texture: Option<Texture>)
      modifies this
      ensures ThumbnailApplied(texture)
      ensures old(OneIndicatorShown()) ==> OneIndicatorShown()
    {
      if thumbnailImage.Some? && texture.Some? {
        thumbnailImage := Some(thumbnailImage.value.(sprite := texture));
        if loadingIndicator.Some? {
          loadingIndicator := Some(false);
        }
        if playButton.Some? {
          playButton := Some(true);
        }
      }
    }

    /** The video a click reports, if any: a click reports only once a video is bound. */
    method OnPointerClick() returns (selected: Option<VideoContent>)
      ensures selected.Some? <==> videoData.Some?
      ensures selected.Some? ==> selected.value == videoData.value
    {
      if videoData.Some? {
        selected := Some(videoData.value);
      } else {
        selected := None;
      }
    }

    method SetSelected(selected: bool)
      modifies this
      ensures isSelected == selected
      ensures thumbnailImage.Some? <==> old(thumbnailImage).Some?
      ensures thumbnailImage.Some? ==>
        && thumbnailImage.value.sprite == old(thumbnailImage).value.sprite
        && (thumbnailImage.value.color == selectedColor <==> selected || selectedColor == normalColor)
        && thumbnailImage.value.color == if selected then selectedColor else normalColor
      ensures videoData == old(videoData) && titleText == old(titleText) && categoryText == old(categoryText)
      ensures durationText == old(durationText) && playButton == old(playButton)
      ensures loadingIndicator == old(loadingIndicator)
    {
      isSelected := selected;
      UpdateVisualState();
    }

    method UpdateVisualState()
      modifies this
      ensures thumbnailImage ==
        if old(thumbnailImage).Some? then
          Some(old(thumbnailImage).value.(color := if isSelected then selectedColor else normalColor))
        else None
      ensures isSelected == old(isSelected) && videoData == old(videoData) && titleText == old(titleText)
      ensures categoryText == old(categoryText) && durationText == old(durationText)
      ensures playButton == old(playButton) && loadingIndicator == old(loadingIndicator)
    {
      if thumbnailImage.Some? {
        var color := if isSelected then selectedColor else normalColor;
        thumbnailImage := Some(thumbnailImage.value.(color := color));
      }
    }

    method IsSelected() returns (selected: bool)
      ensures selected == isSelected
    {
      selected := isSelected;
    }

    method GetVideoData() returns (video: Option<VideoContent>)
      ensures video == videoData
    {
      video := videoData;
    }
  }

  /** Selecting or deselecting a tile and then asking it: the tile reports the
      flag it was given, keeps its video, and shows the matching colour. */
  method SelectThenAsk(tile: ThumbnailButton, selected: bool) returns (reported: bool)
    modifies tile
    ensures reported == selected
    ensures tile.videoData == old(tile.videoData)
    ensures tile.thumbnailImage.Some? ==>
      tile.thumbnailImage.value.color == if selected then tile.selectedColor else tile.normalColor
  {
    tile.SetSelected(selected);
    reported := tile.IsSelected();
  }
}
