/**
 * The playback control bar: the play/pause button, whose label is its only
 * state and decides which of two signals a click emits, and the time labels
 * it fills with "m:ss" text from millisecond positions.
 */
module PlayerControls {
  import opened Text

  const PLAY_GLYPH: string := "\U{25B6}"   // "▶"
  const PAUSE_GLYPH: string := "\U{23F8}"  // "⏸"

  /** The two signals a click on the play button can emit. */
  datatype Signal = PlayClicked | PauseClicked

  // ---------------------------------------------------------------------
  // format_time

  /** "m:ss" for a position in milliseconds. Python's `//` and `%` round toward
      minus infinity; for the positive divisors used here that is Dafny's `/` and `%`. */
  function FormatTime(milliseconds: int): string {
    var totalSeconds := milliseconds / 1000;
    ClockLabel(totalSeconds / 60, totalSeconds % 60)
  }

  /** The label reads back as minutes and seconds 0..59 that together make the
      whole seconds of the position. */
  lemma FormatTimeFields(milliseconds: int)
    ensures ParseClock(FormatTime(milliseconds)).Some?
    ensures var (m, s) := ParseClock(FormatTime(milliseconds)).value;
      s < 60 && m * 60 + s == milliseconds / 1000
  {
    var totalSeconds := milliseconds / 1000;
    ClockLabelRoundTrip(totalSeconds / 60, totalSeconds % 60);
  }

  /** Sub-second parts are cut off, not rounded: every position shows the label
      of the whole second it lies in. */
  lemma FormatTimeTruncates(milliseconds: int)
    ensures FormatTime(milliseconds) == FormatTime(milliseconds / 1000 * 1000)
    ensures 0 <= milliseconds < 1000 ==> FormatTime(milliseconds) == "0:00"
  {
    assert milliseconds / 1000 * 1000 / 1000 == milliseconds / 1000;
  }

  // ---------------------------------------------------------------------
  // toggle_play

  /** The label after a click and the signal the click emits. */
  function Toggle(caption: string): (string, Signal) {
    if caption == PLAY_GLYPH then (PAUSE_GLYPH, PlayClicked) else (PLAY_GLYPH, PauseClicked)
  }

  /** Two clicks from a play or pause label restore that label, emitting play then
      pause or pause then play; from any other label they end on the pause glyph. */
  lemma ToggleTwice(caption: string)
    ensures var (first, s1) := Toggle(caption);
      var (second, s2) := Toggle(first);
      && s1 != s2
      && second == (if caption == PLAY_GLYPH then PLAY_GLYPH else PAUSE_GLYPH)
      && (caption == PLAY_GLYPH || caption == PAUSE_GLYPH ==> second == caption)
  {
    assert PLAY_GLYPH != PAUSE_GLYPH by {
      assert PLAY_GLYPH[0] != PAUSE_GLYPH[0];
    }
  }

  class PlayerControls {
    var playLabel: string
    var timeLabel: string
    var totalTimeLabel: string

    /** The play button only ever shows the play or the pause glyph. */
    predicate Valid()
      reads this
    {
      playLabel == PLAY_GLYPH || playLabel == PAUSE_GLYPH
    }

    constructor ()
      ensures Valid() && playLabel == PLAY_GLYPH
      ensures timeLabel == "0:00" && totalTimeLabel == "0:00"
    {
      playLabel := PLAY_GLYPH;
      timeLabel := "0:00";
      totalTimeLabel := "0:00";
    }

    /** A click on the play button: the play glyph turns into the pause glyph and
        emits play; any other label turns into the play glyph and emits pause. */
    method TogglePlay() returns (emitted: Signal)
      modifies this
      ensures old(playLabel) == PLAY_GLYPH ==> playLabel == PAUSE_GLYPH && emitted == PlayClicked
      ensures old(playLabel) != PLAY_GLYPH ==> playLabel == PLAY_GLYPH && emitted == PauseClicked
      ensures (playLabel, emitted) == Toggle(old(playLabel))
      ensures Valid()
      ensures timeLabel == old(timeLabel) && totalTimeLabel == old(totalTimeLabel)
    {
      if playLabel == PLAY_GLYPH {
        playLabel := PAUSE_GLYPH;
        emitted := PlayClicked;
      } else {
        playLabel := PLAY_GLYPH;
        emitted := PauseClicked;
      }
    }

    method SetTimeLabels(current: int, total: int)
      modifies this
      ensures timeLabel == FormatTime(current) && totalTimeLabel == FormatTime(total)
      ensures playLabel == old(playLabel)
    {
      timeLabel := FormatTime(current);
      totalTimeLabel := FormatTime(total);
    }
  }

  /** Two clicks in a row restore the button and emit the two different signals. */
  method ClickTwice(controls: PlayerControls) returns (first: Signal, second: Signal)
    requires controls.Valid()
    modifies controls
    ensures controls.playLabel == old(controls.playLabel) && controls.Valid()
    ensures first != second
    ensures first == (if old(controls.playLabel) == PLAY_GLYPH then PlayClicked else PauseClicked)
  {
    first := controls.TogglePlay();
    second := controls.TogglePlay();
    ToggleTwice(old(controls.playLabel));
  }
}
