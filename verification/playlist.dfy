/**
 * The playlist store: a map from playlist name to an ordered list of track
 * paths, updated in place, plus the audio-file filter of the directory scan.
 * Saving to and loading from the JSON file are I/O; loading is modelled by
 * what the file turned out to hold.
 */
module Playlists {
  import opened Wrappers
  import opened Sequences
  import opened Text

  type Track = string

  /** The suffixes `scan_directory` keeps, compared after lower-casing. */
  const AUDIO_EXTENSIONS: set<string> := {".mp3", ".wav", ".ogg", ".flac", ".m4a"}

  predicate NoDuplicates(tracks: seq<Track>) {
    forall i, j :: 0 <= i < j < |tracks| ==> tracks[i] != tracks[j]
  }

  // ---------------------------------------------------------------------
  // The list updates of add_to_playlist and remove_from_playlist

  /** The list after `add_to_playlist`: the track goes to the end unless it is already there. */
  function WithTrack(tracks: seq<Track>, track: Track): seq<Track> {
    if track in tracks then tracks else tracks + [track]
  }

  /** The list after `remove_from_playlist`: Python's `list.remove`, guarded by `in`. */
  function WithoutTrack(tracks: seq<Track>, track: Track): seq<Track> {
    if tracks == [] then []
    else if tracks[0] == track then tracks[1..]
    else [tracks[0]] + WithoutTrack(tracks[1..], track)
  }

  /** Adding puts the track at the end when it was absent, changes nothing when it
      was present, and a second add of the same track changes nothing. */
  lemma WithTrackAppendsOnce(tracks: seq<Track>, track: Track)
    ensures track in WithTrack(tracks, track)
    ensures track !in tracks ==> WithTrack(tracks, track) == tracks + [track]
    ensures track in tracks ==> WithTrack(tracks, track) == tracks
    ensures WithTrack(WithTrack(tracks, track), track) == WithTrack(tracks, track)
  {
  }

  lemma WithTrackKeepsNoDuplicates(tracks: seq<Track>, track: Track)
    requires NoDuplicates(tracks)
    ensures NoDuplicates(WithTrack(tracks, track))
  {
  }

  /** Removing drops exactly the first occurrence of the track, and nothing when it is absent. */
  lemma {:induction false} WithoutTrackDropsFirst(tracks: seq<Track>, track: Track)
    ensures track !in tracks ==> WithoutTrack(tracks, track) == tracks
    ensures track in tracks ==>
              var i := IndexOf(tracks, track);
              WithoutTrack(tracks, track) == tracks[..i] + tracks[i + 1..]
  {
    if tracks != [] && tracks[0] != track {
      WithoutTrackDropsFirst(tracks[1..], track);
      if track in tracks {
        var i := IndexOf(tracks, track);
        assert IndexOf(tracks[1..], track) == i - 1;
        assert tracks[..i] == [tracks[0]] + tracks[1..][..i - 1];
        assert tracks[i + 1..] == tracks[1..][i..];
      } else {
        assert tracks == [tracks[0]] + tracks[1..];
      }
    }
  }

  /** Removing takes exactly one copy of the track out of the list, when there is one. */
  lemma {:induction false} WithoutTrackMultiset(tracks: seq<Track>, track: Track)
    ensures multiset(WithoutTrack(tracks, track)) == multiset(tracks) - multiset{track}
  {
    if tracks != [] {
      assert tracks == [tracks[0]] + tracks[1..];
      if tracks[0] != track {
        WithoutTrackMultiset(tracks[1..], track);
      }
    }
  }

  /** On a duplicate-free list, removing keeps it duplicate-free and leaves no copy behind. */
  lemma {:induction false} WithoutTrackKeepsNoDuplicates(tracks: seq<Track>, track: Track)
    requires NoDuplicates(tracks)
    ensures NoDuplicates(WithoutTrack(tracks, track))
    ensures track !in WithoutTrack(tracks, track)
  {
    if tracks != [] {
      var tail := tracks[1..];
      assert NoDuplicates(tail) by {
        forall a, b | 0 <= a < b < |tail| ensures tail[a] != tail[b] {
          assert tail[a] == tracks[a + 1] && tail[b] == tracks[b + 1];
        }
      }
      assert tracks[0] !in tail by {
        forall k | 0 <= k < |tail| ensures tail[k] != tracks[0] {
          assert tail[k] == tracks[k + 1];
        }
      }
      if tracks[0] != track {
        WithoutTrackKeepsNoDuplicates(tail, track);
        WithoutTrackMultiset(tail, track);
        var rest := WithoutTrack(tail, track);
        assert tracks[0] !in multiset(rest);
        var r := [tracks[0]] + rest;
        forall a, b | 0 <= a < b < |r| ensures r[a] != r[b] {
          if a == 0 {
            assert r[b] == rest[b - 1];
          } else {
            assert r[a] == rest[a - 1] && r[b] == rest[b - 1];
          }
        }
      }
    }
  }

  /** Removing a track that was just added to a list not holding it restores the list. */
  lemma RemoveUndoesAdd(tracks: seq<Track>, track: Track)
    requires track !in tracks
    ensures WithoutTrack(WithTrack(tracks, track), track) == tracks
  {
    WithoutTrackDropsFirst(tracks + [track], track);
    assert IndexOf(tracks + [track], track) == |tracks|;
    assert (tracks + [track])[..|tracks|] == tracks;
  }

  // ---------------------------------------------------------------------
  // The audio-file filter of scan_directory

  /** `pathlib`'s suffix: from the last '.' on, when that dot is neither the
      first nor the last character of the name; otherwise empty. */
  function Suffix(name: string): string {
    var i := LastIndexOf(name, '.');
    if 0 < i < |name| - 1 then name[i..] else ""
  }

  predicate IsAudioFile(name: string) {
    ToLower(Suffix(name)) in AUDIO_EXTENSIONS
  }

  /** A non-empty suffix is a tail of the name that starts with its only dot and
      leaves a non-empty stem; the suffix is empty exactly when no such tail exists. */
  lemma SuffixShape(name: string)
    ensures var r := Suffix(name);
      r != "" ==> 2 <= |r| < |name| && r == name[|name| - |r|..] && r[0] == '.' && '.' !in r[1..]
    ensures Suffix(name) != "" <==>
      |name| > 0 && name[|name| - 1] != '.' && exists k :: 0 < k < |name| - 1 && name[k] == '.'
  {
    var i := LastIndexOf(name, '.');
    var r := Suffix(name);
    if r != "" {
      assert r[1..] == name[i + 1..];
      assert forall k :: 0 <= k < |r[1..]| ==> r[1..][k] == name[i + 1 + k];
    }
    if |name| > 0 && name[|name| - 1] != '.' && exists k :: 0 < k < |name| - 1 && name[k] == '.' {
      var k :| 0 < k < |name| - 1 && name[k] == '.';
      assert k <= i;
    }
  }

  /** `name` ends, in any letter case, with the extension `ext` and has a non-empty stem. */
  predicate EndsWithExtension(name: string, ext: string) {
    |name| > |ext| && ToLower(name[|name| - |ext|..]) == ext
  }

  /** For an extension made of one leading dot and non-dot characters, the
      lower-cased suffix equals it exactly when the name ends with it in any case. */
  lemma SuffixIsExtension(name: string, ext: string)
    requires |ext| >= 2 && ext[0] == '.' && forall k :: 1 <= k < |ext| ==> ext[k] != '.'
    ensures ToLower(Suffix(name)) == ext <==> EndsWithExtension(name, ext)
  {
    var n, len := |name|, |ext|;
    var i := LastIndexOf(name, '.');
    if EndsWithExtension(name, ext) {
      var tail := name[n - len..];
      assert LowerChar(tail[0]) == '.';
      assert name[n - len] == '.';
      forall k | n - len < k < n
        ensures name[k] != '.'
      {
        assert LowerChar(tail[k - (n - len)]) == ext[k - (n - len)];
      }
      assert i == n - len;
      assert Suffix(name) == tail;
    }
    if ToLower(Suffix(name)) == ext {
      assert |Suffix(name)| == len;
      assert i == n - len;
    }
  }

  /** The scan keeps a file exactly when its name ends, in any case, with one of
      the five audio extensions after a non-empty stem. */
  lemma IsAudioFileIff(name: string)
    ensures IsAudioFile(name) <==>
      EndsWithExtension(name, ".mp3") || EndsWithExtension(name, ".wav") ||
      EndsWithExtension(name, ".ogg") || EndsWithExtension(name, ".flac") ||
      EndsWithExtension(name, ".m4a")
  {
    SuffixIsExtension(name, ".mp3");
    SuffixIsExtension(name, ".wav");
    SuffixIsExtension(name, ".ogg");
    SuffixIsExtension(name, ".flac");
    SuffixIsExtension(name, ".m4a");
  }

  // ---------------------------------------------------------------------
  // scan_directory over what the directory walk yields

  /** One step of the directory walk: a directory and the names of the files in it. */
  datatype WalkStep = WalkStep(root: string, files: seq<string>)

  /** `os.path.join(root, name)` on POSIX paths. */
  function JoinPath(root: string, name: string): string {
    if |name| > 0 && name[0] == '/' then name
    else if root == [] || root[|root| - 1] == '/' then root + name
    else root + "/" + name
  }

  /** The joined paths of the audio files among `files`, in order. */
  function AudioPathsIn(root: string, files: seq<string>): seq<string> {
    if files == [] then []
    else
      var last := files[|files| - 1];
      AudioPathsIn(root, files[..|files| - 1]) + (if IsAudioFile(last) then [JoinPath(root, last)] else [])
  }

  /** The scan result: the audio files of each step of the walk, in walk order. */
  function AudioPaths(walk: seq<WalkStep>): seq<string> {
    if walk == [] then []
    else AudioPaths(walk[..|walk| - 1]) + AudioPathsIn(walk[|walk| - 1].root, walk[|walk| - 1].files)
  }

  lemma {:induction false} AudioPathsInMembers(root: string, files: seq<string>, p: string)
    ensures p in AudioPathsIn(root, files) <==>
      exists j :: 0 <= j < |files| && IsAudioFile(files[j]) && p == JoinPath(root, files[j])
  {
    if files != [] {
      var init := files[..|files| - 1];
      AudioPathsInMembers(root, init, p);
      if exists j :: 0 <= j < |files| && IsAudioFile(files[j]) && p == JoinPath(root, files[j]) {
        var j :| 0 <= j < |files| && IsAudioFile(files[j]) && p == JoinPath(root, files[j]);
        if j < |init| {
          assert init[j] == files[j];
        }
      }
    }
  }

  /** A path is in the scan result exactly when it joins some walked directory
      with an audio file listed in it. */
  lemma {:induction false} AudioPathsMembers(walk: seq<WalkStep>, p: string)
    ensures p in AudioPaths(walk) <==>
      exists i, j :: 0 <= i < |walk| && 0 <= j < |walk[i].files| &&
        IsAudioFile(walk[i].files[j]) && p == JoinPath(walk[i].root, walk[i].files[j])
  {
    if walk != [] {
      var init, last := walk[..|walk| - 1], walk[|walk| - 1];
      AudioPathsMembers(init, p);
      AudioPathsInMembers(last.root, last.files, p);
      if exists i, j :: 0 <= i < |walk| && 0 <= j < |walk[i].files| &&
           IsAudioFile(walk[i].files[j]) && p == JoinPath(walk[i].root, walk[i].files[j]) {
        var i, j :| 0 <= i < |walk| && 0 <= j < |walk[i].files| &&
           IsAudioFile(walk[i].files[j]) && p == JoinPath(walk[i].root, walk[i].files[j]);
        if i < |init| {
          assert init[i] == walk[i];
        }
      }
      if p in AudioPathsIn(last.root, last.files) {
        var j :| 0 <= j < |last.files| && IsAudioFile(last.files[j]) && p == JoinPath(last.root, last.files[j]);
        assert walk[|walk| - 1] == last;
      }
      if p in AudioPaths(init) {
        var i, j :| 0 <= i < |init| && 0 <= j < |init[i].files| &&
           IsAudioFile(init[i].files[j]) && p == JoinPath(init[i].root, init[i].files[j]);
        assert walk[i] == init[i];
      }
    }
  }

  // ---------------------------------------------------------------------
  // The store

  /** What the playlists file turned out to hold when the store was loaded. */
  datatype StoredPlaylists =
    | Missing
    | Undecodable
    | Decoded(playlists: map<string, seq<Track>>)

  class PlaylistManager {
    var playlists: map<string, seq<Track>>

    /** Every playlist is free of repeated tracks. */
    predicate DuplicateFree()
      reads this
    {
      forall name :: name in playlists ==> NoDuplicates(playlists[name])
    }

    constructor (stored: StoredPlaylists)
      ensures playlists == if stored.Decoded? then stored.playlists else map[]
    {
      playlists := map[];
      new;
      LoadPlaylists(stored);
    }

    /** A file that is missing or does not decode leaves the store empty. */
    method LoadPlaylists(stored: StoredPlaylists)
      modifies this
      ensures playlists == if stored.Decoded? then stored.playlists else map[]
    {
      match stored
      case Decoded(m) => playlists := m;
      case Undecodable => playlists := map[];
      case Missing => playlists := map[];
    }

    method CreatePlaylist(name: string) returns (created: bool)
      modifies this
      ensures created <==> name !in old(playlists)
      ensures playlists == if created then old(playlists)[name := []] else old(playlists)
      ensures old(DuplicateFree()) ==> DuplicateFree()
    {
      if name in playlists {
        return false;
      }
      playlists := playlists[name := []];
      return true;
    }

    method DeletePlaylist(name: string) returns (deleted: bool)
      modifies this
      ensures deleted <==> name in old(playlists)
      ensures playlists.Keys == old(playlists).Keys - {name}
      ensures forall other :: other in playlists ==> playlists[other] == old(playlists)[other]
      ensures old(DuplicateFree()) ==> DuplicateFree()
    {
      if name !in playlists {
        return false;
      }
      playlists := playlists - {name};
      return true;
    }

    method AddToPlaylist(playlistName: string, track: Track) returns (found: bool)
      modifies this
      ensures found <==> playlistName in old(playlists)
      ensures playlists ==
        if found then old(playlists)[playlistName := WithTrack(old(playlists)[playlistName], track)]
        else old(playlists)
      ensures old(DuplicateFree()) ==> DuplicateFree()
    {
      if playlistName !in playlists {
        return false;
      }
      var tracks := playlists[playlistName];
      if track !in tracks {
        playlists := playlists[playlistName := tracks + [track]];
      }
      found := true;
      if old(DuplicateFree()) {
        WithTrackKeepsNoDuplicates(tracks, track);
      }
    }

    method RemoveFromPlaylist(playlistName: string, track: Track) returns (found: bool)
      modifies this
      ensures found <==> playlistName in old(playlists)
      ensures playlists ==
        if found then old(playlists)[playlistName := WithoutTrack(old(playlists)[playlistName], track)]
        else old(playlists)
      ensures old(DuplicateFree()) ==> DuplicateFree()
    {
      if playlistName !in playlists {
        return false;
      }
      var tracks := playlists[playlistName];
      if track in tracks {
        playlists := playlists[playlistName := WithoutTrack(tracks, track)];
      } else {
        WithoutTrackDropsFirst(tracks, track);
      }
      found := true;
      if old(DuplicateFree()) {
        WithoutTrackKeepsNoDuplicates(tracks, track);
      }
    }

    method GetPlaylist(name: string) returns (tracks: Option<seq<Track>>)
      ensures tracks.None? <==> name !in playlists
      ensures tracks.Some? ==> tracks.value == playlists[name]
    {
      if name in playlists {
        tracks := Some(playlists[name]);
      } else {
        tracks := None;
      }
    }

    method GetAllPlaylists() returns (all: map<string, seq<Track>>)
      ensures all.Keys == playlists.Keys
      ensures forall name :: name in all ==> all[name] == playlists[name]
    {
      all := map name | name in playlists :: playlists[name];
    }

    /** The audio files of the walk, in walk order. */
    method ScanDirectory(walk: seq<WalkStep>) returns (musicFiles: seq<string>)
      ensures musicFiles == AudioPaths(walk)
    {
      musicFiles := [];
      for i := 0 to |walk|
        invariant musicFiles == AudioPaths(walk[..i])
      {
        var step := walk[i];
        ghost var before := musicFiles;
        for j := 0 to |step.files|
          invariant musicFiles == before + AudioPathsIn(step.root, step.files[..j])
        {
          var file := step.files[j];
          if ToLower(Suffix(file)) in AUDIO_EXTENSIONS {
            musicFiles := musicFiles + [JoinPath(step.root, file)];
          }
          assert step.files[..j + 1][..j] == step.files[..j];
        }
        assert step.files[..|step.files|] == step.files;
        assert walk[..i + 1][..i] == walk[..i];
      }
      assert walk[..|walk|] == walk;
    }
  }
}
