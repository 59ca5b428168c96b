/** create_destination_file and get_destination_path_of_playlist_file: the mirrored location of
    a file is the destination root followed by the file's path relative to the music root. */
module Destinations {
  import opened MirrorErrors
  import opened PurePaths
  import opened RelativePaths

  /** create_destination_file: ValueError (from relative_to) when the song is not under the
      music root; otherwise a path that, taken relative to the destination root, is the song's
      path relative to the music root. */
  function DestinationFile(song: Path, musicRoot: Path, destination: Path): (r: Result<Path>)
    ensures r.Success? <==> IsRelativeTo(song, musicRoot)
    ensures r.Failure? ==> r.error == NotInSubpath
    ensures r.Success? ==> r.value == destination + song[|musicRoot|..]
    ensures r.Success? && WellFormed(song) ==> RelativeTo(r.value, destination) == RelativeTo(song, musicRoot)
  {
    match RelativeTo(song, musicRoot)
    case Failure(e) => Failure(e)
    case Success(rel) =>
      assert destination + rel <= destination + rel;
      assert (destination + rel)[|destination|..] == rel;
      Success(destination + rel)
  }

  /** get_destination_path_of_playlist_file: the playlist file rebased in the same way. */
  function DestinationPathOfPlaylist(musicRoot: Path, playlist: Path, destination: Path): (r: Result<Path>)
    ensures r.Success? <==> IsRelativeTo(playlist, musicRoot)
    ensures r.Failure? ==> r.error == NotInSubpath
    ensures r.Success? ==> r.value == destination + playlist[|musicRoot|..]
    ensures r.Success? && WellFormed(playlist) ==> RelativeTo(r.value, destination) == RelativeTo(playlist, musicRoot)
  {
    match RelativeTo(playlist, musicRoot)
    case Failure(e) => Failure(e)
    case Success(rel) =>
      assert (destination + rel)[|destination|..] == rel;
      Success(destination + rel)
  }

  /** The destination of every song of a playlist, in order. */
  function DestinationFiles(songs: seq<Path>, musicRoot: Path, destination: Path): (r: seq<Path>)
    requires forall i :: 0 <= i < |songs| ==> IsRelativeTo(songs[i], musicRoot)
    ensures |r| == |songs|
    ensures forall i :: 0 <= i < |songs| ==> DestinationFile(songs[i], musicRoot, destination) == Success(r[i])
  {
    seq(|songs|, i requires 0 <= i < |songs| => DestinationFile(songs[i], musicRoot, destination).value)
  }

  /** Rebasing back from the destination to the music root gives the song again. */
  lemma DestinationFileInverse(song: Path, musicRoot: Path, destination: Path)
    requires IsRelativeTo(song, musicRoot) && WellFormed(song)
    ensures DestinationFile(DestinationFile(song, musicRoot, destination).value, destination, musicRoot) == Success(song)
  {
    var mirrored := DestinationFile(song, musicRoot, destination).value;
    assert RelativeTo(mirrored, destination) == Success(song[|musicRoot|..]);
    assert musicRoot + song[|musicRoot|..] == song;
  }

  /** Mirroring playlist and song together leaves the relative path between them unchanged:
      the content computed against the source playlist is right at the mirrored playlist. */
  lemma MirroringKeepsRelativePath(musicRoot: Path, destination: Path, playlist: Path, song: Path)
    requires IsRelativeTo(playlist, musicRoot) && IsRelativeTo(song, musicRoot)
    ensures RelativePath(DestinationPathOfPlaylist(musicRoot, playlist, destination).value,
                         DestinationFile(song, musicRoot, destination).value)
         == RelativePath(playlist, song)
  {
    var p := playlist[|musicRoot|..];
    var s := song[|musicRoot|..];
    assert playlist == musicRoot + p && song == musicRoot + s;
    RelativePathIgnoresBase(destination, musicRoot, p, s);
  }

  /** /home/foo/Music/Artist/bar.mp3 under /home/foo/Music mirrors to /mnt/Music/Artist/bar.mp3. */
  lemma ExampleDestinationFile()
    ensures DestinationFile(["/", "home", "foo", "Music", "Artist", "bar.mp3"], ["/", "home", "foo", "Music"], ["/", "mnt", "Music"])
         == Success(["/", "mnt", "Music", "Artist", "bar.mp3"])
  {
    var song := ["/", "home", "foo", "Music", "Artist", "bar.mp3"];
    var root := ["/", "home", "foo", "Music"];
    assert song[..4] == root;
    assert song[4..] == ["Artist", "bar.mp3"];
    assert RelativeTo(song, root) == Success(["Artist", "bar.mp3"]);
    assert ["/", "mnt", "Music"] + ["Artist", "bar.mp3"] == ["/", "mnt", "Music", "Artist", "bar.mp3"];
  }

  /** /home/foo/Music/Playlists/playlist.m3u mirrors to /mnt/Music/Playlists/playlist.m3u. */
  lemma ExampleDestinationPathOfPlaylist()
    ensures DestinationPathOfPlaylist(["/", "home", "foo", "Music"], ["/", "home", "foo", "Music", "Playlists", "playlist.m3u"], ["/", "mnt", "Music"])
         == Success(["/", "mnt", "Music", "Playlists", "playlist.m3u"])
  {
    var playlist := ["/", "home", "foo", "Music", "Playlists", "playlist.m3u"];
    var root := ["/", "home", "foo", "Music"];
    assert playlist[..4] == root;
    assert playlist[4..] == ["Playlists", "playlist.m3u"];
    assert RelativeTo(playlist, root) == Success(["Playlists", "playlist.m3u"]);
    assert ["/", "mnt", "Music"] + ["Playlists", "playlist.m3u"] == ["/", "mnt", "Music", "Playlists", "playlist.m3u"];
  }
}
