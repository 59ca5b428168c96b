/** get_new_content_of_playlist_file: the lines of the mirrored playlist, a header followed by
    the relative path from the playlist to each of its songs. */
module PlaylistContent {
  import opened MirrorErrors
  import opened PurePaths
  import opened RelativePaths

  const Header := "#EXTM3U"

  /** The new content for `playlist` holding `songs`; the first song whose relative path
      raises ends the computation with that error. */
  function NewContent(playlist: Path, songs: seq<Path>): (r: Result<seq<string>>)
    ensures r.Success? <==> forall i :: 0 <= i < |songs| ==> RelativePath(playlist, songs[i]).Success?
    ensures r.Success? ==> |r.value| == |songs| + 1 && r.value[0] == Header
    ensures r.Success? ==> forall i :: 0 <= i < |songs| ==> r.value[i + 1] == RelativePath(playlist, songs[i]).value
    ensures r.Failure? ==> exists i :: 0 <= i < |songs| && RelativePath(playlist, songs[i]) == Failure(r.error)
    decreases |songs|
  {
    if songs == [] then Success([Header])
    else
      var init := songs[..|songs| - 1];
      var last := songs[|songs| - 1];
      match NewContent(playlist, init)
      case Failure(e) => Failure(e)
      case Success(lines) =>
        match RelativePath(playlist, last)
        case Failure(e) => Failure(e)
        case Success(line) => Success(lines + [line])
  }

  /** The error reported is that of the first song that fails. */
  lemma {:induction false} FirstFailureReported(playlist: Path, songs: seq<Path>, i: nat)
    requires i < |songs| && RelativePath(playlist, songs[i]).Failure?
    requires forall j :: 0 <= j < i ==> RelativePath(playlist, songs[j]).Success?
    ensures NewContent(playlist, songs) == Failure(RelativePath(playlist, songs[i]).error)
    decreases |songs|
  {
    var init := songs[..|songs| - 1];
    if i < |songs| - 1 {
      assert init[i] == songs[i];
      forall j | 0 <= j < i
        ensures RelativePath(playlist, init[j]).Success?
      {
        assert init[j] == songs[j];
      }
      FirstFailureReported(playlist, init, i);
    } else {
      forall j | 0 <= j < |init|
        ensures RelativePath(playlist, init[j]).Success?
      {
        assert init[j] == songs[j];
      }
    }
  }

  /** The content for a prefix of the songs is a prefix of the content. */
  lemma {:induction false} NewContentPrefix(playlist: Path, songs: seq<Path>, i: nat)
    requires i <= |songs| && NewContent(playlist, songs).Success?
    ensures NewContent(playlist, songs[..i]) == Success(NewContent(playlist, songs).value[..i + 1])
  {
    var whole := NewContent(playlist, songs).value;
    var part := NewContent(playlist, songs[..i]);
    forall j | 0 <= j < i
      ensures RelativePath(playlist, songs[..i][j]).Success?
    {
      assert songs[..i][j] == songs[j];
    }
    assert part.Success?;
    assert |part.value| == |whole[..i + 1]|;
    forall j | 0 <= j < i + 1
      ensures part.value[j] == whole[..i + 1][j]
    {
      if j > 0 {
        assert songs[..i][j - 1] == songs[j - 1];
      }
    }
    assert part.value == whole[..i + 1];
  }

  /** The loop of the source: start from the header and append one relative path per song. */
  method BuildNewContent(playlist: Path, songs: seq<Path>) returns (r: Result<seq<string>>)
    ensures r == NewContent(playlist, songs)
  {
    var content := [Header];
    for i := 0 to |songs|
      invariant NewContent(playlist, songs[..i]) == Success(content)
    {
      var line := RelativePathToSong(playlist, songs[i]);
      assert songs[..i + 1][..i] == songs[..i];
      if line.Failure? {
        forall j | 0 <= j < i
          ensures RelativePath(playlist, songs[j]).Success?
        {
          assert songs[..i][j] == songs[j];
        }
        FirstFailureReported(playlist, songs, i);
        return Failure(line.error);
      }
      content := content + [line.value];
    }
    assert songs[..|songs|] == songs;
    r := Success(content);
  }

  /** Mirroring playlist and songs under one root into another leaves the content unchanged. */
  lemma {:induction false} NewContentIgnoresBase(base: Path, other: Path, playlist: Path, songs: seq<Path>, moved: seq<Path>)
    requires |moved| == |songs|
    requires forall i :: 0 <= i < |songs| ==> base <= songs[i] && moved[i] == other + songs[i][|base|..]
    ensures NewContent(base + playlist, songs) == NewContent(other + playlist, moved)
    decreases |songs|
  {
    if songs != [] {
      var n := |songs| - 1;
      forall i | 0 <= i < n
        ensures base <= songs[..n][i] && moved[..n][i] == other + songs[..n][i][|base|..]
      {
        assert songs[..n][i] == songs[i] && moved[..n][i] == moved[i];
      }
      NewContentIgnoresBase(base, other, playlist, songs[..n], moved[..n]);
      var song := songs[n][|base|..];
      assert songs[n] == base + song;
      RelativePathIgnoresBase(base, other, playlist, song);
    }
  }

  /** The tested example: a playlist in /home/foo/Music/Playlist holding
      /home/foo/Music/bar.mp3 and /home/foo/Music/Artist1/bar1.mp3. */
  lemma ExampleNewContent()
    ensures NewContent(["/", "home", "foo", "Music", "Playlist", "playlist.m3u"],
                       [["/", "home", "foo", "Music", "bar.mp3"], ["/", "home", "foo", "Music", "Artist1", "bar1.mp3"]])
         == Success(["#EXTM3U", "../bar.mp3", "../Artist1/bar1.mp3"])
  {
    ExampleFirstLine();
    ExampleSecondLine();
    TwoSongs(["/", "home", "foo", "Music", "Playlist", "playlist.m3u"],
             ["/", "home", "foo", "Music", "bar.mp3"], ["/", "home", "foo", "Music", "Artist1", "bar1.mp3"],
             "../bar.mp3", "../Artist1/bar1.mp3");
  }

  /** The content for two songs: the header and their two relative paths. */
  lemma TwoSongs(playlist: Path, first: Path, second: Path, a: string, b: string)
    requires RelativePath(playlist, first) == Success(a) && RelativePath(playlist, second) == Success(b)
    ensures NewContent(playlist, [first, second]) == Success([Header, a, b])
  {
    var songs := [first, second];
    assert songs[0] == first && songs[1] == second;
    var r := NewContent(playlist, songs);
    assert r.Success?;
    assert r.value[1] == a && r.value[2] == b;
    assert r.value == [Header, a, b];
  }

  lemma ExampleFirstLine()
    ensures RelativePath(["/", "home", "foo", "Music", "Playlist", "playlist.m3u"], ["/", "home", "foo", "Music", "bar.mp3"])
         == Success("../bar.mp3")
  {
    var base := ["/", "home", "foo", "Music"];
    assert ["/", "home", "foo", "Music", "Playlist", "playlist.m3u"] == base + ["Playlist", "playlist.m3u"];
    assert ["/", "home", "foo", "Music", "bar.mp3"] == base + ["bar.mp3"];
    SpellOneUp();
    RelativeAfterFork(base, ["Playlist", "playlist.m3u"], ["bar.mp3"], "../bar.mp3");
  }

  lemma ExampleSecondLine()
    ensures RelativePath(["/", "home", "foo", "Music", "Playlist", "playlist.m3u"], ["/", "home", "foo", "Music", "Artist1", "bar1.mp3"])
         == Success("../Artist1/bar1.mp3")
  {
    var base := ["/", "home", "foo", "Music"];
    assert ["/", "home", "foo", "Music", "Playlist", "playlist.m3u"] == base + ["Playlist", "playlist.m3u"];
    assert ["/", "home", "foo", "Music", "Artist1", "bar1.mp3"] == base + ["Artist1", "bar1.mp3"];
    SpellArtistLine();
    RelativeAfterFork(base, ["Playlist", "playlist.m3u"], ["Artist1", "bar1.mp3"], "../Artist1/bar1.mp3");
  }

  lemma SpellArtistLine()
    ensures UpLinks(1) + SlashJoin(["Artist1", "bar1.mp3"]) == "../Artist1/bar1.mp3"
  {
    assert UpLinks(1) == UpLinks(0) + "../" == "../";
    assert SlashJoin(["Artist1", "bar1.mp3"]) == "Artist1/bar1.mp3";
  }
}
