/** get_relative_path_to_song_from_playlist_file: the path, relative to a playlist file, under
    which the playlist refers to a song file. */
module RelativePaths {
  import opened MirrorErrors
  import opened PurePaths

  /** Length of the longest common prefix of two component lists. */
  function CommonPrefixLength(a: Path, b: Path): (k: nat)
    ensures k <= |a| && k <= |b|
    ensures a[..k] == b[..k]
    ensures k < |a| && k < |b| ==> a[k] != b[k]
  {
    if a == [] || b == [] || a[0] != b[0] then 0
    else 1 + CommonPrefixLength(a[1..], b[1..])
  }

  /** A common prefix that cannot be extended is the longest one. */
  lemma CommonPrefixLengthIs(a: Path, b: Path, k: nat)
    requires k <= |a| && k <= |b| && a[..k] == b[..k]
    requires k < |a| && k < |b| ==> a[k] != b[k]
    ensures CommonPrefixLength(a, b) == k
  {
    var c := CommonPrefixLength(a, b);
    forall i | 0 <= i < k ensures a[i] == b[i] {
      assert a[..k][i] == b[..k][i];
    }
    forall i | 0 <= i < c ensures a[i] == b[i] {
      assert a[..c][i] == b[..c][i];
    }
  }

  /** When one path is a prefix of the other, the whole of it is the common prefix. */
  lemma CommonPrefixLengthOfPrefix(a: Path, b: Path)
    requires b <= a
    ensures CommonPrefixLength(a, b) == |b|
  {
    CommonPrefixLengthIs(a, b, |b|);
  }

  /** A shared base adds its own length to the common prefix. */
  lemma {:induction false} CommonPrefixLengthWithBase(base: Path, a: Path, b: Path)
    ensures CommonPrefixLength(base + a, base + b) == |base| + CommonPrefixLength(a, b)
  {
    if base != [] {
      assert (base + a)[1..] == base[1..] + a;
      assert (base + b)[1..] == base[1..] + b;
      CommonPrefixLengthWithBase(base[1..], a, b);
    } else {
      assert base + a == a && base + b == b;
    }
  }

  /** "../" once per directory level of the playlist below the divergence point. */
  function UpLinks(n: nat): (r: string)
    ensures |r| == 3 * n
  {
    if n == 0 then [] else UpLinks(n - 1) + "../"
  }

  /** n copies of the piece "../". */
  function UpPieces(n: nat): (r: seq<string>)
    ensures |r| == n && forall i :: 0 <= i < n ==> r[i] == "../"
  {
    seq(n, _ => "../")
  }

  /** The pieces handed to os.path.join: as many "../" as the playlist has directory levels
      below the longest common prefix (none when that count is negative), then the song's
      components from the divergence point on. */
  function RelativePieces(playlist: Path, song: Path): seq<string> {
    var k := CommonPrefixLength(playlist, song);
    var ups := |playlist| - 1 - k;
    UpPieces(if ups > 0 then ups else 0) + song[k..]
  }

  /** The relative path from a playlist to a song. Identical paths raise ValueError; a song
      that is the playlist's own directory leaves os.path.join without argument (TypeError). */
  function RelativePath(playlist: Path, song: Path): (r: Result<string>)
    ensures playlist == song ==> r == Failure(SameFile)
    ensures r == Failure(NoPathParts) <==> playlist != song && song <= playlist && |song| + 1 == |playlist|
    ensures r.Failure? ==> r.error == SameFile || r.error == NoPathParts
  {
    if playlist == song then Failure(SameFile)
    else
      var k := CommonPrefixLength(playlist, song);
      assert song <= playlist ==> k == |song| by {
        if song <= playlist {
          CommonPrefixLengthOfPrefix(playlist, song);
        }
      }
      OsPathJoin(RelativePieces(playlist, song))
  }

  /** The loop of the source: advance over the common components, then assemble the pieces. */
  method RelativePathToSong(playlist: Path, song: Path) returns (r: Result<string>)
    ensures r == RelativePath(playlist, song)
  {
    if playlist == song {
      return Failure(SameFile);
    }
    var k := 0;
    while k < |playlist| && k < |song|
      invariant k <= |playlist| && k <= |song|
      invariant playlist[..k] == song[..k]
    {
      if playlist[k] != song[k] {
        break;
      }
      k := k + 1;
    }
    CommonPrefixLengthIs(playlist, song, k);
    var remaining := |playlist| - 1 - k;
    var pieces: seq<string> := [];
    pieces := pieces + UpPieces(if remaining > 0 then remaining else 0);
    pieces := pieces + song[k..];
    assert pieces == RelativePieces(playlist, song);
    r := OsPathJoin(pieces);
  }

  /** A shared base does not change the pieces handed to os.path.join. */
  lemma RelativePiecesWithBase(base: Path, playlist: Path, song: Path)
    ensures RelativePieces(base + playlist, base + song) == RelativePieces(playlist, song)
  {
    CommonPrefixLengthWithBase(base, playlist, song);
    var k := CommonPrefixLength(playlist, song);
    assert (base + song)[|base| + k..] == song[k..];
  }

  lemma SameWithBase(base: Path, playlist: Path, song: Path)
    ensures base + playlist == base + song <==> playlist == song
  {
    if base + playlist == base + song {
      assert playlist == (base + playlist)[|base|..];
      assert song == (base + song)[|base|..];
    }
  }

  /** Swapping the common base of both paths for another leaves the relative path unchanged. */
  lemma RelativePathIgnoresBase(base: Path, other: Path, playlist: Path, song: Path)
    ensures RelativePath(base + playlist, base + song) == RelativePath(other + playlist, other + song)
  {
    RelativePiecesWithBase(base, playlist, song);
    RelativePiecesWithBase(other, playlist, song);
    SameWithBase(base, playlist, song);
    SameWithBase(other, playlist, song);
  }

  /** "/".join with one more name at the end. */
  lemma {:induction false} SlashJoinSnoc(pieces: seq<string>, last: string)
    requires pieces != []
    ensures SlashJoin(pieces + [last]) == SlashJoin(pieces) + "/" + last
  {
    if |pieces| == 1 {
      assert (pieces + [last])[1..] == [last];
    } else {
      assert (pieces + [last])[1..] == pieces[1..] + [last];
      SlashJoinSnoc(pieces[1..], last);
    }
  }

  /** "/".join of names ends with the last name's last character. */
  lemma {:induction false} SlashJoinEnd(pieces: seq<string>)
    requires pieces != [] && pieces[|pieces| - 1] != []
    ensures SlashJoin(pieces) != []
    ensures SlashJoin(pieces)[|SlashJoin(pieces)| - 1] == pieces[|pieces| - 1][|pieces[|pieces| - 1]| - 1]
  {
    if |pieces| > 1 {
      SlashJoinEnd(pieces[1..]);
    }
  }

  /** os.path.join with one more piece at the end. */
  lemma OsPathJoinSnoc(pieces: seq<string>, last: string)
    requires pieces != []
    ensures OsPathJoin(pieces + [last]) == Success(JoinStep(OsPathJoin(pieces).value, last))
  {
    assert (pieces + [last])[..|pieces|] == pieces;
  }

  lemma {:induction false} UpLinksEnd(n: nat)
    requires n > 0
    ensures UpLinks(n)[3 * n - 1] == '/'
  {
  }

  /** os.path.join over "../" links alone concatenates them. */
  lemma {:induction false} JoinUpLinks(n: nat)
    requires n > 0
    ensures OsPathJoin(UpPieces(n)) == Success(UpLinks(n))
  {
    if n > 1 {
      assert UpPieces(n) == UpPieces(n - 1) + ["../"];
      JoinUpLinks(n - 1);
      OsPathJoinSnoc(UpPieces(n - 1), "../");
      UpLinksEnd(n - 1);
    } else {
      assert UpPieces(n) == ["../"];
      assert UpLinks(n) == UpLinks(0) + "../" == "../";
    }
  }

  /** Appending a name to what os.path.join built so far: directly after a trailing "/",
      with a "/" between otherwise. */
  lemma JoinNameAfterLinks(n: nat, init: seq<string>, last: string)
    requires n + |init| > 0
    requires init != [] ==> IsName(init[|init| - 1])
    requires last != [] && last[0] != '/'
    requires OsPathJoin(UpPieces(n) + init) == Success(UpLinks(n) + SlashJoin(init))
    ensures OsPathJoin(UpPieces(n) + (init + [last])) == Success(UpLinks(n) + SlashJoin(init + [last]))
  {
    assert UpPieces(n) + (init + [last]) == (UpPieces(n) + init) + [last];
    OsPathJoinSnoc(UpPieces(n) + init, last);
    if init == [] {
      JoinNameAfterUpLinks(n, last);
    } else {
      JoinNameAfterName(UpLinks(n), init, last);
    }
  }

  lemma JoinNameAfterUpLinks(n: nat, last: string)
    requires n > 0
    requires last != [] && last[0] != '/'
    ensures JoinStep(UpLinks(n) + SlashJoin([]), last) == UpLinks(n) + SlashJoin([] + [last])
  {
    UpLinksEnd(n);
    assert [] + [last] == [last];
    assert UpLinks(n) + SlashJoin([]) == UpLinks(n);
  }

  lemma JoinNameAfterName(prefix: string, init: seq<string>, last: string)
    requires init != [] && IsName(init[|init| - 1])
    requires last != [] && last[0] != '/'
    ensures JoinStep(prefix + SlashJoin(init), last) == prefix + SlashJoin(init + [last])
  {
    JoinedEndsInName(prefix, init);
    JoinStepAfterName(prefix + SlashJoin(init), last);
    SlashJoinSnoc(init, last);
    JoinRegroup(prefix, SlashJoin(init), last);
  }

  lemma JoinedEndsInName(prefix: string, init: seq<string>)
    requires init != [] && IsName(init[|init| - 1])
    ensures var path := prefix + SlashJoin(init); path != [] && path[|path| - 1] != '/'
  {
    SlashJoinEnd(init);
    var joined := SlashJoin(init);
    assert joined[|joined| - 1] in init[|init| - 1];
    assert (prefix + joined)[|prefix + joined| - 1] == joined[|joined| - 1];
  }

  lemma JoinStepAfterName(path: string, last: string)
    requires path != [] && path[|path| - 1] != '/' && last != [] && last[0] != '/'
    ensures JoinStep(path, last) == path + "/" + last
  {
  }

  lemma JoinRegroup(prefix: string, joined: string, last: string)
    ensures prefix + joined + "/" + last == prefix + (joined + "/" + last)
  {
  }

  /** os.path.join over "../" links and then names: the links, then the names joined by "/". */
  lemma {:induction false} JoinUpLinksAndNames(n: nat, names: seq<string>)
    requires n + |names| > 0
    requires forall i :: 0 <= i < |names| ==> IsName(names[i])
    ensures OsPathJoin(UpPieces(n) + names) == Success(UpLinks(n) + SlashJoin(names))
    decreases |names|
  {
    if names == [] {
      assert UpPieces(n) + names == UpPieces(n);
      assert UpLinks(n) + SlashJoin(names) == UpLinks(n);
      JoinUpLinks(n);
    } else {
      var init := names[..|names| - 1];
      var last := names[|names| - 1];
      assert names == init + [last];
      if n + |init| == 0 {
        assert UpPieces(n) + names == [last] && names == [last];
        assert UpLinks(n) + SlashJoin(names) == last;
      } else {
        JoinUpLinksAndNames(n, init);
        JoinNameAfterLinks(n, init, last);
      }
    }
  }

  /** What the relative path looks like: "../" once per directory level of the playlist
      below the longest common prefix, then the song's remaining names joined by "/". */
  lemma RelativePathText(playlist: Path, song: Path, k: nat, text: string)
    requires IsAbsolute(playlist) && IsAbsolute(song) && playlist[0] == song[0] && WellFormed(song)
    requires playlist != song && !(song <= playlist && |song| + 1 == |playlist|)
    requires k == CommonPrefixLength(playlist, song)
    requires text == UpLinks(if |playlist| - 1 - k > 0 then |playlist| - 1 - k else 0) + SlashJoin(song[k..])
    ensures RelativePath(playlist, song) == Success(text)
  {
    var n := if |playlist| - 1 - k > 0 then |playlist| - 1 - k else 0;
    assert song <= playlist ==> k == |song| by {
      if song <= playlist {
        CommonPrefixLengthOfPrefix(playlist, song);
      }
    }
    assert k >= 1;
    SuffixNames(song, k);
    JoinUpLinksAndNames(n, song[k..]);
    RelativePathOfPieces(playlist, song, text);
  }

  lemma SuffixNames(p: Path, k: nat)
    requires WellFormed(p) && 1 <= k <= |p|
    ensures forall i :: 0 <= i < |p[k..]| ==> IsName(p[k..][i])
  {
    forall i | 0 <= i < |p[k..]|
      ensures IsName(p[k..][i])
    {
      assert p[k..][i] == p[k + i];
    }
  }

  /** Identical playlist and song paths are refused. */
  lemma SameFileRefused(path: Path)
    ensures RelativePath(path, path) == Failure(SameFile)
  {
  }

  /** Playlist and song share `base` and part there: the path climbs out of the playlist's
      directories below the base and descends into the song's. */
  lemma RelativeAfterFork(base: Path, playlistRest: Path, songRest: Path, text: string)
    requires IsAbsolute(base)
    requires playlistRest != [] && songRest != [] && playlistRest[0] != songRest[0]
    requires forall i :: 0 <= i < |songRest| ==> IsName(songRest[i])
    requires text == UpLinks(|playlistRest| - 1) + SlashJoin(songRest)
    ensures RelativePath(base + playlistRest, base + songRest) == Success(text)
  {
    ForkPieces(base, playlistRest, songRest);
    ForkDiffers(base, playlistRest, songRest);
    JoinUpLinksAndNames(|playlistRest| - 1, songRest);
    RelativePathOfPieces(base + playlistRest, base + songRest, text);
  }

  /** Away from the two error cases the relative path is what os.path.join makes of the pieces. */
  lemma RelativePathOfPieces(playlist: Path, song: Path, text: string)
    requires playlist != song
    requires OsPathJoin(RelativePieces(playlist, song)) == Success(text)
    ensures RelativePath(playlist, song) == Success(text)
  {
  }

  lemma ForkPieces(base: Path, playlistRest: Path, songRest: Path)
    requires playlistRest != [] && songRest != [] && playlistRest[0] != songRest[0]
    ensures RelativePieces(base + playlistRest, base + songRest) == UpPieces(|playlistRest| - 1) + songRest
  {
    RelativePiecesWithBase(base, playlistRest, songRest);
    assert CommonPrefixLength(playlistRest, songRest) == 0;
    assert songRest[0..] == songRest;
  }

  lemma ForkDiffers(base: Path, playlistRest: Path, songRest: Path)
    requires playlistRest != [] && songRest != [] && playlistRest[0] != songRest[0]
    ensures base + playlistRest != base + songRest && !(base + songRest <= base + playlistRest)
  {
    assert (base + playlistRest)[|base|] != (base + songRest)[|base|];
  }

  /** A song directly in the music root, seen from a playlist one directory below it. */
  lemma ExampleSongInMusicRoot()
    ensures RelativePath(["/", "home", "foo", "music", "Playlists", "myplaylist.m3u"],
                         ["/", "home", "foo", "music", "bar.mp3"]) == Success("../bar.mp3")
  {
    var base := ["/", "home", "foo", "music"];
    assert ["/", "home", "foo", "music", "Playlists", "myplaylist.m3u"] == base + ["Playlists", "myplaylist.m3u"];
    assert ["/", "home", "foo", "music", "bar.mp3"] == base + ["bar.mp3"];
    SpellOneUp();
    RelativeAfterFork(base, ["Playlists", "myplaylist.m3u"], ["bar.mp3"], "../bar.mp3");
  }

  /** A song in a sibling directory of the playlist's directory. */
  lemma ExampleSongInSubfolder()
    ensures RelativePath(["/", "home", "foo", "music", "Playlists", "myplaylist.m3u"],
                         ["/", "home", "foo", "music", "Artist1", "bar.mp3"]) == Success("../Artist1/bar.mp3")
  {
    var base := ["/", "home", "foo", "music"];
    assert ["/", "home", "foo", "music", "Playlists", "myplaylist.m3u"] == base + ["Playlists", "myplaylist.m3u"];
    assert ["/", "home", "foo", "music", "Artist1", "bar.mp3"] == base + ["Artist1", "bar.mp3"];
    SpellSubfolder();
    RelativeAfterFork(base, ["Playlists", "myplaylist.m3u"], ["Artist1", "bar.mp3"], "../Artist1/bar.mp3");
  }

  /** A playlist two directories below the song's directory. */
  lemma ExamplePlaylistInSubfolder()
    ensures RelativePath(["/", "home", "foo", "music", "Playlists", "Subfolder", "myplaylist.m3u"],
                         ["/", "home", "foo", "music", "bar.mp3"]) == Success("../../bar.mp3")
  {
    var base := ["/", "home", "foo", "music"];
    assert ["/", "home", "foo", "music", "Playlists", "Subfolder", "myplaylist.m3u"]
        == base + ["Playlists", "Subfolder", "myplaylist.m3u"];
    assert ["/", "home", "foo", "music", "bar.mp3"] == base + ["bar.mp3"];
    SpellTwoUps();
    RelativeAfterFork(base, ["Playlists", "Subfolder", "myplaylist.m3u"], ["bar.mp3"], "../../bar.mp3");
  }

  /** Only the root is shared: the path climbs to the root and descends again. */
  lemma ExampleNoCommonPart()
    ensures RelativePath(["/", "home", "foo", "music", "Playlists", "myplaylist.m3u"],
                         ["/", "media", "foo", "music", "bar.mp3"]) == Success("../../../../media/foo/music/bar.mp3")
  {
    assert ["/", "home", "foo", "music", "Playlists", "myplaylist.m3u"]
        == ["/"] + ["home", "foo", "music", "Playlists", "myplaylist.m3u"];
    assert ["/", "media", "foo", "music", "bar.mp3"] == ["/"] + ["media", "foo", "music", "bar.mp3"];
    ForkAtRoot();
  }

  lemma ForkAtRoot()
    ensures RelativePath(["/"] + ["home", "foo", "music", "Playlists", "myplaylist.m3u"],
                         ["/"] + ["media", "foo", "music", "bar.mp3"]) == Success("../../../../media/foo/music/bar.mp3")
  {
    SpellNoCommonPart();
    RelativeAfterFork(["/"], ["home", "foo", "music", "Playlists", "myplaylist.m3u"], ["media", "foo", "music", "bar.mp3"],
                      "../../../../media/foo/music/bar.mp3");
  }

  /** The strings the examples above spell out. */
  lemma SpellOneUp()
    ensures UpLinks(1) + SlashJoin(["bar.mp3"]) == "../bar.mp3"
  {
    assert UpLinks(1) == UpLinks(0) + "../" == "../";
  }

  lemma SpellTwoUps()
    ensures UpLinks(2) + SlashJoin(["bar.mp3"]) == "../../bar.mp3"
  {
    assert UpLinks(2) == UpLinks(1) + "../" == UpLinks(0) + "../" + "../" == "../../";
  }

  lemma SpellSubfolder()
    ensures UpLinks(1) + SlashJoin(["Artist1", "bar.mp3"]) == "../Artist1/bar.mp3"
  {
    assert UpLinks(1) == UpLinks(0) + "../" == "../";
    assert SlashJoin(["Artist1", "bar.mp3"]) == "Artist1/bar.mp3";
  }

  lemma SpellFourUps()
    ensures UpLinks(4) == "../../../../"
  {
    assert UpLinks(2) == UpLinks(1) + "../" == UpLinks(0) + "../" + "../" == "../../";
    assert UpLinks(4) == UpLinks(3) + "../" == UpLinks(2) + "../" + "../";
  }

  lemma SpellMediaPath()
    ensures SlashJoin(["media", "foo", "music", "bar.mp3"]) == "media/foo/music/bar.mp3"
  {
    SlashJoinFront(["music", "bar.mp3"], "bar.mp3", "music/bar.mp3");
    SlashJoinFront(["foo", "music", "bar.mp3"], "music/bar.mp3", "foo/music/bar.mp3");
    SlashJoinFront(["media", "foo", "music", "bar.mp3"], "foo/music/bar.mp3", "media/foo/music/bar.mp3");
  }

  /** "/".join puts the first name, a slash, and the join of the others. */
  lemma SlashJoinFront(names: seq<string>, restText: string, text: string)
    requires |names| >= 2 && SlashJoin(names[1..]) == restText && text == names[0] + "/" + restText
    ensures SlashJoin(names) == text
  {
  }

  lemma SpellNoCommonPart()
    ensures UpLinks(4) + SlashJoin(["media", "foo", "music", "bar.mp3"]) == "../../../../media/foo/music/bar.mp3"
  {
    SpellFourUps();
    SpellMediaPath();
    assert "../../../../" + "media/foo/music/bar.mp3" == "../../../../media/foo/music/bar.mp3";
  }
}
