/** get_list_of_song_path_from_playlist_content: the song paths named by a playlist's lines. */
module PlaylistParser {
  import opened PurePaths
  import opened Text

  /** A stripped line names a song unless it is blank or a comment ('#', which includes the
      #EXTM3U header and #EXTINF lines). */
  predicate IsEntry(line: string) {
    line != [] && line[0] != '#'
  }

  /** The path a stripped entry line stands for: an absolute entry as written, a relative one
      joined to the playlist's folder and resolved against the working directory `cwd`. */
  function EntryPath(playlist: Path, entry: string, cwd: Path): Path
    requires IsAbsolute(cwd)
  {
    var named := Parts(entry);
    if IsAbsolute(named) then named else Resolve(cwd, Parent(playlist) + named)
  }

  /** What one line of the file contributes: the path of an entry that exists, else nothing. */
  function LineSongs(line: string, playlist: Path, cwd: Path, existing: set<Path>): (r: seq<Path>)
    requires IsAbsolute(cwd)
    ensures |r| <= 1 && (r != [] ==> r[0] in existing)
  {
    var s := Strip(line);
    if IsEntry(s) && EntryPath(playlist, s, cwd) in existing then [EntryPath(playlist, s, cwd)] else []
  }

  /** An entry whose parts are relative is taken from the playlist's folder. */
  lemma RelativeEntryPath(entry: string, playlist: Path, cwd: Path, named: Path)
    requires IsAbsolute(cwd) && Parts(entry) == named && !IsAbsolute(named)
    ensures EntryPath(playlist, entry, cwd) == Resolve(cwd, Parent(playlist) + named)
  {
  }

  /** A line that strip() leaves as it is, that is an entry and whose parts are the absolute
      path `named` contributes that path, when it exists. */
  lemma AbsoluteEntrySongs(line: string, playlist: Path, cwd: Path, existing: set<Path>, named: Path)
    requires IsAbsolute(cwd) && Strip(line) == line && IsEntry(line) && Parts(line) == named
    requires IsAbsolute(named) && named in existing
    ensures LineSongs(line, playlist, cwd, existing) == [named]
  {
  }

  /** Such a line whose parts are relative contributes the song they lead to from the
      playlist's folder, when it exists. */
  lemma RelativeEntrySongs(line: string, playlist: Path, cwd: Path, existing: set<Path>, named: Path, song: Path)
    requires IsAbsolute(cwd) && Strip(line) == line && IsEntry(line) && Parts(line) == named
    requires !IsAbsolute(named) && Resolve(cwd, Parent(playlist) + named) == song && song in existing
    ensures LineSongs(line, playlist, cwd, existing) == [song]
  {
  }

  /** The song paths of `lines`, in order; `existing` is the set of paths for which
      Path.exists() holds, and an entry outside it is only logged. */
  function SongPaths(lines: seq<string>, playlist: Path, cwd: Path, existing: set<Path>): (r: seq<Path>)
    requires IsAbsolute(cwd)
    ensures |r| <= |lines|
    ensures forall i :: 0 <= i < |r| ==> r[i] in existing
  {
    if lines == [] then []
    else LineSongs(lines[0], playlist, cwd, existing) + SongPaths(lines[1..], playlist, cwd, existing)
  }

  /** The parse is line by line: the songs of two blocks of lines are those of the first block
      followed by those of the second. */
  lemma {:induction false} SongPathsAppend(a: seq<string>, b: seq<string>, playlist: Path, cwd: Path, existing: set<Path>)
    requires IsAbsolute(cwd)
    ensures SongPaths(a + b, playlist, cwd, existing) == SongPaths(a, playlist, cwd, existing) + SongPaths(b, playlist, cwd, existing)
    decreases |a|
  {
    if a != [] {
      assert (a + b)[1..] == a[1..] + b;
      SongPathsAppend(a[1..], b, playlist, cwd, existing);
      assert a[0] == (a + b)[0];
      PathsAssoc(LineSongs(a[0], playlist, cwd, existing), SongPaths(a[1..], playlist, cwd, existing),
                 SongPaths(b, playlist, cwd, existing));
    } else {
      assert a + b == b;
    }
  }

  lemma PathsAssoc(a: seq<Path>, b: seq<Path>, c: seq<Path>)
    ensures a + (b + c) == (a + b) + c
  {
  }

  /** Blank lines, comments and the header contribute nothing wherever they stand. */
  lemma SkippedLineIgnored(before: seq<string>, line: string, after: seq<string>, playlist: Path, cwd: Path, existing: set<Path>)
    requires IsAbsolute(cwd)
    requires !IsEntry(Strip(line))
    ensures SongPaths(before + [line] + after, playlist, cwd, existing) == SongPaths(before + after, playlist, cwd, existing)
  {
    SongPathsAppend(before + [line], after, playlist, cwd, existing);
    SongPathsAppend(before, [line], playlist, cwd, existing);
    SongPathsAppend(before, after, playlist, cwd, existing);
  }

  /** A path is returned exactly when it exists and some entry line stands for it. */
  lemma {:induction false} SongPathsMembers(lines: seq<string>, playlist: Path, cwd: Path, existing: set<Path>, song: Path)
    requires IsAbsolute(cwd)
    ensures song in SongPaths(lines, playlist, cwd, existing) <==>
      song in existing && exists i :: 0 <= i < |lines| && IsEntry(Strip(lines[i])) && EntryPath(playlist, Strip(lines[i]), cwd) == song
    decreases |lines|
  {
    if lines != [] {
      SongPathsMembers(lines[1..], playlist, cwd, existing, song);
      var here := IsEntry(Strip(lines[0])) && EntryPath(playlist, Strip(lines[0]), cwd) == song;
      if exists i :: 0 <= i < |lines| && IsEntry(Strip(lines[i])) && EntryPath(playlist, Strip(lines[i]), cwd) == song {
        var i :| 0 <= i < |lines| && IsEntry(Strip(lines[i])) && EntryPath(playlist, Strip(lines[i]), cwd) == song;
        if i > 0 {
          assert lines[1..][i - 1] == lines[i];
        }
      }
      if exists i :: 0 <= i < |lines| - 1 && IsEntry(Strip(lines[1..][i])) && EntryPath(playlist, Strip(lines[1..][i]), cwd) == song {
        var i :| 0 <= i < |lines| - 1 && IsEntry(Strip(lines[1..][i])) && EntryPath(playlist, Strip(lines[1..][i]), cwd) == song;
        assert lines[i + 1] == lines[1..][i];
      }
    }
  }

  /** Number of lines that are entries once stripped. */
  function EntryCount(lines: seq<string>): nat {
    if lines == [] then 0 else (if IsEntry(Strip(lines[0])) then 1 else 0) + EntryCount(lines[1..])
  }

  /** At most one song per entry line. */
  lemma {:induction false} SongPathsBound(lines: seq<string>, playlist: Path, cwd: Path, existing: set<Path>)
    requires IsAbsolute(cwd)
    ensures |SongPaths(lines, playlist, cwd, existing)| <= EntryCount(lines)
    decreases |lines|
  {
    if lines != [] {
      SongPathsBound(lines[1..], playlist, cwd, existing);
    }
  }

  /** Lines each contributing exactly one known song give exactly those songs, in order. */
  lemma {:induction false} SongPathsOfEach(lines: seq<string>, playlist: Path, cwd: Path, existing: set<Path>, songs: seq<Path>)
    requires IsAbsolute(cwd)
    requires |lines| == |songs|
    requires forall i :: 0 <= i < |lines| ==> LineSongs(lines[i], playlist, cwd, existing) == [songs[i]]
    ensures SongPaths(lines, playlist, cwd, existing) == songs
    decreases |lines|
  {
    if lines != [] {
      assert LineSongs(lines[0], playlist, cwd, existing) == [songs[0]];
      forall i | 0 <= i < |lines| - 1
        ensures LineSongs(lines[1..][i], playlist, cwd, existing) == [songs[1..][i]]
      {
        assert lines[1..][i] == lines[i + 1];
      }
      SongPathsOfEach(lines[1..], playlist, cwd, existing, songs[1..]);
    }
  }

  lemma SongPathsOfLine(line: string, playlist: Path, cwd: Path, existing: set<Path>)
    requires IsAbsolute(cwd)
    ensures SongPaths([line], playlist, cwd, existing) == LineSongs(line, playlist, cwd, existing)
  {
    var lines := [line];
    assert lines[1..] == [];
    assert SongPaths(lines[1..], playlist, cwd, existing) == [];
  }

  lemma SongPathsSnoc(lines: seq<string>, i: nat, playlist: Path, cwd: Path, existing: set<Path>)
    requires IsAbsolute(cwd) && i < |lines|
    ensures SongPaths(lines[..i + 1], playlist, cwd, existing)
         == SongPaths(lines[..i], playlist, cwd, existing) + LineSongs(lines[i], playlist, cwd, existing)
  {
    assert lines[..i + 1] == lines[..i] + [lines[i]];
    SongPathsOfLine(lines[i], playlist, cwd, existing);
    SongPathsAppend(lines[..i], [lines[i]], playlist, cwd, existing);
  }

  /** The parse as the source performs it: one pass over the lines, appending. */
  method ListSongPaths(lines: seq<string>, playlist: Path, cwd: Path, existing: set<Path>) returns (paths: seq<Path>)
    requires IsAbsolute(cwd)
    ensures paths == SongPaths(lines, playlist, cwd, existing)
  {
    paths := [];
    for i := 0 to |lines|
      invariant paths == SongPaths(lines[..i], playlist, cwd, existing)
    {
      var line := Strip(lines[i]);
      ghost var before := paths;
      if IsEntry(line) {
        var path := Parts(line);
        if !IsAbsolute(path) {
          path := Resolve(cwd, Parent(playlist) + path);
        }
        assert path == EntryPath(playlist, line, cwd);
        if path in existing {
          paths := paths + [path];
        }
      }
      assert paths == before + LineSongs(lines[i], playlist, cwd, existing);
      SongPathsSnoc(lines, i, playlist, cwd, existing);
    }
    assert lines[..|lines|] == lines;
  }

  /** parse_playlist: a missing playlist file gives no songs; otherwise the songs of its lines.
      `texts` holds the content of the files whose text is known; another file reads as empty. */
  function PlaylistSongs(existing: set<Path>, texts: map<Path, string>, playlist: Path, cwd: Path): (r: seq<Path>)
    requires IsAbsolute(cwd)
    ensures playlist !in existing ==> r == []
    ensures forall i :: 0 <= i < |r| ==> r[i] in existing
  {
    if playlist !in existing then []
    else SongPaths(Lines(if playlist in texts then texts[playlist] else ""), playlist, cwd, existing)
  }

  /** More existing files never lose a song: every song the lines give stays one when further
      paths come to exist. */
  lemma SongPathsGrow(lines: seq<string>, playlist: Path, cwd: Path, existing: set<Path>, more: set<Path>, song: Path)
    requires IsAbsolute(cwd) && existing <= more
    requires song in SongPaths(lines, playlist, cwd, existing)
    ensures song in SongPaths(lines, playlist, cwd, more)
  {
    SongPathsMembers(lines, playlist, cwd, existing, song);
    SongPathsMembers(lines, playlist, cwd, more, song);
  }

  /** A playlist file whose text is kept, parsed again once further paths exist, still names
      every song it named before. */
  lemma PlaylistSongsGrow(existing: set<Path>, texts: map<Path, string>, more: set<Path>, moreTexts: map<Path, string>,
                          playlist: Path, cwd: Path, song: Path)
    requires IsAbsolute(cwd) && existing <= more
    requires playlist in texts ==> playlist in moreTexts && moreTexts[playlist] == texts[playlist]
    requires song in PlaylistSongs(existing, texts, playlist, cwd)
    ensures song in PlaylistSongs(more, moreTexts, playlist, cwd)
  {
    var text := if playlist in texts then texts[playlist] else "";
    SongPathsGrow(Lines(text), playlist, cwd, existing, more, song);
  }
}
