/** The round trip the mirroring relies on: the content written for a playlist, read back
    through the parser from the playlist's location, names the songs it was made from. */
module ReadBack {
  import opened MirrorErrors
  import opened PurePaths
  import opened Text
  import opened RelativePaths
  import opened Destinations
  import opened PlaylistParser
  import opened PlaylistContent

  /** A name that survives being written as a playlist line: no surrounding whitespace, no
      leading '#', no line break, and neither "." nor "..". */
  predicate IsPlainName(c: string) {
    IsNormalName(c) && !IsSpace(c[0]) && !IsSpace(c[|c| - 1]) && c[0] != '#' && '\n' !in c && '\r' !in c
  }

  /** A resolved path made of plain names. */
  predicate IsPlainPath(p: Path) {
    IsResolved(p) && forall i :: 1 <= i < |p| ==> IsPlainName(p[i])
  }

  /** The names of a resolved path below its first k parts. */
  lemma TailNormal(p: Path, k: nat)
    requires IsResolved(p) && 1 <= k <= |p|
    ensures forall i :: 0 <= i < |p[k..]| ==> IsNormalName(p[k..][i])
  {
    forall i | 0 <= i < |p[k..]|
      ensures IsNormalName(p[k..][i])
    {
      assert p[k..][i] == p[k + i];
    }
  }

  lemma TailPlain(p: Path, k: nat)
    requires IsPlainPath(p) && 1 <= k <= |p|
    ensures forall i :: 0 <= i < |p[k..]| ==> IsPlainName(p[k..][i])
  {
    forall i | 0 <= i < |p[k..]|
      ensures IsPlainName(p[k..][i])
    {
      assert p[k..][i] == p[k + i];
    }
  }

  /** ".." links followed by names do not form an absolute path. */
  lemma ClimbNotAbsolute(n: nat, names: seq<string>)
    requires n + |names| > 0 && forall i :: 0 <= i < |names| ==> IsName(names[i])
    ensures !IsAbsolute(Ups(n) + names)
  {
    if n == 0 {
      assert (Ups(n) + names)[0] == names[0];
    } else {
      assert (Ups(n) + names)[0] == "..";
    }
  }

  lemma {:induction false} UpLinksFront(n: nat)
    requires n > 0
    ensures UpLinks(n) == "../" + UpLinks(n - 1)
  {
    if n > 1 {
      UpLinksFront(n - 1);
    }
  }

  /** Each "../" splits off as one "..". */
  lemma {:induction false} SplitAfterUpLinks(n: nat, t: string)
    ensures Split(UpLinks(n) + t) == Ups(n) + Split(t)
  {
    if n == 0 {
      assert UpLinks(n) + t == t;
    } else {
      UpLinksRegroup(n, t);
      SplitAfterPiece("..", UpLinks(n - 1) + t);
      SplitAfterUpLinks(n - 1, t);
      UpsFront(n);
      ConsAssoc("..", Ups(n - 1), Split(t));
    }
  }

  lemma ConsAssoc(x: string, b: seq<string>, c: seq<string>)
    ensures [x] + (b + c) == ([x] + b) + c
  {
  }

  lemma UpLinksRegroup(n: nat, t: string)
    requires n > 0
    ensures UpLinks(n) + t == ".." + "/" + (UpLinks(n - 1) + t)
  {
    UpLinksFront(n);
    assert ".." + "/" == "../";
    AppendAssoc("../", UpLinks(n - 1), t);
  }

  lemma UpsFront(n: nat)
    requires n > 0
    ensures Ups(n) == [".."] + Ups(n - 1)
  {
  }

  lemma {:induction false} SlashJoinStart(names: seq<string>)
    requires names != [] && names[0] != []
    ensures SlashJoin(names) != [] && SlashJoin(names)[0] == names[0][0]
  {
  }

  /** Path(text).parts of a relative path text: the ".." links, then the names. */
  lemma PartsOfRelativeText(n: nat, names: seq<string>, text: string)
    requires n + |names| > 0
    requires forall i :: 0 <= i < |names| ==> IsName(names[i])
    requires text == UpLinks(n) + SlashJoin(names)
    ensures Parts(text) == Ups(n) + names
  {
    SplitAfterUpLinks(n, SlashJoin(names));
    NamesOfNames(Ups(n));
    if names == [] {
      assert Split(SlashJoin(names)) == [""];
      NamesAppend(Ups(n), [""]);
      assert Names([""]) == [];
    } else {
      SplitOfSlashJoin(names);
      NamesAppend(Ups(n), names);
      NamesOfNames(names);
    }
    if n > 0 {
      UpLinksFront(n);
      assert text[0] == '.';
    } else {
      SlashJoinStart(names);
      assert text == SlashJoin(names);
      assert names[0][0] in names[0];
    }
    PartsOfRootless(text);
  }

  /** The text of a relative path contains no character outside the links and the names. */
  lemma {:induction false} UpLinksAvoid(n: nat, ch: char)
    requires ch != '.' && ch != '/'
    ensures ch !in UpLinks(n)
  {
    if n > 0 {
      UpLinksAvoid(n - 1, ch);
    }
  }

  lemma {:induction false} SlashJoinAvoid(names: seq<string>, ch: char)
    requires ch != '/' && forall i :: 0 <= i < |names| ==> ch !in names[i]
    ensures ch !in SlashJoin(names)
  {
    if |names| > 1 {
      SlashJoinAvoid(names[1..], ch);
    }
  }

  /** The first and last characters of a relative path text. */
  lemma RelativeTextEnds(n: nat, names: seq<string>)
    requires n + |names| > 0
    requires forall i :: 0 <= i < |names| ==> IsPlainName(names[i])
    ensures var text := UpLinks(n) + SlashJoin(names);
      text != [] && !IsSpace(text[0]) && text[0] != '#' && !IsSpace(text[|text| - 1])
  {
    var text := UpLinks(n) + SlashJoin(names);
    if n > 0 {
      UpLinksFront(n);
      assert text[0] == '.';
    } else {
      SlashJoinStart(names);
      assert text[0] == names[0][0];
    }
    if names == [] {
      UpLinksEnd(n);
      assert text[|text| - 1] == '/';
    } else {
      SlashJoinEnd(names);
      var last := names[|names| - 1];
      assert text[|text| - 1] == last[|last| - 1];
    }
  }

  /** A relative path text written as a line reads back as an entry line: stripping leaves it
      as it is and it starts neither blank nor with '#'. */
  lemma RelativeTextIsEntry(n: nat, names: seq<string>, text: string)
    requires n + |names| > 0
    requires forall i :: 0 <= i < |names| ==> IsPlainName(names[i])
    requires text == UpLinks(n) + SlashJoin(names)
    ensures text != [] && '\n' !in text && '\r' !in text && IsEntry(text) && Strip(text) == text && Strip(text + "\n") == text
  {
    UpLinksAvoid(n, '\n');
    UpLinksAvoid(n, '\r');
    SlashJoinAvoid(names, '\n');
    SlashJoinAvoid(names, '\r');
    RelativeTextEnds(n, names);
    StripKeeps(text);
    StripDropsNewline(text);
  }

  /** Normalising a folder, n ".." links and normal names: the links drop the folder's last
      n names. */
  lemma ClimbNormalize(folder: seq<string>, n: nat, tail: seq<string>)
    requires n <= |folder|
    requires forall i :: 0 <= i < |folder| ==> IsNormalName(folder[i])
    requires forall i :: 0 <= i < |tail| ==> IsNormalName(tail[i])
    ensures Normalize([], folder + (Ups(n) + tail)) == folder[..|folder| - n] + tail
  {
    NormalizePush([], folder, Ups(n) + tail);
    assert [] + folder == folder;
    NormalizePop(folder, n, tail);
    NormalizePush(folder[..|folder| - n], tail, []);
    assert tail + [] == tail;
  }

  /** From the playlist's folder, climbing n levels and descending into the song's remaining
      names reaches the song. */
  lemma ResolveClimb(playlist: Path, song: Path, k: nat, cwd: Path)
    requires IsResolved(playlist) && IsResolved(song) && IsAbsolute(cwd)
    requires 1 <= k < |playlist| && k <= |song| && playlist[..k] == song[..k]
    ensures Resolve(cwd, Parent(playlist) + (Ups(|playlist| - 1 - k) + song[k..])) == song
  {
    var n := |playlist| - 1 - k;
    var tail := song[k..];
    var parent := Parent(playlist);
    var folder := parent[1..];
    assert folder == playlist[1..|playlist| - 1];
    forall i | 0 <= i < |tail|
      ensures IsNormalName(tail[i])
    {
      assert tail[i] == song[k + i];
    }
    forall i | 0 <= i < |folder|
      ensures IsNormalName(folder[i])
    {
      assert folder[i] == playlist[i + 1];
    }
    ResolveUnderRoot(cwd, parent, Ups(n) + tail);
    ClimbNormalize(folder, n, tail);
    assert folder[..|folder| - n] == song[1..k];
    assert song[..1] == ["/"];
    assert song[..1] + (song[1..k] + song[k..]) == song;
  }

  /** Where the relative path climbs to: at least the root is shared, and the playlist is
      not itself on the song's path. */
  lemma ClimbBounds(playlist: Path, song: Path)
    requires IsResolved(playlist) && IsResolved(song)
    requires !(playlist <= song) && RelativePath(playlist, song).Success?
    ensures var k := CommonPrefixLength(playlist, song);
      1 <= k < |playlist| && (|playlist| - 1 - k) + (|song| - k) > 0
  {
    ClimbBoundsOf(playlist, song, CommonPrefixLength(playlist, song));
  }

  lemma ClimbBoundsOf(playlist: Path, song: Path, k: nat)
    requires IsResolved(playlist) && IsResolved(song) && playlist != song && !(playlist <= song)
    requires !(song <= playlist && |song| + 1 == |playlist|)
    requires k <= |playlist| && k <= |song| && playlist[..k] == song[..k]
    requires k < |playlist| && k < |song| ==> playlist[k] != song[k]
    ensures 1 <= k < |playlist| && (|playlist| - 1 - k) + (|song| - k) > 0
  {
  }

  /** The text of the relative path: one "../" per level the playlist's folder lies below the
      common prefix, then the song's remaining names. */
  lemma RelativeLineIs(playlist: Path, song: Path)
    requires IsResolved(playlist) && IsResolved(song)
    requires !(playlist <= song) && RelativePath(playlist, song).Success?
    ensures var k := CommonPrefixLength(playlist, song);
      1 <= k < |playlist| && (|playlist| - 1 - k) + (|song| - k) > 0
      && RelativePath(playlist, song).value == UpLinks(|playlist| - 1 - k) + SlashJoin(song[k..])
  {
    ClimbBounds(playlist, song);
    var k := CommonPrefixLength(playlist, song);
    RelativePathText(playlist, song, k, UpLinks(|playlist| - 1 - k) + SlashJoin(song[k..]));
  }

  /** An entry of ".." links climbing from the playlist's folder to a common prefix with the
      song, then the song's remaining names, leads to the song. */
  lemma ClimbResolves(playlist: Path, song: Path, k: nat, cwd: Path, line: string)
    requires IsResolved(playlist) && IsResolved(song) && IsAbsolute(cwd)
    requires 1 <= k < |playlist| && k <= |song| && playlist[..k] == song[..k] && (|playlist| - 1 - k) + (|song| - k) > 0
    requires line == UpLinks(|playlist| - 1 - k) + SlashJoin(song[k..])
    ensures EntryPath(playlist, line, cwd) == song
  {
    var n := |playlist| - 1 - k;
    var tail := song[k..];
    TailNormal(song, k);
    assert forall i :: 0 <= i < |tail| ==> IsName(tail[i]);
    PartsOfRelativeText(n, tail, line);
    ClimbNotAbsolute(n, tail);
    ResolveClimb(playlist, song, k, cwd);
    RelativeEntryPath(line, playlist, cwd, Ups(n) + tail);
  }

  /** Resolving the relative path from the playlist's folder lands on the song again. */
  lemma ResolvesBack(playlist: Path, song: Path, cwd: Path)
    requires IsResolved(playlist) && IsResolved(song) && IsAbsolute(cwd)
    requires !(playlist <= song) && RelativePath(playlist, song).Success?
    ensures EntryPath(playlist, RelativePath(playlist, song).value, cwd) == song
  {
    RelativeLineIs(playlist, song);
    ClimbResolves(playlist, song, CommonPrefixLength(playlist, song), cwd, RelativePath(playlist, song).value);
  }

  /** The relative path is a line the parser takes as an entry, as it stands. */
  lemma RelativeLineShape(playlist: Path, song: Path)
    requires IsResolved(playlist) && IsPlainPath(song)
    requires !(playlist <= song) && RelativePath(playlist, song).Success?
    ensures var line := RelativePath(playlist, song).value;
      line != [] && '\n' !in line && '\r' !in line && IsEntry(line)
      && Strip(line) == line && Strip(line + "\n") == line
  {
    var k := CommonPrefixLength(playlist, song);
    var line := RelativePath(playlist, song).value;
    RelativeLineIs(playlist, song);
    TailPlain(song, k);
    RelativeTextIsEntry(|playlist| - 1 - k, song[k..], line);
  }

  /** The line for a song reads back as that song, with or without its terminator. */
  lemma SongLineReadsBack(playlist: Path, song: Path, cwd: Path, existing: set<Path>)
    requires IsPlainPath(playlist) && IsPlainPath(song) && IsAbsolute(cwd) && song in existing
    requires !(playlist <= song) && RelativePath(playlist, song).Success?
    ensures var line := RelativePath(playlist, song).value;
      line != [] && '\n' !in line && '\r' !in line
      && LineSongs(line, playlist, cwd, existing) == [song]
      && LineSongs(line + "\n", playlist, cwd, existing) == [song]
  {
    RelativeLineShape(playlist, song);
    ResolvesBack(playlist, song, cwd);
  }

  /** The header line is skipped by the parser. */
  lemma HeaderSkipped(playlist: Path, cwd: Path, existing: set<Path>)
    requires IsAbsolute(cwd)
    ensures LineSongs(Header, playlist, cwd, existing) == []
    ensures LineSongs(Header + "\n", playlist, cwd, existing) == []
  {
    StripKeeps(Header);
    StripDropsNewline(Header);
  }

  /** Every line of the new content is non-empty and free of line breaks. */
  lemma ContentShape(playlist: Path, songs: seq<Path>)
    requires IsPlainPath(playlist)
    requires forall i :: 0 <= i < |songs| ==> IsPlainPath(songs[i]) && !(playlist <= songs[i])
    requires NewContent(playlist, songs).Success?
    ensures var content := NewContent(playlist, songs).value;
      forall i :: 0 <= i < |content| ==> content[i] != [] && '\n' !in content[i] && '\r' !in content[i]
  {
    var content := NewContent(playlist, songs).value;
    forall i | 0 <= i < |content|
      ensures content[i] != [] && '\n' !in content[i] && '\r' !in content[i]
    {
      if i == 0 {
        HeaderIsLine();
      } else {
        SongLineIsLine(playlist, songs[i - 1], content[i]);
      }
    }
  }

  lemma HeaderIsLine()
    ensures Header != [] && '\n' !in Header && '\r' !in Header
  {
  }

  lemma SongLineIsLine(playlist: Path, song: Path, line: string)
    requires IsPlainPath(playlist) && IsPlainPath(song)
    requires !(playlist <= song) && RelativePath(playlist, song).Success?
    requires line == RelativePath(playlist, song).value
    ensures line != [] && '\n' !in line && '\r' !in line
  {
    RelativeLineShape(playlist, song);
  }

  /** Each song's line stands for that song, with or without a terminator. */
  lemma ContentEntries(playlist: Path, songs: seq<Path>, cwd: Path, existing: set<Path>)
    requires IsPlainPath(playlist) && IsAbsolute(cwd)
    requires forall i :: 0 <= i < |songs| ==> IsPlainPath(songs[i]) && songs[i] in existing && !(playlist <= songs[i])
    requires NewContent(playlist, songs).Success?
    ensures var content := NewContent(playlist, songs).value;
      forall i :: 0 <= i < |songs| ==>
        LineSongs(content[i + 1], playlist, cwd, existing) == [songs[i]]
        && LineSongs(content[i + 1] + "\n", playlist, cwd, existing) == [songs[i]]
  {
    var content := NewContent(playlist, songs).value;
    forall i | 0 <= i < |songs|
      ensures LineSongs(content[i + 1], playlist, cwd, existing) == [songs[i]]
      ensures LineSongs(content[i + 1] + "\n", playlist, cwd, existing) == [songs[i]]
    {
      SongLineReadsBack(playlist, songs[i], cwd, existing);
    }
  }

  /** Lines joined by "\n" and read back keep what each line stands for. */
  lemma JoinedLinesRead(content: seq<string>, songs: seq<Path>, playlist: Path, cwd: Path, existing: set<Path>)
    requires IsAbsolute(cwd) && |content| == |songs| + 1
    requires forall i :: 0 <= i < |content| ==> content[i] != [] && '\n' !in content[i] && '\r' !in content[i]
    requires LineSongs(content[0], playlist, cwd, existing) == [] && LineSongs(content[0] + "\n", playlist, cwd, existing) == []
    requires forall i :: 0 <= i < |songs| ==>
        LineSongs(content[i + 1], playlist, cwd, existing) == [songs[i]]
        && LineSongs(content[i + 1] + "\n", playlist, cwd, existing) == [songs[i]]
    ensures var lines := Lines(JoinLines(content));
      |lines| == |songs| + 1 && LineSongs(lines[0], playlist, cwd, existing) == []
      && forall i :: 0 <= i < |songs| ==> LineSongs(lines[i + 1], playlist, cwd, existing) == [songs[i]]
  {
    LinesOfJoin(content);
    LinesStandAsWritten(content, songs, Lines(JoinLines(content)), playlist, cwd, existing);
  }

  /** Lines that are the written lines, each but the last with its terminator, stand for the
      same songs as the written lines. */
  lemma LinesStandAsWritten(content: seq<string>, songs: seq<Path>, lines: seq<string>, playlist: Path, cwd: Path,
                            existing: set<Path>)
    requires IsAbsolute(cwd) && |content| == |songs| + 1 && |lines| == |content|
    requires forall i :: 0 <= i < |content| - 1 ==> lines[i] == content[i] + "\n"
    requires lines[|content| - 1] == content[|content| - 1]
    requires LineSongs(content[0], playlist, cwd, existing) == [] && LineSongs(content[0] + "\n", playlist, cwd, existing) == []
    requires forall i :: 0 <= i < |songs| ==>
        LineSongs(content[i + 1], playlist, cwd, existing) == [songs[i]]
        && LineSongs(content[i + 1] + "\n", playlist, cwd, existing) == [songs[i]]
    ensures LineSongs(lines[0], playlist, cwd, existing) == []
    ensures forall i :: 0 <= i < |songs| ==> LineSongs(lines[i + 1], playlist, cwd, existing) == [songs[i]]
  {
    assert lines[0] == content[0] + "\n" || lines[0] == content[0];
    forall i | 0 <= i < |songs|
      ensures LineSongs(lines[i + 1], playlist, cwd, existing) == [songs[i]]
    {
      assert lines[i + 1] == content[i + 1] + "\n" || lines[i + 1] == content[i + 1];
    }
  }

  /** The lines read back from the written content: the header, then one line per song that
      stands for that song. */
  lemma WrittenLines(playlist: Path, songs: seq<Path>, cwd: Path, existing: set<Path>)
    requires IsPlainPath(playlist) && IsAbsolute(cwd)
    requires forall i :: 0 <= i < |songs| ==> IsPlainPath(songs[i]) && songs[i] in existing && !(playlist <= songs[i])
    requires NewContent(playlist, songs).Success?
    ensures var lines := Lines(JoinLines(NewContent(playlist, songs).value));
      |lines| == |songs| + 1 && LineSongs(lines[0], playlist, cwd, existing) == []
      && forall i :: 0 <= i < |songs| ==> LineSongs(lines[i + 1], playlist, cwd, existing) == [songs[i]]
  {
    ContentShape(playlist, songs);
    ContentEntries(playlist, songs, cwd, existing);
    HeaderSkipped(playlist, cwd, existing);
    JoinedLinesRead(NewContent(playlist, songs).value, songs, playlist, cwd, existing);
  }

  /** Writing the new content of a playlist with "\n".join and parsing the file again from the
      playlist's own location gives back exactly the songs, in order. */
  lemma ReadsBack(playlist: Path, songs: seq<Path>, cwd: Path, existing: set<Path>)
    requires IsPlainPath(playlist) && IsAbsolute(cwd)
    requires forall i :: 0 <= i < |songs| ==> IsPlainPath(songs[i]) && songs[i] in existing && !(playlist <= songs[i])
    requires NewContent(playlist, songs).Success?
    ensures SongPaths(Lines(JoinLines(NewContent(playlist, songs).value)), playlist, cwd, existing) == songs
  {
    WrittenLines(playlist, songs, cwd, existing);
    var lines := Lines(JoinLines(NewContent(playlist, songs).value));
    forall i | 0 <= i < |songs|
      ensures LineSongs(lines[1..][i], playlist, cwd, existing) == [songs[i]]
    {
      assert lines[1..][i] == lines[i + 1];
    }
    SongPathsOfEach(lines[1..], playlist, cwd, existing, songs);
  }

  /** A plain path moved from one plain root to another stays plain. */
  lemma RebasedPlain(base: Path, other: Path, p: Path)
    requires IsPlainPath(p) && IsPlainPath(other) && IsRelativeTo(p, base)
    ensures IsPlainPath(other + p[|base|..])
  {
    var moved := other + p[|base|..];
    assert |base| >= 1;
    forall i | 1 <= i < |moved|
      ensures IsPlainName(moved[i])
    {
      if i >= |other| {
        assert moved[i] == p[|base| + i - |other|];
      }
    }
  }

  /** A common root in front does not change whether one path is a prefix of another. */
  lemma PrefixUnderRoot(root: Path, a: Path, b: Path)
    ensures root + a <= root + b <==> a <= b
  {
    if a <= b {
      assert b[..|a|] == a;
      assert (root + b)[..|root + a|] == root + a;
    }
    if root + a <= root + b {
      assert (root + a)[|root|..] == a;
      assert (root + b)[|root|..|root| + |a|] == b[..|a|];
    }
  }

  /** The mirrored playlist, parsed from its place under the destination, names exactly the
      mirrored songs, in order: the content computed against the source playlist is right for
      the copy. */
  lemma MirroredReadsBack(musicRoot: Path, destination: Path, playlist: Path, songs: seq<Path>, cwd: Path, existing: set<Path>)
    requires IsAbsolute(cwd) && IsPlainPath(destination)
    requires IsPlainPath(playlist) && IsRelativeTo(playlist, musicRoot)
    requires forall i :: 0 <= i < |songs| ==> IsPlainPath(songs[i]) && IsRelativeTo(songs[i], musicRoot) && !(playlist <= songs[i])
    requires forall i :: 0 <= i < |songs| ==> DestinationFile(songs[i], musicRoot, destination).value in existing
    requires NewContent(playlist, songs).Success?
    ensures SongPaths(Lines(JoinLines(NewContent(playlist, songs).value)),
                      DestinationPathOfPlaylist(musicRoot, playlist, destination).value, cwd, existing)
         == DestinationFiles(songs, musicRoot, destination)
  {
    var rest := playlist[|musicRoot|..];
    var mirrored := DestinationPathOfPlaylist(musicRoot, playlist, destination).value;
    var targets := DestinationFiles(songs, musicRoot, destination);
    assert musicRoot + rest == playlist && destination + rest == mirrored;
    NewContentIgnoresBase(musicRoot, destination, rest, songs, targets);
    RebasedPlain(musicRoot, destination, playlist);
    forall i | 0 <= i < |songs|
      ensures IsPlainPath(targets[i]) && targets[i] in existing && !(mirrored <= targets[i])
    {
      var tail := songs[i][|musicRoot|..];
      assert musicRoot + tail == songs[i];
      RebasedPlain(musicRoot, destination, songs[i]);
      PrefixUnderRoot(musicRoot, rest, tail);
      PrefixUnderRoot(destination, rest, tail);
    }
    ReadsBack(mirrored, targets, cwd, existing);
  }

  /** Path(text).parts of an absolute path text: the root, then the names. */
  lemma PartsOfAbsoluteText(names: seq<string>)
    requires names != [] && forall i :: 0 <= i < |names| ==> IsName(names[i])
    ensures Parts("/" + SlashJoin(names)) == ["/"] + names
  {
    SlashJoinStart(names);
    assert names[0][0] in names[0];
    PartsOfRooted(SlashJoin(names));
    SplitOfSlashJoin(names);
    NamesOfNames(names);
  }

  /** The tested parse: a header, an absolute entry and a relative one, seen from
      /home/foo/Music/Playlists/playlist.m3u, with both songs present. */
  lemma ExampleSongPaths(cwd: Path)
    requires IsAbsolute(cwd)
    ensures SongPaths(["#EXTM3U", "/home/foo/Music/Artist/foobar.mp3", "../Artist2/foobar2.mp3"],
                      ["/", "home", "foo", "Music", "Playlists", "playlist.m3u"], cwd,
                      {["/", "home", "foo", "Music", "Artist", "foobar.mp3"], ["/", "home", "foo", "Music", "Artist2", "foobar2.mp3"]})
         == [["/", "home", "foo", "Music", "Artist", "foobar.mp3"], ["/", "home", "foo", "Music", "Artist2", "foobar2.mp3"]]
  {
    var playlist := ["/", "home", "foo", "Music", "Playlists", "playlist.m3u"];
    var first := ["/", "home", "foo", "Music", "Artist", "foobar.mp3"];
    var second := ["/", "home", "foo", "Music", "Artist2", "foobar2.mp3"];
    var existing := {first, second};
    var lines := ["#EXTM3U", "/home/foo/Music/Artist/foobar.mp3", "../Artist2/foobar2.mp3"];
    HeaderSkipped(playlist, cwd, existing);
    ExampleAbsoluteEntry(playlist, cwd, existing);
    ExampleRelativeEntry(playlist, cwd, existing);
    ThreeLines(lines[0], lines[1], lines[2], playlist, cwd, existing, first, second);
  }

  lemma ThreeLines(header: string, a: string, b: string, playlist: Path, cwd: Path, existing: set<Path>, first: Path, second: Path)
    requires IsAbsolute(cwd)
    requires LineSongs(header, playlist, cwd, existing) == []
    requires LineSongs(a, playlist, cwd, existing) == [first] && LineSongs(b, playlist, cwd, existing) == [second]
    ensures SongPaths([header, a, b], playlist, cwd, existing) == [first, second]
  {
    SongPathsOfEach([a, b], playlist, cwd, existing, [first, second]);
    SongPathsAppend([header], [a, b], playlist, cwd, existing);
    SongPathsOfLine(header, playlist, cwd, existing);
    assert [header] + [a, b] == [header, a, b];
  }

  /** With no song present, the same lines give nothing. */
  lemma ExampleNoSongExists(cwd: Path)
    requires IsAbsolute(cwd)
    ensures SongPaths(["#EXTM3U", "/home/foo/Music/Artist/foobar.mp3", "../Artist2/foobar2.mp3"],
                      ["/", "home", "foo", "Music", "Playlists", "playlist.m3u"], cwd, {}) == []
  {
    var lines := ["#EXTM3U", "/home/foo/Music/Artist/foobar.mp3", "../Artist2/foobar2.mp3"];
    var playlist := ["/", "home", "foo", "Music", "Playlists", "playlist.m3u"];
    SongPathsBound(lines, playlist, cwd, {});
    assert forall i :: 0 <= i < |lines| ==> LineSongs(lines[i], playlist, cwd, {}) == [];
    SongPathsAppend(lines[..1], lines[1..], playlist, cwd, {});
  }

  /** An absolute path text of plain names is a line the parser takes as an entry, as it
      stands. */
  lemma AbsoluteTextIsEntry(names: seq<string>)
    requires names != [] && forall i :: 0 <= i < |names| ==> IsPlainName(names[i])
    ensures var text := "/" + SlashJoin(names); IsEntry(text) && Strip(text) == text
  {
    var text := "/" + SlashJoin(names);
    AbsoluteTextEnd(names);
    assert !IsSpace(text[0]);
    StripKeeps(text);
  }

  lemma AbsoluteTextEnd(names: seq<string>)
    requires names != [] && forall i :: 0 <= i < |names| ==> IsPlainName(names[i])
    ensures var text := "/" + SlashJoin(names); text[0] == '/' && !IsSpace(text[|text| - 1])
  {
    var text := "/" + SlashJoin(names);
    SlashJoinEnd(names);
    var last := names[|names| - 1];
    assert IsPlainName(last);
    assert text[|text| - 1] == last[|last| - 1];
  }

  /** An absolute entry of plain names stands for itself. */
  lemma AbsoluteEntryLine(names: seq<string>, playlist: Path, cwd: Path, existing: set<Path>)
    requires IsAbsolute(cwd) && names != [] && forall i :: 0 <= i < |names| ==> IsPlainName(names[i])
    requires ["/"] + names in existing
    ensures LineSongs("/" + SlashJoin(names), playlist, cwd, existing) == [["/"] + names]
  {
    AbsoluteTextIsEntry(names);
    PartsOfAbsoluteText(names);
    AbsoluteEntrySongs("/" + SlashJoin(names), playlist, cwd, existing, ["/"] + names);
  }

  /** The text of ".." links and plain names is an entry line whose parts are relative. */
  lemma ClimbEntry(n: nat, names: seq<string>)
    requires n + |names| > 0
    requires forall i :: 0 <= i < |names| ==> IsPlainName(names[i])
    ensures var text := UpLinks(n) + SlashJoin(names);
      Strip(text) == text && IsEntry(text) && Parts(text) == Ups(n) + names && !IsAbsolute(Ups(n) + names)
  {
    RelativeTextIsEntry(n, names, UpLinks(n) + SlashJoin(names));
    PartsOfRelativeText(n, names, UpLinks(n) + SlashJoin(names));
    ClimbNotAbsolute(n, names);
  }

  lemma ExampleAbsoluteEntry(playlist: Path, cwd: Path, existing: set<Path>)
    requires IsAbsolute(cwd) && ["/", "home", "foo", "Music", "Artist", "foobar.mp3"] in existing
    ensures LineSongs("/home/foo/Music/Artist/foobar.mp3", playlist, cwd, existing)
         == [["/", "home", "foo", "Music", "Artist", "foobar.mp3"]]
  {
    var names := ["home", "foo", "Music", "Artist", "foobar.mp3"];
    SpellAbsoluteEntry();
    ExampleAbsoluteNamesPlain();
    assert ["/"] + names == ["/", "home", "foo", "Music", "Artist", "foobar.mp3"];
    AbsoluteEntryLine(names, playlist, cwd, existing);
  }

  lemma ExampleRelativeEntry(playlist: Path, cwd: Path, existing: set<Path>)
    requires IsAbsolute(cwd) && playlist == ["/", "home", "foo", "Music", "Playlists", "playlist.m3u"]
    requires ["/", "home", "foo", "Music", "Artist2", "foobar2.mp3"] in existing
    ensures LineSongs("../Artist2/foobar2.mp3", playlist, cwd, existing)
         == [["/", "home", "foo", "Music", "Artist2", "foobar2.mp3"]]
  {
    var song := ["/", "home", "foo", "Music", "Artist2", "foobar2.mp3"];
    SpellRelativeEntry();
    ExamplePlaylistPlain();
    ExampleRelativeSongPlain();
    var tail := ["Artist2", "foobar2.mp3"];
    assert song[4..] == tail;
    assert playlist[..4] == song[..4];
    TailPlain(song, 4);
    ClimbEntry(1, tail);
    ResolveClimb(playlist, song, 4, cwd);
    RelativeEntrySongs("../Artist2/foobar2.mp3", playlist, cwd, existing, Ups(1) + tail, song);
  }

  /** A name of letters, digits and dots that is neither "." nor ".." is plain. */
  lemma SimpleNamePlain(c: string)
    requires c != "" && c != "." && c != ".."
    requires forall i :: 0 <= i < |c| ==> 'a' <= c[i] <= 'z' || 'A' <= c[i] <= 'Z' || '0' <= c[i] <= '9' || c[i] == '.'
    ensures IsPlainName(c)
  {
  }

  lemma ExamplePlaylistPlain()
    ensures IsPlainPath(["/", "home", "foo", "Music", "Playlists", "playlist.m3u"])
  {
    SimpleNamePlain("home");
    SimpleNamePlain("foo");
    SimpleNamePlain("Music");
    SimpleNamePlain("Playlists");
    SimpleNamePlain("playlist.m3u");
  }

  lemma ExampleRelativeSongPlain()
    ensures IsPlainPath(["/", "home", "foo", "Music", "Artist2", "foobar2.mp3"])
  {
    SimpleNamePlain("home");
    SimpleNamePlain("foo");
    SimpleNamePlain("Music");
    SimpleNamePlain("Artist2");
    SimpleNamePlain("foobar2.mp3");
  }

  lemma ExampleAbsoluteNamesPlain()
    ensures forall c :: c in ["home", "foo", "Music", "Artist", "foobar.mp3"] ==> IsPlainName(c)
  {
    SimpleNamePlain("home");
    SimpleNamePlain("foo");
    SimpleNamePlain("Music");
    SimpleNamePlain("Artist");
    SimpleNamePlain("foobar.mp3");
  }

  lemma SpellAbsoluteEntry()
    ensures "/" + SlashJoin(["home", "foo", "Music", "Artist", "foobar.mp3"]) == "/home/foo/Music/Artist/foobar.mp3"
  {
    SpellHomePath();
    SpellRootedText();
  }

  lemma SpellRootedText()
    ensures "/" + "home/foo/Music/Artist/foobar.mp3" == "/home/foo/Music/Artist/foobar.mp3"
  {
  }

  lemma SpellHomePath()
    ensures SlashJoin(["home", "foo", "Music", "Artist", "foobar.mp3"]) == "home/foo/Music/Artist/foobar.mp3"
  {
    SpellFooPath();
    SpellHomeText();
    SlashJoinFront(["home", "foo", "Music", "Artist", "foobar.mp3"], "foo/Music/Artist/foobar.mp3",
                   "home/foo/Music/Artist/foobar.mp3");
  }

  lemma SpellHomeText()
    ensures "home" + "/" + "foo/Music/Artist/foobar.mp3" == "home/foo/Music/Artist/foobar.mp3"
  {
  }

  lemma SpellFooPath()
    ensures SlashJoin(["foo", "Music", "Artist", "foobar.mp3"]) == "foo/Music/Artist/foobar.mp3"
  {
    SpellMusicPath();
    SpellFooText();
    SlashJoinFront(["foo", "Music", "Artist", "foobar.mp3"], "Music/Artist/foobar.mp3", "foo/Music/Artist/foobar.mp3");
  }

  lemma SpellFooText()
    ensures "foo" + "/" + "Music/Artist/foobar.mp3" == "foo/Music/Artist/foobar.mp3"
  {
  }

  lemma SpellMusicPath()
    ensures SlashJoin(["Music", "Artist", "foobar.mp3"]) == "Music/Artist/foobar.mp3"
  {
    SlashJoinFront(["Artist", "foobar.mp3"], "foobar.mp3", "Artist/foobar.mp3");
    SlashJoinFront(["Music", "Artist", "foobar.mp3"], "Artist/foobar.mp3", "Music/Artist/foobar.mp3");
  }

  lemma SpellRelativeEntry()
    ensures UpLinks(1) + SlashJoin(["Artist2", "foobar2.mp3"]) == "../Artist2/foobar2.mp3"
  {
    assert UpLinks(1) == UpLinks(0) + "../" == "../";
    assert SlashJoin(["Artist2", "foobar2.mp3"]) == "Artist2/foobar2.mp3";
  }
}
