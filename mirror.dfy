/** The side-effecting part of the core: the checks before mirroring, copying songs, writing
    the new playlists, and mirror_all_playlist, which drives them over a file system. */
module Mirror {
  import opened MirrorErrors
  import opened PurePaths
  import opened Text
  import opened RelativePaths
  import opened Destinations
  import opened PlaylistParser
  import opened PlaylistContent
  import opened ReadBack

  /** How mirror_all_playlist ends: normally, or with the exception it raises. */
  datatype Outcome = Done | Raised(error: Error)

  /** The files at one moment of a run: the paths that exist and the known texts. */
  datatype Files = Files(paths: set<Path>, texts: map<Path, string>)

  /** The non-empty prefixes of a path: the folders mkdir(parents=True) makes sure of. */
  function Lineage(p: Path): (r: set<Path>)
    ensures forall q :: q in r ==> q != [] && q <= p
    ensures forall i :: 1 <= i <= |p| ==> p[..i] in r
  {
    set i | 1 <= i <= |p| :: p[..i]
  }

  /** A prefix of a path under `root` is either a prefix of `root` or itself under `root`. */
  lemma PrefixAroundRoot(root: Path, p: Path, q: Path)
    requires root <= p && q <= p
    ensures q <= root || root <= q
  {
    if |q| <= |root| {
      assert q == p[..|q|] == root[..|q|];
    } else {
      assert root == p[..|root|] == q[..|root|];
    }
  }

  /** From the files `before` to the files `after`, paths were only added, each new one a
      prefix of the destination or under it, and texts only grew or changed under the
      destination. */
  ghost predicate Around(destination: Path, before: set<Path>, beforeTexts: map<Path, string>,
                         after: set<Path>, afterTexts: map<Path, string>)
  {
    before <= after
    && (forall p :: p in after && p !in before ==> p <= destination || destination <= p)
    && beforeTexts.Keys <= afterTexts.Keys
    && (forall p :: p in beforeTexts && !(destination <= p) ==> afterTexts[p] == beforeTexts[p])
  }

  lemma AroundTransitive(destination: Path, a: set<Path>, aTexts: map<Path, string>, b: set<Path>, bTexts: map<Path, string>,
                         c: set<Path>, cTexts: map<Path, string>)
    requires Around(destination, a, aTexts, b, bTexts) && Around(destination, b, bTexts, c, cTexts)
    ensures Around(destination, a, aTexts, c, cTexts)
  {
  }

  /** Adding targets under the destination, and texts for them, keeps to the destination. */
  lemma AroundAdded(destination: Path, before: set<Path>, beforeTexts: map<Path, string>, target: Path,
                    after: set<Path>, afterTexts: map<Path, string>)
    requires destination <= target
    requires before <= after && after <= before + Lineage(Parent(target)) + {target}
    requires beforeTexts.Keys <= afterTexts.Keys
    requires forall p :: p in beforeTexts && p != target ==> p in afterTexts && afterTexts[p] == beforeTexts[p]
    ensures Around(destination, before, beforeTexts, after, afterTexts)
  {
    AroundRoot(destination, target);
  }

  /** The exceptions that can end mirror_all_playlist's loop: relative_to's ValueError,
      the ValueError for a song that is the playlist itself, and the TypeError of an empty
      os.path.join. */
  predicate IsLoopError(e: Error) {
    e == NotInSubpath || e == SameFile || e == NoPathParts
  }

  /** The files are consistent when every known text belongs to an existing path. */
  predicate Consistent(f: Files) {
    f.texts.Keys <= f.paths
  }

  /** From the files `before` to the files `after`, paths and texts were only added, and every
      known text outside `except` kept its content. */
  ghost predicate Keeps(before: Files, after: Files, except: set<Path>) {
    before.paths <= after.paths && before.texts.Keys <= after.texts.Keys
    && forall p :: p in before.texts && p !in except ==> after.texts[p] == before.texts[p]
  }

  /** copy_song_file_if_not_existing_and_create_necessary_parent_folder on the files `f`: an
      existing target is left alone; otherwise its folders and the target come to exist, the
      target with the source's text when that is known. */
  function CopyIfAbsent(f: Files, source: Path, target: Path): (r: Files)
    ensures target in r.paths
    ensures target in f.paths ==> r == f
    ensures f.paths <= r.paths <= f.paths + Lineage(Parent(target)) + {target}
    ensures f.texts.Keys <= r.texts.Keys
    ensures forall p :: p in f.texts && p != target ==> r.texts[p] == f.texts[p]
  {
    if target in f.paths then f
    else Files(f.paths + Lineage(Parent(target)) + {target},
               if source in f.texts then f.texts[target := f.texts[source]] else f.texts)
  }

  /** On consistent files a copy overwrites no known text: a target with a text exists, and
      an existing target is left alone. */
  lemma CopyIfAbsentKeeps(f: Files, source: Path, target: Path)
    requires Consistent(f)
    ensures Consistent(CopyIfAbsent(f, source, target)) && Keeps(f, CopyIfAbsent(f, source, target), {})
  {
  }

  /** Where the copy loop of one turn may add paths for `songs`: each target and its folders. */
  function CopyFootprint(songs: seq<Path>, musicRoot: Path, destination: Path): (r: set<Path>)
    requires forall j :: 0 <= j < |songs| ==> IsRelativeTo(songs[j], musicRoot)
    ensures forall q :: q in r ==> q <= destination || destination <= q
    decreases |songs|
  {
    if songs == [] then {}
    else
      var target := DestinationFile(songs[|songs| - 1], musicRoot, destination).value;
      AroundRoot(destination, target);
      CopyFootprint(songs[..|songs| - 1], musicRoot, destination) + Lineage(Parent(target)) + {target}
  }

  /** The copy loop of one turn over `songs`, all of them under the music root, begun with the
      files `f`: each song copied to its place under the destination unless something is
      there. */
  function CopyAll(f: Files, songs: seq<Path>, musicRoot: Path, destination: Path): (r: Files)
    requires forall j :: 0 <= j < |songs| ==> IsRelativeTo(songs[j], musicRoot)
    ensures f.paths <= r.paths && f.texts.Keys <= r.texts.Keys
    decreases |songs|
  {
    if songs == [] then f
    else
      CopyIfAbsent(CopyAll(f, songs[..|songs| - 1], musicRoot, destination), songs[|songs| - 1],
                   DestinationFile(songs[|songs| - 1], musicRoot, destination).value)
  }

  /** After the copy loop the song at `j` has its copy. */
  lemma {:induction false} CopyAllHas(f: Files, songs: seq<Path>, j: nat, musicRoot: Path, destination: Path)
    requires j < |songs| && forall k :: 0 <= k < |songs| ==> IsRelativeTo(songs[k], musicRoot)
    ensures DestinationFile(songs[j], musicRoot, destination).value in CopyAll(f, songs, musicRoot, destination).paths
    decreases |songs|
  {
    var init := songs[..|songs| - 1];
    var before := CopyAll(f, init, musicRoot, destination);
    if j < |init| {
      assert init[j] == songs[j];
      CopyAllHas(f, init, j, musicRoot, destination);
    }
    assert before.paths <= CopyAll(f, songs, musicRoot, destination).paths;
  }

  /** After the copy loop every song has its copy. */
  lemma CopyAllCopies(f: Files, songs: seq<Path>, musicRoot: Path, destination: Path)
    requires forall j :: 0 <= j < |songs| ==> IsRelativeTo(songs[j], musicRoot)
    ensures var r := CopyAll(f, songs, musicRoot, destination);
      forall j :: 0 <= j < |songs| ==> DestinationFile(songs[j], musicRoot, destination).value in r.paths
  {
    forall j | 0 <= j < |songs|
      ensures DestinationFile(songs[j], musicRoot, destination).value in CopyAll(f, songs, musicRoot, destination).paths
    {
      CopyAllHas(f, songs, j, musicRoot, destination);
    }
  }

  /** The copy loop adds no path but the targets and their folders. */
  lemma {:induction false} CopyAllBound(f: Files, songs: seq<Path>, musicRoot: Path, destination: Path)
    requires forall j :: 0 <= j < |songs| ==> IsRelativeTo(songs[j], musicRoot)
    ensures CopyAll(f, songs, musicRoot, destination).paths <= f.paths + CopyFootprint(songs, musicRoot, destination)
    decreases |songs|
  {
    if songs != [] {
      var init := songs[..|songs| - 1];
      CopyAllBound(f, init, musicRoot, destination);
      var target := DestinationFile(songs[|songs| - 1], musicRoot, destination).value;
      var before := CopyAll(f, init, musicRoot, destination);
      assert CopyAll(f, songs, musicRoot, destination) == CopyIfAbsent(before, songs[|songs| - 1], target);
      assert CopyFootprint(songs, musicRoot, destination)
          == CopyFootprint(init, musicRoot, destination) + Lineage(Parent(target)) + {target};
    }
  }

  /** When every target is already there, the copy loop changes nothing. */
  lemma {:induction false} CopyAllUnchanged(f: Files, songs: seq<Path>, musicRoot: Path, destination: Path)
    requires forall j :: 0 <= j < |songs| ==> IsRelativeTo(songs[j], musicRoot)
    requires forall j :: 0 <= j < |songs| ==> DestinationFile(songs[j], musicRoot, destination).value in f.paths
    ensures CopyAll(f, songs, musicRoot, destination) == f
    decreases |songs|
  {
    if songs != [] {
      var init := songs[..|songs| - 1];
      forall j | 0 <= j < |init|
        ensures DestinationFile(init[j], musicRoot, destination).value in f.paths
      {
        assert init[j] == songs[j];
      }
      CopyAllUnchanged(f, init, musicRoot, destination);
      var target := DestinationFile(songs[|songs| - 1], musicRoot, destination).value;
      assert target in f.paths;
      assert CopyAll(f, songs, musicRoot, destination) == CopyIfAbsent(f, songs[|songs| - 1], target);
    }
  }

  /** The copy loop over one more song is the loop so far followed by that song's copy. */
  lemma CopyAllSnoc(f: Files, songs: seq<Path>, n: nat, musicRoot: Path, destination: Path)
    requires n < |songs| && forall k :: 0 <= k <= n ==> IsRelativeTo(songs[k], musicRoot)
    ensures CopyAll(f, songs[..n + 1], musicRoot, destination)
         == CopyIfAbsent(CopyAll(f, songs[..n], musicRoot, destination), songs[n],
                         DestinationFile(songs[n], musicRoot, destination).value)
  {
    assert songs[..n + 1][..n] == songs[..n];
  }

  /** The copy loop over the first `n` songs, stated for the songs themselves: each of them
      has its copy, no other path is added, and nothing changes when every copy was there. */
  lemma CopyPrefix(f: Files, songs: seq<Path>, n: nat, musicRoot: Path, destination: Path)
    requires n <= |songs| && forall k :: 0 <= k < n ==> IsRelativeTo(songs[k], musicRoot)
    ensures var r := CopyAll(f, songs[..n], musicRoot, destination);
      forall k :: 0 <= k < n ==> DestinationFile(songs[k], musicRoot, destination).value in r.paths
    ensures CopyAll(f, songs[..n], musicRoot, destination).paths <= f.paths + CopyFootprint(songs[..n], musicRoot, destination)
    ensures (forall k :: 0 <= k < n ==> DestinationFile(songs[k], musicRoot, destination).value in f.paths)
      ==> CopyAll(f, songs[..n], musicRoot, destination) == f
  {
    var init := songs[..n];
    CopyAllCopies(f, init, musicRoot, destination);
    CopyAllBound(f, init, musicRoot, destination);
    forall k | 0 <= k < n
      ensures DestinationFile(songs[k], musicRoot, destination).value in CopyAll(f, init, musicRoot, destination).paths
    {
      assert init[k] == songs[k];
    }
    if forall k :: 0 <= k < n ==> DestinationFile(songs[k], musicRoot, destination).value in f.paths {
      forall k | 0 <= k < n
        ensures DestinationFile(init[k], musicRoot, destination).value in f.paths
      {
        assert init[k] == songs[k];
      }
      CopyAllUnchanged(f, init, musicRoot, destination);
    }
  }

  /** The copy loop keeps to the destination and overwrites no known text. */
  lemma {:induction false} CopyAllFrame(f: Files, songs: seq<Path>, musicRoot: Path, destination: Path)
    requires forall j :: 0 <= j < |songs| ==> IsRelativeTo(songs[j], musicRoot)
    ensures var r := CopyAll(f, songs, musicRoot, destination);
      Around(destination, f.paths, f.texts, r.paths, r.texts)
    ensures Consistent(f) ==>
      Consistent(CopyAll(f, songs, musicRoot, destination)) && Keeps(f, CopyAll(f, songs, musicRoot, destination), {})
    decreases |songs|
  {
    if songs != [] {
      var init := songs[..|songs| - 1];
      CopyAllFrame(f, init, musicRoot, destination);
      var before := CopyAll(f, init, musicRoot, destination);
      var target := DestinationFile(songs[|songs| - 1], musicRoot, destination).value;
      var after := CopyIfAbsent(before, songs[|songs| - 1], target);
      if Consistent(f) {
        CopyIfAbsentKeeps(before, songs[|songs| - 1], target);
      }
      AroundAdded(destination, before.paths, before.texts, target, after.paths, after.texts);
      AroundTransitive(destination, f.paths, f.texts, before.paths, before.texts, after.paths, after.texts);
    }
  }

  /** The index of the first song outside the music root, where the copy loop raises, or
      |songs| when there is none. */
  function FirstOutside(songs: seq<Path>, musicRoot: Path): (j: nat)
    ensures j <= |songs|
    ensures forall k :: 0 <= k < j ==> IsRelativeTo(songs[k], musicRoot)
    ensures j < |songs| ==> !IsRelativeTo(songs[j], musicRoot)
    decreases |songs|
  {
    if songs == [] || !IsRelativeTo(songs[0], musicRoot) then 0
    else 1 + FirstOutside(songs[1..], musicRoot)
  }

  /** What the copy loop over `songs`, begun with the files `before`, leaves in `after`: the
      copies of the songs up to the first outside the music root, each of them there, no path
      added but those copies and their folders, and no known text changed; nothing at all
      changes when every copy was already there. */
  ghost predicate CopiedSongs(before: Files, after: Files, songs: seq<Path>, musicRoot: Path, destination: Path) {
    var n := FirstOutside(songs, musicRoot);
    after == CopyAll(before, songs[..n], musicRoot, destination)
    && (forall k :: 0 <= k < n ==> DestinationFile(songs[k], musicRoot, destination).value in after.paths)
    && after.paths <= before.paths + CopyFootprint(songs[..n], musicRoot, destination)
    && Around(destination, before.paths, before.texts, after.paths, after.texts)
    && Keeps(before, after, {})
    && ((forall k :: 0 <= k < n ==> DestinationFile(songs[k], musicRoot, destination).value in before.paths)
        ==> after == before)
  }

  /** The copy loop of a turn, begun with consistent files, does all that. */
  lemma CopyAllSongs(f: Files, songs: seq<Path>, musicRoot: Path, destination: Path)
    requires Consistent(f)
    ensures CopiedSongs(f, CopyAll(f, songs[..FirstOutside(songs, musicRoot)], musicRoot, destination), songs, musicRoot, destination)
  {
    var n := FirstOutside(songs, musicRoot);
    CopyPrefix(f, songs, n, musicRoot, destination);
    CopyAllFrame(f, songs[..n], musicRoot, destination);
  }

  /** The place a turn writes `playlist` to: its mirrored path, when it lies under the music
      root. */
  function MirrorOf(musicRoot: Path, destination: Path, playlist: Path): (r: set<Path>)
    ensures r == {} <==> !IsRelativeTo(playlist, musicRoot)
    ensures IsRelativeTo(playlist, musicRoot) ==> r == {DestinationPathOfPlaylist(musicRoot, playlist, destination).value}
  {
    if IsRelativeTo(playlist, musicRoot) then {DestinationPathOfPlaylist(musicRoot, playlist, destination).value} else {}
  }

  /** The places a run over `playlists` may write playlists to. */
  function Mirrors(musicRoot: Path, destination: Path, playlists: seq<Path>): (r: set<Path>)
    ensures forall k :: 0 <= k < |playlists| ==> MirrorOf(musicRoot, destination, playlists[k]) <= r
    decreases |playlists|
  {
    if playlists == [] then {}
    else
      Mirrors(musicRoot, destination, playlists[..|playlists| - 1])
      + MirrorOf(musicRoot, destination, playlists[|playlists| - 1])
  }

  /** What a turn or a run leaves: how it ended, and the files. */
  datatype Step = Step(outcome: Outcome, files: Files)

  /** One turn of mirror_all_playlist's loop for `playlist`, begun with the files `f`: parse
      the playlist, copy its songs up to the first outside the music root (which raises),
      parse it again to build its new content, rebase it under the destination, and write
      the content there. Each failing step raises and ends the turn with the files as they
      stand. */
  function Turn(f: Files, musicRoot: Path, destination: Path, playlist: Path, cwd: Path): (r: Step)
    requires IsAbsolute(cwd)
    ensures f.paths <= r.files.paths && f.texts.Keys <= r.files.texts.Keys
  {
    var songs := PlaylistSongs(f.paths, f.texts, playlist, cwd);
    var copied := CopyAll(f, songs[..FirstOutside(songs, musicRoot)], musicRoot, destination);
    if FirstOutside(songs, musicRoot) < |songs| then Step(Raised(NotInSubpath), copied)
    else
      var content := NewContent(playlist, PlaylistSongs(copied.paths, copied.texts, playlist, cwd));
      var mirrored := DestinationPathOfPlaylist(musicRoot, playlist, destination);
      if content.Failure? then Step(Raised(content.error), copied)
      else if mirrored.Failure? then Step(Raised(mirrored.error), copied)
      else
        Step(Done, Files(copied.paths + Lineage(Parent(mirrored.value)) + {mirrored.value},
                         copied.texts[mirrored.value := JoinLines(content.value)]))
  }

  /** mirror_all_playlist's loop over `playlists`, begun with the files `f`: one turn after
      another, until a turn raises. */
  function Run(f: Files, musicRoot: Path, destination: Path, playlists: seq<Path>, cwd: Path): (r: Step)
    requires IsAbsolute(cwd)
    decreases |playlists|
  {
    if playlists == [] then Step(Done, f)
    else
      var before := Run(f, musicRoot, destination, playlists[..|playlists| - 1], cwd);
      if before.outcome.Raised? then before
      else Turn(before.files, musicRoot, destination, playlists[|playlists| - 1], cwd)
  }

  /** The part of a file system the core touches. */
  class FileSystem {
    /** Every path that exists, folders and files. */
    var paths: set<Path>
    /** The folders among them. */
    var dirs: set<Path>
    /** The paths the process may write to (os.access with W_OK). */
    var writable: set<Path>
    /** The content of the text files whose content is known; other files read as empty. */
    var texts: map<Path, string>

    ghost predicate Valid()
      reads this
    {
      dirs <= paths && texts.Keys <= paths
    }

    constructor (paths: set<Path>, dirs: set<Path>, writable: set<Path>, texts: map<Path, string>)
      requires dirs <= paths && texts.Keys <= paths
      ensures Valid()
      ensures this.paths == paths && this.dirs == dirs && this.writable == writable && this.texts == texts
    {
      this.paths := paths;
      this.dirs := dirs;
      this.writable := writable;
      this.texts := texts;
    }

    /** The checks mirror_all_playlist makes before any work, in the source's order: the
        first that fails decides the exception. */
    function Validate(musicRoot: Path, playlistRoot: Path, destination: Path): (r: Outcome)
      reads this
      ensures r == Done <==> musicRoot in dirs && playlistRoot in dirs && destination in dirs && destination in writable
      ensures musicRoot !in dirs ==> r == Raised(MusicRootMissing)
      ensures musicRoot in dirs && playlistRoot !in dirs ==> r == Raised(PlaylistRootMissing)
      ensures musicRoot in dirs && playlistRoot in dirs && destination !in dirs ==> r == Raised(DestinationMissing)
      ensures r == Raised(NoWriteAccess) <==> musicRoot in dirs && playlistRoot in dirs && destination in dirs && destination !in writable
    {
      if musicRoot !in dirs then Raised(MusicRootMissing)
      else if playlistRoot !in dirs then Raised(PlaylistRootMissing)
      else if destination !in dirs then Raised(DestinationMissing)
      else if destination !in writable then Raised(NoWriteAccess)
      else Done
    }

    /** Path.mkdir(parents=True, exist_ok=True): the folder and all its ancestors exist. */
    method MakeFolders(folder: Path)
      modifies this
      requires Valid()
      ensures Valid()
      ensures paths == old(paths) + Lineage(folder) && dirs == old(dirs) + Lineage(folder)
      ensures writable == old(writable) && texts == old(texts)
    {
      paths := paths + Lineage(folder);
      dirs := dirs + Lineage(folder);
    }

    /** copy_song_file_if_not_existing_and_create_necessary_parent_folder: an existing target
        is left alone; otherwise its folders are made and the song is copied (shutil.copy2). */
    method CopySongIfAbsent(source: Path, target: Path)
      modifies this
      requires Valid()
      ensures Valid()
      ensures old(target in paths) ==> paths == old(paths) && dirs == old(dirs) && texts == old(texts)
      ensures !old(target in paths) ==>
        paths == old(paths) + Lineage(Parent(target)) + {target}
        && dirs == old(dirs) + Lineage(Parent(target))
        && texts == (if source in old(texts) then old(texts)[target := old(texts)[source]] else old(texts))
      ensures target in paths && writable == old(writable)
      ensures Files(paths, texts) == CopyIfAbsent(Files(old(paths), old(texts)), source, target)
    {
      if target !in paths {
        var copied := if source in texts then texts[target := texts[source]] else texts;
        MakeFolders(Parent(target));
        paths := paths + {target};
        texts := copied;
      }
    }

    /** parse_playlist over the current files. */
    method ParsePlaylist(playlist: Path, cwd: Path) returns (songs: seq<Path>)
      requires IsAbsolute(cwd)
      ensures songs == PlaylistSongs(paths, texts, playlist, cwd)
    {
      if playlist !in paths {
        return [];
      }
      var text := if playlist in texts then texts[playlist] else "";
      songs := ListSongPaths(Lines(text), playlist, cwd, paths);
    }

    /** get_new_content_of_playlist_file: parses the playlist again and builds its content. */
    method NewContentOfPlaylistFile(playlist: Path, cwd: Path) returns (r: Result<seq<string>>)
      requires IsAbsolute(cwd)
      ensures r == NewContent(playlist, PlaylistSongs(paths, texts, playlist, cwd))
    {
      var songs := ParsePlaylist(playlist, cwd);
      r := BuildNewContent(playlist, songs);
    }

    /** write_content_of_playlist_to_file: makes the folders, then writes the lines joined
        by "\n". */
    method WritePlaylist(content: seq<string>, target: Path)
      modifies this
      requires Valid()
      ensures Valid()
      ensures paths == old(paths) + Lineage(Parent(target)) + {target}
      ensures dirs == old(dirs) + Lineage(Parent(target))
      ensures texts == old(texts)[target := JoinLines(content)] && writable == old(writable)
    {
      MakeFolders(Parent(target));
      paths := paths + {target};
      texts := texts[target := JoinLines(content)];
    }
  
    /** The inner loop of mirror_all_playlist: each song goes to its place under the
        destination unless something is there already; a song outside the music root raises
        (relative_to's ValueError) and ends the loop. */
    method CopySongs(songs: seq<Path>, musicRoot: Path, destination: Path) returns (r: Outcome)
      modifies this
      requires Valid()
      ensures Valid()
      ensures old(dirs) <= dirs && writable == old(writable)
      ensures CopiedSongs(Files(old(paths), old(texts)), Files(paths, texts), songs, musicRoot, destination)
      ensures r == Done <==> FirstOutside(songs, musicRoot) == |songs|
      ensures r == Done <==> forall j :: 0 <= j < |songs| ==> IsRelativeTo(songs[j], musicRoot)
      ensures r.Raised? ==> r.error == NotInSubpath
    {
      ghost var start := Files(paths, texts);
      for j := 0 to |songs|
        invariant Valid()
        invariant old(dirs) <= dirs && writable == old(writable)
        invariant forall k :: 0 <= k < j ==> IsRelativeTo(songs[k], musicRoot)
        invariant Files(paths, texts) == CopyAll(start, songs[..j], musicRoot, destination)
      {
        var target := DestinationFile(songs[j], musicRoot, destination);
        if target.Failure? {
          assert FirstOutside(songs, musicRoot) == j;
          CopyAllSongs(start, songs, musicRoot, destination);
          return Raised(target.error);
        }
        CopyAllSnoc(start, songs, j, musicRoot, destination);
        CopySongIfAbsent(songs[j], target.value);
      }
      assert FirstOutside(songs, musicRoot) == |songs|;
      CopyAllSongs(start, songs, musicRoot, destination);
      return Done;
    }

    /** One turn of mirror_all_playlist's loop: copy the playlist's missing songs, then write
        its new content at its mirrored place. `songs` are the songs parsed first; `copied`
        are the files once the copy loop has ended, `reparsed` the songs the second parse
        (inside get_new_content_of_playlist_file) gives from them, and `written` the lines
        built from those. */
    method MirrorPlaylist(musicRoot: Path, destination: Path, playlist: Path, cwd: Path)
      returns (r: Outcome, ghost songs: seq<Path>, ghost copied: Files, ghost reparsed: seq<Path>,
               ghost written: seq<string>)
      modifies this
      requires Valid() && IsAbsolute(cwd)
      ensures Valid()
      ensures old(dirs) <= dirs && writable == old(writable)
      ensures Step(r, Files(paths, texts)) == Turn(Files(old(paths), old(texts)), musicRoot, destination, playlist, cwd)
      ensures Around(destination, old(paths), old(texts), paths, texts)
      ensures Keeps(Files(old(paths), old(texts)), Files(paths, texts), MirrorOf(musicRoot, destination, playlist))
      ensures songs == old(PlaylistSongs(paths, texts, playlist, cwd))
      ensures copied == CopyAll(Files(old(paths), old(texts)), songs[..FirstOutside(songs, musicRoot)], musicRoot, destination)
      ensures reparsed == PlaylistSongs(copied.paths, copied.texts, playlist, cwd)
      ensures forall j :: 0 <= j < |songs| ==> songs[j] in reparsed
      ensures r != Done ==> Files(paths, texts) == copied
      ensures r == Done ==>
        forall j :: 0 <= j < |songs| ==>
          IsRelativeTo(songs[j], musicRoot) && DestinationFile(songs[j], musicRoot, destination).value in copied.paths
      ensures r == Done ==>
        IsRelativeTo(playlist, musicRoot)
        && var mirrored := DestinationPathOfPlaylist(musicRoot, playlist, destination).value;
           paths == copied.paths + Lineage(Parent(mirrored)) + {mirrored}
           && texts == copied.texts[mirrored := JoinLines(written)]
      ensures r == Done ==> NewContent(playlist, reparsed) == Success(written)
      ensures r.Raised? ==> IsLoopError(r.error)
    {
      ghost var start := Files(paths, texts);
      var parsedSongs := ParsePlaylist(playlist, cwd);
      songs := parsedSongs;
      var result := CopySongs(parsedSongs, musicRoot, destination);
      copied := Files(paths, texts);
      reparsed := PlaylistSongs(paths, texts, playlist, cwd);
      forall j | 0 <= j < |songs|
        ensures songs[j] in reparsed
      {
        ParseKeepsSongs(start, copied, {}, playlist, cwd, songs[j]);
      }
      TurnFrame(start, musicRoot, destination, playlist, cwd);
      if result.Raised? {
        return result, songs, copied, reparsed, [];
      }
      assert songs[..|songs|] == songs;
      var content := NewContentOfPlaylistFile(playlist, cwd);
      if content.Failure? {
        return Raised(content.error), songs, copied, reparsed, [];
      }
      written := content.value;
      var mirrored := DestinationPathOfPlaylist(musicRoot, playlist, destination);
      if mirrored.Failure? {
        return Raised(mirrored.error), songs, copied, reparsed, written;
      }
      WritePlaylist(content.value, mirrored.value);
      return Done, songs, copied, reparsed, written;
    }

    /** mirror_all_playlist: after the checks, for each playlist file found under the
        playlist root (`playlists`, in the order the glob yields them) copy its songs that are
        missing, then write its new content at its mirrored place. The first exception ends
        the run; what was done before it stays done. For each playlist whose turn completed,
        `starts[k]` are the files when its turn began and `parsed[k]` the songs parse_playlist
        gave then. */
    method MirrorAllPlaylist(musicRoot: Path, playlistRoot: Path, destination: Path, playlists: seq<Path>, cwd: Path)
      returns (r: Outcome, ghost parsed: seq<seq<Path>>, ghost starts: seq<Files>)
      modifies this
      requires Valid() && IsAbsolute(cwd)
      ensures Valid()
      ensures old(Validate(musicRoot, playlistRoot, destination)).Raised? ==>
        r == old(Validate(musicRoot, playlistRoot, destination)) && unchanged(this) && parsed == []
      ensures old(dirs) <= dirs && writable == old(writable)
      ensures old(Validate(musicRoot, playlistRoot, destination)).Raised? ==>
        RunSoFar(musicRoot, destination, playlists, cwd, Files(old(paths), old(texts)), parsed, starts, Files(paths, texts))
      ensures old(Validate(musicRoot, playlistRoot, destination)) == Done ==>
        RunEnded(musicRoot, destination, playlists, cwd, Files(old(paths), old(texts)), r, parsed, starts, Files(paths, texts))
    {
      ghost var start := Files(paths, texts);
      parsed, starts := [], [];
      r := Validate(musicRoot, playlistRoot, destination);
      if r.Raised? {
        RunRecorded(musicRoot, destination, playlists, cwd, start, parsed, starts, 0);
        return;
      }
      for i := 0 to |playlists|
        invariant Valid() && r == Done && |parsed| == i
        invariant old(dirs) <= dirs && writable == old(writable)
        invariant TurnsParsed(musicRoot, destination, playlists, cwd, start, parsed, starts)
        invariant Run(start, musicRoot, destination, playlists[..i], cwd) == Step(Done, Files(paths, texts))
      {
        ghost var now := Files(paths, texts);
        var turn;
        ghost var songs, copied, reparsed, written;
        turn, songs, copied, reparsed, written := MirrorPlaylist(musicRoot, destination, playlists[i], cwd);
        RunNext(start, musicRoot, destination, playlists, cwd, i);
        if turn.Raised? {
          RunEnds(musicRoot, destination, playlists, cwd, start, parsed, starts, turn, Files(paths, texts), i + 1);
          return turn, parsed, starts;
        }
        TurnParsed(musicRoot, destination, playlists, cwd, start, parsed, starts, now, songs);
        parsed, starts := parsed + [songs], starts + [now];
      }
      RunEnds(musicRoot, destination, playlists, cwd, start, parsed, starts, Done, Files(paths, texts), |playlists|);
    }
  }

  /** Turn k of a run that began with the files `start` completed; it began with the files
      `starts[k]`, those the first k turns left, and `parsed[k]` are the songs parse_playlist
      gave from them. */
  ghost predicate TurnsParsed(musicRoot: Path, destination: Path, playlists: seq<Path>, cwd: Path, start: Files,
                              parsed: seq<seq<Path>>, starts: seq<Files>)
  {
    IsAbsolute(cwd) && |starts| == |parsed| <= |playlists|
    && Run(start, musicRoot, destination, playlists[..|parsed|], cwd).outcome == Done
    && forall k :: 0 <= k < |parsed| ==>
         starts[k] == Run(start, musicRoot, destination, playlists[..k], cwd).files
         && parsed[k] == PlaylistSongs(starts[k].paths, starts[k].texts, playlists[k], cwd)
  }

  /** The first n playlists have their mirrored files. */
  ghost predicate PlaylistsWritten(musicRoot: Path, destination: Path, playlists: seq<Path>, n: nat, texts: map<Path, string>)
  {
    n <= |playlists|
    && forall k :: 0 <= k < n ==>
         IsRelativeTo(playlists[k], musicRoot) && DestinationPathOfPlaylist(musicRoot, playlists[k], destination).value in texts
  }

  /** Every song parsed in a completed turn has its copy. */
  ghost predicate SongsCopied(musicRoot: Path, destination: Path, parsed: seq<seq<Path>>, paths: set<Path>)
  {
    forall k, j :: 0 <= k < |parsed| && 0 <= j < |parsed[k]| ==>
      IsRelativeTo(parsed[k][j], musicRoot) && DestinationFile(parsed[k][j], musicRoot, destination).value in paths
  }

  /** Every song that one of the first n playlists named when the run began with the files
      `start` has its copy, unless an earlier turn wrote that playlist over. */
  ghost predicate StartSongsCopied(musicRoot: Path, destination: Path, playlists: seq<Path>, n: nat, cwd: Path, start: Files,
                                   paths: set<Path>)
  {
    IsAbsolute(cwd) && n <= |playlists|
    && forall k, song ::
         (0 <= k < n && playlists[k] !in Mirrors(musicRoot, destination, playlists[..k])
          && song in PlaylistSongs(start.paths, start.texts, playlists[k], cwd))
         ==> IsRelativeTo(song, musicRoot) && DestinationFile(song, musicRoot, destination).value in paths
  }

  /** Where a run that began with the files `start` stands with the files `now` after
      |parsed| completed turns: its turns are recorded, it kept to the destination, every text
      it did not write keeps its content, and the completed turns left their playlists and
      copies. */
  ghost predicate RunSoFar(musicRoot: Path, destination: Path, playlists: seq<Path>, cwd: Path, start: Files,
                           parsed: seq<seq<Path>>, starts: seq<Files>, now: Files)
  {
    TurnsParsed(musicRoot, destination, playlists, cwd, start, parsed, starts)
    && Around(destination, start.paths, start.texts, now.paths, now.texts)
    && Keeps(start, now, Mirrors(musicRoot, destination, playlists[..|parsed|]))
    && PlaylistsWritten(musicRoot, destination, playlists, |parsed|, now.texts)
    && SongsCopied(musicRoot, destination, parsed, now.paths)
    && StartSongsCopied(musicRoot, destination, playlists, |parsed|, cwd, start, now.paths)
  }

  /** How a run over `playlists` that began with the files `start` ended: with the outcome
      `r` and the files `now` Run gives, having completed the turns recorded in `parsed` and
      `starts`, all of them unless one raised an exception of the loop, and standing as
      RunSoFar says. */
  ghost predicate RunEnded(musicRoot: Path, destination: Path, playlists: seq<Path>, cwd: Path, start: Files,
                           r: Outcome, parsed: seq<seq<Path>>, starts: seq<Files>, now: Files)
  {
    IsAbsolute(cwd)
    && Step(r, now) == Run(start, musicRoot, destination, playlists, cwd)
    && |parsed| <= |playlists| && (r == Done ==> |parsed| == |playlists|)
    && (r.Raised? ==> IsLoopError(r.error) && |parsed| < |playlists|)
    && RunSoFar(musicRoot, destination, playlists, cwd, start, parsed, starts, now)
  }

  /** Copying a turn's songs a second time changes nothing. */
  lemma CopyAllTwice(f: Files, songs: seq<Path>, musicRoot: Path, destination: Path)
    requires forall j :: 0 <= j < |songs| ==> IsRelativeTo(songs[j], musicRoot)
    ensures CopyAll(CopyAll(f, songs, musicRoot, destination), songs, musicRoot, destination)
         == CopyAll(f, songs, musicRoot, destination)
  {
    CopyAllCopies(f, songs, musicRoot, destination);
    CopyAllUnchanged(CopyAll(f, songs, musicRoot, destination), songs, musicRoot, destination);
  }

  /** A turn keeps to the destination, writes no text but its playlist's mirrored file, and
      raises only the loop's exceptions, writing nothing when it does. */
  lemma TurnFrame(f: Files, musicRoot: Path, destination: Path, playlist: Path, cwd: Path)
    requires IsAbsolute(cwd) && Consistent(f)
    ensures var t := Turn(f, musicRoot, destination, playlist, cwd);
      Consistent(t.files) && Keeps(f, t.files, MirrorOf(musicRoot, destination, playlist))
      && Around(destination, f.paths, f.texts, t.files.paths, t.files.texts)
    ensures var t := Turn(f, musicRoot, destination, playlist, cwd);
      t.outcome.Raised? ==> IsLoopError(t.outcome.error) && Keeps(f, t.files, {})
  {
    var songs := PlaylistSongs(f.paths, f.texts, playlist, cwd);
    var copied := CopyAll(f, songs[..FirstOutside(songs, musicRoot)], musicRoot, destination);
    var t := Turn(f, musicRoot, destination, playlist, cwd);
    CopyAllFrame(f, songs[..FirstOutside(songs, musicRoot)], musicRoot, destination);
    if FirstOutside(songs, musicRoot) == |songs| {
      var reparsed := PlaylistSongs(copied.paths, copied.texts, playlist, cwd);
      var content := NewContent(playlist, reparsed);
      if content.Failure? {
        var i :| 0 <= i < |reparsed| && RelativePath(playlist, reparsed[i]) == Failure(content.error);
      } else if IsRelativeTo(playlist, musicRoot) {
        var mirrored := DestinationPathOfPlaylist(musicRoot, playlist, destination).value;
        AroundAdded(destination, copied.paths, copied.texts, mirrored, t.files.paths, t.files.texts);
        AroundTransitive(destination, f.paths, f.texts, copied.paths, copied.texts, t.files.paths, t.files.texts);
      }
    }
  }

  /** A completed turn copied every song its first parse gave and wrote its playlist's
      mirrored file. */
  lemma TurnDone(f: Files, musicRoot: Path, destination: Path, playlist: Path, cwd: Path)
    requires IsAbsolute(cwd) && Turn(f, musicRoot, destination, playlist, cwd).outcome == Done
    ensures var songs := PlaylistSongs(f.paths, f.texts, playlist, cwd);
      forall j :: 0 <= j < |songs| ==>
        IsRelativeTo(songs[j], musicRoot)
        && DestinationFile(songs[j], musicRoot, destination).value in Turn(f, musicRoot, destination, playlist, cwd).files.paths
    ensures IsRelativeTo(playlist, musicRoot)
    ensures DestinationPathOfPlaylist(musicRoot, playlist, destination).value
            in Turn(f, musicRoot, destination, playlist, cwd).files.texts
  {
    var songs := PlaylistSongs(f.paths, f.texts, playlist, cwd);
    var n := FirstOutside(songs, musicRoot);
    var copied := CopyAll(f, songs[..n], musicRoot, destination);
    var t := Turn(f, musicRoot, destination, playlist, cwd);
    assert n == |songs|;
    var mirrored := DestinationPathOfPlaylist(musicRoot, playlist, destination);
    assert mirrored.Success?;
    assert copied.paths <= t.files.paths;
    CopyPrefix(f, songs, n, musicRoot, destination);
  }

  /** The run over one more playlist is the run so far followed, unless it raised, by the
      turn of that playlist. */
  lemma RunNext(f: Files, musicRoot: Path, destination: Path, playlists: seq<Path>, cwd: Path, n: nat)
    requires IsAbsolute(cwd) && n < |playlists|
    ensures var before := Run(f, musicRoot, destination, playlists[..n], cwd);
      Run(f, musicRoot, destination, playlists[..n + 1], cwd)
      == if before.outcome.Raised? then before else Turn(before.files, musicRoot, destination, playlists[n], cwd)
  {
    assert playlists[..n + 1][..n] == playlists[..n];
  }

  /** Once a turn raises, the run ends with what it left. */
  lemma {:induction false} RunStops(f: Files, musicRoot: Path, destination: Path, playlists: seq<Path>, cwd: Path, n: nat)
    requires IsAbsolute(cwd) && n <= |playlists|
    requires Run(f, musicRoot, destination, playlists[..n], cwd).outcome.Raised?
    ensures Run(f, musicRoot, destination, playlists, cwd) == Run(f, musicRoot, destination, playlists[..n], cwd)
    decreases |playlists|
  {
    if n == |playlists| {
      assert playlists[..n] == playlists;
    } else {
      var init := playlists[..|playlists| - 1];
      assert init[..n] == playlists[..n];
      RunStops(f, musicRoot, destination, init, cwd, n);
    }
  }

  /** A run that got past its first n turns got past each of them. */
  lemma RunPrefixDone(f: Files, musicRoot: Path, destination: Path, playlists: seq<Path>, cwd: Path, n: nat, k: nat)
    requires IsAbsolute(cwd) && k <= n <= |playlists|
    requires Run(f, musicRoot, destination, playlists[..n], cwd).outcome == Done
    ensures Run(f, musicRoot, destination, playlists[..k], cwd).outcome == Done
  {
    if Run(f, musicRoot, destination, playlists[..k], cwd).outcome.Raised? {
      assert playlists[..n][..k] == playlists[..k];
      RunStops(f, musicRoot, destination, playlists[..n], cwd, k);
    }
  }

  /** A run keeps to the destination and writes no text but the mirrored files of its
      playlists. */
  lemma {:induction false} RunFrame(f: Files, musicRoot: Path, destination: Path, playlists: seq<Path>, cwd: Path)
    requires IsAbsolute(cwd) && Consistent(f)
    ensures var r := Run(f, musicRoot, destination, playlists, cwd);
      Consistent(r.files) && Keeps(f, r.files, Mirrors(musicRoot, destination, playlists))
      && Around(destination, f.paths, f.texts, r.files.paths, r.files.texts)
    decreases |playlists|
  {
    if playlists != [] {
      var init := playlists[..|playlists| - 1];
      var before := Run(f, musicRoot, destination, init, cwd);
      RunFrame(f, musicRoot, destination, init, cwd);
      if !before.outcome.Raised? {
        var last := playlists[|playlists| - 1];
        TurnFrame(before.files, musicRoot, destination, last, cwd);
        var after := Turn(before.files, musicRoot, destination, last, cwd).files;
        AroundTransitive(destination, f.paths, f.texts, before.files.paths, before.files.texts, after.paths, after.texts);
      }
    }
  }

  /** What the first n turns of a run left stays: paths and texts are never dropped. */
  lemma {:induction false} RunGrows(f: Files, musicRoot: Path, destination: Path, playlists: seq<Path>, cwd: Path, n: nat)
    requires IsAbsolute(cwd) && n <= |playlists|
    ensures var before := Run(f, musicRoot, destination, playlists[..n], cwd).files;
      var after := Run(f, musicRoot, destination, playlists, cwd).files;
      before.paths <= after.paths && before.texts.Keys <= after.texts.Keys
    decreases |playlists|
  {
    if n == |playlists| {
      assert playlists[..n] == playlists;
    } else {
      var init := playlists[..|playlists| - 1];
      assert init[..n] == playlists[..n];
      RunGrows(f, musicRoot, destination, init, cwd, n);
    }
  }

  /** Turn k of a run that got past it copied the songs it parsed and wrote its mirrored
      playlist. */
  lemma RunTurnDone(f: Files, musicRoot: Path, destination: Path, playlists: seq<Path>, cwd: Path, k: nat)
    requires IsAbsolute(cwd) && k < |playlists|
    requires Run(f, musicRoot, destination, playlists[..k + 1], cwd).outcome == Done
    ensures var before := Run(f, musicRoot, destination, playlists[..k], cwd).files;
      var after := Run(f, musicRoot, destination, playlists[..k + 1], cwd).files;
      var songs := PlaylistSongs(before.paths, before.texts, playlists[k], cwd);
      (forall j :: 0 <= j < |songs| ==>
         IsRelativeTo(songs[j], musicRoot) && DestinationFile(songs[j], musicRoot, destination).value in after.paths)
      && IsRelativeTo(playlists[k], musicRoot)
      && DestinationPathOfPlaylist(musicRoot, playlists[k], destination).value in after.texts
  {
    var before := Run(f, musicRoot, destination, playlists[..k], cwd);
    RunNext(f, musicRoot, destination, playlists, cwd, k);
    assert before.outcome == Done;
    TurnDone(before.files, musicRoot, destination, playlists[k], cwd);
  }

  /** What turn k of a run that got past it copied and wrote is still there after the first
      e turns. */
  lemma TurnLeft(musicRoot: Path, destination: Path, playlists: seq<Path>, cwd: Path, start: Files, k: nat, e: nat)
    requires IsAbsolute(cwd) && k < e <= |playlists|
    requires Run(start, musicRoot, destination, playlists[..k + 1], cwd).outcome == Done
    ensures var before := Run(start, musicRoot, destination, playlists[..k], cwd).files;
      var now := Run(start, musicRoot, destination, playlists[..e], cwd).files;
      var songs := PlaylistSongs(before.paths, before.texts, playlists[k], cwd);
      (forall j :: 0 <= j < |songs| ==>
         IsRelativeTo(songs[j], musicRoot) && DestinationFile(songs[j], musicRoot, destination).value in now.paths)
      && IsRelativeTo(playlists[k], musicRoot)
      && DestinationPathOfPlaylist(musicRoot, playlists[k], destination).value in now.texts
  {
    RunTurnDone(start, musicRoot, destination, playlists, cwd, k);
    assert playlists[..e][..k + 1] == playlists[..k + 1];
    RunGrows(start, musicRoot, destination, playlists[..e], cwd, k + 1);
  }

  /** Unless an earlier turn wrote its playlist over, turn k of a run that got past it also
      copied every song the playlist named when the run began, and these copies are still
      there after the first e turns. */
  lemma TurnLeftStart(musicRoot: Path, destination: Path, playlists: seq<Path>, cwd: Path, start: Files, k: nat, e: nat)
    requires IsAbsolute(cwd) && Consistent(start) && k < e <= |playlists|
    requires Run(start, musicRoot, destination, playlists[..k + 1], cwd).outcome == Done
    requires playlists[k] !in Mirrors(musicRoot, destination, playlists[..k])
    ensures var now := Run(start, musicRoot, destination, playlists[..e], cwd).files;
      forall song :: song in PlaylistSongs(start.paths, start.texts, playlists[k], cwd) ==>
        IsRelativeTo(song, musicRoot) && DestinationFile(song, musicRoot, destination).value in now.paths
  {
    var before := Run(start, musicRoot, destination, playlists[..k], cwd).files;
    var songs := PlaylistSongs(before.paths, before.texts, playlists[k], cwd);
    TurnLeft(musicRoot, destination, playlists, cwd, start, k, e);
    RunFrame(start, musicRoot, destination, playlists[..k], cwd);
    forall song | song in PlaylistSongs(start.paths, start.texts, playlists[k], cwd)
      ensures song in songs
    {
      ParseKeepsSongs(start, before, Mirrors(musicRoot, destination, playlists[..k]), playlists[k], cwd, song);
    }
  }

  /** A completed turn that began with the files `before` the run had left is recorded. */
  lemma TurnParsed(musicRoot: Path, destination: Path, playlists: seq<Path>, cwd: Path, start: Files,
                   parsed: seq<seq<Path>>, starts: seq<Files>, before: Files, songs: seq<Path>)
    requires TurnsParsed(musicRoot, destination, playlists, cwd, start, parsed, starts)
    requires |parsed| < |playlists|
    requires before == Run(start, musicRoot, destination, playlists[..|parsed|], cwd).files
    requires songs == PlaylistSongs(before.paths, before.texts, playlists[|parsed|], cwd)
    requires Run(start, musicRoot, destination, playlists[..|parsed| + 1], cwd).outcome == Done
    ensures TurnsParsed(musicRoot, destination, playlists, cwd, start, parsed + [songs], starts + [before])
  {
    var next := parsed + [songs];
    var nextStarts := starts + [before];
    forall k | 0 <= k < |next|
      ensures nextStarts[k] == Run(start, musicRoot, destination, playlists[..k], cwd).files
      ensures next[k] == PlaylistSongs(nextStarts[k].paths, nextStarts[k].texts, playlists[k], cwd)
    {
      if k < |parsed| {
        assert next[k] == parsed[k] && nextStarts[k] == starts[k];
      }
    }
  }

  /** After the completed turns, and after the turn that raised if there is one, the run
      kept to the destination and changed no text but mirrored playlists. */
  lemma RunRecordedFrame(musicRoot: Path, destination: Path, playlists: seq<Path>, cwd: Path, start: Files, n: nat, e: nat)
    requires IsAbsolute(cwd) && Consistent(start)
    requires n <= e <= n + 1 && e <= |playlists|
    requires e == n + 1 ==> Run(start, musicRoot, destination, playlists[..e], cwd).outcome.Raised?
    ensures var now := Run(start, musicRoot, destination, playlists[..e], cwd).files;
      Around(destination, start.paths, start.texts, now.paths, now.texts)
      && Keeps(start, now, Mirrors(musicRoot, destination, playlists[..n]))
  {
    var now := Run(start, musicRoot, destination, playlists[..e], cwd).files;
    RunFrame(start, musicRoot, destination, playlists[..n], cwd);
    if e == n + 1 {
      var before := Run(start, musicRoot, destination, playlists[..n], cwd);
      RunNext(start, musicRoot, destination, playlists, cwd, n);
      if before.outcome == Done {
        TurnFrame(before.files, musicRoot, destination, playlists[n], cwd);
        AroundTransitive(destination, start.paths, start.texts, before.files.paths, before.files.texts, now.paths, now.texts);
      }
    }
  }

  /** What completed turn k, which parsed `songs`, left is there after the first e turns. */
  lemma RunKeepsTurn(musicRoot: Path, destination: Path, playlists: seq<Path>, cwd: Path, start: Files,
                     songs: seq<Path>, e: nat, k: nat)
    requires IsAbsolute(cwd) && Consistent(start) && k < e <= |playlists|
    requires Run(start, musicRoot, destination, playlists[..k + 1], cwd).outcome == Done
    requires var before := Run(start, musicRoot, destination, playlists[..k], cwd).files;
      songs == PlaylistSongs(before.paths, before.texts, playlists[k], cwd)
    ensures var now := Run(start, musicRoot, destination, playlists[..e], cwd).files;
      IsRelativeTo(playlists[k], musicRoot)
      && DestinationPathOfPlaylist(musicRoot, playlists[k], destination).value in now.texts
      && (forall j :: 0 <= j < |songs| ==>
            IsRelativeTo(songs[j], musicRoot) && DestinationFile(songs[j], musicRoot, destination).value in now.paths)
      && (playlists[k] !in Mirrors(musicRoot, destination, playlists[..k]) ==>
            forall song :: song in PlaylistSongs(start.paths, start.texts, playlists[k], cwd) ==>
              IsRelativeTo(song, musicRoot) && DestinationFile(song, musicRoot, destination).value in now.paths)
  {
    TurnLeft(musicRoot, destination, playlists, cwd, start, k, e);
    if playlists[k] !in Mirrors(musicRoot, destination, playlists[..k]) {
      TurnLeftStart(musicRoot, destination, playlists, cwd, start, k, e);
    }
  }

  /** After the first e turns, the completed turns' playlists and copies are all there. */
  lemma RunRecordedTurns(musicRoot: Path, destination: Path, playlists: seq<Path>, cwd: Path, start: Files,
                         parsed: seq<seq<Path>>, starts: seq<Files>, e: nat)
    requires Consistent(start) && TurnsParsed(musicRoot, destination, playlists, cwd, start, parsed, starts)
    requires |parsed| <= e <= |playlists|
    ensures var now := Run(start, musicRoot, destination, playlists[..e], cwd).files;
      PlaylistsWritten(musicRoot, destination, playlists, |parsed|, now.texts)
      && SongsCopied(musicRoot, destination, parsed, now.paths)
      && StartSongsCopied(musicRoot, destination, playlists, |parsed|, cwd, start, now.paths)
  {
    forall k | 0 <= k < |parsed|
      ensures var now := Run(start, musicRoot, destination, playlists[..e], cwd).files;
        IsRelativeTo(playlists[k], musicRoot)
        && DestinationPathOfPlaylist(musicRoot, playlists[k], destination).value in now.texts
        && (forall j :: 0 <= j < |parsed[k]| ==>
              IsRelativeTo(parsed[k][j], musicRoot) && DestinationFile(parsed[k][j], musicRoot, destination).value in now.paths)
        && (playlists[k] !in Mirrors(musicRoot, destination, playlists[..k]) ==>
              forall song :: song in PlaylistSongs(start.paths, start.texts, playlists[k], cwd) ==>
                IsRelativeTo(song, musicRoot) && DestinationFile(song, musicRoot, destination).value in now.paths)
    {
      RunPrefixDone(start, musicRoot, destination, playlists, cwd, |parsed|, k + 1);
      RunKeepsTurn(musicRoot, destination, playlists, cwd, start, parsed[k], e, k);
    }
  }

  /** The record mirror_all_playlist returns: after its completed turns, and after the turn
      that raised if there is one, the run stands as RunSoFar says. */
  lemma RunRecorded(musicRoot: Path, destination: Path, playlists: seq<Path>, cwd: Path, start: Files,
                    parsed: seq<seq<Path>>, starts: seq<Files>, e: nat)
    requires Consistent(start) && TurnsParsed(musicRoot, destination, playlists, cwd, start, parsed, starts)
    requires |parsed| <= e <= |parsed| + 1 && e <= |playlists|
    requires e == |parsed| + 1 ==> Run(start, musicRoot, destination, playlists[..e], cwd).outcome.Raised?
    ensures RunSoFar(musicRoot, destination, playlists, cwd, start, parsed, starts,
                     Run(start, musicRoot, destination, playlists[..e], cwd).files)
  {
    RunRecordedFrame(musicRoot, destination, playlists, cwd, start, |parsed|, e);
    RunRecordedTurns(musicRoot, destination, playlists, cwd, start, parsed, starts, e);
  }

  /** A run stopped by a turn that raised, or through all its turns, ended as RunEnded says. */
  lemma RunEnds(musicRoot: Path, destination: Path, playlists: seq<Path>, cwd: Path, start: Files,
                parsed: seq<seq<Path>>, starts: seq<Files>, r: Outcome, now: Files, e: nat)
    requires Consistent(start) && TurnsParsed(musicRoot, destination, playlists, cwd, start, parsed, starts)
    requires |parsed| <= e <= |parsed| + 1 && e <= |playlists|
    requires Step(r, now) == Run(start, musicRoot, destination, playlists[..e], cwd)
    requires e == |parsed| + 1 ==> r.Raised? && IsLoopError(r.error)
    requires e == |parsed| ==> r == Done && e == |playlists|
    ensures RunEnded(musicRoot, destination, playlists, cwd, start, r, parsed, starts, now)
  {
    RunRecorded(musicRoot, destination, playlists, cwd, start, parsed, starts, e);
    if e == |parsed| + 1 {
      RunStops(start, musicRoot, destination, playlists, cwd, e);
    } else {
      assert playlists[..e] == playlists;
    }
  }

  /** A playlist whose text was kept, parsed again after further paths came to exist, still
      names every song it named. */
  lemma ParseKeepsSongs(before: Files, after: Files, except: set<Path>, playlist: Path, cwd: Path, song: Path)
    requires IsAbsolute(cwd) && Keeps(before, after, except) && playlist !in except
    requires song in PlaylistSongs(before.paths, before.texts, playlist, cwd)
    ensures song in PlaylistSongs(after.paths, after.texts, playlist, cwd)
  {
    PlaylistSongsGrow(before.paths, before.texts, after.paths, after.texts, playlist, cwd, song);
  }

  /** What mkdir and the write or copy add for a target under the destination lies on the
      destination's own path or under it. */
  lemma AroundRoot(destination: Path, target: Path)
    requires destination <= target
    ensures forall q :: q in Lineage(Parent(target)) + {target} ==> q <= destination || destination <= q
  {
    forall q | q in Lineage(Parent(target)) + {target}
      ensures q <= destination || destination <= q
    {
      PrefixAroundRoot(destination, target, q);
    }
  }

  /** Once the mirrored playlist is written, parse_playlist on it yields the mirrored songs,
      provided those are in place. */
  lemma MirroredPlaylistParses(musicRoot: Path, destination: Path, playlist: Path, songs: seq<Path>, cwd: Path,
                               paths: set<Path>, texts: map<Path, string>)
    requires IsAbsolute(cwd) && IsPlainPath(destination)
    requires IsPlainPath(playlist) && IsRelativeTo(playlist, musicRoot)
    requires forall i :: 0 <= i < |songs| ==> IsPlainPath(songs[i]) && IsRelativeTo(songs[i], musicRoot) && !(playlist <= songs[i])
    requires forall i :: 0 <= i < |songs| ==> DestinationFile(songs[i], musicRoot, destination).value in paths
    requires NewContent(playlist, songs).Success?
    requires var mirrored := DestinationPathOfPlaylist(musicRoot, playlist, destination).value;
      mirrored in paths && mirrored in texts && texts[mirrored] == JoinLines(NewContent(playlist, songs).value)
    ensures PlaylistSongs(paths, texts, DestinationPathOfPlaylist(musicRoot, playlist, destination).value, cwd)
         == DestinationFiles(songs, musicRoot, destination)
  {
    MirroredReadsBack(musicRoot, destination, playlist, songs, cwd, paths);
  }
}
