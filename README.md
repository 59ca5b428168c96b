# mirror-playlists, modelled in Dafny

mirror-playlists copies a music collection's playlists (`.m3u` files) to another place, such as a
mounted device. It does three things:
- For every playlist found under the playlist root, it copies each song the playlist names from
  the music root to the same place under the destination, unless a file is already there.
- It rewrites the playlist so that every entry is a path relative to the playlist file, after an
  `#EXTM3U` header.
- It writes the rewritten playlist at the playlist's own mirrored place under the destination.

This project models that path-rewriting core, `mirror_playlists_utils.py`, and proves properties
of it. The modules follow the program's layers:

- `MirrorErrors` (errors.dfy): the exceptions the core raises, as values.
- `Text` (text.dfy): Python's `str.strip()` with the full `str.isspace()` set; reading a text file
  line by line with universal newlines; `"\n".join`.
- `PurePaths` (paths.dfy): a path is the list of its `pathlib` `parts`.
  - An absolute path starts with its root, `"/"`, or `"//"` when the text starts with exactly
    two slashes.
  - Also modelled: `Path(text).parts`, `.parent`, `relative_to`, `resolve()` (`.`/`..`
    normalisation only) and POSIX `os.path.join`.
- `RelativePaths` (relative.dfy): `get_relative_path_to_song_from_playlist_file`. It has the
  source's `while` loop as a method, proved against a functional specification.
- `Destinations` (destinations.dfy): `create_destination_file` and
  `get_destination_path_of_playlist_file`.
- `PlaylistParser` (parser.dfy): `get_list_of_song_path_from_playlist_content` (the `for` loop
  as a method) and `parse_playlist`.
- `PlaylistContent` (content.dfy): `get_new_content_of_playlist_file` (the `for` loop as a
  method).
- `ReadBack` (readback.dfy): the round trip the tool relies on. Content written for a playlist,
  read back and parsed from the playlist's location, names the songs it was made from. The same
  holds at the mirrored location.
- `Mirror` (mirror.dfy): the file system as a class.
  - Its fields are `paths`, `dirs`, `writable` and `texts`.
  - Its methods are the copy step, the playlist write and `mirror_all_playlist` with its checks
    and loops.
  - Each method is proved equal to a function on the files (`paths` with `texts`):
    - `CopyIfAbsent` for one copy;
    - `CopyAll` for the copy loop of one turn;
    - `Turn` for one turn of the outer loop;
    - `Run` for the whole loop.
  - Lemmas about these functions state what a run does:
    - every song of a completed turn has its copy;
    - every completed turn's playlist has its mirrored file;
    - a run only adds paths, and every added path is on the destination's own path or under it;
    - no text changes except at the mirrored place of a playlist of the run.

Things the core takes from the operating system become parameters or state:
- the working directory `cwd` that `resolve()` uses;
- the set of paths for which `Path.exists()` holds;
- folder existence and write access;
- the playlists `glob` finds;
- the text of the files.

## Model

| member | source | states |
|---|---|---|
| Text.StripLeftIs | mirror_playlists/mirror_playlists/mirror_playlists_utils.py:45 | lstrip keeps a suffix; everything it drops is whitespace; what it keeps does not start with whitespace |
| Text.StripRightIs | mirror_playlists/mirror_playlists/mirror_playlists_utils.py:45 | rstrip keeps a prefix; everything it drops is whitespace; what it keeps does not end with whitespace |
| Text.StripEnds | mirror_playlists/mirror_playlists/mirror_playlists_utils.py:45 | the stripped line neither starts nor ends with whitespace |
| Text.StripKeeps | mirror_playlists/mirror_playlists/mirror_playlists_utils.py:45 | a line without surrounding whitespace is left alone by strip |
| Text.StripDropsNewline | mirror_playlists/mirror_playlists/mirror_playlists_utils.py:44-45 | the line terminator kept by file iteration disappears under strip |
| Text.TranslateIs | mirror_playlists/mirror_playlists/mirror_playlists_utils.py:69-70 | after universal-newline reading no '\r' is left; a text without '\r' reads unchanged |
| Text.SplitLinesIs | mirror_playlists/mirror_playlists/mirror_playlists_utils.py:69-70 | the lines file iteration yields concatenate back to the text; each is non-empty, ends in its only '\n', except possibly the last |
| Text.SplitLinesOfLine | mirror_playlists/mirror_playlists/mirror_playlists_utils.py:69-70 | a non-empty text without line break is read as one line |
| Text.SplitLinesAfterLine | mirror_playlists/mirror_playlists/mirror_playlists_utils.py:69-70 | a line and its '\n' split off in front of the lines that follow |
| Text.JoinLines | mirror_playlists/mirror_playlists/mirror_playlists_utils.py:193 | "\n".join of no line is empty and of one line is that line; otherwise the text is as long as all lines together plus one separator between each two |
| Text.JoinLinesSnoc | mirror_playlists/mirror_playlists/mirror_playlists_utils.py:193 | the join of several lines is the join of all but the last, a separator, then the last line |
| Text.LinesOfJoin | mirror_playlists/mirror_playlists/mirror_playlists_utils.py:193 | text written with "\n".join reads back as the same lines, each but the last with its terminator, when no line is empty or holds a line break |
| PurePaths.Parent | mirror_playlists/mirror_playlists/mirror_playlists_utils.py:49 | the parent is a prefix one part shorter; the root and the empty path are their own parent |
| PurePaths.SplitIs | mirror_playlists/mirror_playlists/mirror_playlists_utils.py:47 | the pieces between slashes hold no slash, and "/".join puts them back together |
| PurePaths.PartsIs | mirror_playlists/mirror_playlists/mirror_playlists_utils.py:47-48 | Path(line).parts is well formed, and is absolute exactly when the text starts with '/' |
| PurePaths.PartsOfRooted | mirror_playlists/mirror_playlists/mirror_playlists_utils.py:47 | a text with one leading slash has root "/" followed by its names |
| PurePaths.NamesOfNames | mirror_playlists/mirror_playlists/mirror_playlists_utils.py:47 | pathlib keeps a list of proper names as it is |
| PurePaths.SplitOfSlashJoin | mirror_playlists/mirror_playlists/mirror_playlists_utils.py:47 | names joined by "/" split back into the same names |
| PurePaths.OsPathJoin | mirror_playlists/mirror_playlists/mirror_playlists_utils.py:142 | os.path.join fails (TypeError) exactly when it gets no argument |
| PurePaths.Resolve | mirror_playlists/mirror_playlists/mirror_playlists_utils.py:50 | resolve() yields an absolute path with root "/" |
| PurePaths.NormalizePush | mirror_playlists/mirror_playlists/mirror_playlists_utils.py:50 | names other than "." and ".." pass through the normalisation unchanged |
| PurePaths.NormalizePop | mirror_playlists/mirror_playlists/mirror_playlists_utils.py:50 | each ".." removes the name before it |
| PurePaths.ResolveUnderRoot | mirror_playlists/mirror_playlists/mirror_playlists_utils.py:49-50 | an absolute path is resolved without the working directory |
| PurePaths.RelativeTo | mirror_playlists/mirror_playlists/mirror_playlists_utils.py:91 | relative_to succeeds exactly when the root is a prefix (not the empty path for an absolute one); root + result = path; otherwise ValueError |
| RelativePaths.CommonPrefixLength | mirror_playlists/mirror_playlists/mirror_playlists_utils.py:132-136 | k is at most both lengths; the first k parts agree; parts k differ when both exist |
| RelativePaths.CommonPrefixLengthIs | mirror_playlists/mirror_playlists/mirror_playlists_utils.py:132-136 | a common prefix that cannot be extended has exactly the length the loop stops at |
| RelativePaths.CommonPrefixLengthWithBase | mirror_playlists/mirror_playlists/mirror_playlists_utils.py:132-136 | a shared base adds its own length to the common prefix |
| RelativePaths.RelativePath | mirror_playlists/mirror_playlists/mirror_playlists_utils.py:127-142 | identical paths raise ValueError; TypeError exactly when the song is the playlist's own folder; no other error |
| RelativePaths.RelativePathToSong | mirror_playlists/mirror_playlists/mirror_playlists_utils.py:127-142 | the loop and the list building compute the relative path of the specification, errors included |
| RelativePaths.RelativePathText | mirror_playlists/mirror_playlists/mirror_playlists_utils.py:132-142 | between two absolute paths on the same root the result is max(0, len(playlist)-1-k) copies of "../" then the song's parts from k joined by "/" |
| RelativePaths.JoinUpLinksAndNames | mirror_playlists/mirror_playlists/mirror_playlists_utils.py:138-142 | os.path.join of "../" pieces and names is the links followed by the names joined by "/" |
| RelativePaths.RelativeAfterFork | mirror_playlists/mirror_playlists/mirror_playlists_utils.py:132-142 | when the paths part after a shared base, the result climbs out of the playlist's remaining folders and descends into the song's |
| RelativePaths.RelativePathIgnoresBase | mirror_playlists/mirror_playlists/mirror_playlists_utils.py:127-142 | swapping the shared base of playlist and song for another leaves the relative path unchanged |
| RelativePaths.SameFileRefused | mirror_playlists/mirror_playlists/mirror_playlists_utils.py:127-128 | identical playlist and song raise ValueError |
| RelativePaths.ExampleSongInMusicRoot | mirror_playlists/mirror_playlists/test_mirror_playlists_utils.py:215-220 | /home/foo/music/bar.mp3 from /home/foo/music/Playlists/myplaylist.m3u is "../bar.mp3" |
| RelativePaths.ExampleSongInSubfolder | mirror_playlists/mirror_playlists/test_mirror_playlists_utils.py:221-226 | a song in a sibling folder is "../Artist1/bar.mp3" |
| RelativePaths.ExamplePlaylistInSubfolder | mirror_playlists/mirror_playlists/test_mirror_playlists_utils.py:227-232 | a playlist two folders down gives "../../bar.mp3" |
| RelativePaths.ExampleNoCommonPart | mirror_playlists/mirror_playlists/test_mirror_playlists_utils.py:233-238 | sharing only the root gives "../../../../media/foo/music/bar.mp3" |
| Destinations.DestinationFile | mirror_playlists/mirror_playlists/mirror_playlists_utils.py:91-93 | defined exactly when the song is under the music root (ValueError otherwise); the result is the destination followed by the song's parts below the music root |
| Destinations.DestinationPathOfPlaylist | mirror_playlists/mirror_playlists/mirror_playlists_utils.py:178-179 | the playlist rebased the same way, with the same error |
| Destinations.DestinationFileInverse | mirror_playlists/mirror_playlists/mirror_playlists_utils.py:91-93 | rebasing back from the destination to the music root gives the song again |
| Destinations.MirroringKeepsRelativePath | mirror_playlists/mirror_playlists/mirror_playlists_utils.py:225-229 | the relative path between the mirrored playlist and the mirrored song equals the one between the originals, so content computed against the source playlist is right at the mirrored one |
| Destinations.ExampleDestinationFile | mirror_playlists/mirror_playlists/test_mirror_playlists_utils.py:206-210 | /home/foo/Music/Artist/bar.mp3 mirrors to /mnt/Music/Artist/bar.mp3 |
| Destinations.ExampleDestinationPathOfPlaylist | mirror_playlists/mirror_playlists/test_mirror_playlists_utils.py:287-294 | /home/foo/Music/Playlists/playlist.m3u mirrors to /mnt/Music/Playlists/playlist.m3u |
| PlaylistParser.LineSongs | mirror_playlists/mirror_playlists/mirror_playlists_utils.py:45-54 | a line contributes at most one path, and only one that exists |
| PlaylistParser.AbsoluteEntrySongs | mirror_playlists/mirror_playlists/mirror_playlists_utils.py:46-54 | an existing absolute entry is kept as written |
| PlaylistParser.RelativeEntrySongs | mirror_playlists/mirror_playlists/mirror_playlists_utils.py:46-54 | an existing relative entry contributes the resolved path from the playlist's folder |
| PlaylistParser.SongPaths | mirror_playlists/mirror_playlists/mirror_playlists_utils.py:43-55 | no more paths than lines, every one of them exists |
| PlaylistParser.SongPathsAppend | mirror_playlists/mirror_playlists/mirror_playlists_utils.py:44-55 | the parse is line by line and keeps order: two blocks of lines give the first block's songs followed by the second's |
| PlaylistParser.SkippedLineIgnored | mirror_playlists/mirror_playlists/mirror_playlists_utils.py:45-46 | a blank or '#' line contributes nothing wherever it stands |
| PlaylistParser.SongPathsMembers | mirror_playlists/mirror_playlists/mirror_playlists_utils.py:44-55 | a path is returned exactly when it exists and some entry line stands for it |
| PlaylistParser.SongPathsBound | mirror_playlists/mirror_playlists/mirror_playlists_utils.py:44-55 | at most one path per non-blank, non-comment line |
| PlaylistParser.SongPathsOfEach | mirror_playlists/mirror_playlists/mirror_playlists_utils.py:44-55 | lines each standing for one existing song give exactly those songs, in order |
| PlaylistParser.ListSongPaths | mirror_playlists/mirror_playlists/mirror_playlists_utils.py:43-55 | the loop returns the specified list of song paths |
| PlaylistParser.SongPathsGrow | mirror_playlists/mirror_playlists/mirror_playlists_utils.py:44-55 | with more existing paths the same lines still give every song they gave |
| PlaylistParser.PlaylistSongs | mirror_playlists/mirror_playlists/mirror_playlists_utils.py:66-70 | a missing playlist file gives no songs; every song returned exists |
| PlaylistParser.PlaylistSongsGrow | mirror_playlists/mirror_playlists/mirror_playlists_utils.py:66-70 | with more existing paths and the playlist's text unchanged, parse_playlist still gives every song it gave |
| PlaylistContent.NewContent | mirror_playlists/mirror_playlists/mirror_playlists_utils.py:154-158 | succeeds exactly when every song's relative path does; then the header "#EXTM3U" followed by the relative path of song i at i+1; a failure carries some song's error |
| PlaylistContent.FirstFailureReported | mirror_playlists/mirror_playlists/mirror_playlists_utils.py:156-157 | the error raised is that of the first song that fails |
| PlaylistContent.NewContentPrefix | mirror_playlists/mirror_playlists/mirror_playlists_utils.py:156-157 | the content for the first i songs is the first i+1 lines of the content |
| PlaylistContent.BuildNewContent | mirror_playlists/mirror_playlists/mirror_playlists_utils.py:155-158 | the loop builds the specified content, or raises the specified error |
| PlaylistContent.NewContentIgnoresBase | mirror_playlists/mirror_playlists/mirror_playlists_utils.py:154-158 | moving playlist and songs from one root to another leaves the content unchanged |
| PlaylistContent.ExampleNewContent | mirror_playlists/mirror_playlists/test_mirror_playlists_utils.py:271-283 | the tested playlist gives ["#EXTM3U", "../bar.mp3", "../Artist1/bar1.mp3"] |
| ReadBack.ResolvesBack | mirror_playlists/mirror_playlists/mirror_playlists_utils.py:47-50 | resolving a song's relative path from the playlist's folder gives the song again |
| ReadBack.RelativeLineShape | mirror_playlists/mirror_playlists/mirror_playlists_utils.py:45-46 | a written relative path is a non-comment line without line break that strip leaves alone |
| ReadBack.SongLineReadsBack | mirror_playlists/mirror_playlists/mirror_playlists_utils.py:44-54 | the line written for a song reads back as that song, with or without its terminator |
| ReadBack.HeaderSkipped | mirror_playlists/mirror_playlists/mirror_playlists_utils.py:46 | the "#EXTM3U" header never yields a song |
| ReadBack.ContentShape | mirror_playlists/mirror_playlists/mirror_playlists_utils.py:154-158 | every line of the new content is non-empty and has no line break |
| ReadBack.ContentEntries | mirror_playlists/mirror_playlists/mirror_playlists_utils.py:154-158 | line i+1 of the content stands for song i |
| ReadBack.WrittenLines | mirror_playlists/mirror_playlists/mirror_playlists_utils.py:193 | the lines read back from the written file are the header and one line per song that stands for that song |
| ReadBack.ReadsBack | mirror_playlists/mirror_playlists/mirror_playlists_utils.py:154-158 | writing the new content with "\n".join and parsing it from the playlist's place gives back exactly the songs, in order |
| ReadBack.RebasedPlain | mirror_playlists/mirror_playlists/mirror_playlists_utils.py:91-93 | a path moved from one root to another stays a path of plain names |
| ReadBack.MirroredReadsBack | mirror_playlists/mirror_playlists/mirror_playlists_utils.py:222-229 | the mirrored playlist, parsed at its mirrored place, names exactly the mirrored songs, in order |
| ReadBack.PartsOfAbsoluteText | mirror_playlists/mirror_playlists/mirror_playlists_utils.py:47 | an absolute path text has root "/" and then its names |
| ReadBack.ExampleSongPaths | mirror_playlists/mirror_playlists/test_mirror_playlists_utils.py:300-305 | the tested lines give /home/foo/Music/Artist/foobar.mp3 and /home/foo/Music/Artist2/foobar2.mp3 |
| ReadBack.ExampleNoSongExists | mirror_playlists/mirror_playlists/test_mirror_playlists_utils.py:306-309 | with no song existing the same lines give nothing |
| Mirror.Lineage | mirror_playlists/mirror_playlists/mirror_playlists_utils.py:107 | the folders mkdir(parents=True) makes are exactly the non-empty prefixes of the path |
| Mirror.AroundTransitive | mirror_playlists/mirror_playlists/mirror_playlists_utils.py:218-229 | two steps that touch only the destination's path make one such step |
| Mirror.AroundAdded | mirror_playlists/mirror_playlists/mirror_playlists_utils.py:106-108 | creating a target under the destination with its folders touches only the destination's path |
| Mirror.FileSystem.Validate | mirror_playlists/mirror_playlists/mirror_playlists_utils.py:209-216 | passes exactly when the three folders exist and the destination is writable; otherwise the first failing check in the source's order decides the exception |
| Mirror.FileSystem.MakeFolders | mirror_playlists/mirror_playlists/mirror_playlists_utils.py:107 | the folder and all its ancestors exist afterwards; nothing else changes |
| Mirror.FileSystem.CopySongIfAbsent | mirror_playlists/mirror_playlists/mirror_playlists_utils.py:105-107 | an existing target leaves everything unchanged; otherwise the parent folders and the target exist, carrying the source's text; either way the new files are those CopyIfAbsent gives |
| Mirror.FileSystem.ParsePlaylist | mirror_playlists/mirror_playlists/mirror_playlists_utils.py:66-70 | the songs of the playlist file as currently stored |
| Mirror.FileSystem.NewContentOfPlaylistFile | mirror_playlists/mirror_playlists/mirror_playlists_utils.py:154-158 | parses the playlist again and returns the specified new content |
| Mirror.FileSystem.WritePlaylist | mirror_playlists/mirror_playlists/mirror_playlists_utils.py:190-193 | the parent folders and the file exist; the file holds the lines joined by "\n" |
| Mirror.FileSystem.CopySongs | mirror_playlists/mirror_playlists/mirror_playlists_utils.py:222-224 | the files afterwards are those CopyAll gives for the songs before the first one outside the music root (CopiedSongs): each of those songs has its copy, no path is added but those copies and their folders, only the destination's path is touched, no existing text changes, and nothing changes when every copy was already there; the loop completes exactly when every song is under the music root, otherwise it raises relative_to's ValueError |
| Mirror.FileSystem.MirrorPlaylist | mirror_playlists/mirror_playlists/mirror_playlists_utils.py:220-229 | outcome and files are those of Turn; `songs` is the first parse, `copied` the files after the copy loop over them, and `reparsed` the second parse from those files, which names every song in `songs`; a turn that raises leaves `copied`; a completed turn adds exactly the mirrored playlist and its folders, the playlist holding "\n".join of the new content of `reparsed`, and every song in `songs` is under the music root and has its copy; no text but the mirrored playlist's changes, every added path is on the destination's path or under it, and only the loop's exceptions are raised |
| Mirror.FileSystem.MirrorAllPlaylist | mirror_playlists/mirror_playlists/mirror_playlists_utils.py:209-229 | a failed check raises before anything changes; otherwise outcome and files are those of Run (RunEnded): one turn per playlist until one raises one of the loop's exceptions; turn k began with the files `starts[k]` that the first k turns left, and `parsed[k]` is what parse_playlist gave from them; every completed turn left its playlist's mirrored file and a copy of every song parsed for it, and of every song its playlist named before the run unless an earlier turn wrote that playlist; paths are only added, on the destination's path or under it, and texts change only at the mirrored places of the run's playlists |
| Mirror.CopyIfAbsent | mirror_playlists/mirror_playlists/mirror_playlists_utils.py:105-107 | the target exists afterwards; an existing target leaves the files as they are; otherwise only the target and its folders are added, and no text but the target's changes |
| Mirror.CopyIfAbsentKeeps | mirror_playlists/mirror_playlists/mirror_playlists_utils.py:105-107 | on consistent files a copy overwrites no known text and the files stay consistent |
| Mirror.CopyFootprint | mirror_playlists/mirror_playlists/mirror_playlists_utils.py:222-224 | every path the copies of a turn may add lies on the destination's path or under it |
| Mirror.CopyAll | mirror_playlists/mirror_playlists/mirror_playlists_utils.py:222-224 | the copy loop only adds paths and texts |
| Mirror.CopyAllHas | mirror_playlists/mirror_playlists/mirror_playlists_utils.py:222-224 | after the copy loop the song at a given position has its copy |
| Mirror.CopyAllCopies | mirror_playlists/mirror_playlists/mirror_playlists_utils.py:222-224 | after the copy loop every song has its copy |
| Mirror.CopyAllBound | mirror_playlists/mirror_playlists/mirror_playlists_utils.py:222-224 | the copy loop adds no path but the copies and their folders |
| Mirror.CopyAllUnchanged | mirror_playlists/mirror_playlists/mirror_playlists_utils.py:222-224 | when every copy is already there the copy loop changes nothing |
| Mirror.CopyAllSnoc | mirror_playlists/mirror_playlists/mirror_playlists_utils.py:222-224 | the copy loop over one more song is the loop so far followed by that song's copy |
| Mirror.CopyPrefix | mirror_playlists/mirror_playlists/mirror_playlists_utils.py:222-224 | the copy loop over the songs before position n gives each of them its copy, adds nothing else, and changes nothing when every copy was there |
| Mirror.CopyAllFrame | mirror_playlists/mirror_playlists/mirror_playlists_utils.py:222-224 | the copy loop touches only the destination's path and, on consistent files, changes no known text |
| Mirror.CopyAllSongs | mirror_playlists/mirror_playlists/mirror_playlists_utils.py:222-224 | the copy loop up to the first song outside the music root does all that CopiedSongs says |
| Mirror.CopyAllTwice | mirror_playlists/mirror_playlists/mirror_playlists_utils.py:222-224 | running a turn's copy loop a second time changes nothing |
| Mirror.FirstOutside | mirror_playlists/mirror_playlists/mirror_playlists_utils.py:222-223 | the songs before it are under the music root, and the song at it, if there is one, is not |
| Mirror.MirrorOf | mirror_playlists/mirror_playlists/mirror_playlists_utils.py:225-229 | empty exactly when the playlist is not under the music root; otherwise its mirrored path |
| Mirror.Mirrors | mirror_playlists/mirror_playlists/mirror_playlists_utils.py:225-229 | holds the mirrored path of every playlist of the run |
| Mirror.Turn | mirror_playlists/mirror_playlists/mirror_playlists_utils.py:220-229 | a turn only adds paths and texts |
| Mirror.TurnFrame | mirror_playlists/mirror_playlists/mirror_playlists_utils.py:220-229 | a turn keeps consistent files consistent, touches only the destination's path, and changes no text but its playlist's mirrored file; a turn that raises raises one of the loop's exceptions and changes no text at all |
| Mirror.TurnDone | mirror_playlists/mirror_playlists/mirror_playlists_utils.py:220-229 | a completed turn copied every song of its first parse, all of them under the music root, and wrote its playlist, which is under the music root, at its mirrored place |
| Mirror.RunNext | mirror_playlists/mirror_playlists/mirror_playlists_utils.py:218-229 | the run over one more playlist is the run so far followed, unless it raised, by that playlist's turn |
| Mirror.RunStops | mirror_playlists/mirror_playlists/mirror_playlists_utils.py:218-229 | once a turn raises, the run ends with the outcome and files of that turn |
| Mirror.RunPrefixDone | mirror_playlists/mirror_playlists/mirror_playlists_utils.py:218-229 | a run that completed its first n turns completed each of its first k turns |
| Mirror.RunFrame | mirror_playlists/mirror_playlists/mirror_playlists_utils.py:218-229 | a run keeps consistent files consistent, touches only the destination's path, and changes no text but the mirrored files of its playlists |
| Mirror.RunGrows | mirror_playlists/mirror_playlists/mirror_playlists_utils.py:218-229 | later turns drop nothing the first n turns left: paths and texts only grow |
| Mirror.RunTurnDone | mirror_playlists/mirror_playlists/mirror_playlists_utils.py:219-229 | turn k of a run that got past it copied the songs it parsed and wrote its mirrored playlist |
| Mirror.TurnLeft | mirror_playlists/mirror_playlists/mirror_playlists_utils.py:218-229 | what turn k copied and wrote is still there after later turns |
| Mirror.TurnLeftStart | mirror_playlists/mirror_playlists/mirror_playlists_utils.py:218-229 | unless an earlier turn wrote its playlist, turn k also copied every song its playlist named when the run began |
| Mirror.TurnParsed | mirror_playlists/mirror_playlists/mirror_playlists_utils.py:219-221 | a completed turn is recorded with the files it began with and the songs parse_playlist gave then |
| Mirror.RunRecordedFrame | mirror_playlists/mirror_playlists/mirror_playlists_utils.py:218-229 | after the completed turns, and after the turn that raised if there is one, the run has touched only the destination's path and changed only mirrored playlists' texts |
| Mirror.RunKeepsTurn | mirror_playlists/mirror_playlists/mirror_playlists_utils.py:218-229 | what completed turn k left is there after later turns: its mirrored playlist, the copies of its parsed songs, and the copies of the songs its playlist named at the start unless an earlier turn wrote it |
| Mirror.RunRecordedTurns | mirror_playlists/mirror_playlists/mirror_playlists_utils.py:218-229 | after any later turns, every completed turn's mirrored playlist and copies are there |
| Mirror.RunRecorded | mirror_playlists/mirror_playlists/mirror_playlists_utils.py:218-229 | after its completed turns, and after the turn that raised if there is one, the run stands as RunSoFar says |
| Mirror.RunEnds | mirror_playlists/mirror_playlists/mirror_playlists_utils.py:218-229 | a run stopped by a turn that raised, or one that went through all its turns, ended as RunEnded says: its outcome and files are those of Run, and all turns completed unless one raised one of the loop's exceptions |
| Mirror.ParseKeepsSongs | mirror_playlists/mirror_playlists/mirror_playlists_utils.py:221-225 | parsing a playlist again after a step that kept its text and only added paths gives every song the first parse gave |
| Mirror.AroundRoot | mirror_playlists/mirror_playlists/mirror_playlists_utils.py:107-108 | what mkdir and the copy or write add lies on the destination's own path or under it |
| Mirror.MirroredPlaylistParses | mirror_playlists/mirror_playlists/mirror_playlists_utils.py:225-229 | once its songs are copied and it is written, parse_playlist on the mirrored playlist yields the mirrored songs |

## Left out

- `get_all_playlist_files` (Path.glob over "**/*.m3u") is not modelled; its result is the parameter `playlists` of `MirrorAllPlaylist`.
- `is_folder_existing` and `os.access(..., W_OK)` are the `dirs` and `writable` fields of the file system. They are consulted only by `Validate`.
- `Path.exists()` is membership in `paths` (or in the `existing` set for the pure parser). The file system is a snapshot: nothing changes behind the program's back.
- `Path.resolve()` follows no symlinks, and a relative path is resolved against an absolute `cwd` parameter. Only `.`/`..` normalisation is modelled, and the root "//" collapses to "/".
- Only POSIX paths are modelled, with "/" as the separator; Windows drives and separators are out.
- The TypeError of `os.path.join()` with no argument is modelled as the error `NoPathParts`. This happens when the song is the playlist's own folder.
- Files are texts in the `texts` map. A file whose text is not known reads as empty. UTF-8 decoding and its errors are not modelled.
- `shutil.copy2` copies the source's text when it is known and does not model metadata. The OS errors of `mkdir`, `copy2` and `open` are not modelled.
- Logging (`logging.info`, `logging.warning`, `basicConfig`) has no effect on the results and is left out.
- main.py (the command line) and setup.py are not part of this model.
- The read-back lemmas in `ReadBack` assume paths made of plain names: no surrounding whitespace, no leading '#', no line break, no "." or "..". For other names, what happens to a written line when it is read back is not stated.
- The parse_playlist test with three absolute songs (test_mirror_playlists_utils.py:258-268) has no example lemma. Its case is covered by `PlaylistParser.SongPathsOfEach` and `ReadBack.ExampleAbsoluteEntry`.
- Paths are compared as sequences of parts. Two spellings of one file, such as `/a/../b` and `/b`, are two different members of `paths`. How the operating system answers `exists()` for a path with ".." in it is not modelled.
