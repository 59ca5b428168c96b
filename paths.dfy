/** The part of pathlib and os.path (POSIX flavour) the core uses. A path is the sequence of
    its `parts`: an absolute path starts with its root, "/" (or "//", which POSIX keeps when a
    path starts with exactly two slashes), followed by one name per directory level. */
module PurePaths {
  import opened MirrorErrors

  type Path = seq<string>

  predicate IsRoot(c: string) { c == "/" || c == "//" }

  /** PurePath.is_absolute(): the path has a root. */
  predicate IsAbsolute(p: Path) { |p| > 0 && IsRoot(p[0]) }

  /** A component pathlib keeps in `parts` below the root: never empty, never ".", no '/'. */
  predicate IsName(c: string) { c != "" && c != "." && '/' !in c }

  /** A name that needs no normalisation: not "..". */
  predicate IsNormalName(c: string) { IsName(c) && c != ".." }

  /** Parts as pathlib produces them: a root, if any, first, then names. */
  predicate WellFormed(p: Path) {
    forall i :: 0 <= i < |p| ==> IsName(p[i]) || (i == 0 && IsRoot(p[i]))
  }

  /** A path as Path.resolve() returns it: root "/", then names without "..". */
  predicate IsResolved(p: Path) {
    |p| > 0 && p[0] == "/" && forall i :: 1 <= i < |p| ==> IsNormalName(p[i])
  }

  /** PurePath.parent: the root and the empty path are their own parent. */
  function Parent(p: Path): (r: Path)
    ensures r <= p
    ensures |p| > 1 ==> |r| == |p| - 1
    ensures |p| <= 1 ==> (r == p <==> p == [] || IsRoot(p[0]))
  {
    if p == [] || (|p| == 1 && IsRoot(p[0])) then p else p[..|p| - 1]
  }

  /** "/".join(pieces). */
  function SlashJoin(pieces: seq<string>): string {
    if pieces == [] then []
    else if |pieces| == 1 then pieces[0]
    else pieces[0] + "/" + SlashJoin(pieces[1..])
  }

  /** str.split("/"). */
  function Split(s: string): seq<string> {
    if s == [] then [""]
    else
      var rest := Split(s[1..]);
      if s[0] == '/' then [""] + rest
      else [[s[0]] + rest[0]] + rest[1..]
  }

  /** The pieces hold no slash, and "/".join puts them back together. */
  lemma {:induction false} SplitIs(s: string)
    ensures var r := Split(s);
      |r| >= 1 && (forall i :: 0 <= i < |r| ==> '/' !in r[i]) && SlashJoin(r) == s
  {
    if s != [] {
      SplitIs(s[1..]);
      var rest := Split(s[1..]);
      var r := Split(s);
      if s[0] == '/' {
        assert r[1..] == rest;
        assert s == "/" + s[1..];
        assert forall i :: 1 <= i < |r| ==> r[i] == rest[i - 1];
      } else {
        assert r[1..] == rest[1..];
        assert s == [s[0]] + s[1..];
        assert '/' !in r[0];
        assert forall i :: 1 <= i < |r| ==> r[i] == rest[i];
      }
    }
  }

  /** The pieces pathlib keeps as names: empty pieces and "." are dropped. */
  function Names(pieces: seq<string>): (r: seq<string>)
    ensures |r| <= |pieces|
  {
    if pieces == [] then []
    else (if pieces[0] == "" || pieces[0] == "." then [] else [pieces[0]]) + Names(pieces[1..])
  }

  /** The root POSIX pathlib reads at the front of a string. */
  function RootOf(s: string): (r: string)
    ensures r == "" || IsRoot(r)
    ensures r == "" <==> s == [] || s[0] != '/'
  {
    if s == [] || s[0] != '/' then ""
    else if |s| >= 2 && s[1] == '/' && !(|s| >= 3 && s[2] == '/') then "//"
    else "/"
  }

  /** Path(s).parts: the root, then the non-empty pieces between slashes other than ".". */
  function Parts(s: string): Path {
    var root := RootOf(s);
    (if root == "" then [] else [root]) + Names(Split(s))
  }

  /** The parts are well formed, and absolute exactly when the text starts with a slash. */
  lemma PartsIs(s: string)
    ensures WellFormed(Parts(s))
    ensures IsAbsolute(Parts(s)) <==> s != [] && s[0] == '/'
  {
    SplitIs(s);
    NamesAreNames(Split(s));
  }

  /** A text that does not start with a slash has no root: its parts are its names. */
  lemma PartsOfRootless(s: string)
    requires s == [] || s[0] != '/'
    ensures Parts(s) == Names(Split(s))
  {
  }

  /** A text with exactly one leading slash has the root "/" and then the names after it. */
  lemma PartsOfRooted(t: string)
    requires t != [] && t[0] != '/'
    ensures Parts("/" + t) == ["/"] + Names(Split(t))
  {
    assert "" + "/" + t == "/" + t;
    SplitAfterPiece("", t);
    assert ([""] + Split(t))[1..] == Split(t);
    assert RootOf("/" + t) == "/";
  }

  lemma {:induction false} NamesAreNames(pieces: seq<string>)
    requires forall i :: 0 <= i < |pieces| ==> '/' !in pieces[i]
    ensures forall i :: 0 <= i < |Names(pieces)| ==> IsName(Names(pieces)[i])
  {
    if pieces != [] {
      NamesAreNames(pieces[1..]);
    }
  }

  /** Names keeps a list of names unchanged and distributes over concatenation. */
  lemma {:induction false} NamesOfNames(pieces: seq<string>)
    requires forall i :: 0 <= i < |pieces| ==> IsName(pieces[i])
    ensures Names(pieces) == pieces
  {
    if pieces != [] {
      NamesOfNames(pieces[1..]);
      assert pieces == [pieces[0]] + pieces[1..];
    }
  }

  lemma {:induction false} NamesAppend(a: seq<string>, b: seq<string>)
    ensures Names(a + b) == Names(a) + Names(b)
  {
    if a != [] {
      assert (a + b)[1..] == a[1..] + b;
      NamesAppend(a[1..], b);
    } else {
      assert a + b == b;
    }
  }

  /** A piece followed by a slash splits off in front. */
  lemma {:induction false} SplitAfterPiece(a: string, b: string)
    requires '/' !in a
    ensures Split(a + "/" + b) == [a] + Split(b)
    decreases |a|
  {
    if a == [] {
      assert a + "/" + b == "/" + b;
      assert ("/" + b)[1..] == b;
    } else {
      assert (a + "/" + b)[1..] == a[1..] + "/" + b;
      SplitAfterPiece(a[1..], b);
      assert [a[0]] + a[1..] == a;
    }
  }

  /** "/".join of names without a slash splits back into those names. */
  lemma {:induction false} SplitOfSlashJoin(pieces: seq<string>)
    requires pieces != []
    requires forall i :: 0 <= i < |pieces| ==> '/' !in pieces[i]
    ensures Split(SlashJoin(pieces)) == pieces
  {
    if |pieces| == 1 {
      SplitOfPiece(pieces[0]);
    } else {
      SplitOfSlashJoin(pieces[1..]);
      SplitAfterPiece(pieces[0], SlashJoin(pieces[1..]));
      assert pieces == [pieces[0]] + pieces[1..];
    }
  }

  lemma {:induction false} SplitOfPiece(a: string)
    requires '/' !in a
    ensures Split(a) == [a]
  {
    if a != [] {
      SplitOfPiece(a[1..]);
      assert [a[0]] + a[1..] == a;
    }
  }

  /** One step of posixpath.join: an absolute piece restarts the path; no separator is
      added after a path that is empty or already ends with one. */
  function JoinStep(path: string, piece: string): string {
    if piece != [] && piece[0] == '/' then piece
    else if path == [] || path[|path| - 1] == '/' then path + piece
    else path + "/" + piece
  }

  /** os.path.join(*pieces) on POSIX; with no argument at all Python raises TypeError. */
  function OsPathJoin(pieces: seq<string>): (r: Result<string>)
    ensures r.Failure? <==> pieces == []
    ensures r.Failure? ==> r.error == NoPathParts
    decreases |pieces|
  {
    if pieces == [] then Failure(NoPathParts)
    else if |pieces| == 1 then Success(pieces[0])
    else Success(JoinStep(OsPathJoin(pieces[..|pieces| - 1]).value, pieces[|pieces| - 1]))
  }

  /** Path.resolve() without symlinks: a relative path is put under the working directory,
      "." is dropped, ".." removes the name before it (and stays at the root). */
  function Normalize(acc: seq<string>, names: seq<string>): seq<string>
    decreases |names|
  {
    if names == [] then acc
    else if names[0] == ".." then Normalize(if acc == [] then [] else acc[..|acc| - 1], names[1..])
    else if names[0] == "." then Normalize(acc, names[1..])
    else Normalize(acc + [names[0]], names[1..])
  }

  function Resolve(cwd: Path, p: Path): (r: Path)
    requires IsAbsolute(cwd)
    ensures |r| > 0 && r[0] == "/"
  {
    var full := if IsAbsolute(p) then p else cwd + p;
    ["/"] + Normalize([], full[1..])
  }

  /** A path below the root "/" is resolved on its own, without the working directory. */
  lemma ResolveUnderRoot(cwd: Path, folder: Path, rest: Path)
    requires IsAbsolute(cwd) && folder != [] && folder[0] == "/"
    ensures Resolve(cwd, folder + rest) == ["/"] + Normalize([], folder[1..] + rest)
  {
    assert (folder + rest)[1..] == folder[1..] + rest;
  }

  /** Normal names are pushed as they are. */
  lemma {:induction false} NormalizePush(acc: seq<string>, names: seq<string>, rest: seq<string>)
    requires forall i :: 0 <= i < |names| ==> IsNormalName(names[i])
    ensures Normalize(acc, names + rest) == Normalize(acc + names, rest)
    decreases |names|
  {
    if names == [] {
      assert names + rest == rest;
      assert acc + names == acc;
    } else {
      assert (names + rest)[1..] == names[1..] + rest;
      NormalizePush(acc + [names[0]], names[1..], rest);
      assert acc + [names[0]] + names[1..] == acc + names;
    }
  }

  /** n copies of "..", the names of "../" repeated n times. */
  function Ups(n: nat): (r: seq<string>)
    ensures |r| == n && forall i :: 0 <= i < n ==> r[i] == ".."
  {
    seq(n, _ => "..")
  }

  /** Each ".." drops one name, as long as there are names to drop. */
  lemma {:induction false} NormalizePop(acc: seq<string>, n: nat, rest: seq<string>)
    requires n <= |acc|
    ensures Normalize(acc, Ups(n) + rest) == Normalize(acc[..|acc| - n], rest)
    decreases n
  {
    if n == 0 {
      assert Ups(0) + rest == rest;
      assert acc[..|acc|] == acc;
    } else {
      assert (Ups(n) + rest)[0] == "..";
      assert (Ups(n) + rest)[1..] == Ups(n - 1) + rest;
      NormalizePop(acc[..|acc| - 1], n - 1, rest);
      assert acc[..|acc| - 1][..|acc| - 1 - (n - 1)] == acc[..|acc| - n];
    }
  }

  /** PurePath.relative_to(root): defined when root is a prefix of p, except that the empty
      path is not a prefix of an absolute one; otherwise ValueError. */
  predicate IsRelativeTo(p: Path, root: Path) {
    root <= p && (root == [] ==> !IsAbsolute(p))
  }

  function RelativeTo(p: Path, root: Path): (r: Result<Path>)
    ensures r.Success? <==> IsRelativeTo(p, root)
    ensures r.Failure? ==> r.error == NotInSubpath
    ensures r.Success? ==> root + r.value == p
    ensures r.Success? && WellFormed(p) ==> !IsAbsolute(r.value)
  {
    if IsRelativeTo(p, root) then
      assert root + p[|root|..] == p;
      assert WellFormed(p) && |root| < |p| ==> IsName(p[|root|]);
      Success(p[|root|..])
    else Failure(NotInSubpath)
  }
}
