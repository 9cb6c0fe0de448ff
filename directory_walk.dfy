/**
 * `getDirectoryFilesRecursive` / `getDirectoryFiles` of src/lib/context.ts
 * over an abstract directory tree: the regular files under a directory,
 * depth first in listing order, as paths relative to the directory the walk
 * started from. A directory that cannot be read contributes nothing.
 */
module DirectoryWalk {

  /** A directory entry as `readdirSync(..., { withFileTypes: true })`
      reports it; anything neither file nor directory is `Other`. */
  datatype Entry =
    | File(name: string)
    | Directory(name: string, listing: Listing)
    | Other(name: string)

  /** What reading a directory gives: its entries in order, or a failure. */
  datatype Listing = Readable(entries: seq<Entry>) | Unreadable

  /** A path as its segments below the initial directory. */
  type Path = seq<string>

  /** The files listed under one entry, each path prefixed by `prefix`. */
  function EntryFiles(e: Entry, prefix: Path): seq<Path>
    decreases e
  {
    match e
    case File(name) => [prefix + [name]]
    case Other(_) => []
    case Directory(name, Unreadable) => []
    case Directory(name, Readable(entries)) => EntriesFiles(entries, prefix + [name])
  }

  /** The files under a run of entries, in order: each directory replaced in
      place by its own files. */
  function EntriesFiles(entries: seq<Entry>, prefix: Path): seq<Path>
    decreases entries
  {
    if entries == [] then [] else EntryFiles(entries[0], prefix) + EntriesFiles(entries[1..], prefix)
  }

  /** The walk of a whole listing. */
  function ListingFiles(listing: Listing, prefix: Path): seq<Path> {
    match listing
    case Unreadable => []
    case Readable(entries) => EntriesFiles(entries, prefix)
  }

  /** `q` leads, name by name through readable directories, from `e` to a
      regular file. */
  predicate EntryReaches(e: Entry, q: Path)
    decreases e
  {
    match e
    case File(name) => q == [name]
    case Other(_) => false
    case Directory(name, Unreadable) => false
    case Directory(name, Readable(entries)) => |q| > 1 && q[0] == name && EntriesReach(entries, q[1..])
  }

  predicate EntriesReach(entries: seq<Entry>, q: Path)
    decreases entries
  {
    entries != [] && (EntryReaches(entries[0], q) || EntriesReach(entries[1..], q))
  }

  /** The walk lists exactly the regular files: a path is listed under
      `prefix` if and only if it is `prefix` followed by the names that lead
      to a file. Directories and other entries are never listed. */
  lemma {:induction false} EntryFilesExact(e: Entry, prefix: Path, p: Path)
    ensures p in EntryFiles(e, prefix) <==>
      |prefix| < |p| && p[..|prefix|] == prefix && EntryReaches(e, p[|prefix|..])
    decreases e
  {
    match e
    case File(name) =>
      if |prefix| < |p| && p[..|prefix|] == prefix && p[|prefix|..] == [name] {
        assert p == prefix + [name];
      }
    case Other(_) =>
    case Directory(name, Unreadable) =>
    case Directory(name, Readable(entries)) =>
      var inner := prefix + [name];
      EntriesFilesExact(entries, inner, p);
      if |prefix| < |p| && p[..|prefix|] == prefix {
        var q := p[|prefix|..];
        if |q| > 1 && q[0] == name {
          assert p[..|inner|] == inner;
          assert p[|inner|..] == q[1..];
        }
        if |inner| < |p| && p[..|inner|] == inner {
          assert q[0] == name && q[1..] == p[|inner|..];
        }
      }
  }

  lemma {:induction false} EntriesFilesExact(entries: seq<Entry>, prefix: Path, p: Path)
    ensures p in EntriesFiles(entries, prefix) <==>
      |prefix| < |p| && p[..|prefix|] == prefix && EntriesReach(entries, p[|prefix|..])
    decreases entries
  {
    if entries != [] {
      EntryFilesExact(entries[0], prefix, p);
      EntriesFilesExact(entries[1..], prefix, p);
    }
  }

  /** An unreadable directory contributes no files and raises nothing. */
  lemma {:induction false} UnreadableIsEmpty(name: string, prefix: Path)
    ensures EntryFiles(Directory(name, Unreadable), prefix) == []
    ensures ListingFiles(Unreadable, prefix) == []
  {
  }

  /** `getDirectoryFilesRecursive`: the loop over the entries of the current
      directory, descending into subdirectories; `prefix` is the current
      directory relative to the initial one. */
  method GetDirectoryFilesRecursive(listing: Listing, prefix: Path) returns (directoryFiles: seq<Path>)
    ensures directoryFiles == ListingFiles(listing, prefix)
    decreases listing
  {
    directoryFiles := [];
    if listing.Unreadable? {
      return;
    }
    var dirents := listing.entries;
    var k := 0;
    while k < |dirents|
      invariant 0 <= k <= |dirents|
      invariant directoryFiles + EntriesFiles(dirents[k..], prefix) == EntriesFiles(dirents, prefix)
    {
      var dirent := dirents[k];
      ghost var before := directoryFiles;
      ghost var rest := EntriesFiles(dirents[k + 1..], prefix);
      assert dirents[k..][0] == dirent && dirents[k..][1..] == dirents[k + 1..];
      assert before + (EntryFiles(dirent, prefix) + rest) == EntriesFiles(dirents, prefix);
      var direntRelativePath := prefix + [dirent.name];
      match dirent {
      case Directory(name, sublisting) =>
        var nested := GetDirectoryFilesRecursive(sublisting, direntRelativePath);
        directoryFiles := directoryFiles + nested;
      case File(name) =>
        directoryFiles := directoryFiles + [direntRelativePath];
      case Other(_) =>
      }
      assert directoryFiles == before + EntryFiles(dirent, prefix);
      assert directoryFiles + rest == before + (EntryFiles(dirent, prefix) + rest);
      k := k + 1;
    }
  }

  /** `getDirectoryFiles`: the walk with the directory as both the current and
      the initial one, so every path is relative to it. */
  method GetDirectoryFiles(listing: Listing) returns (files: seq<Path>)
    ensures files == ListingFiles(listing, [])
  {
    files := GetDirectoryFilesRecursive(listing, []);
  }

  /** What `getDirectoryFiles` lists is exactly the regular files below the
      directory: every listed path leads to one, and every one is listed. */
  lemma {:induction false} ListsExactlyTheFiles(listing: Listing, p: Path)
    ensures p in ListingFiles(listing, []) <==> listing.Readable? && |p| > 0 && EntriesReach(listing.entries, p)
  {
    if listing.Readable? {
      EntriesFilesExact(listing.entries, [], p);
      assert p[0..] == p;
    }
  }

  /** A path as `path.relative` spells it on a POSIX system: the segments
      joined with `/`. */
  function RelativePath(p: Path): (r: string)
    ensures |p| == 1 ==> r == p[0]
    ensures |p| >= 1 ==> |p[0]| <= |r| && r[..|p[0]|] == p[0]
  {
    if |p| == 0 then "" else if |p| == 1 then p[0] else p[0] + "/" + RelativePath(p[1..])
  }

  /** Every segment is a real file or directory name: non-empty and free of
      `/`. */
  predicate Segmented(p: Path) {
    forall k | 0 <= k < |p| :: p[k] != "" && '/' !in p[k]
  }

  /** After the first segment comes a `/` exactly when more segments follow,
      and then the spelling of the rest. */
  lemma {:induction false} RelativePathAfterHead(p: Path)
    requires |p| >= 1
    ensures |p| == 1 ==> |RelativePath(p)| == |p[0]|
    ensures |p| > 1 ==>
      |p[0]| < |RelativePath(p)| && RelativePath(p)[|p[0]|] == '/'
      && RelativePath(p)[|p[0]| + 1..] == RelativePath(p[1..])
  {
    if |p| > 1 {
      var r, h, t := RelativePath(p), p[0], RelativePath(p[1..]);
      assert r == h + "/" + t;
      assert r[|h| + 1..] == t;
    }
  }

  /** Different paths made of proper names are spelled differently, so the
      files of a walk keep distinct relative paths. */
  lemma {:induction false} RelativePathInjective(p: Path, q: Path)
    requires Segmented(p) && Segmented(q) && RelativePath(p) == RelativePath(q)
    ensures p == q
    decreases |p|
  {
    var r := RelativePath(p);
    if |p| > 0 && |q| > 0 {
      var a, b := p[0], q[0];
      RelativePathAfterHead(p);
      RelativePathAfterHead(q);
      assert |a| == |b|;
      assert a == r[..|a|] == b;
      if |p| > 1 && |q| > 1 {
        RelativePathInjective(p[1..], q[1..]);
        assert p == [a] + p[1..] && q == [b] + q[1..];
      }
    }
  }
}
