/**
 * The listing of the download directory (app.py:218-238): the regular files whose suffix is .mp4,
 * .webm or .mkv, newest first. Python's `list.sort` is stable, also with `reverse=True`, so files
 * modified in the same second keep the order in which the directory listed them.
 */
module Listing {
  import opened Paths

  /**
   * One entry of the download directory, in the order the directory yields it. `modified` is the
   * modification time in whole seconds of local time: the resolution of the text the listing sorts by.
   */
  datatype DirEntry = DirEntry(name: string, isFile: bool, size: nat, modified: int)

  /** One listed file (the `size_mb` field and the text form of `modified` are derived from these). */
  datatype FileInfo = FileInfo(name: string, size: nat, modified: int)

  /** The suffixes the listing shows, compared case-sensitively. */
  const ListedSuffixes: set<string> := {".mp4", ".webm", ".mkv"}

  predicate IsListed(e: DirEntry) {
    e.isFile && Suffix(e.name) in ListedSuffixes
  }

  function Info(e: DirEntry): FileInfo {
    FileInfo(e.name, e.size, e.modified)
  }

  /** The files the loop collects, in directory order. */
  function Videos(entries: seq<DirEntry>): seq<FileInfo> {
    if entries == [] then []
    else
      var last := entries[|entries| - 1];
      Videos(entries[..|entries| - 1]) + (if IsListed(last) then [Info(last)] else [])
  }

  /** Puts `x` before the first file that is not newer than it. */
  function Insert(x: FileInfo, t: seq<FileInfo>): seq<FileInfo> {
    if t == [] || t[0].modified <= x.modified then [x] + t
    else [t[0]] + Insert(x, t[1..])
  }

  /** The stable sort by modification time, newest first. */
  function NewestFirst(s: seq<FileInfo>): seq<FileInfo> {
    if s == [] then [] else Insert(s[0], NewestFirst(s[1..]))
  }

  /** The files with modification time `m`, in their order in `s`. */
  function ModifiedAt(s: seq<FileInfo>, m: int): seq<FileInfo> {
    if s == [] then []
    else (if s[0].modified == m then [s[0]] else []) + ModifiedAt(s[1..], m)
  }

  predicate NewestToOldest(s: seq<FileInfo>) {
    forall i, j :: 0 <= i < j < |s| ==> s[i].modified >= s[j].modified
  }

  /** `list_downloads`: the loop over the directory, then the sort. */
  method ListDownloads(entries: seq<DirEntry>) returns (files: seq<FileInfo>)
    ensures files == NewestFirst(Videos(entries))
  {
    files := [];
    var i := 0;
    while i < |entries|
      invariant 0 <= i <= |entries|
      invariant files == Videos(entries[..i])
    {
      assert entries[..i + 1][..i] == entries[..i];
      if IsListed(entries[i]) {
        files := files + [Info(entries[i])];
      }
      i := i + 1;
    }
    assert entries[..i] == entries;
    files := NewestFirst(files);
  }

  /** Every collected file comes from a listed entry. */
  lemma {:induction false} VideosFromListed(entries: seq<DirEntry>, f: FileInfo)
    requires f in Videos(entries)
    ensures exists e :: e in entries && IsListed(e) && f == Info(e)
  {
    var init := entries[..|entries| - 1];
    var last := entries[|entries| - 1];
    if f in Videos(init) {
      VideosFromListed(init, f);
      var e :| e in init && IsListed(e) && f == Info(e);
      assert e in entries;
    } else {
      assert IsListed(last) && f == Info(last);
    }
  }

  /** Every listed entry is collected. */
  lemma {:induction false} ListedInVideos(entries: seq<DirEntry>, e: DirEntry)
    requires e in entries && IsListed(e)
    ensures Info(e) in Videos(entries)
  {
    var init := entries[..|entries| - 1];
    if e == entries[|entries| - 1] {
    } else {
      assert e in init by {
        var k :| 0 <= k < |entries| && entries[k] == e;
        assert k < |entries| - 1 && init[k] == e;
      }
      ListedInVideos(init, e);
    }
  }

  lemma {:induction false} InsertMultiset(x: FileInfo, t: seq<FileInfo>)
    ensures multiset(Insert(x, t)) == multiset(t) + multiset{x}
    decreases |t|
  {
    if t != [] && t[0].modified > x.modified {
      InsertMultiset(x, t[1..]);
      assert t == [t[0]] + t[1..];
    }
  }

  /** The sort returns the same files. */
  lemma {:induction false} NewestFirstPermutation(s: seq<FileInfo>)
    ensures multiset(NewestFirst(s)) == multiset(s)
    decreases |s|
  {
    if s != [] {
      NewestFirstPermutation(s[1..]);
      InsertMultiset(s[0], NewestFirst(s[1..]));
      assert s == [s[0]] + s[1..];
    }
  }

  lemma {:induction false} InsertSorted(x: FileInfo, t: seq<FileInfo>)
    requires NewestToOldest(t)
    ensures NewestToOldest(Insert(x, t))
    ensures |Insert(x, t)| == |t| + 1
    ensures Insert(x, t)[0] == x || (t != [] && Insert(x, t)[0] == t[0])
    decreases |t|
  {
    if t != [] && t[0].modified > x.modified {
      var rest := Insert(x, t[1..]);
      assert NewestToOldest(t[1..]) by {
        forall i, j | 0 <= i < j < |t[1..]| ensures t[1..][i].modified >= t[1..][j].modified {
          assert t[1..][i] == t[i + 1] && t[1..][j] == t[j + 1];
        }
      }
      InsertSorted(x, t[1..]);
      var r := [t[0]] + rest;
      forall i, j | 0 <= i < j < |r| ensures r[i].modified >= r[j].modified {
        if i == 0 {
          assert r[j] == rest[j - 1];
          assert rest[j - 1] == x || rest[j - 1] in t[1..] by {
            InsertMultiset(x, t[1..]);
            assert rest[j - 1] in multiset(rest);
          }
          if rest[j - 1] != x {
            var k :| 0 <= k < |t[1..]| && t[1..][k] == rest[j - 1];
            assert t[k + 1] == rest[j - 1];
          }
        } else {
          assert r[i] == rest[i - 1] && r[j] == rest[j - 1];
        }
      }
    }
  }

  /** The sort puts newer files first. */
  lemma {:induction false} NewestFirstSorted(s: seq<FileInfo>)
    ensures NewestToOldest(NewestFirst(s))
    ensures |NewestFirst(s)| == |s|
    decreases |s|
  {
    if s != [] {
      NewestFirstSorted(s[1..]);
      InsertSorted(s[0], NewestFirst(s[1..]));
    }
  }

  lemma {:induction false} InsertModifiedAt(x: FileInfo, t: seq<FileInfo>, m: int)
    ensures ModifiedAt(Insert(x, t), m) == (if x.modified == m then [x] else []) + ModifiedAt(t, m)
    decreases |t|
  {
    if t != [] && t[0].modified > x.modified {
      InsertModifiedAt(x, t[1..], m);
      var r := Insert(x, t);
      assert r[0] == t[0] && r[1..] == Insert(x, t[1..]);
    }
  }

  /** The sort is stable: the files of one modification time keep their order. */
  lemma {:induction false} NewestFirstStable(s: seq<FileInfo>, m: int)
    ensures ModifiedAt(NewestFirst(s), m) == ModifiedAt(s, m)
    decreases |s|
  {
    if s != [] {
      NewestFirstStable(s[1..], m);
      InsertModifiedAt(s[0], NewestFirst(s[1..]), m);
    }
  }

  /** A file is listed exactly when it comes from a regular file with a listed suffix. */
  lemma ListedFiles(entries: seq<DirEntry>, f: FileInfo)
    ensures f in NewestFirst(Videos(entries)) ==> exists e :: e in entries && IsListed(e) && f == Info(e)
    ensures (exists e :: e in entries && IsListed(e) && f == Info(e)) ==> f in NewestFirst(Videos(entries))
  {
    NewestFirstPermutation(Videos(entries));
    assert f in NewestFirst(Videos(entries)) <==> f in Videos(entries) by {
      assert f in multiset(NewestFirst(Videos(entries))) <==> f in multiset(Videos(entries));
    }
    if f in Videos(entries) {
      VideosFromListed(entries, f);
    }
    if e :| e in entries && IsListed(e) && f == Info(e) {
      ListedInVideos(entries, e);
    }
  }
}
