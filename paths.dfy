/**
 * POSIX path strings as `pathlib` sees them. Every path handled by the model is taken to be in the
 * normal form `str(Path(s))` produces (no empty or "." components, no trailing separator except for
 * the root "/"); ".", the current directory, is the one path whose `name` is empty besides "/".
 */
module Paths {
  import opened Wrappers

  /** Does `s` end with `t` (Python's `s.endswith(t)`). */
  predicate EndsWith(s: string, t: string) {
    |t| <= |s| && s[|s| - |t|..] == t
  }

  /** Does `t` start at position `i` of `s`. */
  predicate OccursAt(s: string, t: string, i: int) {
    0 <= i <= |s| - |t| && s[i..i + |t|] == t
  }

  /** Does `t` occur in `s` as a contiguous piece (Python's `t in s`). */
  ghost predicate Contains(s: string, t: string) {
    exists i :: OccursAt(s, t, i)
  }

  /** Position of the last occurrence of `c` in `s`, -1 when there is none (Python's `s.rfind(c)`). */
  function LastIndexOf(s: string, c: char): (i: int)
    ensures -1 <= i < |s|
    ensures 0 <= i ==> s[i] == c
    ensures forall k :: i < k < |s| ==> s[k] != c
  {
    if s == [] then -1
    else if s[|s| - 1] == c then |s| - 1
    else LastIndexOf(s[..|s| - 1], c)
  }

  /** The final component of a path (`PurePath.name`). */
  function Name(p: string): (n: string)
    ensures '/' !in n
    ensures p != "." ==> EndsWith(p, n)
  {
    if p == "." then "" else p[LastIndexOf(p, '/') + 1..]
  }

  /**
   * The path up to and including its last separator, "" when it has none: the text that
   * `str(p.parent / x)` puts in front of a relative name x ("a.mp4" has parent "." and gives just x).
   */
  function DirPrefix(p: string): (d: string)
    ensures d == "" || d[|d| - 1] == '/'
    ensures '/' in p ==> d != ""
  {
    p[..LastIndexOf(p, '/') + 1]
  }

  /** The extension of a final component (`PurePath.suffix`): from its last dot, unless that dot starts or ends the name. */
  function Suffix(name: string): (s: string)
    ensures s == "" || (s[0] == '.' && 2 <= |s| < |name| && EndsWith(name, s))
  {
    var i := LastIndexOf(name, '.');
    if 0 < i < |name| - 1 then name[i..] else ""
  }

  /** The final component without its suffix (`PurePath.stem`). */
  function Stem(name: string): (s: string)
    ensures s + Suffix(name) == name
    ensures s == "" <==> name == ""
  {
    var i := LastIndexOf(name, '.');
    if 0 < i < |name| - 1 then name[..i] else name
  }

  /**
   * `PurePath.with_suffix(ext)` for a valid extension: the same parent with the stem followed by `ext`.
   * None stands for the ValueError pathlib raises when the path has an empty name.
   */
  function WithSuffix(p: string, ext: string): (r: Option<string>)
    ensures r.None? <==> Name(p) == ""
  {
    if Name(p) == "" then None else Some(DirPrefix(p) + Stem(Name(p)) + ext)
  }

  /** `str(Path(dir) / name)` for a relative `name`. */
  function Join(dir: string, name: string): (p: string)
    ensures EndsWith(p, name)
  {
    if dir == "" || dir == "." then name
    else if dir[|dir| - 1] == '/' then dir + name
    else dir + "/" + name
  }

  /** A separator-free text placed after a directory prefix is the name of the result, and the prefix its parent. */
  lemma NameAfterPrefix(d: string, s: string)
    requires d == "" || d[|d| - 1] == '/'
    requires '/' !in s && s != "."
    ensures Name(d + s) == s
    ensures DirPrefix(d + s) == d
  {
    var p := d + s;
    assert p[..|d|] == d && p[|d|..] == s;
    var i := LastIndexOf(p, '/');
    assert i < |d| by {
      assert forall k :: |d| <= k < |p| ==> p[k] == s[k - |d|];
    }
    if d != "" {
      assert p[|d| - 1] == '/';
    }
  }

  /** Joining a plain name onto a directory gives a path with that name. */
  lemma NameOfJoin(dir: string, name: string)
    requires '/' !in name && name != "."
    ensures Name(Join(dir, name)) == name
  {
    if dir == "" || dir == "." {
    } else if dir[|dir| - 1] == '/' {
      NameAfterPrefix(dir, name);
    } else {
      assert dir + "/" + name == (dir + "/") + name;
      NameAfterPrefix(dir + "/", name);
    }
  }

  /** The replacement path of `with_suffix` keeps the parent and is named stem + extension. */
  lemma WithSuffixShape(p: string, ext: string)
    requires Name(p) != ""
    requires '/' !in ext && ext != ""
    ensures Name(WithSuffix(p, ext).value) == Stem(Name(p)) + ext
    ensures DirPrefix(WithSuffix(p, ext).value) == DirPrefix(p)
  {
    AfterStem(p, ext);
  }

  /** Text appended to the stem, in place of the suffix, stays in the last component. */
  lemma AfterStem(p: string, ext: string)
    requires '/' !in ext && ext != "" && (Name(p) != "" || ext != ".")
    ensures Name(DirPrefix(p) + Stem(Name(p)) + ext) == Stem(Name(p)) + ext
    ensures DirPrefix(DirPrefix(p) + Stem(Name(p)) + ext) == DirPrefix(p)
  {
    var n := Name(p);
    var st := Stem(n);
    assert st + Suffix(n) == n;
    assert '/' !in st by {
      forall k | 0 <= k < |st| ensures st[k] != '/' {
        assert st[k] == n[k];
      }
    }
    var s := st + ext;
    assert s != "." by {
      if st == "" { assert s == ext; } else { assert |s| >= 2; }
    }
    assert '/' !in s by {
      forall k | 0 <= k < |s| ensures s[k] != '/' {
        if k < |st| { assert s[k] == st[k]; } else { assert s[k] == ext[k - |st|]; }
      }
    }
    assert DirPrefix(p) + st + ext == DirPrefix(p) + s;
    NameAfterPrefix(DirPrefix(p), s);
  }

  /**
   * The suffix starts at the last dot of the name and holds no further dot; it is empty exactly when
   * the name is empty, ends with a dot, or has no dot after its first character.
   */
  lemma SuffixExact(name: string)
    ensures Suffix(name) != "" ==> '.' !in Suffix(name)[1..]
    ensures Suffix(name) == "" <==>
      (name == "" || name[|name| - 1] == '.' || forall i :: 0 < i < |name| ==> name[i] != '.')
    ensures Suffix(name) == "" ==> Stem(name) == name
  {
    var i := LastIndexOf(name, '.');
    if 0 < i < |name| - 1 {
      var s := name[i..];
      forall k | 1 <= k < |s| ensures s[k] != '.' {
        assert s[k] == name[i + k];
      }
      assert s[1..] == name[i + 1..];
    }
  }

  /** Joining onto a named directory puts the directory, with one separator, in front of the name. */
  lemma JoinParent(dir: string, name: string)
    requires dir != "" && dir != "." && '/' !in name && name != "."
    ensures DirPrefix(Join(dir, name)) == (if dir[|dir| - 1] == '/' then dir else dir + "/")
  {
    if dir[|dir| - 1] == '/' {
      NameAfterPrefix(dir, name);
    } else {
      assert dir + "/" + name == (dir + "/") + name;
      NameAfterPrefix(dir + "/", name);
    }
  }

  /** A piece placed between two texts occurs in the result. */
  lemma ContainsMiddle(a: string, t: string, b: string)
    ensures Contains(a + t + b, t)
  {
    assert OccursAt(a + t + b, t, |a|) by {
      assert (a + t + b)[|a|..|a| + |t|] == t;
    }
  }

  /** A text lacking a character that `t` has cannot contain `t`. */
  lemma NotContainsWithout(s: string, t: string, c: char)
    requires c in t && c !in s
    ensures !Contains(s, t)
  {
    var j :| 0 <= j < |t| && t[j] == c;
    forall i | 0 <= i <= |s| - |t| ensures !OccursAt(s, t, i) {
      assert s[i..i + |t|][j] == s[i + j] != c;
    }
  }
}
