/**
 * The POSIX rules of Node's `path.basename` and `path.extname`, which decide a resource's
 * display name, its storage file name, and the extension used for MIME lookup.
 */
module Paths {
  import opened Common
  import opened Strings

  function DropTrailingSlashes(p: string): (q: string)
    ensures StartsWith(p, q)
    ensures q == "" || q[|q| - 1] != '/'
    decreases |p|
  {
    if |p| > 0 && p[|p| - 1] == '/' then DropTrailingSlashes(p[..|p| - 1]) else p
  }

  /** The part of `q` after its last `/` (all of `q` when it has none). */
  function AfterLastSlash(q: string): (r: string)
    ensures '/' !in r && EndsWith(q, r)
    decreases |q|
  {
    if |q| == 0 || q[|q| - 1] == '/' then ""
    else
      var r := AfterLastSlash(q[..|q| - 1]);
      assert q[..|q| - 1][|q| - 1 - |r|..] == r;
      assert q[|q| - 1 - |r|..] == r + [q[|q| - 1]];
      r + [q[|q| - 1]]
  }

  /** `path.basename(p)`: the last path segment, trailing slashes ignored; never holds a `/`. */
  function Basename(p: string): (b: string)
    ensures '/' !in b
  {
    AfterLastSlash(DropTrailingSlashes(p))
  }

  /** The position of the last `.` in `b`. */
  function LastDot(b: string): (r: Option<nat>)
    ensures r.Some? ==> r.value < |b| && b[r.value] == '.' && '.' !in b[r.value + 1..]
    ensures r.None? ==> '.' !in b
    decreases |b|
  {
    if |b| == 0 then None
    else if b[|b| - 1] == '.' then Some(|b| - 1)
    else
      var r := LastDot(b[..|b| - 1]);
      assert r.Some? ==> b[r.value + 1..] == b[..|b| - 1][r.value + 1..] + [b[|b| - 1]];
      assert r.None? ==> b == b[..|b| - 1] + [b[|b| - 1]];
      r
  }

  /**
   * `path.extname(p)`: from the last `.` of the base name to its end; empty when the base name
   * has no `.`, when its only leading `.` is the last one (a dot-file), or when it is `..`.
   */
  function Extname(p: string): (e: string)
    ensures e == "" || (e[0] == '.' && '/' !in e && EndsWith(Basename(p), e) && '.' !in e[1..])
  {
    var b := Basename(p);
    match LastDot(b)
    case None => ""
    case Some(d) =>
      if d == 0 || b == ".." then ""
      else
        assert forall i :: 0 <= i < |b| - d ==> b[d..][i] == b[d + i];
        b[d..]
  }

  /** `path.join(a, b)`, without the normalisation of `.` and `..` segments. */
  function JoinPath(a: string, b: string): string {
    a + "/" + b
  }

  lemma {:induction false} AfterLastSlashOfSlashFree(s: string)
    requires '/' !in s
    ensures AfterLastSlash(s) == s
    decreases |s|
  {
    if |s| > 0 {
      assert s == s[..|s| - 1] + [s[|s| - 1]];
      AfterLastSlashOfSlashFree(s[..|s| - 1]);
    }
  }

  /** A name without `/` is its own base name. */
  lemma BasenameOfSlashFree(s: string)
    requires '/' !in s
    ensures Basename(s) == s
  {
    AfterLastSlashOfSlashFree(s);
  }

  /** The base name of a joined path is its last component, as long as that component holds no `/` and is not empty. */
  lemma BasenameOfJoin(dir: string, file: string)
    requires '/' !in file && file != ""
    ensures Basename(JoinPath(dir, file)) == file
  {
    var p := JoinPath(dir, file);
    assert DropTrailingSlashes(p) == p;
    assert p == (dir + "/") + file;
    AfterLastSlashOfSuffix(dir + "/", file);
  }

  lemma {:induction false} AfterLastSlashOfSuffix(dir: string, file: string)
    requires |dir| > 0 && dir[|dir| - 1] == '/' && '/' !in file
    ensures AfterLastSlash(dir + file) == file
    decreases |file|
  {
    if |file| > 0 {
      var s := dir + file;
      assert s[..|s| - 1] == dir + file[..|file| - 1];
      AfterLastSlashOfSuffix(dir, file[..|file| - 1]);
      assert file == file[..|file| - 1] + [file[|file| - 1]];
    } else {
      assert dir + file == dir;
    }
  }

  lemma {:induction false} LastDotOfSuffix(a: string, ext: string)
    requires |ext| >= 1 && ext[0] == '.' && '.' !in ext[1..]
    ensures LastDot(a + ext) == Some(|a|)
    decreases |ext|
  {
    var s := a + ext;
    if |ext| > 1 {
      assert s[|s| - 1] == ext[|ext| - 1] && ext[|ext| - 1] == ext[1..][|ext| - 2];
      assert s[..|s| - 1] == a + ext[..|ext| - 1];
      assert ext[..|ext| - 1][1..] == ext[1..][..|ext| - 2];
      LastDotOfSuffix(a, ext[..|ext| - 1]);
    }
  }

  /** A slash-free name `stem + ext` whose last dot starts `ext` has extension `ext`. */
  lemma ExtnameOfSuffix(stem: string, ext: string)
    requires stem != "" && '/' !in stem && '/' !in ext
    requires |ext| >= 2 && ext[0] == '.' && '.' !in ext[1..]
    ensures Extname(stem + ext) == ext
  {
    var b := stem + ext;
    assert '/' !in b by {
      forall i | 0 <= i < |b|
        ensures b[i] != '/'
      {
        if i >= |stem| {
          assert b[i] == ext[i - |stem|];
        }
      }
    }
    BasenameOfSlashFree(b);
    LastDotOfSuffix(stem, ext);
    assert b != "..";
    assert b[|stem|..] == ext;
  }

  // ---- lower-casing a path keeps its structure ----

  lemma {:induction false} DropTrailingSlashesLower(p: string)
    ensures DropTrailingSlashes(ToLower(p)) == ToLower(DropTrailingSlashes(p))
    decreases |p|
  {
    if |p| > 0 {
      LowerCharKeepsMarks(p[|p| - 1]);
      ToLowerSlices(p, |p| - 1);
      if p[|p| - 1] == '/' {
        DropTrailingSlashesLower(p[..|p| - 1]);
      }
    }
  }

  lemma AfterLastSlashSnoc(p: string, c: char)
    ensures AfterLastSlash(p + [c]) == if c == '/' then "" else AfterLastSlash(p) + [c]
  {
    assert (p + [c])[..|p|] == p;
  }

  lemma {:induction false} AfterLastSlashLower(q: string)
    ensures AfterLastSlash(ToLower(q)) == ToLower(AfterLastSlash(q))
    decreases |q|
  {
    if |q| > 0 {
      var p, c := q[..|q| - 1], q[|q| - 1];
      assert q == p + [c];
      ToLowerConcat(p, [c]);
      LowerSingle(c);
      LowerCharKeepsMarks(c);
      AfterLastSlashSnoc(p, c);
      AfterLastSlashSnoc(ToLower(p), LowerChar(c));
      if c != '/' {
        AfterLastSlashLower(p);
        ToLowerConcat(AfterLastSlash(p), [c]);
      }
    }
  }

  lemma {:induction false} LastDotLower(b: string)
    ensures LastDot(ToLower(b)) == LastDot(b)
    decreases |b|
  {
    if |b| > 0 {
      LowerCharKeepsMarks(b[|b| - 1]);
      ToLowerSlices(b, |b| - 1);
      if b[|b| - 1] != '.' {
        LastDotLower(b[..|b| - 1]);
      }
    }
  }

  lemma BasenameLower(p: string)
    ensures Basename(ToLower(p)) == ToLower(Basename(p))
  {
    DropTrailingSlashesLower(p);
    AfterLastSlashLower(DropTrailingSlashes(p));
  }

  lemma DotDotLower(b: string)
    ensures ToLower(b) == ".." <==> b == ".."
  {
    if |b| == 2 {
      LowerCharKeepsMarks(b[0]);
      LowerCharKeepsMarks(b[1]);
    }
  }

  /** The extension of a lower-cased path is the lower-cased extension. */
  lemma ExtnameLower(p: string)
    ensures Extname(ToLower(p)) == ToLower(Extname(p))
  {
    var b := Basename(p);
    BasenameLower(p);
    LastDotLower(b);
    DotDotLower(b);
    match LastDot(b)
    case None =>
    case Some(d) => ToLowerSlices(b, d);
  }
}
