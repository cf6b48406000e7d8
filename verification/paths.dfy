/**
 POSIX `os.path.join` for two components, which the script uses to place the
 image and metadata files under their output directories.
 */
module Paths {
  import opened Strings

  /** `os.path.join(a, b)` on POSIX: an absolute `b` replaces `a`; otherwise
      `b` is appended, with one `/` inserted unless `a` is empty or already
      ends with one. */
  function Join(a: string, b: string): string
  {
    if |b| > 0 && b[0] == '/' then b
    else if |a| == 0 || a[|a| - 1] == '/' then a + b
    else a + "/" + b
  }

  /** The joined path always ends with `b`; an absolute `b` is the whole
      result, and a relative one keeps `a` as the path's prefix. */
  lemma JoinKeepsName(a: string, b: string)
    ensures var path := Join(a, b);
      |path| >= |b| && path[|path| - |b|..] == b
    ensures |b| > 0 && b[0] == '/' ==> Join(a, b) == b
    ensures (|b| == 0 || b[0] != '/') ==> a <= Join(a, b)
  {
    var path := Join(a, b);
    if !(|b| > 0 && b[0] == '/') && !(|a| == 0 || a[|a| - 1] == '/') {
      assert path == (a + "/") + b;
    }
  }

  /** The last path component: the text after the last `/`. */
  function Basename(path: string): string
  {
    AfterLast(path, '/')
  }

  /** A relative file name joined to a directory ends up inside it: the path
      is the directory, one `/`, then the name, and the name is the path's
      last component whenever it holds no `/` itself. */
  lemma JoinRelative(dir: string, name: string)
    requires |dir| > 0 && dir[|dir| - 1] != '/'
    requires |name| == 0 || name[0] != '/'
    ensures Join(dir, name) == dir + "/" + name
    ensures '/' !in name ==> Basename(Join(dir, name)) == name
  {
    if '/' !in name {
      AfterLastIs(dir, '/', name);
    }
  }

  /** A name without `/` is always the last component of the joined path,
      whatever the directory looks like. */
  lemma {:induction false} BasenameOfJoin(dir: string, name: string)
    requires '/' !in name
    ensures Basename(Join(dir, name)) == name
  {
    if |dir| == 0 {
      NoSepWhole(name, '/');
      assert Join(dir, name) == name;
    } else if dir[|dir| - 1] == '/' {
      var parent := dir[..|dir| - 1];
      assert dir + name == parent + ['/'] + name;
      AfterLastIs(parent, '/', name);
    } else {
      AfterLastIs(dir, '/', name);
    }
  }
}
