/**
 * The two `os.path` functions the extractor uses, for POSIX paths.
 */
module PosixPath {
  import opened PyStr

  /**
   * `os.path.join(a, b)`: an absolute `b` replaces `a`; otherwise `b` is
   * appended with one `/` in between, unless `a` is empty or already ends in `/`.
   */
  function Join(a: string, b: string): string
  {
    if StartsWith(b, "/") then b
    else if a == [] || a[|a| - 1] == '/' then a + b
    else a + "/" + b
  }

  /** `os.path.basename(p)`: what follows the last `/` of `p`, or all of `p` when it has none. */
  function Basename(p: string): (name: string)
    ensures '/' !in name
    decreases |p|
  {
    if p == [] || p[|p| - 1] == '/' then []
    else Basename(p[..|p| - 1]) + [p[|p| - 1]]
  }

  /**
   * The base name is the longest slash-free suffix of `p`: a suffix that is
   * all of `p` or starts right after a `/`.
   */
  lemma {:induction false} BasenameIsLastComponent(p: string)
    ensures var name := Basename(p);
      && |name| <= |p| && p[|p| - |name|..] == name
      && (|name| == |p| || p[|p| - |name| - 1] == '/')
    decreases |p|
  {
    if p != [] && p[|p| - 1] != '/' {
      var init := p[..|p| - 1];
      BasenameIsLastComponent(init);
      var name := Basename(init);
      assert p[|p| - |name| - 1..] == init[|init| - |name|..] + [p[|p| - 1]];
      if |name| < |init| {
        assert p[|p| - |name| - 2] == init[|init| - |name| - 1];
      }
    }
  }

  /** A slash-free name placed after a `/` (or at the start) is the base name. */
  lemma {:induction false} BasenameAfterSlash(dir: string, name: string)
    requires '/' !in name
    requires dir == [] || dir[|dir| - 1] == '/'
    ensures Basename(dir + name) == name
    decreases |name|
  {
    var p := dir + name;
    if name == [] {
      assert p == dir;
    } else {
      var last := name[|name| - 1];
      var init := name[..|name| - 1];
      assert last in name;
      assert name == init + [last];
      assert p == (dir + init) + [last];
      assert p[..|p| - 1] == dir + init;
      assert '/' !in init by {
        forall c | c in init ensures c in name { }
      }
      BasenameAfterSlash(dir, init);
    }
  }

  /** The base name of a directory joined with a slash-free name is that name. */
  lemma BasenameOfJoin(dir: string, name: string)
    requires '/' !in name
    ensures Basename(Join(dir, name)) == name
  {
    assert !StartsWith(name, "/") by {
      if name != [] { assert name[0] in name; }
    }
    if dir == [] || dir[|dir| - 1] == '/' {
      BasenameAfterSlash(dir, name);
    } else {
      assert dir + "/" + name == (dir + "/") + name;
      BasenameAfterSlash(dir + "/", name);
    }
  }
}
