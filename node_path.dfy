/** `path.basename` and `path.extname` of Node's POSIX path module. */
module NodePath {
  import opened Strings

  function StripTrailingSlashes(p: string): (r: string)
    ensures r == [] || r[|r| - 1] != '/'
    ensures forall i :: |r| <= i < |p| ==> p[i] == '/'
  {
    if |p| > 0 && p[|p| - 1] == '/' then StripTrailingSlashes(p[..|p| - 1]) else p
  }

  /** The last path component, trailing slashes ignored. */
  function Basename(p: string): (r: string)
    ensures '/' !in r
  {
    LastSegment(StripTrailingSlashes(p), '/')
  }

  /** The suffix of a path component from its last dot on, or "" when the
      component has no dot, has its only dot in front, or is "..". */
  function ComponentExtension(b: string): string
  {
    var tail := LastSegment(b, '.');
    if |tail| == |b| || |tail| + 1 == |b| || b == ".." then "" else "." + tail
  }

  /** `path.extname(p)` */
  function Extname(p: string): string
  {
    ComponentExtension(Basename(p))
  }

  /** An extension is empty or a dot followed by dot-free text, and it ends
      the path component. */
  lemma ExtensionShape(b: string)
    ensures var r := ComponentExtension(b);
      (r == "" || (r[0] == '.' && '.' !in r[1..])) &&
      |r| <= |b| && r == b[|b| - |r|..]
  {
    var tail := LastSegment(b, '.');
    LastSegmentSuffix(b, '.');
    if !(|tail| == |b| || |tail| + 1 == |b| || b == "..") {
      var r := "." + tail;
      var d := |b| - |tail| - 1;
      assert r[1..] == tail;
      assert b[d + 1..] == tail;
      assert b[d..] == [b[d]] + b[d + 1..];
      assert ComponentExtension(b) == r;
    }
  }

  /** The name after the last separator is the basename. */
  lemma BasenameOfJoin(dir: string, name: string)
    requires name != "" && '/' !in name
    ensures Basename(dir + "/" + name) == name
  {
    var p := dir + "/" + name;
    assert p == dir + ['/'] + name;
    assert p[|p| - 1] == name[|name| - 1];
    LastSegmentAfter(dir, '/', name);
  }

  /** A name with one dot that is not its first character has the
      dotted suffix as its extension. */
  lemma ExtnameOfName(dir: string, stem: string, ext: string)
    requires stem != "" && '/' !in stem && '.' !in stem
    requires '/' !in ext && '.' !in ext
    ensures Extname(dir + "/" + stem + "." + ext) == "." + ext
  {
    var name := stem + "." + ext;
    assert '/' !in name by {
      assert name == stem + ['.'] + ext;
    }
    assert dir + "/" + stem + "." + ext == dir + "/" + name;
    BasenameOfJoin(dir, name);
    assert name == stem + ['.'] + ext;
    LastSegmentAfter(stem, '.', ext);
    assert name[0] != '.';
    assert name != "..";
  }
}
