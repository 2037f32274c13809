// Go's path.Base, the one library function whose behaviour the registry
// depends on: a template is registered under the base name of its file.
// Go works on the bytes of a string; '/' is a single byte in UTF-8, so for
// valid UTF-8 strings working on characters gives the same answers. io/fs
// path names are valid UTF-8, so that covers every path the registry sees; a
// Go string with invalid bytes has no counterpart as a Dafny string.

module GoPath {

  // The two helpers below keep their contracts small: Base is unfolded
  // wherever a registry key is mentioned, so what they guarantee beyond
  // "no slash" is stated in separate lemmas.

  /** p with every trailing '/' removed. */
  function TrimTrailingSlashes(p: string): string
    decreases |p|
  {
    if p != [] && p[|p| - 1] == '/' then TrimTrailingSlashes(p[..|p| - 1]) else p
  }

  /** The part of p after its last '/' (all of p when it holds none). */
  function AfterLastSlash(p: string): (r: string)
    ensures '/' !in r
    decreases |p|
  {
    if p == [] || p[|p| - 1] == '/' then [] else AfterLastSlash(p[..|p| - 1]) + [p[|p| - 1]]
  }

  /** TrimTrailingSlashes removes trailing slashes and nothing else. */
  lemma {:induction false} TrimTrailingSlashesSpec(p: string)
    ensures var r := TrimTrailingSlashes(p);
      && r <= p
      && (r == [] || r[|r| - 1] != '/')
      && forall i | |r| <= i < |p| :: p[i] == '/'
    decreases |p|
  {
    if p != [] && p[|p| - 1] == '/' {
      TrimTrailingSlashesSpec(p[..|p| - 1]);
    }
  }

  /** AfterLastSlash keeps a suffix of p that is either all of p or starts
      just after a '/'. */
  lemma {:induction false} AfterLastSlashSpec(p: string)
    ensures var r := AfterLastSlash(p);
      && |r| <= |p| && r == p[|p| - |r|..]
      && (|r| < |p| ==> p[|p| - |r| - 1] == '/')
    decreases |p|
  {
    if p != [] && p[|p| - 1] != '/' {
      var init := p[..|p| - 1];
      AfterLastSlashSpec(init);
      var r0 := AfterLastSlash(init);
      var k := |init| - |r0|;
      assert p[k..] == p[k..|p| - 1] + p[|p| - 1..];
      assert init[k..] == p[k..|p| - 1];
      assert p[|p| - 1..] == [p[|p| - 1]];
    }
  }

  /** A path without slashes is kept whole by AfterLastSlash. */
  lemma {:induction false} AfterLastSlashOfName(name: string)
    requires '/' !in name
    ensures AfterLastSlash(name) == name
    decreases |name|
  {
    if name != [] {
      var init := name[..|name| - 1];
      assert name[|name| - 1] in name;
      assert forall c | c in init :: c in name;
      AfterLastSlashOfName(init);
      assert init + [name[|name| - 1]] == name;
    }
  }

  /** Go's path.Base: the last element of a slash-separated path. Trailing
      slashes are dropped first; the empty path gives "." and a path made
      only of slashes gives "/". */
  function Base(p: string): (r: string)
    ensures IsBaseName(r)
    ensures p == "" ==> r == "."
  {
    if p == "" then "."
    else
      var last := AfterLastSlash(TrimTrailingSlashes(p));
      if last == "" then "/" else last
  }

  /** What Base can return: "/" or a non-empty name without slashes. */
  predicate IsBaseName(s: string)
  {
    s == "/" || (s != "" && '/' !in s)
  }

  /** A name without slashes is its own base name. */
  lemma BaseOfName(name: string)
    requires name != "" && '/' !in name
    ensures Base(name) == name
  {
    assert name[|name| - 1] in name;
    assert TrimTrailingSlashes(name) == name;
    AfterLastSlashOfName(name);
  }

  /** The base names are exactly the fixed points of Base; in particular
      taking the base name twice changes nothing more. */
  lemma BaseNameIsFixedPoint(b: string)
    ensures IsBaseName(b) <==> Base(b) == b
  {
    if b == "/" {
      assert TrimTrailingSlashes(b) == TrimTrailingSlashes([]);
    } else if IsBaseName(b) {
      BaseOfName(b);
    }
  }

  /** Taking the base name twice changes nothing more. */
  lemma BaseIdempotent(p: string)
    ensures Base(Base(p)) == Base(p)
  {
    BaseNameIsFixedPoint(Base(p));
  }

  /** The base name of "dir/name" is name, whatever the directory. */
  lemma BaseOfJoin(dir: string, name: string)
    requires name != "" && '/' !in name
    ensures Base(dir + "/" + name) == name
  {
    var p := dir + "/" + name;
    assert p[|p| - 1] == name[|name| - 1];
    assert name[|name| - 1] in name;
    assert TrimTrailingSlashes(p) == p;
    AfterSlashThenName(dir + "/", name);
  }

  /** After a '/', a slash-free name is all that AfterLastSlash keeps. */
  lemma {:induction false} AfterSlashThenName(prefix: string, name: string)
    requires prefix != [] && prefix[|prefix| - 1] == '/'
    requires '/' !in name
    ensures AfterLastSlash(prefix + name) == name
    decreases |name|
  {
    var p := prefix + name;
    if name == [] {
      assert p == prefix;
    } else {
      var init := name[..|name| - 1];
      assert p[..|p| - 1] == prefix + init;
      assert name[|name| - 1] in name;
      AfterSlashThenName(prefix, init);
      assert init + [name[|name| - 1]] == name;
    }
  }

  /** A trailing slash does not change the base name of a non-empty path. */
  lemma BaseIgnoresTrailingSlash(p: string)
    requires p != ""
    ensures Base(p + "/") == Base(p)
  {
    var q := p + "/";
    assert q[..|q| - 1] == p;
  }

  /** A few values of Base, as Go documents them and as the registry's
      callers see them. */
  lemma BaseExamples()
    ensures Base("") == "."
    ensures Base("/") == "/"
    ensures Base("/a/b") == "b"
    ensures Base("pages/index.html") == "index.html"
    ensures Base("includes/") == "includes"
  {
    assert "/a" + "/" + "b" == "/a/b";
    BaseOfJoin("/a", "b");
    assert "pages" + "/" + "index.html" == "pages/index.html";
    BaseOfJoin("pages", "index.html");
    assert "includes" + "/" == "includes/";
    BaseIgnoresTrailingSlash("includes");
    BaseOfName("includes");
    BaseNameIsFixedPoint("/");
  }
}
