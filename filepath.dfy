/** Go's filepath.Join for a rooted directory and one more element, with the
    lexical cleaning (filepath.Clean) it applies: runs of '/' collapse, "."
    elements vanish, ".." removes the element before it and is dropped at
    the root, and no trailing '/' remains. */
module FilePath {

  /** The elements between the '/' of a path, empty ones included. */
  function Split(s: string): (parts: seq<string>)
    ensures |parts| > 0
    ensures forall i :: 0 <= i < |parts| ==> '/' !in parts[i]
  {
    if s == [] then [""]
    else
      var rest := Split(s[1..]);
      if s[0] == '/' then [""] + rest else [[s[0]] + rest[0]] + rest[1..]
  }

  /** The elements joined with '/' between them. */
  function JoinSlash(parts: seq<string>): string
  {
    if parts == [] then ""
    else if |parts| == 1 then parts[0]
    else parts[0] + "/" + JoinSlash(parts[1..])
  }

  /** Walks the elements of a rooted path onto a stack of kept elements. */
  function Resolve(stack: seq<string>, parts: seq<string>): seq<string>
    decreases parts
  {
    if parts == [] then stack
    else if parts[0] == "" || parts[0] == "." then Resolve(stack, parts[1..])
    else if parts[0] == ".." then Resolve(if stack == [] then [] else stack[..|stack| - 1], parts[1..])
    else Resolve(stack + [parts[0]], parts[1..])
  }

  /** filepath.Clean of a rooted path. */
  function Clean(path: string): (r: string)
    requires |path| > 0 && path[0] == '/'
    ensures |r| > 0 && r[0] == '/'
  {
    "/" + JoinSlash(Resolve([], Split(path)))
  }

  /** filepath.Join(dir, name) for a rooted dir: an empty name is ignored. */
  function Join(dir: string, name: string): (r: string)
    requires |dir| > 0 && dir[0] == '/'
    ensures |r| > 0 && r[0] == '/'
  {
    if name == "" then Clean(dir) else Clean(dir + "/" + name)
  }

  lemma {:induction false} SplitNoSlash(s: string)
    requires '/' !in s
    ensures Split(s) == [s]
  {
    if s != [] {
      SplitNoSlash(s[1..]);
      assert [s[0]] + s[1..] == s;
    }
  }

  lemma {:induction false} SplitAtSlash(a: string, b: string)
    requires '/' !in a
    ensures Split(a + "/" + b) == [a] + Split(b)
  {
    if a == [] {
      assert (a + "/" + b)[1..] == b;
    } else {
      assert (a + "/" + b)[1..] == a[1..] + "/" + b;
      SplitAtSlash(a[1..], b);
      assert [a[0]] + a[1..] == a;
    }
  }

  /** Without any ".." element the kept elements only grow. */
  lemma {:induction false} ResolveKeepsStack(stack: seq<string>, parts: seq<string>)
    requires forall i :: 0 <= i < |parts| ==> parts[i] != ".."
    ensures stack <= Resolve(stack, parts)
    decreases parts
  {
    if parts != [] {
      if parts[0] == "" || parts[0] == "." {
        ResolveKeepsStack(stack, parts[1..]);
      } else {
        ResolveKeepsStack(stack + [parts[0]], parts[1..]);
      }
    }
  }

  /** The elements of "/tmp/" followed by a name: the empty element before
      the root, "tmp", then the elements of the name. */
  lemma SplitUnderTmp(name: string)
    ensures Split("/tmp" + "/" + name) == ["", "tmp"] + Split(name)
  {
    assert "/tmp" + "/" + name == "" + "/" + ("tmp" + "/" + name);
    SplitAtSlash("", "tmp" + "/" + name);
    SplitAtSlash("tmp", name);
  }

  /** Walking past the root and "tmp" leaves "tmp" on the stack. */
  lemma ResolveUnderTmp(parts: seq<string>)
    ensures Resolve([], ["", "tmp"] + parts) == Resolve(["tmp"], parts)
  {
    assert (["", "tmp"] + parts)[1..] == ["tmp"] + parts;
    assert (["tmp"] + parts)[1..] == parts;
    assert [] + ["tmp"] == ["tmp"];
  }

  /** Joining a non-empty name onto "/tmp" cleans the elements of the name
      on top of "tmp". */
  lemma JoinUnderTmp(name: string)
    requires name != ""
    ensures Join("/tmp", name) == "/" + JoinSlash(Resolve(["tmp"], Split(name)))
  {
    SplitUnderTmp(name);
    ResolveUnderTmp(Split(name));
  }

  /** A plain element is pushed on the stack. */
  lemma ResolvePlain(stack: seq<string>, x: string)
    requires x != "" && x != "." && x != ".."
    ensures Resolve(stack, [x]) == stack + [x]
  {
    assert [x][1..] == [];
  }

  /** Joining a plain file name (no '/', not "", "." or "..") onto "/tmp"
      is plain concatenation. */
  lemma JoinPlainName(name: string)
    requires '/' !in name && name != "" && name != "." && name != ".."
    ensures Join("/tmp", name) == "/tmp/" + name
  {
    JoinUnderTmp(name);
    SplitNoSlash(name);
    ResolvePlain(["tmp"], name);
    assert ["tmp"] + [name] == ["tmp", name];
    assert JoinSlash(["tmp", name]) == "tmp" + "/" + name by {
      assert ["tmp", name][1..] == [name];
    }
  }

  /** "/tmp" on its own is already clean. */
  lemma CleanTmp()
    ensures Clean("/tmp") == "/tmp"
  {
    assert Split("/tmp") == ["", "tmp"] by {
      assert "/tmp" == "" + "/" + "tmp";
      SplitAtSlash("", "tmp");
      SplitNoSlash("tmp");
    }
    assert Resolve([], ["", "tmp"]) == ["tmp"];
  }

  /** A name with no ".." element stays inside /tmp: the joined path is
      /tmp itself or a path below it. */
  lemma StaysUnderTmp(name: string)
    requires forall i :: 0 <= i < |Split(name)| ==> Split(name)[i] != ".."
    ensures Join("/tmp", name) == "/tmp" || "/tmp/" <= Join("/tmp", name)
  {
    if name == "" {
      CleanTmp();
    } else {
      JoinUnderTmp(name);
      ResolveKeepsStack(["tmp"], Split(name));
      KeptUnderTmp(Resolve(["tmp"], Split(name)));
    }
  }

  /** A stack that starts with "tmp" joins to /tmp or a path below it. */
  lemma KeptUnderTmp(kept: seq<string>)
    requires ["tmp"] <= kept
    ensures var r := "/" + JoinSlash(kept); r == "/tmp" || "/tmp/" <= r
  {
    assert kept[0] == "tmp";
    if |kept| > 1 {
      assert "/" + JoinSlash(kept) == "/tmp/" + JoinSlash(kept[1..]);
    }
  }

  /** A name that climbs above /tmp through an element and two ".."
      elements ends up under /etc. */
  lemma EscapeFromTmp(rest: string)
    requires '/' !in rest && rest != "" && rest != "." && rest != ".."
    ensures Join("/tmp", "a/../../etc/" + rest) == "/etc/" + rest
  {
    var name := "a/../../etc/" + rest;
    SplitEscape(rest);
    JoinUnderTmp(name);
    ResolveEscape(rest);
    assert JoinSlash(["etc", rest]) == "etc" + "/" + rest by {
      assert ["etc", rest][1..] == [rest];
    }
  }

  lemma SplitEscape(rest: string)
    requires '/' !in rest
    ensures Split("a/../../etc/" + rest) == ["a", "..", "..", "etc", rest]
  {
    EscapeElements(rest);
    SplitElements(rest);
  }

  lemma EscapeElements(rest: string)
    ensures "a/../../etc/" + rest == "a" + "/" + (".." + "/" + (".." + "/" + ("etc" + "/" + rest)))
  {
  }

  lemma SplitElements(rest: string)
    requires '/' !in rest
    ensures Split("a" + "/" + (".." + "/" + (".." + "/" + ("etc" + "/" + rest)))) == ["a", "..", "..", "etc", rest]
  {
    var s3 := "etc" + "/" + rest;
    var s2 := ".." + "/" + s3;
    var s1 := ".." + "/" + s2;
    SplitNoSlash(rest);
    SplitAtSlash("etc", rest);
    assert ["etc"] + [rest] == ["etc", rest];
    SplitAtSlash("..", s3);
    assert [".."] + ["etc", rest] == ["..", "etc", rest];
    SplitAtSlash("..", s2);
    assert [".."] + ["..", "etc", rest] == ["..", "..", "etc", rest];
    SplitAtSlash("a", s1);
    assert ["a"] + ["..", "..", "etc", rest] == ["a", "..", "..", "etc", rest];
  }

  lemma ResolveEscape(rest: string)
    requires rest != "" && rest != "." && rest != ".."
    ensures Resolve(["tmp"], ["a", "..", "..", "etc", rest]) == ["etc", rest]
  {
    var parts := ["a", "..", "..", "etc", rest];
    calc {
      Resolve(["tmp"], parts);
      { assert parts[1..] == ["..", "..", "etc", rest]; }
      Resolve(["tmp", "a"], ["..", "..", "etc", rest]);
      { assert ["tmp", "a"][..1] == ["tmp"]; assert ["..", "..", "etc", rest][1..] == ["..", "etc", rest]; }
      Resolve(["tmp"], ["..", "etc", rest]);
      { assert ["tmp"][..0] == []; assert ["..", "etc", rest][1..] == ["etc", rest]; }
      Resolve([], ["etc", rest]);
      { assert ["etc", rest][1..] == [rest]; assert [] + ["etc"] == ["etc"]; }
      Resolve(["etc"], [rest]);
      { assert [rest][1..] == []; assert ["etc"] + [rest] == ["etc", rest]; }
      ["etc", rest];
    }
  }

  /** A name starting with "../" leaves /tmp: the encoder would write the
      clip one directory up. */
  lemma ParentElementEscapes()
    ensures Join("/tmp", "../x") == "/x"
  {
    JoinUnderTmp("../x");
    assert Split("../x") == ["..", "x"] by {
      assert "../x" == ".." + "/" + "x";
      SplitAtSlash("..", "x");
      SplitNoSlash("x");
    }
    assert Resolve(["tmp"], ["..", "x"]) == Resolve([], ["x"]) by {
      assert ["..", "x"][1..] == ["x"];
      assert ["tmp"][..0] == [];
    }
    ResolvePlain([], "x");
    assert [] + ["x"] == ["x"];
  }
}
