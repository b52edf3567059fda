/** From the request target to the name of the file to serve. */
module Targets {
  import opened Common
  import opened Strings

  /** Two dots in a row somewhere in s. */
  predicate HasDotDot(s: seq<char>) {
    exists i :: 0 <= i < |s| - 1 && s[i] == '.' && s[i + 1] == '.'
  }

  /** They stand there exactly when ".." is a part of s. */
  lemma DotDotIsPart(s: seq<char>)
    ensures HasDotDot(s) <==> exists a: seq<char>, b: seq<char> :: IsAround(s, a, b)
  {
    if HasDotDot(s) {
      var i :| 0 <= i < |s| - 1 && s[i] == '.' && s[i + 1] == '.';
      assert s == s[..i] + ".." + s[i + 2..];
      assert IsAround(s, s[..i], s[i + 2..]);
    }
    if a: seq<char>, b: seq<char> :| IsAround(s, a, b) {
      assert s[|a|] == '.' && s[|a| + 1] == '.';
    }
  }

  predicate IsAround(s: seq<char>, a: seq<char>, b: seq<char>) {
    s == a + ".." + b
  }

  /** A target without its query. */
  function PathOf(target: seq<char>): (path: seq<char>)
    ensures '?' !in path && path <= target
    ensures path == target || target[|path|] == '?'
  {
    if target == [] || target[0] == '?' then [] else [target[0]] + PathOf(target[1..])
  }

  lemma {:induction false} PathOfQuery(path: seq<char>, args: seq<char>)
    requires '?' !in path
    ensures PathOf(path) == path && PathOf(path + "?" + args) == path
  {
    if path == [] {
    } else {
      PathOfQuery(path[1..], args);
      assert (path + "?" + args)[1..] == path[1..] + "?" + args;
    }
  }

  /** The file behind a path: base_path followed by the path, or by default_path for the root. */
  function Filename(path: seq<char>, basePath: seq<char>, defaultPath: seq<char>): seq<char> {
    basePath + (if path == "/" then defaultPath else path)
  }

  method GetFilename(path: seq<char>, basePath: seq<char>, defaultPath: seq<char>) returns (filename: seq<char>)
    ensures path == "/" ==> filename == basePath + defaultPath
    ensures path != "/" ==> filename == basePath + path
    ensures filename == Filename(path, basePath, defaultPath)
  {
    CStringOfTerminated("/");
    var chosen := path;
    var isRoot := StringIsEqualTo(path, Terminated("/"));
    if isRoot {
      chosen := defaultPath;
    }
    var memory := new char[|basePath| + |chosen| + 1];
    forall i | 0 <= i < |basePath| {
      memory[i] := basePath[i];
    }
    forall i | 0 <= i < |chosen| {
      memory[|basePath| + i] := chosen[i];
    }
    memory[|chosen| + |basePath|] := '\0';
    assert memory[..|basePath|] == basePath && memory[|basePath|..|basePath| + |chosen|] == chosen;
    filename := memory[..|basePath| + |chosen|];
  }

  /** The end of the name from its last dot on. */
  function Extension(filename: seq<char>): Option<seq<char>>
  {
    if filename == [] then None
    else
      var last := |filename| - 1;
      if filename[last] == '.' then Some(filename[last..])
      else match Extension(filename[..last]) case None => None case Some(e) => Some(e + [filename[last]])
  }

  lemma {:induction false} ExtensionAt(s: seq<char>, k: nat)
    requires k < |s| && s[k] == '.' && '.' !in s[k + 1..]
    ensures Extension(s) == Some(s[k..])
  {
    var last := |s| - 1;
    if k == last {
    } else {
      assert s[..last][k + 1..] == s[k + 1..][..last - k - 1];
      assert s[last] == s[k + 1..][last - k - 1];
      ExtensionAt(s[..last], k);
      assert s[..last][k..] + [s[last]] == s[k..];
    }
  }

  /** There is an extension exactly when there is a dot; it starts at the last one and runs to the end. */
  lemma {:induction false} ExtensionIsFromLastDot(s: seq<char>)
    ensures Extension(s).None? <==> '.' !in s
    ensures Extension(s).Some? ==>
      exists k :: 0 <= k < |s| && s[k] == '.' && '.' !in s[k + 1..] && Extension(s).value == s[k..]
  {
    var k := LastDot(s);
    if k < |s| {
      ExtensionAt(s, k);
    } else {
      NoExtension(s);
    }
  }

  /** The position of the last dot, or the length. */
  lemma {:induction false} LastDot(s: seq<char>) returns (k: nat)
    ensures k <= |s|
    ensures k < |s| ==> s[k] == '.' && '.' !in s[k + 1..]
    ensures k == |s| ==> '.' !in s
  {
    if s == [] {
      return 0;
    }
    var last := |s| - 1;
    if s[last] == '.' {
      return last;
    }
    k := LastDot(s[..last]);
    if k == last {
      k := |s|;
    } else {
      assert s[k + 1..] == s[..last][k + 1..] + [s[last]];
    }
  }

  lemma {:induction false} NoExtension(s: seq<char>)
    requires '.' !in s
    ensures Extension(s).None?
  {
    if s == [] {
    } else {
      NoExtension(s[..|s| - 1]);
    }
  }

  method FindExtension(filename: seq<char>) returns (extension: Option<seq<char>>)
    ensures extension == Extension(filename)
  {
    var cursor, last := 0, -1;
    while cursor < |filename|
      invariant -1 <= last <= cursor <= |filename|
      invariant last >= 0 ==> last < cursor && filename[last] == '.'
      invariant forall i :: last < i < cursor ==> filename[i] != '.'
    {
      if filename[cursor] == '.' {
        last := cursor;
      }
      cursor := cursor + 1;
    }
    if last == -1 {
      NoExtension(filename);
      return None;
    }
    ExtensionAt(filename, last);
    return Some(filename[last..]);
  }

  // ---------- where the file is ----------

  /** The components of a name between slashes; never none at all. */
  function Split(s: seq<char>): (cs: seq<seq<char>>)
    ensures cs != []
  {
    if s == [] then [[]]
    else if s[0] == '/' then [[]] + Split(s[1..])
    else [[s[0]] + Split(s[1..])[0]] + Split(s[1..])[1..]
  }

  /** The components with slashes between them. */
  function JoinPath(cs: seq<seq<char>>): seq<char>
    requires cs != []
  {
    if |cs| == 1 then cs[0] else cs[0] + "/" + JoinPath(cs[1..])
  }

  /** The components are the parts between slashes: they have none, and make up the name. */
  lemma {:induction false} SplitRoundTrip(s: seq<char>)
    ensures JoinPath(Split(s)) == s
    ensures forall i :: 0 <= i < |Split(s)| ==> '/' !in Split(s)[i]
  {
    if s == [] {
    } else if s[0] == '/' {
      SplitRoundTrip(s[1..]);
      assert Split(s)[1..] == Split(s[1..]);
      assert [] + "/" + s[1..] == s;
    } else {
      SplitRoundTrip(s[1..]);
      var r := Split(s[1..]);
      assert Split(s)[1..] == r[1..];
      assert JoinPath(Split(s)) == [s[0]] + JoinPath(r);
    }
  }

  /** What one component does to the directory reached so far. */
  function Enter(dir: seq<seq<char>>, c: seq<char>): seq<seq<char>> {
    if c == "" || c == "." then dir
    else if c == ".." then (if dir == [] then [] else dir[..|dir| - 1])
    else dir + [c]
  }

  function Walk(dir: seq<seq<char>>, cs: seq<seq<char>>): seq<seq<char>>
    decreases |cs|
  {
    if cs == [] then dir else Walk(Enter(dir, cs[0]), cs[1..])
  }

  /** The place a name stands for, component by component. */
  function Resolve(s: seq<char>): seq<seq<char>> {
    Walk([], Split(s))
  }

  lemma {:induction false} WalkAppend(dir: seq<seq<char>>, a: seq<seq<char>>, b: seq<seq<char>>)
    ensures Walk(dir, a + b) == Walk(Walk(dir, a), b)
    decreases |a|
  {
    if a == [] {
      assert a + b == b;
    } else {
      assert (a + b)[1..] == a[1..] + b;
      WalkAppend(Enter(dir, a[0]), a[1..], b);
    }
  }

  /** The components of a + b, from those of a and those of b. */
  function Glue(x: seq<seq<char>>, y: seq<seq<char>>): (r: seq<seq<char>>)
    requires x != [] && y != []
    ensures r != []
  {
    x[..|x| - 1] + [x[|x| - 1] + y[0]] + y[1..]
  }

  lemma GlueAfter(c: seq<char>, x: seq<seq<char>>, y: seq<seq<char>>)
    requires x != [] && y != []
    ensures Glue([c] + x, y) == [c] + Glue(x, y)
  {
    assert ([c] + x)[..|x|] == [c] + x[..|x| - 1];
  }

  lemma GlueInto(c: char, x: seq<seq<char>>, y: seq<seq<char>>)
    requires x != [] && y != []
    ensures Glue([[c] + x[0]] + x[1..], y) == [[c] + Glue(x, y)[0]] + Glue(x, y)[1..]
  {
    if |x| == 1 {
      assert [c] + x[0] + y[0] == [c] + (x[0] + y[0]);
    } else {
      GlueAfter([c] + x[0], x[1..], y);
      GlueAfter(x[0], x[1..], y);
      assert x == [x[0]] + x[1..];
    }
  }

  /** Concatenation joins the last component of the first name with the first of the second. */
  lemma {:induction false} SplitConcat(a: seq<char>, b: seq<char>)
    ensures Split(a + b) == Glue(Split(a), Split(b))
  {
    if a == [] {
      assert a + b == b;
      assert [] + Split(b)[0] == Split(b)[0];
      assert Glue([[]], Split(b)) == Split(b);
    } else {
      assert (a + b)[1..] == a[1..] + b && (a + b)[0] == a[0];
      SplitConcat(a[1..], b);
      GlueAfter([], Split(a[1..]), Split(b));
      GlueInto(a[0], Split(a[1..]), Split(b));
    }
  }

  lemma PartHasNoDotDot(s: seq<char>, from: nat, to: nat)
    requires from <= to <= |s| && !HasDotDot(s)
    ensures !HasDotDot(s[from..to])
  {
    forall i | 0 <= i < to - from - 1
      ensures !(s[from..to][i] == '.' && s[from..to][i + 1] == '.')
    {
      var j := from + i;
      assert !(s[j] == '.' && s[j + 1] == '.');
    }
  }

  lemma {:induction false} ComponentsHaveNoDotDot(s: seq<char>)
    requires !HasDotDot(s)
    ensures forall i :: 0 <= i < |Split(s)| ==> !HasDotDot(Split(s)[i])
    ensures Split(s)[0] <= s
  {
    if s == [] {
    } else {
      PartHasNoDotDot(s, 1, |s|);
      ComponentsHaveNoDotDot(s[1..]);
      var first := Split(s)[0];
      PartHasNoDotDot(s, 0, |first|);
      assert first == s[0..|first|];
    }
  }

  lemma {:induction false} ComponentsAreNotParent(s: seq<char>)
    requires !HasDotDot(s)
    ensures forall i :: 0 <= i < |Split(s)| ==> Split(s)[i] != ".."
  {
    ComponentsHaveNoDotDot(s);
    var parent := "..";
    assert parent[0] == '.' && parent[0 + 1] == '.';
    assert HasDotDot(parent);
  }

  /** Section 5.3.1 of RFC 7230. */
  predicate IsOriginForm(target: seq<char>) {
    target != [] && target[0] == '/'
  }

  /** The names among the components: all but the empty ones and ".". */
  function Names(cs: seq<seq<char>>): (r: seq<seq<char>>)
  {
    if cs == [] then [] else (if cs[0] == "" || cs[0] == "." then [] else [cs[0]]) + Names(cs[1..])
  }

  lemma {:induction false} EnterAddsNames(dir: seq<seq<char>>, c: seq<char>, rest: seq<seq<char>>)
    requires c != ".."
    ensures Enter(dir, c) + Names(rest) == dir + Names([c] + rest)
  {
    assert ([c] + rest)[1..] == rest;
    if c == "" || c == "." {
      assert [] + Names(rest) == Names(rest);
    } else {
      assert (dir + [c]) + Names(rest) == dir + ([c] + Names(rest));
    }
  }

  /** Without "..", the names are what a walk adds. */
  lemma {:induction false} WalkAddsNames(dir: seq<seq<char>>, cs: seq<seq<char>>)
    requires forall i :: 0 <= i < |cs| ==> cs[i] != ".."
    ensures Walk(dir, cs) == dir + Names(cs)
    decreases |cs|
  {
    if cs == [] {
    } else {
      EnterAddsNames(dir, cs[0], cs[1..]);
      WalkAddsNames(Enter(dir, cs[0]), cs[1..]);
      assert cs == [cs[0]] + cs[1..];
    }
  }

  /** What base + tail stands for: only the component at the seam can undo anything of base. */
  lemma {:induction false} ResolveConcat(base: seq<char>, tail: seq<char>)
    requires !HasDotDot(tail)
    ensures var x, y := Split(base), Split(tail);
      var dir, c := Walk([], x[..|x| - 1]), x[|x| - 1];
      && Resolve(base) == Enter(dir, c)
      && Resolve(base + tail) == Enter(dir, c + y[0]) + Names(y[1..])
      && y[0] != ".."
  {
    var x, y := Split(base), Split(tail);
    var last := |x| - 1;
    var dir, seam := Walk([], x[..last]), x[last] + y[0];
    SplitConcat(base, tail);
    assert x == x[..last] + [x[last]];
    WalkAppend([], x[..last], [x[last]]);
    WalkAppend([], x[..last] + [seam], y[1..]);
    WalkAppend([], x[..last], [seam]);
    assert Walk(dir, [x[last]]) == Enter(dir, x[last]) && Walk(dir, [seam]) == Enter(dir, seam);
    ComponentsAreNotParent(tail);
    WalkAddsNames(Enter(dir, seam), y[1..]);
  }

  /**
   Does base + tail stay at or below base? It does if tail is empty or starts with a slash, or if base ends in a slash
   or in ".."; an ordinary last name of base would become another name. After a last "." the tail may begin a name, but
   another dot would make it "..", and lead back to base only if the name just left comes next.
   */
  predicate StaysInside(tail: seq<char>, base: seq<char>) {
    var c, y := Split(base)[|Split(base)| - 1], Split(tail);
    || y[0] == "" || c == "" || c == ".."
    || (c == "." && y[0] != ".")
    || (c == "."
         && (Resolve(base) == [] || (Names(y[1..]) != [] && Names(y[1..])[0] == Resolve(base)[|Resolve(base)| - 1])))
  }

  lemma InsideIff(tail: seq<char>, base: seq<char>)
    requires !HasDotDot(tail)
    ensures Resolve(base) <= Resolve(base + tail) <==> StaysInside(tail, base)
  {
    ResolveConcat(base, tail);
    var x, y := Split(base), Split(tail);
    SeamIff(Walk([], x[..|x| - 1]), x[|x| - 1], y[0], Names(y[1..]));
  }

  /** The same seen from the seam alone. */
  predicate SeamInside(dir: seq<seq<char>>, c: seq<char>, first: seq<char>, names: seq<seq<char>>) {
    || first == "" || c == "" || c == ".."
    || (c == "." && first != ".")
    || (c == "." && (dir == [] || (names != [] && names[0] == dir[|dir| - 1])))
  }

  lemma SeamIff(dir: seq<seq<char>>, c: seq<char>, first: seq<char>, names: seq<seq<char>>)
    requires first != ".."
    ensures Enter(dir, c) <= Enter(dir, c + first) + names <==> SeamInside(dir, c, first, names)
  {
    if first == "" {
      assert c + first == c;
    } else if c == "" {
      assert c + first == first;
    } else if c == ".." {
      UpOrName(dir, c + first);
    } else if c == "." && first != "." {
      SeamIsName(first);
    } else if c == "." {
      assert c + first == "..";
      BackAndIn(dir, names);
    } else {
      NameIsReplaced(dir, c, first, names);
    }
  }

  lemma UpOrName(dir: seq<seq<char>>, c: seq<char>)
    requires |c| > 2
    ensures Enter(dir, "..") <= Enter(dir, c)
  {
    assert Enter(dir, c) == dir + [c];
  }

  lemma SeamIsName(first: seq<char>)
    requires first != "" && first != "."
    ensures "." + first != "" && "." + first != "." && "." + first != ".."
  {
    assert ("." + first)[1..] == first;
    assert ".."[1..] == ".";
  }

  /** One directory up, and then down these names. */
  lemma BackAndIn(dir: seq<seq<char>>, names: seq<seq<char>>)
    ensures dir <= Enter(dir, "..") + names <==> dir == [] || (names != [] && names[0] == dir[|dir| - 1])
  {
    if dir == [] {
    } else {
      var up, last := dir[..|dir| - 1], dir[|dir| - 1];
      assert dir == up + [last];
      if names != [] {
        assert (up + names)[|up|] == names[0];
        if names[0] == last {
          assert up + names == dir + names[1..];
        }
      }
    }
  }

  lemma NameIsReplaced(dir: seq<seq<char>>, c: seq<char>, first: seq<char>, names: seq<seq<char>>)
    requires c != "" && c != "." && c != ".." && first != ""
    ensures !(Enter(dir, c) <= Enter(dir, c + first) + names)
  {
    assert (c + first)[..|c|] == c;
    assert c + first != ".." && c + first != "." by {
      assert |c + first| == 2 ==> |c| == 1 && (c + first)[0] == c[0];
      assert c[0] == '.' && |c| == 1 ==> c == ".";
    }
    assert (dir + [c + first] + names)[|dir|] == c + first;
    assert (dir + [c])[|dir|] == c;
    assert |c + first| != |c|;
  }

  lemma {:induction false} PathOfIsClean(target: seq<char>)
    requires !HasDotDot(target)
    ensures !HasDotDot(PathOf(target))
    ensures IsOriginForm(target) ==> IsOriginForm(PathOf(target))
  {
    PartHasNoDotDot(target, 0, |PathOf(target)|);
    assert PathOf(target) == target[0..|PathOf(target)|];
  }

  /** The file served for an accepted origin-form target lies at or below base_path, whatever base_path is. */
  lemma {:induction false} ServedFilesStayInside(target: seq<char>, base: seq<char>, dflt: seq<char>)
    requires IsOriginForm(target) && !HasDotDot(target)
    requires IsOriginForm(dflt) && !HasDotDot(dflt)
    ensures Resolve(base) <= Resolve(Filename(PathOf(target), base, dflt))
  {
    PathOfIsClean(target);
    InsideIff(if PathOf(target) == "/" then dflt else PathOf(target), base);
  }

  /**
   For any accepted target and any base_path, the file lies at or below base_path exactly when StaysInside says so.
   */
  lemma {:induction false} TargetsInsideIff(target: seq<char>, base: seq<char>, dflt: seq<char>)
    requires !HasDotDot(target) && IsOriginForm(dflt) && !HasDotDot(dflt)
    ensures Resolve(base) <= Resolve(Filename(PathOf(target), base, dflt)) <==> StaysInside(PathOf(target), base)
  {
    PathOfIsClean(target);
    InsideIff(PathOf(target), base);
    InsideIff(dflt, base);
  }

  lemma {:induction false} SplitName(s: seq<char>)
    requires '/' !in s
    ensures Split(s) == [s]
  {
    if s == [] {
    } else {
      SplitName(s[1..]);
      assert [s[0]] + s[1..] == s;
    }
  }

  lemma {:induction false} SplitRooted(s: seq<char>, name: seq<char>)
    requires s == ['/'] + name && '/' !in name
    ensures Split(s) == ["", name]
  {
    assert s[1..] == name;
    SplitName(name);
  }

  /** An accepted target that makes another name of the last one in base_path: /www2 instead of /www. */
  lemma RenamingTarget(dflt: seq<char>)
    requires IsOriginForm(dflt) && !HasDotDot(dflt)
    ensures !HasDotDot("2") && !(Resolve("/www") <= Resolve(Filename(PathOf("2"), "/www", dflt)))
  {
    TargetsInsideIff("2", "/www", dflt);
    SplitRooted("/www", "www");
    assert PathOf("2") == "2" by { PathOfQuery("2", []); }
    SplitName("2");
  }

  /** And one that leaves it: a dot after a base_path that ends in a dot. */
  lemma LeavingTarget(dflt: seq<char>)
    requires IsOriginForm(dflt) && !HasDotDot(dflt)
    ensures !HasDotDot(".") && !(Resolve("/www/.") <= Resolve(Filename(PathOf("."), "/www/.", dflt)))
  {
    TargetsInsideIff(".", "/www/.", dflt);
    WwwDot();
    assert PathOf(".") == "." by { PathOfQuery(".", []); }
    SplitName(".");
    var dot: seq<seq<char>> := ["."];
    assert |dot[1..]| == 0;
  }

  /** The components of this base_path, and what it stands for. */
  lemma WwwDot()
    ensures Split("/www/.") == ["", "www", "."] && Resolve("/www/.") == ["www"]
  {
    SplitRooted("/www", "www");
    SplitRooted("/.", ".");
    assert "/www/." == "/www" + "/.";
    SplitConcat("/www", "/.");
    var x: seq<seq<char>>, y: seq<seq<char>> := ["", "www"], ["", "."];
    assert x[..1] == [""] && x[1] + y[0] == "www" && y[1..] == ["."];
    assert Glue(x, y) == ["", "www", "."];
    var base: seq<seq<char>>, dot: seq<seq<char>> := ["", "www", "."], ["."];
    assert base[1..] == ["www", "."] && base[1..][1..] == dot && dot[1..] == [];
    assert Walk(["www"], dot) == ["www"];
    assert Walk([], base[1..]) == Walk(["www"], dot);
  }
}
