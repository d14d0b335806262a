/** Object references: how the model browser builds them while it descends, and why each one determines its node. */
module References {
  import opened Wrappers
  import opened Outline

  /** A name that can stand in a reference: no separator, no terminating zero. */
  predicate NameOk(name: string) {
    '/' !in name && '.' !in name && '\0' !in name
  }

  /** The reference of a child: LD, LD/LN, LD/LN.DO, LD/LN.DO.DA and so on. */
  function ChildRef(ref: string, kind: Kind, name: string): string {
    match kind
    case LD => name
    case LN => ref + "/" + name
    case _ => ref + "." + name
  }

  /** The references of all nodes of a forest, in the order of its outline. */
  function Refs(f: seq<Node>, ref: string, kind: Kind): seq<string> {
    if f == [] then []
    else
      var child := ChildRef(ref, kind, f[0].name);
      [child] + Refs(f[0].children, child, kind.Below()) + Refs(f[1..], ref, kind)
  }

  function TreeRefs(n: Node, ref: string, kind: Kind): seq<string> {
    var child := ChildRef(ref, kind, n.name);
    [child] + Refs(n.children, child, kind.Below())
  }

  lemma RefsCons(n: Node, f: seq<Node>, ref: string, kind: Kind)
    ensures Refs([n] + f, ref, kind) == TreeRefs(n, ref, kind) + Refs(f, ref, kind)
  {
    assert ([n] + f)[1..] == f;
  }

  lemma RefsAppendStep(n: Node, f: seq<Node>, g: seq<Node>, ref: string, kind: Kind)
    requires Refs(f + g, ref, kind) == Refs(f, ref, kind) + Refs(g, ref, kind)
    ensures Refs([n] + f + g, ref, kind) == Refs([n] + f, ref, kind) + Refs(g, ref, kind)
  {
    ConcatAssociates([n], f, g);
    RefsCons(n, f + g, ref, kind);
    RefsCons(n, f, ref, kind);
    ConcatAssociates(TreeRefs(n, ref, kind), Refs(f, ref, kind), Refs(g, ref, kind));
  }

  lemma {:induction false} RefsAppend(f: seq<Node>, g: seq<Node>, ref: string, kind: Kind)
    ensures Refs(f + g, ref, kind) == Refs(f, ref, kind) + Refs(g, ref, kind)
  {
    if f == [] {
      assert f + g == g;
    } else {
      RefsAppend(f[1..], g, ref, kind);
      assert f == [f[0]] + f[1..];
      RefsAppendStep(f[0], f[1..], g, ref, kind);
    }
  }

  // ---------- references and paths ----------

  /** The names from the logical device down to each node, in the order of the outline. */
  ghost function Paths(f: seq<Node>, path: seq<string>): seq<seq<string>> {
    if f == [] then []
    else [path + [f[0].name]] + Paths(f[0].children, path + [f[0].name]) + Paths(f[1..], path)
  }

  /** The kind of node a path of this length leads to, one level below it. */
  function KindBelow(depth: nat): Kind {
    if depth == 0 then LD else if depth == 1 then LN else if depth == 2 then DO else DA
  }

  /** The reference of a path. */
  function RefOf(path: seq<string>): string {
    if path == [] then ""
    else ChildRef(RefOf(path[..|path| - 1]), KindBelow(|path| - 1), path[|path| - 1])
  }

  /** Each name with a dot before it. */
  function Dotted(names: seq<string>): string {
    if names == [] then "" else Dotted(names[..|names| - 1]) + "." + names[|names| - 1]
  }

  /** The reference of a path, in full: LD, LD/LN, LD/LN.DO, LD/LN.DO.DA and so on. */
  function Reference(path: seq<string>): string
    requires path != []
  {
    if |path| == 1 then path[0] else path[0] + "/" + path[1] + Dotted(path[2..])
  }

  /** The references built step by step are these. */
  lemma {:induction false} RefOfIsReference(path: seq<string>)
    requires path != []
    ensures RefOf(path) == Reference(path)
  {
    var init := path[..|path| - 1];
    if |path| == 1 {
      assert init == [];
    } else if |path| == 2 {
      assert init[..0] == [] && Dotted(path[2..]) == "";
    } else {
      RefOfIsReference(init);
      ReferenceSnoc(init, path[|path| - 1]);
      assert path == init + [path[|path| - 1]];
    }
  }

  lemma ReferenceSnoc(path: seq<string>, name: string)
    requires |path| >= 2
    ensures Reference(path + [name]) == Reference(path) + "." + name
  {
    var names := (path + [name])[2..];
    assert names[..|names| - 1] == path[2..] && names[|names| - 1] == name;
    ConcatLast(path[0] + "/" + path[1], Dotted(path[2..]), ".", name);
  }

  lemma ConcatLast(a: string, b: string, c: string, d: string)
    ensures a + (b + c + d) == a + b + c + d
  {
  }

  /** Splits at dots. */
  function SplitDots(s: string): (parts: seq<string>)
    ensures |parts| >= 1
  {
    if s == "" then [""]
    else
      var rest := SplitDots(s[1..]);
      if s[0] == '.' then [""] + rest else [[s[0]] + rest[0]] + rest[1..]
  }

  /** The position of the first slash, or the length. */
  function SlashAt(s: string): (n: nat)
    ensures n <= |s|
    ensures forall i :: 0 <= i < n ==> s[i] != '/'
    ensures n < |s| ==> s[n] == '/' && '/' in s
  {
    if s == "" || s[0] == '/' then 0 else 1 + SlashAt(s[1..])
  }

  /** Splits a reference at its first slash, and after that at dots. */
  function Split(s: string): seq<string> {
    var n := SlashAt(s);
    if n == |s| then [s] else [s[..n]] + SplitDots(s[n + 1..])
  }

  lemma {:induction false} SplitName(name: string)
    requires NameOk(name)
    ensures SplitDots(name) == [name]
  {
    if name != "" {
      SplitName(name[1..]);
      assert name == [name[0]] + name[1..];
    }
  }

  lemma {:induction false} SplitDotsAppend(s: string, name: string)
    requires NameOk(name)
    ensures SplitDots(s + "." + name) == SplitDots(s) + [name]
  {
    if s == "" {
      SplitName(name);
      assert (s + "." + name)[1..] == name;
    } else {
      SplitDotsAppend(s[1..], name);
      assert (s + "." + name)[1..] == s[1..] + "." + name;
    }
  }

  lemma SplitUnslashed(s: string)
    requires '/' !in s
    ensures Split(s) == [s]
  {
  }

  lemma SplitAt(s: string, n: nat)
    requires n < |s| && s[n] == '/' && forall i :: 0 <= i < n ==> s[i] != '/'
    ensures Split(s) == [s[..n]] + SplitDots(s[n + 1..])
  {
  }

  lemma SplitAtSlash(a: string, b: string)
    requires '/' !in a
    ensures Split(a + "/" + b) == [a] + SplitDots(b)
  {
    var s := a + "/" + b;
    assert forall i :: 0 <= i < |a| ==> s[i] == a[i];
    assert s[|a|] == '/';
    SplitAt(s, |a|);
    assert s[..|a|] == a && s[|a| + 1..] == b;
  }

  lemma {:induction false} SplitDotted(first: string, names: seq<string>)
    requires NameOk(first) && forall name :: name in names ==> NameOk(name)
    ensures SplitDots(first + Dotted(names)) == [first] + names
  {
    if names == [] {
      SplitName(first);
      assert first + Dotted(names) == first;
    } else {
      var init, name := names[..|names| - 1], names[|names| - 1];
      SplitDotted(first, init);
      SplitDotsAppend(first + Dotted(init), name);
      assert first + Dotted(init) + "." + name == first + (Dotted(init) + "." + name);
      assert names == init + [name];
    }
  }

  lemma SplitLong(device: string, node: string, names: seq<string>)
    requires NameOk(device) && NameOk(node) && forall name :: name in names ==> NameOk(name)
    ensures Split(device + "/" + node + Dotted(names)) == [device] + ([node] + names)
  {
    SplitDotted(node, names);
    SplitAtSlash(device, node + Dotted(names));
    ConcatPairs(device, "/", node, Dotted(names));
  }

  lemma ConcatPairs(a: string, b: string, c: string, d: string)
    ensures a + b + c + d == a + b + (c + d)
  {
  }

  /** Splitting the reference of a path gives the path. */
  lemma {:induction false} SplitInvertsRefOf(path: seq<string>)
    requires path != [] && forall i :: 0 <= i < |path| ==> NameOk(path[i])
    ensures Split(RefOf(path)) == path
  {
    RefOfIsReference(path);
    if |path| == 1 {
      SplitUnslashed(path[0]);
      assert path == [path[0]];
    } else {
      SplitLong(path[0], path[1], path[2..]);
      assert path == [path[0]] + ([path[1]] + path[2..]);
    }
  }

  lemma RefOfChild(path: seq<string>, name: string)
    ensures RefOf(path + [name]) == ChildRef(RefOf(path), KindBelow(|path|), name)
  {
    assert (path + [name])[..|path|] == path;
  }

  lemma {:induction false} RefsAreOfPaths(f: seq<Node>, path: seq<string>)
    ensures |Refs(f, RefOf(path), KindBelow(|path|))| == |Paths(f, path)|
    ensures forall i :: 0 <= i < |Paths(f, path)| ==>
      Paths(f, path)[i] != [] && Refs(f, RefOf(path), KindBelow(|path|))[i] == RefOf(Paths(f, path)[i])
    decreases f
  {
    if f != [] {
      RefOfChild(path, f[0].name);
      RefsAreOfPaths(f[0].children, path + [f[0].name]);
      RefsAreOfPaths(f[1..], path);
      RefsNextTree(f, path);
    }
  }

  lemma RefsNextTree(f: seq<Node>, path: seq<string>)
    requires f != []
    ensures
      var own := path + [f[0].name];
      && own != []
      && Refs(f, RefOf(path), KindBelow(|path|)) ==
         [RefOf(own)] + Refs(f[0].children, RefOf(own), KindBelow(|own|)) + Refs(f[1..], RefOf(path), KindBelow(|path|))
  {
    RefOfChild(path, f[0].name);
  }

  /** The references the browser builds for the nodes of a model are LD, LD/LN, LD/LN.DO, LD/LN.DO.DA and so on, of
      the names from the device down to each node. */
  lemma RefsAreReferences(model: seq<Node>)
    ensures |Refs(model, "", LD)| == |Paths(model, [])|
    ensures forall i :: 0 <= i < |Paths(model, [])| ==>
      Paths(model, [])[i] != [] && Refs(model, "", LD)[i] == Reference(Paths(model, [])[i])
  {
    RefsAreOfPaths(model, []);
    forall i | 0 <= i < |Paths(model, [])| ensures Refs(model, "", LD)[i] == Reference(Paths(model, [])[i]) {
      RefOfIsReference(Paths(model, [])[i]);
    }
  }

  // ---------- well formed models ----------

  /** Good names everywhere, siblings with different names. */
  ghost predicate WellFormed(f: seq<Node>) {
    && (forall i, j :: 0 <= i < j < |f| ==> f[i].name != f[j].name)
    && (forall n :: n in f ==> NameOk(n.name) && WellFormed(n.children))
  }

  /** The path goes on from `path` with the name of a node of the forest, and with good names only. */
  ghost predicate Extends(p: seq<string>, f: seq<Node>, path: seq<string>) {
    && |path| < |p| && p[..|path|] == path
    && (exists n :: n in f && p[|path|] == n.name)
    && (forall k :: |path| <= k < |p| ==> NameOk(p[k]))
  }

  lemma ExtendsFromChild(p: seq<string>, f: seq<Node>, path: seq<string>)
    requires f != [] && NameOk(f[0].name) && Extends(p, f[0].children, path + [f[0].name])
    ensures Extends(p, f, path) && p[|path|] == f[0].name
  {
    var own := path + [f[0].name];
    assert p[..|path|] == p[..|own|][..|path|];
    assert p[|path|] == p[..|own|][|path|];
    assert f[0] in f;
  }

  lemma {:induction false} PathsExtend(f: seq<Node>, path: seq<string>)
    requires WellFormed(f)
    ensures forall p :: p in Paths(f, path) ==> Extends(p, f, path)
    decreases f
  {
    if f != [] {
      var own, siblings := path + [f[0].name], f[1..];
      assert f[0] in f && forall n :: n in siblings ==> n in f;
      PathsExtend(f[0].children, own);
      PathsExtend(siblings, path);
      forall p | p in Paths(f, path) ensures Extends(p, f, path) {
        if p in Paths(f[0].children, own) {
          ExtendsFromChild(p, f, path);
        } else if p != own {
          assert p in Paths(siblings, path) && Extends(p, siblings, path);
          var n :| n in siblings && p[|path|] == n.name;
          assert n in f;
        }
      }
    }
  }

  ghost predicate Distinct<T>(s: seq<T>) {
    forall i, j :: 0 <= i < j < |s| ==> s[i] != s[j]
  }

  lemma DistinctConcat<T>(a: T, s: seq<T>, t: seq<T>)
    requires Distinct(s) && Distinct(t)
    requires a !in s && a !in t && forall x :: x in s ==> x !in t
    ensures Distinct([a] + s + t)
  {
    var u := [a] + s + t;
    forall i, j | 0 <= i < j < |u| ensures u[i] != u[j] {
      if j <= |s| {
        assert u[j] == s[j - 1];
      } else {
        assert u[j] == t[j - |s| - 1];
        assert 0 < i <= |s| ==> u[i] in s;
      }
    }
  }

  lemma ExtendsFromSibling(p: seq<string>, f: seq<Node>, path: seq<string>)
    requires f != [] && WellFormed(f) && Extends(p, f[1..], path)
    ensures p[|path|] != f[0].name
  {
    var n :| n in f[1..] && p[|path|] == n.name;
    var i :| 0 <= i < |f[1..]| && f[1..][i] == n;
    assert f[0].name != f[i + 1].name;
  }

  lemma {:induction false} PathsDistinct(f: seq<Node>, path: seq<string>)
    requires WellFormed(f)
    ensures Distinct(Paths(f, path))
    decreases f
  {
    if f != [] {
      var own, siblings := path + [f[0].name], f[1..];
      assert f[0] in f && forall n :: n in siblings ==> n in f;
      PathsDistinct(f[0].children, own);
      PathsDistinct(siblings, path);
      PathsExtend(f[0].children, own);
      PathsExtend(siblings, path);
      forall p | p in Paths(siblings, path) ensures |path| < |p| && p[|path|] != f[0].name {
        ExtendsFromSibling(p, f, path);
      }
      forall p | p in Paths(f[0].children, own) ensures |own| < |p| && p[|path|] == f[0].name {
        ExtendsFromChild(p, f, path);
      }
      DistinctConcat(own, Paths(f[0].children, own), Paths(siblings, path));
    }
  }

  /** In a well formed model every node has a reference of its own, and splitting it gives the node's path. */
  lemma ReferencesIdentifyNodes(model: seq<Node>)
    requires WellFormed(model)
    ensures
      var refs, paths := Refs(model, "", LD), Paths(model, []);
      && |refs| == |paths|
      && (forall i :: 0 <= i < |refs| ==> Split(refs[i]) == paths[i])
      && Distinct(refs)
  {
    var refs, paths := Refs(model, "", LD), Paths(model, []);
    RefsAreOfPaths(model, []);
    PathsExtend(model, []);
    PathsDistinct(model, []);
    forall i | 0 <= i < |refs| ensures Split(refs[i]) == paths[i] {
      assert paths[i] in paths && Extends(paths[i], model, []);
      SplitInvertsRefOf(paths[i]);
    }
  }

  // ---------- the remote directory ----------

  /** The children of the node a path leads to; the first sibling of a name counts. */
  function Find(f: seq<Node>, path: seq<string>): Option<seq<Node>>
    decreases |path|, |f|
  {
    if path == [] then Some(f)
    else if f == [] then None
    else if f[0].name == path[0] then Find(f[0].children, path[1..])
    else Find(f[1..], path)
  }

  /** What the remote side answers to a directory request for this reference. */
  function Directory(model: seq<Node>, ref: string): Option<seq<Node>> {
    Find(model, Split(ref))
  }

  lemma {:induction false} FindHere(f: seq<Node>, i: nat)
    requires i < |f| && forall j, k :: 0 <= j < k < |f| ==> f[j].name != f[k].name
    ensures Find(f, [f[i].name]) == Some(f[i].children)
  {
    if i == 0 {
      assert [f[0].name][1..] == [];
    } else {
      FindHere(f[1..], i - 1);
    }
  }

  lemma {:induction false} FindBelow(f: seq<Node>, path: seq<string>, name: string)
    requires Find(f, path).Some?
    ensures Find(f, path + [name]) == Find(Find(f, path).value, [name])
    decreases |path|, |f|
  {
    if path == [] {
      assert path + [name] == [name];
    } else {
      assert (path + [name])[1..] == path[1..] + [name];
      if f[0].name == path[0] {
        FindBelow(f[0].children, path[1..], name);
      } else {
        FindBelow(f[1..], path, name);
      }
    }
  }

  /** The directory request for the reference built for a child is answered with that child's children. */
  lemma DirectoryOfChild(model: seq<Node>, path: seq<string>, children: seq<Node>, i: nat)
    requires Find(model, path) == Some(children) && WellFormed(children) && i < |children|
    requires forall name :: name in path ==> NameOk(name)
    ensures
      var childRef := ChildRef(RefOf(path), KindBelow(|path|), children[i].name);
      && childRef == RefOf(path + [children[i].name])
      && Find(model, path + [children[i].name]) == Some(children[i].children)
      && Directory(model, childRef) == Some(children[i].children)
  {
    RefOfChild(path, children[i].name);
    FindBelow(model, path, children[i].name);
    FindHere(children, i);
    assert children[i] in children;
    SplitInvertsRefOf(path + [children[i].name]);
  }
}
