/** The indented outline of a remote data model: what the model browser prints for a tree of names, and the reader
    that gets the tree back. */
module Outline {
  import opened Wrappers

  /** A node of the remote model: a logical device, logical node, data object or data attribute. */
  datatype Node = Node(name: string, children: seq<Node>)

  datatype Kind = LD | LN | DO | DA {
    /** What the children of such a node are. */
    function Below(): Kind {
      match this
      case LD => LN
      case LN => DO
      case _ => DA
    }

    function Text(): string {
      match this
      case LD => "LD: "
      case LN => "LN: "
      case DO => "DO: "
      case DA => "DA: "
    }
  }

  datatype Line = Line(indent: nat, kind: Kind, name: string)

  lemma ConcatAssociates<T>(a: seq<T>, b: seq<T>, c: seq<T>)
    ensures a + (b + c) == a + b + c
  {
  }

  /** The outline of a forest: pre-order, each level indented by two more. */
  function Lines(f: seq<Node>, indent: nat, kind: Kind): seq<Line> {
    if f == [] then []
    else [Line(indent, kind, f[0].name)] + Lines(f[0].children, indent + 2, kind.Below()) + Lines(f[1..], indent, kind)
  }

  /** The outline of the first tree of a forest. */
  function TreeLines(n: Node, indent: nat, kind: Kind): seq<Line> {
    [Line(indent, kind, n.name)] + Lines(n.children, indent + 2, kind.Below())
  }

  lemma LinesCons(n: Node, f: seq<Node>, indent: nat, kind: Kind)
    ensures Lines([n] + f, indent, kind) == TreeLines(n, indent, kind) + Lines(f, indent, kind)
  {
    assert ([n] + f)[1..] == f;
  }

  lemma LinesAppendStep(n: Node, f: seq<Node>, g: seq<Node>, indent: nat, kind: Kind)
    requires Lines(f + g, indent, kind) == Lines(f, indent, kind) + Lines(g, indent, kind)
    ensures Lines([n] + f + g, indent, kind) == Lines([n] + f, indent, kind) + Lines(g, indent, kind)
  {
    ConcatAssociates([n], f, g);
    LinesCons(n, f + g, indent, kind);
    LinesCons(n, f, indent, kind);
    ConcatAssociates(TreeLines(n, indent, kind), Lines(f, indent, kind), Lines(g, indent, kind));
  }

  lemma {:induction false} LinesAppend(f: seq<Node>, g: seq<Node>, indent: nat, kind: Kind)
    ensures Lines(f + g, indent, kind) == Lines(f, indent, kind) + Lines(g, indent, kind)
  {
    if f == [] {
      assert f + g == g;
    } else {
      LinesAppend(f[1..], g, indent, kind);
      assert f == [f[0]] + f[1..];
      LinesAppendStep(f[0], f[1..], g, indent, kind);
    }
  }

  // ---------- reading lines ----------

  /** Reads the forest at this indent and kind off the front of the lines; what is left comes after it. */
  function ReadForest(ls: seq<Line>, indent: nat, kind: Kind): (r: (seq<Node>, seq<Line>))
    ensures |r.1| <= |ls|
    decreases |ls|
  {
    if ls == [] || ls[0].indent != indent || ls[0].kind != kind then ([], ls)
    else
      var (children, afterNode) := ReadForest(ls[1..], indent + 2, kind.Below());
      var (siblings, rest) := ReadForest(afterNode, indent, kind);
      ([Node(ls[0].name, children)] + siblings, rest)
  }

  /** What follows a forest of this indent cannot be taken for a part of it. */
  predicate EndsForest(rest: seq<Line>, indent: nat) {
    rest == [] || rest[0].indent < indent
  }

  /** One step of the reader. */
  lemma ReadForestCons(l: Line, ls: seq<Line>, r: (seq<Node>, seq<Line>), q: (seq<Node>, seq<Line>))
    requires ReadForest(ls, l.indent + 2, l.kind.Below()) == r
    requires ReadForest(r.1, l.indent, l.kind) == q
    ensures ReadForest([l] + ls, l.indent, l.kind) == ([Node(l.name, r.0)] + q.0, q.1)
  {
    assert ([l] + ls)[1..] == ls;
  }

  /** One step of the printer. */
  lemma LinesOfCons(l: Line, ls: seq<Line>, r: (seq<Node>, seq<Line>), q: (seq<Node>, seq<Line>))
    requires Lines(r.0, l.indent + 2, l.kind.Below()) + r.1 == ls
    requires Lines(q.0, l.indent, l.kind) + q.1 == r.1
    ensures Lines([Node(l.name, r.0)] + q.0, l.indent, l.kind) + q.1 == [l] + ls
  {
    LinesCons(Node(l.name, r.0), q.0, l.indent, l.kind);
  }

  lemma SiblingsEndForest(siblings: seq<Node>, indent: nat, kind: Kind, rest: seq<Line>)
    requires EndsForest(rest, indent)
    ensures EndsForest(Lines(siblings, indent, kind) + rest, indent + 2)
  {
  }

  lemma {:induction false} ReadInvertsLines(f: seq<Node>, indent: nat, kind: Kind, rest: seq<Line>)
    requires EndsForest(rest, indent)
    ensures ReadForest(Lines(f, indent, kind) + rest, indent, kind) == (f, rest)
    decreases f, 1
  {
    if f == [] {
      assert Lines(f, indent, kind) + rest == rest;
    } else {
      ReadInvertsCons(f, indent, kind, rest);
    }
  }

  lemma {:induction false} ReadInvertsCons(f: seq<Node>, indent: nat, kind: Kind, rest: seq<Line>)
    requires f != [] && EndsForest(rest, indent)
    ensures ReadForest(Lines(f, indent, kind) + rest, indent, kind) == (f, rest)
    decreases f, 0
  {
    var l, children, siblings := Line(indent, kind, f[0].name), f[0].children, f[1..];
    var tail := Lines(siblings, indent, kind) + rest;
    var ls := Lines(children, indent + 2, kind.Below()) + tail;
    assert f == [Node(l.name, children)] + siblings;
    ReadInvertsLines(siblings, indent, kind, rest);
    SiblingsEndForest(siblings, indent, kind, rest);
    ReadInvertsLines(children, indent + 2, kind.Below(), tail);
    ReadForestCons(l, ls, (children, tail), (siblings, rest));
    LinesOfCons(l, ls, (children, tail), (siblings, rest));
  }

  /** The reader takes only what the printer would have printed. */
  lemma {:induction false} LinesInvertRead(ls: seq<Line>, indent: nat, kind: Kind)
    ensures
      var r := ReadForest(ls, indent, kind);
      Lines(r.0, indent, kind) + r.1 == ls
    decreases |ls|, 1
  {
    if !(ls == [] || ls[0].indent != indent || ls[0].kind != kind) {
      assert ls == [ls[0]] + ls[1..];
      LinesInvertReadCons(ls[0], ls[1..]);
    }
  }

  lemma {:induction false} LinesInvertReadCons(l: Line, tail: seq<Line>)
    ensures
      var r := ReadForest([l] + tail, l.indent, l.kind);
      Lines(r.0, l.indent, l.kind) + r.1 == [l] + tail
    decreases |tail| + 1, 0
  {
    var r := ReadForest(tail, l.indent + 2, l.kind.Below());
    var q := ReadForest(r.1, l.indent, l.kind);
    LinesInvertRead(tail, l.indent + 2, l.kind.Below());
    LinesInvertRead(r.1, l.indent, l.kind);
    ReadForestCons(l, tail, r, q);
    LinesOfCons(l, tail, r, q);
  }

  /** Some lines are the outline of a forest if and only if the reader uses them all up. */
  lemma {:induction false} OutlineIffReadInFull(ls: seq<Line>, indent: nat, kind: Kind)
    ensures (exists f :: Lines(f, indent, kind) == ls) <==> ReadForest(ls, indent, kind).1 == []
  {
    LinesInvertRead(ls, indent, kind);
    var (g, rest) := ReadForest(ls, indent, kind);
    if rest == [] {
      assert Lines(g, indent, kind) == ls;
    }
    if f :| Lines(f, indent, kind) == ls {
      ReadInvertsLines(f, indent, kind, []);
      assert ls + [] == ls;
    }
  }

  // ---------- text ----------

  function Spaces(n: nat): (s: string)
    ensures |s| == n && forall i :: 0 <= i < n ==> s[i] == ' '
  {
    if n == 0 then "" else " " + Spaces(n - 1)
  }

  function LineBody(l: Line): string {
    Spaces(l.indent) + l.kind.Text() + l.name
  }

  function LineText(l: Line): string {
    LineBody(l) + "\n"
  }

  function Text(ls: seq<Line>): string {
    if ls == [] then "" else LineText(ls[0]) + Text(ls[1..])
  }

  lemma TextCons(l: Line, ls: seq<Line>)
    ensures Text([l] + ls) == LineText(l) + Text(ls)
  {
    assert ([l] + ls)[1..] == ls;
  }

  lemma TextAppendStep(l: Line, ls: seq<Line>, ms: seq<Line>)
    requires Text(ls + ms) == Text(ls) + Text(ms)
    ensures Text([l] + ls + ms) == Text([l] + ls) + Text(ms)
  {
    ConcatAssociates([l], ls, ms);
    TextCons(l, ls + ms);
    TextCons(l, ls);
    ConcatAssociates(LineText(l), Text(ls), Text(ms));
  }

  lemma {:induction false} TextAppend(ls: seq<Line>, ms: seq<Line>)
    ensures Text(ls + ms) == Text(ls) + Text(ms)
  {
    if ls == [] {
      assert ls + ms == ms;
    } else {
      TextAppend(ls[1..], ms);
      assert ls == [ls[0]] + ls[1..];
      TextAppendStep(ls[0], ls[1..], ms);
    }
  }

  /** The number of leading spaces. */
  function Indent(s: string): (n: nat)
    ensures n <= |s|
  {
    if s == "" || s[0] != ' ' then 0 else 1 + Indent(s[1..])
  }

  function ReadKind(s: string): Option<Kind> {
    if s == "LD: " then Some(LD)
    else if s == "LN: " then Some(LN)
    else if s == "DO: " then Some(DO)
    else if s == "DA: " then Some(DA)
    else None
  }

  function ReadLine(s: string): Option<Line> {
    var n := Indent(s);
    if |s| < n + 4 then None
    else match ReadKind(s[n..n + 4])
      case None => None
      case Some(kind) => Some(Line(n, kind, s[n + 4..]))
  }

  /** The position of the first newline, or the length. */
  function LineEnd(s: string): (n: nat)
    ensures n <= |s|
    ensures forall i :: 0 <= i < n ==> s[i] != '\n'
    ensures n < |s| ==> s[n] == '\n'
  {
    if s == "" || s[0] == '\n' then 0 else 1 + LineEnd(s[1..])
  }

  /** The outline line that a line of text is, if it is one. */
  function Kept(line: string): seq<Line> {
    match ReadLine(line)
    case None => []
    case Some(l) => [l]
  }

  /** The outline lines of a text, in order; all its other lines are passed over. */
  function ReadText(s: string): seq<Line>
    decreases |s|
  {
    var n := LineEnd(s);
    if n == |s| then [] else Kept(s[..n]) + ReadText(s[n + 1..])
  }

  /** The forest whose outline this text has in it. */
  function ReadOutline(s: string, indent: nat, kind: Kind): Option<seq<Node>> {
    var (f, rest) := ReadForest(ReadText(s), indent, kind);
    if rest == [] then Some(f) else None
  }

  lemma {:induction false} IndentOfSpaces(n: nat, t: string)
    requires t != "" && t[0] != ' '
    ensures Indent(Spaces(n) + t) == n
  {
    if n == 0 {
      assert Spaces(0) + t == t;
    } else {
      IndentOfSpaces(n - 1, t);
      assert (Spaces(n) + t)[1..] == Spaces(n - 1) + t;
    }
  }

  lemma BodyParts(l: Line)
    ensures
      var s := LineBody(l);
      && |s| >= l.indent + 4 && s[l.indent..l.indent + 4] == l.kind.Text() && s[l.indent + 4..] == l.name
      && s == Spaces(l.indent) + (l.kind.Text() + l.name)
  {
    ConcatThree(Spaces(l.indent), l.kind.Text(), l.name);
  }

  lemma ReadLineInvertsText(l: Line)
    ensures ReadLine(LineBody(l)) == Some(l)
  {
    BodyParts(l);
    IndentOfSpaces(l.indent, l.kind.Text() + l.name);
    ReadLineOfParts(LineBody(l), l, l.kind.Text());
  }

  lemma BodyIsSingleLine(l: Line)
    requires '\n' !in l.name
    ensures '\n' !in LineBody(l)
  {
    assert '\n' !in l.kind.Text() && '\n' !in Spaces(l.indent);
  }

  lemma ReadLineOfParts(s: string, l: Line, tag: string)
    requires Indent(s) == l.indent && |s| >= l.indent + 4 && ReadKind(tag) == Some(l.kind)
    requires s[l.indent..l.indent + 4] == tag && s[l.indent + 4..] == l.name
    ensures ReadLine(s) == Some(l)
  {
  }

  lemma ConcatThree(a: string, b: string, c: string)
    ensures a + b + c == a + (b + c)
    ensures (a + b + c)[|a|..|a| + |b|] == b && (a + b + c)[|a| + |b|..] == c
  {
  }

  lemma LineEndUnique(s: string, n: nat)
    requires n < |s| && s[n] == '\n' && forall i :: 0 <= i < n ==> s[i] != '\n'
    ensures LineEnd(s) == n
  {
  }

  /** One step of the reader. */
  lemma ReadTextStep(line: string, s: string)
    requires '\n' !in line
    ensures ReadText(line + "\n" + s) == Kept(line) + ReadText(s)
  {
    var t := line + "\n" + s;
    assert forall i :: 0 <= i < |line| ==> t[i] == line[i];
    LineEndUnique(t, |line|);
    assert t[..|line|] == line && t[|line| + 1..] == s;
  }

  /** The text consists of whole lines. */
  predicate WholeLines(s: string) { s == "" || s[|s| - 1] == '\n' }

  lemma WholeLinesAppend(s: string, t: string)
    requires WholeLines(s) && WholeLines(t)
    ensures WholeLines(s + t)
  {
    assert t == "" ==> s + t == s;
  }

  /** A text of whole lines is its first line and a text of whole lines. */
  lemma FirstLine(s: string) returns (line: string, rest: string)
    requires s != "" && WholeLines(s)
    ensures s == line + "\n" + rest && '\n' !in line && WholeLines(rest)
  {
    var n := LineEnd(s);
    line, rest := s[..n], s[n + 1..];
  }

  lemma LineAssociates(line: string, s: string, t: string)
    ensures line + "\n" + s + t == line + "\n" + (s + t)
  {
  }

  lemma {:induction false} ReadTextAppend(s: string, t: string)
    requires WholeLines(s)
    ensures ReadText(s + t) == ReadText(s) + ReadText(t)
    decreases |s|
  {
    if s == "" {
      assert s + t == t;
    } else {
      var line, rest := FirstLine(s);
      ReadTextAppend(rest, t);
      LineAssociates(line, rest, t);
      ReadTextStep(line, rest);
      ReadTextStep(line, rest + t);
      ConcatAssociates(Kept(line), ReadText(rest), ReadText(t));
    }
  }

  lemma ReadTextOfLine(l: Line)
    requires '\n' !in l.name
    ensures ReadText(LineText(l)) == [l] && WholeLines(LineText(l))
  {
    ReadLineInvertsText(l);
    BodyIsSingleLine(l);
    ReadTextOf(LineBody(l), l);
  }

  lemma ReadTextOf(line: string, l: Line)
    requires ReadLine(line) == Some(l) && '\n' !in line
    ensures ReadText(line + "\n") == [l] && WholeLines(line + "\n")
  {
    ReadTextStep(line, "");
    assert line + "\n" + "" == line + "\n";
  }

  lemma {:induction false} TextIsWholeLines(ls: seq<Line>)
    ensures WholeLines(Text(ls))
  {
    if ls != [] {
      TextIsWholeLines(ls[1..]);
      WholeLinesAppend(LineText(ls[0]), Text(ls[1..]));
    }
  }

  lemma {:induction false} ReadTextInvertsText(ls: seq<Line>)
    requires forall l :: l in ls ==> '\n' !in l.name
    ensures ReadText(Text(ls)) == ls
  {
    if ls != [] {
      ReadTextInvertsText(ls[1..]);
      ReadTextOfLine(ls[0]);
      ReadTextAppend(LineText(ls[0]), Text(ls[1..]));
    }
  }

  /** No name has a newline in it. */
  ghost predicate SingleLine(f: seq<Node>) {
    forall n :: n in f ==> '\n' !in n.name && SingleLine(n.children)
  }

  lemma {:induction false} SingleLineIff(f: seq<Node>, indent: nat, kind: Kind)
    ensures SingleLine(f) <==> forall l :: l in Lines(f, indent, kind) ==> '\n' !in l.name
    decreases f
  {
    if f != [] {
      var children, siblings := Lines(f[0].children, indent + 2, kind.Below()), Lines(f[1..], indent, kind);
      SingleLineIff(f[0].children, indent + 2, kind.Below());
      SingleLineIff(f[1..], indent, kind);
      assert SingleLine(f) <==> '\n' !in f[0].name && SingleLine(f[0].children) && SingleLine(f[1..]) by {
        assert f == [f[0]] + f[1..];
      }
      var first := Line(indent, kind, f[0].name);
      assert Lines(f, indent, kind) == [first] + children + siblings;
      assert forall l :: l in Lines(f, indent, kind) <==> l == first || l in children || l in siblings;
      assert first in Lines(f, indent, kind);
    }
  }

  lemma {:induction false} ReadTextGivesSingleLines(s: string)
    ensures forall l :: l in ReadText(s) ==> '\n' !in l.name
    decreases |s|
  {
    if LineEnd(s) < |s| {
      ReadTextGivesSingleLines(s[LineEnd(s) + 1..]);
    }
  }

  /** A forest that is read off any text has single line names, and its lines are the outline lines of the text. */
  lemma {:induction false} ReadOutlineIff(s: string, f: seq<Node>, indent: nat, kind: Kind)
    ensures ReadOutline(s, indent, kind) == Some(f) <==> ReadText(s) == Lines(f, indent, kind)
    ensures ReadText(s) == Lines(f, indent, kind) ==> SingleLine(f)
  {
    LinesInvertRead(ReadText(s), indent, kind);
    ReadInvertsLines(f, indent, kind, []);
    assert Lines(f, indent, kind) + [] == Lines(f, indent, kind);
    ReadTextGivesSingleLines(s);
    SingleLineIff(f, indent, kind);
  }

  /** The printed text gives the forest back if and only if no name has a newline in it. */
  lemma {:induction false} ReadOutlineInvertsPrint(f: seq<Node>, indent: nat, kind: Kind)
    ensures ReadOutline(Text(Lines(f, indent, kind)), indent, kind) == Some(f) <==> SingleLine(f)
  {
    ReadOutlineIff(Text(Lines(f, indent, kind)), f, indent, kind);
    SingleLineIff(f, indent, kind);
    if SingleLine(f) { ReadTextInvertsText(Lines(f, indent, kind)); }
  }

  /** Two forests with the same printed text are the same forest. */
  lemma {:induction false} PrintIsInjective(f: seq<Node>, g: seq<Node>, indent: nat, kind: Kind)
    requires SingleLine(f) && SingleLine(g)
    requires Text(Lines(f, indent, kind)) == Text(Lines(g, indent, kind))
    ensures f == g
  {
    ReadOutlineInvertsPrint(f, indent, kind);
    ReadOutlineInvertsPrint(g, indent, kind);
  }

  /** A newline in a name can make two forests print alike. */
  lemma NewlineInNameBreaksPrint(indent: nat, kind: Kind)
    ensures
      var f := [Node("a" + "\n" + Spaces(indent) + kind.Text() + "b", [])];
      var g := [Node("a", []), Node("b", [])];
      f != g && Text(Lines(f, indent, kind)) == Text(Lines(g, indent, kind))
  {
    var f := [Node("a" + "\n" + Spaces(indent) + kind.Text() + "b", [])];
    var g := [Node("a", []), Node("b", [])];
    LeafText(f[0].name, indent, kind);
    LeafText("a", indent, kind);
    LeafText("b", indent, kind);
    LinesAppend([g[0]], [g[1]], indent, kind);
    assert g == [g[0]] + [g[1]];
    TextAppend(Lines([g[0]], indent, kind), Lines([g[1]], indent, kind));
    TwoLinesInOne(Spaces(indent), kind.Text(), "a", "b");
    assert |f| != |g|;
  }

  lemma TwoLinesInOne(spaces: string, tag: string, a: string, b: string)
    ensures spaces + tag + (a + "\n" + spaces + tag + b) + "\n" == spaces + tag + a + "\n" + (spaces + tag + b + "\n")
  {
  }

  lemma LeafText(name: string, indent: nat, kind: Kind)
    ensures Text(Lines([Node(name, [])], indent, kind)) == Spaces(indent) + kind.Text() + name + "\n"
  {
    LinesCons(Node(name, []), [], indent, kind);
    TextCons(Line(indent, kind, name), []);
    assert [Node(name, [])] + [] == [Node(name, [])];
    assert Lines([Node(name, [])], indent, kind) == [Line(indent, kind, name)] + [];
  }
}
