/** All that the model browser prints: the outline, in it after the data objects of each logical node the lists of its
    data sets and report control blocks, and two header lines. */
module BrowserOutput {
  import opened Wrappers
  import opened Outline
  import opened References

  datatype DataSet = DataSet(name: string, deletable: bool, members: seq<string>)

  /** The lists the remote side keeps for a logical node. */
  datatype Lists = Lists(dataSets: seq<DataSet>, unbuffered: seq<string>, buffered: seq<string>)

  /** The lists of the logical node with a reference. */
  type Catalogue = string -> Lists

  datatype ListClass = DATA_SET | URCB | BRCB

  /** A request for a list of a logical node, or for the members of a data set. */
  datatype ListRequest = NodeList(ref: string, list: ListClass) | Members(ref: string)

  // ---------- text ----------

  /** One line for each name. */
  function NamesText(prefix: string, names: seq<string>): string {
    if names == [] then "" else NamesText(prefix, names[..|names| - 1]) + (prefix + names[|names| - 1] + "\n")
  }

  function DataSetLine(d: DataSet): string {
    "    Data set: " + d.name + if d.deletable then " (deletable)" else " (not deletable)"
  }

  function DataSetText(d: DataSet): string {
    DataSetLine(d) + "\n" + NamesText("      ", d.members)
  }

  function DataSetsText(ds: seq<DataSet>): string {
    if ds == [] then "" else DataSetsText(ds[..|ds| - 1]) + DataSetText(ds[|ds| - 1])
  }

  function ListsText(l: Lists): string {
    DataSetsText(l.dataSets) + NamesText("    RP: ", l.unbuffered) + NamesText("    BR: ", l.buffered)
  }

  function NodeText(n: Node, device: string, lists: Catalogue): string {
    LineText(Line(2, LN, n.name)) + Text(Lines(n.children, 4, DO)) + ListsText(lists(device + "/" + n.name))
  }

  function NodesText(f: seq<Node>, device: string, lists: Catalogue): string {
    if f == [] then "" else NodesText(f[..|f| - 1], device, lists) + NodeText(f[|f| - 1], device, lists)
  }

  function DeviceText(d: Node, lists: Catalogue): string {
    LineText(Line(0, LD, d.name)) + NodesText(d.children, d.name, lists)
  }

  function DevicesText(f: seq<Node>, lists: Catalogue): string {
    if f == [] then "" else DevicesText(f[..|f| - 1], lists) + DeviceText(f[|f| - 1], lists)
  }

  const HEADER1: string := "Get " + "logical device list..."
  const HEADER2: string := "erro" + "r: 0"

  function OutputText(model: seq<Node>, lists: Catalogue): string {
    HEADER1 + "\n" + (HEADER2 + "\n" + DevicesText(model, lists))
  }

  // ---------- requests ----------

  function MembersRequests(ref: string, ds: seq<DataSet>): seq<ListRequest> {
    if ds == [] then []
    else MembersRequests(ref, ds[..|ds| - 1]) + [Members(ref + "." + ds[|ds| - 1].name)]
  }

  /** The list requests for one logical node: three lists, and the members of each data set. */
  function ListsRequests(ref: string, l: Lists): seq<ListRequest> {
    [NodeList(ref, DATA_SET)] + MembersRequests(ref, l.dataSets) + [NodeList(ref, URCB)] + [NodeList(ref, BRCB)]
  }

  function NodesRequests(f: seq<Node>, device: string, lists: Catalogue): seq<ListRequest> {
    if f == [] then []
    else
      var ref := device + "/" + f[|f| - 1].name;
      NodesRequests(f[..|f| - 1], device, lists) + ListsRequests(ref, lists(ref))
  }

  function DevicesRequests(f: seq<Node>, lists: Catalogue): seq<ListRequest> {
    if f == [] then []
    else DevicesRequests(f[..|f| - 1], lists) + NodesRequests(f[|f| - 1].children, f[|f| - 1].name, lists)
  }

  // ---------- the lines that are not of the outline ----------

  ghost predicate DataSetListable(d: DataSet) {
    '\n' !in d.name && forall m :: m in d.members ==> '\n' !in m
  }

  /** No member starts, after any spaces, like an outline line. */
  ghost predicate MembersUnmistakable(d: DataSet) {
    forall m :: m in d.members ==> ReadLine(m) == None
  }

  /** All names are single lines. */
  ghost predicate Listable(l: Lists) {
    && (forall d :: d in l.dataSets ==> DataSetListable(d))
    && (forall n :: n in l.unbuffered ==> '\n' !in n) && (forall n :: n in l.buffered ==> '\n' !in n)
  }

  ghost predicate Unmistakable(ds: seq<DataSet>) {
    forall d :: d in ds ==> MembersUnmistakable(d)
  }

  lemma IndentOf(spaces: nat, s: string)
    ensures Indent(Spaces(spaces) + s) == spaces + Indent(s)
  {
    if spaces == 0 {
      assert Spaces(0) + s == s;
    } else {
      IndentOf(spaces - 1, s);
      assert (Spaces(spaces) + s)[1..] == Spaces(spaces - 1) + s;
    }
  }

  /** Leading spaces do not matter for whether a line is one of the outline. */
  lemma ReadLineIndented(spaces: nat, s: string)
    ensures ReadLine(Spaces(spaces) + s) == None <==> ReadLine(s) == None
  {
    IndentOf(spaces, s);
    if |s| >= Indent(s) + 4 { SliceAfter(Spaces(spaces), s, Indent(s)); }
    SameTag(s, Spaces(spaces) + s, spaces);
  }

  lemma SameTag(s: string, t: string, k: nat)
    requires |t| == |s| + k && Indent(t) == Indent(s) + k
    requires |s| >= Indent(s) + 4 ==> t[Indent(t)..Indent(t) + 4] == s[Indent(s)..Indent(s) + 4]
    ensures ReadLine(t) == None <==> ReadLine(s) == None
  {
  }

  lemma SliceAfter(a: string, s: string, n: nat)
    requires n + 4 <= |s|
    ensures (a + s)[|a| + n..|a| + n + 4] == s[n..n + 4]
  {
  }

  lemma NotOfOutline(spaces: nat, tag: string, s: string)
    requires |tag| == 4 && tag[0] != ' ' && ReadKind(tag) == None
    ensures ReadLine(Spaces(spaces) + (tag + s)) == None
  {
    var t := tag + s;
    assert Indent(t) == 0;
    assert t[0..0 + 4] == tag;
    ReadLineIndented(spaces, t);
  }

  lemma NamesAreWholeLines(prefix: string, names: seq<string>)
    ensures WholeLines(NamesText(prefix, names))
  {
  }

  /** The lines of a list of names are all passed over, unless one of them is like an outline line. */
  lemma {:induction false} ReadNames(prefix: string, names: seq<string>)
    requires '\n' !in prefix && forall n :: n in names ==> '\n' !in n
    ensures ReadText(NamesText(prefix, names)) == [] <==> forall n :: n in names ==> ReadLine(prefix + n) == None
  {
    if names != [] {
      var init, n := names[..|names| - 1], names[|names| - 1];
      assert names == init + [n];
      ReadNames(prefix, init);
      NamesAreWholeLines(prefix, init);
      ReadTextAppend(NamesText(prefix, init), prefix + n + "\n");
      ReadTextStep(prefix + n, "");
      assert prefix + n + "\n" + "" == prefix + n + "\n";
      assert forall k :: k in names <==> k in init || k == n;
    }
  }

  lemma ReadDataSetLine(d: DataSet)
    requires '\n' !in d.name
    ensures ReadText(DataSetLine(d) + "\n") == [] && WholeLines(DataSetLine(d) + "\n")
  {
    NotDataSetLine(d.name, if d.deletable then " (deletable)" else " (not deletable)");
    PassedLine(DataSetLine(d));
  }

  lemma NotDataSetLine(name: string, suffix: string)
    ensures ReadLine("    Data set: " + name + suffix) == None
  {
    assert Spaces(4) == "    ";
    assert "    Data set: " == "    " + "Data" + " set: ";
    NotOfOutline(4, "Data", " set: " + name + suffix);
    Reassociate("    ", "Data", " set: ", name, suffix);
  }

  lemma PassedLine(line: string)
    requires '\n' !in line && ReadLine(line) == None
    ensures ReadText(line + "\n") == [] && WholeLines(line + "\n")
  {
    ReadTextStep(line, "");
    assert line + "\n" + "" == line + "\n";
  }

  lemma Reassociate(a: string, b: string, c: string, d: string, e: string)
    ensures a + b + c + d + e == a + (b + (c + d + e))
  {
  }

  lemma ReadMembers(members: seq<string>)
    requires forall m :: m in members ==> '\n' !in m
    ensures ReadText(NamesText("      ", members)) == [] <==> forall m :: m in members ==> ReadLine(m) == None
  {
    ReadNames("      ", members);
    assert Spaces(6) == "      ";
    forall m | m in members ensures ReadLine("      " + m) == None <==> ReadLine(m) == None {
      ReadLineIndented(6, m);
    }
  }

  lemma ReportLine(tag: string, name: string)
    requires tag == "RP: " || tag == "BR: "
    ensures ReadLine("    " + tag + name) == None
  {
    assert Spaces(4) == "    ";
    NotOfOutline(4, tag, name);
    ConcatAssociates("    ", tag, name);
  }

  lemma ReadReports(tag: string, names: seq<string>)
    requires tag == "RP: " || tag == "BR: "
    requires forall n :: n in names ==> '\n' !in n
    ensures ReadText(NamesText("    " + tag, names)) == []
  {
    ReadNames("    " + tag, names);
    forall n | n in names ensures ReadLine("    " + tag + n) == None { ReportLine(tag, n); }
  }

  lemma PassedOver(s: string, t: string)
    requires WholeLines(s) && WholeLines(t)
    ensures WholeLines(s + t)
    ensures ReadText(s + t) == [] <==> ReadText(s) == [] && ReadText(t) == []
  {
    WholeLinesAppend(s, t);
    ReadTextAppend(s, t);
  }

  /** The text is of whole lines, which are all passed over exactly if `quiet`. */
  ghost predicate Reads(s: string, quiet: bool) {
    WholeLines(s) && (ReadText(s) == [] <==> quiet)
  }

  lemma ReadDataSet(d: DataSet)
    requires DataSetListable(d)
    ensures Reads(DataSetText(d), MembersUnmistakable(d))
  {
    ReadDataSetLine(d);
    ReadMembers(d.members);
    NamesAreWholeLines("      ", d.members);
    PassedOver(DataSetLine(d) + "\n", NamesText("      ", d.members));
  }

  lemma JoinReads(s: string, t: string, u: string, q: bool, r: bool)
    requires Reads(s, q) && Reads(t, r) && u == s + t
    ensures Reads(u, q && r)
  {
    PassedOver(s, t);
  }

  lemma DataSetsNext(ds: seq<DataSet>)
    requires ds != []
    ensures
      var init, d := ds[..|ds| - 1], ds[|ds| - 1];
      && DataSetsText(ds) == DataSetsText(init) + DataSetText(d)
      && (Unmistakable(ds) <==> Unmistakable(init) && MembersUnmistakable(d))
  {
    assert ds == ds[..|ds| - 1] + [ds[|ds| - 1]];
  }

  lemma {:induction false} ReadDataSets(ds: seq<DataSet>)
    requires forall i :: 0 <= i < |ds| ==> DataSetListable(ds[i])
    ensures Reads(DataSetsText(ds), Unmistakable(ds))
  {
    if ds != [] {
      var init, d := ds[..|ds| - 1], ds[|ds| - 1];
      ReadDataSets(init);
      ReadDataSet(d);
      DataSetsNext(ds);
      JoinReads(DataSetsText(init), DataSetText(d), DataSetsText(ds), Unmistakable(init), MembersUnmistakable(d));
    }
  }

  lemma DataSetIsWholeLines(d: DataSet)
    ensures WholeLines(DataSetText(d))
  {
    NamesAreWholeLines("      ", d.members);
    WholeLinesAppend(DataSetLine(d) + "\n", NamesText("      ", d.members));
  }

  lemma {:induction false} DataSetsAreWholeLines(ds: seq<DataSet>)
    ensures WholeLines(DataSetsText(ds))
  {
    if ds != [] {
      DataSetsAreWholeLines(ds[..|ds| - 1]);
      DataSetIsWholeLines(ds[|ds| - 1]);
      WholeLinesAppend(DataSetsText(ds[..|ds| - 1]), DataSetText(ds[|ds| - 1]));
    }
  }

  lemma ListsAreWholeLines(l: Lists)
    ensures WholeLines(ListsText(l))
  {
    var a, b, c := DataSetsText(l.dataSets), NamesText("    RP: ", l.unbuffered), NamesText("    BR: ", l.buffered);
    DataSetsAreWholeLines(l.dataSets);
    NamesAreWholeLines("    RP: ", l.unbuffered);
    NamesAreWholeLines("    BR: ", l.buffered);
    WholeLinesAppend(a, b);
    WholeLinesAppend(a + b, c);
  }

  /** No line of the lists of a logical node is taken for one of the outline. */
  ghost predicate Quiet(l: Lists) { ReadText(ListsText(l)) == [] }

  /** With single line names, that is so if and only if no data set member is like an outline line. */
  lemma {:induction false} QuietIff(l: Lists)
    requires Listable(l)
    ensures Quiet(l) <==> Unmistakable(l.dataSets)
  {
    var a, b, c := DataSetsText(l.dataSets), NamesText("    RP: ", l.unbuffered), NamesText("    BR: ", l.buffered);
    assert "    RP: " == "    " + "RP: " && "    BR: " == "    " + "BR: ";
    ReadDataSets(l.dataSets);
    ReadReports("RP: ", l.unbuffered);
    ReadReports("BR: ", l.buffered);
    NamesAreWholeLines("    RP: ", l.unbuffered);
    NamesAreWholeLines("    BR: ", l.buffered);
    PassedOver(a, b);
    PassedOver(a + b, c);
  }

  // ---------- reading the whole output ----------

  ghost predicate NodeQuiet(n: Node, device: string, lists: Catalogue) {
    Quiet(lists(device + "/" + n.name))
  }

  ghost predicate NodesQuiet(f: seq<Node>, device: string, lists: Catalogue) {
    forall i :: 0 <= i < |f| ==> NodeQuiet(f[i], device, lists)
  }

  ghost predicate AllQuiet(model: seq<Node>, lists: Catalogue) {
    forall i :: 0 <= i < |model| ==> NodesQuiet(model[i].children, model[i].name, lists)
  }

  lemma SameParts<T>(a: seq<T>, b: seq<T>, x: seq<T>, c: seq<T>, d: seq<T>)
    requires |a| >= |b| && |c| >= |d|
    ensures a + (x + c) == b + (x + d) <==> a == b && c == d
  {
    if a + (x + c) == b + (x + d) {
      assert |a + (x + c)| == |b + (x + d)|;
      assert a == (a + (x + c))[..|a|] && b == (b + (x + d))[..|b|];
      assert c == (a + (x + c))[|a| + |x|..] && d == (b + (x + d))[|b| + |x|..];
    }
  }

  /** Two texts read as outlines `b` and `x + d` at least read so together, exactly if they do each. */
  lemma ReadBoth(s: string, t: string, b: seq<Line>, x: seq<Line>, c: seq<Line>, d: seq<Line>)
    requires WholeLines(s) && WholeLines(t) && |ReadText(s)| >= |b| && ReadText(t) == x + c && |c| >= |d|
    ensures WholeLines(s + t) && |ReadText(s + t)| >= |b + (x + d)|
    ensures ReadText(s + t) == b + (x + d) <==> ReadText(s) == b && c == d
  {
    WholeLinesAppend(s, t);
    ReadTextAppend(s, t);
    SameParts(ReadText(s), b, x, c, d);
  }

  lemma SingleLineParts(f: seq<Node>)
    requires f != [] && SingleLine(f)
    ensures
      var n := f[|f| - 1];
      SingleLine(f[..|f| - 1]) && '\n' !in n.name && SingleLine(n.children)
  {
    assert f[|f| - 1] in f;
  }

  lemma LinesSnoc(f: seq<Node>, n: Node, indent: nat, kind: Kind)
    ensures Lines(f + [n], indent, kind) == Lines(f, indent, kind) + TreeLines(n, indent, kind)
  {
    LinesAppend(f, [n], indent, kind);
    LinesCons(n, [], indent, kind);
    assert [n] + [] == [n];
    assert Lines([], indent, kind) == [];
  }

  lemma ReadSubtree(n: Node, indent: nat, kind: Kind)
    requires '\n' !in n.name && SingleLine(n.children)
    ensures ReadText(LineText(Line(indent, kind, n.name)) + Text(Lines(n.children, indent + 2, kind.Below())))
         == TreeLines(n, indent, kind)
    ensures WholeLines(LineText(Line(indent, kind, n.name)) + Text(Lines(n.children, indent + 2, kind.Below())))
  {
    var ls := Lines(n.children, indent + 2, kind.Below());
    SingleLineIff(n.children, indent + 2, kind.Below());
    ReadTextOfLine(Line(indent, kind, n.name));
    ReadTextInvertsText(ls);
    TextIsWholeLines(ls);
    ReadTextAppend(LineText(Line(indent, kind, n.name)), Text(ls));
    WholeLinesAppend(LineText(Line(indent, kind, n.name)), Text(ls));
  }

  /** The text of one logical node reads as its outline and whatever is mistaken in its lists. */
  lemma ReadNode(n: Node, device: string, lists: Catalogue)
    requires '\n' !in n.name && SingleLine(n.children)
    ensures ReadText(NodeText(n, device, lists)) ==
      TreeLines(n, 2, LN) + ReadText(ListsText(lists(device + "/" + n.name)))
    ensures WholeLines(NodeText(n, device, lists))
  {
    var l := lists(device + "/" + n.name);
    var outline := LineText(Line(2, LN, n.name)) + Text(Lines(n.children, 4, DO));
    ReadSubtree(n, 2, LN);
    ListsAreWholeLines(l);
    ReadTextAppend(outline, ListsText(l));
    WholeLinesAppend(outline, ListsText(l));
  }

  lemma {:induction false} ReadNodes(f: seq<Node>, device: string, lists: Catalogue)
    requires SingleLine(f)
    ensures WholeLines(NodesText(f, device, lists))
    ensures |ReadText(NodesText(f, device, lists))| >= |Lines(f, 2, LN)|
    ensures ReadText(NodesText(f, device, lists)) == Lines(f, 2, LN) <==> NodesQuiet(f, device, lists)
  {
    if f != [] {
      var init, n := f[..|f| - 1], f[|f| - 1];
      SingleLineParts(f);
      ReadNodes(init, device, lists);
      ReadNode(n, device, lists);
      var x, c := TreeLines(n, 2, LN), ReadText(ListsText(lists(device + "/" + n.name)));
      ReadBoth(NodesText(init, device, lists), NodeText(n, device, lists), Lines(init, 2, LN), x, c, []);
      NodesTextNext(f, device, lists);
      NodesNext(f, device, lists);
    }
  }

  lemma NodesTextNext(f: seq<Node>, device: string, lists: Catalogue)
    requires f != []
    ensures NodesText(f, device, lists) ==
      NodesText(f[..|f| - 1], device, lists) + NodeText(f[|f| - 1], device, lists)
  {
  }

  lemma NodesNext(f: seq<Node>, device: string, lists: Catalogue)
    requires f != []
    ensures
      var init, n := f[..|f| - 1], f[|f| - 1];
      && Lines(f, 2, LN) == Lines(init, 2, LN) + (TreeLines(n, 2, LN) + [])
      && (NodesQuiet(f, device, lists) <==> NodesQuiet(init, device, lists) && NodeQuiet(n, device, lists))
  {
    var init, n := f[..|f| - 1], f[|f| - 1];
    LinesSnoc(init, n, 2, LN);
    NodesQuietNext(init, n, device, lists);
    assert f == init + [n];
    ConcatNothing(TreeLines(n, 2, LN));
  }

  lemma NodesQuietNext(f: seq<Node>, n: Node, device: string, lists: Catalogue)
    ensures NodesQuiet(f + [n], device, lists) <==> NodesQuiet(f, device, lists) && NodeQuiet(n, device, lists)
  {
    assert (f + [n])[|f|] == n;
    forall i | 0 <= i < |f| ensures (f + [n])[i] == f[i] {}
  }

  lemma ConcatNothing<T>(s: seq<T>)
    ensures s + [] == s
  {
  }

  lemma ReadDevice(d: Node, lists: Catalogue)
    requires '\n' !in d.name && SingleLine(d.children)
    ensures WholeLines(DeviceText(d, lists))
    ensures ReadText(DeviceText(d, lists)) == [Line(0, LD, d.name)] + ReadText(NodesText(d.children, d.name, lists))
  {
    ReadNodes(d.children, d.name, lists);
    ReadTextOfLine(Line(0, LD, d.name));
    ReadTextAppend(LineText(Line(0, LD, d.name)), NodesText(d.children, d.name, lists));
    WholeLinesAppend(LineText(Line(0, LD, d.name)), NodesText(d.children, d.name, lists));
  }

  lemma {:induction false} ReadDevices(f: seq<Node>, lists: Catalogue)
    requires SingleLine(f)
    ensures WholeLines(DevicesText(f, lists))
    ensures |ReadText(DevicesText(f, lists))| >= |Lines(f, 0, LD)|
    ensures ReadText(DevicesText(f, lists)) == Lines(f, 0, LD) <==> AllQuiet(f, lists)
  {
    if f != [] {
      var init, d := f[..|f| - 1], f[|f| - 1];
      SingleLineParts(f);
      ReadDevices(init, lists);
      ReadDevice(d, lists);
      ReadNodes(d.children, d.name, lists);
      ReadBoth(DevicesText(init, lists), DeviceText(d, lists), Lines(init, 0, LD), [Line(0, LD, d.name)],
               ReadText(NodesText(d.children, d.name, lists)), Lines(d.children, 2, LN));
      DevicesTextNext(f, lists);
      DevicesNext(f, lists);
    }
  }

  lemma DevicesTextNext(f: seq<Node>, lists: Catalogue)
    requires f != []
    ensures DevicesText(f, lists) == DevicesText(f[..|f| - 1], lists) + DeviceText(f[|f| - 1], lists)
  {
  }

  lemma DevicesNext(f: seq<Node>, lists: Catalogue)
    requires f != []
    ensures
      var init, d := f[..|f| - 1], f[|f| - 1];
      && Lines(f, 0, LD) == Lines(init, 0, LD) + ([Line(0, LD, d.name)] + Lines(d.children, 2, LN))
      && (AllQuiet(f, lists) <==> AllQuiet(init, lists) && NodesQuiet(d.children, d.name, lists))
  {
    var init, d := f[..|f| - 1], f[|f| - 1];
    LinesSnoc(init, d, 0, LD);
    AllQuietNext(init, d, lists);
    assert f == init + [d];
  }

  lemma AllQuietNext(f: seq<Node>, d: Node, lists: Catalogue)
    ensures AllQuiet(f + [d], lists) <==> AllQuiet(f, lists) && NodesQuiet(d.children, d.name, lists)
  {
    assert (f + [d])[|f|] == d;
    forall i | 0 <= i < |f| ensures (f + [d])[i] == f[i] {}
  }

  lemma PassLine(tag: string, rest: string, s: string)
    requires |tag| == 4 && tag[0] != ' ' && ReadKind(tag) == None && '\n' !in tag && '\n' !in rest
    ensures ReadText(tag + rest + "\n" + s) == ReadText(s)
  {
    NotOfOutline(0, tag, rest);
    assert Spaces(0) + (tag + rest) == tag + rest;
    ReadTextStep(tag + rest, s);
  }

  lemma ReadHeader(s: string)
    ensures ReadText(HEADER1 + "\n" + (HEADER2 + "\n" + s)) == ReadText(s)
  {
    ReadHeader1(HEADER2 + "\n" + s);
    ReadHeader2(s);
  }

  lemma ReadHeader1(s: string)
    ensures ReadText(HEADER1 + "\n" + s) == ReadText(s)
  {
    PassLine("Get ", "logical device list...", s);
  }

  lemma ReadHeader2(s: string)
    ensures ReadText(HEADER2 + "\n" + s) == ReadText(s)
  {
    PassLine("erro", "r: 0", s);
  }

  /** The whole printed text gives the model back if and only if no name of a node has a newline and no line of the
      lists is taken for one of the outline. */
  lemma {:induction false} ReadOutputIff(model: seq<Node>, lists: Catalogue)
    ensures ReadOutline(OutputText(model, lists), 0, LD) == Some(model) <==>
      SingleLine(model) && AllQuiet(model, lists)
  {
    var s := OutputText(model, lists);
    ReadOutlineIff(s, model, 0, LD);
    ReadHeader(DevicesText(model, lists));
    if SingleLine(model) { ReadDevices(model, lists); }
  }

  /** So two models with single line names and the same printed text are the same, whatever lists they have. */
  lemma {:induction false} OutputDeterminesModel(model: seq<Node>, lists: Catalogue,
      model': seq<Node>, lists': Catalogue)
    requires SingleLine(model) && AllQuiet(model, lists) && SingleLine(model') && AllQuiet(model', lists')
    requires OutputText(model, lists) == OutputText(model', lists')
    ensures model == model'
  {
    ReadOutputIff(model, lists);
    ReadOutputIff(model', lists');
  }

  // ---------- a sample ----------

  lemma NestedLines(outer: string, inner: string, indent: nat)
    ensures Text(Lines([Node(outer, [Node(inner, [])])], indent, DA)) ==
      Spaces(indent) + "DA: " + outer + "\n" + (Spaces(indent + 2) + "DA: " + inner + "\n")
  {
    var n := Node(inner, []);
    LinesCons(Node(outer, [n]), [], indent, DA);
    assert [Node(outer, [n])] + [] == [Node(outer, [n])];
    assert Lines([], indent, DA) == [];
    var below := Lines([n], indent + 2, DA);
    TextCons(Line(indent, DA, outer), below);
    LeafText(inner, indent + 2, DA);
    assert [Line(indent, DA, outer)] + below + [] == [Line(indent, DA, outer)] + below;
  }

  lemma SampleLists(dataSet: string, deletable: bool, member: string, rp: string, br: string)
    ensures ListsText(Lists([DataSet(dataSet, deletable, [member])], [rp], [br])) ==
      "    Data set: " + dataSet + (if deletable then " (deletable)" else " (not deletable)") + "\n"
      + ("      " + member + "\n") + ("    RP: " + rp + "\n") + ("    BR: " + br + "\n")
  {
    SampleDataSet(DataSet(dataSet, deletable, [member]), member);
    OneName("    RP: ", rp);
    OneName("    BR: ", br);
  }

  lemma SampleDataSet(d: DataSet, member: string)
    requires d.members == [member]
    ensures DataSetsText([d]) == "    Data set: " + d.name
      + (if d.deletable then " (deletable)" else " (not deletable)") + "\n" + ("      " + member + "\n")
  {
    OneName("      ", member);
    OneDataSet(d);
  }

  lemma OneDataSet(d: DataSet)
    ensures DataSetsText([d]) == DataSetText(d)
  {
    DataSetsTextNext([d]);
    assert [d][..0] == [] && DataSetsText([]) == "";
    assert "" + DataSetText(d) == DataSetText(d);
  }

  lemma DataSetsTextNext(ds: seq<DataSet>)
    requires ds != []
    ensures DataSetsText(ds) == DataSetsText(ds[..|ds| - 1]) + DataSetText(ds[|ds| - 1])
  {
  }

  lemma OneName(prefix: string, name: string)
    ensures NamesText(prefix, [name]) == prefix + name + "\n"
  {
    assert [name][..0] == [];
    assert NamesText(prefix, []) == "";
  }

  /** One logical node with a data object, an attribute of it and one of that, a data set and both kinds of report
      control blocks: what it prints, character by character. */
  lemma SampleNode(ln: string, entity: string, attribute: string, part: string, dataSet: string, deletable: bool,
      member: string, rp: string, br: string, device: string, lists: Catalogue)
    requires lists(device + "/" + ln) == Lists([DataSet(dataSet, deletable, [member])], [rp], [br])
    ensures NodeText(Node(ln, [Node(entity, [Node(attribute, [Node(part, [])])])]), device, lists) ==
      "  LN: " + ln + "\n" + ("    DO: " + entity + "\n"
      + ("      DA: " + attribute + "\n" + ("        DA: " + part + "\n")))
      + ("    Data set: " + dataSet + (if deletable then " (deletable)" else " (not deletable)") + "\n"
         + ("      " + member + "\n") + ("    RP: " + rp + "\n") + ("    BR: " + br + "\n"))
  {
    SampleLists(dataSet, deletable, member, rp, br);
    SampleObject(entity, attribute, part);
    SpacesAre();
  }

  /** The output for a device with one logical node: two header lines, the device, the node. */
  lemma SampleOutput(ld: string, node: Node, lists: Catalogue)
    ensures OutputText([Node(ld, [node])], lists) ==
      "Get logical device list..." + "\n" + ("error: 0" + "\n" + ("LD: " + ld + "\n" + NodeText(node, ld, lists)))
  {
    OneDevice(Node(ld, [node]), lists);
    NodesTextNext([node], ld, lists);
    assert [node][..0] == [] && NodesText([], ld, lists) == "";
    assert "" + NodeText(node, ld, lists) == NodeText(node, ld, lists);
    assert Spaces(0) + "LD: " == "LD: ";
  }

  lemma OneDevice(d: Node, lists: Catalogue)
    ensures DevicesText([d], lists) == DeviceText(d, lists)
  {
    DevicesTextNext([d], lists);
    assert [d][..0] == [] && DevicesText([], lists) == "";
    assert "" + DeviceText(d, lists) == DeviceText(d, lists);
  }

  lemma SampleObject(entity: string, attribute: string, part: string)
    ensures Text(Lines([Node(entity, [Node(attribute, [Node(part, [])])])], 4, DO)) ==
      "    DO: " + entity + "\n" + ("      DA: " + attribute + "\n" + ("        DA: " + part + "\n"))
  {
    var attributes := [Node(attribute, [Node(part, [])])];
    LinesCons(Node(entity, attributes), [], 4, DO);
    assert [Node(entity, attributes)] + [] == [Node(entity, attributes)];
    assert Lines([], 4, DO) == [];
    TextCons(Line(4, DO, entity), Lines(attributes, 6, DA));
    assert [Line(4, DO, entity)] + Lines(attributes, 6, DA) + [] == [Line(4, DO, entity)] + Lines(attributes, 6, DA);
    NestedLines(attribute, part, 6);
    SpacesAre();
  }

  lemma SpacesAre()
    ensures Spaces(2) + "LN: " == "  LN: " && Spaces(4) + "DO: " == "    DO: "
    ensures Spaces(6) + "DA: " == "      DA: " && Spaces(8) + "DA: " == "        DA: "
  {
  }
}
