/** Reading the lists of the logical nodes back from what the model browser prints: their data sets, with members and
    whether they can be deleted, and their report control blocks. */
module BrowserLists {
  import opened Wrappers
  import opened Outline
  import opened References
  import opened BrowserOutput

  // ---------- lines ----------

  /** The lines of a text, without their ends. */
  function LinesOf(s: string): seq<string>
    decreases |s|
  {
    var n := LineEnd(s);
    if n == |s| then [] else [s[..n]] + LinesOf(s[n + 1..])
  }

  lemma LinesOfStep(line: string, s: string)
    requires '\n' !in line
    ensures LinesOf(line + "\n" + s) == [line] + LinesOf(s)
  {
    var t := line + "\n" + s;
    assert forall i :: 0 <= i < |line| ==> t[i] == line[i];
    LineEndUnique(t, |line|);
    assert t[..|line|] == line && t[|line| + 1..] == s;
  }

  lemma {:induction false} LinesOfAppend(s: string, t: string)
    requires WholeLines(s)
    ensures LinesOf(s + t) == LinesOf(s) + LinesOf(t)
    decreases |s|
  {
    if s == "" {
      assert s + t == t;
    } else {
      var line, rest := FirstLine(s);
      LinesOfAppend(rest, t);
      LineAssociates(line, rest, t);
      LinesOfStep(line, rest);
      LinesOfStep(line, rest + t);
      ConcatAssociates([line], LinesOf(rest), LinesOf(t));
    }
  }

  lemma LinesOfLine(line: string)
    requires '\n' !in line
    ensures LinesOf(line + "\n") == [line] && WholeLines(line + "\n")
  {
    LinesOfStep(line, "");
    assert line + "\n" + "" == line + "\n";
  }

  function NamesLines(prefix: string, names: seq<string>): seq<string> {
    if names == [] then [] else NamesLines(prefix, names[..|names| - 1]) + [prefix + names[|names| - 1]]
  }

  function DataSetLines(d: DataSet): seq<string> {
    [DataSetLine(d)] + NamesLines("      ", d.members)
  }

  function DataSetsLines(ds: seq<DataSet>): seq<string> {
    if ds == [] then [] else DataSetsLines(ds[..|ds| - 1]) + DataSetLines(ds[|ds| - 1])
  }

  function ListsLines(l: Lists): seq<string> {
    DataSetsLines(l.dataSets) + (NamesLines("    RP: ", l.unbuffered) + NamesLines("    BR: ", l.buffered))
  }

  lemma {:induction false} LinesOfNames(prefix: string, names: seq<string>)
    requires '\n' !in prefix && forall n :: n in names ==> '\n' !in n
    ensures LinesOf(NamesText(prefix, names)) == NamesLines(prefix, names)
  {
    if names != [] {
      var init, n := names[..|names| - 1], names[|names| - 1];
      LinesOfNames(prefix, init);
      NamesAreWholeLines(prefix, init);
      LinesOfLine(prefix + n);
      LinesOfAppend(NamesText(prefix, init), prefix + n + "\n");
    }
  }

  lemma DataSetLineIsSingle(d: DataSet)
    requires '\n' !in d.name
    ensures '\n' !in DataSetLine(d)
  {
  }

  lemma LinesOfDataSet(d: DataSet)
    requires DataSetListable(d)
    ensures LinesOf(DataSetText(d)) == DataSetLines(d)
  {
    DataSetLineIsSingle(d);
    LinesOfLine(DataSetLine(d));
    LinesOfNames("      ", d.members);
    LinesOfAppend(DataSetLine(d) + "\n", NamesText("      ", d.members));
  }

  lemma {:induction false} LinesOfDataSets(ds: seq<DataSet>)
    requires forall i :: 0 <= i < |ds| ==> DataSetListable(ds[i])
    ensures LinesOf(DataSetsText(ds)) == DataSetsLines(ds)
  {
    if ds != [] {
      var init, d := ds[..|ds| - 1], ds[|ds| - 1];
      LinesOfDataSets(init);
      DataSetsAreWholeLines(init);
      LinesOfDataSet(d);
      DataSetsNext(ds);
      LinesOfAppend(DataSetsText(init), DataSetText(d));
    }
  }

  lemma LinesOfLists(l: Lists)
    requires Listable(l)
    ensures LinesOf(ListsText(l)) == ListsLines(l)
  {
    var a, b, c := DataSetsText(l.dataSets), NamesText("    RP: ", l.unbuffered), NamesText("    BR: ", l.buffered);
    LinesOfDataSets(l.dataSets);
    DataSetsAreWholeLines(l.dataSets);
    LinesOfNames("    RP: ", l.unbuffered);
    LinesOfNames("    BR: ", l.buffered);
    NamesAreWholeLines("    RP: ", l.unbuffered);
    LinesOfThree(a, b, c);
  }

  lemma LinesOfThree(a: string, b: string, c: string)
    requires WholeLines(a) && WholeLines(b)
    ensures LinesOf(a + b + c) == LinesOf(a) + (LinesOf(b) + LinesOf(c))
  {
    ConcatAssociates(a, b, c);
    LinesOfAppend(b, c);
    LinesOfAppend(a, b + c);
  }

  // ---------- the reader ----------

  const EMPTY: Lists := Lists([], [], [])

  predicate Starts(line: string, prefix: string) {
    |prefix| <= |line| && forall i :: 0 <= i < |prefix| ==> line[i] == prefix[i]
  }

  predicate EndsWith(line: string, suffix: string) {
    |suffix| <= |line| && forall i :: 0 <= i < |suffix| ==> line[|line| - |suffix| + i] == suffix[i]
  }

  /** The data set that a name and one of the two suffixes stand for. */
  function ReadDataSetName(s: string): DataSet {
    if EndsWith(s, " (not deletable)") then DataSet(s[..|s| - 16], false, [])
    else if EndsWith(s, " (deletable)") then DataSet(s[..|s| - 12], true, [])
    else DataSet(s, false, [])
  }

  /** The lists after one more line. */
  function AddLine(l: Lists, line: string): Lists {
    if Starts(line, "    Data set: ") then l.(dataSets := l.dataSets + [ReadDataSetName(line[14..])])
    else if Starts(line, "    RP: ") then l.(unbuffered := l.unbuffered + [line[8..]])
    else if Starts(line, "    BR: ") then l.(buffered := l.buffered + [line[8..]])
    else if Starts(line, "      ") && l.dataSets != [] then
      var last := l.dataSets[|l.dataSets| - 1];
      l.(dataSets := l.dataSets[..|l.dataSets| - 1] + [last.(members := last.members + [line[6..]])])
    else l
  }

  /** Steps through the lines of a text. */
  function Fold<S>(step: (S, string) -> S, s: S, lines: seq<string>): S
    decreases |lines|
  {
    if lines == [] then s else Fold(step, step(s, lines[0]), lines[1..])
  }

  lemma {:induction false} FoldAppend<S>(step: (S, string) -> S, s: S, a: seq<string>, b: seq<string>)
    ensures Fold(step, s, a + b) == Fold(step, Fold(step, s, a), b)
    decreases |a|
  {
    if a == [] {
      assert a + b == b;
    } else {
      FoldAppend(step, step(s, a[0]), a[1..], b);
      assert (a + b)[1..] == a[1..] + b;
    }
  }

  lemma FoldOne<S>(step: (S, string) -> S, s: S, line: string)
    ensures Fold(step, s, [line]) == step(s, line)
  {
    assert [line][1..] == [];
  }

  function AddLines(l: Lists, lines: seq<string>): Lists {
    Fold(AddLine, l, lines)
  }

  /** The lists that a text says. */
  function ReadLists(s: string): Lists {
    AddLines(EMPTY, LinesOf(s))
  }

  lemma AddLinesAppend(l: Lists, a: seq<string>, b: seq<string>)
    ensures AddLines(l, a + b) == AddLines(AddLines(l, a), b)
  {
    FoldAppend(AddLine, l, a, b);
  }

  lemma AddLinesSnoc(l: Lists, lines: seq<string>, line: string)
    ensures AddLines(l, lines + [line]) == AddLine(AddLines(l, lines), line)
  {
    FoldAppend(AddLine, l, lines, [line]);
    FoldOne(AddLine, AddLines(l, lines), line);
  }

  lemma StartsAppend(prefix: string, s: string)
    ensures Starts(prefix + s, prefix) && (prefix + s)[|prefix|..] == s
  {
  }

  lemma Differs(line: string, prefix: string, k: nat)
    requires k < |prefix| && (k < |line| ==> line[k] != prefix[k])
    ensures !Starts(line, prefix)
  {
  }

  lemma AddMember(l: Lists, ds: seq<DataSet>, d: DataSet, m: string)
    requires l.dataSets == ds + [d]
    ensures AddLine(l, "      " + m) == l.(dataSets := ds + [d.(members := d.members + [m])])
  {
    var line := "      " + m;
    Differs(line, "    Data set: ", 4);
    Differs(line, "    RP: ", 4);
    Differs(line, "    BR: ", 4);
    StartsAppend("      ", m);
    assert l.dataSets[..|l.dataSets| - 1] == ds;
  }

  lemma AddUnbuffered(l: Lists, name: string)
    ensures AddLine(l, "    RP: " + name) == l.(unbuffered := l.unbuffered + [name])
  {
    Differs("    RP: " + name, "    Data set: ", 4);
    StartsAppend("    RP: ", name);
  }

  lemma AddBuffered(l: Lists, name: string)
    ensures AddLine(l, "    BR: " + name) == l.(buffered := l.buffered + [name])
  {
    Differs("    BR: " + name, "    Data set: ", 4);
    Differs("    BR: " + name, "    RP: ", 4);
    StartsAppend("    BR: ", name);
  }

  lemma EndsAppend(s: string, suffix: string)
    ensures EndsWith(s + suffix, suffix) && (s + suffix)[..|s + suffix| - |suffix|] == s
  {
  }

  lemma EndsDifferently(s: string)
    requires |s| >= 16 && s[|s| - 12] == ' '
    ensures !EndsWith(s, " (not deletable)")
  {
    assert " (not deletable)"[4] == 't';
    assert |s| - 16 + 4 == |s| - 12;
  }

  lemma ReadDataSetNameOf(name: string, deletable: bool)
    ensures ReadDataSetName(name + if deletable then " (deletable)" else " (not deletable)")
         == DataSet(name, deletable, [])
  {
    if deletable {
      var s := name + " (deletable)";
      EndsAppend(name, " (deletable)");
      assert s[|s| - 12] == " (deletable)"[0];
      if |s| >= 16 { EndsDifferently(s); }
    } else {
      EndsAppend(name, " (not deletable)");
    }
  }

  lemma AddDataSetLine(l: Lists, d: DataSet)
    ensures AddLine(l, DataSetLine(d)) == l.(dataSets := l.dataSets + [DataSet(d.name, d.deletable, [])])
  {
    var rest := d.name + if d.deletable then " (deletable)" else " (not deletable)";
    ConcatAssociates("    Data set: ", d.name, if d.deletable then " (deletable)" else " (not deletable)");
    StartsAppend("    Data set: ", rest);
    ReadDataSetNameOf(d.name, d.deletable);
  }

  lemma {:induction false} AddMembers(l: Lists, ds: seq<DataSet>, d: DataSet, members: seq<string>)
    requires l.dataSets == ds + [d] && d.members == []
    ensures AddLines(l, NamesLines("      ", members)) == l.(dataSets := ds + [d.(members := members)])
  {
    if members != [] {
      var init, m := members[..|members| - 1], members[|members| - 1];
      AddMembers(l, ds, d, init);
      AddLinesSnoc(l, NamesLines("      ", init), "      " + m);
      AddMember(l.(dataSets := ds + [d.(members := init)]), ds, d.(members := init), m);
      assert members == init + [m];
    }
  }

  lemma AddDataSet(l: Lists, d: DataSet)
    ensures AddLines(l, DataSetLines(d)) == l.(dataSets := l.dataSets + [d])
  {
    var named := DataSet(d.name, d.deletable, []);
    AddDataSetLine(l, d);
    AddLinesSnoc(l, [], DataSetLine(d));
    assert [] + [DataSetLine(d)] == [DataSetLine(d)];
    AddLinesAppend(l, [DataSetLine(d)], NamesLines("      ", d.members));
    AddMembers(l.(dataSets := l.dataSets + [named]), l.dataSets, named, d.members);
  }

  lemma {:induction false} AddDataSets(l: Lists, ds: seq<DataSet>)
    ensures AddLines(l, DataSetsLines(ds)) == l.(dataSets := l.dataSets + ds)
  {
    if ds == [] {
      assert l.dataSets + ds == l.dataSets;
    } else {
      var init, d := ds[..|ds| - 1], ds[|ds| - 1];
      AddDataSets(l, init);
      AddDataSet(l.(dataSets := l.dataSets + init), d);
      AddDataSetsStep(l, DataSetsLines(init), init, DataSetLines(d), d);
      assert ds == init + [d];
    }
  }

  lemma AddDataSetsStep(l: Lists, a: seq<string>, ds: seq<DataSet>, b: seq<string>, d: DataSet)
    requires AddLines(l, a) == l.(dataSets := l.dataSets + ds)
    requires AddLines(l.(dataSets := l.dataSets + ds), b) == l.(dataSets := l.dataSets + ds + [d])
    ensures AddLines(l, a + b) == l.(dataSets := l.dataSets + (ds + [d]))
  {
    AddLinesAppend(l, a, b);
    ConcatAssociates(l.dataSets, ds, [d]);
  }

  lemma {:induction false} AddUnbufferedNames(l: Lists, names: seq<string>)
    ensures AddLines(l, NamesLines("    RP: ", names)) == l.(unbuffered := l.unbuffered + names)
  {
    if names == [] {
      assert l.unbuffered + names == l.unbuffered;
    } else {
      var init, n := names[..|names| - 1], names[|names| - 1];
      AddUnbufferedNames(l, init);
      AddLinesSnoc(l, NamesLines("    RP: ", init), "    RP: " + n);
      AddUnbuffered(l.(unbuffered := l.unbuffered + init), n);
      assert l.unbuffered + names == l.unbuffered + init + [n];
    }
  }

  lemma {:induction false} AddBufferedNames(l: Lists, names: seq<string>)
    ensures AddLines(l, NamesLines("    BR: ", names)) == l.(buffered := l.buffered + names)
  {
    if names == [] {
      assert l.buffered + names == l.buffered;
    } else {
      var init, n := names[..|names| - 1], names[|names| - 1];
      AddBufferedNames(l, init);
      AddLinesSnoc(l, NamesLines("    BR: ", init), "    BR: " + n);
      AddBuffered(l.(buffered := l.buffered + init), n);
      assert l.buffered + names == l.buffered + init + [n];
    }
  }

  lemma AddLists(l: Lists)
    ensures AddLines(EMPTY, ListsLines(l)) == l
  {
    var rp, br := NamesLines("    RP: ", l.unbuffered), NamesLines("    BR: ", l.buffered);
    AddDataSets(EMPTY, l.dataSets);
    AddUnbufferedNames(Lists(l.dataSets, [], []), l.unbuffered);
    AddBufferedNames(Lists(l.dataSets, l.unbuffered, []), l.buffered);
    AddLinesAppend(EMPTY, DataSetsLines(l.dataSets), rp + br);
    AddLinesAppend(Lists(l.dataSets, [], []), rp, br);
    assert [] + l.dataSets == l.dataSets && [] + l.unbuffered == l.unbuffered && [] + l.buffered == l.buffered;
  }

  /** The text of the lists of a logical node gives them back, whatever the names, as long as they are single lines:
      each data set with its name, its members and whether it can be deleted, and both kinds of report control
      blocks. */
  lemma ReadListsInvertsText(l: Lists)
    requires Listable(l)
    ensures ReadLists(ListsText(l)) == l
  {
    LinesOfLists(l);
    AddLists(l);
  }

  // ---------- the whole output ----------

  /** The lists of the logical nodes met so far, after one more line of output. */
  function AddOutputLine(ls: seq<Lists>, line: string): seq<Lists> {
    match ReadLine(line)
    case Some(l) => if l.kind == LN then ls + [EMPTY] else ls
    case None => if ls == [] then [] else ls[..|ls| - 1] + [AddLine(ls[|ls| - 1], line)]
  }

  function AddOutputLines(ls: seq<Lists>, lines: seq<string>): seq<Lists> {
    Fold(AddOutputLine, ls, lines)
  }

  /** The lists that an output says, for one logical node after the other. */
  function ReadAllLists(output: string): seq<Lists> {
    AddOutputLines([], LinesOf(output))
  }

  /** The effect of a text of whole lines and what follows it. */
  lemma AddTexts(ls: seq<Lists>, s: string, t: string)
    requires WholeLines(s)
    ensures AddOutputLines(ls, LinesOf(s + t)) == AddOutputLines(AddOutputLines(ls, LinesOf(s)), LinesOf(t))
  {
    LinesOfAppend(s, t);
    FoldAppend(AddOutputLine, ls, LinesOf(s), LinesOf(t));
  }

  lemma AddOne(ls: seq<Lists>, line: string)
    requires '\n' !in line
    ensures AddOutputLines(ls, LinesOf(line + "\n")) == AddOutputLine(ls, line)
  {
    LinesOfLine(line);
    FoldOne(AddOutputLine, ls, line);
  }

  lemma AddOutlineLine(ls: seq<Lists>, l: Line)
    requires '\n' !in l.name
    ensures AddOutputLines(ls, LinesOf(LineText(l))) == if l.kind == LN then ls + [EMPTY] else ls
    ensures WholeLines(LineText(l))
  {
    BodyIsSingleLine(l);
    ReadLineInvertsText(l);
    AddOne(ls, LineBody(l));
  }

  lemma {:induction false} AddOutline(ls: seq<Lists>, outline: seq<Line>)
    requires forall l :: l in outline ==> '\n' !in l.name && l.kind != LN
    ensures AddOutputLines(ls, LinesOf(Text(outline))) == ls
  {
    if outline != [] {
      AddOutlineLine(ls, outline[0]);
      AddTexts(ls, LineText(outline[0]), Text(outline[1..]));
      AddOutline(ls, outline[1..]);
    }
  }

  lemma {:induction false} KindsBelow(f: seq<Node>, indent: nat, kind: Kind)
    requires kind == DO || kind == DA
    ensures forall l :: l in Lines(f, indent, kind) ==> l.kind != LN
    decreases f
  {
    if f != [] {
      KindsBelow(f[0].children, indent + 2, kind.Below());
      KindsBelow(f[1..], indent, kind);
    }
  }

  lemma {:induction false} QuietLines(s: string)
    requires ReadText(s) == []
    ensures forall line :: line in LinesOf(s) ==> ReadLine(line) == None
    decreases |s|
  {
    var n := LineEnd(s);
    if n < |s| {
      assert Kept(s[..n]) == [];
      QuietLines(s[n + 1..]);
    }
  }

  lemma {:induction false} AddOwnLines(ls: seq<Lists>, l: Lists, lines: seq<string>)
    requires forall line :: line in lines ==> ReadLine(line) == None
    ensures AddOutputLines(ls + [l], lines) == ls + [AddLines(l, lines)]
    decreases |lines|
  {
    if lines != [] {
      assert (ls + [l])[..|ls|] == ls;
      AddOwnLines(ls, AddLine(l, lines[0]), lines[1..]);
    }
  }

  /** The lists of these logical nodes, in order. */
  function ListsOfNodes(f: seq<Node>, device: string, lists: Catalogue): seq<Lists> {
    if f == [] then []
    else ListsOfNodes(f[..|f| - 1], device, lists) + [lists(device + "/" + f[|f| - 1].name)]
  }

  function ListsOfDevices(f: seq<Node>, lists: Catalogue): seq<Lists> {
    if f == [] then []
    else ListsOfDevices(f[..|f| - 1], lists) + ListsOfNodes(f[|f| - 1].children, f[|f| - 1].name, lists)
  }

  /** All lists have single line names, and no line of theirs is taken for one of the outline. */
  ghost predicate NodeReadable(n: Node, device: string, lists: Catalogue) {
    Listable(lists(device + "/" + n.name)) && Quiet(lists(device + "/" + n.name))
  }

  ghost predicate NodesReadable(f: seq<Node>, device: string, lists: Catalogue) {
    forall i :: 0 <= i < |f| ==> NodeReadable(f[i], device, lists)
  }

  ghost predicate AllReadable(model: seq<Node>, lists: Catalogue) {
    forall i :: 0 <= i < |model| ==> NodesReadable(model[i].children, model[i].name, lists)
  }

  lemma AddListsText(ls: seq<Lists>, l: Lists)
    requires Listable(l) && Quiet(l)
    ensures AddOutputLines(ls + [EMPTY], LinesOf(ListsText(l))) == ls + [l]
  {
    QuietLines(ListsText(l));
    AddOwnLines(ls, EMPTY, LinesOf(ListsText(l)));
    ReadListsInvertsText(l);
  }

  lemma AddNode(ls: seq<Lists>, n: Node, device: string, lists: Catalogue)
    requires '\n' !in n.name && SingleLine(n.children) && NodeReadable(n, device, lists)
    ensures AddOutputLines(ls, LinesOf(NodeText(n, device, lists))) == ls + [lists(device + "/" + n.name)]
  {
    var l, head, outline := lists(device + "/" + n.name), LineText(Line(2, LN, n.name)), Lines(n.children, 4, DO);
    AddOutlineLine(ls, Line(2, LN, n.name));
    SingleLineIff(n.children, 4, DO);
    KindsBelow(n.children, 4, DO);
    TextIsWholeLines(outline);
    AddOutline(ls + [EMPTY], outline);
    AddTexts(ls, head, Text(outline));
    WholeLinesAppend(head, Text(outline));
    AddTexts(ls, head + Text(outline), ListsText(l));
    AddListsText(ls, l);
  }

  lemma {:induction false} AddNodes(ls: seq<Lists>, f: seq<Node>, device: string, lists: Catalogue)
    requires SingleLine(f) && NodesReadable(f, device, lists)
    ensures AddOutputLines(ls, LinesOf(NodesText(f, device, lists))) == ls + ListsOfNodes(f, device, lists)
  {
    if f != [] {
      var init, n := f[..|f| - 1], f[|f| - 1];
      SingleLineParts(f);
      AddNodes(ls, init, device, lists);
      ReadNodes(init, device, lists);
      NodesTextNext(f, device, lists);
      AddTexts(ls, NodesText(init, device, lists), NodeText(n, device, lists));
      AddNode(ls + ListsOfNodes(init, device, lists), n, device, lists);
      ConcatAssociates(ls, ListsOfNodes(init, device, lists), [lists(device + "/" + n.name)]);
    }
  }

  lemma AddDevice(ls: seq<Lists>, d: Node, lists: Catalogue)
    requires '\n' !in d.name && SingleLine(d.children) && NodesReadable(d.children, d.name, lists)
    ensures AddOutputLines(ls, LinesOf(DeviceText(d, lists))) == ls + ListsOfNodes(d.children, d.name, lists)
  {
    AddOutlineLine(ls, Line(0, LD, d.name));
    AddTexts(ls, LineText(Line(0, LD, d.name)), NodesText(d.children, d.name, lists));
    AddNodes(ls, d.children, d.name, lists);
  }

  lemma {:induction false} AddDevices(ls: seq<Lists>, f: seq<Node>, lists: Catalogue)
    requires SingleLine(f) && AllReadable(f, lists)
    ensures AddOutputLines(ls, LinesOf(DevicesText(f, lists))) == ls + ListsOfDevices(f, lists)
  {
    if f != [] {
      var init, d := f[..|f| - 1], f[|f| - 1];
      SingleLineParts(f);
      AddDevices(ls, init, lists);
      ReadDevices(init, lists);
      DevicesTextNext(f, lists);
      AddTexts(ls, DevicesText(init, lists), DeviceText(d, lists));
      AddDevice(ls + ListsOfDevices(init, lists), d, lists);
      ConcatAssociates(ls, ListsOfDevices(init, lists), ListsOfNodes(d.children, d.name, lists));
    }
  }

  lemma AddHeaderLine(tag: string, rest: string, s: string)
    requires |tag| == 4 && tag[0] != ' ' && ReadKind(tag) == None && '\n' !in tag && '\n' !in rest
    ensures AddOutputLines([], LinesOf(tag + rest + "\n" + s)) == AddOutputLines([], LinesOf(s))
  {
    NotOfOutline(0, tag, rest);
    assert Spaces(0) + (tag + rest) == tag + rest;
    AddOne([], tag + rest);
    AddTexts([], tag + rest + "\n", s);
  }

  lemma AddHeader1(s: string)
    ensures ReadAllLists(HEADER1 + "\n" + s) == ReadAllLists(s)
  {
    AddHeaderLine("Get ", "logical device list...", s);
  }

  lemma AddHeader2(s: string)
    ensures ReadAllLists(HEADER2 + "\n" + s) == ReadAllLists(s)
  {
    AddHeaderLine("erro", "r: 0", s);
  }

  /** The whole output gives back, beside the model, the lists of each of its logical nodes. */
  lemma {:induction false} ReadAllListsOfOutput(model: seq<Node>, lists: Catalogue)
    requires SingleLine(model) && AllReadable(model, lists)
    ensures ReadAllLists(OutputText(model, lists)) == ListsOfDevices(model, lists)
    ensures ReadOutline(OutputText(model, lists), 0, LD) == Some(model)
  {
    AddHeader1(HEADER2 + "\n" + DevicesText(model, lists));
    AddHeader2(DevicesText(model, lists));
    AddDevices([], model, lists);
    forall i | 0 <= i < |model| ensures NodesQuiet(model[i].children, model[i].name, lists) {
      assert NodesReadable(model[i].children, model[i].name, lists);
    }
    ReadOutputIff(model, lists);
  }

  /** So the output determines both: with the same output, two such models are the same, with the same lists. */
  lemma {:induction false} OutputDeterminesLists(model: seq<Node>, lists: Catalogue,
      model': seq<Node>, lists': Catalogue)
    requires SingleLine(model) && AllReadable(model, lists) && SingleLine(model') && AllReadable(model', lists')
    requires OutputText(model, lists) == OutputText(model', lists')
    ensures model == model' && ListsOfDevices(model, lists) == ListsOfDevices(model, lists')
  {
    ReadAllListsOfOutput(model, lists);
    ReadAllListsOfOutput(model', lists');
  }

  // ---------- the list requests ----------

  /** A request for one of the three lists of a logical node, or for the members of one of its data sets. */
  ghost predicate IsListRequest(q: ListRequest, ref: string, l: Lists) {
    || q in [NodeList(ref, DATA_SET), NodeList(ref, URCB), NodeList(ref, BRCB)]
    || exists d :: d in l.dataSets && q == Members(ref + "." + d.name)
  }

  lemma {:induction false} MembersRequestsAre(ref: string, ds: seq<DataSet>)
    ensures |MembersRequests(ref, ds)| == |ds|
    ensures forall k :: 0 <= k < |ds| ==> MembersRequests(ref, ds)[k] == Members(ref + "." + ds[k].name)
  {
    if ds != [] { MembersRequestsAre(ref, ds[..|ds| - 1]); }
  }

  /** The requests for a logical node: its data sets, the members of each, and both kinds of report control blocks. */
  lemma ListsRequestsAre(ref: string, l: Lists)
    ensures
      var qs, n := ListsRequests(ref, l), |l.dataSets|;
      && |qs| == n + 3 && qs[0] == NodeList(ref, DATA_SET)
      && (forall k :: 0 <= k < n ==> qs[k + 1] == Members(ref + "." + l.dataSets[k].name))
      && qs[n + 1] == NodeList(ref, URCB) && qs[n + 2] == NodeList(ref, BRCB)
    ensures forall q :: q in ListsRequests(ref, l) <==> IsListRequest(q, ref, l)
  {
    MembersRequestsAre(ref, l.dataSets);
    var qs, n := ListsRequests(ref, l), |l.dataSets|;
    forall q ensures q in qs <==> IsListRequest(q, ref, l) {
      if q in qs {
        var k :| 0 <= k < |qs| && qs[k] == q;
        if 1 <= k <= n { assert l.dataSets[k - 1] in l.dataSets; }
      }
      if d :| d in l.dataSets && q == Members(ref + "." + d.name) {
        var k :| 0 <= k < n && l.dataSets[k] == d;
        assert qs[k + 1] == q;
      }
      assert qs[0] in qs && qs[n + 1] in qs && qs[n + 2] in qs;
    }
  }

  ghost predicate RequestedFor(q: ListRequest, n: Node, device: string, lists: Catalogue) {
    IsListRequest(q, Reference([device, n.name]), lists(Reference([device, n.name])))
  }

  lemma ReferenceOfNode(device: string, node: string)
    ensures Reference([device, node]) == device + "/" + node
  {
    assert [device, node][2..] == [] && Dotted([]) == "";
    assert device + "/" + node + "" == device + "/" + node;
  }

  lemma {:induction false} NodesRequestsAre(f: seq<Node>, device: string, lists: Catalogue, q: ListRequest)
    ensures q in NodesRequests(f, device, lists) <==> exists i :: 0 <= i < |f| && RequestedFor(q, f[i], device, lists)
  {
    if f != [] {
      var init, n := f[..|f| - 1], f[|f| - 1];
      NodesRequestsAre(init, device, lists, q);
      ReferenceOfNode(device, n.name);
      ListsRequestsAre(device + "/" + n.name, lists(device + "/" + n.name));
      if i :| 0 <= i < |init| && RequestedFor(q, init[i], device, lists) { assert init[i] == f[i]; }
      if i :| 0 <= i < |f| && RequestedFor(q, f[i], device, lists) { assert i < |init| ==> init[i] == f[i]; }
    }
  }

  ghost predicate RequestedForDevice(q: ListRequest, d: Node, lists: Catalogue) {
    exists j :: 0 <= j < |d.children| && RequestedFor(q, d.children[j], d.name, lists)
  }

  /** The list requests of a browse are those for the lists of its logical nodes, each by its reference LD/LN, and for
      the members of their data sets, LD/LN.DS. */
  lemma {:induction false} DevicesRequestsAre(f: seq<Node>, lists: Catalogue, q: ListRequest)
    ensures q in DevicesRequests(f, lists) <==> exists i :: 0 <= i < |f| && RequestedForDevice(q, f[i], lists)
  {
    if f != [] {
      var init, d := f[..|f| - 1], f[|f| - 1];
      DevicesRequestsAre(init, lists, q);
      NodesRequestsAre(d.children, d.name, lists, q);
      if i :| 0 <= i < |init| && RequestedForDevice(q, init[i], lists) { assert init[i] == f[i]; }
      if i :| 0 <= i < |f| && RequestedForDevice(q, f[i], lists) { assert i < |init| ==> init[i] == f[i]; }
    }
  }
}
