/** The model browser: it asks the remote side for one directory after the other and prints what it is told. */
module ModelBrowser {
  import opened Wrappers
  import opened Outline
  import opened References
  import opened BrowserOutput
  import opened BrowserLists

  /** The size of the buffers references are written to. */
  const BUFFER_SIZE: nat := 129

  /** Every reference below `ref` fits its buffer, with the terminating zero. */
  ghost predicate RefsFit(f: seq<Node>, ref: string, kind: Kind) {
    forall r :: r in Refs(f, ref, kind) ==> |r| < BUFFER_SIZE
  }

  /** So does every reference of a data set. */
  ghost predicate DataSetsFit(ref: string, l: Lists) {
    forall d :: d in l.dataSets ==> |ref + "." + d.name| < BUFFER_SIZE && '\0' !in d.name
  }

  ghost predicate NodesListsFit(f: seq<Node>, device: string, lists: Catalogue) {
    forall i :: 0 <= i < |f| ==> DataSetsFit(device + "/" + f[i].name, lists(device + "/" + f[i].name))
  }

  ghost predicate ListsFit(model: seq<Node>, lists: Catalogue) {
    forall i :: 0 <= i < |model| ==> NodesListsFit(model[i].children, model[i].name, lists)
  }

  lemma {:induction false} RefsFitBelow(f: seq<Node>, i: nat, ref: string, kind: Kind)
    requires i < |f| && RefsFit(f, ref, kind)
    ensures
      var child := ChildRef(ref, kind, f[i].name);
      |child| < BUFFER_SIZE && RefsFit(f[i].children, child, kind.Below())
  {
    assert f == f[..i] + [f[i]] + f[i + 1..];
    RefsAppend(f[..i] + [f[i]], f[i + 1..], ref, kind);
    RefsAppend(f[..i], [f[i]], ref, kind);
    RefsCons(f[i], [], ref, kind);
    assert [f[i]] + [] == [f[i]];
    var child := ChildRef(ref, kind, f[i].name);
    assert child in TreeRefs(f[i], ref, kind);
    assert forall r :: r in Refs(f[i].children, child, kind.Below()) ==> r in TreeRefs(f[i], ref, kind);
  }

  lemma LinesNext(f: seq<Node>, i: nat, indent: nat, kind: Kind)
    requires i < |f|
    ensures Text(Lines(f[..i + 1], indent, kind)) ==
      Text(Lines(f[..i], indent, kind)) + LineText(Line(indent, kind, f[i].name))
      + Text(Lines(f[i].children, indent + 2, kind.Below()))
  {
    var before, tree := Lines(f[..i], indent, kind), TreeLines(f[i], indent, kind);
    assert f[..i + 1] == f[..i] + [f[i]];
    LinesAppend(f[..i], [f[i]], indent, kind);
    LinesCons(f[i], [], indent, kind);
    assert [f[i]] + [] == [f[i]] && tree + [] == tree;
    TextAppend(before, tree);
    assert tree[1..] == Lines(f[i].children, indent + 2, kind.Below());
    ConcatAssociates(Text(before), LineText(tree[0]), Text(tree[1..]));
  }

  lemma RefsNext(f: seq<Node>, i: nat, ref: string, kind: Kind)
    requires i < |f|
    ensures Refs(f[..i + 1], ref, kind) == Refs(f[..i], ref, kind) + TreeRefs(f[i], ref, kind)
  {
    assert f[..i + 1] == f[..i] + [f[i]];
    RefsAppend(f[..i], [f[i]], ref, kind);
    RefsCons(f[i], [], ref, kind);
    assert [f[i]] + [] == [f[i]] && TreeRefs(f[i], ref, kind) + [] == TreeRefs(f[i], ref, kind);
  }

  lemma HeaderText(name: string)
    ensures LineText(Line(0, LD, name)) == "LD: " + name + "\n"
    ensures LineText(Line(2, LN, name)) == "  LN: " + name + "\n"
    ensures LineText(Line(4, DO, name)) == "    DO: " + name + "\n"
  {
    assert Spaces(2) == "  ";
    assert Spaces(4) == "    ";
  }

  lemma ConcatFour<T>(o: seq<T>, a: seq<T>, l: seq<T>, b: seq<T>)
    ensures o + a + l + b == o + (a + l + b)
  {
  }

  lemma ConcatFive<T>(o: seq<T>, a: seq<T>, b: seq<T>, c: seq<T>, d: seq<T>)
    ensures o + a + b + c + d == o + (a + b + c + d)
  {
  }

  lemma {:induction false} SpacesSnoc(n: nat)
    ensures Spaces(n + 1) == Spaces(n) + " "
  {
    if n != 0 { SpacesSnoc(n - 1); }
  }

  function Names(f: seq<Node>): (names: seq<string>)
    ensures |names| == |f| && forall i :: 0 <= i < |f| ==> names[i] == f[i].name
  {
    if f == [] then [] else [f[0].name] + Names(f[1..])
  }

  /** The string in a buffer, up to the terminating zero. */
  function CString(buffer: seq<char>): string {
    if buffer == [] || buffer[0] == '\0' then "" else [buffer[0]] + CString(buffer[1..])
  }

  lemma {:induction false} CStringOfTerminated(s: string, rest: seq<char>)
    requires '\0' !in s
    ensures CString(s + ['\0'] + rest) == s
  {
    if s != "" {
      CStringOfTerminated(s[1..], rest);
      assert (s + ['\0'] + rest)[1..] == s[1..] + ['\0'] + rest;
    }
  }

  /** Writes a string and its terminating zero to the front of a buffer it fits. */
  method Sprintf(buffer: array<char>, s: string)
    requires |s| < buffer.Length && '\0' !in s
    modifies buffer
    ensures CString(buffer[..]) == s
  {
    for i := 0 to |s|
      invariant buffer[..i] == s[..i]
    {
      buffer[i] := s[i];
    }
    buffer[|s|] := '\0';
    assert buffer[..] == s + ['\0'] + buffer[|s| + 1..];
    CStringOfTerminated(s, buffer[|s| + 1..]);
  }

  /** A connection to a remote model, with the requests made on it, and the output stream. */
  class Browser {
    const model: seq<Node>
    const lists: Catalogue
    var queries: seq<string>
    var listRequests: seq<ListRequest>
    var out: string

    constructor (model: seq<Node>, lists: Catalogue)
      ensures this.model == model && this.lists == lists && queries == [] && listRequests == [] && out == ""
    {
      this.model, this.lists, queries, listRequests, out := model, lists, [], [], "";
    }

    /** A request for the data sets of a logical node, with their members. */
    method GetDataSets(ref: string) returns (names: seq<DataSet>)
      modifies this`listRequests
      ensures listRequests == old(listRequests) + [NodeList(ref, DATA_SET)]
      ensures names == lists(ref).dataSets
    {
      listRequests := listRequests + [NodeList(ref, DATA_SET)];
      names := lists(ref).dataSets;
    }

    /** A request for one of its lists of report control blocks. */
    method GetReports(ref: string, buffered: bool) returns (names: seq<string>)
      modifies this`listRequests
      ensures listRequests == old(listRequests) + [NodeList(ref, if buffered then BRCB else URCB)]
      ensures names == if buffered then lists(ref).buffered else lists(ref).unbuffered
    {
      listRequests := listRequests + [NodeList(ref, if buffered then BRCB else URCB)];
      names := if buffered then lists(ref).buffered else lists(ref).unbuffered;
    }

    /** A directory request for a reference. */
    method GetDirectory(ref: string) returns (names: Option<seq<string>>)
      modifies this`queries
      ensures queries == old(queries) + [ref]
      ensures names == match Directory(model, ref) case None => None case Some(f) => Some(Names(f))
    {
      queries := queries + [ref];
      match Directory(model, ref)
      case None => names := None;
      case Some(f) => names := Some(Names(f));
    }

    method Print(s: string)
      modifies this`out
      ensures out == old(out) + s
    {
      out := out + s;
    }

    method PrintSpaces(spaces: nat)
      modifies this`out
      ensures out == old(out) + Spaces(spaces)
    {
      for i := 0 to spaces
        invariant out == old(out) + Spaces(i)
      {
        Print(" ");
        SpacesSnoc(i);
      }
    }

    /** The two or one print statements for a line of the outline. */
    method PrintLine(l: Line)
      requires l.kind == DA || l.indent == (match l.kind case LD => 0 case LN => 2 case _ => 4)
      modifies this`out
      ensures out == old(out) + LineText(l)
    {
      ghost var o := out;
      match l.kind {
        case LD => Print("LD: " + l.name + "\n");
        case LN => Print("  LN: " + l.name + "\n");
        case DO => Print("    DO: " + l.name + "\n");
        case DA =>
          PrintSpaces(l.indent);
          Print("DA: " + l.name + "\n");
          assert o + Spaces(l.indent) + ("DA: " + l.name + "\n") == o + (Spaces(l.indent) + "DA: " + l.name + "\n");
      }
      HeaderText(l.name);
    }

    /** The nodes the remote side has below a path. */
    ghost function Below(path: seq<string>): seq<Node> {
      match Find(model, path)
      case None => []
      case Some(f) => f
    }

    /** A reference to browse, the path it stands for, and a model below it that can be browsed. */
    ghost predicate Browsable(ref: string, path: seq<string>) {
      && (forall name :: name in path ==> NameOk(name))
      && ref == RefOf(path)
      && WellFormed(Below(path))
      && RefsFit(Below(path), ref, KindBelow(|path|))
    }

    lemma {:induction false} BrowseChild(ref: string, path: seq<string>, i: nat)
      requires Browsable(ref, path) && i < |Below(path)|
      ensures
        var name := Below(path)[i].name;
        var childRef := ChildRef(ref, KindBelow(|path|), name);
        && Browsable(childRef, path + [name])
        && Below(path + [name]) == Below(path)[i].children
        && Directory(model, childRef) == Find(model, path + [name]) == Some(Below(path + [name]))
        && |childRef| < BUFFER_SIZE && '\0' !in name
    {
      var f := Below(path);
      DirectoryOfChild(model, path, f, i);
      RefsFitBelow(f, i, ref, KindBelow(|path|));
      GoodChild(f, i, path);
    }

    lemma GoodChild(f: seq<Node>, i: nat, path: seq<string>)
      requires WellFormed(f) && i < |f| && forall name :: name in path ==> NameOk(name)
      ensures NameOk(f[i].name) && WellFormed(f[i].children)
      ensures forall name :: name in path + [f[i].name] ==> NameOk(name)
    {
      assert f[i] in f;
    }

    lemma {:induction false} RefOfHasNoZero(path: seq<string>)
      requires forall name :: name in path ==> NameOk(name)
      ensures '\0' !in RefOf(path)
    {
      if path != [] {
        RefOfHasNoZero(path[..|path| - 1]);
        assert path[|path| - 1] in path;
      }
    }

    /** What browsing child `i` of a path adds to the output and to the requests. */
    ghost predicate Visited(ref: string, path: seq<string>, i: nat, indent: nat,
        o: string, o': string, q: seq<string>, q': seq<string>)
      requires i < |Below(path)|
    {
      var n, kind := Below(path)[i], KindBelow(|path|);
      && o' == o + LineText(Line(indent, kind, n.name)) + Text(Lines(n.children, indent + 2, kind.Below()))
      && q' == q + TreeRefs(n, ref, kind)
    }

    /** Output and requests after the first `i` children of a path. */
    ghost predicate VisitedUpTo(ref: string, path: seq<string>, i: nat, indent: nat,
        o: string, o': string, q: seq<string>, q': seq<string>)
      requires i <= |Below(path)|
    {
      var f, kind := Below(path)[..i], KindBelow(|path|);
      o' == o + Text(Lines(f, indent, kind)) && q' == q + Refs(f, ref, kind)
    }

    lemma VisitNext(ref: string, path: seq<string>, i: nat, indent: nat,
        o: string, o': string, o'': string, q: seq<string>, q': seq<string>, q'': seq<string>)
      requires i < |Below(path)|
      requires VisitedUpTo(ref, path, i, indent, o, o', q, q')
      requires Visited(ref, path, i, indent, o', o'', q', q'')
      ensures VisitedUpTo(ref, path, i + 1, indent, o, o'', q, q'')
    {
      var f, kind := Below(path), KindBelow(|path|);
      LinesNext(f, i, indent, kind);
      RefsNext(f, i, ref, kind);
      ConcatFour(o, Text(Lines(f[..i], indent, kind)), LineText(Line(indent, kind, f[i].name)),
                 Text(Lines(f[i].children, indent + 2, kind.Below())));
      ConcatAssociates(q, Refs(f[..i], ref, kind), TreeRefs(f[i], ref, kind));
    }

    lemma VisitNone(ref: string, path: seq<string>, indent: nat, o: string, q: seq<string>)
      ensures VisitedUpTo(ref, path, 0, indent, o, o, q, q)
    {
    }

    lemma VisitAll(ref: string, path: seq<string>, i: nat, indent: nat,
        o: string, o': string, q: seq<string>, q': seq<string>)
      requires i == |Below(path)| && VisitedUpTo(ref, path, i, indent, o, o', q, q')
      ensures o' == o + Text(Lines(Below(path), indent, KindBelow(|path|)))
      ensures q' == q + Refs(Below(path), ref, KindBelow(|path|))
    {
      assert Below(path)[..|Below(path)|] == Below(path);
    }

    /** printDataDirectory. A reference the remote side does not know gives no output; otherwise the whole outline
        below it is printed, every node of it is asked for exactly once, by its own reference, and no buffer
        overflows. */
    method PrintDataDirectory(doRef: string, spaces: nat, ghost path: seq<string>)
      requires |path| >= 3 && Browsable(doRef, path)
      requires Directory(model, doRef) == Find(model, path)
      modifies this`queries, this`out
      ensures out == old(out) + Text(Lines(Below(path), spaces, DA))
      ensures queries == old(queries) + [doRef] + Refs(Below(path), doRef, DA)
      decreases Below(path), 2
    {
      var dataAttributes := GetDirectory(doRef);
      if dataAttributes.Some? {
        PrintEachDataAttribute(doRef, dataAttributes.value, spaces, path);
      } else {
        ghost var o, q := out, queries;
        VisitNone(doRef, path, spaces, o, q);
        VisitAll(doRef, path, 0, spaces, o, out, q, queries);
      }
    }

    /** The loop of printDataDirectory. */
    method PrintEachDataAttribute(doRef: string, dataAttributes: seq<string>, spaces: nat, ghost path: seq<string>)
      requires |path| >= 3 && Browsable(doRef, path) && dataAttributes == Names(Below(path))
      modifies this`queries, this`out
      ensures out == old(out) + Text(Lines(Below(path), spaces, DA))
      ensures queries == old(queries) + Refs(Below(path), doRef, DA)
      decreases Below(path), 1
    {
      ghost var o, q := out, queries;
      VisitNone(doRef, path, spaces, o, q);
      var i := 0;
      while i < |dataAttributes|
        invariant i <= |Below(path)| == |dataAttributes|
        invariant VisitedUpTo(doRef, path, i, spaces, o, out, q, queries)
      {
        ghost var o', q' := out, queries;
        PrintDataAttribute(doRef, dataAttributes[i], spaces, path, i);
        VisitNext(doRef, path, i, spaces, o, o', out, q, q', queries);
        i := i + 1;
      }
      VisitAll(doRef, path, i, spaces, o, out, q, queries);
    }

    /** The body of that loop. */
    method PrintDataAttribute(doRef: string, daName: string, spaces: nat, ghost path: seq<string>, ghost i: nat)
      requires |path| >= 3 && Browsable(doRef, path)
      requires i < |Below(path)| && daName == Below(path)[i].name
      modifies this`queries, this`out
      ensures Visited(doRef, path, i, spaces, old(out), out, old(queries), queries)
      decreases Below(path), 0
    {
      PrintLine(Line(spaces, DA, daName));
      BrowseChild(doRef, path, i);
      var daRef := BuildReference(doRef, ".", daName, path + [daName]);
      PrintDataDirectory(daRef, spaces + 2, path + [daName]);
      ConcatAssociates(old(queries), [daRef], Refs(Below(path + [daName]), daRef, DA));
    }

    /** Writes a reference to a buffer of its own. */
    method BuildReference(prefix: string, separator: string, name: string, ghost path: seq<string>)
        returns (ref: string)
      requires RefOf(path) == prefix + separator + name && (forall n :: n in path ==> NameOk(n))
      requires |prefix + separator + name| < BUFFER_SIZE
      ensures ref == prefix + separator + name
    {
      RefOfHasNoZero(path);
      ref := Buffered(prefix + separator + name);
    }

    /** Writes a string to a buffer and takes it from there. */
    method Buffered(s: string) returns (r: string)
      requires |s| < BUFFER_SIZE && '\0' !in s
      ensures r == s
    {
      var buffer := new char[129];
      Sprintf(buffer, s);
      r := CString(buffer[..]);
    }

    // ---------- the lists of a logical node ----------

    /** The loop that prints one line for each name. */
    method PrintNames(prefix: string, names: seq<string>)
      modifies this`out
      ensures out == old(out) + NamesText(prefix, names)
    {
      ghost var o := out;
      for i := 0 to |names|
        invariant out == o + NamesText(prefix, names[..i])
      {
        Print(prefix + names[i] + "\n");
        assert names[..i + 1][..i] == names[..i];
        ConcatAssociates(o, NamesText(prefix, names[..i]), prefix + names[i] + "\n");
      }
      assert names[..|names|] == names;
    }

    /** The body of the loop over the data sets. */
    method PrintDataSet(lnRef: string, dataSet: DataSet)
      requires |lnRef + "." + dataSet.name| < BUFFER_SIZE && '\0' !in lnRef && '\0' !in dataSet.name
      modifies this`out, this`listRequests
      ensures out == old(out) + DataSetText(dataSet)
      ensures listRequests == old(listRequests) + [Members(lnRef + "." + dataSet.name)]
    {
      ghost var o := out;
      var dataSetRef := Buffered(lnRef + "." + dataSet.name);
      listRequests := listRequests + [Members(dataSetRef)];
      var dataSetMembers := dataSet.members;
      if dataSet.deletable {
        Print("    Data set: " + dataSet.name + " (deletable)" + "\n");
      } else {
        Print("    Data set: " + dataSet.name + " (not deletable)" + "\n");
      }
      assert out == o + (DataSetLine(dataSet) + "\n");
      PrintNames("      ", dataSetMembers);
      ConcatAssociates(o, DataSetLine(dataSet) + "\n", NamesText("      ", dataSet.members));
    }

    /** The loop over the data sets. */
    method PrintDataSets(lnRef: string, dataSets: seq<DataSet>)
      requires '\0' !in lnRef
      requires forall d :: d in dataSets ==> |lnRef + "." + d.name| < BUFFER_SIZE && '\0' !in d.name
      modifies this`out, this`listRequests
      ensures out == old(out) + DataSetsText(dataSets)
      ensures listRequests == old(listRequests) + MembersRequests(lnRef, dataSets)
    {
      ghost var o, r := out, listRequests;
      for i := 0 to |dataSets|
        invariant out == o + DataSetsText(dataSets[..i])
        invariant listRequests == r + MembersRequests(lnRef, dataSets[..i])
      {
        PrintDataSet(lnRef, dataSets[i]);
        assert dataSets[..i + 1][..i] == dataSets[..i];
        ConcatAssociates(o, DataSetsText(dataSets[..i]), DataSetText(dataSets[i]));
        ConcatAssociates(r, MembersRequests(lnRef, dataSets[..i]), [Members(lnRef + "." + dataSets[i].name)]);
      }
      assert dataSets[..|dataSets|] == dataSets;
    }

    /** The two loops over the report control blocks. */
    method PrintReports(lnRef: string)
      modifies this`out, this`listRequests
      ensures
        var l := lists(lnRef);
        out == old(out) + NamesText("    RP: ", l.unbuffered) + NamesText("    BR: ", l.buffered)
      ensures listRequests == old(listRequests) + [NodeList(lnRef, URCB)] + [NodeList(lnRef, BRCB)]
    {
      var reports := GetReports(lnRef, false);
      PrintNames("    RP: ", reports);
      reports := GetReports(lnRef, true);
      PrintNames("    BR: ", reports);
    }

    /** What is printed after the data objects of a logical node. */
    method PrintLists(lnRef: string)
      requires '\0' !in lnRef && DataSetsFit(lnRef, lists(lnRef))
      modifies this`out, this`listRequests
      ensures out == old(out) + ListsText(lists(lnRef))
      ensures listRequests == old(listRequests) + ListsRequests(lnRef, lists(lnRef))
    {
      ghost var o, r, l := out, listRequests, lists(lnRef);
      var dataSets := GetDataSets(lnRef);
      PrintDataSets(lnRef, dataSets);
      PrintReports(lnRef);
      ConcatFour(o, DataSetsText(l.dataSets), NamesText("    RP: ", l.unbuffered), NamesText("    BR: ", l.buffered));
      ConcatFive(r, [NodeList(lnRef, DATA_SET)], MembersRequests(lnRef, l.dataSets),
                 [NodeList(lnRef, URCB)], [NodeList(lnRef, BRCB)]);
    }

    /** The data objects of a logical node. */
    method PrintDataObjects(device: string, logicalNode: string, ghost path: seq<string>)
      requires |path| == 2 && Browsable(device + "/" + logicalNode, path)
      requires Directory(model, device + "/" + logicalNode) == Find(model, path) != None
      requires |device + "/" + logicalNode| < BUFFER_SIZE
      modifies this`queries, this`out
      ensures out == old(out) + Text(Lines(Below(path), 4, DO))
      ensures queries == old(queries) + [device + "/" + logicalNode] + Refs(Below(path), device + "/" + logicalNode, DO)
    {
      var lnRef := BuildReference(device, "/", logicalNode, path);
      var dataObjects := GetDirectory(lnRef);
      PrintEachDataObject(device, logicalNode, lnRef, dataObjects.value, path);
    }

    /** The loop over them. */
    method PrintEachDataObject(device: string, logicalNode: string, ghost ref: string, dataObjects: seq<string>,
        ghost path: seq<string>)
      requires |path| == 2 && ref == device + "/" + logicalNode && Browsable(ref, path)
      requires dataObjects == Names(Below(path))
      modifies this`queries, this`out
      ensures out == old(out) + Text(Lines(Below(path), 4, DO))
      ensures queries == old(queries) + Refs(Below(path), ref, DO)
    {
      ghost var o, q := out, queries;
      VisitNone(ref, path, 4, o, q);
      var i := 0;
      while i < |dataObjects|
        invariant i <= |Below(path)| == |dataObjects|
        invariant VisitedUpTo(ref, path, i, 4, o, out, q, queries)
      {
        ghost var o', q' := out, queries;
        PrintDataObject(device, logicalNode, dataObjects[i], path, i);
        VisitNext(ref, path, i, 4, o, o', out, q, q', queries);
        i := i + 1;
      }
      VisitAll(ref, path, i, 4, o, out, q, queries);
    }

    /** The body of that loop. */
    method PrintDataObject(device: string, logicalNode: string, dataObjectName: string,
        ghost path: seq<string>, ghost i: nat)
      requires |path| == 2 && Browsable(device + "/" + logicalNode, path)
      requires i < |Below(path)| && dataObjectName == Below(path)[i].name
      modifies this`queries, this`out
      ensures Visited(device + "/" + logicalNode, path, i, 4, old(out), out, old(queries), queries)
    {
      PrintLine(Line(4, DO, dataObjectName));
      BrowseChild(device + "/" + logicalNode, path, i);
      var doRef := BuildReference(device + "/" + logicalNode, ".", dataObjectName, path + [dataObjectName]);
      PrintDataDirectory(doRef, 6, path + [dataObjectName]);
      ConcatAssociates(old(queries), [doRef], Refs(Below(path + [dataObjectName]), doRef, DA));
    }

    /** Output and requests after the first `i` logical nodes of a device. */
    ghost predicate NodesUpTo(device: string, path: seq<string>, i: nat,
        o: string, o': string, q: seq<string>, q': seq<string>, r: seq<ListRequest>, r': seq<ListRequest>)
      requires i <= |Below(path)|
    {
      var f := Below(path)[..i];
      && o' == o + NodesText(f, device, lists)
      && q' == q + Refs(f, device, LN)
      && r' == r + NodesRequests(f, device, lists)
    }

    lemma NodesUpToNext(device: string, path: seq<string>, i: nat, o: string, o': string, o'': string,
        q: seq<string>, q': seq<string>, q'': seq<string>,
        r: seq<ListRequest>, r': seq<ListRequest>, r'': seq<ListRequest>)
      requires i < |Below(path)| && NodesUpTo(device, path, i, o, o', q, q', r, r')
      requires
        var n := Below(path)[i];
        var ref := device + "/" + n.name;
        && o'' == o' + NodeText(n, device, lists)
        && q'' == q' + TreeRefs(n, device, LN)
        && r'' == r' + ListsRequests(ref, lists(ref))
      ensures NodesUpTo(device, path, i + 1, o, o'', q, q'', r, r'')
    {
      var f, n := Below(path), Below(path)[i];
      var ref := device + "/" + n.name;
      assert f[..i + 1][..i] == f[..i];
      RefsNext(f, i, device, LN);
      NodesTextNext(f[..i + 1], device, lists);
      ConcatAssociates(o, NodesText(f[..i], device, lists), NodeText(n, device, lists));
      ConcatAssociates(q, Refs(f[..i], device, LN), TreeRefs(n, device, LN));
      ConcatAssociates(r, NodesRequests(f[..i], device, lists), ListsRequests(ref, lists(ref)));
    }

    lemma NodesUpToNone(device: string, path: seq<string>, o: string, q: seq<string>, r: seq<ListRequest>)
      ensures NodesUpTo(device, path, 0, o, o, q, q, r, r)
    {
    }

    lemma NodesUpToAll(device: string, path: seq<string>, i: nat,
        o: string, o': string, q: seq<string>, q': seq<string>, r: seq<ListRequest>, r': seq<ListRequest>)
      requires i == |Below(path)| && NodesUpTo(device, path, i, o, o', q, q', r, r')
      ensures o' == o + NodesText(Below(path), device, lists)
      ensures q' == q + Refs(Below(path), device, LN)
      ensures r' == r + NodesRequests(Below(path), device, lists)
    {
      assert Below(path)[..i] == Below(path);
    }

    /** The logical nodes of a device. */
    method PrintLogicalNodes(device: string, ghost path: seq<string>)
      requires |path| == 1 && Browsable(device, path) && NodesListsFit(Below(path), device, lists)
      requires Directory(model, device) == Find(model, path) != None
      modifies this`queries, this`listRequests, this`out
      ensures out == old(out) + NodesText(Below(path), device, lists)
      ensures queries == old(queries) + [device] + Refs(Below(path), device, LN)
      ensures listRequests == old(listRequests) + NodesRequests(Below(path), device, lists)
    {
      var logicalNodes := GetDirectory(device);
      PrintEachLogicalNode(device, logicalNodes.value, path);
    }

    /** The loop over them. */
    method PrintEachLogicalNode(device: string, logicalNodes: seq<string>, ghost path: seq<string>)
      requires |path| == 1 && Browsable(device, path) && NodesListsFit(Below(path), device, lists)
      requires logicalNodes == Names(Below(path))
      modifies this`queries, this`listRequests, this`out
      ensures out == old(out) + NodesText(Below(path), device, lists)
      ensures queries == old(queries) + Refs(Below(path), device, LN)
      ensures listRequests == old(listRequests) + NodesRequests(Below(path), device, lists)
    {
      ghost var o, q, r := out, queries, listRequests;
      NodesUpToNone(device, path, o, q, r);
      var i := 0;
      while i < |logicalNodes|
        invariant i <= |Below(path)| == |logicalNodes|
        invariant NodesUpTo(device, path, i, o, out, q, queries, r, listRequests)
      {
        ghost var o', q', r' := out, queries, listRequests;
        PrintLogicalNode(device, logicalNodes[i], path, i);
        NodesUpToNext(device, path, i, o, o', out, q, q', queries, r, r', listRequests);
        i := i + 1;
      }
      NodesUpToAll(device, path, i, o, out, q, queries, r, listRequests);
    }

    /** The body of that loop. */
    method PrintLogicalNode(device: string, logicalNode: string, ghost path: seq<string>, ghost i: nat)
      requires |path| == 1 && Browsable(device, path) && NodesListsFit(Below(path), device, lists)
      requires i < |Below(path)| && logicalNode == Below(path)[i].name
      modifies this`queries, this`listRequests, this`out
      ensures out == old(out) + NodeText(Below(path)[i], device, lists)
      ensures queries == old(queries) + TreeRefs(Below(path)[i], device, LN)
      ensures
        var ref := device + "/" + logicalNode;
        listRequests == old(listRequests) + ListsRequests(ref, lists(ref))
    {
      ghost var o, q := out, queries;
      BrowseChild(device, path, i);
      ghost var below := path + [logicalNode];
      PrintLine(Line(2, LN, logicalNode));
      PrintNodeContents(device, logicalNode, below);
      ghost var lnRef := device + "/" + logicalNode;
      ConcatAssociates(q, [lnRef], Refs(Below(below), lnRef, DO));
      ConcatFour(o, LineText(Line(2, LN, logicalNode)), Text(Lines(Below(below), 4, DO)), ListsText(lists(lnRef)));
    }

    /** What it prints after the name of the logical node. */
    method PrintNodeContents(device: string, logicalNode: string, ghost path: seq<string>)
      requires |path| == 2 && Browsable(device + "/" + logicalNode, path)
      requires Directory(model, device + "/" + logicalNode) == Find(model, path) != None
      requires |device + "/" + logicalNode| < BUFFER_SIZE
      requires DataSetsFit(device + "/" + logicalNode, lists(device + "/" + logicalNode))
      modifies this`queries, this`listRequests, this`out
      ensures
        var lnRef := device + "/" + logicalNode;
        && out == old(out) + Text(Lines(Below(path), 4, DO)) + ListsText(lists(lnRef))
        && queries == old(queries) + [lnRef] + Refs(Below(path), lnRef, DO)
        && listRequests == old(listRequests) + ListsRequests(lnRef, lists(lnRef))
    {
      PrintDataObjects(device, logicalNode, path);
      RefOfHasNoZero(path);
      PrintLists(device + "/" + logicalNode);
    }

    /** Output and requests after the first `i` devices. */
    ghost predicate DevicesUpTo(i: nat, o: string, o': string, q: seq<string>, q': seq<string>,
        r: seq<ListRequest>, r': seq<ListRequest>)
      requires i <= |model|
    {
      && o' == o + DevicesText(model[..i], lists)
      && q' == q + Refs(model[..i], "", LD)
      && r' == r + DevicesRequests(model[..i], lists)
    }

    lemma DevicesUpToNext(i: nat, o: string, o': string, o'': string, q: seq<string>, q': seq<string>, q'': seq<string>,
        r: seq<ListRequest>, r': seq<ListRequest>, r'': seq<ListRequest>)
      requires i < |model| && DevicesUpTo(i, o, o', q, q', r, r')
      requires o'' == o' + DeviceText(model[i], lists) && q'' == q' + TreeRefs(model[i], "", LD)
      requires r'' == r' + NodesRequests(model[i].children, model[i].name, lists)
      ensures DevicesUpTo(i + 1, o, o'', q, q'', r, r'')
    {
      assert model[..i + 1][..i] == model[..i];
      RefsNext(model, i, "", LD);
      DevicesTextNext(model[..i + 1], lists);
      ConcatAssociates(o, DevicesText(model[..i], lists), DeviceText(model[i], lists));
      ConcatAssociates(q, Refs(model[..i], "", LD), TreeRefs(model[i], "", LD));
      ConcatAssociates(r, DevicesRequests(model[..i], lists), NodesRequests(model[i].children, model[i].name, lists));
    }

    /** The loop over the devices. */
    method PrintDevices()
      requires Browsable("", []) && ListsFit(model, lists)
      modifies this`queries, this`listRequests, this`out
      ensures out == old(out) + DevicesText(model, lists)
      ensures queries == old(queries) + Refs(model, "", LD)
      ensures listRequests == old(listRequests) + DevicesRequests(model, lists)
    {
      var deviceList := Names(model);
      ghost var o, q, r := out, queries, listRequests;
      var i := 0;
      while i < |deviceList|
        invariant i <= |model| == |deviceList|
        invariant DevicesUpTo(i, o, out, q, queries, r, listRequests)
      {
        ghost var o', q', r' := out, queries, listRequests;
        PrintDevice(deviceList[i], i);
        DevicesUpToNext(i, o, o', out, q, q', queries, r, r', listRequests);
        i := i + 1;
      }
      assert model[..i] == model;
    }

    /** The body of that loop. */
    method PrintDevice(device: string, ghost i: nat)
      requires Browsable("", []) && ListsFit(model, lists) && i < |model| && device == model[i].name
      modifies this`queries, this`listRequests, this`out
      ensures out == old(out) + DeviceText(model[i], lists)
      ensures queries == old(queries) + TreeRefs(model[i], "", LD)
      ensures listRequests == old(listRequests) + NodesRequests(model[i].children, device, lists)
    {
      ghost var o, q := out, queries;
      assert Below([]) == model;
      BrowseChild("", [], i);
      assert [] + [device] == [device];
      PrintLine(Line(0, LD, device));
      PrintLogicalNodes(device, [device]);
      ConcatAssociates(o, LineText(Line(0, LD, device)), NodesText(model[i].children, device, lists));
      ConcatAssociates(q, [device], Refs(model[i].children, device, LN));
    }

    /** The whole browse: all of its output, and all of its requests. Those for the outline are the references of its
        nodes, each once, in the same order. */
    method PrintModel()
      requires WellFormed(model) && RefsFit(model, "", LD) && ListsFit(model, lists)
      modifies this`queries, this`listRequests, this`out
      ensures out == old(out) + OutputText(model, lists)
      ensures queries == old(queries) + Refs(model, "", LD)
      ensures listRequests == old(listRequests) + DevicesRequests(model, lists)
    {
      ghost var o := out;
      Print(HEADER1 + "\n");
      Print(HEADER2 + "\n");
      assert Below([]) == model;
      PrintDevices();
      ConcatHeader(o, HEADER1 + "\n", HEADER2 + "\n", DevicesText(model, lists));
    }

    lemma ConcatHeader(o: string, a: string, b: string, c: string)
      ensures o + a + b + c == o + (a + (b + c))
    {
    }
  }

  /** What a browse leaves behind: the printed text alone determines the remote model, if and only if no name has a
      newline and no line of the lists is taken for one of the outline, and with single line names in the lists these
      as well; no directory is asked for twice, and each request is the reference of the node it asked for, LD, LD/LN,
      LD/LN.DO, LD/LN.DO.DA and so on. */
  method BrowseAndReadBack(model: seq<Node>, lists: Catalogue)
      returns (read: Option<seq<Node>>, listsRead: seq<Lists>, queries: seq<string>)
    requires WellFormed(model) && RefsFit(model, "", LD) && ListsFit(model, lists)
    ensures read == Some(model) <==> SingleLine(model) && AllQuiet(model, lists)
    ensures SingleLine(model) && AllReadable(model, lists) ==> listsRead == ListsOfDevices(model, lists)
    ensures Distinct(queries) && |queries| == |Paths(model, [])|
    ensures forall i :: 0 <= i < |queries| ==>
      Paths(model, [])[i] != [] && queries[i] == Reference(Paths(model, [])[i])
      && Split(queries[i]) == Paths(model, [])[i]
  {
    var b := new Browser(model, lists);
    b.PrintModel();
    read, listsRead, queries := ReadOutline(b.out, 0, LD), ReadAllLists(b.out), b.queries;
    assert b.out == OutputText(model, lists) && b.queries == Refs(model, "", LD);
    ReadOutputIff(model, lists);
    if SingleLine(model) && AllReadable(model, lists) { ReadAllListsOfOutput(model, lists); }
    ReferencesIdentifyNodes(model);
    RefsAreReferences(model);
  }
}
