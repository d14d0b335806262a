/** The report control block object of the .NET client: which parameters a write request names, and who gets
    the reports. */
module Reporting {
  import opened Wrappers

  datatype Param = RptId | RptEna | Resv | DataSetReference | ConfRev | OptFlds | BufTm | SqNum | TrgOps | IntgPd
                 | GI | PurgeBuf | EntryId | ResvTms
  {
    /** The bit of the parameter in the mask of a write request; bit 13 is not used. */
    function Bit(): nat {
      match this
      case RptId => 0
      case RptEna => 1
      case Resv => 2
      case DataSetReference => 3
      case ConfRev => 4
      case OptFlds => 5
      case BufTm => 6
      case SqNum => 7
      case TrgOps => 8
      case IntgPd => 9
      case GI => 10
      case PurgeBuf => 11
      case EntryId => 12
      case ResvTms => 14
    }
  }

  /** Bit `k` of an integer: the lowest bit after `k` shifts to the right. */
  predicate BitAt(mask: nat, k: nat) {
    if k == 0 then mask % 2 == 1 else BitAt(mask / 2, k - 1)
  }

  /** The integer with these bits, lowest first. */
  function IntegerOf(bits: seq<bool>): nat {
    if bits == [] then 0 else (if bits[0] then 1 else 0) + 2 * IntegerOf(bits[1..])
  }

  /** A sum of distinct powers of two has just those bits. */
  lemma {:induction false} BitsOfSum(bits: seq<bool>, k: nat)
    ensures BitAt(IntegerOf(bits), k) <==> k < |bits| && bits[k]
  {
    if bits == [] {
      NoBitsInZero(k);
    } else if k != 0 {
      BitsOfSum(bits[1..], k - 1);
      assert IntegerOf(bits) / 2 == IntegerOf(bits[1..]);
    }
  }

  lemma {:induction false} NoBitsInZero(k: nat)
    ensures !BitAt(0, k)
  {
    if k != 0 { NoBitsInZero(k - 1); }
  }

  /** The mask names these parameters and nothing else. */
  ghost predicate Names(mask: nat, params: set<Param>) {
    && (forall p: Param :: BitAt(mask, p.Bit()) <==> p in params)
    && (forall k: nat :: BitAt(mask, k) ==> exists p: Param :: p.Bit() == k)
  }

  /** An integer is the sum of its bits, so integers with the same bits are equal. */
  lemma {:induction false} BitsDetermine(a: nat, b: nat)
    requires forall k: nat :: BitAt(a, k) <==> BitAt(b, k)
    ensures a == b
    decreases a + b
  {
    if a + b > 0 {
      assert BitAt(a, 0) <==> BitAt(b, 0);
      forall k: nat ensures BitAt(a / 2, k) <==> BitAt(b / 2, k) {
        assert BitAt(a, k + 1) <==> BitAt(b, k + 1);
      }
      BitsDetermine(a / 2, b / 2);
    }
  }

  /** The parameters a mask names and the mask determine each other. */
  lemma MaskDetermines(mask: nat, mask': nat, ps: set<Param>, qs: set<Param>)
    requires Names(mask, ps) && Names(mask', qs)
    ensures mask == mask' <==> ps == qs
  {
    if mask == mask' {
      forall p: Param ensures p in ps <==> p in qs {
        assert BitAt(mask, p.Bit()) <==> p in ps;
      }
    }
    if ps == qs {
      forall k: nat ensures BitAt(mask, k) <==> BitAt(mask', k) {
        if p: Param :| p.Bit() == k {
          assert BitAt(mask, p.Bit()) <==> BitAt(mask', p.Bit());
        }
      }
      BitsDetermine(mask, mask');
    }
  }

  /** A write request as the native library gets it: the mask, and the values it takes from the native block. */
  datatype Request = Request(mask: nat, singleRequest: bool, values: map<Param, int>)

  datatype Delivery = Delivery(report: nat, handler: nat, parameter: nat)

  class ReportControlBlock {
    // the native block, and what the native library has been asked for
    var values: map<Param, int>
    var requests: seq<Request>
    var registrations: nat
    var delivered: seq<Delivery>
    // fields of the object
    var flagRptId: bool
    var flagRptEna: bool
    var flagResv: bool
    var flagDataSetReference: bool
    var flagConfRev: bool
    var flagOptFlds: bool
    var flagBufTm: bool
    var flagSqNum: bool
    var flagTrgOps: bool
    var flagIntgPd: bool
    var flagGI: bool
    var flagPurgeBuf: bool
    var flagResvTms: bool
    var flagEntryId: bool
    var reportHandler: Option<nat>
    var reportHandlerParameter: nat
    var reportHandlerInstalled: bool
    var report: Option<nat>

    constructor ()
      ensures values == map[] && requests == [] && registrations == 0 && delivered == []
      ensures forall p: Param :: !Flag(p)
      ensures reportHandler == None && report == None && !reportHandlerInstalled
    {
      values, requests, registrations, delivered := map[], [], 0, [];
      flagRptId, flagRptEna, flagResv, flagDataSetReference, flagConfRev := false, false, false, false, false;
      flagOptFlds, flagBufTm, flagSqNum, flagTrgOps, flagIntgPd := false, false, false, false, false;
      flagGI, flagPurgeBuf, flagResvTms, flagEntryId := false, false, false, false;
      reportHandler, reportHandlerParameter, reportHandlerInstalled, report := None, 0, false, None;
    }

    /** The send flag of a parameter. */
    predicate Flag(p: Param)
      reads this
    {
      match p
      case RptId => flagRptId
      case RptEna => flagRptEna
      case Resv => flagResv
      case DataSetReference => flagDataSetReference
      case ConfRev => flagConfRev
      case OptFlds => flagOptFlds
      case BufTm => flagBufTm
      case SqNum => flagSqNum
      case TrgOps => flagTrgOps
      case IntgPd => flagIntgPd
      case GI => flagGI
      case PurgeBuf => flagPurgeBuf
      case EntryId => flagEntryId
      case ResvTms => flagResvTms
    }

    ghost function Flagged(): set<Param>
      reads this
    {
      set p: Param | Flag(p)
    }

    /** The setter of a parameter: SetDataSetReference, SetRptEna, SetBufTm, SetGI, SetResv, SetTrgOps, SetIntgPd
        and SetOptFlds. The object has no setter for the others. */
    method Set(p: Param, value: int)
      requires HasSetter(p)
      modifies this`values, this`flagRptEna, this`flagResv, this`flagDataSetReference, this`flagOptFlds,
               this`flagBufTm, this`flagTrgOps, this`flagIntgPd, this`flagGI
      ensures values == old(values)[p := value]
      ensures Flagged() == old(Flagged()) + {p}
    {
      values := values[p := value];
      SetFlag(p);
    }

    method SetFlag(p: Param)
      requires HasSetter(p)
      modifies this`flagRptEna, this`flagResv, this`flagDataSetReference, this`flagOptFlds,
               this`flagBufTm, this`flagTrgOps, this`flagIntgPd, this`flagGI
      ensures forall q: Param :: Flag(q) <==> old(Flag(q)) || q == p
    {
      match p {
        case DataSetReference => flagDataSetReference := true;
        case RptEna => flagRptEna := true;
        case BufTm => flagBufTm := true;
        case GI => flagGI := true;
        case Resv => flagResv := true;
        case TrgOps => flagTrgOps := true;
        case IntgPd => flagIntgPd := true;
        case OptFlds => flagOptFlds := true;
      }
    }

    /** Reads the values the server has into the native block; false is the exception on an error. */
    method GetRCBValues(serverValues: map<Param, int>, error: bool) returns (ok: bool)
      modifies this`values
      ensures ok == !error
      ensures values == if error then old(values) else old(values) + serverValues
    {
      if !error { values := values + serverValues; }
      return !error;
    }

    /** The flags in the order of their bits. */
    ghost function FlagBits(): (bits: seq<bool>)
      reads this
      ensures |bits| == 15 && !bits[13] && forall p: Param :: bits[p.Bit()] <==> Flag(p)
    {
      [flagRptId, flagRptEna, flagResv, flagDataSetReference, flagConfRev, flagOptFlds, flagBufTm, flagSqNum,
       flagTrgOps, flagIntgPd, flagGI, flagPurgeBuf, flagEntryId, false, flagResvTms]
    }

    /** The sum that is the mask of SetRCBValues, in three parts. */
    method ParametersMask() returns (parametersMask: nat)
      ensures parametersMask == FlagSum()
    {
      parametersMask := AddLowFlags(0);
      parametersMask := AddMiddleFlags(parametersMask);
      parametersMask := AddHighFlags(parametersMask);
    }

    method AddLowFlags(mask: nat) returns (parametersMask: nat)
      ensures parametersMask == mask + Five(flagRptId, flagRptEna, flagResv, flagDataSetReference, flagConfRev)
    {
      parametersMask := mask;
      if flagRptId { parametersMask := parametersMask + 1; }
      if flagRptEna { parametersMask := parametersMask + 2; }
      if flagResv { parametersMask := parametersMask + 4; }
      if flagDataSetReference { parametersMask := parametersMask + 8; }
      if flagConfRev { parametersMask := parametersMask + 16; }
    }

    method AddMiddleFlags(mask: nat) returns (parametersMask: nat)
      ensures parametersMask == mask + 32 * Five(flagOptFlds, flagBufTm, flagSqNum, flagTrgOps, flagIntgPd)
    {
      parametersMask := mask;
      if flagOptFlds { parametersMask := parametersMask + 32; }
      if flagBufTm { parametersMask := parametersMask + 64; }
      if flagSqNum { parametersMask := parametersMask + 128; }
      if flagTrgOps { parametersMask := parametersMask + 256; }
      if flagIntgPd { parametersMask := parametersMask + 512; }
    }

    method AddHighFlags(mask: nat) returns (parametersMask: nat)
      ensures parametersMask == mask + 1024 * Five(flagGI, flagPurgeBuf, flagEntryId, false, flagResvTms)
    {
      parametersMask := mask;
      if flagGI { parametersMask := parametersMask + 1024; }
      if flagPurgeBuf { parametersMask := parametersMask + 2048; }
      if flagEntryId { parametersMask := parametersMask + 4096; }
      if flagResvTms { parametersMask := parametersMask + 16384; }
    }

    ghost function FlagSum(): nat
      reads this
    {
      Five(flagRptId, flagRptEna, flagResv, flagDataSetReference, flagConfRev)
      + 32 * Five(flagOptFlds, flagBufTm, flagSqNum, flagTrgOps, flagIntgPd)
      + 1024 * Five(flagGI, flagPurgeBuf, flagEntryId, false, flagResvTms)
    }

    lemma FlagBitsSum()
      ensures IntegerOf(FlagBits()) == FlagSum()
    {
      var bits := FlagBits();
      FirstFive(bits);
      FirstFive(bits[5..]);
      FirstFive(bits[5..][5..]);
      assert bits[5..][5..][5..] == [];
    }

    lemma FlagSumNames()
      ensures Names(FlagSum(), Flagged())
    {
      FlagBitsSum();
      SumNames(FlagBits(), Flagged(), FlagSum());
    }

    /** Sends the flagged parameters. The flags stay as they are, whatever comes of the request. */
    method SetRCBValues(singleRequest: bool, error: bool) returns (ok: bool)
      modifies this`requests
      ensures ok == !error
      ensures |requests| == |old(requests)| + 1 && requests[..|old(requests)|] == old(requests)
      ensures
        var r := requests[|requests| - 1];
        Names(r.mask, Flagged()) && r.singleRequest == singleRequest && r.values == values
    {
      var parametersMask := ParametersMask();
      requests := requests + [Request(parametersMask, singleRequest, values)];
      FlagSumNames();
      return !error;
    }

    method Apply(c: Call) returns (ghost r: Request)
      requires c.Set? ==> HasSetter(c.p)
      modifies this
      ensures Flagged() == old(Flagged()) + if c.Set? then {c.p} else {}
      ensures values == NativeAfter(old(values), c)
      ensures requests == if c.Send? then old(requests) + [r] else old(requests)
      ensures c.Send? ==> Names(r.mask, old(Flagged())) && r.values == old(values)
    {
      r := Request(0, false, map[]);
      match c {
        case Set(p, value) => Set(p, value);
        case Get(serverValues, error) => var _ := GetRCBValues(serverValues, error);
        case Send(singleRequest, error) =>
          var _ := SetRCBValues(singleRequest, error);
          r := requests[|requests| - 1];
      }
    }

    /** A new handler replaces the old one; the native library is told of the object only the first time. */
    method InstallReportHandler(handler: nat, parameter: nat)
      modifies this`reportHandler, this`reportHandlerParameter, this`reportHandlerInstalled, this`registrations
      ensures reportHandler == Some(handler) && reportHandlerParameter == parameter && reportHandlerInstalled
      ensures registrations == old(registrations) + if old(reportHandlerInstalled) then 0 else 1
    {
      reportHandler := Some(handler);
      reportHandlerParameter := parameter;
      if reportHandlerInstalled == false {
        registrations := registrations + 1;
        reportHandlerInstalled := true;
      }
    }

    /** The native library's call for a report. The report object made for the first call is used for all. */
    method InternalReportHandler(nativeReport: nat)
      modifies this`report, this`delivered
      ensures report == if old(report) == None then Some(nativeReport) else old(report)
      ensures delivered == old(delivered) +
        if reportHandler == None then []
        else [Delivery(report.value, reportHandler.value, reportHandlerParameter)]
    {
      if report == None { report := Some(nativeReport); }
      if reportHandler != None {
        delivered := delivered + [Delivery(report.value, reportHandler.value, reportHandlerParameter)];
      }
    }
  }

  predicate HasSetter(p: Param) {
    p in {DataSetReference, RptEna, BufTm, GI, Resv, TrgOps, IntgPd, OptFlds}
  }

  lemma IntegerOfDrop(bits: seq<bool>, k: nat)
    requires k < |bits|
    ensures IntegerOf(bits[k..]) == One(bits[k]) + 2 * IntegerOf(bits[k + 1..])
  {
    assert bits[k..][1..] == bits[k + 1..];
  }

  lemma FirstFive(bits: seq<bool>)
    requires |bits| >= 5
    ensures IntegerOf(bits) == Five(bits[0], bits[1], bits[2], bits[3], bits[4]) + 32 * IntegerOf(bits[5..])
  {
    assert bits[0..] == bits;
    IntegerOfDrop(bits, 0);
    IntegerOfDrop(bits, 1);
    IntegerOfDrop(bits, 2);
    IntegerOfDrop(bits, 3);
    IntegerOfDrop(bits, 4);
  }

  function Five(a: bool, b: bool, c: bool, d: bool, e: bool): nat {
    One(a) + 2 * One(b) + 4 * One(c) + 8 * One(d) + 16 * One(e)
  }

  function One(b: bool): nat { if b then 1 else 0 }

  lemma SumNames(bits: seq<bool>, params: set<Param>, mask: nat)
    requires |bits| == 15 && !bits[13] && mask == IntegerOf(bits)
    requires forall p: Param :: p in params <==> bits[p.Bit()]
    ensures Names(mask, params)
  {
    forall p: Param ensures BitAt(mask, p.Bit()) <==> p in params {
      BitsOfSum(bits, p.Bit());
    }
    forall k: nat | BitAt(mask, k) ensures exists p: Param :: p.Bit() == k {
      BitsOfSum(bits, k);
      ParamOf(k);
    }
  }

  lemma ParamOf(k: nat)
    requires k < 15 && k != 13
    ensures exists p: Param :: p.Bit() == k
  {
    assert RptId.Bit() == 0 && RptEna.Bit() == 1 && Resv.Bit() == 2 && DataSetReference.Bit() == 3;
    assert ConfRev.Bit() == 4 && OptFlds.Bit() == 5 && BufTm.Bit() == 6 && SqNum.Bit() == 7;
    assert TrgOps.Bit() == 8 && IntgPd.Bit() == 9 && GI.Bit() == 10 && PurgeBuf.Bit() == 11;
    assert EntryId.Bit() == 12 && ResvTms.Bit() == 14;
  }

  // ---------- call histories ----------

  datatype Call =
    | Set(p: Param, value: int)
    | Get(serverValues: map<Param, int>, error: bool)
    | Send(singleRequest: bool, error: bool)

  /** The parameters whose setters have been called. */
  ghost function SetIn(calls: seq<Call>): set<Param> {
    set i | 0 <= i < |calls| && calls[i].Set? :: calls[i].p
  }

  /** For each send, the parameters whose setters were called before it. */
  ghost function SentIn(calls: seq<Call>): seq<set<Param>> {
    if calls == [] then []
    else
      var before, c := calls[..|calls| - 1], calls[|calls| - 1];
      SentIn(before) + if c.Send? then [SetIn(before)] else []
  }

  /** The native block's values after these calls. */
  ghost function Native(calls: seq<Call>): map<Param, int> {
    if calls == [] then map[]
    else NativeAfter(Native(calls[..|calls| - 1]), calls[|calls| - 1])
  }

  function NativeAfter(before: map<Param, int>, c: Call): map<Param, int> {
    match c
    case Set(p, value) => before[p := value]
    case Get(serverValues, error) => if error then before else before + serverValues
    case Send(_, _) => before
  }

  /** For each send, the native block's values at that time. */
  ghost function ValuesSentIn(calls: seq<Call>): seq<map<Param, int>> {
    if calls == [] then []
    else
      var before, c := calls[..|calls| - 1], calls[|calls| - 1];
      ValuesSentIn(before) + if c.Send? then [Native(before)] else []
  }

  /** The value last given to the setter of `p`. */
  ghost function LastSet(calls: seq<Call>, p: Param): Option<int> {
    if calls == [] then None
    else match calls[|calls| - 1]
      case Set(q, value) => if q == p then Some(value) else LastSet(calls[..|calls| - 1], p)
      case _ => LastSet(calls[..|calls| - 1], p)
  }

  /** The value of `p` that was last read from the server, if that was after its setter was last called. */
  ghost function ReadSince(calls: seq<Call>, p: Param): Option<int> {
    if calls == [] then None
    else match calls[|calls| - 1]
      case Set(q, _) => if q == p then None else ReadSince(calls[..|calls| - 1], p)
      case Get(serverValues, error) =>
        if !error && p in serverValues then Some(serverValues[p]) else ReadSince(calls[..|calls| - 1], p)
      case Send(_, _) => ReadSince(calls[..|calls| - 1], p)
  }

  /** A request carries the value its setter was last given if and only if no other value has been read from the
      server since; a read does not spare parameters that wait to be sent. */
  lemma {:induction false} SetValueKeptIff(calls: seq<Call>, p: Param)
    requires p in SetIn(calls)
    ensures p in Native(calls) && LastSet(calls, p).Some?
    ensures Native(calls)[p] == LastSet(calls, p).value <==>
      ReadSince(calls, p) == None || ReadSince(calls, p) == LastSet(calls, p)
  {
    NativeIs(calls, p);
    LastSetIff(calls, p);
  }

  /** Every value of the native block is the one last set or read, whichever was later; a failed read does not count. */
  lemma {:induction false} NativeIs(calls: seq<Call>, p: Param)
    ensures p in Native(calls) <==> ReadSince(calls, p).Some? || LastSet(calls, p).Some?
    ensures ReadSince(calls, p).Some? ==> Native(calls)[p] == ReadSince(calls, p).value
    ensures ReadSince(calls, p) == None && LastSet(calls, p).Some? ==> Native(calls)[p] == LastSet(calls, p).value
  {
    if calls != [] { NativeIs(calls[..|calls| - 1], p); }
  }

  lemma {:induction false} LastSetIff(calls: seq<Call>, p: Param)
    ensures LastSet(calls, p).Some? <==> p in SetIn(calls)
  {
    if calls != [] {
      var before, c := calls[..|calls| - 1], calls[|calls| - 1];
      assert calls == before + [c];
      LastSetIff(before, p);
      SetInAppend(before, c);
    }
  }

  lemma SetInAppend(calls: seq<Call>, c: Call)
    ensures SetIn(calls + [c]) == SetIn(calls) + if c.Set? then {c.p} else {}
  {
    var after := calls + [c];
    forall p ensures p in SetIn(after) <==> p in SetIn(calls) || (c.Set? && p == c.p) {
      if p in SetIn(calls) {
        var i :| 0 <= i < |calls| && calls[i].Set? && calls[i].p == p;
        assert after[i] == calls[i];
      }
      if c.Set? && p == c.p { assert after[|calls|] == c; }
    }
  }

  /** What was sent once is sent again with every later request. */
  lemma {:induction false} MasksGrow(calls: seq<Call>, i: nat, j: nat)
    requires i <= j < |SentIn(calls)|
    ensures SentIn(calls)[i] <= SentIn(calls)[j] <= SetIn(calls)
  {
    var before, c := calls[..|calls| - 1], calls[|calls| - 1];
    assert calls == before + [c];
    SetInAppend(before, c);
    if j < |SentIn(before)| {
      MasksGrow(before, i, j);
    } else if i < j {
      MasksGrow(before, i, i);
    }
  }

  /** The requests name exactly the parameters set before them, and carry the values the native block had then. */
  ghost predicate SentAs(requests: seq<Request>, calls: seq<Call>) {
    && |requests| == |SentIn(calls)| == |ValuesSentIn(calls)|
    && (forall k :: 0 <= k < |requests| ==>
          Names(requests[k].mask, SentIn(calls)[k]) && requests[k].values == ValuesSentIn(calls)[k])
  }

  lemma SentAsAppend(requests: seq<Request>, calls: seq<Call>, c: Call, r: Request)
    requires SentAs(requests, calls)
    requires c.Send? ==> Names(r.mask, SetIn(calls)) && r.values == Native(calls)
    ensures SentAs(if c.Send? then requests + [r] else requests, calls + [c])
  {
    assert (calls + [c])[..|calls|] == calls;
  }

  /** Bit by bit: which parameter each bit of the mask of a request stands for. */
  lemma MaskBits(requests: seq<Request>, calls: seq<Call>, k: nat)
    requires SentAs(requests, calls) && k < |requests|
    ensures
      var mask, sent := requests[k].mask, SentIn(calls)[k];
      && (BitAt(mask, 0) <==> RptId in sent) && (BitAt(mask, 1) <==> RptEna in sent)
      && (BitAt(mask, 2) <==> Resv in sent) && (BitAt(mask, 3) <==> DataSetReference in sent)
      && (BitAt(mask, 4) <==> ConfRev in sent) && (BitAt(mask, 5) <==> OptFlds in sent)
      && (BitAt(mask, 6) <==> BufTm in sent) && (BitAt(mask, 7) <==> SqNum in sent)
      && (BitAt(mask, 8) <==> TrgOps in sent) && (BitAt(mask, 9) <==> IntgPd in sent)
      && (BitAt(mask, 10) <==> GI in sent) && (BitAt(mask, 11) <==> PurgeBuf in sent)
      && (BitAt(mask, 12) <==> EntryId in sent) && !BitAt(mask, 13)
      && (BitAt(mask, 14) <==> ResvTms in sent)
      && forall i: nat :: BitAt(mask, i) ==> i < 15
  {
    var mask, sent := requests[k].mask, SentIn(calls)[k];
    forall p: Param ensures BitAt(mask, p.Bit()) <==> p in sent {}
    assert RptId.Bit() == 0 && RptEna.Bit() == 1 && Resv.Bit() == 2 && DataSetReference.Bit() == 3;
    assert ConfRev.Bit() == 4 && OptFlds.Bit() == 5 && BufTm.Bit() == 6 && SqNum.Bit() == 7;
    assert TrgOps.Bit() == 8 && IntgPd.Bit() == 9 && GI.Bit() == 10 && PurgeBuf.Bit() == 11;
    assert EntryId.Bit() == 12 && ResvTms.Bit() == 14;
  }

  /** So a bit that was in a mask once is in all later ones. */
  lemma MaskBitsStay(requests: seq<Request>, calls: seq<Call>, i: nat, j: nat, k: nat)
    requires SentAs(requests, calls) && i <= j < |requests|
    ensures BitAt(requests[i].mask, k) ==> BitAt(requests[j].mask, k)
  {
    if BitAt(requests[i].mask, k) {
      MasksGrow(calls, i, j);
      var p: Param :| p.Bit() == k;
      assert BitAt(requests[i].mask, p.Bit()) && BitAt(requests[j].mask, p.Bit());
    }
  }

  /** And two requests have the same mask exactly if the same parameters had been set before them. */
  lemma SameMaskIff(requests: seq<Request>, calls: seq<Call>, i: nat, j: nat)
    requires SentAs(requests, calls) && i < |requests| && j < |requests|
    ensures requests[i].mask == requests[j].mask <==> SentIn(calls)[i] == SentIn(calls)[j]
  {
    MaskDetermines(requests[i].mask, requests[j].mask, SentIn(calls)[i], SentIn(calls)[j]);
  }

  /** An object driven by any calls. */
  method Drive(calls: seq<Call>) returns (rcb: ReportControlBlock)
    requires forall i :: 0 <= i < |calls| && calls[i].Set? ==> HasSetter(calls[i].p)
    ensures SentAs(rcb.requests, calls)
    ensures rcb.Flagged() == SetIn(calls)
  {
    rcb := new ReportControlBlock();
    for i := 0 to |calls|
      invariant fresh(rcb)
      invariant rcb.Flagged() == SetIn(calls[..i])
      invariant rcb.values == Native(calls[..i])
      invariant SentAs(rcb.requests, calls[..i])
    {
      ghost var before := rcb.requests;
      assert calls[..i + 1] == calls[..i] + [calls[i]];
      assert calls[..i + 1][..i] == calls[..i];
      SetInAppend(calls[..i], calls[i]);
      ghost var r := rcb.Apply(calls[i]);
      SentAsAppend(before, calls[..i], calls[i], r);
    }
    assert calls[..|calls|] == calls;
  }

  /** The mask is exact, but a value that was set and not yet sent is lost when the block is read in between. */
  method ReadingDropsUnsentValue(p: Param, value: int, serverValue: int) returns (r: Request)
    requires HasSetter(p)
    ensures Names(r.mask, {p}) && r.values == map[p := serverValue]
  {
    var rcb := new ReportControlBlock();
    assert rcb.Flagged() == {};
    rcb.Set(p, value);
    var _ := rcb.GetRCBValues(map[p := serverValue], false);
    var _ := rcb.SetRCBValues(true, false);
    r := rcb.requests[0];
  }

  // ---------- report delivery ----------

  datatype ReportEvent = Install(handler: nat, parameter: nat) | NativeReport(report: nat)

  /** The latest installation. */
  ghost function Latest(es: seq<ReportEvent>): Option<ReportEvent> {
    if es == [] then None
    else if es[|es| - 1].Install? then Some(es[|es| - 1])
    else Latest(es[..|es| - 1])
  }

  /** The reports that reach the object: those after the first installation. */
  ghost function Received(es: seq<ReportEvent>): seq<nat> {
    if es == [] then []
    else
      var before, e := es[..|es| - 1], es[|es| - 1];
      Received(before) + if e.NativeReport? && Latest(before).Some? then [e.report] else []
  }

  /** Each of them goes once, in order, to the handler installed latest, with its parameter. */
  ghost function Expected(es: seq<ReportEvent>): seq<Delivery> {
    if es == [] then []
    else
      var before, e := es[..|es| - 1], es[|es| - 1];
      Expected(before) +
      match Latest(before)
      case Some(Install(h, p)) =>
        if e.NativeReport? then [Delivery((Received(before) + [e.report])[0], h, p)] else []
      case _ => []
  }

  /** As many deliveries as reports received; each carries the report object made for the first of them, which is
      its own report whenever the native library uses one report per registration, as it does. */
  lemma {:induction false} DeliveredIffSameReport(es: seq<ReportEvent>)
    ensures |Expected(es)| == |Received(es)|
    ensures forall k :: 0 <= k < |Received(es)| ==>
      (Expected(es)[k].report == Received(es)[k] <==> Received(es)[k] == Received(es)[0])
  {
    if es != [] {
      DeliveredIffSameReport(es[..|es| - 1]);
      LatestIsInstall(es[..|es| - 1]);
    }
  }

  /** Event `j` is the installation that is the latest one when event `i` comes. */
  ghost predicate InstalledAt(es: seq<ReportEvent>, j: nat, i: nat) {
    j < i <= |es| && es[j].Install? && forall k :: j < k < i ==> !es[k].Install?
  }

  lemma {:induction false} LatestIs(es: seq<ReportEvent>, j: nat)
    requires InstalledAt(es, j, |es|)
    ensures Latest(es) == Some(es[j])
  {
    var before := es[..|es| - 1];
    if j < |before| {
      assert InstalledAt(before, j, |before|) by {
        forall k | j < k < |before| ensures !before[k].Install? { assert before[k] == es[k]; }
      }
      LatestIs(before, j);
    }
  }

  /** A report goes to the handler installed latest before it, with the parameter given then, and to no other; an
      installation delivers nothing. */
  lemma {:induction false} DeliveredTo(es: seq<ReportEvent>, j: nat, i: nat)
    requires i < |es| && InstalledAt(es, j, i)
    ensures
      var before, after := Expected(es[..i]), Expected(es[..i + 1]);
      if es[i].NativeReport? then
        |after| == |before| + 1 && before == after[..|before|]
        && after[|before|].handler == es[j].handler && after[|before|].parameter == es[j].parameter
      else after == before
  {
    assert es[..i + 1][..i] == es[..i];
    assert InstalledAt(es[..i], j, |es[..i]|);
    LatestIs(es[..i], j);
  }

  lemma {:induction false} LatestIsInstall(es: seq<ReportEvent>)
    ensures Latest(es).Some? ==> Latest(es).value.Install?
  {
    if es != [] { LatestIsInstall(es[..|es| - 1]); }
  }

  /** The object under any interleaving of installations and native reports. The native library calls it only
      once it is registered. */
  method Report(es: seq<ReportEvent>) returns (rcb: ReportControlBlock)
    ensures rcb.delivered == Expected(es)
    ensures rcb.registrations == if Latest(es) == None then 0 else 1
  {
    rcb := new ReportControlBlock();
    for i := 0 to |es|
      invariant fresh(rcb)
      invariant rcb.delivered == Expected(es[..i])
      invariant rcb.registrations == if Latest(es[..i]) == None then 0 else 1
      invariant rcb.reportHandlerInstalled <==> Latest(es[..i]) != None
      invariant match Latest(es[..i])
        case Some(Install(h, p)) => rcb.reportHandler == Some(h) && rcb.reportHandlerParameter == p
        case _ => rcb.reportHandler == None
      invariant rcb.report == if Received(es[..i]) == [] then None else Some(Received(es[..i])[0])
    {
      assert es[..i + 1][..i] == es[..i];
      LatestIsInstall(es[..i]);
      match es[i] {
        case Install(h, p) => rcb.InstallReportHandler(h, p);
        case NativeReport(r) =>
          if rcb.registrations > 0 { rcb.InternalReportHandler(r); }
      }
    }
    assert es[..|es|] == es;
  }
}
