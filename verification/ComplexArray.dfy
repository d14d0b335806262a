/** The complex array example: an array of measured vectors, held as a tree of heap nodes, whose leaves are
    updated in place. */
module ComplexArray {

  datatype Type = ARRAY | STRUCTURE | FLOAT | BIT_STRING | UTC_TIME | OTHER

  function Pow2(n: nat): (p: nat)
    ensures p > 0
  {
    if n == 0 then 1 else 2 * Pow2(n - 1)
  }

  const QUALITY_BITS: nat := 13
  const QUALITY_VALIDITY_GOOD: nat := 0
  const QUALITY_VALIDITY_INVALID: nat := 2
  const QUALITY_DETAIL_FAILURE: nat := 64

  /** A node of a value tree; which of its contents count depends on its type. Type, components and the size of a
      bit string are fixed when the node is made. A bit string is held as the integer of its bits. */
  class MmsValue {
    const typ: Type
    const components: seq<MmsValue>
    const bitSize: nat
    var float: real
    var bitString: nat
    var utcTime: nat

    constructor (typ: Type, components: seq<MmsValue>, bitSize: nat)
      ensures this.typ == typ && this.components == components && this.bitSize == bitSize
      ensures float == 0.0 && bitString == 0 && utcTime == 0
    {
      this.typ, this.components, this.bitSize := typ, components, bitSize;
      float, bitString, utcTime := 0.0, 0, 0;
    }

    method GetElement(index: int) returns (r: MmsValue?)
      ensures r == if typ in {ARRAY, STRUCTURE} && 0 <= index < |components| then components[index] else null
    {
      if typ != ARRAY && typ != STRUCTURE { return null; }
      if index < 0 || index >= |components| { return null; }
      return components[index];
    }

    method SetFloat(value: real)
      modifies this`float
      ensures float == if typ == FLOAT then value else old(float)
    {
      if typ == FLOAT { float := value; }
    }

    /** Keeps as many low bits of the value as the bit string has. */
    method SetBitStringFromInteger(value: nat)
      modifies this`bitString
      ensures bitString == value % Pow2(bitSize)
    {
      bitString := value % Pow2(bitSize);
    }

    method SetUtcTime(value: nat)
      modifies this`utcTime
      ensures utcTime == value
    {
      utcTime := value;
    }
  }

  /** The nodes of one element of the array: cVal with mag.f and ang.f, then q and t. */
  datatype Element = Element(cmv: MmsValue, cVal: MmsValue, mag: MmsValue, magF: MmsValue,
                             ang: MmsValue, angF: MmsValue, q: MmsValue, t: MmsValue)
  {
    /** The nodes are linked and typed as an element of the array has to be. */
    ghost predicate Linked() {
      && cmv.typ == STRUCTURE && cmv.components == [cVal, q, t]
      && cVal.typ == STRUCTURE && cVal.components == [mag, ang]
      && mag.typ == STRUCTURE && mag.components == [magF] && magF.typ == FLOAT
      && ang.typ == STRUCTURE && ang.components == [angF] && angF.typ == FLOAT
      && q.typ == BIT_STRING && q.bitSize == QUALITY_BITS && t.typ == UTC_TIME
      && magF != angF
    }

    /** The two elements share no leaf. */
    ghost predicate Apart(e: Element) {
      && magF != e.magF && angF != e.angF && magF != e.angF && angF != e.magF
      && q != e.q && t != e.t
    }

    /** What the element shows. */
    ghost function Content(): Measurement
      reads magF`float, angF`float, q`bitString, t`utcTime
    {
      Measurement(magF.float, angF.float, q.bitString, t.utcTime)
    }
  }

  datatype Measurement = Measurement(magnitude: real, angle: real, quality: nat, time: nat)

  /** `cval` is an array of such elements, no two of them sharing a leaf. */
  ghost predicate WellShaped(cval: MmsValue, shape: seq<Element>) {
    && cval.typ == ARRAY && |cval.components| == |shape|
    && (forall i :: 0 <= i < |shape| ==> cval.components[i] == shape[i].cmv && shape[i].Linked())
    && (forall i, j :: 0 <= i < |shape| && 0 <= j < |shape| && i != j ==> shape[i].Apart(shape[j]))
  }

  method NewElement() returns (e: Element)
    ensures e.Linked()
    ensures fresh({e.magF, e.angF, e.q, e.t})
  {
    var magF := new MmsValue(FLOAT, [], 0);
    var angF := new MmsValue(FLOAT, [], 0);
    var q := new MmsValue(BIT_STRING, [], QUALITY_BITS);
    var t := new MmsValue(UTC_TIME, [], 0);
    var mag := new MmsValue(STRUCTURE, [magF], 0);
    var ang := new MmsValue(STRUCTURE, [angF], 0);
    var cVal := new MmsValue(STRUCTURE, [mag, ang], 0);
    var cmv := new MmsValue(STRUCTURE, [cVal, q, t], 0);
    e := Element(cmv, cVal, mag, magF, ang, angF, q, t);
  }

  /** The tree the library makes for an array of `n` elements is well shaped. */
  method NewArray(n: nat) returns (cval: MmsValue, shape: seq<Element>)
    ensures WellShaped(cval, shape) && |shape| == n
  {
    shape := [];
    var components := [];
    while |shape| < n
      invariant |components| == |shape| <= n
      invariant forall i :: 0 <= i < |shape| ==> components[i] == shape[i].cmv && shape[i].Linked()
      invariant forall i, j :: 0 <= i < |shape| && 0 <= j < |shape| && i != j ==> shape[i].Apart(shape[j])
    {
      var e := NewElement();
      shape, components := shape + [e], components + [e.cmv];
    }
    cval := new MmsValue(ARRAY, components, 0);
  }

  /** The leaves an update writes to. */
  ghost function Floats(shape: seq<Element>): set<MmsValue> {
    (set i | 0 <= i < |shape| :: shape[i].magF) + (set i | 0 <= i < |shape| :: shape[i].angF)
  }

  ghost function Qualities(shape: seq<Element>): set<MmsValue> { set i | 0 <= i < |shape| :: shape[i].q }

  ghost function Times(shape: seq<Element>): set<MmsValue> { set i | 0 <= i < |shape| :: shape[i].t }

  /** Walks from the array down to the leaves of one element. */
  method LeavesOf(cval: MmsValue, index: nat, ghost shape: seq<Element>)
      returns (magF: MmsValue, angF: MmsValue, q: MmsValue, t: MmsValue)
    requires WellShaped(cval, shape) && index < |shape|
    ensures magF == shape[index].magF && angF == shape[index].angF && q == shape[index].q && t == shape[index].t
  {
    assert shape[index].Linked();
    var cmv := cval.GetElement(index);
    var cValElement := cmv.GetElement(0);
    assert |cValElement.components| == 2;
    var mag := cValElement.GetElement(0);
    magF := mag.GetElement(0);
    var ang := cValElement.GetElement(1);
    angF := ang.GetElement(0);
    q := cmv.GetElement(1);
    t := cmv.GetElement(2);
  }

  /** The leaves of an element beyond the first `n` are not among theirs. */
  lemma OutsideFrame(cval: MmsValue, n: nat, i: nat, shape: seq<Element>)
    requires WellShaped(cval, shape) && n <= i < |shape|
    ensures shape[i].magF !in Floats(shape[..n]) && shape[i].angF !in Floats(shape[..n])
    ensures shape[i].q !in Qualities(shape[..n]) && shape[i].t !in Times(shape[..n])
  {
    forall k | 0 <= k < n ensures shape[i].Apart(shape[..n][k]) {
      assert shape[..n][k] == shape[k];
    }
  }

  lemma SmallMod(n: nat, m: nat)
    requires n < m
    ensures n % m == n
  {
  }

  method WriteLeaves(magF: MmsValue, angF: MmsValue, q: MmsValue, t: MmsValue,
      magnitude: real, angle: real, quality: nat, timestamp: nat)
    requires magF.typ == FLOAT && angF.typ == FLOAT && magF != angF
    requires q.bitSize == QUALITY_BITS && quality < Pow2(QUALITY_BITS)
    modifies magF`float, angF`float, q`bitString, t`utcTime
    ensures magF.float == magnitude && angF.float == angle && q.bitString == quality && t.utcTime == timestamp
  {
    magF.SetFloat(magnitude);
    angF.SetFloat(angle);
    SmallMod(quality, Pow2(QUALITY_BITS));
    q.SetBitStringFromInteger(quality);
    t.SetUtcTime(timestamp);
  }

  /** Writes one element; by its frame it writes nothing but the four leaves of that element. */
  method UpdateCMVArrayElement(cval: MmsValue, index: nat, magnitude: real, angle: real, quality: nat,
      timestamp: nat, ghost shape: seq<Element>)
    requires WellShaped(cval, shape) && index < |shape| && quality < Pow2(QUALITY_BITS)
    modifies shape[index].magF`float, shape[index].angF`float, shape[index].q`bitString, shape[index].t`utcTime
    ensures shape[index].Content() == Measurement(magnitude, angle, quality, timestamp)
    ensures forall j :: 0 <= j < |shape| && j != index ==> shape[j].Content() == old(shape[j].Content())
  {
    assert shape[index].Linked();
    var magF, angF, q, t := LeavesOf(cval, index, shape);
    WriteLeaves(magF, angF, q, t, magnitude, angle, quality, timestamp);
    forall j | 0 <= j < |shape| && j != index ensures shape[j].Content() == old(shape[j].Content()) {
      assert shape[j].Apart(shape[index]);
    }
  }

  /** What element `i` shows after initialisation. */
  function Initial(i: nat, time: nat): Measurement {
    Measurement(200.0 + i as real, 0.01 * (i + 1) as real, QUALITY_VALIDITY_GOOD, time)
  }

  /** The initialisation loop over `n` elements, `n` being 16 in the program. */
  method Initialise(cval: MmsValue, n: nat, timestamp: nat, ghost shape: seq<Element>)
      returns (mag: real, angle: real)
    requires WellShaped(cval, shape) && n <= |shape|
    modifies Floats(shape[..n])`float, Qualities(shape[..n])`bitString, Times(shape[..n])`utcTime
    ensures forall i :: 0 <= i < n ==>
      shape[i].Content() == Measurement(200.0 + i as real, 0.01 * (i + 1) as real, 0, timestamp)
    ensures mag == 200.0 + n as real && angle == 0.01 * (n + 1) as real
  {
    mag, angle := 200.0, 0.01;
    for i := 0 to n
      invariant mag == 200.0 + i as real && angle == 0.01 * (i + 1) as real
      invariant forall j :: 0 <= j < i ==> shape[j].Content() == Initial(j, timestamp)
    {
      assert shape[..n][i] == shape[i];
      UpdateCMVArrayElement(cval, i, mag, angle, QUALITY_VALIDITY_GOOD, timestamp, shape);
      mag := mag + 1.0;
      angle := angle + 0.01;
    }
  }

  /** The inner loop of a pass: all `n` elements get the same measurement. */
  method UpdateAll(cval: MmsValue, n: nat, mag: real, angle: real, quality: nat, timestamp: nat,
      ghost shape: seq<Element>)
    requires WellShaped(cval, shape) && n <= |shape| && quality < Pow2(QUALITY_BITS)
    modifies Floats(shape[..n])`float, Qualities(shape[..n])`bitString, Times(shape[..n])`utcTime
    ensures forall i :: 0 <= i < n ==> shape[i].Content() == Measurement(mag, angle, quality, timestamp)
  {
    for i := 0 to n
      invariant forall j :: 0 <= j < i ==> shape[j].Content() == Measurement(mag, angle, quality, timestamp)
    {
      assert shape[..n][i] == shape[i];
      UpdateCMVArrayElement(cval, i, mag, angle, quality, timestamp, shape);
    }
  }

  /** The quality written by pass number `pass` of the main loop, counted from 0. */
  function QualityOfPass(pass: nat): nat {
    if pass <= 10 then QUALITY_VALIDITY_GOOD else QUALITY_VALIDITY_INVALID + QUALITY_DETAIL_FAILURE
  }

  /** What each element shows after these passes over an array that showed `before`. */
  ghost function Latest(mag: real, angle: real, times: seq<nat>, before: nat -> Measurement): nat -> Measurement {
    if times == [] then before
    else Everywhere(Measurement(mag, angle, QualityOfPass(|times| - 1), times[|times| - 1]))
  }

  ghost function Everywhere(m: Measurement): nat -> Measurement { (i: nat) => m }

  /** The main loop, for as many passes as there are time stamps. */
  method MainLoop(cval: MmsValue, n: nat, mag: real, angle: real, times: seq<nat>, ghost shape: seq<Element>,
      ghost before: nat -> Measurement)
    requires WellShaped(cval, shape) && n <= |shape|
    requires forall i :: 0 <= i < n ==> shape[i].Content() == before(i)
    modifies Floats(shape[..n])`float, Qualities(shape[..n])`bitString, Times(shape[..n])`utcTime
    ensures times == [] ==> forall i :: 0 <= i < n ==> shape[i].Content() == before(i)
    ensures times != [] ==> forall i :: 0 <= i < n ==>
      shape[i].Content() == Measurement(mag, angle, if |times| <= 11 then 0 else 66, times[|times| - 1])
  {
    var quality := QUALITY_VALIDITY_GOOD;
    assert Pow2(QUALITY_BITS) == 8192;
    ghost var shown := before;
    var counter := 0;
    while counter < |times|
      invariant counter <= |times|
      invariant quality == QualityOfPass(counter)
      invariant shown == Latest(mag, angle, times[..counter], before)
      invariant forall i :: 0 <= i < n ==> shape[i].Content() == shown(i)
    {
      UpdateAll(cval, n, mag, angle, quality, times[counter], shape);
      shown := Everywhere(Measurement(mag, angle, quality, times[counter]));
      assert times[..counter + 1][counter] == times[counter];
      if counter == 10 {
        quality := QUALITY_VALIDITY_INVALID + QUALITY_DETAIL_FAILURE;
      }
      counter := counter + 1;
    }
    assert times[..|times|] == times;
  }

  /** Where the leaves of an element are: mag.f and ang.f below the first component, then q and t. */
  lemma LeavesAreAt(cval: MmsValue, i: nat, shape: seq<Element>)
    requires WellShaped(cval, shape) && i < |shape|
    ensures |cval.components| == |shape| && |cval.components[i].components| == 3
    ensures
      var cmv := cval.components[i];
      && |cmv.components[0].components| == 2
      && cmv.components[0].components[0].components == [shape[i].magF]
      && cmv.components[0].components[1].components == [shape[i].angF]
      && cmv.components[1] == shape[i].q && cmv.components[2] == shape[i].t
  {
    assert shape[i].Linked();
  }

  /** The program: the initialisation, stamped `start`, and any number of passes. Without a pass each element shows its
      own initial measurement. After a pass all show the same magnitude and angle, those the initialisation had counted
      up to, the time of the last pass, and a quality that is good up to the eleventh pass and then invalid with a
      failure. */
  method Serve(cval: MmsValue, n: nat, start: nat, times: seq<nat>, ghost shape: seq<Element>)
    requires WellShaped(cval, shape) && n <= |shape|
    modifies Floats(shape[..n])`float, Qualities(shape[..n])`bitString, Times(shape[..n])`utcTime
    ensures times == [] ==> forall i :: 0 <= i < n ==>
      shape[i].Content() == Measurement(200.0 + i as real, 0.01 * (i + 1) as real, 0, start)
    ensures times != [] ==> forall i :: 0 <= i < n ==>
      shape[i].Content() == Measurement(200.0 + n as real, 0.01 * (n + 1) as real,
                                        if |times| <= 11 then 0 else 66, times[|times| - 1])
    ensures forall i :: n <= i < |shape| ==> shape[i].Content() == old(shape[i].Content())
  {
    var mag, angle := Initialise(cval, n, start, shape);
    MainLoop(cval, n, mag, angle, times, shape, (i: nat) => Initial(i, start));
    forall i | n <= i < |shape| ensures shape[i].Content() == old(shape[i].Content()) {
      OutsideFrame(cval, n, i, shape);
    }
  }
}
