/** The enumerator of the .NET value class. */
module MmsEnumerator {

  /** A value: an array or structure with its elements, or something without elements. */
  datatype Value = Array(elements: seq<Value>) | Structure(elements: seq<Value>) | Simple

  datatype Result<+T> = Ok(value: T) | Exception(message: string)

  method Size(value: Value) returns (r: Result<nat>)
    ensures r == if value.Simple? then Exception("Value is not a complex type") else Ok(|value.elements|)
  {
    if value.Array? || value.Structure? {
      return Ok(|value.elements|);
    } else {
      return Exception("Value is not a complex type");
    }
  }

  method GetElement(value: Value, index: int) returns (r: Result<Value>)
    ensures r ==
      if value.Simple? then Exception("Value is of wrong type")
      else if 0 <= index < |value.elements| then Ok(value.elements[index])
      else Exception("Index out of bounds")
  {
    if value.Array? || value.Structure? {
      var size := Size(value);
      if index >= 0 && index < size.value {
        return Ok(value.elements[index]);
      } else {
        return Exception("Index out of bounds");
      }
    } else {
      return Exception("Value is of wrong type");
    }
  }

  class MmsValueEnumerator {
    const value: Value
    var index: int

    constructor (value: Value)
      ensures this.value == value && index == -1
    {
      this.value, index := value, -1;
    }

    method Reset()
      modifies this
      ensures index == -1
    {
      index := -1;
    }

    method Current() returns (r: Result<Value>)
      ensures r.Ok? <==> !value.Simple? && 0 <= index < |value.elements|
      ensures r.Ok? ==> r.value == value.elements[index]
    {
      r := GetElement(value, index);
    }

    method MoveNext() returns (r: Result<bool>)
      modifies this
      ensures index == old(index) + 1
      ensures r == if value.Simple? then Exception("Value is not a complex type") else Ok(index < |value.elements|)
    {
      index := index + 1;
      var size := Size(value);
      match size
      case Exception(m) => return Exception(m);
      case Ok(n) =>
        if index >= n { return Ok(false); } else { return Ok(true); }
    }
  }

  datatype Call = MoveNextCall | ResetCall

  /** The number of MoveNext calls since the last Reset. */
  ghost function Moves(calls: seq<Call>): nat {
    if calls == [] || calls[|calls| - 1] == ResetCall then 0 else 1 + Moves(calls[..|calls| - 1])
  }

  /** After any interleaving of calls, a last MoveNext has told whether the moves since the last Reset have got to an
      element, and there is a current element exactly if they have, that one. There is none before a first MoveNext. */
  method Drive(value: Value, calls: seq<Call>) returns (last: Result<bool>, current: Result<Value>)
    ensures calls != [] && calls[|calls| - 1] == MoveNextCall ==>
      last == (if value.Simple? then Exception("Value is not a complex type")
               else Ok(Moves(calls) <= |value.elements|))
    ensures current.Ok? <==> !value.Simple? && 1 <= Moves(calls) <= |value.elements|
    ensures current.Ok? ==> current.value == value.elements[Moves(calls) - 1]
    ensures current.Ok? <==> calls != [] && calls[|calls| - 1] == MoveNextCall && last == Ok(true)
  {
    var e := new MmsValueEnumerator(value);
    last := Ok(false);
    for i := 0 to |calls|
      invariant fresh(e) && e.value == value
      invariant e.index == Moves(calls[..i]) - 1
      invariant i > 0 && calls[i - 1] == MoveNextCall ==>
        last == (if value.Simple? then Exception("Value is not a complex type") else Ok(e.index < |value.elements|))
    {
      assert calls[..i + 1][..i] == calls[..i];
      match calls[i] {
        case MoveNextCall => last := e.MoveNext();
        case ResetCall => e.Reset();
      }
    }
    assert calls[..|calls|] == calls;
    current := e.Current();
  }

  /** A full enumeration gives all elements in order and then stops. */
  method Enumerate(value: Value) returns (elements: seq<Value>)
    requires !value.Simple?
    ensures elements == value.elements
  {
    var e := new MmsValueEnumerator(value);
    elements := [];
    var more := e.MoveNext();
    while more == Ok(true)
      invariant fresh(e) && e.value == value
      invariant 0 <= e.index <= |value.elements|
      invariant elements == value.elements[..e.index]
      invariant more == Ok(e.index < |value.elements|)
      decreases |value.elements| - e.index
    {
      var current := e.Current();
      elements := elements + [current.value];
      more := e.MoveNext();
    }
  }
}
