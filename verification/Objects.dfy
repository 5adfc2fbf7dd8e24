/** The runtime's values and heap objects: arrays that keep a length counter
    beside their elements, dictionaries keyed by value or by identity, and
    function objects. Objects live in a heap and values refer to them by id,
    so two names holding the same id see each other's mutations. */
module Objects {
  import opened Wrappers

  /** A runtime value. Numbers are integers; `Ref` is an object's id. */
  datatype RValue =
    | Num(i: int)
    | Str(s: string)
    | Bool(b: bool)
    | NullValue
    | UndefinedValue
    | Ref(id: nat)

  /** JavaScript's `typeof`; every object, and null, is "object". */
  function TypeOf(v: RValue): string {
    match v
    case Num(_) => "number"
    case Str(_) => "string"
    case Bool(_) => "boolean"
    case NullValue => "object"
    case UndefinedValue => "undefined"
    case Ref(_) => "object"
  }

  /** The errors the objects and builtins raise. */
  datatype ObjError =
    /** "Index must be a number" */
    | IndexMustBeNumber
    /** `IterableIndexOutOfBoundsError(index, length)` with the recorded length. */
    | IndexOutOfBounds(index: int, length: int)
    /** "Cannot pop from empty array" */
    | PopFromEmpty
    /** "Expected number, got <typeof>" */
    | ExpectedNumber(got: string)
    /** "Expected iterable, got <typeof>" */
    | ExpectedIterable(got: string)
    /** "Expected array, got <typeof>" */
    | ExpectedArray(got: string)
    /** "Cannot convert null to string" */
    | NullToString
    /** "Trying to index a non-array object" */
    | NotAnArray
    /** `ArrayIndexOutOfBoundsError(index, length)` with the element count. */
    | ArrayIndexOutOfBounds(index: int, length: int)

  /** `ArrayObject`: the elements and the separately kept length counter. */
  datatype ArrayObject = ArrayObject(elements: seq<RValue>, length: int)

  /** The counter agrees with the element count. */
  predicate Consistent(a: ArrayObject) {
    a.length == |a.elements|
  }

  /** The counter never falls below the element count. */
  predicate CounterCovers(a: ArrayObject) {
    a.length >= |a.elements|
  }

  /** The constructor: the counter starts at the element count. */
  function NewArray(elements: seq<RValue>): (a: ArrayObject)
    ensures Consistent(a) && a.elements == elements
  {
    ArrayObject(elements, |elements|)
  }

  /** `toPositiveIndex`, and the `newIndex` the bound checks use: a negative
      index counts back from the recorded length. */
  function ToPositiveIndex(a: ArrayObject, index: int): (n: int)
    ensures index < 0 ==> n == a.length + index
    ensures index >= 0 ==> n == index
  {
    if index < 0 then a.length + index else index
  }

  /** The index check `at`, `set` and `pop` share: against the element
      count, reporting the original index and the recorded length. */
  function CheckIndex(a: ArrayObject, index: int): (r: Result<nat, ObjError>)
    ensures r.Success? <==> 0 <= ToPositiveIndex(a, index) < |a.elements|
    ensures r.Success? ==> r.value == ToPositiveIndex(a, index)
    ensures r.Failure? ==> r.error == IndexOutOfBounds(index, a.length)
  {
    var n := ToPositiveIndex(a, index);
    if n < 0 || n >= |a.elements| then Failure(IndexOutOfBounds(index, a.length)) else Success(n)
  }

  /** `Array.prototype.at`: a negative index counts back from the number of
      elements; out of range gives undefined. */
  function ElementAt(xs: seq<RValue>, index: int): (v: RValue)
    ensures 0 <= index < |xs| ==> v == xs[index]
    ensures -|xs| <= index < 0 ==> v == xs[|xs| + index]
    ensures (index >= |xs| || index < -|xs|) ==> v == UndefinedValue
  {
    var k := if index < 0 then |xs| + index else index;
    if 0 <= k < |xs| then xs[k] else UndefinedValue
  }

  /** `ArrayObject.at`: the check uses the recorded length, the read uses
      the element count. */
  function At(a: ArrayObject, index: RValue): (r: Result<RValue, ObjError>)
    ensures !index.Num? ==> r == Failure(IndexMustBeNumber)
    ensures index.Num? ==> (r.Success? <==> CheckIndex(a, index.i).Success?)
    ensures index.Num? && r.Failure? ==> r.error == IndexOutOfBounds(index.i, a.length)
    ensures Consistent(a) && index.Num? && 0 <= index.i < a.length ==> r == Success(a.elements[index.i])
    ensures Consistent(a) && index.Num? && -a.length <= index.i < 0 ==> r == Success(a.elements[a.length + index.i])
    ensures r.Success? ==> r.value == ElementAt(a.elements, index.i)
  {
    if !index.Num? then Failure(IndexMustBeNumber)
    else
      var _ :- CheckIndex(a, index.i);
      Success(ElementAt(a.elements, index.i))
  }

  /** `ArrayObject.set`: replaces the element at the normalised index. */
  function SetAt(a: ArrayObject, index: RValue, value: RValue): (r: Result<ArrayObject, ObjError>)
    ensures !index.Num? ==> r == Failure(IndexMustBeNumber)
    ensures index.Num? ==> (r.Success? <==> CheckIndex(a, index.i).Success?)
    ensures index.Num? && r.Failure? ==> r.error == IndexOutOfBounds(index.i, a.length)
    ensures r.Success? ==> var n := ToPositiveIndex(a, index.i);
                           && r.value.length == a.length && |r.value.elements| == |a.elements|
                           && r.value.elements[n] == value
                           && forall j :: 0 <= j < |a.elements| && j != n ==> r.value.elements[j] == a.elements[j]
  {
    if !index.Num? then Failure(IndexMustBeNumber)
    else
      var n :- CheckIndex(a, index.i);
      Success(a.(elements := a.elements[n := value]))
  }

  /** `ArrayObject.push`: appends and counts one more. */
  function Push(a: ArrayObject, value: RValue): (r: ArrayObject)
    ensures r.elements == a.elements + [value]
    ensures r.length == a.length + 1
  {
    ArrayObject(a.elements + [value], a.length + 1)
  }

  /** `ArrayObject.pop(index?)`: the removed element and the array after.
      The counter is never decremented. */
  function Pop(a: ArrayObject, index: RValue): (r: Result<(RValue, ArrayObject), ObjError>)
    ensures a.length == 0 ==> r == Failure(PopFromEmpty)
    ensures a.length != 0 && !index.Num? && !index.UndefinedValue? ==> r == Failure(ExpectedNumber(TypeOf(index)))
    ensures a.length != 0 && index.Num? ==> (r.Success? <==> CheckIndex(a, index.i).Success?)
    ensures a.length != 0 && index.Num? && r.Failure? ==> r.error == IndexOutOfBounds(index.i, a.length)
    ensures a.length != 0 && index.UndefinedValue? ==> r.Success?
    ensures a.length != 0 && index.UndefinedValue? && |a.elements| == 0 ==> r == Success((UndefinedValue, a))
    ensures r.Success? ==> r.value.1.length == a.length
    ensures r.Success? && index.UndefinedValue? && |a.elements| > 0 ==>
              r.value == (a.elements[|a.elements| - 1], a.(elements := a.elements[..|a.elements| - 1]))
    ensures r.Success? && index.Num? ==> var n := ToPositiveIndex(a, index.i);
              r.value == (a.elements[n], a.(elements := a.elements[..n] + a.elements[n + 1..]))
  {
    if a.length == 0 then Failure(PopFromEmpty)
    else if index.UndefinedValue? then
      if |a.elements| == 0 then Success((UndefinedValue, a))
      else Success((a.elements[|a.elements| - 1], a.(elements := a.elements[..|a.elements| - 1])))
    else if !index.Num? then Failure(ExpectedNumber(TypeOf(index)))
    else
      var n :- CheckIndex(a, index.i);
      Success((a.elements[n], a.(elements := a.elements[..n] + a.elements[n + 1..])))
  }

  /** `DictionaryObject`: keys compare as JavaScript's Map does, which on
      these values is by value for scalars and by id for objects. */
  datatype DictionaryObject = DictionaryObject(elements: map<RValue, RValue>)

  /** `at(key) ?? null`: an absent key and a stored null or undefined all
      read as null. */
  function DictAt(d: DictionaryObject, key: RValue): (v: RValue)
    ensures v != UndefinedValue
    ensures key !in d.elements ==> v == NullValue
    ensures key in d.elements && d.elements[key] != UndefinedValue ==> v == d.elements[key]
    ensures key in d.elements && d.elements[key] == UndefinedValue ==> v == NullValue
  {
    if key in d.elements && d.elements[key] != UndefinedValue then d.elements[key] else NullValue
  }

  /** `set`: `Map.set`, which adds the key or overwrites its value. */
  function DictSet(d: DictionaryObject, key: RValue, value: RValue): (r: DictionaryObject)
    ensures r.elements.Keys == d.elements.Keys + {key}
    ensures r.elements[key] == value
    ensures forall k :: k in d.elements && k != key ==> r.elements[k] == d.elements[k]
  {
    DictionaryObject(d.elements[key := value])
  }

  /** `_length`: the number of distinct keys. */
  function DictLength(d: DictionaryObject): nat {
    |d.elements|
  }

  /** A heap object. Function bodies and captured stores are not kept. */
  datatype HeapObject =
    | Arr(arr: ArrayObject)
    | Dict(dict: DictionaryObject)
    | Func(parameters: seq<string>)
    | Native(name: string)

  /** Objects by id. */
  type Heap = seq<HeapObject>

  /** A new object gets the next unused id; nothing else changes. */
  function Alloc(heap: Heap, o: HeapObject): (r: (RValue, Heap))
    ensures r.0 == Ref(|heap|) && r.1 == heap + [o]
  {
    (Ref(|heap|), heap + [o])
  }

  /** The array a value refers to, if it refers to one. */
  function ArrayOf(heap: Heap, v: RValue): (r: Option<ArrayObject>)
    ensures r.Some? <==> v.Ref? && v.id < |heap| && heap[v.id].Arr?
    ensures r.Some? ==> r.value == heap[v.id].arr
  {
    if v.Ref? && v.id < |heap| && heap[v.id].Arr? then Some(heap[v.id].arr) else None
  }

  function DictOf(heap: Heap, v: RValue): (r: Option<DictionaryObject>)
    ensures r.Some? <==> v.Ref? && v.id < |heap| && heap[v.id].Dict?
    ensures r.Some? ==> r.value == heap[v.id].dict
  {
    if v.Ref? && v.id < |heap| && heap[v.id].Dict? then Some(heap[v.id].dict) else None
  }

  /** `throwIfInvalidArrayIndexAccess`: an array and a number index in
      [0, element count); no negative indices. */
  function CheckArrayIndexAccess(heap: Heap, target: RValue, index: RValue): (r: Result<bool, ObjError>)
    ensures r.Success? <==> ArrayOf(heap, target).Some? && index.Num? && 0 <= index.i < |ArrayOf(heap, target).value.elements|
    ensures r.Success? ==> r.value
    ensures ArrayOf(heap, target).None? ==> r == Failure(NotAnArray)
    ensures ArrayOf(heap, target).Some? && !index.Num? ==> r == Failure(IndexMustBeNumber)
    ensures ArrayOf(heap, target).Some? && index.Num? && r.Failure? ==>
              r.error == ArrayIndexOutOfBounds(index.i, |ArrayOf(heap, target).value.elements|)
  {
    match ArrayOf(heap, target)
    case None => Failure(NotAnArray)
    case Some(a) =>
      if !index.Num? then Failure(IndexMustBeNumber)
      else if index.i < 0 || index.i >= |a.elements| then Failure(ArrayIndexOutOfBounds(index.i, |a.elements|))
      else Success(true)
  }
}
