/** The native functions every program starts with: `print`, `len`, `push`,
    `pop`, `dict` and `str`, bound in one parentless store. A native takes
    its arguments as a list; one that is not passed is undefined. */
module Builtins {
  import opened Wrappers
  import opened Utils
  import opened Objects
  import S = Store

  /** The names `createBuiltins` binds, in order. */
  const BuiltinNames: seq<string> := ["print", "len", "push", "pop", "dict", "str"]

  /** The `i`th argument, undefined when it was not passed. */
  function Arg(args: seq<RValue>, i: nat): (v: RValue)
    ensures i >= |args| ==> v == UndefinedValue
    ensures i < |args| ==> v == args[i]
  {
    if i < |args| then args[i] else UndefinedValue
  }

  /** `len`: a string's length, an array's recorded length, a dictionary's
      key count; anything else raises. */
  function Len(heap: Heap, args: seq<RValue>): (r: Result<RValue, ObjError>)
    ensures Arg(args, 0).Str? ==> r == Success(Num(|Arg(args, 0).s|))
    ensures ArrayOf(heap, Arg(args, 0)).Some? ==> r == Success(Num(ArrayOf(heap, Arg(args, 0)).value.length))
    ensures DictOf(heap, Arg(args, 0)).Some? ==> r == Success(Num(DictLength(DictOf(heap, Arg(args, 0)).value)))
    ensures r.Failure? <==> !Arg(args, 0).Str? && ArrayOf(heap, Arg(args, 0)).None? && DictOf(heap, Arg(args, 0)).None?
    ensures r.Failure? ==> r.error == ExpectedIterable(TypeOf(Arg(args, 0)))
  {
    var arg := Arg(args, 0);
    if arg.Str? then Success(Num(|arg.s|))
    else if ArrayOf(heap, arg).Some? then Success(Num(ArrayOf(heap, arg).value.length))
    else if DictOf(heap, arg).Some? then Success(Num(DictLength(DictOf(heap, arg).value)))
    else Failure(ExpectedIterable(TypeOf(arg)))
  }

  /** `push(arr, value)`: appends to the array the first argument refers to
      and returns undefined; every other object is left alone. */
  function PushBuiltin(heap: Heap, args: seq<RValue>): (r: Result<(RValue, Heap), ObjError>)
    ensures ArrayOf(heap, Arg(args, 0)).None? ==> r == Failure(ExpectedArray(TypeOf(Arg(args, 0))))
    ensures ArrayOf(heap, Arg(args, 0)).Some? ==>
              && r.Success? && r.value.0 == UndefinedValue && |r.value.1| == |heap|
              && ArrayOf(r.value.1, Arg(args, 0)) == Some(Push(ArrayOf(heap, Arg(args, 0)).value, Arg(args, 1)))
              && forall id :: 0 <= id < |heap| && id != Arg(args, 0).id ==> r.value.1[id] == heap[id]
  {
    var arr := Arg(args, 0);
    match ArrayOf(heap, arr)
    case None => Failure(ExpectedArray(TypeOf(arr)))
    case Some(a) => Success((UndefinedValue, heap[arr.id := Arr(Push(a, Arg(args, 1)))]))
  }

  /** `pop(arr, index?)`: `ArrayObject.pop` on the array the first argument
      refers to. */
  function PopBuiltin(heap: Heap, args: seq<RValue>): (r: Result<(RValue, Heap), ObjError>)
    ensures ArrayOf(heap, Arg(args, 0)).None? ==> r == Failure(ExpectedArray(TypeOf(Arg(args, 0))))
    ensures ArrayOf(heap, Arg(args, 0)).Some? ==>
              var p := Pop(ArrayOf(heap, Arg(args, 0)).value, Arg(args, 1));
              && (r.Success? <==> p.Success?)
              && (p.Failure? ==> r.error == p.error)
              && (p.Success? ==> r.value.0 == p.value.0 && r.value.1 == heap[Arg(args, 0).id := Arr(p.value.1)])
  {
    var arr := Arg(args, 0);
    match ArrayOf(heap, arr)
    case None => Failure(ExpectedArray(TypeOf(arr)))
    case Some(a) =>
      var (v, a') :- Pop(a, Arg(args, 1));
      Success((v, heap[arr.id := Arr(a')]))
  }

  /** `dict()`: a fresh, empty dictionary on every call. */
  function DictBuiltin(heap: Heap): (r: (RValue, Heap))
    ensures r.0 == Ref(|heap|) && |r.1| == |heap| + 1 && r.1[..|heap|] == heap
    ensures DictOf(r.1, r.0) == Some(DictionaryObject(map[]))
  {
    var r := Alloc(heap, Dict(DictionaryObject(map[])));
    assert r.1[..|heap|] == heap;
    r
  }

  /** `${n}` for an integer in decimal. */
  function ShowInt(i: int): string {
    if i < 0 then "-" + ShowNat(-i) else ShowNat(i)
  }

  function Join(parts: seq<string>, sep: string): string {
    if |parts| == 0 then "" else if |parts| == 1 then parts[0] else parts[0] + sep + Join(parts[1..], sep)
  }

  /** `asString` of a function object or a native function. */
  function FunctionText(o: HeapObject): (r: string)
    requires o.Func? || o.Native?
    ensures o.Native? ==> r == "NATIVE_FUNCTION(" + o.name + ")"
    ensures o.Func? ==> |r| >= 17 && r[..16] == "FUNCTION_OBJECT(" && r[|r| - 1] == ')'
    ensures o.Func? ==> r[16..|r| - 1] == Join(o.parameters, ", ")
    ensures o == Func([]) ==> r == "FUNCTION_OBJECT()"
    ensures o.Func? && |o.parameters| == 1 ==> r == "FUNCTION_OBJECT(" + o.parameters[0] + ")"
  {
    if o.Func? then "FUNCTION_OBJECT(" + Join(o.parameters, ", ") + ")" else "NATIVE_FUNCTION(" + o.name + ")"
  }

  /** `str(arg)`. Arrays and dictionaries render through `showObject`. An
      argument with no `asString`, undefined, gives undefined back. */
  function StrBuiltin(heap: Heap, args: seq<RValue>, showObject: HeapObject -> string): (r: Result<RValue, ObjError>)
    ensures Arg(args, 0).Str? ==> r == Success(Arg(args, 0))
    ensures Arg(args, 0) == NullValue <==> r == Failure(NullToString)
    ensures Arg(args, 0).Bool? ==> r == Success(Str(if Arg(args, 0).b then "true" else "false"))
    ensures Arg(args, 0).Num? ==> r.Success? && r.value.Str?
    ensures Arg(args, 0) == UndefinedValue ==> r == Success(UndefinedValue)
    ensures Arg(args, 0).Ref? && Arg(args, 0).id < |heap| ==>
              var o := heap[Arg(args, 0).id];
              r == Success(Str(if o.Func? || o.Native? then FunctionText(o) else showObject(o)))
    ensures Arg(args, 0).Ref? && Arg(args, 0).id >= |heap| ==> r == Success(UndefinedValue)
  {
    var arg := Arg(args, 0);
    match arg
    case Str(_) => Success(arg)
    case NullValue => Failure(NullToString)
    case Num(i) => Success(Str(ShowInt(i)))
    case Bool(b) => Success(Str(if b then "true" else "false"))
    case UndefinedValue => Success(UndefinedValue)
    case Ref(id) =>
      if id >= |heap| then Success(UndefinedValue)
      else if heap[id].Func? || heap[id].Native? then Success(Str(FunctionText(heap[id])))
      else Success(Str(showObject(heap[id])))
  }

  /** Allocates a native function per name and binds it in `s`. */
  function Register(names: seq<string>, s: S.Store<RValue>, heap: Heap): (r: (S.Store<RValue>, Heap))
    requires forall i, j :: 0 <= i < j < |names| ==> names[i] != names[j]
    ensures r.0.parents == s.parents
    ensures |r.1| == |heap| + |names| && r.1[..|heap|] == heap
    ensures forall i :: 0 <= i < |names| ==> r.1[|heap| + i] == Native(names[i])
    ensures forall i :: 0 <= i < |names| ==> S.GetLocal(r.0, names[i]) == S.Found(Ref(|heap| + i))
    ensures forall k :: k !in names ==> S.GetLocal(r.0, k) == S.GetLocal(s, k)
    decreases |names|
  {
    if |names| == 0 then (s, heap)
    else
      var (ref, heap') := Alloc(heap, Native(names[0]));
      var r := Register(names[1..], S.Set(s, names[0], ref), heap');
      assert forall i :: 1 <= i < |names| ==> names[i] == names[1..][i - 1];
      assert r.1[..|heap|] == heap'[..|heap|];
      r
  }

  /** `createBuiltins`: a parentless store binding exactly the six names,
      each to a new native function object of that name. */
  function CreateBuiltins(heap: Heap): (r: (S.Store<RValue>, Heap))
    ensures S.Parent(r.0) == None
    ensures forall k :: S.GetLocal(r.0, k).Found? <==> k in BuiltinNames
    ensures |r.1| == |heap| + 6 && r.1[..|heap|] == heap
    ensures forall i :: 0 <= i < 6 ==>
              S.GetLocal(r.0, BuiltinNames[i]) == S.Found(Ref(|heap| + i)) && r.1[|heap| + i] == Native(BuiltinNames[i])
  {
    Register(BuiltinNames, S.NewStore(None), heap)
  }

  /** Calling the native function named `name`. `print` writes to the
      console, which is not modelled, and returns undefined. */
  function CallNative(name: string, args: seq<RValue>, heap: Heap, showObject: HeapObject -> string): (r: Result<(RValue, Heap), ObjError>)
    requires name in BuiltinNames
    ensures name in {"print", "len", "str"} && r.Success? ==> r.value.1 == heap
    ensures name == "push" ==> r == PushBuiltin(heap, args)
    ensures name == "pop" ==> r == PopBuiltin(heap, args)
    ensures name == "print" ==> r == Success((UndefinedValue, heap))
    ensures name == "dict" ==> r == Success(DictBuiltin(heap))
    ensures name == "len" ==>
              && (r.Success? <==> Len(heap, args).Success?)
              && (r.Success? ==> r.value == (Len(heap, args).value, heap))
              && (r.Failure? ==> r.error == Len(heap, args).error)
    ensures name == "str" ==>
              && (r.Success? <==> StrBuiltin(heap, args, showObject).Success?)
              && (r.Success? ==> r.value == (StrBuiltin(heap, args, showObject).value, heap))
              && (r.Failure? ==> r.error == StrBuiltin(heap, args, showObject).error)
  {
    match name
    case "print" => Success((UndefinedValue, heap))
    case "len" => var v :- Len(heap, args); Success((v, heap))
    case "push" => PushBuiltin(heap, args)
    case "pop" => PopBuiltin(heap, args)
    case "dict" => Success(DictBuiltin(heap))
    case _ => var v :- StrBuiltin(heap, args, showObject); Success((v, heap))
  }
}
