/** Properties of the builtins across calls and across names that share an
    object. */
module BuiltinsSpec {
  import opened Wrappers
  import opened Objects
  import opened Builtins
  import S = Store

  /** `let y = x; push(x, v)`: the array `y` names has grown as well, since
      both names hold the same id; and `len(y)` counts the new element. */
  lemma {:induction false} PushVisibleThroughAlias(s: S.Store<RValue>, heap: Heap, v: RValue)
    requires S.Get(s, "x").Found? && S.Get(s, "y") == S.Get(s, "x")
    requires ArrayOf(heap, S.Get(s, "x").value).Some?
    ensures var x := S.Get(s, "x").value;
            var heap' := PushBuiltin(heap, [x, v]).value.1;
            && ArrayOf(heap', S.Get(s, "y").value).value.elements == ArrayOf(heap, x).value.elements + [v]
            && Len(heap', [S.Get(s, "y").value]) == Success(Num(Len(heap, [x]).value.i + 1))
  {
  }

  /** `pop` never changes what `len` reports. */
  lemma {:induction false} PopKeepsLen(heap: Heap, arr: RValue, index: RValue)
    requires PopBuiltin(heap, [arr, index]).Success?
    ensures Len(PopBuiltin(heap, [arr, index]).value.1, [arr]) == Len(heap, [arr])
  {
  }

  /** `push` on one array leaves every other object as it was. */
  lemma {:induction false} PushLeavesOthers(heap: Heap, arr: RValue, v: RValue, other: nat)
    requires ArrayOf(heap, arr).Some? && other < |heap| && Ref(other) != arr
    ensures PushBuiltin(heap, [arr, v]).value.1[other] == heap[other]
  {
  }

  /** Two calls of `dict()` give two different dictionaries, and the first
      is still empty after the second is made. */
  lemma {:induction false} DictsAreFresh(heap: Heap, key: RValue, value: RValue)
    ensures var (d1, h1) := DictBuiltin(heap);
            var (d2, h2) := DictBuiltin(h1);
            && d1 != d2
            && DictOf(h2, d1) == Some(DictionaryObject(map[]))
            && DictOf(h2, d2) == Some(DictionaryObject(map[]))
  {
    var (d1, h1) := DictBuiltin(heap);
    assert h1[..|heap|] == heap;
    var (d2, h2) := DictBuiltin(h1);
    assert h2[|heap|] == h1[|heap|];
  }

  lemma {:induction false} CallLenOnString(heap: Heap, text: string, showObject: HeapObject -> string)
    ensures CallNative("len", [Str(text)], heap, showObject) == Success((Num(|text|), heap))
  {
    assert "len" in BuiltinNames;
    assert Len(heap, [Str(text)]) == Success(Num(|text|));
  }

  /** `createBuiltins` binds `len` to a native named "len", and calling it
      on a string gives the string's length. */
  lemma {:induction false} BuiltinLen(heap: Heap, text: string, showObject: HeapObject -> string)
    ensures var (store, heap') := CreateBuiltins(heap);
            && S.Get(store, "len") == S.Found(Ref(|heap| + 1))
            && heap'[|heap| + 1] == Native("len")
            && CallNative("len", [Str(text)], heap', showObject) == Success((Num(|text|), heap'))
  {
    var (store, heap') := CreateBuiltins(heap);
    assert BuiltinNames[1] == "len";
    assert S.GetLocal(store, "len") == S.Found(Ref(|heap| + 1));
    CallLenOnString(heap', text, showObject);
  }

  /** `str` of what `str` gave for a string, a boolean or a number is the
      same string again. */
  lemma {:induction false} StrIdempotent(heap: Heap, v: RValue, showObject: HeapObject -> string)
    requires v.Str? || v.Bool? || v.Num?
    ensures StrBuiltin(heap, [v], showObject).Success?
    ensures StrBuiltin(heap, [StrBuiltin(heap, [v], showObject).value], showObject) == StrBuiltin(heap, [v], showObject)
  {
    assert Arg([v], 0) == v;
    var s := StrBuiltin(heap, [v], showObject).value;
    assert Arg([s], 0) == s;
  }
}
