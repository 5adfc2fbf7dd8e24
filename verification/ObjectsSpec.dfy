/** Properties of arrays and dictionaries across operations: which
    operations keep the length counter honest, what drifts once it is not,
    and how dictionary keys behave. */
module ObjectsSpec {
  import opened Wrappers
  import opened Objects

  /** The constructor, `push` and `set` keep the counter equal to the
      element count. */
  lemma {:induction false} ConsistencyKept(a: ArrayObject, index: RValue, value: RValue)
    requires Consistent(a)
    ensures Consistent(Push(a, value))
    ensures SetAt(a, index, value).Success? ==> Consistent(SetAt(a, index, value).value)
  {
  }

  /** No operation lets the counter fall below the element count. */
  lemma {:induction false} CounterNeverBelowCount(a: ArrayObject, index: RValue, value: RValue)
    requires CounterCovers(a)
    ensures CounterCovers(Push(a, value))
    ensures SetAt(a, index, value).Success? ==> CounterCovers(SetAt(a, index, value).value)
    ensures Pop(a, index).Success? ==> CounterCovers(Pop(a, index).value.1)
  {
  }

  /** While the counter is honest, exactly the indices in [-length, length)
      can be read. */
  lemma {:induction false} ReadableIndices(a: ArrayObject, i: int)
    requires Consistent(a)
    ensures At(a, Num(i)).Success? <==> -a.length <= i < a.length
  {
  }

  /** `[1, 2, 3][-1]` is 3; `[1, 2, 3][3]` and `[1, 2, 3][-4]` are out of
      bounds. */
  lemma IndexExamples()
    ensures At(NewArray([Num(1), Num(2), Num(3)]), Num(-1)) == Success(Num(3))
    ensures At(NewArray([Num(1), Num(2), Num(3)]), Num(-3)) == Success(Num(1))
    ensures At(NewArray([Num(1), Num(2), Num(3)]), Num(3)) == Failure(IndexOutOfBounds(3, 3))
    ensures At(NewArray([Num(1), Num(2), Num(3)]), Num(-4)) == Failure(IndexOutOfBounds(-4, 3))
  {
  }

  /** After `pop()` on a non-empty honest array the counter is one too
      high, and `at(-1)` no longer finds the last element: it raises. */
  lemma {:induction false} PopDrift(a: ArrayObject)
    requires Consistent(a) && |a.elements| > 0
    ensures Pop(a, UndefinedValue).Success?
    ensures var b := Pop(a, UndefinedValue).value.1;
            && b.length == |b.elements| + 1
            && At(b, Num(-1)) == Failure(IndexOutOfBounds(-1, a.length))
  {
    var b := Pop(a, UndefinedValue).value.1;
    assert ToPositiveIndex(b, -1) == |b.elements|;
  }

  /** The value last set for a key is what `at` reads back (null if it was
      undefined); other keys read as before. */
  lemma {:induction false} DictSetThenAt(d: DictionaryObject, key: RValue, value: RValue, other: RValue)
    requires other != key
    ensures DictAt(DictSet(d, key, value), key) == (if value == UndefinedValue then NullValue else value)
    ensures DictAt(DictSet(d, key, value), other) == DictAt(d, other)
  {
  }

  /** `_length` counts distinct keys: a new key adds one, setting an
      existing key again adds nothing. */
  lemma {:induction false} DictLengthAfterSet(d: DictionaryObject, key: RValue, value: RValue)
    ensures DictLength(DictSet(d, key, value)) == DictLength(d) + (if key in d.elements then 0 else 1)
  {
    var m := d.elements;
    assert m[key := value].Keys == m.Keys + {key};
    if key !in m {
      assert |m.Keys + {key}| == |m.Keys| + 1;
    } else {
      assert m.Keys + {key} == m.Keys;
    }
  }

  /** The check the evaluator runs before indexing is enough for `at`: once
      it passes on an array whose counter agrees with its elements, `at`
      reads the element at that index. */
  lemma {:induction false} CheckedIndexReads(heap: Heap, target: RValue, index: RValue)
    requires CheckArrayIndexAccess(heap, target, index).Success?
    requires Consistent(ArrayOf(heap, target).value)
    ensures At(ArrayOf(heap, target).value, index) == Success(ArrayOf(heap, target).value.elements[index.i])
  {
  }

  /** Objects are keys by identity: two distinct objects with the same
      contents are different keys. */
  lemma {:induction false} IdentityKeys(heap: Heap, d: DictionaryObject, i: nat, j: nat, value: RValue)
    requires i < |heap| && j < |heap| && i != j && heap[i] == heap[j]
    ensures DictAt(DictSet(d, Ref(i), value), Ref(j)) == DictAt(d, Ref(j))
    ensures DictLength(DictSet(DictSet(DictionaryObject(map[]), Ref(i), value), Ref(j), value)) == 2
  {
  }
}
