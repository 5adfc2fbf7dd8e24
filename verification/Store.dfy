/** The lexical scope chain: a frame of bindings and, outward from it, the
    frames of its enclosing stores. */
module Store {
  import opened Wrappers

  /** The result of a lookup: the bound value, or the `NOT_FOUND_IN_STORE`
      marker. */
  datatype Lookup<V> = Found(value: V) | NotFoundInStore

  /** A store's own bindings and its parents' bindings, nearest first. */
  datatype Store<V> = Store(data: map<string, V>, parents: seq<map<string, V>>)

  /** The enclosing store, if there is one. */
  function Parent<V>(s: Store<V>): Option<Store<V>> {
    if |s.parents| == 0 then None else Some(Store(s.parents[0], s.parents[1..]))
  }

  /** A store with no bindings of its own below `parent`, or a root store. */
  function NewStore<V>(parent: Option<Store<V>>): (s: Store<V>)
    ensures Parent(s) == parent
    ensures forall key :: GetLocal(s, key) == NotFoundInStore
  {
    match parent
    case None => Store(map[], [])
    case Some(p) =>
      var s := Store(map[], [p.data] + p.parents);
      assert s.parents[1..] == p.parents;
      s
  }

  /** `set`: binds `key` in this store's own frame. */
  function Set<V>(s: Store<V>, key: string, value: V): (r: Store<V>)
    ensures Parent(r) == Parent(s)
    ensures GetLocal(r, key) == Found(value)
    ensures forall k :: k != key ==> GetLocal(r, k) == GetLocal(s, k)
  {
    s.(data := s.data[key := value])
  }

  /** `getLocal`: this store's own frame only. */
  function GetLocal<V>(s: Store<V>, key: string): (r: Lookup<V>)
    ensures r.Found? <==> key in s.data
  {
    if key in s.data then Found(s.data[key]) else NotFoundInStore
  }

  /** Some frame of the chain binds `key`. */
  predicate BoundInChain<V>(s: Store<V>, key: string) {
    key in s.data || exists i :: 0 <= i < |s.parents| && key in s.parents[i]
  }

  /** `get`: the own frame first, then the parent's `get`. It finds a value
      exactly when some frame of the chain binds the name, and a binding in
      the own frame shadows every outer one. */
  function Get<V>(s: Store<V>, key: string): (r: Lookup<V>)
    ensures r.Found? <==> BoundInChain(s, key)
    ensures key in s.data ==> r == Found(s.data[key])
    decreases |s.parents|
  {
    if key in s.data then Found(s.data[key])
    else
      match Parent(s)
      case Some(p) =>
        assert forall i :: 1 <= i < |s.parents| ==> s.parents[i] == p.parents[i - 1];
        Get(p, key)
      case None => NotFoundInStore
  }

  /** After `set(k, v)` both `get(k)` and `getLocal(k)` give `v`. */
  lemma SetThenGet<V>(s: Store<V>, key: string, value: V)
    ensures Get(Set(s, key, value), key) == Found(value)
    ensures GetLocal(Set(s, key, value), key) == Found(value)
  {
  }

  /** A name the own frame lacks is looked up in the parent. */
  lemma GetDelegates<V>(s: Store<V>, key: string)
    requires key !in s.data && Parent(s).Some?
    ensures Get(s, key) == Get(Parent(s).value, key)
  {
  }

  /** `set` touches no other name, and the parent chain stays as it was. */
  lemma SetKeepsOthers<V>(s: Store<V>, key: string, value: V, other: string)
    requires other != key
    ensures Get(Set(s, key, value), other) == Get(s, other)
    ensures Set(s, key, value).parents == s.parents
  {
  }

  /** `getLocal` never consults the parent: stores with the same own frame
      agree on it whatever their parents. */
  lemma GetLocalIgnoresParents<V>(s: Store<V>, t: Store<V>, key: string)
    requires s.data == t.data
    ensures GetLocal(s, key) == GetLocal(t, key)
  {
  }
}
