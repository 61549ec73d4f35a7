/** Values, dictionaries and failures shared by every part of the client.
    Python exceptions become `Result.Err`; a dictionary keeps insertion order, because the
    JSON text of a message depends on it. */
module Values {

  datatype Option<+T> = None | Some(value: T)

  /** The exceptions the modelled code can raise. */
  datatype Error = ValueError | KeyError | IndexError | TypeError | AttributeError

  datatype Result<+T> = Ok(value: T) | Err(error: Error)

  /** Two list-producing computations run one after the other: the first failure wins. */
  function Then<T>(a: Result<seq<T>>, b: Result<seq<T>>): Result<seq<T>> {
    if a.Err? then a else if b.Err? then b else Ok(a.value + b.value)
  }

  lemma ThenAssociative<T>(a: Result<seq<T>>, b: Result<seq<T>>, c: Result<seq<T>>)
    ensures Then(Then(a, b), c) == Then(a, Then(b, c))
  {
    if a.Ok? && b.Ok? && c.Ok? {
      assert (a.value + b.value) + c.value == a.value + (b.value + c.value);
    }
  }

  lemma ThenUnit<T>(a: Result<seq<T>>)
    ensures Then(a, Ok([])) == a == Then(Ok([]), a)
  {
    if a.Ok? {
      assert a.value + [] == a.value == [] + a.value;
    }
  }

  lemma Regroup<T>(a: seq<T>, b: seq<T>, c: seq<T>)
    ensures (a + b) + c == a + (b + c)
  {
  }

  /** Dictionary keys. The names the client itself reads or writes are interned; every other
      string is `Name`. */
  datatype Key =
    | Type | Headers | InvocationIdAttr | InvocationIdJson | Target | Arguments | Item
    | ResultKind | ResultKey | ErrorKey | StreamIdsAttr | StreamIdsJson | Name(name: string)

  /** The spellings of the interned keys. */
  const INTERNED: set<string> :=
    {"type", "headers", "invocation_id", "invocationId", "target", "arguments", "item", "result_kind", "result",
     "error", "stream_ids", "streamIds"}

  /** Interned names are never spelled out, so different keys are different strings. */
  predicate Spelled(k: Key) {
    k.Name? ==> k.name !in INTERNED
  }

  type Dict<V> = seq<(Key, V)>

  datatype Value =
    | Null
    | Bool(b: bool)
    | Num(n: int)
    | Str(s: string)
    | Arr(elems: seq<Value>)
    | Obj(fields: Dict<Value>)

  /** `len(v)` for a decoded value. */
  function Length(v: Value): Result<nat> {
    match v
    case Str(s) => Ok(|s|)
    case Arr(elems) => Ok(|elems|)
    case Obj(fields) => Ok(|fields|)
    case _ => Err(TypeError)
  }

  /** Python's `v == k` for an integer `k`: `True` and `False` compare equal to 1 and 0. */
  predicate EqualsInt(v: Value, k: int) {
    match v
    case Num(n) => n == k
    case Bool(b) => k == (if b then 1 else 0)
    case _ => false
  }

  ghost predicate Distinct<V>(d: Dict<V>) {
    forall i, j :: 0 <= i < j < |d| ==> d[i].0 != d[j].0
  }

  /** Values a dictionary-based codec can represent: no key occurs twice, under either spelling. */
  ghost predicate Representable(v: Value) {
    match v
    case Arr(elems) => forall e | e in elems :: Representable(e)
    case Obj(fields) => Distinct(fields) && forall f | f in fields :: Spelled(f.0) && Representable(f.1)
    case _ => true
  }

  function Find<V>(d: Dict<V>, k: Key): Option<V> {
    if d == [] then None else if d[0].0 == k then Some(d[0].1) else Find(d[1..], k)
  }

  function FindOr<V>(d: Dict<V>, k: Key, default: V): V {
    var found := Find(d, k);
    if found.Some? then found.value else default
  }

  /** `d[k] = v`: an existing key keeps its place, a new one goes last. */
  function Put<V>(d: Dict<V>, k: Key, v: V): Dict<V> {
    if d == [] then [(k, v)] else if d[0].0 == k then [(k, v)] + d[1..] else [d[0]] + Put(d[1..], k, v)
  }

  /** `del d[k]`, on a dictionary that may lack the key. */
  function Del<V>(d: Dict<V>, k: Key): Dict<V> {
    if d == [] then [] else (if d[0].0 == k then [] else [d[0]]) + Del(d[1..], k)
  }

  lemma {:induction false} FindAt<V>(d: Dict<V>, i: nat)
    requires i < |d| && Distinct(d)
    ensures Find(d, d[i].0) == Some(d[i].1)
  {
    if i > 0 {
      assert d[1..][i - 1] == d[i];
      FindAt(d[1..], i - 1);
    }
  }

  lemma {:induction false} FindAbsent<V>(d: Dict<V>, k: Key)
    ensures Find(d, k).None? <==> forall i :: 0 <= i < |d| ==> d[i].0 != k
  {
    if d != [] && d[0].0 != k {
      FindAbsent(d[1..], k);
      assert forall i :: 1 <= i < |d| ==> d[i] == d[1..][i - 1];
    }
  }

  lemma {:induction false} FindPut<V>(d: Dict<V>, k: Key, v: V, q: Key)
    ensures Find(Put(d, k, v), q) == if q == k then Some(v) else Find(d, q)
  {
    if d != [] && d[0].0 != k {
      FindPut(d[1..], k, v, q);
      assert Put(d, k, v)[1..] == Put(d[1..], k, v);
    }
  }

  lemma {:induction false} PutAbsent<V>(d: Dict<V>, k: Key, v: V)
    requires Find(d, k).None?
    ensures Put(d, k, v) == d + [(k, v)]
  {
    if d != [] {
      PutAbsent(d[1..], k, v);
    }
  }

  lemma {:induction false} FindDel<V>(d: Dict<V>, k: Key, q: Key)
    ensures Find(Del(d, k), q) == if q == k then None else Find(d, q)
  {
    if d != [] {
      FindDel(d[1..], k, q);
      var rest := Del(d[1..], k);
      assert [] + rest == rest && ([d[0]] + rest)[1..] == rest;
    }
  }

  lemma {:induction false} DelMembers<V>(d: Dict<V>, k: Key)
    ensures forall f :: f in Del(d, k) ==> f in d && f.0 != k
  {
    if d != [] {
      DelMembers(d[1..], k);
    }
  }

  lemma DistinctCons<V>(e: (Key, V), d: Dict<V>)
    requires Distinct(d) && forall f :: f in d ==> f.0 != e.0
    ensures Distinct([e] + d)
  {
    var all := [e] + d;
    forall i, j | 0 <= i < j < |all| ensures all[i].0 != all[j].0 {
      assert all[j] == d[j - 1];
      assert d[j - 1] in d;
    }
  }

  lemma DistinctTail<V>(d: Dict<V>)
    requires d != [] && Distinct(d)
    ensures Distinct(d[1..]) && forall f :: f in d[1..] ==> f.0 != d[0].0
  {
  }

  lemma {:induction false} DelDistinct<V>(d: Dict<V>, k: Key)
    requires Distinct(d)
    ensures Distinct(Del(d, k))
  {
    if d != [] {
      var rest := Del(d[1..], k);
      DistinctTail(d);
      DelDistinct(d[1..], k);
      DelMembers(d[1..], k);
      if d[0].0 == k {
        assert [] + rest == rest;
      } else {
        DistinctCons(d[0], rest);
      }
    }
  }

  lemma {:induction false} PutDistinct<V>(d: Dict<V>, k: Key, v: V)
    requires Distinct(d)
    ensures Distinct(Put(d, k, v)) && forall f :: f in Put(d, k, v) ==> f == (k, v) || f in d
  {
    if d != [] && d[0].0 != k {
      PutDistinct(d[1..], k, v);
      var rest := Put(d[1..], k, v);
      assert Put(d, k, v)[1..] == rest;
      forall i | 0 <= i < |rest| ensures rest[i].0 != d[0].0 {
        assert rest[i] in rest;
        if rest[i] in d[1..] {
          var j :| 0 <= j < |d[1..]| && d[1..][j] == rest[i];
          assert d[j + 1] == rest[i];
        }
      }
    }
  }

  lemma {:induction false} FindMember<V>(d: Dict<V>, k: Key)
    ensures Find(d, k).Some? ==> (k, Find(d, k).value) in d
  {
    if d != [] && d[0].0 != k {
      FindMember(d[1..], k);
    }
  }

  /** `if a in d: d[b] = d[a]; del d[a]`. */
  function RenameKey<V>(d: Dict<V>, a: Key, b: Key): Dict<V> {
    var found := Find(d, a);
    if found.None? then d else Del(Put(d, b, found.value), a)
  }

  lemma FindRename<V>(d: Dict<V>, a: Key, b: Key, k: Key)
    requires Distinct(d) && a != b
    ensures Distinct(RenameKey(d, a, b))
    ensures Find(RenameKey(d, a, b), k) ==
              if Find(d, a).None? then Find(d, k)
              else if k == a then None
              else if k == b then Find(d, a)
              else Find(d, k)
  {
    if Find(d, a).Some? {
      var v := Find(d, a).value;
      PutDistinct(d, b, v);
      FindDel(Put(d, b, v), a, k);
      DelDistinct(Put(d, b, v), a);
      FindPut(d, b, v, k);
    }
  }
}
