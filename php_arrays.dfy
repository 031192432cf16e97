/** The value tree a model file is printed from, and the PHP associative-array
    operations the exporter builds it with. A PHP array used as a dictionary is
    an ordered sequence of (key, value) pairs: insertion order is output order. */
module PhpArrays {

  datatype Option<+T> = None | Some(value: T)

  /** A value of the generated source. `Js` is a value wrapped by
      `getJSObject`, carrying that call's multiline and raw flags and the
      indentation unit it was given; a raw `Js` around a string is emitted
      verbatim (a type reference, a variable name). */
  datatype Value =
    | Null
    | Bool(b: bool)
    | Number(n: int)
    | Str(s: string)
    | List(items: seq<Value>)
    | Map(entries: seq<(string, Value)>)
    | Js(content: Value, multiline: bool, raw: bool, indentation: string)

  type Entries = seq<(string, Value)>

  /** PHP arrays never hold one key twice. */
  predicate UniqueKeys(e: Entries) {
    forall i, j :: 0 <= i < j < |e| ==> e[i].0 != e[j].0
  }

  /** `$e[$k]` (the first entry with key k; with unique keys the only one). */
  function Get(e: Entries, k: string): Option<Value> {
    if e == [] then None
    else if e[0].0 == k then Some(e[0].1)
    else Get(e[1..], k)
  }

  /** A key is missing exactly when no entry carries it. */
  lemma {:induction false} GetNone(e: Entries, k: string)
    ensures Get(e, k).None? <==> forall i :: 0 <= i < |e| ==> e[i].0 != k
  {
    if e != [] {
      GetNone(e[1..], k);
      assert forall i :: 1 <= i < |e| ==> e[i] == e[1..][i - 1];
    }
  }

  lemma {:induction false} GetAt(e: Entries, i: nat)
    requires i < |e|
    requires forall j :: 0 <= j < i ==> e[j].0 != e[i].0
    ensures Get(e, e[i].0) == Some(e[i].1)
  {
    if i > 0 {
      GetAt(e[1..], i - 1);
    }
  }

  /** `$e[$k] = $v`. */
  function Put(e: Entries, k: string, v: Value): Entries {
    if e == [] then [(k, v)]
    else if e[0].0 == k then [(k, v)] + e[1..]
    else [e[0]] + Put(e[1..], k, v)
  }

  /** After `$e[$k] = $v`, k holds v. */
  lemma {:induction false} PutSame(e: Entries, k: string, v: Value)
    ensures Get(Put(e, k, v), k) == Some(v)
  {
    if e != [] && e[0].0 != k {
      PutSame(e[1..], k, v);
    }
  }

  /** Every other key keeps what it held. */
  lemma {:induction false} PutOther(e: Entries, k: string, v: Value, k': string)
    requires k' != k
    ensures Get(Put(e, k, v), k') == Get(e, k')
  {
    if e != [] && e[0].0 != k {
      PutOther(e[1..], k, v, k');
    }
  }

  /** An existing key is overwritten where it stands. */
  lemma {:induction false} PutExisting(e: Entries, k: string, v: Value)
    requires Get(e, k).Some?
    ensures |Put(e, k, v)| == |e|
    ensures forall i :: 0 <= i < |e| ==> Put(e, k, v)[i].0 == e[i].0
  {
    if e[0].0 != k {
      PutExisting(e[1..], k, v);
      assert forall i :: 1 <= i < |e| ==> Put(e, k, v)[i] == Put(e[1..], k, v)[i - 1];
    }
  }

  /** A new key is appended at the end. */
  lemma {:induction false} PutAppend(e: Entries, k: string, v: Value)
    requires Get(e, k).None?
    ensures Put(e, k, v) == e + [(k, v)]
  {
    if e != [] {
      PutAppend(e[1..], k, v);
      assert e == [e[0]] + e[1..];
    }
  }

  /** Every key keeps its position, and whatever lies past the old end
      carries k. */
  lemma {:induction false} PutKeepsPositions(e: Entries, k: string, v: Value)
    ensures |e| <= |Put(e, k, v)|
    ensures forall i :: 0 <= i < |e| ==> Put(e, k, v)[i].0 == e[i].0
    ensures forall i :: |e| <= i < |Put(e, k, v)| ==> Put(e, k, v)[i].0 == k
  {
    if Get(e, k).Some? {
      PutExisting(e, k, v);
    } else {
      PutAppend(e, k, v);
    }
  }

  /** The first key stays first. */
  lemma PutFirst(e: Entries, k: string, v: Value)
    requires |e| > 0
    ensures |Put(e, k, v)| > 0 && Put(e, k, v)[0].0 == e[0].0
  {
  }

  /** No key appears twice after an assignment. */
  lemma {:induction false} PutUnique(e: Entries, k: string, v: Value)
    requires UniqueKeys(e)
    ensures UniqueKeys(Put(e, k, v))
  {
    if e != [] && e[0].0 != k {
      var rest := Put(e[1..], k, v);
      assert UniqueKeys(e[1..]) by {
        forall i, j | 0 <= i < j < |e[1..]| ensures e[1..][i].0 != e[1..][j].0 {
          assert e[1..][i] == e[i + 1] && e[1..][j] == e[j + 1];
        }
      }
      PutUnique(e[1..], k, v);
      GetNone(e[1..], e[0].0);
      PutOther(e[1..], k, v, e[0].0);
      GetNone(rest, e[0].0);
      var r := Put(e, k, v);
      forall i, j | 0 <= i < j < |r| ensures r[i].0 != r[j].0 {
        assert r[j] == rest[j - 1];
        if i > 0 {
          assert r[i] == rest[i - 1];
        }
      }
    }
  }

  /** After `$e[$k] = $v`, k holds v and every other key what it held; an
      existing key keeps its position, a new key is appended at the end, and
      no key appears twice. */
  lemma PutSpec(e: Entries, k: string, v: Value)
    ensures Get(Put(e, k, v), k) == Some(v)
    ensures forall k' :: k' != k ==> Get(Put(e, k, v), k') == Get(e, k')
    ensures Get(e, k).Some? ==> |Put(e, k, v)| == |e| && forall i :: 0 <= i < |e| ==> Put(e, k, v)[i].0 == e[i].0
    ensures Get(e, k).None? ==> Put(e, k, v) == e + [(k, v)]
    ensures UniqueKeys(e) ==> UniqueKeys(Put(e, k, v))
  {
    PutSame(e, k, v);
    forall k' | k' != k ensures Get(Put(e, k, v), k') == Get(e, k') {
      PutOther(e, k, v, k');
    }
    if Get(e, k).Some? {
      PutExisting(e, k, v);
    } else {
      PutAppend(e, k, v);
    }
    if UniqueKeys(e) {
      PutUnique(e, k, v);
    }
  }

  /** The entries of the map stored under key `outer`; PHP creates an empty
      array there when a nested assignment finds nothing. */
  function MapAt(e: Entries, outer: string): Entries {
    match Get(e, outer)
    case Some(Map(m)) => m
    case _ => []
  }

  /** `$e[$outer][$k] = $v`. */
  function PutNested(e: Entries, outer: string, k: string, v: Value): Entries {
    Put(e, outer, Map(Put(MapAt(e, outer), k, v)))
  }

  /** After `$e[$outer][$k] = $v`, the array under outer holds v at k and
      every other nested key as before, and every other outer key keeps its
      value. */
  lemma PutNestedSpec(e: Entries, outer: string, k: string, v: Value)
    ensures Get(MapAt(PutNested(e, outer, k, v), outer), k) == Some(v)
    ensures forall k' :: k' != k ==>
      Get(MapAt(PutNested(e, outer, k, v), outer), k') == Get(MapAt(e, outer), k')
    ensures forall o :: o != outer ==> Get(PutNested(e, outer, k, v), o) == Get(e, o)
  {
    var inner := Put(MapAt(e, outer), k, v);
    PutSame(e, outer, Map(inner));
    assert MapAt(PutNested(e, outer, k, v), outer) == inner;
    PutSame(MapAt(e, outer), k, v);
    forall k' | k' != k ensures Get(inner, k') == Get(MapAt(e, outer), k') {
      PutOther(MapAt(e, outer), k, v, k');
    }
    forall o | o != outer ensures Get(PutNested(e, outer, k, v), o) == Get(e, o) {
      PutOther(e, outer, Map(inner), o);
    }
  }

  /** `array_merge($a, $b)` for string keys: the entries of b are written
      into a one by one, in b's order. */
  function Merge(a: Entries, b: Entries): Entries
    decreases |b|
  {
    if b == [] then a else Merge(Put(a, b[0].0, b[0].1), b[1..])
  }

  /** array_merge keeps every key of its first argument at its position. */
  lemma {:induction false} MergeKeepsPositions(a: Entries, b: Entries)
    ensures |Merge(a, b)| >= |a|
    ensures forall i :: 0 <= i < |a| ==> Merge(a, b)[i].0 == a[i].0
    decreases |b|
  {
    if b != [] {
      var a' := Put(a, b[0].0, b[0].1);
      if Get(a, b[0].0).Some? {
        PutExisting(a, b[0].0, b[0].1);
      } else {
        PutAppend(a, b[0].0, b[0].1);
      }
      MergeKeepsPositions(a', b[1..]);
    }
  }

  /** array_merge never duplicates a key. */
  lemma {:induction false} MergeUnique(a: Entries, b: Entries)
    requires UniqueKeys(a)
    ensures UniqueKeys(Merge(a, b))
    decreases |b|
  {
    if b != [] {
      PutUnique(a, b[0].0, b[0].1);
      MergeUnique(Put(a, b[0].0, b[0].1), b[1..]);
    }
  }

  /** In array_merge the second argument wins key by key; keys it does not
      mention keep the first argument's value. */
  lemma {:induction false} MergeGet(a: Entries, b: Entries, k: string)
    requires UniqueKeys(b)
    ensures Get(Merge(a, b), k) == if Get(b, k).Some? then Get(b, k) else Get(a, k)
    decreases |b|
  {
    if b != [] {
      var a' := Put(a, b[0].0, b[0].1);
      if k == b[0].0 {
        PutSame(a, k, b[0].1);
      } else {
        PutOther(a, b[0].0, b[0].1, k);
      }
      assert UniqueKeys(b[1..]) by {
        forall i, j | 0 <= i < j < |b[1..]| ensures b[1..][i].0 != b[1..][j].0 {
          assert b[1..][i] == b[i + 1] && b[1..][j] == b[j + 1];
        }
      }
      MergeGet(a', b[1..], k);
      if k == b[0].0 {
        assert Get(b[1..], k).None? by {
          forall i | 0 <= i < |b[1..]| ensures b[1..][i].0 != k {
            assert b[1..][i] == b[i + 1];
          }
          GetNone(b[1..], k);
        }
      }
    }
  }

  /** A loop of `$r[$k] = $v` over the pairs, starting from an empty array. */
  function Assign(pairs: Entries): Entries
    decreases |pairs|
  {
    if pairs == [] then []
    else Put(Assign(pairs[..|pairs| - 1]), pairs[|pairs| - 1].0, pairs[|pairs| - 1].1)
  }

  /** The keys assigned are exactly the keys of the pairs, none twice. */
  lemma {:induction false} AssignKeys(pairs: Entries)
    ensures UniqueKeys(Assign(pairs))
    ensures forall k :: Get(Assign(pairs), k).Some? <==> exists i :: 0 <= i < |pairs| && pairs[i].0 == k
    decreases |pairs|
  {
    if pairs != [] {
      var n := |pairs|;
      var init := pairs[..n - 1];
      var last := pairs[n - 1];
      var prev := Assign(init);
      var r := Assign(pairs);
      AssignKeys(init);
      PutUnique(prev, last.0, last.1);
      PutSame(prev, last.0, last.1);
      forall k ensures Get(r, k).Some? <==> exists i :: 0 <= i < n && pairs[i].0 == k {
        if k != last.0 {
          PutOther(prev, last.0, last.1, k);
        }
        if k != last.0 && Get(r, k).Some? {
          var i :| 0 <= i < n - 1 && init[i].0 == k;
          assert pairs[i].0 == k;
        }
        if k != last.0 && exists i :: 0 <= i < n && pairs[i].0 == k {
          var i :| 0 <= i < n && pairs[i].0 == k;
          assert init[i].0 == k;
        }
      }
    }
  }

  /** A key holds the value of the last pair that carries it. */
  lemma {:induction false} AssignLastWins(pairs: Entries)
    ensures forall i :: 0 <= i < |pairs| && (forall j :: i < j < |pairs| ==> pairs[j].0 != pairs[i].0) ==>
      Get(Assign(pairs), pairs[i].0) == Some(pairs[i].1)
    decreases |pairs|
  {
    if pairs != [] {
      var n := |pairs|;
      var init := pairs[..n - 1];
      var last := pairs[n - 1];
      var prev := Assign(init);
      var r := Assign(pairs);
      AssignLastWins(init);
      PutSame(prev, last.0, last.1);
      forall i | 0 <= i < n && (forall j :: i < j < n ==> pairs[j].0 != pairs[i].0)
        ensures Get(r, pairs[i].0) == Some(pairs[i].1)
      {
        if i < n - 1 {
          assert pairs[n - 1].0 != pairs[i].0;
          PutOther(prev, last.0, last.1, pairs[i].0);
          assert init[i] == pairs[i];
          assert forall j :: i < j < n - 1 ==> init[j] == pairs[j];
        }
      }
    }
  }

  /** With distinct keys the assignments come out as the pairs themselves. */
  lemma {:induction false} AssignDistinct(pairs: Entries)
    requires UniqueKeys(pairs)
    ensures Assign(pairs) == pairs
    decreases |pairs|
  {
    if pairs != [] {
      var n := |pairs|;
      var init := pairs[..n - 1];
      var last := pairs[n - 1];
      assert UniqueKeys(init) by {
        forall i, j | 0 <= i < j < n - 1 ensures init[i].0 != init[j].0 {
          assert init[i] == pairs[i] && init[j] == pairs[j];
        }
      }
      AssignDistinct(init);
      GetNone(init, last.0);
      PutAppend(init, last.0, last.1);
      assert init + [last] == pairs;
    }
  }
}
