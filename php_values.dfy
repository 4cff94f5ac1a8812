/**
 * The part of PHP's value semantics the plugin relies on: `empty()` and `(bool)` on strings,
 * and ordered arrays, whose keys keep their insertion order, `$a[$k] = $v` replaces the value
 * of an existing key in place and appends a new key at the end, and `$a[] = $v` appends under
 * the next free integer key.
 */
module PhpValues {
  import opened Wrappers

  /** `empty($s)` for a string: only "" and "0" are empty. */
  predicate StringIsEmpty(s: string) {
    s == "" || s == "0"
  }

  /** `(bool) $s` for a string. */
  predicate StringToBool(s: string) {
    !StringIsEmpty(s)
  }

  datatype Key = IntKey(i: int) | StrKey(s: string)

  datatype Value = Null | Bool(b: bool) | Str(s: string) | Arr(entries: seq<Entry>)

  datatype Entry = Entry(key: Key, val: Value)

  /** `empty($v)` for a value. */
  predicate IsEmpty(v: Value) {
    v == Null || v == Bool(false) || v == Str("") || v == Str("0") || v == Arr([])
  }

  predicate HasKey(a: seq<Entry>, k: Key) {
    exists i :: 0 <= i < |a| && a[i].key == k
  }

  predicate DistinctKeys(a: seq<Entry>) {
    forall i, j :: 0 <= i < j < |a| ==> a[i].key != a[j].key
  }

  /** `$a[$k] ?? null`, with absence kept apart from a stored null. */
  function Lookup(a: seq<Entry>, k: Key): (r: Option<Value>)
    ensures r.Some? <==> HasKey(a, k)
    ensures r.Some? ==> exists i :: 0 <= i < |a| && a[i].key == k && a[i].val == r.value
  {
    if a == [] then None
    else if a[0].key == k then Some(a[0].val)
    else
      var r := Lookup(a[1..], k);
      assert HasKey(a, k) ==> HasKey(a[1..], k) by {
        if HasKey(a, k) {
          var i :| 0 <= i < |a| && a[i].key == k;
          assert a[1..][i - 1].key == k;
        }
      }
      assert r.Some? ==> exists i :: 0 <= i < |a| && a[i].key == k && a[i].val == r.value by {
        if r.Some? {
          var i :| 0 <= i < |a[1..]| && a[1..][i].key == k && a[1..][i].val == r.value;
          assert a[i + 1] == a[1..][i];
        }
      }
      r
  }

  /** `$a[$k] = $v`: an existing key keeps its position, a new key goes to the end. */
  function Put(a: seq<Entry>, k: Key, v: Value): (r: seq<Entry>)
    ensures Lookup(r, k) == Some(v)
    ensures forall k' :: k' != k ==> Lookup(r, k') == Lookup(a, k')
    ensures !HasKey(a, k) ==> r == a + [Entry(k, v)]
    ensures forall i :: 0 <= i < |a| && a[i].key != k ==> i < |r| && r[i] == a[i]
  {
    if a == [] then [Entry(k, v)]
    else if a[0].key == k then [Entry(k, v)] + a[1..]
    else
      var rest := Put(a[1..], k, v);
      assert a == [a[0]] + a[1..];
      PutStep(a[0], a[1..], k, v, rest);
      [a[0]] + rest
  }

  /** Putting past a head entry whose key differs: what holds of the tail holds of the whole. */
  lemma PutStep(e: Entry, tail: seq<Entry>, k: Key, v: Value, rest: seq<Entry>)
    requires e.key != k
    requires Lookup(rest, k) == Some(v)
    requires forall k' :: k' != k ==> Lookup(rest, k') == Lookup(tail, k')
    requires !HasKey(tail, k) ==> rest == tail + [Entry(k, v)]
    requires forall i :: 0 <= i < |tail| && tail[i].key != k ==> i < |rest| && rest[i] == tail[i]
    ensures Lookup([e] + rest, k) == Some(v)
    ensures forall k' :: k' != k ==> Lookup([e] + rest, k') == Lookup([e] + tail, k')
    ensures !HasKey([e] + tail, k) ==> [e] + rest == [e] + tail + [Entry(k, v)]
    ensures forall i :: 0 <= i < |[e] + tail| && ([e] + tail)[i].key != k ==> i < |[e] + rest| && ([e] + rest)[i] == ([e] + tail)[i]
  {
    LookupCons(e, rest, k);
    forall k' | k' != k ensures Lookup([e] + rest, k') == Lookup([e] + tail, k') {
      LookupCons(e, rest, k');
      LookupCons(e, tail, k');
    }
    PutStepAppend(e, tail, k, v, rest);
    PutStepPositions(e, tail, k, rest);
  }

  lemma PutStepAppend(e: Entry, tail: seq<Entry>, k: Key, v: Value, rest: seq<Entry>)
    requires e.key != k
    requires !HasKey(tail, k) ==> rest == tail + [Entry(k, v)]
    ensures !HasKey([e] + tail, k) ==> [e] + rest == [e] + tail + [Entry(k, v)]
  {
    HasKeyCons([e] + tail, k);
    assert ([e] + tail)[1..] == tail;
  }

  lemma PutStepPositions(e: Entry, tail: seq<Entry>, k: Key, rest: seq<Entry>)
    requires forall i :: 0 <= i < |tail| && tail[i].key != k ==> i < |rest| && rest[i] == tail[i]
    ensures forall i :: 0 <= i < |[e] + tail| && ([e] + tail)[i].key != k ==> i < |[e] + rest| && ([e] + rest)[i] == ([e] + tail)[i]
  {
    forall i | 0 <= i < |[e] + tail| && ([e] + tail)[i].key != k ensures i < |[e] + rest| && ([e] + rest)[i] == ([e] + tail)[i] {
      if i > 0 {
        assert ([e] + tail)[i] == tail[i - 1];
        assert ([e] + rest)[i] == rest[i - 1];
      }
    }
  }

  /** The next free integer key: one past the largest integer key, and never negative. */
  function NextIndex(a: seq<Entry>): (n: int)
    ensures n >= 0
    ensures forall i :: 0 <= i < |a| && a[i].key.IntKey? ==> a[i].key.i < n
  {
    if a == [] then 0
    else
      var rest := NextIndex(a[1..]);
      assert forall i :: 1 <= i < |a| ==> a[i] == a[1..][i - 1];
      if a[0].key.IntKey? && a[0].key.i + 1 > rest then a[0].key.i + 1 else rest
  }

  /** `$a[] = $v`. */
  function Push(a: seq<Entry>, v: Value): seq<Entry> {
    a + [Entry(IntKey(NextIndex(a)), v)]
  }

  /** The values of an array, in order. */
  function Values(a: seq<Entry>): (vs: seq<Value>)
    ensures |vs| == |a| && forall i :: 0 <= i < |a| ==> vs[i] == a[i].val
  {
    seq(|a|, i requires 0 <= i < |a| => a[i].val)
  }

  /** Every assignment of `updates`, in order: `foreach ($updates as $k => $v) $a[$k] = $v;`. */
  function PutAll(a: seq<Entry>, updates: seq<Entry>): seq<Entry>
    decreases |updates|
  {
    if updates == [] then a
    else
      var n := |updates| - 1;
      Put(PutAll(a, updates[..n]), updates[n].key, updates[n].val)
  }

  lemma {:induction false} LookupAppend(a: seq<Entry>, e: Entry, k: Key)
    ensures Lookup(a + [e], k) == if HasKey(a, k) then Lookup(a, k) else if e.key == k then Some(e.val) else None
  {
    if a == [] {
      assert [] + [e] == [e];
    } else {
      assert (a + [e])[1..] == a[1..] + [e];
      LookupAppend(a[1..], e, k);
      if a[0].key != k {
        assert HasKey(a, k) <==> HasKey(a[1..], k) by {
          if HasKey(a, k) {
            var i :| 0 <= i < |a| && a[i].key == k;
            assert a[1..][i - 1].key == k;
          }
          if HasKey(a[1..], k) {
            var i :| 0 <= i < |a[1..]| && a[1..][i].key == k;
            assert a[i + 1].key == k;
          }
        }
      } else {
        assert HasKey(a, k) by { assert a[0].key == k; }
      }
    }
  }

  lemma LookupDistinct(a: seq<Entry>, i: int)
    requires DistinctKeys(a) && 0 <= i < |a|
    ensures Lookup(a, a[i].key) == Some(a[i].val)
  {
    var r := Lookup(a, a[i].key);
    var j :| 0 <= j < |a| && a[j].key == a[i].key && a[j].val == r.value;
    assert j == i;
  }

  /** With distinct keys in `updates`, each of its keys ends with its value, the rest keep theirs. */
  lemma {:induction false} LookupPutAll(a: seq<Entry>, updates: seq<Entry>, k: Key)
    requires DistinctKeys(updates)
    ensures Lookup(PutAll(a, updates), k) == if HasKey(updates, k) then Lookup(updates, k) else Lookup(a, k)
    decreases |updates|
  {
    if updates != [] {
      var n := |updates| - 1;
      var init, last := updates[..n], updates[n];
      assert updates == init + [last];
      assert DistinctKeys(init);
      LookupPutAll(a, init, k);
      LookupAppend(init, last, k);
      HasKeyAppend(init, last, k);
      if last.key == k {
        assert !HasKey(init, k) by {
          forall i | 0 <= i < |init| ensures init[i].key != k {
            assert init[i] == updates[i];
          }
        }
      }
    }
  }

  lemma LookupCons(e: Entry, rest: seq<Entry>, k: Key)
    ensures Lookup([e] + rest, k) == if e.key == k then Some(e.val) else Lookup(rest, k)
  {
    assert ([e] + rest)[1..] == rest;
  }

  lemma HasKeyCons(a: seq<Entry>, k: Key)
    requires a != []
    ensures HasKey(a, k) <==> a[0].key == k || HasKey(a[1..], k)
  {
    if HasKey(a, k) && a[0].key != k {
      var i :| 0 <= i < |a| && a[i].key == k;
      assert a[1..][i - 1].key == k;
    }
    if HasKey(a[1..], k) {
      var i :| 0 <= i < |a[1..]| && a[1..][i].key == k;
      assert a[i + 1].key == k;
    }
  }

  lemma HasKeyAppend(a: seq<Entry>, e: Entry, k: Key)
    ensures HasKey(a + [e], k) <==> HasKey(a, k) || e.key == k
  {
    var b := a + [e];
    if HasKey(b, k) && e.key != k {
      var i :| 0 <= i < |b| && b[i].key == k;
      assert i < |a| && a[i].key == k;
    }
    if HasKey(a, k) {
      var i :| 0 <= i < |a| && a[i].key == k;
      assert b[i].key == k;
    }
    if e.key == k {
      assert b[|a|].key == k;
    }
  }

  lemma PushIsFreshKey(a: seq<Entry>)
    ensures !HasKey(a, IntKey(NextIndex(a)))
  {
    var k := IntKey(NextIndex(a));
    forall i | 0 <= i < |a| ensures a[i].key != k {
      if a[i].key.IntKey? { assert a[i].key.i < NextIndex(a); }
    }
  }

  /** `$a[] = $v` adds exactly one entry, under a key the array did not have. */
  lemma PushFacts(a: seq<Entry>, v: Value)
    ensures !HasKey(a, IntKey(NextIndex(a)))
    ensures Push(a, v) == Put(a, IntKey(NextIndex(a)), v)
    ensures Values(Push(a, v)) == Values(a) + [v]
  {
    PushIsFreshKey(a);
    assert Values(Push(a, v)) == Values(a) + [v];
  }

  lemma {:induction false} PutKeepsDistinct(a: seq<Entry>, k: Key, v: Value)
    requires DistinctKeys(a)
    ensures DistinctKeys(Put(a, k, v))
  {
    if a != [] && a[0].key == k {
      PutHeadKeepsDistinct(a, k, v);
    } else if a != [] {
      var tail := a[1..];
      assert DistinctKeys(tail);
      PutKeepsDistinct(tail, k, v);
      var rest := Put(tail, k, v);
      assert !HasKey(rest, a[0].key) by {
        assert !HasKey(tail, a[0].key) by {
          forall i | 0 <= i < |tail| ensures tail[i].key != a[0].key {
            assert tail[i] == a[i + 1];
          }
        }
        assert Lookup(rest, a[0].key) == Lookup(tail, a[0].key);
      }
      ConsKeepsDistinct(a[0], rest);
    }
  }

  lemma PutHeadKeepsDistinct(a: seq<Entry>, k: Key, v: Value)
    requires DistinctKeys(a) && a != [] && a[0].key == k
    ensures DistinctKeys(Put(a, k, v))
  {
    var r := Put(a, k, v);
    assert r == [Entry(k, v)] + a[1..];
    forall i, j | 0 <= i < j < |r| ensures r[i].key != r[j].key {
      assert r[i].key == a[i].key && r[j].key == a[j].key;
    }
  }

  lemma ConsKeepsDistinct(e: Entry, rest: seq<Entry>)
    requires DistinctKeys(rest) && !HasKey(rest, e.key)
    ensures DistinctKeys([e] + rest)
  {
    var r := [e] + rest;
    forall i, j | 0 <= i < j < |r| ensures r[i].key != r[j].key {
      assert r[j] == rest[j - 1];
      if i > 0 {
        assert r[i] == rest[i - 1];
      }
    }
  }

  // ---------------------------------------------------------------- array literals

  /** A PHP array literal: the keys paired with the values, in order. */
  function Zip(keys: seq<string>, vals: seq<Value>): (r: seq<Entry>)
    requires |keys| == |vals|
    ensures |r| == |keys|
    ensures forall i :: 0 <= i < |r| ==> r[i] == Entry(StrKey(keys[i]), vals[i])
  {
    if keys == [] then [] else [Entry(StrKey(keys[0]), vals[0])] + Zip(keys[1..], vals[1..])
  }

  predicate Distinct(keys: seq<string>) {
    forall i, j :: 0 <= i < j < |keys| ==> keys[i] != keys[j]
  }

  /** In a literal with distinct keys, each key looks up the value written beside it. */
  lemma {:induction false} ZipLookup(keys: seq<string>, vals: seq<Value>, i: int)
    requires |keys| == |vals| && Distinct(keys) && 0 <= i < |keys|
    ensures Lookup(Zip(keys, vals), StrKey(keys[i])) == Some(vals[i])
  {
    if i > 0 {
      assert keys[1..][i - 1] == keys[i];
      assert Distinct(keys[1..]) by {
        forall a, b | 0 <= a < b < |keys| - 1 ensures keys[1..][a] != keys[1..][b] {
          assert keys[1..][a] == keys[a + 1] && keys[1..][b] == keys[b + 1];
        }
      }
      ZipLookup(keys[1..], vals[1..], i - 1);
      assert keys[0] != keys[i];
      assert Zip(keys, vals) == [Entry(StrKey(keys[0]), vals[0])] + Zip(keys[1..], vals[1..]);
    }
  }

  /** A key not among the literal's keys is not in it. */
  lemma ZipLacksKey(keys: seq<string>, vals: seq<Value>, k: string)
    requires |keys| == |vals| && k !in keys
    ensures !HasKey(Zip(keys, vals), StrKey(k))
  {
    var z := Zip(keys, vals);
    forall i | 0 <= i < |z| ensures z[i].key != StrKey(k) {
      assert z[i].key == StrKey(keys[i]);
    }
  }

  /** Appending one pair to the keys and values appends one entry to the literal. */
  lemma ZipAppend(keys: seq<string>, vals: seq<Value>, k: string, v: Value)
    requires |keys| == |vals|
    ensures Zip(keys, vals) + [Entry(StrKey(k), v)] == Zip(keys + [k], vals + [v])
  {
    var a, b := Zip(keys, vals) + [Entry(StrKey(k), v)], Zip(keys + [k], vals + [v]);
    assert |a| == |b|;
    forall i | 0 <= i < |a| ensures a[i] == b[i] {
      if i < |keys| {
        assert (keys + [k])[i] == keys[i] && (vals + [v])[i] == vals[i];
      }
    }
  }

  /** A PHP list: the values under the keys 0, 1, 2, ... */
  function ListOf(vs: seq<Value>): (r: seq<Entry>)
    ensures |r| == |vs|
    ensures forall i :: 0 <= i < |r| ==> r[i] == Entry(IntKey(i), vs[i])
  {
    seq(|vs|, i requires 0 <= i < |vs| => Entry(IntKey(i), vs[i]))
  }

  /** Updating a position of a prefix is updating it in the whole. */
  lemma UpdateBeforeTail<T>(vs: seq<T>, i: int, v: T, t: seq<T>)
    requires 0 <= i < |vs|
    ensures vs[i := v] + t == (vs + t)[i := v]
  {
    var l, r := vs[i := v] + t, (vs + t)[i := v];
    assert forall j :: 0 <= j < |l| ==> l[j] == r[j];
  }

  /** Two literals over the same distinct keys that differ only at `i` agree on every other key. */
  lemma {:induction false} SameLookupElsewhere(keys: seq<string>, vs: seq<Value>, ws: seq<Value>, i: int, k: Key)
    requires |keys| == |vs| == |ws| && Distinct(keys) && 0 <= i < |keys|
    requires forall j :: 0 <= j < |vs| && j != i ==> vs[j] == ws[j]
    requires k != StrKey(keys[i])
    ensures Lookup(Zip(keys, ws), k) == Lookup(Zip(keys, vs), k)
    decreases |keys|
  {
    if keys != [] {
      assert Zip(keys, vs) == [Entry(StrKey(keys[0]), vs[0])] + Zip(keys[1..], vs[1..]);
      assert Zip(keys, ws) == [Entry(StrKey(keys[0]), ws[0])] + Zip(keys[1..], ws[1..]);
      if StrKey(keys[0]) != k {
        if i == 0 {
          assert vs[1..] == ws[1..];
        } else {
          assert Distinct(keys[1..]) by {
            forall a, b | 0 <= a < b < |keys| - 1 ensures keys[1..][a] != keys[1..][b] {
              assert keys[1..][a] == keys[a + 1] && keys[1..][b] == keys[b + 1];
            }
          }
          assert keys[1..][i - 1] == keys[i];
          forall j | 0 <= j < |vs| - 1 && j != i - 1 ensures vs[1..][j] == ws[1..][j] {
            assert vs[1..][j] == vs[j + 1] && ws[1..][j] == ws[j + 1];
          }
          SameLookupElsewhere(keys[1..], vs[1..], ws[1..], i - 1, k);
        }
      } else {
        assert i != 0;
        assert vs[0] == ws[0];
      }
    }
  }
}
