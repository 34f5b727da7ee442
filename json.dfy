/**
  JavaScript values as the validation engine sees them.

  Objects are ordered association lists, because JavaScript objects keep their
  keys in insertion order and the generated documentation follows that order.
  Numbers are reals: the engine only compares, copies and increments them.
 */
module Json {

  datatype Option<+T> = None | Some(value: T)

  /** What a JavaScript statement may raise while the engine runs. */
  datatype JsError =
    | TypeError                 // e.g. `null.type`, `'x' in 5`, calling `undefined`
    | Error(message: string)    // `throw new Error(message)`

  /** A JavaScript call either returns a value or throws. */
  datatype Outcome<+T> = Returns(value: T) | Throws(error: JsError)

  /** The three outcomes of `1 * s` that the engine distinguishes. */
  type NonZeroReal = r: real | r != 0.0 witness 1.0
  datatype NumResult = NaN | Zero | NonZero(value: NonZeroReal)

  datatype JValue =
    | JUndefined
    | JNull
    | JBool(b: bool)
    | JNum(n: real)
    | JStr(s: string)
    | JArr(elems: seq<JValue>)                  // a hole is JUndefined
    | JObj(fields: seq<(string, JValue)>)
    | JStream(readable: bool)                   // a Node.js stream object

  type Fields = seq<(string, JValue)>

  /** The keys of an object, in order. */
  function KeysOf(fs: Fields): (ks: seq<string>)
    ensures |ks| == |fs|
    ensures forall i :: 0 <= i < |fs| ==> ks[i] == fs[i].0
  {
    if |fs| == 0 then [] else [fs[0].0] + KeysOf(fs[1..])
  }

  /** The position of key `k` in an object that owns it. */
  function KeyIndex(fs: Fields, k: string): (i: nat)
    requires k in KeysOf(fs)
    ensures i < |fs| && fs[i].0 == k
  {
    if fs[0].0 == k then 0 else 1 + KeyIndex(fs[1..], k)
  }

  /** A JavaScript object never holds the same key twice. */
  predicate DistinctKeys(fs: Fields)
  {
    forall i, j :: 0 <= i < j < |fs| ==> fs[i].0 != fs[j].0
  }

  /** `obj[k]` for an own key: the value stored under the first occurrence of `k`. */
  function Lookup(fs: Fields, k: string): (r: Option<JValue>)
    ensures r.Some? <==> k in KeysOf(fs)
    ensures r.Some? ==> (k, r.value) in fs
    ensures r.None? ==> forall i :: 0 <= i < |fs| ==> fs[i].0 != k
  {
    if |fs| == 0 then None
    else if fs[0].0 == k then Some(fs[0].1)
    else Lookup(fs[1..], k)
  }

  /** `obj[k] = v`: an existing key keeps its position, a new key goes last. */
  function Put(fs: Fields, k: string, v: JValue): (r: Fields)
    ensures k in KeysOf(fs) ==> KeysOf(r) == KeysOf(fs)
    ensures k !in KeysOf(fs) ==> KeysOf(r) == KeysOf(fs) + [k]
    ensures Lookup(r, k) == Some(v)
    ensures forall k' :: k' != k ==> Lookup(r, k') == Lookup(fs, k')
  {
    if |fs| == 0 then [(k, v)]
    else if fs[0].0 == k then
      [(k, v)] + fs[1..]
    else
      var rest := Put(fs[1..], k, v);
      PutCons(fs, k, v, rest);
      [fs[0]] + rest
  }

  /** `Put` on an object whose first key is not `k` keeps that first field. */
  lemma PutCons(fs: Fields, k: string, v: JValue, rest: Fields)
    requires |fs| > 0 && fs[0].0 != k
    requires k in KeysOf(fs[1..]) ==> KeysOf(rest) == KeysOf(fs[1..])
    requires k !in KeysOf(fs[1..]) ==> KeysOf(rest) == KeysOf(fs[1..]) + [k]
    requires Lookup(rest, k) == Some(v)
    requires forall k' :: k' != k ==> Lookup(rest, k') == Lookup(fs[1..], k')
    ensures k in KeysOf(fs) ==> KeysOf([fs[0]] + rest) == KeysOf(fs)
    ensures k !in KeysOf(fs) ==> KeysOf([fs[0]] + rest) == KeysOf(fs) + [k]
    ensures Lookup([fs[0]] + rest, k) == Some(v)
    ensures forall k' :: k' != k ==> Lookup([fs[0]] + rest, k') == Lookup(fs, k')
  {
    PutConsKeys(fs, k, rest);
    forall k' ensures Lookup([fs[0]] + rest, k') == if fs[0].0 == k' then Some(fs[0].1) else Lookup(rest, k') {
      LookupCons(fs[0], rest, k');
    }
  }

  lemma PutConsKeys(fs: Fields, k: string, rest: Fields)
    requires |fs| > 0 && fs[0].0 != k
    requires k in KeysOf(fs[1..]) ==> KeysOf(rest) == KeysOf(fs[1..])
    requires k !in KeysOf(fs[1..]) ==> KeysOf(rest) == KeysOf(fs[1..]) + [k]
    ensures k in KeysOf(fs) ==> KeysOf([fs[0]] + rest) == KeysOf(fs)
    ensures k !in KeysOf(fs) ==> KeysOf([fs[0]] + rest) == KeysOf(fs) + [k]
  {
    var ks := KeysOf(fs[1..]);
    assert KeysOf(fs) == [fs[0].0] + ks;
    KeysOfCons(fs[0], rest);
    if k !in ks {
      assert [fs[0].0] + (ks + [k]) == ([fs[0].0] + ks) + [k];
    }
  }

  lemma KeysOfCons(f: (string, JValue), fs: Fields)
    ensures KeysOf([f] + fs) == [f.0] + KeysOf(fs)
  {
    assert ([f] + fs)[1..] == fs;
  }

  lemma LookupCons(f: (string, JValue), fs: Fields, x: string)
    ensures Lookup([f] + fs, x) == if f.0 == x then Some(f.1) else Lookup(fs, x)
  {
    assert ([f] + fs)[1..] == fs;
  }

  /** `delete obj[k]`. */
  function Remove(fs: Fields, k: string): (r: Fields)
    ensures k !in KeysOf(r)
    ensures forall k' :: k' != k ==> Lookup(r, k') == Lookup(fs, k')
    ensures forall k' :: k' in KeysOf(r) <==> k' in KeysOf(fs) && k' != k
  {
    if |fs| == 0 then []
    else if fs[0].0 == k then Remove(fs[1..], k)
    else [fs[0]] + Remove(fs[1..], k)
  }

  lemma PutKeepsDistinct(fs: Fields, k: string, v: JValue)
    requires DistinctKeys(fs)
    ensures DistinctKeys(Put(fs, k, v))
  {
    var r := Put(fs, k, v);
    var ks := KeysOf(r);
    if k in KeysOf(fs) {
      forall i, j | 0 <= i < j < |r| ensures r[i].0 != r[j].0 {
        assert ks[i] == KeysOf(fs)[i] && ks[j] == KeysOf(fs)[j];
      }
    } else {
      forall i, j | 0 <= i < j < |r| ensures r[i].0 != r[j].0 {
        assert ks[i] == (KeysOf(fs) + [k])[i] && ks[j] == (KeysOf(fs) + [k])[j];
      }
    }
  }

  /** Every field after `obj[k] = v` was already there or is the new one. */
  lemma {:induction false} PutFrom(fs: Fields, k: string, v: JValue, f: (string, JValue))
    requires f in Put(fs, k, v)
    ensures f in fs || f == (k, v)
  {
    if |fs| > 0 && fs[0].0 != k && f != fs[0] {
      PutFrom(fs[1..], k, v, f);
    }
  }

  /** Every field after `delete obj[k]` was already there. */
  lemma {:induction false} RemoveFrom(fs: Fields, k: string, f: (string, JValue))
    requires f in Remove(fs, k)
    ensures f in fs
  {
    if |fs| > 0 && (fs[0].0 == k || f != fs[0]) {
      RemoveFrom(fs[1..], k, f);
    }
  }

  lemma {:induction false} RemoveKeepsDistinct(fs: Fields, k: string)
    requires DistinctKeys(fs)
    ensures DistinctKeys(Remove(fs, k))
  {
    if |fs| > 0 {
      RemoveKeepsDistinct(fs[1..], k);
      if fs[0].0 != k {
        var r := Remove(fs[1..], k);
        assert fs[0].0 !in KeysOf(fs[1..]);
        forall i | 0 <= i < |r| ensures r[i].0 != fs[0].0 {
          assert KeysOf(r)[i] == r[i].0;
        }
      }
    }
  }

  /** In an object with distinct keys, the field at position `i` is what `Lookup` finds. */
  lemma LookupAt(fs: Fields, i: int)
    requires DistinctKeys(fs) && 0 <= i < |fs|
    ensures Lookup(fs, fs[i].0) == Some(fs[i].1)
  {
    if i > 0 {
      LookupAt(fs[1..], i - 1);
    }
  }

  /** A second assignment to the same key overrides the first. */
  lemma PutPut(fs: Fields, k: string, a: JValue, b: JValue)
    ensures Put(Put(fs, k, a), k, b) == Put(fs, k, b)
  {
    if |fs| > 0 && fs[0].0 != k {
      PutPut(fs[1..], k, a, b);
    }
  }

  /** Overwriting an existing key of an object with distinct keys changes that one field. */
  lemma PutExisting(fs: Fields, k: string, v: JValue)
    requires DistinctKeys(fs) && k in KeysOf(fs)
    ensures |Put(fs, k, v)| == |fs|
    ensures forall i :: 0 <= i < |fs| ==> Put(fs, k, v)[i] == if fs[i].0 == k then (k, v) else fs[i]
  {
    var at := KeyIndex(fs, k);
    forall i | 0 <= i < |fs| ensures Put(fs, k, v)[i] == if fs[i].0 == k then (k, v) else fs[i] {
      PutExistingAt(fs, k, v, i);
      assert fs[i].0 == k <==> i == at;
    }
  }

  /** `obj[k] = v` on an existing key replaces the field at its first position. */
  lemma {:induction false} PutExistingAt(fs: Fields, k: string, v: JValue, i: int)
    requires k in KeysOf(fs) && 0 <= i < |fs|
    ensures |Put(fs, k, v)| == |fs|
    ensures Put(fs, k, v)[i] == if i == KeyIndex(fs, k) then (k, v) else fs[i]
  {
    if fs[0].0 != k {
      assert k in KeysOf(fs[1..]) by {
        assert KeysOf(fs) == [fs[0].0] + KeysOf(fs[1..]);
      }
      if i > 0 {
        PutExistingAt(fs[1..], k, v, i - 1);
      }
    }
  }

  /** A field of a well-formed object is well formed. */
  lemma WellFormedProp(v: JValue, k: string)
    requires WellFormed(v)
    ensures WellFormed(Prop(v, k))
  {
    if v.JObj? && k in KeysOf(v.fields) {
      var i :| 0 <= i < |v.fields| && v.fields[i].0 == k;
      LookupAt(v.fields, i);
    }
  }

  /** Assigning `obj[k] = v` for each entry in turn. */
  function PutAll(acc: Fields, es: Fields): (r: Fields)
  {
    if |es| == 0 then acc else Put(PutAll(acc, es[..|es| - 1]), es[|es| - 1].0, es[|es| - 1].1)
  }

  /** The value of the last entry with key `k`. */
  function LastLookup(es: Fields, k: string): (r: Option<JValue>)
    ensures r.Some? <==> k in KeysOf(es)
    ensures r.Some? ==> (k, r.value) in es
  {
    if |es| == 0 then None
    else if es[|es| - 1].0 == k then Some(es[|es| - 1].1)
    else
      KeysOfInit(es);
      LastLookup(es[..|es| - 1], k)
  }

  lemma KeysOfInit(es: Fields)
    requires |es| > 0
    ensures KeysOf(es) == KeysOf(es[..|es| - 1]) + [es[|es| - 1].0]
  {
    var a := KeysOf(es);
    var b := KeysOf(es[..|es| - 1]) + [es[|es| - 1].0];
    assert |a| == |b|;
    forall i | 0 <= i < |a| ensures a[i] == b[i] {
      if i < |es| - 1 {
        assert b[i] == KeysOf(es[..|es| - 1])[i] == es[..|es| - 1][i].0;
      }
    }
  }

  /** After the assignments, a key holds the last value assigned to it. */
  lemma {:induction false} PutAllLookup(acc: Fields, es: Fields, k: string)
    ensures Lookup(PutAll(acc, es), k) == match LastLookup(es, k) case Some(v) => Some(v) case None => Lookup(acc, k)
  {
    if |es| > 0 {
      PutAllLookup(acc, es[..|es| - 1], k);
    }
  }

  lemma {:induction false} PutAllKeys(acc: Fields, es: Fields, k: string)
    ensures k in KeysOf(PutAll(acc, es)) <==> k in KeysOf(acc) || k in KeysOf(es)
  {
    PutAllLookup(acc, es, k);
  }

  lemma {:induction false} PutAllDistinct(acc: Fields, es: Fields)
    requires DistinctKeys(acc)
    ensures DistinctKeys(PutAll(acc, es))
  {
    if |es| > 0 {
      PutAllDistinct(acc, es[..|es| - 1]);
      PutKeepsDistinct(PutAll(acc, es[..|es| - 1]), es[|es| - 1].0, es[|es| - 1].1);
    }
  }

  lemma PutNewKey(fs: Fields, k: string, v: JValue)
    requires k !in KeysOf(fs)
    ensures Put(fs, k, v) == fs + [(k, v)]
  {
    var r := Put(fs, k, v);
    forall i | 0 <= i <= |fs| ensures r[i] == (fs + [(k, v)])[i] {
      PutNewKeyAt(fs, k, v, i);
    }
  }

  lemma {:induction false} PutNewKeyAt(fs: Fields, k: string, v: JValue, i: int)
    requires k !in KeysOf(fs) && 0 <= i <= |fs|
    ensures |Put(fs, k, v)| == |fs| + 1
    ensures Put(fs, k, v)[i] == (fs + [(k, v)])[i]
  {
    if |fs| > 0 {
      assert k != fs[0].0 && k !in KeysOf(fs[1..]) by {
        assert KeysOf(fs) == [fs[0].0] + KeysOf(fs[1..]);
      }
      if i > 0 {
        PutNewKeyAt(fs[1..], k, v, i - 1);
      }
    }
  }

  /** Assigning distinct keys into an object that lacks them appends them in order. */
  lemma {:induction false} PutAllAppends(acc: Fields, es: Fields)
    requires DistinctKeys(acc + es)
    ensures PutAll(acc, es) == acc + es
  {
    if |es| > 0 {
      var n := |es| - 1;
      assert acc + es == (acc + es[..n]) + [es[n]];
      assert DistinctKeys(acc + es[..n]) by {
        forall i, j | 0 <= i < j < |acc + es[..n]| ensures (acc + es[..n])[i].0 != (acc + es[..n])[j].0 {
          assert (acc + es[..n])[i] == (acc + es)[i] && (acc + es[..n])[j] == (acc + es)[j];
        }
      }
      PutAllAppends(acc, es[..n]);
      forall i | 0 <= i < |acc + es[..n]| ensures KeysOf(acc + es[..n])[i] != es[n].0 {
        assert (acc + es[..n])[i] == (acc + es)[i] && es[n] == (acc + es)[|acc| + n];
      }
      PutNewKey(acc + es[..n], es[n].0, es[n].1);
    }
  }

  /** Every field of an object built by assignments from empty is one of the assigned entries. */
  lemma PutAllFrom(es: Fields, i: int)
    requires 0 <= i < |PutAll([], es)|
    ensures PutAll([], es)[i] in es
  {
    var r := PutAll([], es);
    PutAllDistinct([], es);
    LookupAt(r, i);
    PutAllLookup([], es, r[i].0);
  }

  /** Some element of `xs` satisfies `p` exactly when some element before the last one does, or the last one does. */
  lemma ExistsSplit<T>(xs: seq<T>, prev: seq<T>, p: T -> bool)
    requires |xs| > 0 && prev == xs[..|xs| - 1]
    ensures (exists i :: 0 <= i < |xs| && p(xs[i])) <==> (exists i :: 0 <= i < |prev| && p(prev[i])) || p(xs[|xs| - 1])
  {
    if exists i :: 0 <= i < |xs| && p(xs[i]) {
      var i :| 0 <= i < |xs| && p(xs[i]);
      if i < |prev| {
        assert prev[i] == xs[i];
      }
    }
    if exists i :: 0 <= i < |prev| && p(prev[i]) {
      var i :| 0 <= i < |prev| && p(prev[i]);
      assert prev[i] == xs[i];
    }
  }

  /** JavaScript `obj[k]` on any value: objects answer from their own keys, the rest give `undefined`. */
  function Prop(v: JValue, k: string): (r: JValue)
    ensures v.JObj? && k in KeysOf(v.fields) ==> r < v
    ensures !(v.JObj? && k in KeysOf(v.fields)) ==> r == JUndefined
  {
    match v
    case JObj(fs) =>
      (match Lookup(fs, k)
       case Some(x) => x
       case None => JUndefined)
    case _ => JUndefined
  }

  /** JavaScript truthiness. */
  predicate Truthy(v: JValue)
  {
    match v
    case JUndefined => false
    case JNull => false
    case JBool(b) => b
    case JNum(n) => n != 0.0
    case JStr(s) => s != ""
    case _ => true
  }

  /** `v == null`: reading a property of it raises a TypeError. */
  predicate NullOrUndefined(v: JValue)
  {
    v.JNull? || v.JUndefined?
  }

  /** `typeof v === 'object'` (which includes `null`). */
  predicate TypeofObject(v: JValue)
  {
    v.JNull? || v.JArr? || v.JObj? || v.JStream?
  }

  /** `schema.type === t`. */
  predicate IsType(schema: JValue, t: string)
  {
    Prop(schema, "type") == JStr(t)
  }

  /** How many keys `for (p in v) if (v.hasOwnProperty(p))` visits. */
  function OwnKeyCount(v: JValue): (n: nat)
    ensures n > 0 ==> Truthy(v)
  {
    match v
    case JObj(fs) => |fs|
    case JArr(es) => |es|
    case JStr(s) => |s|
    case _ => 0
  }

  /** Every object inside `v` has distinct keys, as JavaScript objects always do. */
  predicate WellFormed(v: JValue)
  {
    match v
    case JArr(es) => forall i :: 0 <= i < |es| ==> WellFormed(es[i])
    case JObj(fs) => DistinctKeys(fs) && forall i :: 0 <= i < |fs| ==> WellFormed(fs[i].1)
    case _ => true
  }

  /** A field value of a well-formed object is well formed. */
  lemma WellFormedField(fs: Fields, f: (string, JValue))
    requires WellFormed(JObj(fs)) && f in fs
    ensures WellFormed(f.1)
  {
    var i :| 0 <= i < |fs| && fs[i] == f;
  }

  /** Assigning a well-formed value keeps an object well formed. */
  lemma PutKeepsWellFormed(fs: Fields, k: string, v: JValue)
    requires WellFormed(JObj(fs)) && WellFormed(v)
    ensures WellFormed(JObj(Put(fs, k, v)))
  {
    PutKeepsDistinct(fs, k, v);
    var r := Put(fs, k, v);
    forall i | 0 <= i < |r| ensures WellFormed(r[i].1) {
      PutFrom(fs, k, v, r[i]);
      if r[i] != (k, v) {
        WellFormedField(fs, r[i]);
      }
    }
  }

  /** Deleting a key keeps an object well formed. */
  lemma RemoveKeepsWellFormed(fs: Fields, k: string)
    requires WellFormed(JObj(fs))
    ensures WellFormed(JObj(Remove(fs, k)))
  {
    RemoveKeepsDistinct(fs, k);
    var r := Remove(fs, k);
    forall i | 0 <= i < |r| ensures WellFormed(r[i].1) {
      RemoveFrom(fs, k, r[i]);
      WellFormedField(fs, r[i]);
    }
  }
}
