/**
  `convertArraysInQueryString` (lib/RouteSchemaManager.js): a query key
  written `name[i]` moves its value to index `i` of an array under `name`.

  The keys are visited in the order they had when the conversion started;
  a key deleted by an earlier step is skipped, as the own-property test in
  the source skips it.
 */
module QueryArrays {
  import opened Json
  import opened JsString

  /** The regular expression `/\[\d+\]$/`: `[`, one or more digits and `]` end the key. */
  predicate MatchesArraySyntax(prop: string)
  {
    exists p :: 0 <= p < |prop| && prop[p] == '[' && p + 2 < |prop| && prop[|prop| - 1] == ']'
      && AllDigits(prop[p + 1..|prop| - 1])
  }

  /**
    For a key matching the regular expression: the text before its last `[`
    (`newProp`) and the number between that `[` and the last `]` (`idx`).
   */
  function ArrayKey(prop: string): (r: Option<(string, nat)>)
    ensures r.Some? ==> |r.value.0| + 3 <= |prop| && prop[..|r.value.0|] == r.value.0
    ensures r.Some? ==> r.value.0 != prop
  {
    var l := LastIndexOf(prop, '[');
    if l >= 0 && l + 2 < |prop| && prop[|prop| - 1] == ']' && AllDigits(prop[l + 1..|prop| - 1]) then
      var newProp := prop[..l];
      assert |newProp| == l && prop[..|newProp|] == newProp;
      Some((newProp, DigitsValue(prop[l + 1..|prop| - 1])))
    else None
  }

  /**
    A split key is `name`, then its last `[`, then the digits of the index,
    then a final `]`.
   */
  lemma ArrayKeyParts(prop: string)
    requires ArrayKey(prop).Some?
    ensures var (name, idx) := ArrayKey(prop).value; var n := |name|;
      && prop[..n] == name && prop[n] == '[' && (forall m :: n < m < |prop| ==> prop[m] != '[')
      && prop[|prop| - 1] == ']' && AllDigits(prop[n + 1..|prop| - 1])
      && idx == DigitsValue(prop[n + 1..|prop| - 1])
  {
    var l := LastIndexOf(prop, '[');
    assert |ArrayKey(prop).value.0| == l;
  }

  /** The key `name[i]`, with `i` spelt in decimal, splits back into `name` and `i`. */
  lemma ArrayKeyOfIndexKey(name: string, i: nat)
    ensures ArrayKey(name + "[" + NatToString(i) + "]") == Some((name, i))
  {
    var d := NatToString(i);
    var prop := name + "[" + d + "]";
    var l := LastIndexOf(prop, '[');
    assert prop[|name|] == '[';
    forall m | |name| < m < |prop| ensures prop[m] != '[' {
      if m < |prop| - 1 {
        assert prop[m] == d[m - |name| - 1];
        assert IsDigit(d[m - |name| - 1]);
      }
    }
    assert l == |name|;
    assert prop[l + 1..|prop| - 1] == d;
    assert prop[..l] == name;
  }

  /** `ArrayKey` recognises exactly the keys the regular expression accepts. */
  lemma ArrayKeyIsRegex(prop: string)
    ensures ArrayKey(prop).Some? <==> MatchesArraySyntax(prop)
  {
    var l := LastIndexOf(prop, '[');
    if MatchesArraySyntax(prop) {
      var p :| 0 <= p < |prop| && prop[p] == '[' && p + 2 < |prop| && prop[|prop| - 1] == ']'
        && AllDigits(prop[p + 1..|prop| - 1]);
      assert l >= p;
    }
  }

  /** The decimal spelling of a natural number, as JavaScript converts an index to a key. */
  function NatToString(n: nat): (s: string)
    ensures |s| >= 1 && AllDigits(s)
    ensures DigitsValue(s) == n
  {
    if n < 10 then [('0' as int + n) as char]
    else
      var prefix := NatToString(n / 10);
      var s := prefix + [('0' as int + n % 10) as char];
      assert s[..|s| - 1] == prefix;
      s
  }

  /** Different indices get different keys. */
  lemma NatToStringInjective(m: nat, n: nat)
    requires NatToString(m) == NatToString(n)
    ensures m == n
  {
  }

  /** `[]` holes (read as `undefined`). */
  function Holes(n: nat): (r: seq<JValue>)
    ensures |r| == n && forall i :: 0 <= i < n ==> r[i] == JUndefined
  {
    seq(n, _ => JUndefined)
  }

  /**
    `container[idx] = v`. An array grows to `idx + 1` elements with holes in
    between; an object gets the key `"idx"`; a truthy primitive ignores the
    assignment, as sloppy-mode JavaScript does.
   */
  function SetIndex(container: JValue, idx: nat, v: JValue): (r: JValue)
    ensures container.JArr? ==>
      && r.JArr?
      && |r.elems| == (if idx < |container.elems| then |container.elems| else idx + 1)
      && r.elems[idx] == v
      && (forall j :: 0 <= j < |container.elems| && j != idx ==> r.elems[j] == container.elems[j])
      && (forall j :: |container.elems| <= j < |r.elems| && j != idx ==> r.elems[j] == JUndefined)
    ensures container.JObj? ==>
      && r.JObj? && Lookup(r.fields, NatToString(idx)) == Some(v)
      && (forall k :: k != NatToString(idx) ==> Lookup(r.fields, k) == Lookup(container.fields, k))
    ensures !container.JArr? && !container.JObj? ==> r == container
  {
    match container
    case JArr(es) =>
      if idx < |es| then JArr(es[idx := v]) else JArr(es + Holes(idx - |es|) + [v])
    case JObj(fs) => JObj(Put(fs, NatToString(idx), v))
    case _ => container
  }

  /** `queryObj[newProp]` when truthy, otherwise a fresh `[]`. */
  function ArrayContainer(fs: Fields, name: string): JValue
  {
    var existing := Lookup(fs, name);
    if existing.Some? && Truthy(existing.value) then existing.value else JArr([])
  }

  /** The loop body for one key `prop` of the query object. */
  function Step(fs: Fields, prop: string): Fields
  {
    if prop !in KeysOf(fs) || ArrayKey(prop).None? then fs
    else
      var name := ArrayKey(prop).value.0;
      var idx := ArrayKey(prop).value.1;
      Remove(Put(fs, name, SetIndex(ArrayContainer(fs, name), idx, Lookup(fs, prop).value)), prop)
  }

  /** The loop over the keys `keys`, in order. */
  function Normalize(fs: Fields, keys: seq<string>): Fields
    decreases |keys|
  {
    if |keys| == 0 then fs else Normalize(Step(fs, keys[0]), keys[1..])
  }

  /** The query object after `convertArraysInQueryString`; a non-object has no bracketed key. */
  function NormalizeQuery(query: JValue): JValue
  {
    match query
    case JObj(fs) => JObj(Normalize(fs, KeysOf(fs)))
    case _ => query
  }

  /** `convertArraysInQueryString(queryObj)`. */
  method ConvertArraysInQueryString(query: JValue) returns (r: JValue)
    ensures r == NormalizeQuery(query)
  {
    if !query.JObj? {
      return query;
    }
    var keys := KeysOf(query.fields);
    var fs := query.fields;
    var j := 0;
    while j < |keys|
      invariant 0 <= j <= |keys|
      invariant Normalize(fs, keys[j..]) == Normalize(query.fields, keys)
    {
      var prop := keys[j];
      if prop in KeysOf(fs) {
        var ak := ArrayKey(prop);
        if ak.Some? {
          var name := ak.value.0;
          var idx := ak.value.1;
          var existing := Lookup(fs, name);
          var container := if existing.Some? && Truthy(existing.value) then existing.value else JArr([]);
          StepInPlace(fs, prop);
          fs := Put(fs, name, container);
          container := SetIndex(container, idx, Lookup(fs, prop).value);
          fs := Put(fs, name, container);
          fs := Remove(fs, prop);
        }
      }
      assert keys[j..][1..] == keys[j + 1..];
      j := j + 1;
    }
    return JObj(fs);
  }

  /** The source's three in-place updates for a bracketed key amount to `Step`. */
  lemma StepInPlace(fs: Fields, prop: string)
    requires prop in KeysOf(fs) && ArrayKey(prop).Some?
    ensures var name := ArrayKey(prop).value.0;
      var container := ArrayContainer(fs, name);
      var fs1 := Put(fs, name, container);
      Remove(Put(fs1, name, SetIndex(container, ArrayKey(prop).value.1, Lookup(fs1, prop).value)), prop) == Step(fs, prop)
  {
    var name := ArrayKey(prop).value.0;
    var container := ArrayContainer(fs, name);
    var fs1 := Put(fs, name, container);
    assert Lookup(fs1, prop) == Lookup(fs, prop);
    PutPut(fs, name, container, SetIndex(container, ArrayKey(prop).value.1, Lookup(fs, prop).value));
  }

  /** The step for `name[idx]` stores its value at slot `idx` of the array under `name`. */
  lemma StepFills(fs: Fields, prop: string)
    requires prop in KeysOf(fs) && ArrayKey(prop).Some?
    requires var name := ArrayKey(prop).value.0; Lookup(fs, name).None? || Lookup(fs, name).value.JArr?
    ensures var name := ArrayKey(prop).value.0;
      var idx := ArrayKey(prop).value.1;
      var r := Lookup(Step(fs, prop), name);
      r.Some? && r.value.JArr? && idx < |r.value.elems| && r.value.elems[idx] == Lookup(fs, prop).value
  {
    var name := ArrayKey(prop).value.0;
    var idx := ArrayKey(prop).value.1;
    var s := SetIndex(ArrayContainer(fs, name), idx, Lookup(fs, prop).value);
    assert ArrayContainer(fs, name).JArr?;
    assert s.JArr? && idx < |s.elems| && s.elems[idx] == Lookup(fs, prop).value;
    var put := Put(fs, name, s);
    assert Lookup(put, name) == Some(s);
    assert name != prop;
    assert Lookup(Remove(put, prop), name) == Some(s);
  }

  /** After its own step, a bracketed key is no longer there. */
  lemma StepRemoves(fs: Fields, prop: string)
    requires ArrayKey(prop).Some?
    ensures prop !in KeysOf(Step(fs, prop))
  {
  }

  /** Running the loop over `a + b` is running it over `a` and then over `b`. */
  lemma {:induction false} NormalizeAppend(fs: Fields, a: seq<string>, b: seq<string>)
    ensures Normalize(fs, a + b) == Normalize(Normalize(fs, a), b)
    decreases |a|
  {
    if |a| > 0 {
      assert (a + b)[1..] == a[1..] + b;
      NormalizeAppend(Step(fs, a[0]), a[1..], b);
    } else {
      assert a + b == b;
    }
  }

  /**
    A key that no step deletes or writes keeps its value: it is not itself a
    bracketed key among `keys`, nor the prefix of one.
   */
  lemma {:induction false} Untouched(fs: Fields, keys: seq<string>, x: string)
    requires forall k :: k in keys && ArrayKey(k).Some? ==> k != x && ArrayKey(k).value.0 != x
    ensures Lookup(Normalize(fs, keys), x) == Lookup(fs, x)
    decreases |keys|
  {
    if |keys| > 0 {
      Untouched(Step(fs, keys[0]), keys[1..], x);
    }
  }

  /** A key absent now stays absent if no later step's prefix names it. */
  lemma {:induction false} StaysAbsent(fs: Fields, keys: seq<string>, x: string)
    requires x !in KeysOf(fs)
    requires forall k :: k in keys && ArrayKey(k).Some? ==> ArrayKey(k).value.0 != x
    ensures x !in KeysOf(Normalize(fs, keys))
    decreases |keys|
  {
    if |keys| > 0 {
      StaysAbsent(Step(fs, keys[0]), keys[1..], x);
    }
  }

  /** Under a prefix that is absent or holds an array, every step keeps it absent or an array. */
  lemma {:induction false} StaysArrayOrAbsent(fs: Fields, keys: seq<string>, name: string)
    requires Lookup(fs, name).None? || Lookup(fs, name).value.JArr?
    requires forall k :: k in keys && ArrayKey(k).Some? ==> k != name
    ensures Lookup(Normalize(fs, keys), name).None? || Lookup(Normalize(fs, keys), name).value.JArr?
    decreases |keys|
  {
    if |keys| > 0 {
      StepKeepsArrayOrAbsent(fs, keys[0], name);
      StaysArrayOrAbsent(Step(fs, keys[0]), keys[1..], name);
    }
  }

  /** One step of `StaysArrayOrAbsent`. */
  lemma StepKeepsArrayOrAbsent(fs: Fields, prop: string, name: string)
    requires Lookup(fs, name).None? || Lookup(fs, name).value.JArr?
    requires ArrayKey(prop).Some? ==> prop != name
    ensures Lookup(Step(fs, prop), name).None? || Lookup(Step(fs, prop), name).value.JArr?
  {
    if prop in KeysOf(fs) && ArrayKey(prop).Some? {
      var n := ArrayKey(prop).value.0;
      var s := SetIndex(ArrayContainer(fs, n), ArrayKey(prop).value.1, Lookup(fs, prop).value);
      var put := Put(fs, n, s);
      if n == name {
        assert ArrayContainer(fs, n).JArr?;
        assert Lookup(put, name) == Some(s);
      } else {
        assert Lookup(put, name) == Lookup(fs, name);
      }
      assert Lookup(Remove(put, prop), name) == Lookup(put, name);
    }
  }

  /** An array slot filled earlier keeps its value while no later key writes the same slot. */
  lemma {:induction false} SlotKept(fs: Fields, keys: seq<string>, name: string, idx: nat, v: JValue)
    requires Lookup(fs, name).Some? && Lookup(fs, name).value.JArr?
    requires idx < |Lookup(fs, name).value.elems| && Lookup(fs, name).value.elems[idx] == v
    requires forall k :: k in keys && ArrayKey(k).Some? ==> k != name && ArrayKey(k).value != (name, idx)
    ensures var r := Lookup(Normalize(fs, keys), name);
      r.Some? && r.value.JArr? && idx < |r.value.elems| && r.value.elems[idx] == v
    decreases |keys|
  {
    if |keys| > 0 {
      StepKeepsSlot(fs, keys[0], name, idx, v);
      SlotKept(Step(fs, keys[0]), keys[1..], name, idx, v);
    }
  }

  /** One step of `SlotKept`. */
  lemma StepKeepsSlot(fs: Fields, prop: string, name: string, idx: nat, v: JValue)
    requires Lookup(fs, name).Some? && Lookup(fs, name).value.JArr?
    requires idx < |Lookup(fs, name).value.elems| && Lookup(fs, name).value.elems[idx] == v
    requires ArrayKey(prop).Some? ==> prop != name && ArrayKey(prop).value != (name, idx)
    ensures var r := Lookup(Step(fs, prop), name);
      r.Some? && r.value.JArr? && idx < |r.value.elems| && r.value.elems[idx] == v
  {
    if prop in KeysOf(fs) && ArrayKey(prop).Some? {
      var n := ArrayKey(prop).value.0;
      var s := SetIndex(ArrayContainer(fs, n), ArrayKey(prop).value.1, Lookup(fs, prop).value);
      var put := Put(fs, n, s);
      if n == name {
        assert ArrayContainer(fs, n) == Lookup(fs, name).value;
        assert ArrayKey(prop).value.1 != idx;
        assert s.JArr? && idx < |s.elems| && s.elems[idx] == v;
        assert Lookup(put, name) == Some(s);
      } else {
        assert Lookup(put, name) == Lookup(fs, name);
      }
      assert Lookup(Remove(put, prop), name) == Lookup(put, name);
    }
  }

  /**
    A well-behaved query: distinct keys, no prefix `name` of a bracketed key
    is itself a key, and no two keys address the same slot.
   */
  predicate SimpleQuery(fs: Fields)
  {
    && DistinctKeys(fs)
    && (forall i :: 0 <= i < |fs| && ArrayKey(fs[i].0).Some? ==> ArrayKey(fs[i].0).value.0 !in KeysOf(fs))
    && (forall i, j :: 0 <= i < j < |fs| && ArrayKey(fs[i].0).Some? ==> ArrayKey(fs[i].0) != ArrayKey(fs[j].0))
  }

  /** The loop splits around the step for `keys[p]`. */
  lemma SplitAt(fs: Fields, keys: seq<string>, p: int)
    requires 0 <= p < |keys|
    ensures Normalize(fs, keys) == Normalize(Step(Normalize(fs, keys[..p]), keys[p]), keys[p + 1..])
  {
    assert keys == keys[..p] + ([keys[p]] + keys[p + 1..]);
    NormalizeAppend(fs, keys[..p], [keys[p]] + keys[p + 1..]);
    assert ([keys[p]] + keys[p + 1..])[1..] == keys[p + 1..];
  }

  /** Keys before position `p` of a well-behaved query neither are nor name the key at `p` or its prefix. */
  lemma EarlierKeys(fs: Fields, p: int)
    requires SimpleQuery(fs) && 0 <= p < |fs|
    ensures forall q :: q in KeysOf(fs)[..p] && ArrayKey(q).Some? ==>
      q != fs[p].0 && ArrayKey(q).value.0 != fs[p].0
      && (ArrayKey(fs[p].0).Some? ==> q != ArrayKey(fs[p].0).value.0)
  {
    var keys := KeysOf(fs);
    forall q | q in keys[..p] && ArrayKey(q).Some?
      ensures q != fs[p].0 && ArrayKey(q).value.0 != fs[p].0
      ensures ArrayKey(fs[p].0).Some? ==> q != ArrayKey(fs[p].0).value.0
    {
      var i :| 0 <= i < p && keys[..p][i] == q;
      assert fs[i].0 == q;
    }
  }

  /** Keys after position `p` of a well-behaved query address other slots than the key at `p`. */
  lemma LaterKeys(fs: Fields, p: int)
    requires SimpleQuery(fs) && 0 <= p < |fs| && ArrayKey(fs[p].0).Some?
    ensures forall q :: q in KeysOf(fs)[p + 1..] && ArrayKey(q).Some? ==>
      q != ArrayKey(fs[p].0).value.0 && ArrayKey(q).value != ArrayKey(fs[p].0).value
  {
    var keys := KeysOf(fs);
    forall q | q in keys[p + 1..] && ArrayKey(q).Some?
      ensures q != ArrayKey(fs[p].0).value.0 && ArrayKey(q).value != ArrayKey(fs[p].0).value
    {
      var i := LaterKeyAt(fs, p, q);
    }
  }

  /** A key after position `p` is the key of some later field. */
  lemma LaterKeyAt(fs: Fields, p: int, q: string) returns (i: int)
    requires 0 <= p < |fs| && q in KeysOf(fs)[p + 1..]
    ensures p < i < |fs| && fs[i].0 == q
  {
    var keys := KeysOf(fs);
    var m :| 0 <= m < |keys| - p - 1 && keys[p + 1..][m] == q;
    i := p + 1 + m;
  }

  /**
    In a well-behaved query, the value of each `name[i]` key ends up at
    index `i` of the array under `name`.
   */
  lemma Collected(fs: Fields, p: int)
    requires SimpleQuery(fs) && 0 <= p < |fs| && ArrayKey(fs[p].0).Some?
    ensures var (name, idx) := ArrayKey(fs[p].0).value;
      var r := Lookup(Normalize(fs, KeysOf(fs)), name);
      r.Some? && r.value.JArr? && idx < |r.value.elems| && r.value.elems[idx] == fs[p].1
  {
    var keys := KeysOf(fs);
    var (name, idx) := ArrayKey(fs[p].0).value;
    var k := fs[p].0;
    SplitAt(fs, keys, p);
    var cur := Normalize(fs, keys[..p]);
    EarlierKeys(fs, p);
    Untouched(fs, keys[..p], k);
    LookupAt(fs, p);
    StaysArrayOrAbsent(fs, keys[..p], name);
    LaterKeys(fs, p);
    StepFills(cur, k);
    SlotKept(Step(cur, k), keys[p + 1..], name, idx, fs[p].1);
  }

  /** A key without the `[digits]` ending, and not the prefix of such a key, keeps its value (e.g. `array[fnord]`). */
  lemma OtherKeysUnchanged(fs: Fields, x: string)
    requires ArrayKey(x).None?
    requires forall i :: 0 <= i < |fs| && ArrayKey(fs[i].0).Some? ==> ArrayKey(fs[i].0).value.0 != x
    ensures Lookup(Normalize(fs, KeysOf(fs)), x) == Lookup(fs, x)
  {
    Untouched(fs, KeysOf(fs), x);
  }

  /** A bracketed key is gone afterwards, unless it is itself the prefix of some key. */
  lemma BracketedKeyRemoved(fs: Fields, p: int)
    requires 0 <= p < |fs| && ArrayKey(fs[p].0).Some?
    requires forall i :: 0 <= i < |fs| && ArrayKey(fs[i].0).Some? ==> ArrayKey(fs[i].0).value.0 != fs[p].0
    ensures fs[p].0 !in KeysOf(Normalize(fs, KeysOf(fs)))
  {
    var keys := KeysOf(fs);
    var k := fs[p].0;
    SplitAt(fs, keys, p);
    forall q | q in keys[p + 1..] && ArrayKey(q).Some? ensures ArrayKey(q).value.0 != k {
      var i := LaterKeyAt(fs, p, q);
    }
    StepRemoves(Normalize(fs, keys[..p]), k);
    StaysAbsent(Step(Normalize(fs, keys[..p]), k), keys[p + 1..], k);
  }

  /** Storing a well-formed value into a well-formed container keeps it well formed. */
  lemma SetIndexKeepsWellFormed(container: JValue, idx: nat, v: JValue)
    requires WellFormed(container) && WellFormed(v)
    ensures WellFormed(SetIndex(container, idx, v))
  {
    if container.JObj? {
      PutKeepsWellFormed(container.fields, NatToString(idx), v);
    }
  }

  lemma StepKeepsWellFormed(fs: Fields, prop: string)
    requires WellFormed(JObj(fs))
    ensures WellFormed(JObj(Step(fs, prop)))
  {
    if prop in KeysOf(fs) && ArrayKey(prop).Some? {
      var name := ArrayKey(prop).value.0;
      var v := Lookup(fs, prop).value;
      var existing := Lookup(fs, name);
      if existing.Some? {
        WellFormedField(fs, (name, existing.value));
      }
      WellFormedField(fs, (prop, v));
      var s := SetIndex(ArrayContainer(fs, name), ArrayKey(prop).value.1, v);
      SetIndexKeepsWellFormed(ArrayContainer(fs, name), ArrayKey(prop).value.1, v);
      PutKeepsWellFormed(fs, name, s);
      RemoveKeepsWellFormed(Put(fs, name, s), prop);
    }
  }

  /** The conversion keeps a well-formed query well formed, so its coercion may follow. */
  lemma {:induction false} NormalizeKeepsWellFormed(fs: Fields, keys: seq<string>)
    requires WellFormed(JObj(fs))
    ensures WellFormed(JObj(Normalize(fs, keys)))
    decreases |keys|
  {
    if |keys| > 0 {
      StepKeepsWellFormed(fs, keys[0]);
      NormalizeKeepsWellFormed(Step(fs, keys[0]), keys[1..]);
    }
  }

  /** `convertArraysInQueryString` keeps any well-formed query well formed. */
  lemma NormalizeQueryKeepsWellFormed(query: JValue)
    requires WellFormed(query)
    ensures WellFormed(NormalizeQuery(query))
  {
    if query.JObj? {
      NormalizeKeepsWellFormed(query.fields, KeysOf(query.fields));
    }
  }
}
