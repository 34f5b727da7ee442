/**
  `modifyHeadersSchema` (lib/RouteSchemaManager.js): header names arrive
  lower-cased, so the names a headers schema declares under `properties`
  are lower-cased too, recursively through nested `properties`.
 */
module HeadersSchema {
  import opened Json
  import opened JsString

  /**
    `modifyHeadersSchema(schema)`: a fresh object with every field copied,
    except `properties`, whose keys are lower-cased and whose values are
    normalised in turn.
   */
  function ModifyHeadersSchema(schema: JValue): (r: JValue)
    ensures r.JObj? && DistinctKeys(r.fields)
    decreases schema, 1
  {
    match schema
    case JObj(fs) =>
      PutAllDistinct([], CopiedFields(fs));
      JObj(PutAll([], CopiedFields(fs)))
    case _ => JObj([])
  }

  /** The assignments `modifiedSchema[prop] = ...`, one per own field, in order. */
  function CopiedFields(fs: Fields): (es: Fields)
    ensures |es| == |fs| && forall i :: 0 <= i < |fs| ==> es[i].0 == fs[i].0
    decreases JObj(fs), 0
  {
    seq(|fs|, i requires 0 <= i < |fs| =>
      if fs[i].0 == "properties" then ("properties", JObj(LowerCaseProperties(fs[i].1))) else fs[i])
  }

  /** The new `properties` object: `modifiedSchema.properties[subProp.toLowerCase()] = ...`. */
  function LowerCaseProperties(props: JValue): (r: Fields)
    ensures DistinctKeys(r)
    decreases props, 2
  {
    match props
    case JObj(pfs) =>
      PutAllDistinct([], LoweredEntries(pfs));
      PutAll([], LoweredEntries(pfs))
    case _ => []
  }

  /** Each declared header name lower-cased, with its normalised schema. */
  function LoweredEntries(pfs: Fields): (es: Fields)
    ensures |es| == |pfs| && forall i :: 0 <= i < |pfs| ==> es[i].0 == ToLower(pfs[i].0)
    decreases JObj(pfs), 1
  {
    seq(|pfs|, i requires 0 <= i < |pfs| => (ToLower(pfs[i].0), ModifyHeadersSchema(pfs[i].1)))
  }

  /** With distinct keys, the assignments from empty rebuild the fields in their order. */
  lemma ModifyIsCopied(fs: Fields)
    requires DistinctKeys(fs)
    ensures ModifyHeadersSchema(JObj(fs)).fields == CopiedFields(fs)
  {
    var es := CopiedFields(fs);
    assert DistinctKeys(es) by {
      forall a, b | 0 <= a < b < |es| ensures es[a].0 != es[b].0 {
        assert es[a].0 == fs[a].0 && es[b].0 == fs[b].0;
      }
    }
    assert [] + es == es;
    PutAllAppends([], es);
  }

  /**
    Every field other than `properties` is copied unchanged and in place;
    `properties` is replaced by its lower-cased form.
   */
  lemma FieldsCopied(schema: JValue)
    requires schema.JObj? && DistinctKeys(schema.fields)
    ensures var r := ModifyHeadersSchema(schema);
      && |r.fields| == |schema.fields|
      && (forall i :: 0 <= i < |schema.fields| ==> r.fields[i].0 == schema.fields[i].0)
      && (forall i :: 0 <= i < |schema.fields| && schema.fields[i].0 != "properties" ==> r.fields[i] == schema.fields[i])
      && (forall i :: 0 <= i < |schema.fields| && schema.fields[i].0 == "properties" ==>
            r.fields[i].1 == JObj(LowerCaseProperties(schema.fields[i].1)))
  {
    ModifyIsCopied(schema.fields);
  }

  /** The lower-cased names of the declared headers. */
  function LowerCasedNames(pfs: Fields): set<string>
  {
    set j | 0 <= j < |pfs| :: ToLower(pfs[j].0)
  }

  /** The new `properties` keys are exactly the lower-case images of the old ones, all lower-case. */
  lemma LowerCasedKeySet(pfs: Fields)
    ensures forall k :: k in KeysOf(LowerCaseProperties(JObj(pfs))) <==> k in LowerCasedNames(pfs)
    ensures forall k :: k in KeysOf(LowerCaseProperties(JObj(pfs))) ==> IsLower(k)
  {
    forall k ensures k in KeysOf(LowerCaseProperties(JObj(pfs))) <==> k in LowerCasedNames(pfs) {
      LowerCasedKey(pfs, k);
    }
    forall k | k in KeysOf(LowerCaseProperties(JObj(pfs))) ensures IsLower(k) {
      LowerCasedKey(pfs, k);
      var j :| 0 <= j < |pfs| && ToLower(pfs[j].0) == k;
      ToLowerIsLower(pfs[j].0);
    }
  }

  /** One key of `LowerCasedKeySet`. */
  lemma LowerCasedKey(pfs: Fields, k: string)
    ensures k in KeysOf(LowerCaseProperties(JObj(pfs))) <==> k in LowerCasedNames(pfs)
  {
    var es := LoweredEntries(pfs);
    LowerCaseUnfold(pfs);
    PutAllKeys([], es, k);
    if k in LowerCasedNames(pfs) {
      var j :| 0 <= j < |pfs| && ToLower(pfs[j].0) == k;
      assert KeysOf(es)[j] == k;
    }
    if k in KeysOf(es) {
      var j :| 0 <= j < |es| && KeysOf(es)[j] == k;
      assert ToLower(pfs[j].0) == k;
    }
  }

  /**
    When no two declared names differ only in case, each lower-cased name
    holds the normalised schema of the name it came from.
   */
  lemma LowerCasedLookup(pfs: Fields, j: int)
    requires forall a, b :: 0 <= a < b < |pfs| ==> ToLower(pfs[a].0) != ToLower(pfs[b].0)
    requires 0 <= j < |pfs|
    ensures Lookup(LowerCaseProperties(JObj(pfs)), ToLower(pfs[j].0)) == Some(ModifyHeadersSchema(pfs[j].1))
  {
    LowerCasedIsEntries(pfs);
    LookupAt(LoweredEntries(pfs), j);
  }

  /** Without two names that differ only in case, lower-casing keeps every entry, in order. */
  lemma LowerCasedIsEntries(pfs: Fields)
    requires forall a, b :: 0 <= a < b < |pfs| ==> ToLower(pfs[a].0) != ToLower(pfs[b].0)
    ensures DistinctKeys(LoweredEntries(pfs))
    ensures LowerCaseProperties(JObj(pfs)) == LoweredEntries(pfs)
  {
    var es := LoweredEntries(pfs);
    forall a, b | 0 <= a < b < |es| ensures es[a].0 != es[b].0 {
      assert es[a].0 == ToLower(pfs[a].0) && es[b].0 == ToLower(pfs[b].0);
    }
    LowerCaseUnfold(pfs);
    assert [] + es == es;
    PutAllAppends([], es);
  }

  /** Every name declared under `properties`, at any depth, is lower-case. */
  predicate HeaderNamesLower(schema: JValue)
    decreases schema
  {
    match schema
    case JObj(fs) =>
      forall i, j :: 0 <= i < |fs| && fs[i].0 == "properties" && fs[i].1.JObj? && 0 <= j < |fs[i].1.fields| ==>
        IsLower(fs[i].1.fields[j].0) && HeaderNamesLower(fs[i].1.fields[j].1)
    case _ => true
  }

  /** The `properties` field of a normalised schema is the lower-cased form of some `properties` field of the input. */
  lemma PropertiesFieldOrigin(fs: Fields, i: int) returns (m: int)
    requires 0 <= i < |ModifyHeadersSchema(JObj(fs)).fields|
    requires ModifyHeadersSchema(JObj(fs)).fields[i].0 == "properties"
    ensures 0 <= m < |fs| && fs[m].0 == "properties"
    ensures ModifyHeadersSchema(JObj(fs)).fields[i].1 == JObj(LowerCaseProperties(fs[m].1))
  {
    var es := CopiedFields(fs);
    PutAllFrom(es, i);
    m :| 0 <= m < |es| && es[m] == PutAll([], es)[i];
  }

  /** Every field of the new `properties` object comes from one declared header. */
  lemma LoweredFieldOrigin(pfs: Fields, j: int) returns (q: int)
    requires 0 <= j < |LowerCaseProperties(JObj(pfs))|
    ensures 0 <= q < |pfs|
    ensures LowerCaseProperties(JObj(pfs))[j] == (ToLower(pfs[q].0), ModifyHeadersSchema(pfs[q].1))
  {
    var es := LoweredEntries(pfs);
    PutAllFrom(es, j);
    q :| 0 <= q < |es| && es[q] == PutAll([], es)[j];
  }

  /** After normalisation, no declared header name has an upper-case letter, however deep. */
  lemma {:induction false} ModifiedNamesLower(schema: JValue)
    ensures HeaderNamesLower(ModifyHeadersSchema(schema))
    decreases schema
  {
    if schema.JObj? {
      var fs := schema.fields;
      var r := ModifyHeadersSchema(schema).fields;
      forall i, j | 0 <= i < |r| && r[i].0 == "properties" && r[i].1.JObj? && 0 <= j < |r[i].1.fields|
        ensures IsLower(r[i].1.fields[j].0) && HeaderNamesLower(r[i].1.fields[j].1)
      {
        var m := PropertiesFieldOrigin(fs, i);
        var props := fs[m].1;
        if props.JObj? {
          var q := LoweredFieldOrigin(props.fields, j);
          ToLowerIsLower(props.fields[q].0);
          ModifiedNamesLower(props.fields[q].1);
        }
      }
    }
  }

  /** Normalising a normalised schema changes nothing. */
  lemma {:induction false} ModifyIdempotent(schema: JValue)
    ensures ModifyHeadersSchema(ModifyHeadersSchema(schema)) == ModifyHeadersSchema(schema)
    decreases schema, 1
  {
    if schema.JObj? {
      var fs := schema.fields;
      var r := ModifyHeadersSchema(schema).fields;
      forall i | 0 <= i < |r| ensures CopiedFields(r)[i] == r[i] {
        if r[i].0 == "properties" {
          var m := PropertiesFieldOrigin(fs, i);
          LowerCaseIdempotent(fs[m].1);
        }
      }
      assert CopiedFields(r) == r;
      assert [] + r == r;
      PutAllAppends([], r);
    }
  }

  /** An entry of a lower-cased `properties` object is its own lower-cased, normalised form. */
  lemma LoweredEntryFixed(pfs: Fields, j: int)
    requires 0 <= j < |LowerCaseProperties(JObj(pfs))|
    ensures var l := LowerCaseProperties(JObj(pfs));
      (ToLower(l[j].0), ModifyHeadersSchema(l[j].1)) == l[j]
    decreases JObj(pfs), 0
  {
    var q := LoweredFieldOrigin(pfs, j);
    assert pfs[q].1 < JObj(pfs);
    LoweredPairFixed(pfs[q].0, pfs[q].1);
  }

  /** Lower-casing a name and normalising a schema twice is doing it once. */
  lemma LoweredPairFixed(k: string, v: JValue)
    ensures ToLower(ToLower(k)) == ToLower(k)
    ensures ModifyHeadersSchema(ModifyHeadersSchema(v)) == ModifyHeadersSchema(v)
    decreases v, 2
  {
    ToLowerIsLower(ToLower(k));
    ModifyIdempotent(v);
  }

  /** Lower-casing an already lower-cased `properties` object changes nothing. */
  lemma {:induction false} LowerCaseIdempotent(props: JValue)
    ensures LowerCaseProperties(JObj(LowerCaseProperties(props))) == LowerCaseProperties(props)
    decreases props, 1
  {
    var l := LowerCaseProperties(props);
    var le := LoweredEntries(l);
    if props.JObj? {
      forall j | 0 <= j < |l| ensures le[j] == l[j] {
        LoweredEntryFixed(props.fields, j);
      }
      assert le == l;
    } else {
      assert l == [] && le == [];
    }
    assert [] + le == l;
    PutAllAppends([], le);
    LowerCaseUnfold(l);
  }

  lemma LowerCaseUnfold(pfs: Fields)
    ensures LowerCaseProperties(JObj(pfs)) == PutAll([], LoweredEntries(pfs))
  {
  }

  /** The normalised schema of a well-formed schema is well formed, so it may be cached. */
  lemma {:induction false} ModifyKeepsWellFormed(schema: JValue)
    requires WellFormed(schema)
    ensures WellFormed(ModifyHeadersSchema(schema))
    decreases schema, 1
  {
    if schema.JObj? {
      var fs := schema.fields;
      var r := ModifyHeadersSchema(schema).fields;
      forall i | 0 <= i < |r| ensures WellFormed(r[i].1) {
        var es := CopiedFields(fs);
        PutAllFrom(es, i);
        var m :| 0 <= m < |es| && es[m] == r[i];
        if fs[m].0 == "properties" {
          LowerCaseKeepsWellFormed(fs[m].1);
        }
      }
    }
  }

  lemma {:induction false} LowerCaseKeepsWellFormed(props: JValue)
    requires WellFormed(props)
    ensures WellFormed(JObj(LowerCaseProperties(props)))
    decreases props, 0
  {
    if props.JObj? {
      var l := LowerCaseProperties(props);
      forall j | 0 <= j < |l| ensures WellFormed(l[j].1) {
        var q := LoweredFieldOrigin(props.fields, j);
        ModifyKeepsWellFormed(props.fields[q].1);
      }
    }
  }
}
