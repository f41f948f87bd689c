/** Normalising a schema keeps its meaning; a call the model may make passes the raw schema. */
module SchemaTheorems {
  import opened Wrappers
  import opened Json
  import opened SchemaNormalizer

  // ----- dict.update -----

  lemma {:induction false} PutMembers(fields: seq<Field>, f: Field)
    requires DistinctKeys(fields)
    ensures DistinctKeys(Put(fields, f))
    ensures forall g :: g in Put(fields, f) <==> g == f || (g in fields && g.key != f.key)
  {
    if fields != [] {
      var rest := fields[1..];
      assert forall g :: g in fields <==> g == fields[0] || g in rest;
      assert forall g | g in rest :: g.key != fields[0].key;
      if fields[0].key != f.key {
        PutMembers(rest, f);
        DistinctCons(fields[0], Put(rest, f));
      } else {
        DistinctCons(f, rest);
      }
    }
  }

  lemma DistinctCons(f: Field, rest: seq<Field>)
    requires DistinctKeys(rest) && forall g | g in rest :: g.key != f.key
    ensures DistinctKeys([f] + rest)
  {
  }

  lemma {:induction false} UpdateMembers(fields: seq<Field>, extra: seq<Field>)
    requires DistinctKeys(fields) && DistinctKeys(extra)
    ensures DistinctKeys(Update(fields, extra))
    ensures forall g :: g in Update(fields, extra) <==> g in extra || (g in fields && !HasKey(extra, g.key))
    decreases |extra|
  {
    if extra != [] {
      var e, rest := extra[0], extra[1..];
      PutMembers(fields, e);
      UpdateMembers(Put(fields, e), rest);
      assert forall key :: HasKey(extra, key) <==> key == e.key || HasKey(rest, key) by {
        forall key | HasKey(extra, key) ensures key == e.key || HasKey(rest, key) {
          var i :| 0 <= i < |extra| && extra[i].key == key;
          if i > 0 { assert rest[i - 1].key == key; }
        }
        forall key | HasKey(rest, key) ensures HasKey(extra, key) {
          var i :| 0 <= i < |rest| && rest[i].key == key;
          assert extra[i + 1].key == key;
        }
        assert extra[0].key == e.key;
      }
      assert !HasKey(rest, e.key);
    }
  }

  // ----- what the normaliser does to the fields -----

  function NormalizedField(f: Field): Field { Field(f.key, Normalize(f.value)) }

  lemma {:induction false} SiblingMembers(fields: seq<Field>)
    requires DistinctKeys(fields)
    ensures DistinctKeys(NormalizeSiblings(fields))
    ensures forall f | f in fields && f.key != "anyOf" :: NormalizedField(f) in NormalizeSiblings(fields)
    ensures forall g | g in NormalizeSiblings(fields) ::
              exists f :: f in fields && f.key != "anyOf" && g == NormalizedField(f)
  {
    if fields != [] {
      var f, rest := fields[0], fields[1..];
      SiblingMembers(rest);
      assert forall h :: h in fields <==> h == f || h in rest;
      assert forall h | h in rest :: h.key != f.key;
      if f.key != "anyOf" {
        DistinctCons(NormalizedField(f), NormalizeSiblings(rest));
      }
    }
  }

  lemma {:induction false} ItemsNormalized(items: seq<Json>)
    ensures |NormalizeItems(items)| == |items|
    ensures forall i | 0 <= i < |items| :: NormalizeItems(items)[i] == Normalize(items[i])
  {
    if items != [] {
      ItemsNormalized(items[1..]);
    }
  }

  lemma StringsStay(j: Json)
    requires IsStrings(j)
    ensures Normalize(j) == j
  {
    ItemsNormalized(j.items);
    assert NormalizeItems(j.items) == j.items;
  }

  lemma AnnotationsAssertNothing(f: Field, declared: seq<Field>, v: Json, local: Local)
    requires f.key in ANNOTATIONS
    ensures FieldOk(f, declared, v, local)
  {
  }

  ghost predicate AllOk(fields: seq<Field>, declared: seq<Field>, v: Json, local: Local) {
    forall f | f in fields :: FieldOk(f, declared, v, local)
  }

  lemma AcceptsIsAllOk(fields: seq<Field>, v: Json, local: Local)
    ensures Accepts(Obj(fields), v, local) <==> AllOk(fields, Declared(fields), v, local)
  {
  }

  // ----- declared properties -----

  lemma {:induction false} GetPut(fields: seq<Field>, f: Field, key: string)
    ensures Get(Put(fields, f), key) == if key == f.key then Some(f.value) else Get(fields, key)
  {
    if fields != [] {
      if fields[0].key != f.key {
        GetPut(fields[1..], f, key);
        assert Put(fields, f)[1..] == Put(fields[1..], f);
      } else {
        assert Put(fields, f)[1..] == fields[1..];
      }
    }
  }

  lemma {:induction false} GetUpdate(fields: seq<Field>, extra: seq<Field>, key: string)
    requires DistinctKeys(extra)
    ensures Get(Update(fields, extra), key) == if Get(extra, key).Some? then Get(extra, key) else Get(fields, key)
    decreases |extra|
  {
    if extra != [] {
      GetUpdate(Put(fields, extra[0]), extra[1..], key);
      GetPut(fields, extra[0], key);
      assert Get(extra[1..], extra[0].key).None?;
    }
  }

  ghost predicate SameNames(a: seq<Field>, b: seq<Field>) {
    forall key :: Get(a, key).Some? <==> Get(b, key).Some?
  }

  /** Of the declared properties only the names matter, and only to additionalProperties. */
  lemma FieldOkByNames(f: Field, a: seq<Field>, b: seq<Field>, v: Json, local: Local)
    requires f.key == "additionalProperties" ==> SameNames(a, b)
    ensures FieldOk(f, a, v, local) <==> FieldOk(f, b, v, local)
  {
  }

  lemma AllOkByNames(fields: seq<Field>, a: seq<Field>, b: seq<Field>, v: Json, local: Local)
    requires HasKey(fields, "additionalProperties") ==> SameNames(a, b)
    ensures AllOk(fields, a, v, local) <==> AllOk(fields, b, v, local)
  {
    forall f | f in fields ensures FieldOk(f, a, v, local) <==> FieldOk(f, b, v, local) {
      var i :| 0 <= i < |fields| && fields[i] == f;
      FieldOkByNames(f, a, b, v, local);
    }
  }

  /** A map of properties is normalised property by property, also when one is called anyOf. */
  lemma PropertyMembers(props: seq<Field>)
    requires DistinctKeys(props) && forall i | 0 <= i < |props| :: WellFormed(props[i].value)
    ensures Normalize(Obj(props)).Obj? && DistinctKeys(Normalize(Obj(props)).fields)
    ensures forall p | p in props :: NormalizedField(p) in Normalize(Obj(props)).fields
    ensures forall q | q in Normalize(Obj(props)).fields :: exists p :: p in props && q == NormalizedField(p)
  {
    SiblingMembers(props);
    if Get(props, "anyOf").Some? {
      var f := AnyOfField(props);
      assert f.value.Obj? || f.value.Bool?;
      UpdateMembers(NormalizeSiblings(props), [NormalizedField(f)]);
      assert [NormalizedField(f)][0].key == "anyOf";
    } else {
      forall f | f in props ensures f.key != "anyOf" {
        var i :| 0 <= i < |props| && props[i] == f;
      }
    }
  }

  lemma PropertyNamesStay(props: seq<Field>)
    requires DistinctKeys(props) && forall i | 0 <= i < |props| :: WellFormed(props[i].value)
    ensures Normalize(Obj(props)).Obj? && SameNames(Normalize(Obj(props)).fields, props)
  {
    PropertyMembers(props);
    var qs := Normalize(Obj(props)).fields;
    forall key ensures Get(qs, key).Some? <==> Get(props, key).Some? {
      if Get(props, key).Some? {
        var i :| 0 <= i < |props| && props[i].key == key;
        assert NormalizedField(props[i]) in qs;
        var j :| 0 <= j < |qs| && qs[j] == NormalizedField(props[i]);
        assert qs[j].key == key;
      }
      if Get(qs, key).Some? {
        var j :| 0 <= j < |qs| && qs[j].key == key;
        assert qs[j] in qs;
        var p :| p in props && qs[j] == NormalizedField(p);
        var i :| 0 <= i < |props| && props[i] == p;
        assert props[i].key == key;
      }
    }
  }

  lemma {:induction false} GetSibling(fields: seq<Field>, key: string)
    requires key != "anyOf"
    ensures Get(fields, key).None? ==> Get(NormalizeSiblings(fields), key).None?
    ensures Get(fields, key).Some? ==>
              Get(NormalizeSiblings(fields), key) == Some(Normalize(Get(fields, key).value))
  {
    if fields != [] {
      var f, rest := fields[0], NormalizeSiblings(fields[1..]);
      GetSibling(fields[1..], key);
      if f.key != "anyOf" {
        assert ([NormalizedField(f)] + rest)[1..] == rest;
      } else {
        assert [] + rest == rest;
      }
    }
  }

  /** Normalising a node keeps the names of its declared properties. */
  lemma DeclaredStay(fields: seq<Field>)
    requires WellFormed(Obj(fields))
    ensures SameNames(Declared(NormalizeSiblings(fields)), Declared(fields))
  {
    GetSibling(fields, "properties");
    if Get(fields, "properties").Some? {
      var i :| 0 <= i < |fields| && fields[i] == Field("properties", Get(fields, "properties").value);
      assert WellFormedField(fields[i]);
      PropertyNamesStay(fields[i].value.fields);
    }
  }

  // ----- merging -----

  /** Neither side declares properties for an additionalProperties of the other. */
  predicate Apart(base: seq<Field>, extra: seq<Field>) {
    && !(HasKey(base, "additionalProperties") && HasKey(extra, "properties"))
    && !(HasKey(base, "properties") && HasKey(extra, "additionalProperties"))
  }

  lemma DeclaredMerged(base: seq<Field>, extra: seq<Field>)
    requires DistinctKeys(base) && DistinctKeys(extra) && Apart(base, extra)
    ensures HasKey(base, "additionalProperties") ==> Declared(Update(base, extra)) == Declared(base)
    ensures HasKey(extra, "additionalProperties") ==> Declared(Update(base, extra)) == Declared(extra)
  {
    GetUpdate(base, extra, "properties");
  }

  /** Merging keeps both conjunctions when only annotations are overwritten. */
  lemma MergedOk(base: seq<Field>, extra: seq<Field>, v: Json, local: Local)
    requires DistinctKeys(base) && DistinctKeys(extra) && Apart(base, extra)
    requires forall f, g | f in base && g in extra && f.key == g.key :: f.key in ANNOTATIONS
    ensures Accepts(Obj(Update(base, extra)), v, local) <==>
            Accepts(Obj(base), v, local) && Accepts(Obj(extra), v, local)
  {
    var all := Update(base, extra);
    var declared := Declared(all);
    DeclaredMerged(base, extra);
    AllOkByNames(base, declared, Declared(base), v, local);
    AllOkByNames(extra, declared, Declared(extra), v, local);
    AcceptsIsAllOk(base, v, local);
    AcceptsIsAllOk(extra, v, local);
    AcceptsIsAllOk(all, v, local);
    MergedFields(base, extra, declared, v, local);
  }

  lemma MergedFields(base: seq<Field>, extra: seq<Field>, declared: seq<Field>, v: Json, local: Local)
    requires DistinctKeys(base) && DistinctKeys(extra)
    requires forall f, g | f in base && g in extra && f.key == g.key :: f.key in ANNOTATIONS
    ensures AllOk(Update(base, extra), declared, v, local) <==>
            AllOk(base, declared, v, local) && AllOk(extra, declared, v, local)
  {
    UpdateMembers(base, extra);
    if AllOk(Update(base, extra), declared, v, local) {
      forall f | f in base ensures FieldOk(f, declared, v, local) {
        if HasKey(extra, f.key) {
          var i :| 0 <= i < |extra| && extra[i].key == f.key;
          assert extra[i] in extra;
          AnnotationsAssertNothing(f, declared, v, local);
        } else {
          assert f in Update(base, extra);
        }
      }
    }
  }

  lemma {:induction false} NormalizedIsDict(schema: Json)
    requires WellFormed(schema) && schema.Obj?
    ensures Normalize(schema).Obj? && DistinctKeys(Normalize(schema).fields)
    decreases schema
  {
    var fields := schema.fields;
    SiblingMembers(fields);
    match NullableBranch(fields)
    case Some(concrete) =>
      BranchIsWellFormed(fields);
      NormalizedIsDict(concrete);
      UpdateMembers(NormalizeSiblings(fields), Normalize(concrete).fields);
    case None =>
      match Get(fields, "anyOf")
      case None =>
      case Some(Null) =>
      case Some(branches) => UpdateMembers(NormalizeSiblings(fields), [Field("anyOf", Normalize(branches))]);
  }

  /** Where anyOf stands, and that its branches are schemas of the fragment. */
  lemma BranchIsWellFormed(fields: seq<Field>)
    requires WellFormed(Obj(fields)) && NullableBranch(fields).Some?
    ensures var c := NullableBranch(fields).value;
            && WellFormed(c)
            && (NoClash(Obj(fields)) ==> NoClash(c))
  {
    var any := Get(fields, "anyOf").value;
    var i :| 0 <= i < |fields| && fields[i] == Field("anyOf", any);
    assert WellFormedField(fields[i]);
    assert NoClash(Obj(fields)) ==> NoClashField(fields[i]);
    assert forall k | 0 <= k < |any.items| :: WellFormed(any.items[k]);
  }

  lemma AnyOfField(fields: seq<Field>) returns (f: Field)
    requires DistinctKeys(fields) && Get(fields, "anyOf").Some?
    ensures f in fields && f == Field("anyOf", Get(fields, "anyOf").value)
    ensures forall g | g in fields && g.key == "anyOf" :: g == f
  {
    var i :| 0 <= i < |fields| && fields[i] == Field("anyOf", Get(fields, "anyOf").value);
    f := fields[i];
  }

  /** What a normalised sibling, or the same sibling before, asserts. */
  ghost predicate SiblingsHold(fields: seq<Field>, v: Json, local: Local, normalized: bool) {
    forall f | f in fields && f.key != "anyOf" ::
      FieldOk(if normalized then NormalizedField(f) else f, Declared(fields), v, local)
  }

  lemma SiblingsAreBase(fields: seq<Field>, v: Json, local: Local)
    requires WellFormed(Obj(fields))
    ensures Accepts(Obj(NormalizeSiblings(fields)), v, local) <==> SiblingsHold(fields, v, local, true)
  {
    var base := NormalizeSiblings(fields);
    SiblingMembers(fields);
    DeclaredStay(fields);
    AllOkByNames(base, Declared(base), Declared(fields), v, local);
    AcceptsIsAllOk(base, v, local);
  }

  ghost predicate AnyOfHolds(fields: seq<Field>, v: Json, local: Local, normalized: bool) {
    forall f | f in fields && f.key == "anyOf" ::
      FieldOk(if normalized then NormalizedField(f) else f, Declared(fields), v, local)
  }

  lemma FieldsSplit(fields: seq<Field>, v: Json, local: Local)
    ensures Accepts(Obj(fields), v, local) <==>
            SiblingsHold(fields, v, local, false) && AnyOfHolds(fields, v, local, false)
  {
    AcceptsIsAllOk(fields, v, local);
  }

  lemma PlainForm(fields: seq<Field>)
    requires WellFormed(Obj(fields)) && NullableBranch(fields).None?
    ensures var base := NormalizeSiblings(fields);
            Normalize(Obj(fields)) ==
            match Get(fields, "anyOf")
            case None => Obj(base)
            case Some(any) => Obj(Update(base, [NormalizedField(Field("anyOf", any))]))
  {
    if Get(fields, "anyOf").Some? {
      var f := AnyOfField(fields);
      var i :| 0 <= i < |fields| && fields[i] == f;
      assert WellFormedField(f);
      assert f.value.Arr?;
    }
  }

  /** A node without a null branch to drop keeps all its keys. */
  lemma PlainNode(fields: seq<Field>, v: Json, local: Local)
    requires WellFormed(Obj(fields)) && NullableBranch(fields).None?
    ensures Accepts(Normalize(Obj(fields)), v, local) <==>
            SiblingsHold(fields, v, local, true) && AnyOfHolds(fields, v, local, true)
  {
    var base := NormalizeSiblings(fields);
    PlainForm(fields);
    SiblingMembers(fields);
    SiblingsAreBase(fields, v, local);
    if Get(fields, "anyOf").Some? {
      var f := AnyOfField(fields);
      var extra := [NormalizedField(f)];
      BaseHasNoAnyOf(fields);
      MergedOk(base, extra, v, local);
      OneFieldAccepts(NormalizedField(f), Declared(fields), v, local);
      assert AnyOfHolds(fields, v, local, true) <==> FieldOk(NormalizedField(f), Declared(fields), v, local);
    } else {
      forall f | f in fields ensures f.key != "anyOf" {
        var i :| 0 <= i < |fields| && fields[i] == f;
      }
    }
  }

  lemma OneFieldAccepts(f: Field, declared: seq<Field>, v: Json, local: Local)
    requires f.key == "anyOf"
    ensures Accepts(Obj([f]), v, local) <==> FieldOk(f, declared, v, local)
  {
    assert [f][0] == f;
  }

  lemma BaseHasNoAnyOf(fields: seq<Field>)
    requires DistinctKeys(fields)
    ensures forall g | g in NormalizeSiblings(fields) :: g.key != "anyOf"
  {
    SiblingMembers(fields);
    forall g | g in NormalizeSiblings(fields) ensures g.key != "anyOf" {
      var f :| f in fields && f.key != "anyOf" && g == NormalizedField(f);
    }
  }

  lemma KeyOfSibling(fields: seq<Field>, key: string)
    requires DistinctKeys(fields) && HasKey(NormalizeSiblings(fields), key)
    ensures HasKey(fields, key)
  {
    var base := NormalizeSiblings(fields);
    SiblingMembers(fields);
    var j :| 0 <= j < |base| && base[j].key == key;
    assert base[j] in base;
    var f :| f in fields && f.key != "anyOf" && base[j] == NormalizedField(f);
    var i :| 0 <= i < |fields| && fields[i] == f;
  }

  lemma OnlyAnnotationsShared(fields: seq<Field>, branch: seq<Field>)
    requires DistinctKeys(fields) && Separate(fields, branch)
    ensures forall f, g | f in NormalizeSiblings(fields) && g in branch && f.key == g.key :: f.key in ANNOTATIONS
    ensures Apart(NormalizeSiblings(fields), branch)
  {
    SiblingMembers(fields);
    if HasKey(NormalizeSiblings(fields), "additionalProperties") { KeyOfSibling(fields, "additionalProperties"); }
    if HasKey(NormalizeSiblings(fields), "properties") { KeyOfSibling(fields, "properties"); }
    forall f, g | f in NormalizeSiblings(fields) && g in branch && f.key == g.key ensures f.key in ANNOTATIONS {
      var h :| h in fields && h.key != "anyOf" && f == NormalizedField(h);
      var i :| 0 <= i < |fields| && fields[i] == h;
      var j :| 0 <= j < |branch| && branch[j] == g;
    }
  }

  /** A nullable node becomes its siblings and its concrete branch. */
  lemma NullableNode(fields: seq<Field>, v: Json, local: Local)
    requires WellFormed(Obj(fields)) && NoClash(Obj(fields)) && NullableBranch(fields).Some?
    ensures Accepts(Normalize(Obj(fields)), v, local) <==>
            SiblingsHold(fields, v, local, true) && Accepts(Normalize(NullableBranch(fields).value), v, local)
  {
    var base := NormalizeSiblings(fields);
    var c := NullableBranch(fields).value;
    var extra := Normalize(c).fields;
    SiblingMembers(fields);
    SiblingsAreBase(fields, v, local);
    BranchIsWellFormed(fields);
    NormalizedIsDict(c);
    OnlyAnnotationsShared(fields, extra);
    MergedOk(base, extra, v, local);
  }

  /** Before: the concrete branch, or the null branch, which takes only null. */
  lemma NullableAnyOf(fields: seq<Field>, v: Json, local: Local)
    requires WellFormed(Obj(fields)) && NullableBranch(fields).Some?
    ensures var c := NullableBranch(fields).value;
            && (Accepts(c, v, local) ==> AnyOfHolds(fields, v, local, false))
            && (AnyOfHolds(fields, v, local, false) ==> Accepts(c, v, local) || v.Null?)
  {
    var f := AnyOfField(fields);
    var bs := f.value.items;
    var c := NullableBranch(fields).value;
    var k: nat := if IsConcrete(bs[0]) && IsNullBranch(bs[1]) then 0 else 1;
    assert c == bs[k] && IsNullBranch(bs[1 - k]);
    if Accepts(bs[1 - k], v, local) {
      NullBranchTakesNull(bs[1 - k], v, local);
    }
    TwoBranches(f, k, Declared(fields), v, local);
    assert AnyOfHolds(fields, v, local, false) <==> FieldOk(f, Declared(fields), v, local);
  }

  lemma TwoBranches(f: Field, k: nat, declared: seq<Field>, v: Json, local: Local)
    requires f.key == "anyOf" && f.value.Arr? && |f.value.items| == 2 && k < 2
    ensures FieldOk(f, declared, v, local) <==>
            Accepts(f.value.items[k], v, local) || Accepts(f.value.items[1 - k], v, local)
  {
  }

  lemma NullBranchTakesNull(branch: Json, v: Json, local: Local)
    requires IsNullBranch(branch) && Accepts(branch, v, local)
    ensures v.Null?
  {
    var i :| 0 <= i < |branch.fields| && branch.fields[i] == Field("type", Str("null"));
    assert FieldOk(branch.fields[i], Declared(branch.fields), v, local);
  }

  // ----- the main theorem -----

  /** Anything the normalised schema accepts is accepted; without nulls, nothing else is. */
  lemma {:induction false} NormalizePreserves(schema: Json, v: Json, local: Local)
    requires WellFormed(schema) && NoClash(schema)
    ensures Accepts(Normalize(schema), v, local) ==> Accepts(schema, v, local)
    ensures NullFree(v) ==> (Accepts(Normalize(schema), v, local) <==> Accepts(schema, v, local))
    decreases schema
  {
    if schema.Obj? {
      var fields := schema.fields;
      var declared := Declared(fields);
      FieldsSplit(fields, v, local);
      forall i | 0 <= i < |fields|
        ensures FieldOk(NormalizedField(fields[i]), declared, v, local) ==> FieldOk(fields[i], declared, v, local)
        ensures NullFree(v) ==> (FieldOk(NormalizedField(fields[i]), declared, v, local) <==>
                                 FieldOk(fields[i], declared, v, local))
      {
        FieldPreserved(fields[i], declared, v, local);
      }
      if NullableBranch(fields).Some? {
        BranchIsWellFormed(fields);
        NormalizePreserves(NullableBranch(fields).value, v, local);
        NullableNode(fields, v, local);
        NullableAnyOf(fields, v, local);
      } else {
        PlainNode(fields, v, local);
      }
    }
  }

  lemma {:induction false} FieldPreserved(f: Field, declared: seq<Field>, v: Json, local: Local)
    requires WellFormedField(f) && NoClashField(f)
    ensures FieldOk(NormalizedField(f), declared, v, local) ==> FieldOk(f, declared, v, local)
    ensures NullFree(v) ==> (FieldOk(NormalizedField(f), declared, v, local) <==> FieldOk(f, declared, v, local))
    decreases f
  {
    if f.key == "type" {
      if f.value.Arr? { StringsStay(f.value); }
    } else if f.key == "required" {
      StringsStay(f.value);
    } else if f.key == "properties" {
      PropertiesPreserved(f.value.fields, declared, v, local);
    } else if f.key == "additionalProperties" {
      AdditionalPreserved(f, declared, v, local);
    } else if f.key == "items" {
      ItemsPreserved(f, declared, v, local);
    } else if f.key == "anyOf" {
      BranchesPreserved(f, declared, v, local);
    }
  }

  lemma {:induction false} ItemsPreserved(f: Field, declared: seq<Field>, v: Json, local: Local)
    requires f.key == "items" && WellFormed(f.value) && NoClash(f.value)
    ensures FieldOk(NormalizedField(f), declared, v, local) ==> FieldOk(f, declared, v, local)
    ensures NullFree(v) ==> (FieldOk(NormalizedField(f), declared, v, local) <==> FieldOk(f, declared, v, local))
    decreases f, 0
  {
    if v.Arr? {
      forall i | 0 <= i < |v.items|
        ensures Accepts(Normalize(f.value), v.items[i], local) ==> Accepts(f.value, v.items[i], local)
        ensures NullFree(v) ==>
                  (Accepts(Normalize(f.value), v.items[i], local) <==> Accepts(f.value, v.items[i], local))
      {
        NormalizePreserves(f.value, v.items[i], local);
      }
    }
  }

  lemma {:induction false} BranchesPreserved(f: Field, declared: seq<Field>, v: Json, local: Local)
    requires f.key == "anyOf" && WellFormedField(f) && NoClashField(f)
    ensures FieldOk(NormalizedField(f), declared, v, local) ==> FieldOk(f, declared, v, local)
    ensures NullFree(v) ==> (FieldOk(NormalizedField(f), declared, v, local) <==> FieldOk(f, declared, v, local))
    decreases f, 0
  {
    var bs := f.value.items;
    ItemsNormalized(bs);
    forall i | 0 <= i < |bs|
      ensures Accepts(Normalize(bs[i]), v, local) ==> Accepts(bs[i], v, local)
      ensures NullFree(v) ==> (Accepts(Normalize(bs[i]), v, local) <==> Accepts(bs[i], v, local))
    {
      NormalizePreserves(bs[i], v, local);
    }
  }

  lemma {:induction false} AdditionalPreserved(f: Field, declared: seq<Field>, v: Json, local: Local)
    requires f.key == "additionalProperties" && WellFormed(f.value) && NoClash(f.value)
    ensures FieldOk(NormalizedField(f), declared, v, local) ==> FieldOk(f, declared, v, local)
    ensures NullFree(v) ==> (FieldOk(NormalizedField(f), declared, v, local) <==> FieldOk(f, declared, v, local))
    decreases f, 0
  {
    if v.Obj? {
      forall i | 0 <= i < |v.fields|
        ensures var x := Get(v.fields, v.fields[i].key).value;
                && (Accepts(Normalize(f.value), x, local) ==> Accepts(f.value, x, local))
                && (NullFree(v) ==> (Accepts(Normalize(f.value), x, local) <==> Accepts(f.value, x, local)))
      {
        NormalizePreserves(f.value, Get(v.fields, v.fields[i].key).value, local);
      }
    }
  }

  lemma {:induction false} PropertiesPreserved(props: seq<Field>, declared: seq<Field>, v: Json, local: Local)
    requires DistinctKeys(props)
    requires forall i | 0 <= i < |props| :: WellFormed(props[i].value) && NoClash(props[i].value)
    ensures var before, after := Field("properties", Obj(props)), Field("properties", Normalize(Obj(props)));
            && (FieldOk(after, declared, v, local) ==> FieldOk(before, declared, v, local))
            && (NullFree(v) && FieldOk(before, declared, v, local) ==> FieldOk(after, declared, v, local))
    decreases props
  {
    var qs := Normalize(Obj(props)).fields;
    PropertyMembers(props);
    forall i | 0 <= i < |props|
      ensures PropertyOk(NormalizedField(props[i]), v, local) ==> PropertyOk(props[i], v, local)
      ensures NullFree(v) ==> (PropertyOk(NormalizedField(props[i]), v, local) <==> PropertyOk(props[i], v, local))
    {
      if v.Obj? && Get(v.fields, props[i].key).Some? {
        NormalizePreserves(props[i].value, Get(v.fields, props[i].key).value, local);
      }
    }
    if FieldOk(Field("properties", Obj(qs)), declared, v, local) {
      forall i | 0 <= i < |props| ensures PropertyOk(props[i], v, local) {
        assert props[i] in props;
        var j :| 0 <= j < |qs| && qs[j] == NormalizedField(props[i]);
      }
    }
    if NullFree(v) && FieldOk(Field("properties", Obj(props)), declared, v, local) {
      forall j | 0 <= j < |qs| ensures PropertyOk(qs[j], v, local) {
        assert qs[j] in qs;
        var p :| p in props && qs[j] == NormalizedField(p);
        var i :| 0 <= i < |props| && props[i] == p;
      }
    }
  }
}
