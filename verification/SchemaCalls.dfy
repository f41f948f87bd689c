/** A call the model may make, once completed by the runtime, passes the raw schema of its tool. */
module SchemaCalls {
  import opened Wrappers
  import opened Json
  import opened SchemaNormalizer
  import opened SchemaTheorems

  lemma {:induction false} DropMembers(props: seq<Field>)
    ensures forall p :: p in DropInternal(props) <==> p in props && p.key !in INTERNAL_WRITE_ARGUMENTS
  {
    if props != [] {
      DropMembers(props[1..]);
      assert forall p :: p in props <==> p == props[0] || p in props[1..];
    }
  }

  lemma {:induction false} DropNameMembers(names: seq<Json>)
    ensures forall n :: n in DropInternalNames(names) <==>
                        n in names && !(n.Str? && n.text in INTERNAL_WRITE_ARGUMENTS)
  {
    if names != [] {
      DropNameMembers(names[1..]);
      assert forall n :: n in names <==> n == names[0] || n in names[1..];
    }
  }

  /** A tool schema whose root asserts no more than a type, its properties and required names. */
  predicate PlainRoot(raw: Json) {
    raw.Obj? && forall i | 0 <= i < |raw.fields| ::
      raw.fields[i].key != "anyOf" && raw.fields[i].key !in LOCAL_KEYWORDS
  }

  /** The internal arguments are all there, and each meets the raw schema of its property. */
  predicate WellTyped(raw: Json, internals: seq<Field>, local: Local)
    requires WellFormed(raw) && PlainRoot(raw)
  {
    && DistinctKeys(internals)
    && (forall key | key in INTERNAL_WRITE_ARGUMENTS :: Get(internals, key).Some?)
    && (forall i | 0 <= i < |internals| :: internals[i].key in INTERNAL_WRITE_ARGUMENTS)
    && (match Get(raw.fields, "properties")
        case Some(Obj(props)) =>
          forall i | 0 <= i < |props| && props[i].key in INTERNAL_WRITE_ARGUMENTS ::
            PropertyOk(props[i], Obj(internals), local)
        case _ => true)
    && (forall i | 0 <= i < |raw.fields| && raw.fields[i].key == "additionalProperties" ::
          FieldOk(raw.fields[i], Declared(raw.fields), Obj(internals), local))
  }

  lemma PlainRootNormalized(raw: Json)
    requires WellFormed(raw) && PlainRoot(raw)
    ensures Normalize(raw) == Obj(NormalizeSiblings(raw.fields))
    ensures DistinctKeys(NormalizeSiblings(raw.fields))
    ensures forall f | f in raw.fields :: NormalizedField(f) in NormalizeSiblings(raw.fields)
    ensures forall f | f in raw.fields :: Get(NormalizeSiblings(raw.fields), f.key) == Some(Normalize(f.value))
  {
    SiblingMembers(raw.fields);
    var base := NormalizeSiblings(raw.fields);
    assert Get(raw.fields, "anyOf").None?;
    forall f | f in raw.fields
      ensures NormalizedField(f) in base && Get(base, f.key) == Some(Normalize(f.value))
    {
      assert f.key != "anyOf";
      var i :| 0 <= i < |base| && base[i] == NormalizedField(f);
      GetOwn(base, i);
    }
  }

  function PropertiesField(base: seq<Field>): Field
    requires GetOr(base, "properties", Obj([])).Obj?
  {
    Field("properties", Obj(DropInternal(GetOr(base, "properties", Obj([])).fields)))
  }

  function RequiredField(base: seq<Field>): Field
    requires GetOr(base, "required", Arr([])).Arr?
  {
    Field("required", Arr(DropInternalNames(GetOr(base, "required", Arr([])).items)))
  }

  /** The public schema: the two filtered fields, and every other normalised field. */
  lemma PublicMembers(raw: Json, args: seq<Field>, local: Local)
    requires WellFormed(raw) && PlainRoot(raw)
    requires PublicSchema(raw, true).Some? && Accepts(PublicSchema(raw, true).value, Obj(args), local)
    ensures var base := NormalizeSiblings(raw.fields);
            && GetOr(base, "properties", Obj([])).Obj? && GetOr(base, "required", Arr([])).Arr?
            && var shown := PropertiesField(base).value.fields;
            && FieldOk(PropertiesField(base), shown, Obj(args), local)
            && FieldOk(RequiredField(base), shown, Obj(args), local)
            && forall g | g in base && g.key != "properties" && g.key != "required" ::
                 FieldOk(g, shown, Obj(args), local)
  {
    PlainRootNormalized(raw);
    var base := NormalizeSiblings(raw.fields);
    var first := Put(base, PropertiesField(base));
    var all := Put(first, RequiredField(base));
    PutMembers(base, PropertiesField(base));
    PutMembers(first, RequiredField(base));
    GetPut(base, PropertiesField(base), "properties");
    GetPut(first, RequiredField(base), "properties");
    assert PublicSchema(raw, true) == Some(Obj(all));
    assert Declared(all) == PropertiesField(base).value.fields;
    AcceptsIsAllOk(all, Obj(args), local);
    assert PropertiesField(base) in all && RequiredField(base) in all;
  }

  /** A property shown to the model is declared in the raw schema. */
  lemma ShownIsDeclared(raw: Json, key: string)
    requires WellFormed(raw) && PlainRoot(raw)
    requires var base := NormalizeSiblings(raw.fields);
             GetOr(base, "properties", Obj([])).Obj? && Get(PropertiesField(base).value.fields, key).Some?
    ensures Get(Declared(raw.fields), key).Some?
  {
    var base := NormalizeSiblings(raw.fields);
    var shown := PropertiesField(base).value.fields;
    DeclaredStay(raw.fields);
    DropMembers(Declared(base));
    var i :| 0 <= i < |shown| && shown[i].key == key;
    assert shown[i] in Declared(base);
    var j :| 0 <= j < |Declared(base)| && Declared(base)[j] == shown[i];
    assert Get(Declared(base), key).Some?;
  }

  lemma AdditionalPasses(
    f: Field, declared: seq<Field>, shown: seq<Field>, args: seq<Field>, internals: seq<Field>, local: Local)
    requires f.key == "additionalProperties" && WellFormed(f.value) && NoClash(f.value) && DistinctKeys(internals)
    requires forall key | Get(shown, key).Some? :: Get(declared, key).Some?
    requires FieldOk(NormalizedField(f), shown, Obj(args), local)
    requires FieldOk(f, declared, Obj(internals), local)
    ensures FieldOk(f, declared, Obj(Update(args, internals)), local)
  {
    var full := Update(args, internals);
    forall i | 0 <= i < |full| && Get(declared, full[i].key).None?
      ensures Accepts(f.value, Get(full, full[i].key).value, local)
    {
      var key := full[i].key;
      GetUpdate(args, internals, key);
      if Get(internals, key).Some? {
        var j :| 0 <= j < |internals| && internals[j].key == key;
      } else {
        assert Get(shown, key).None?;
        var j :| 0 <= j < |args| && args[j].key == key;
        NormalizePreserves(f.value, Get(args, key).value, local);
      }
    }
  }

  lemma RequiredPasses(names: seq<Json>, args: seq<Field>, internals: seq<Field>)
    requires IsStrings(Arr(names)) && DistinctKeys(internals)
    requires forall key | key in INTERNAL_WRITE_ARGUMENTS :: Get(internals, key).Some?
    requires RequiredOk(Arr(DropInternalNames(names)), Obj(args))
    ensures RequiredOk(Arr(names), Obj(Update(args, internals)))
  {
    DropNameMembers(names);
    var kept := DropInternalNames(names);
    forall i | 0 <= i < |names| ensures Get(Update(args, internals), names[i].text).Some? {
      GetUpdate(args, internals, names[i].text);
      if names[i].text !in INTERNAL_WRITE_ARGUMENTS {
        assert names[i] in kept;
        var j :| 0 <= j < |kept| && kept[j] == names[i];
      }
    }
  }

  lemma PropertiesPass(props: seq<Field>, args: seq<Field>, internals: seq<Field>, local: Local)
    requires DistinctKeys(props) && DistinctKeys(internals)
    requires forall i | 0 <= i < |props| :: WellFormed(props[i].value) && NoClash(props[i].value)
    requires forall key | key in INTERNAL_WRITE_ARGUMENTS :: Get(internals, key).Some?
    requires forall i | 0 <= i < |internals| :: internals[i].key in INTERNAL_WRITE_ARGUMENTS
    requires forall i | 0 <= i < |props| && props[i].key in INTERNAL_WRITE_ARGUMENTS ::
               PropertyOk(props[i], Obj(internals), local)
    requires Normalize(Obj(props)).Obj?
    requires forall i | 0 <= i < |DropInternal(Normalize(Obj(props)).fields)| ::
               PropertyOk(DropInternal(Normalize(Obj(props)).fields)[i], Obj(args), local)
    ensures forall i | 0 <= i < |props| :: PropertyOk(props[i], Obj(Update(args, internals)), local)
  {
    var full := Update(args, internals);
    var shown := DropInternal(Normalize(Obj(props)).fields);
    PropertyMembers(props);
    DropMembers(Normalize(Obj(props)).fields);
    forall i | 0 <= i < |props| ensures PropertyOk(props[i], Obj(full), local) {
      var p := props[i];
      GetUpdate(args, internals, p.key);
      if p.key !in INTERNAL_WRITE_ARGUMENTS {
        assert p in props && NormalizedField(p) in shown;
        var j :| 0 <= j < |shown| && shown[j] == NormalizedField(p);
        assert PropertyOk(shown[j], Obj(args), local);
        if Get(full, p.key).Some? {
          NormalizePreserves(p.value, Get(full, p.key).value, local);
        }
      }
    }
  }

  lemma RootFieldPasses(raw: Json, i: nat, args: seq<Field>, internals: seq<Field>, local: Local)
    requires WellFormed(raw) && NoClash(raw) && PlainRoot(raw) && WellTyped(raw, internals, local)
    requires PublicSchema(raw, true).Some? && Accepts(PublicSchema(raw, true).value, Obj(args), local)
    requires i < |raw.fields|
    ensures FieldOk(raw.fields[i], Declared(raw.fields), Obj(Update(args, internals)), local)
  {
    var f := raw.fields[i];
    var base := NormalizeSiblings(raw.fields);
    assert WellFormedField(f) && NoClashField(f) && f in raw.fields;
    PlainRootNormalized(raw);
    PublicMembers(raw, args, local);
    if f.key == "type" {
      if f.value.Arr? { StringsStay(f.value); }
      assert f == NormalizedField(f);
    } else if f.key == "required" {
      StringsStay(f.value);
      RequiredPasses(f.value.items, args, internals);
    } else if f.key == "properties" {
      GetOwn(raw.fields, i);
      PropertyMembers(f.value.fields);
      PropertiesPass(f.value.fields, args, internals, local);
    } else if f.key == "additionalProperties" {
      var shown := PropertiesField(base).value.fields;
      forall key | Get(shown, key).Some? ensures Get(Declared(raw.fields), key).Some? {
        ShownIsDeclared(raw, key);
      }
      assert NormalizedField(f) in base;
      AdditionalPasses(f, Declared(raw.fields), shown, args, internals, local);
    }
  }

  /** What passed the public schema of a write tool passes the raw one with the internal arguments added. */
  lemma PublicCallPassesRaw(raw: Json, args: seq<Field>, internals: seq<Field>, local: Local)
    requires WellFormed(raw) && NoClash(raw) && PlainRoot(raw) && WellTyped(raw, internals, local)
    requires PublicSchema(raw, true).Some? && Accepts(PublicSchema(raw, true).value, Obj(args), local)
    ensures Accepts(raw, Obj(Update(args, internals)), local)
  {
    forall i | 0 <= i < |raw.fields|
      ensures FieldOk(raw.fields[i], Declared(raw.fields), Obj(Update(args, internals)), local)
    {
      RootFieldPasses(raw, i, args, internals, local);
    }
  }
}
