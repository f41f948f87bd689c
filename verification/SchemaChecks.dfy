/**
 A call is checked twice: against the public schema of its tool when the model proposes it, and against
 the raw schema when it is made.  On calls without a null the two checks agree.
 */
module SchemaChecks {
  import opened Wrappers
  import opened Json
  import opened SchemaNormalizer
  import opened SchemaTheorems
  import opened SchemaCalls

  /** Only an object has a public schema. */
  lemma NoObjectNoSchema(raw: Json, sandboxWrite: bool)
    requires !raw.Obj?
    ensures PublicSchema(raw, sandboxWrite).None?
  {
  }

  /** A tool that only reads: its public schema exists, is the stricter one, and agrees without nulls. */
  lemma ReadCallCheck(raw: Json, v: Json, local: Local)
    requires raw.Obj? && WellFormed(raw) && NoClash(raw)
    ensures PublicSchema(raw, false).Some?
    ensures Accepts(PublicSchema(raw, false).value, v, local) ==> Accepts(raw, v, local)
    ensures NullFree(v) ==> (Accepts(PublicSchema(raw, false).value, v, local) <==> Accepts(raw, v, local))
  {
    NormalizePreserves(raw, v, local);
  }

  // ----- the write tool -----

  /** What the model itself passes under an internal name is let through by the additionalProperties. */
  ghost predicate InternalsAdmitted(raw: Json, args: seq<Field>, local: Local)
    requires raw.Obj?
  {
    forall f, key | f in raw.fields && f.key == "additionalProperties"
                    && key in INTERNAL_WRITE_ARGUMENTS && Get(args, key).Some? ::
      Accepts(f.value, Get(args, key).value, local)
  }

  lemma PutTwice(base: seq<Field>, p: Field, q: Field)
    requires DistinctKeys(base) && p.key != q.key
    ensures Get(Put(Put(base, p), q), p.key) == Some(p.value)
    ensures forall g :: g in Put(Put(base, p), q) <==>
              g == p || g == q || (g in base && g.key != p.key && g.key != q.key)
  {
    PutMembers(base, p);
    PutMembers(Put(base, p), q);
    GetPut(base, p, p.key);
    GetPut(Put(base, p), q, p.key);
  }

  /** The public schema of a write tool, field by field: two filtered ones, and the normalised others. */
  lemma PublicForm(raw: Json)
    requires WellFormed(raw) && PlainRoot(raw)
    ensures var base := NormalizeSiblings(raw.fields);
            && GetOr(base, "properties", Obj([])).Obj? && GetOr(base, "required", Arr([])).Arr?
            && PublicSchema(raw, true).Some? && PublicSchema(raw, true).value.Obj?
            && var all := PublicSchema(raw, true).value.fields;
            && Declared(all) == PropertiesField(base).value.fields
            && (forall g :: g in all <==>
                  || g == PropertiesField(base) || g == RequiredField(base)
                  || (g in base && g.key != "properties" && g.key != "required"))
  {
    PlainRootNormalized(raw);
    PublicFields(raw);
    var base := NormalizeSiblings(raw.fields);
    PutTwice(base, PropertiesField(base), RequiredField(base));
  }

  lemma NormalizedShape(f: Field)
    requires WellFormedField(f)
    ensures f.key == "properties" ==> Normalize(f.value).Obj?
    ensures f.key == "required" ==> Normalize(f.value).Arr?
  {
    if f.key == "properties" {
      PropertyMembers(f.value.fields);
    } else if f.key == "required" {
      StringsStay(f.value);
    }
  }

  /** The normalised field under a key comes from the raw field under it. */
  lemma BaseField(raw: Json, key: string) returns (f: Field)
    requires WellFormed(raw) && PlainRoot(raw) && Get(NormalizeSiblings(raw.fields), key).Some?
    ensures f in raw.fields && f.key == key && WellFormedField(f)
    ensures Get(NormalizeSiblings(raw.fields), key) == Some(Normalize(f.value))
  {
    var base := NormalizeSiblings(raw.fields);
    SiblingMembers(raw.fields);
    var j :| 0 <= j < |base| && base[j] == Field(key, Get(base, key).value);
    assert base[j] in base;
    f :| f in raw.fields && f.key != "anyOf" && base[j] == NormalizedField(f);
    var i :| 0 <= i < |raw.fields| && raw.fields[i] == f;
    assert WellFormedField(raw.fields[i]);
  }

  lemma PublicFields(raw: Json)
    requires WellFormed(raw) && PlainRoot(raw)
    ensures var base := NormalizeSiblings(raw.fields);
            GetOr(base, "properties", Obj([])).Obj? && GetOr(base, "required", Arr([])).Arr?
  {
    var base := NormalizeSiblings(raw.fields);
    if Get(base, "properties").Some? {
      var f := BaseField(raw, "properties");
      NormalizedShape(f);
    }
    if Get(base, "required").Some? {
      var f := BaseField(raw, "required");
      NormalizedShape(f);
    }
  }

  lemma {:induction false} DropKeeps(props: seq<Field>, key: string)
    ensures Get(DropInternal(props), key).Some? <==> Get(props, key).Some? && key !in INTERNAL_WRITE_ARGUMENTS
  {
    DropMembers(props);
    var kept := DropInternal(props);
    if key !in INTERNAL_WRITE_ARGUMENTS && Get(props, key).Some? {
      var i :| 0 <= i < |props| && props[i].key == key;
      assert props[i] in kept;
      var j :| 0 <= j < |kept| && kept[j] == props[i];
    }
    if Get(kept, key).Some? {
      var j :| 0 <= j < |kept| && kept[j].key == key;
      assert kept[j] in props;
      var i :| 0 <= i < |props| && props[i] == kept[j];
    }
  }

  /** What is shown are the raw properties that are not internal. */
  lemma ShownIff(raw: Json, key: string)
    requires WellFormed(raw) && PlainRoot(raw)
    requires GetOr(NormalizeSiblings(raw.fields), "properties", Obj([])).Obj?
    ensures Get(PropertiesField(NormalizeSiblings(raw.fields)).value.fields, key).Some?
       <==> Get(Declared(raw.fields), key).Some? && key !in INTERNAL_WRITE_ARGUMENTS
  {
    DeclaredStay(raw.fields);
    DropKeeps(Declared(NormalizeSiblings(raw.fields)), key);
  }

  /** Internal arguments, under internal names only. */
  predicate OnlyInternal(internals: seq<Field>) {
    && DistinctKeys(internals)
    && (forall i | 0 <= i < |internals| :: internals[i].key in INTERNAL_WRITE_ARGUMENTS)
  }

  lemma ModelArgument(args: seq<Field>, internals: seq<Field>, key: string)
    requires OnlyInternal(internals) && key !in INTERNAL_WRITE_ARGUMENTS
    ensures Get(Update(args, internals), key) == Get(args, key)
  {
    GetUpdate(args, internals, key);
  }

  lemma NullFreeArgument(args: seq<Field>, key: string)
    requires NullFree(Obj(args)) && Get(args, key).Some?
    ensures NullFree(Get(args, key).value)
  {
    var i :| 0 <= i < |args| && args[i] == Field(key, Get(args, key).value);
    assert NullFree(args[i].value);
  }

  lemma AcceptedField(raw: Json, f: Field, v: Json, local: Local)
    requires raw.Obj? && Accepts(raw, v, local) && f in raw.fields
    ensures FieldOk(f, Declared(raw.fields), v, local)
  {
    var i :| 0 <= i < |raw.fields| && raw.fields[i] == f;
    assert FieldOk(raw.fields[i], Declared(raw.fields), v, local);
  }

  lemma FieldOfFragment(raw: Json, f: Field)
    requires raw.Obj? && WellFormed(raw) && NoClash(raw) && f in raw.fields
    ensures WellFormedField(f) && NoClashField(f)
  {
    var i :| 0 <= i < |raw.fields| && raw.fields[i] == f;
    assert WellFormedField(raw.fields[i]) && NoClashField(raw.fields[i]);
  }

  /** A null-free argument that meets a raw property meets the normalised one. */
  lemma OnePropertyShown(p: Field, args: seq<Field>, internals: seq<Field>, local: Local)
    requires WellFormed(p.value) && NoClash(p.value) && NullFree(Obj(args))
    requires OnlyInternal(internals) && p.key !in INTERNAL_WRITE_ARGUMENTS
    requires PropertyOk(p, Obj(Update(args, internals)), local)
    ensures PropertyOk(NormalizedField(p), Obj(args), local)
  {
    ModelArgument(args, internals, p.key);
    if Get(args, p.key).Some? {
      NullFreeArgument(args, p.key);
      NormalizePreserves(p.value, Get(args, p.key).value, local);
    }
  }

  lemma PropertiesShown(f: Field, args: seq<Field>, internals: seq<Field>, local: Local)
    requires f.key == "properties" && WellFormedField(f) && NoClashField(f) && NullFree(Obj(args))
    requires OnlyInternal(internals)
    requires forall i | 0 <= i < |f.value.fields| :: PropertyOk(f.value.fields[i], Obj(Update(args, internals)), local)
    requires Normalize(f.value).Obj?
    ensures forall q | q in DropInternal(Normalize(f.value).fields) :: PropertyOk(q, Obj(args), local)
  {
    var props := f.value.fields;
    PropertyMembers(props);
    DropMembers(Normalize(f.value).fields);
    forall q | q in DropInternal(Normalize(f.value).fields) ensures PropertyOk(q, Obj(args), local) {
      var p :| p in props && q == NormalizedField(p);
      var i :| 0 <= i < |props| && props[i] == p;
      assert WellFormed(props[i].value) && NoClash(props[i].value);
      OnePropertyShown(p, args, internals, local);
    }
  }

  /** The shown properties hold of the arguments of the model. */
  lemma PropertiesPassPublic(raw: Json, args: seq<Field>, internals: seq<Field>, local: Local)
    requires WellFormed(raw) && NoClash(raw) && PlainRoot(raw) && OnlyInternal(internals) && NullFree(Obj(args))
    requires Accepts(raw, Obj(Update(args, internals)), local)
    requires GetOr(NormalizeSiblings(raw.fields), "properties", Obj([])).Obj?
    ensures forall q | q in PropertiesField(NormalizeSiblings(raw.fields)).value.fields ::
              PropertyOk(q, Obj(args), local)
  {
    if Get(NormalizeSiblings(raw.fields), "properties").Some? {
      var f := BaseField(raw, "properties");
      FieldOfFragment(raw, f);
      AcceptedField(raw, f, Obj(Update(args, internals)), local);
      PropertiesShown(f, args, internals, local);
    }
  }

  /** So do the required names that are left. */
  lemma RequiredPassPublic(raw: Json, args: seq<Field>, internals: seq<Field>, local: Local)
    requires WellFormed(raw) && PlainRoot(raw) && OnlyInternal(internals)
    requires Accepts(raw, Obj(Update(args, internals)), local)
    requires GetOr(NormalizeSiblings(raw.fields), "required", Arr([])).Arr?
    ensures RequiredOk(RequiredField(NormalizeSiblings(raw.fields)).value, Obj(args))
  {
    if Get(NormalizeSiblings(raw.fields), "required").Some? {
      var f := BaseField(raw, "required");
      AcceptedField(raw, f, Obj(Update(args, internals)), local);
      StringsStay(f.value);
      NamesPass(f.value.items, args, internals);
    }
  }

  lemma NamesPass(names: seq<Json>, args: seq<Field>, internals: seq<Field>)
    requires OnlyInternal(internals) && RequiredOk(Arr(names), Obj(Update(args, internals)))
    ensures RequiredOk(Arr(DropInternalNames(names)), Obj(args))
  {
    DropNameMembers(names);
    var kept := DropInternalNames(names);
    forall i | 0 <= i < |kept| ensures kept[i].Str? && Get(args, kept[i].text).Some? {
      assert kept[i] in names;
      var j :| 0 <= j < |names| && names[j] == kept[i];
      assert names[j].Str?;
      ModelArgument(args, internals, names[j].text);
    }
  }

  /** And the additionalProperties, given that they let internal names through. */
  lemma AdditionalPassPublic(raw: Json, f: Field, args: seq<Field>, internals: seq<Field>, local: Local)
    requires WellFormed(raw) && NoClash(raw) && PlainRoot(raw) && OnlyInternal(internals) && NullFree(Obj(args))
    requires Accepts(raw, Obj(Update(args, internals)), local) && InternalsAdmitted(raw, args, local)
    requires f in raw.fields && f.key == "additionalProperties"
    requires GetOr(NormalizeSiblings(raw.fields), "properties", Obj([])).Obj?
    ensures FieldOk(NormalizedField(f), PropertiesField(NormalizeSiblings(raw.fields)).value.fields, Obj(args), local)
  {
    var shown := PropertiesField(NormalizeSiblings(raw.fields)).value.fields;
    FieldOfFragment(raw, f);
    AcceptedField(raw, f, Obj(Update(args, internals)), local);
    forall i | 0 <= i < |args| && Get(shown, args[i].key).None?
      ensures Accepts(Normalize(f.value), Get(args, args[i].key).value, local)
    {
      var key := args[i].key;
      NullFreeArgument(args, key);
      if key !in INTERNAL_WRITE_ARGUMENTS {
        ShownIff(raw, key);
        AdditionalArgument(f, Declared(raw.fields), args, internals, key, local);
      }
      NormalizePreserves(f.value, Get(args, key).value, local);
    }
  }

  lemma AdditionalArgument(
    f: Field, declared: seq<Field>, args: seq<Field>, internals: seq<Field>, key: string, local: Local)
    requires f.key == "additionalProperties" && FieldOk(f, declared, Obj(Update(args, internals)), local)
    requires OnlyInternal(internals) && key !in INTERNAL_WRITE_ARGUMENTS
    requires Get(args, key).Some? && Get(declared, key).None?
    ensures Accepts(f.value, Get(args, key).value, local)
  {
    var full := Update(args, internals);
    ModelArgument(args, internals, key);
    var i :| 0 <= i < |full| && full[i].key == key;
    assert Accepts(f.value, Get(full, full[i].key).value, local);
  }

  /** Every other root keyword asks the same of two objects. */
  lemma OtherFieldSame(f: Field, a: seq<Field>, b: seq<Field>, x: seq<Field>, y: seq<Field>, local: Local)
    requires WellFormedField(f) && f.key != "anyOf" && f.key !in LOCAL_KEYWORDS
    requires f.key !in {"properties", "required", "additionalProperties"}
    requires FieldOk(f, a, Obj(x), local)
    ensures FieldOk(NormalizedField(f), b, Obj(y), local)
  {
    if f.key == "type" {
      if f.value.Arr? { StringsStay(f.value); }
      assert NormalizedField(f) == f;
      SameType(f.value, x, y);
    }
  }

  lemma SameType(t: Json, x: seq<Field>, y: seq<Field>)
    requires TypeOk(t, Obj(x))
    ensures TypeOk(t, Obj(y))
  {
    if t.Arr? {
      var i :| 0 <= i < |t.items| && t.items[i].Str? && HasType(t.items[i].text, Obj(x));
      assert HasType(t.items[i].text, Obj(y));
    }
  }

  /** One field of the public schema, from what the raw schema accepts. */
  lemma PublicFieldPasses(raw: Json, g: Field, args: seq<Field>, internals: seq<Field>, local: Local)
    requires WellFormed(raw) && NoClash(raw) && PlainRoot(raw) && OnlyInternal(internals) && NullFree(Obj(args))
    requires Accepts(raw, Obj(Update(args, internals)), local) && InternalsAdmitted(raw, args, local)
    requires GetOr(NormalizeSiblings(raw.fields), "properties", Obj([])).Obj?
    requires g in NormalizeSiblings(raw.fields) && g.key != "properties" && g.key != "required"
    ensures FieldOk(g, PropertiesField(NormalizeSiblings(raw.fields)).value.fields, Obj(args), local)
  {
    var shown := PropertiesField(NormalizeSiblings(raw.fields)).value.fields;
    SiblingMembers(raw.fields);
    var f :| f in raw.fields && f.key != "anyOf" && g == NormalizedField(f);
    FieldOfFragment(raw, f);
    if f.key == "additionalProperties" {
      AdditionalPassPublic(raw, f, args, internals, local);
    } else {
      AcceptedField(raw, f, Obj(Update(args, internals)), local);
      var i :| 0 <= i < |raw.fields| && raw.fields[i] == f;
      OtherFieldSame(f, Declared(raw.fields), shown, Update(args, internals), args, local);
    }
  }

  lemma RawCallPassesPublic(raw: Json, args: seq<Field>, internals: seq<Field>, local: Local)
    requires WellFormed(raw) && NoClash(raw) && PlainRoot(raw) && OnlyInternal(internals) && NullFree(Obj(args))
    requires Accepts(raw, Obj(Update(args, internals)), local) && InternalsAdmitted(raw, args, local)
    ensures PublicSchema(raw, true).Some? && Accepts(PublicSchema(raw, true).value, Obj(args), local)
  {
    PublicForm(raw);
    var base := NormalizeSiblings(raw.fields);
    var all := PublicSchema(raw, true).value.fields;
    var shown := PropertiesField(base).value.fields;
    PropertiesPassPublic(raw, args, internals, local);
    RequiredPassPublic(raw, args, internals, local);
    forall g | g in all ensures FieldOk(g, shown, Obj(args), local) {
      if g != PropertiesField(base) && g != RequiredField(base) {
        PublicFieldPasses(raw, g, args, internals, local);
      }
    }
    AcceptsIsAllOk(all, Obj(args), local);
  }

  /** What the public schema lets through under an internal name, the raw additionalProperties do too. */
  lemma PublicCallAdmitsInternals(raw: Json, args: seq<Field>, local: Local)
    requires WellFormed(raw) && NoClash(raw) && PlainRoot(raw)
    requires PublicSchema(raw, true).Some? && Accepts(PublicSchema(raw, true).value, Obj(args), local)
    ensures InternalsAdmitted(raw, args, local)
  {
    PublicForm(raw);
    PlainRootNormalized(raw);
    var all := PublicSchema(raw, true).value.fields;
    AcceptsIsAllOk(all, Obj(args), local);
    forall f, key | f in raw.fields && f.key == "additionalProperties"
                    && key in INTERNAL_WRITE_ARGUMENTS && Get(args, key).Some?
      ensures Accepts(f.value, Get(args, key).value, local)
    {
      assert NormalizedField(f) in all;
      ShownIff(raw, key);
      FieldOfFragment(raw, f);
      var i :| 0 <= i < |args| && args[i].key == key;
      NormalizePreserves(f.value, Get(args, key).value, local);
    }
  }

  /**
   The two checks of a call without nulls to the write tool.  The public schema takes the arguments of
   the model exactly when the raw schema takes them with the internal arguments in, and lets through
   whatever the model itself passed under an internal name.
   */
  lemma WriteCallCheck(raw: Json, args: seq<Field>, internals: seq<Field>, local: Local)
    requires WellFormed(raw) && NoClash(raw) && PlainRoot(raw) && WellTyped(raw, internals, local)
    requires NullFree(Obj(args))
    ensures PublicSchema(raw, true).Some?
    ensures Accepts(PublicSchema(raw, true).value, Obj(args), local) <==>
            Accepts(raw, Obj(Update(args, internals)), local) && InternalsAdmitted(raw, args, local)
  {
    PublicForm(raw);
    if Accepts(PublicSchema(raw, true).value, Obj(args), local) {
      PublicCallPassesRaw(raw, args, internals, local);
      PublicCallAdmitsInternals(raw, args, local);
    }
    if Accepts(raw, Obj(Update(args, internals)), local) && InternalsAdmitted(raw, args, local) {
      RawCallPassesPublic(raw, args, internals, local);
    }
  }
}
