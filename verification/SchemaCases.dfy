/** Schemas on which the normaliser changes the meaning, and the one write tool on which it does not. */
module SchemaCases {
  import opened Wrappers
  import opened Json
  import opened SchemaNormalizer
  import opened SchemaTheorems
  import opened SchemaCalls

  function TypeOnly(name: string): Json { Obj([Field("type", Str(name))]) }

  function Nullable(name: string): Field { Field("anyOf", Arr([TypeOnly(name), TypeOnly("null")])) }

  lemma TypeOnlyFacts(name: string, v: Json, local: Local)
    ensures Normalize(TypeOnly(name)) == TypeOnly(name)
    ensures WellFormed(TypeOnly(name)) && NoClash(TypeOnly(name))
    ensures Accepts(TypeOnly(name), v, local) <==> HasType(name, v)
    ensures Get(TypeOnly(name).fields, "type") == Some(Str(name))
  {
    var f := Field("type", Str(name));
    assert [f][1..] == [] && NormalizeSiblings([]) == [];
    assert NormalizeSiblings([f]) == [f];
    AcceptsIsAllOk([f], v, local);
    assert [f][0] == f;
  }

  lemma NullableFacts(name: string, v: Json, local: Local)
    requires name != "null"
    ensures WellFormedField(Nullable(name)) && NoClashField(Nullable(name))
    ensures FieldOk(Nullable(name), [], v, local) <==> HasType(name, v) || v.Null?
    ensures forall fields: seq<Field> | Get(fields, "anyOf") == Some(Nullable(name).value) ::
              NullableBranch(fields) == Some(TypeOnly(name))
  {
    TypeOnlyFacts(name, v, local);
    TypeOnlyFacts("null", v, local);
    TwoBranches(Nullable(name), 0, [], v, local);
  }

  lemma NullDropped(local: Local)
    ensures Normalize(Obj([Nullable("string")])) == TypeOnly("string")
  {
    var fields, c := [Nullable("string")], TypeOnly("string").fields;
    NullableFacts("string", Null, local);
    TypeOnlyFacts("string", Null, local);
    assert fields[1..] == [] && NormalizeSiblings(fields) == [];
    assert Get(fields, "anyOf") == Some(Nullable("string").value);
    assert Put([], c[0]) == c && c[1..] == [];
    assert Update([], c) == c;
  }

  /** A null that the raw schema takes is refused by the normalised one. */
  lemma NullIsLost(local: Local)
    ensures var schema := Obj([Nullable("string")]);
            && WellFormed(schema)
            && Accepts(schema, Null, local) && !Accepts(Normalize(schema), Null, local)
  {
    NullDropped(local);
    NullableFacts("string", Null, local);
    TypeOnlyFacts("string", Null, local);
    OneFieldAccepts(Nullable("string"), [], Null, local);
  }

  function StringAndNullableInteger(): seq<Field> { [Field("type", Str("string")), Nullable("integer")] }

  lemma OverwrittenType(local: Local)
    ensures Normalize(Obj(StringAndNullableInteger())) == TypeOnly("integer")
  {
    var fields, c := StringAndNullableInteger(), TypeOnly("integer").fields;
    NullableFacts("integer", Null, local);
    TypeOnlyFacts("integer", Null, local);
    assert fields[1..] == [Nullable("integer")] && fields[1..][1..] == [];
    assert Get(fields, "anyOf") == Get(fields[1..], "anyOf");
    assert NormalizeSiblings(fields[1..]) == [];
    assert NormalizeSiblings(fields) == [fields[0]];
    assert Put([fields[0]], c[0]) == c && c[1..] == [];
    assert Update([fields[0]], c) == c;
  }

  lemma OverwrittenIsWellFormed()
    ensures WellFormed(Obj(StringAndNullableInteger()))
  {
    var fields := StringAndNullableInteger();
    NullableFacts("integer", Null, (_, _, _) => true);
    assert |fields[0].key| == 4 && |fields[1].key| == 5;
    assert WellFormedField(fields[0]) && WellFormedField(fields[1]);
  }

  /** With a shared assertion key the normalised schema accepts what the raw one refuses. */
  lemma SharedKeyIsOverwritten(local: Local)
    ensures WellFormed(Obj(StringAndNullableInteger()))
    ensures Accepts(Normalize(Obj(StringAndNullableInteger())), Num(1.0), local)
    ensures !Accepts(Obj(StringAndNullableInteger()), Num(1.0), local)
  {
    var fields := StringAndNullableInteger();
    OverwrittenIsWellFormed();
    OverwrittenType(local);
    TypeOnlyFacts("integer", Num(1.0), local);
    assert !FieldOk(fields[0], Declared(fields), Num(1.0), local);
  }

  // ----- the write tool of this repository -----

  /** A dict[str, Any] parameter: an object whose further properties are not constrained. */
  function FreeObject(): Json {
    Obj([Field("additionalProperties", Bool(true)), Field("type", Str("object"))])
  }

  function WriteToolProperties(): seq<Field> {
    [Field("run_id", TypeOnly("string")), Field("approval_id", TypeOnly("string")),
     Field("call_id", TypeOnly("string")), Field("source_relative_path", TypeOnly("string")),
     Field("updates", FreeObject())]
  }

  function WriteToolSchema(): Json {
    Obj([Field("properties", Obj(WriteToolProperties())),
         Field("required", Arr([Str("run_id"), Str("approval_id"), Str("call_id"),
                                Str("source_relative_path"), Str("updates")])),
         Field("title", Str("apply_sandbox_config_patchArguments")),
         Field("type", Str("object"))])
  }

  lemma FreeObjectIsCovered()
    ensures WellFormed(FreeObject()) && NoClash(FreeObject())
  {
    assert NullableBranch(FreeObject().fields).None?;
  }

  lemma WriteToolNamesDiffer()
    ensures DistinctKeys(WriteToolProperties())
  {
    var ps := WriteToolProperties();
    assert |ps[0].key| == 6 && |ps[1].key| == 11 && |ps[2].key| == 7 && |ps[3].key| == 20;
    assert ps[0].key[0] == 'r' && ps[2].key[0] == 'c' && ps[4].key[0] == 'u';
  }

  lemma WriteToolPropertiesAreCovered()
    ensures WellFormedField(Field("properties", Obj(WriteToolProperties())))
    ensures NoClashField(Field("properties", Obj(WriteToolProperties())))
  {
    WriteToolNamesDiffer();
    FreeObjectIsCovered();
    TypeOnlyFacts("string", Null, (_, _, _) => true);
  }

  lemma RootKeysAreNotLocal()
    ensures "properties" !in LOCAL_KEYWORDS && "required" !in LOCAL_KEYWORDS
    ensures "title" !in LOCAL_KEYWORDS && "type" !in LOCAL_KEYWORDS
  {
  }

  lemma RootFieldsAreCovered(f: Field)
    requires f in WriteToolSchema().fields
    ensures WellFormedField(f) && NoClashField(f)
  {
    WriteToolPropertiesAreCovered();
  }

  /** The schema of the only sandbox-write tool meets every condition of SchemaCalls.PublicCallPassesRaw. */
  lemma WriteToolIsCovered()
    ensures WellFormed(WriteToolSchema()) && NoClash(WriteToolSchema()) && PlainRoot(WriteToolSchema())
  {
    var fs := WriteToolSchema().fields;
    assert |fs[0].key| == 10 && |fs[1].key| == 8 && |fs[2].key| == 5 && |fs[3].key| == 4;
    assert DistinctKeys(fs);
    forall i | 0 <= i < |fs| ensures fs[i].key != "anyOf" && fs[i].key !in LOCAL_KEYWORDS {
      RootKeysAreNotLocal();
      assert fs[i].key in {"properties", "required", "title", "type"};
    }
    forall i | 0 <= i < |fs| ensures WellFormedField(fs[i]) && NoClashField(fs[i]) {
      RootFieldsAreCovered(fs[i]);
    }
    NoAnyOf(fs);
  }

  lemma NoAnyOf(fields: seq<Field>)
    requires forall i | 0 <= i < |fields| :: fields[i].key != "anyOf"
    ensures NullableBranch(fields).None?
  {
  }
}
