/**
 The null-normaliser of MCP input schemas, and the public schema a model sees.

 Acceptance follows JSON Schema Draft 2020-12 on the keywords type, properties, additionalProperties,
 required, items and anyOf, and on the local assertions of the validation vocabulary, which a
 function parameter decides.
 */
module SchemaNormalizer {
  import opened Wrappers
  import opened Json

  // ----- dict.update -----

  function Put(fields: seq<Field>, f: Field): seq<Field> {
    if fields == [] then [f]
    else if fields[0].key == f.key then [f] + fields[1..]
    else [fields[0]] + Put(fields[1..], f)
  }

  function Update(fields: seq<Field>, extra: seq<Field>): seq<Field>
    decreases |extra|
  {
    if extra == [] then fields else Update(Put(fields, extra[0]), extra[1..])
  }

  // ----- the normaliser -----

  predicate IsConcrete(branch: Json) {
    branch.Obj? && Get(branch.fields, "type") != Some(Str("null"))
  }

  predicate IsNullBranch(branch: Json) {
    branch.Obj? && Get(branch.fields, "type") == Some(Str("null"))
  }

  /** The concrete branch of a two-branch anyOf whose other branch is the null type. */
  function NullableBranch(fields: seq<Field>): (r: Option<Json>)
    ensures r.Some? ==> r.value.Obj? && r.value < Obj(fields)
  {
    match Get(fields, "anyOf")
    case Some(Arr(branches)) =>
      if |branches| != 2 then None
      else if IsConcrete(branches[0]) && IsNullBranch(branches[1]) then Some(branches[0])
      else if IsNullBranch(branches[0]) && IsConcrete(branches[1]) then Some(branches[1])
      else None
    case _ => None
  }

  function Normalize(j: Json): Json
    decreases j, 0
  {
    match j
    case Arr(items) => Arr(NormalizeItems(items))
    case Obj(fields) =>
      var base := NormalizeSiblings(fields);
      (match NullableBranch(fields)
       case Some(concrete) =>
         assert concrete < j;
         Obj(Update(base, Normalize(concrete).fields))
       case None =>
         match Get(fields, "anyOf")
         case None => Obj(base)
         case Some(Null) => Obj(base)
         case Some(branches) => Obj(Update(base, [Field("anyOf", Normalize(branches))])))
    case _ => j
  }

  function NormalizeItems(items: seq<Json>): seq<Json>
    decreases items, |items|
  {
    if items == [] then [] else [Normalize(items[0])] + NormalizeItems(items[1..])
  }

  /** Every key but anyOf keeps its place. */
  function NormalizeSiblings(fields: seq<Field>): seq<Field>
    decreases fields, |fields|
  {
    if fields == [] then []
    else
      (if fields[0].key == "anyOf" then [] else [Field(fields[0].key, Normalize(fields[0].value))])
      + NormalizeSiblings(fields[1..])
  }

  // ----- the schema shown to the model -----

  const INTERNAL_WRITE_ARGUMENTS: set<string> := {"run_id", "approval_id", "call_id"}

  function DropInternal(props: seq<Field>): seq<Field> {
    if props == [] then []
    else (if props[0].key in INTERNAL_WRITE_ARGUMENTS then [] else [props[0]]) + DropInternal(props[1..])
  }

  function DropInternalNames(names: seq<Json>): seq<Json> {
    if names == [] then []
    else
      (if names[0].Str? && names[0].text in INTERNAL_WRITE_ARGUMENTS then [] else [names[0]])
      + DropInternalNames(names[1..])
  }

  /** None where the Python code raises: no object, or properties and required of the wrong type. */
  function PublicSchema(raw: Json, sandboxWrite: bool): Option<Json> {
    match Normalize(raw)
    case Obj(fields) =>
      if !sandboxWrite then Some(Obj(fields))
      else (
        match (GetOr(fields, "properties", Obj([])), GetOr(fields, "required", Arr([])))
        case (Obj(props), Arr(names)) =>
          Some(Obj(Put(Put(fields, Field("properties", Obj(DropInternal(props)))),
                       Field("required", Arr(DropInternalNames(names))))))
        case _ => None)
    case _ => None
  }

  function GetOr(fields: seq<Field>, key: string, absent: Json): Json {
    match Get(fields, key)
    case None => absent
    case Some(value) => value
  }

  // ----- what a schema accepts -----

  /** A local assertion of the validation vocabulary, by keyword, keyword value and instance. */
  type Local = (string, Json, Json) -> bool

  const LOCAL_KEYWORDS: set<string> :=
    {"multipleOf", "maximum", "exclusiveMaximum", "minimum", "exclusiveMinimum", "maxLength", "minLength",
     "pattern", "maxItems", "minItems", "uniqueItems", "maxProperties", "minProperties", "enum", "const", "format"}

  const ANNOTATIONS: set<string> :=
    {"title", "description", "default", "deprecated", "readOnly", "writeOnly", "examples", "$comment"}

  predicate HasType(name: string, v: Json) {
    match v
    case Null => name == "null"
    case Bool(_) => name == "boolean"
    case Num(x) => name == "number" || (name == "integer" && x.Floor as real == x)
    case Str(_) => name == "string"
    case Arr(_) => name == "array"
    case Obj(_) => name == "object"
  }

  predicate TypeOk(t: Json, v: Json) {
    match t
    case Str(name) => HasType(name, v)
    case Arr(names) => exists i :: 0 <= i < |names| && names[i].Str? && HasType(names[i].text, v)
    case _ => false
  }

  predicate RequiredOk(names: Json, v: Json) {
    names.Arr? && (v.Obj? ==> forall i | 0 <= i < |names.items| ::
                                names.items[i].Str? && Get(v.fields, names.items[i].text).Some?)
  }

  /** The property schemas a node declares: what its additionalProperties is not about. */
  function Declared(fields: seq<Field>): seq<Field> {
    match Get(fields, "properties")
    case Some(Obj(props)) => props
    case _ => []
  }

  predicate Accepts(schema: Json, v: Json, local: Local)
    decreases schema
  {
    match schema
    case Bool(b) => b
    case Obj(fields) => forall i | 0 <= i < |fields| :: FieldOk(fields[i], Declared(fields), v, local)
    case _ => false
  }

  predicate FieldOk(f: Field, declared: seq<Field>, v: Json, local: Local)
    decreases f
  {
    if f.key == "type" then TypeOk(f.value, v)
    else if f.key == "required" then RequiredOk(f.value, v)
    else if f.key == "properties" then
      f.value.Obj? && forall i | 0 <= i < |f.value.fields| :: PropertyOk(f.value.fields[i], v, local)
    else if f.key == "additionalProperties" then
      v.Obj? ==> forall i | 0 <= i < |v.fields| && Get(declared, v.fields[i].key).None? ::
                   Accepts(f.value, Get(v.fields, v.fields[i].key).value, local)
    else if f.key == "items" then
      v.Arr? ==> forall i | 0 <= i < |v.items| :: Accepts(f.value, v.items[i], local)
    else if f.key == "anyOf" then
      f.value.Arr? && exists i :: 0 <= i < |f.value.items| && Accepts(f.value.items[i], v, local)
    else f.key in LOCAL_KEYWORDS ==> local(f.key, f.value, v)
  }

  /** A property schema is asked only about objects that have the property. */
  predicate PropertyOk(p: Field, v: Json, local: Local)
    decreases p
  {
    v.Obj? && Get(v.fields, p.key).Some? ==> Accepts(p.value, Get(v.fields, p.key).value, local)
  }

  // ----- the fragment -----

  predicate WellFormed(schema: Json)
    decreases schema
  {
    match schema
    case Bool(_) => true
    case Obj(fields) => DistinctKeys(fields) && forall i | 0 <= i < |fields| :: WellFormedField(fields[i])
    case _ => false
  }

  predicate WellFormedField(f: Field)
    decreases f
  {
    if f.key == "type" then f.value.Str? || IsStrings(f.value)
    else if f.key == "required" then IsStrings(f.value)
    else if f.key == "properties" then
      f.value.Obj? && DistinctKeys(f.value.fields)
      && forall i | 0 <= i < |f.value.fields| :: WellFormed(f.value.fields[i].value)
    else if f.key == "items" || f.key == "additionalProperties" then WellFormed(f.value)
    else if f.key == "anyOf" then
      f.value.Arr? && forall i | 0 <= i < |f.value.items| :: WellFormed(f.value.items[i])
    else f.key in ANNOTATIONS || (f.key in LOCAL_KEYWORDS && Normalize(f.value) == f.value)
  }

  predicate IsStrings(j: Json) {
    j.Arr? && forall i | 0 <= i < |j.items| :: j.items[i].Str?
  }

  predicate HasKey(fields: seq<Field>, key: string) {
    exists i :: 0 <= i < |fields| && fields[i].key == key
  }

  /**
   No assertion of a nullable node is overwritten by one of its concrete branch, and neither declares
   properties for an additionalProperties of the other.
   */
  predicate Separate(fields: seq<Field>, branch: seq<Field>) {
    && (forall i, j | 0 <= i < |fields| && 0 <= j < |branch| && fields[i].key == branch[j].key ::
          fields[i].key in ANNOTATIONS || fields[i].key == "anyOf")
    && !(HasKey(fields, "additionalProperties") && HasKey(branch, "properties"))
    && !(HasKey(fields, "properties") && HasKey(branch, "additionalProperties"))
  }

  predicate NoClash(schema: Json)
    decreases schema
  {
    match schema
    case Obj(fields) =>
      && (NullableBranch(fields).Some? ==> Separate(fields, Normalize(NullableBranch(fields).value).fields))
      && forall i | 0 <= i < |fields| :: NoClashField(fields[i])
    case _ => true
  }

  predicate NoClashField(f: Field)
    decreases f
  {
    if f.key == "properties" && f.value.Obj? then
      forall i | 0 <= i < |f.value.fields| :: NoClash(f.value.fields[i].value)
    else if f.key == "items" || f.key == "additionalProperties" then NoClash(f.value)
    else if f.key == "anyOf" && f.value.Arr? then
      forall i | 0 <= i < |f.value.items| :: NoClash(f.value.items[i])
    else true
  }

  predicate NullFree(v: Json)
    decreases v
  {
    match v
    case Null => false
    case Arr(items) => forall i | 0 <= i < |items| :: NullFree(items[i])
    case Obj(fields) => forall i | 0 <= i < |fields| :: NullFree(fields[i].value)
    case _ => true
  }
}
