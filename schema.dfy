/**
 * The request-body validator: the fragment of JSON Schema that the task
 * schema uses (type, properties, minLength, enum, required,
 * additionalProperties), interpreted as the validator library interprets it,
 * and the task schema itself as a constant.
 */
module Schema {
  import opened Json

  datatype JsonType = StringType | BooleanType

  /** The schema of one property: its type, `minLength` (0 when absent) and optional `enum`. */
  datatype PropertySchema = PropertySchema(kind: JsonType, minLength: nat, enumeration: Option<seq<Json>>)

  /** An object schema (`type: "object"`) with its `properties`, `required` and `additionalProperties`. */
  datatype ObjectSchema = ObjectSchema(properties: map<string, PropertySchema>, required: seq<string>, additionalProperties: bool)

  predicate HasType(v: Json, kind: JsonType)
  {
    match kind
    case StringType => v.JStr?
    case BooleanType => v.JBool?
  }

  /** `minLength` counts code points, which is what the length of a `string` is here. */
  predicate ConformsTo(v: Json, p: PropertySchema)
  {
    && HasType(v, p.kind)
    && (v.JStr? ==> |v.s| >= p.minLength)
    && (p.enumeration.Some? ==> v in p.enumeration.value)
  }

  /** A property schema constrains a key only when the key is present; `required` demands presence. */
  predicate Validates(schema: ObjectSchema, v: Json)
  {
    && v.JObj?
    && (forall k :: k in v.fields && k in schema.properties ==> ConformsTo(v.fields[k], schema.properties[k]))
    && (forall k :: k in schema.required ==> k in v.fields)
    && (!schema.additionalProperties ==> v.fields.Keys <= schema.properties.Keys)
  }

  const NON_EMPTY_STRING := PropertySchema(StringType, 1, None)
  const PRIORITY_LEVELS := [JStr("low"), JStr("medium"), JStr("high")]

  /** The task schema of the service. */
  const TASK_SCHEMA := ObjectSchema(
    map[
      "id" := NON_EMPTY_STRING,
      "title" := NON_EMPTY_STRING,
      "description" := NON_EMPTY_STRING,
      "completed" := PropertySchema(BooleanType, 0, None),
      "priority" := PropertySchema(StringType, 0, Some(PRIORITY_LEVELS))
    ],
    ["title", "description", "completed", "priority"],
    false)

  predicate IsValidTask(body: Json)
  {
    Validates(TASK_SCHEMA, body)
  }

  predicate NonEmptyText(v: Json)
  {
    v.JStr? && v.s != ""
  }

  /** What the task schema accepts, stated field by field. */
  lemma TaskSchemaMeaning(body: Json)
    ensures IsValidTask(body) <==>
      && body.JObj?
      && body.fields.Keys <= {"id", "title", "description", "completed", "priority"}
      && "title" in body.fields && NonEmptyText(body.fields["title"])
      && "description" in body.fields && NonEmptyText(body.fields["description"])
      && "completed" in body.fields && body.fields["completed"].JBool?
      && "priority" in body.fields && body.fields["priority"].JStr?
      && body.fields["priority"].s in {"low", "medium", "high"}
      && ("id" in body.fields ==> NonEmptyText(body.fields["id"]))
  {
    var props := TASK_SCHEMA.properties;
    assert props.Keys == {"id", "title", "description", "completed", "priority"};
    if IsValidTask(body) {
      var f := body.fields;
      assert "title" in TASK_SCHEMA.required;
      assert "description" in TASK_SCHEMA.required;
      assert "completed" in TASK_SCHEMA.required;
      assert "priority" in TASK_SCHEMA.required;
      assert ConformsTo(f["title"], props["title"]);
      assert ConformsTo(f["description"], props["description"]);
      assert ConformsTo(f["completed"], props["completed"]);
      assert ConformsTo(f["priority"], props["priority"]);
      assert f["priority"] in PRIORITY_LEVELS;
      if "id" in f {
        assert ConformsTo(f["id"], props["id"]);
      }
    }
  }

  /** A body that carries `createdAt` (as every task POST creates does) is rejected. */
  lemma CreatedAtRejected(body: Json)
    requires body.JObj? && "createdAt" in body.fields
    ensures !IsValidTask(body)
  {
    assert "createdAt" !in TASK_SCHEMA.properties;
  }

  /** The priority of an accepted body is one of the three levels. */
  lemma PriorityOfValid(body: Json)
    requires IsValidTask(body)
    ensures "priority" in body.fields && body.fields["priority"] in PRIORITY_LEVELS
  {
    assert "priority" in TASK_SCHEMA.required;
    assert ConformsTo(body.fields["priority"], TASK_SCHEMA.properties["priority"]);
  }
  /** Sample bodies: a complete one is accepted; a bare title, an unknown level and an empty title are not. */
  lemma SchemaExamples()
    ensures IsValidTask(JObj(map["title" := JStr("A"), "description" := JStr("d"), "completed" := JBool(false), "priority" := JStr("low")]))
    ensures !IsValidTask(JObj(map["title" := JStr("A")]))
    ensures !IsValidTask(JObj(map["title" := JStr("A"), "description" := JStr("d"), "completed" := JBool(false), "priority" := JStr("urgent")]))
    ensures !IsValidTask(JObj(map["title" := JStr(""), "description" := JStr("d"), "completed" := JBool(true), "priority" := JStr("high")]))
    ensures !IsValidTask(JArr([]))
  {
    TaskSchemaMeaning(JObj(map["title" := JStr("A"), "description" := JStr("d"), "completed" := JBool(false), "priority" := JStr("low")]));
    TaskSchemaMeaning(JObj(map["title" := JStr("A")]));
    TaskSchemaMeaning(JObj(map["title" := JStr("A"), "description" := JStr("d"), "completed" := JBool(false), "priority" := JStr("urgent")]));
    TaskSchemaMeaning(JObj(map["title" := JStr(""), "description" := JStr("d"), "completed" := JBool(true), "priority" := JStr("high")]));
  }
}
