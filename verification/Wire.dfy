/**
 Wire tables. A table maps slots to values; a scalar equal to its schema default is left out when
 the table is built and filled in again when it is read.
 */
module Wire {
  import opened Std

  /** One field of a schema. `width` bounds a scalar; enumerations and flags are one-byte scalars. */
  datatype Field =
    | Scalar(default: nat, width: nat)
    | Text(required: bool)
    | Bytes
    | Tables(required: bool, schema: seq<Field>)

  datatype Value = Number(n: nat) | Word(text: string) | Blob(bytes: seq<u8>) | Many(objects: seq<Object>) | Absent

  /** An unpacked object: one value for each field of its schema. */
  type Object = seq<Value>

  datatype Slot = SlotNumber(n: nat) | SlotText(text: string) | SlotBytes(bytes: seq<u8>) | SlotTables(tables: seq<Table>)

  type Table = map<nat, Slot>

  const BYTE := 0x100
  const WORD := 0x1_0000_0000
  const LONG := 0x1_0000_0000_0000_0000

  /** The slot of the field at position `i` of a schema. */
  function SlotOf(i: nat): nat {
    4 + 2 * i
  }

  /** The kind and the range of a value. */
  predicate Fits(field: Field, value: Value) {
    match field
    case Scalar(_, width) => value.Number? && value.n < width
    case Text(required) => value.Word? || (!required && value.Absent?)
    case Bytes => value.Blob?
    case Tables(required, _) => value.Many? || (!required && value.Absent?)
  }

  predicate Conforms(schema: seq<Field>, fields: Object)
    decreases schema
  {
    |schema| == |fields| && forall i :: 0 <= i < |schema| ==>
      && Fits(schema[i], fields[i])
      && (fields[i].Many? ==> forall j :: 0 <= j < |fields[i].objects| ==> Conforms(schema[i].schema, fields[i].objects[j]))
  }

  predicate Holds(field: Field, value: Value) {
    Fits(field, value)
    && (value.Many? ==> forall j :: 0 <= j < |value.objects| ==> Conforms(field.schema, value.objects[j]))
  }

  function PackField(field: Field, value: Value): Option<Slot>
    requires Holds(field, value)
    decreases field, 0
  {
    match value
    case Number(n) => if n == field.default then None else Some(SlotNumber(n))
    case Word(text) => Some(SlotText(text))
    case Blob(bytes) => Some(SlotBytes(bytes))
    case Many(objects) =>
      Some(SlotTables(seq(|objects|, i requires 0 <= i < |objects| => Pack(field.schema, objects[i]))))
    case Absent => None
  }

  function Pack(schema: seq<Field>, fields: Object): Table
    requires Conforms(schema, fields)
    decreases schema, 1
  {
    map i | 0 <= i < |schema| && PackField(schema[i], fields[i]).Some? :: SlotOf(i) := PackField(schema[i], fields[i]).value
  }

  function UnpackField(field: Field, slot: Option<Slot>): (r: Option<Value>)
    ensures r.Some? ==> Holds(field, r.value)
    decreases field, 0
  {
    match (field, slot)
    case (Scalar(default, width), None) => if default < width then Some(Number(default)) else None
    case (Scalar(_, width), Some(SlotNumber(n))) => if n < width then Some(Number(n)) else None
    case (Text(required), None) => if required then None else Some(Absent)
    case (Text(_), Some(SlotText(text))) => Some(Word(text))
    case (Bytes, Some(SlotBytes(bytes))) => Some(Blob(bytes))
    case (Tables(required, _), None) => if required then None else Some(Absent)
    case (Tables(_, schema), Some(SlotTables(tables))) =>
      if forall i :: 0 <= i < |tables| ==> Unpack(schema, tables[i]).Some? then
        Some(Many(seq(|tables|, i requires 0 <= i < |tables| => Unpack(schema, tables[i]).value)))
      else None
    case _ => None
  }

  function Entry(table: Table, i: nat): Option<Slot> {
    if SlotOf(i) in table then Some(table[SlotOf(i)]) else None
  }

  /** None when the table is not one of the schema: a required field is missing, or a slot has the wrong kind. */
  function Unpack(schema: seq<Field>, table: Table): (r: Option<Object>)
    ensures r.Some? ==> Conforms(schema, r.value)
    decreases schema, 1
  {
    if forall i :: 0 <= i < |schema| ==> UnpackField(schema[i], Entry(table, i)).Some? then
      Some(seq(|schema|, i requires 0 <= i < |schema| => UnpackField(schema[i], Entry(table, i)).value))
    else None
  }

  // Elision is invisible.

  lemma EntryOfPack(schema: seq<Field>, fields: Object, i: nat)
    requires Conforms(schema, fields) && i < |schema|
    ensures Entry(Pack(schema, fields), i) == PackField(schema[i], fields[i])
  {
    if PackField(schema[i], fields[i]).None? {
      forall j | 0 <= j < |schema| && SlotOf(j) == SlotOf(i) ensures j == i {
      }
    }
  }

  lemma {:induction false} UnpackPackedField(field: Field, value: Value)
    requires Holds(field, value)
    requires field.Scalar? ==> field.default < field.width
    requires field.Tables? ==> WellMade(field.schema)
    ensures UnpackField(field, PackField(field, value)) == Some(value)
    decreases field, 0
  {
    if value.Many? {
      var objects := value.objects;
      forall i | 0 <= i < |objects| ensures Unpack(field.schema, Pack(field.schema, objects[i])) == Some(objects[i]) {
        UnpackPacked(field.schema, objects[i]);
      }
      var r := UnpackField(field, PackField(field, value));
      assert r.Some? && r.value.objects == objects;
    }
  }

  /** Every scalar's default is one of its values. */
  predicate WellMade(schema: seq<Field>)
    decreases schema
  {
    forall i :: 0 <= i < |schema| ==>
      && (schema[i].Scalar? ==> schema[i].default < schema[i].width)
      && (schema[i].Tables? ==> WellMade(schema[i].schema))
  }

  /** Packing and unpacking give the object back, whichever of its scalars are defaults. */
  lemma {:induction false} UnpackPacked(schema: seq<Field>, fields: Object)
    requires WellMade(schema) && Conforms(schema, fields)
    ensures Unpack(schema, Pack(schema, fields)) == Some(fields)
    decreases schema, 1
  {
    var table := Pack(schema, fields);
    forall i | 0 <= i < |schema| ensures UnpackField(schema[i], Entry(table, i)) == Some(fields[i]) {
      EntryOfPack(schema, fields, i);
      UnpackPackedField(schema[i], fields[i]);
    }
    assert Unpack(schema, table).value == fields;
  }

  /** A slot is written exactly when its value is neither absent nor the default. */
  lemma SlotWrittenIff(schema: seq<Field>, fields: Object, i: nat)
    requires Conforms(schema, fields) && i < |schema|
    ensures SlotOf(i) in Pack(schema, fields) <==> fields[i] != Absent && (schema[i].Scalar? ==> fields[i] != Number(schema[i].default))
  {
    EntryOfPack(schema, fields, i);
  }

  /** A table that lacks a required field is refused. */
  lemma RequiredIsThere(schema: seq<Field>, table: Table, i: nat)
    requires i < |schema| && (schema[i].Bytes? || ((schema[i].Text? || schema[i].Tables?) && schema[i].required))
    ensures Unpack(schema, table).Some? ==> SlotOf(i) in table
  {
    if Unpack(schema, table).Some? {
      assert UnpackField(schema[i], Entry(table, i)).Some?;
    }
  }

  // Vectors of objects.

  /** Every object converted, or none when one of them cannot be. */
  function Collect<X>(objects: seq<Object>, from: Object --> Option<X>): (r: Option<seq<X>>)
    requires forall i :: 0 <= i < |objects| ==> from.requires(objects[i])
    ensures r.Some? <==> forall i :: 0 <= i < |objects| ==> from(objects[i]).Some?
    ensures r.Some? ==> |r.value| == |objects| && forall i :: 0 <= i < |objects| ==> r.value[i] == from(objects[i]).value
  {
    if forall i :: 0 <= i < |objects| ==> from(objects[i]).Some? then
      Some(seq(|objects|, i requires 0 <= i < |objects| => from(objects[i]).value))
    else None
  }

  function Each<X>(values: seq<X>, to: X -> Object): (objects: seq<Object>)
    ensures |objects| == |values| && forall i :: 0 <= i < |values| ==> objects[i] == to(values[i])
  {
    seq(|values|, i requires 0 <= i < |values| => to(values[i]))
  }

  lemma CollectEach<X>(values: seq<X>, to: X -> Object, from: Object --> Option<X>)
    requires forall i :: 0 <= i < |values| ==> from.requires(to(values[i])) && from(to(values[i])) == Some(values[i])
    ensures Collect(Each(values, to), from) == Some(values)
  {
    var objects := Each(values, to);
    forall i | 0 <= i < |objects| ensures from(objects[i]) == Some(values[i]) {
      assert objects[i] == to(values[i]);
    }
    var r := Collect(objects, from);
    assert r.Some? && r.value == values;
  }
}
