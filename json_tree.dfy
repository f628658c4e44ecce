/** The small part of a decoded JSON tree that the "get sum" rule node touches:
    the top-level fields of an object node, looked up by name (`get`) and
    written by name (`put`). A Jackson object node keeps its fields in
    insertion order and never holds two fields with the same name. */
module JsonTree {

  datatype Option<+T> = None | Some(value: T)

  /** The outcome of a Jackson call that may throw an IOException;
      `cause` stands for the exception. */
  datatype Result<+T> = Ok(value: T) | Err(cause: string)

  datatype Field<+V> = Field(name: string, value: V)

  /** No two fields share a name. */
  ghost predicate DistinctNames<V>(fields: seq<Field<V>>) {
    forall i, j :: 0 <= i < j < |fields| ==> fields[i].name != fields[j].name
  }

  /** The value of the first field called `name`, or None (Java's null). */
  function Lookup<V>(fields: seq<Field<V>>, name: string): (r: Option<V>)
    ensures r.None? <==> forall i :: 0 <= i < |fields| ==> fields[i].name != name
    ensures r.Some? ==> exists i :: 0 <= i < |fields| && fields[i] == Field(name, r.value)
  {
    if fields == [] then None
    else if fields[0].name == name then Some(fields[0].value)
    else
      var r := Lookup(fields[1..], name);
      assert forall i :: 1 <= i < |fields| ==> fields[i] == fields[1..][i - 1];
      r
  }

  /** Sets the field `name` to `value`: an existing field keeps its position
      and gets the new value, a new field goes at the end. */
  function Insert<V>(fields: seq<Field<V>>, name: string, value: V): (r: seq<Field<V>>)
    ensures Lookup(r, name) == Some(value)
    ensures forall n :: n != name ==> Lookup(r, n) == Lookup(fields, n)
  {
    if fields == [] then [Field(name, value)]
    else if fields[0].name == name then
      var r := [Field(name, value)] + fields[1..];
      assert forall i :: 1 <= i < |r| ==> r[i] == fields[i];
      r
    else
      var rest := Insert(fields[1..], name, value);
      var r := [fields[0]] + rest;
      assert forall i :: 1 <= i < |r| ==> r[i] == rest[i - 1];
      r
  }

  datatype ObjectNode<+V> = ObjectNode(fields: seq<Field<V>>) {

    ghost predicate Valid() {
      DistinctNames(fields)
    }

    /** `fieldNames()`: the names in iteration order, each field once. */
    function FieldNames(): (names: seq<string>)
      ensures |names| == |fields|
      ensures forall i :: 0 <= i < |names| ==> names[i] == fields[i].name
      ensures Valid() ==> forall i, j :: 0 <= i < j < |names| ==> names[i] != names[j]
    {
      seq(|fields|, i requires 0 <= i < |fields| => fields[i].name)
    }

    /** `get(name)`. */
    function Get(name: string): Option<V> {
      Lookup(fields, name)
    }

    /** `put(name, value)`. */
    function Put(name: string, value: V): (r: ObjectNode<V>)
      ensures r.Get(name) == Some(value)
      ensures forall n :: n != name ==> r.Get(n) == Get(n)
    {
      ObjectNode(Insert(fields, name, value))
    }
  }

  /** `createObjectNode()`. */
  function EmptyObject<V>(): (r: ObjectNode<V>)
    ensures r.Valid() && r.FieldNames() == []
  {
    ObjectNode([])
  }

  /** In a node without duplicate names, looking up a field's name yields
      that very field's value: `get` on a name taken from `fieldNames()`
      never returns null and never another field's value. */
  lemma GetFieldValue<V>(node: ObjectNode<V>, i: nat)
    requires node.Valid()
    requires i < |node.fields|
    ensures node.Get(node.fields[i].name) == Some(node.fields[i].value)
  {
    // Lookup finds some field with this name, and in a valid node that can
    // only be field i.
  }
}
