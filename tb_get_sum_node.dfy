/** The "get sum" transformation rule node: it adds up the payload fields
    whose names start with the configured input key and emits a message
    whose payload is the single field `{outputKey: sum}`, or routes the
    original message to FAILURE when no field matches, or to the host's
    failure handler when the payload cannot be read or the result cannot
    be written.

    The Jackson calls the node makes are parameters: `readTree` (the JSON
    text to an object node, or the IOException it throws), `asDouble`
    (the lenient coercion of a field's value node to a number) and
    `writeValueAsString` (an object node of numbers back to JSON text, or
    the exception it throws). The value node type is the type parameter V.
    Doubles are modelled as reals. */
module GetSumNode {
  import opened JsonTree
  import opened RuleEngine

  /** The text of the exception attached to the no-match FAILURE route. */
  const NoKeyMessage := "Message doesn't contains the key: "

  /** Java's `String.startsWith`: case-sensitive, comparing the name's
      leading characters with the prefix one by one. Java compares UTF-16
      code units and a Dafny `char` is a Unicode scalar value; the two agree
      on well-formed strings. */
  predicate StartsWith(s: string, prefix: string) {
    |prefix| <= |s| && s[..|prefix|] == prefix
  }

  /** Some field name starts with `inputKey`. */
  predicate AnyMatch<V>(fields: seq<Field<V>>, inputKey: string) {
    exists i :: 0 <= i < |fields| && StartsWith(fields[i].name, inputKey)
  }

  /** What one field adds to the sum: its coerced value if its name
      matches, nothing otherwise. */
  function Contribution<V>(f: Field<V>, inputKey: string, asDouble: V -> real): real {
    if StartsWith(f.name, inputKey) then asDouble(f.value) else 0.0
  }

  /** The sum the node accumulates, field by field in iteration order,
      starting from 0. */
  function MatchingSum<V>(fields: seq<Field<V>>, inputKey: string, asDouble: V -> real): real
    decreases |fields|
  {
    if fields == [] then 0.0
    else MatchingSum(fields[..|fields| - 1], inputKey, asDouble)
         + Contribution(fields[|fields| - 1], inputKey, asDouble)
  }

  /** The fields whose names start with `inputKey`, in order. */
  function Selected<V>(fields: seq<Field<V>>, inputKey: string): (r: seq<Field<V>>)
    ensures forall i :: 0 <= i < |r| ==> r[i] in fields && StartsWith(r[i].name, inputKey)
    ensures forall i :: 0 <= i < |fields| && StartsWith(fields[i].name, inputKey) ==> fields[i] in r
  {
    if fields == [] then []
    else
      var rest := Selected(fields[1..], inputKey);
      assert forall i :: 1 <= i < |fields| ==> fields[i] == fields[1..][i - 1];
      if StartsWith(fields[0].name, inputKey) then [fields[0]] + rest else rest
  }

  /** The plain sum of the coerced values of all the given fields. */
  function Total<V>(fields: seq<Field<V>>, asDouble: V -> real): real {
    if fields == [] then 0.0 else asDouble(fields[0].value) + Total(fields[1..], asDouble)
  }

  /** The payload of the emitted message: a fresh object node with the
      single field `outputKey` holding the sum. */
  function SumPayload(outputKey: string, sum: real): (r: ObjectNode<real>)
    ensures r.fields == [Field(outputKey, sum)]
  {
    EmptyObject().Put(outputKey, sum)
  }

  /** Where `onMsg` sends a message; exactly one of these happens per call. */
  datatype Outcome =
    | /** `ctx.tellNext(newMsg, SUCCESS)` */
      Success(newMsg: TbMsg)
    | /** `ctx.tellNext(msg, FAILURE, new Exception(error))` */
      NoMatch(msg: TbMsg, error: string)
    | /** `ctx.tellFailure(msg, e)` for an IOException `e` */
      IoFailure(msg: TbMsg, cause: string)

  /** What `onMsg` does with `msg` under the given keys. */
  function Route<V>(
    inputKey: string,
    outputKey: string,
    msg: TbMsg,
    readTree: string -> Result<ObjectNode<V>>,
    asDouble: V -> real,
    writeValueAsString: ObjectNode<real> -> Result<string>): (r: Outcome)
    ensures readTree(msg.data).Err? ==> r == IoFailure(msg, readTree(msg.data).cause)
    ensures r.NoMatch? <==> readTree(msg.data).Ok? && !AnyMatch(readTree(msg.data).value.fields, inputKey)
    ensures r.NoMatch? ==> r.msg == msg && r.error == NoKeyMessage + inputKey
    ensures r.IoFailure? ==> r.msg == msg
    ensures readTree(msg.data).Ok? && AnyMatch(readTree(msg.data).value.fields, inputKey) ==>
      var written := writeValueAsString(SumPayload(outputKey, MatchingSum(readTree(msg.data).value.fields, inputKey, asDouble)));
      written.Err? ==> r == IoFailure(msg, written.cause)
    ensures r.Success? <==>
      readTree(msg.data).Ok? && AnyMatch(readTree(msg.data).value.fields, inputKey)
      && writeValueAsString(SumPayload(outputKey, MatchingSum(readTree(msg.data).value.fields, inputKey, asDouble))).Ok?
    ensures r.Success? ==>
      var written := writeValueAsString(SumPayload(outputKey, MatchingSum(readTree(msg.data).value.fields, inputKey, asDouble)));
      r.newMsg == msg.(data := written.value)
  {
    match readTree(msg.data)
    case Err(cause) => IoFailure(msg, cause)
    case Ok(jsonNode) =>
      if AnyMatch(jsonNode.fields, inputKey) then
        match writeValueAsString(SumPayload(outputKey, MatchingSum(jsonNode.fields, inputKey, asDouble)))
        case Err(cause) => IoFailure(msg, cause)
        case Ok(data) => Success(TbMsg(msg.msgType, msg.originator, msg.metaData, data))
      else
        NoMatch(msg, NoKeyMessage + inputKey)
  }

  class TbGetSumNode {
    var config: Option<Configuration>
    var inputKey: string
    var outputKey: string

    /** `init` has run: the keys are the configured ones. */
    predicate Valid()
      reads this
    {
      config.Some? && inputKey == config.value.inputKey && outputKey == config.value.outputKey
    }

    /** The rule engine creates the node before calling `init`; the Java
        fields are null until then, here `None` and empty strings. */
    constructor ()
      ensures config == None && !Valid()
    {
      config := None;
      inputKey := "";
      outputKey := "";
    }

    /** `init`: the only place the keys are set. */
    method Init(configuration: Configuration)
      modifies this
      ensures Valid()
      ensures config == Some(configuration)
      ensures inputKey == configuration.inputKey && outputKey == configuration.outputKey
    {
      config := Some(configuration);
      inputKey := configuration.inputKey;
      outputKey := configuration.outputKey;
    }

    /** `onMsg`: scans the field names once, accumulating the sum and the
        `hasRecords` flag, then routes the message. It modifies nothing, so
        the keys set by `Init` stay as they are. */
    method OnMsg<V>(
      msg: TbMsg,
      readTree: string -> Result<ObjectNode<V>>,
      asDouble: V -> real,
      writeValueAsString: ObjectNode<real> -> Result<string>) returns (r: Outcome)
      requires Valid()
      requires readTree(msg.data).Ok? ==> readTree(msg.data).value.Valid()
      ensures r == Route(inputKey, outputKey, msg, readTree, asDouble, writeValueAsString)
    {
      var sum := 0.0;
      var hasRecords := false;
      match readTree(msg.data)
      case Err(cause) =>
        r := IoFailure(msg, cause);
      case Ok(jsonNode) =>
        var names := jsonNode.FieldNames();
        var i := 0;
        while i < |names|
          invariant 0 <= i <= |names|
          invariant hasRecords == AnyMatch(jsonNode.fields[..i], inputKey)
          invariant sum == MatchingSum(jsonNode.fields[..i], inputKey, asDouble)
        {
          var field := names[i];
          assert jsonNode.fields[..i + 1][..i] == jsonNode.fields[..i];
          if StartsWith(field, inputKey) {
            hasRecords := true;
            GetFieldValue(jsonNode, i);
            sum := sum + asDouble(jsonNode.Get(field).value);
          } else {
            assert AnyMatch(jsonNode.fields[..i + 1], inputKey) ==> AnyMatch(jsonNode.fields[..i], inputKey) by {
              if AnyMatch(jsonNode.fields[..i + 1], inputKey) {
                var k :| 0 <= k < i + 1 && StartsWith(jsonNode.fields[..i + 1][k].name, inputKey);
                assert jsonNode.fields[..i][k] == jsonNode.fields[..i + 1][k];
              }
            }
          }
          i := i + 1;
        }
        assert jsonNode.fields[..i] == jsonNode.fields;
        if hasRecords {
          var outNode := EmptyObject().Put(outputKey, sum);
          match writeValueAsString(outNode)
          case Err(cause) =>
            r := IoFailure(msg, cause);
          case Ok(data) =>
            r := Success(TbMsg(msg.msgType, msg.originator, msg.metaData, data));
        } else {
          r := NoMatch(msg, NoKeyMessage + inputKey);
        }
    }
  }

  // Properties of the selection and the sum.

  lemma {:induction false} TotalAppend<V>(a: seq<Field<V>>, b: seq<Field<V>>, asDouble: V -> real)
    ensures Total(a + b, asDouble) == Total(a, asDouble) + Total(b, asDouble)
    decreases |a|
  {
    if a == [] {
      assert a + b == b;
    } else {
      assert (a + b)[0] == a[0];
      assert (a + b)[1..] == a[1..] + b;
      TotalAppend(a[1..], b, asDouble);
    }
  }

  lemma {:induction false} SelectedAppend<V>(a: seq<Field<V>>, b: seq<Field<V>>, inputKey: string)
    ensures Selected(a + b, inputKey) == Selected(a, inputKey) + Selected(b, inputKey)
    decreases |a|
  {
    if a == [] {
      assert a + b == b;
    } else {
      assert (a + b)[1..] == a[1..] + b;
      SelectedAppend(a[1..], b, inputKey);
    }
  }

  /** Each matching field occurs in the selection exactly as often as in
      the payload, and no other field occurs in it. */
  lemma {:induction false} SelectedCounts<V>(fields: seq<Field<V>>, inputKey: string)
    ensures forall f :: multiset(Selected(fields, inputKey))[f]
                        == (if StartsWith(f.name, inputKey) then multiset(fields)[f] else 0)
    decreases |fields|
  {
    if fields != [] {
      assert fields == [fields[0]] + fields[1..];
      SelectedCounts(fields[1..], inputKey);
    }
  }

  /** The accumulated sum is the plain sum over exactly the selected
      fields: fields whose names do not match contribute nothing. */
  lemma {:induction false} MatchingSumIsTotalOfSelected<V>(fields: seq<Field<V>>, inputKey: string, asDouble: V -> real)
    ensures MatchingSum(fields, inputKey, asDouble) == Total(Selected(fields, inputKey), asDouble)
    decreases |fields|
  {
    if fields != [] {
      var init, last := fields[..|fields| - 1], fields[|fields| - 1];
      assert fields == init + [last];
      MatchingSumIsTotalOfSelected(init, inputKey, asDouble);
      SelectedAppend(init, [last], inputKey);
      TotalAppend(Selected(init, inputKey), Selected([last], inputKey), asDouble);
      assert Selected([last], inputKey) == if StartsWith(last.name, inputKey) then [last] else [] by {
        assert [last][1..] == [];
      }
    }
  }

  /** Without a matching field the sum stays at its initial 0. */
  lemma {:induction false} NoMatchSumIsZero<V>(fields: seq<Field<V>>, inputKey: string, asDouble: V -> real)
    requires !AnyMatch(fields, inputKey)
    ensures MatchingSum(fields, inputKey, asDouble) == 0.0
    decreases |fields|
  {
    if fields != [] {
      var init := fields[..|fields| - 1];
      assert !AnyMatch(init, inputKey) by {
        forall k | 0 <= k < |init| ensures !StartsWith(init[k].name, inputKey) {
          assert init[k] == fields[k];
        }
      }
      NoMatchSumIsZero(init, inputKey, asDouble);
    }
  }

  /** An empty input key matches every field, so every field is summed and
      the node reports no match only for an empty payload. */
  lemma {:induction false} EmptyKeySelectsAll<V>(fields: seq<Field<V>>, asDouble: V -> real)
    ensures AnyMatch(fields, "") <==> fields != []
    ensures MatchingSum(fields, "", asDouble) == Total(fields, asDouble)
    decreases |fields|
  {
    if fields != [] {
      assert StartsWith(fields[0].name, "");
      var init, last := fields[..|fields| - 1], fields[|fields| - 1];
      assert fields == init + [last];
      EmptyKeySelectsAll(init, asDouble);
      TotalAppend(init, [last], asDouble);
      assert [last][1..] == [];
    }
  }

  /** Taking one field out of the payload lowers the sum by that field's
      contribution. */
  lemma {:induction false} MatchingSumRemove<V>(s: seq<Field<V>>, k: nat, inputKey: string, asDouble: V -> real)
    requires k < |s|
    ensures MatchingSum(s, inputKey, asDouble)
         == MatchingSum(s[..k] + s[k + 1..], inputKey, asDouble) + Contribution(s[k], inputKey, asDouble)
    decreases |s|
  {
    var n := |s|;
    if k == n - 1 {
      assert s[..k] + s[k + 1..] == s[..n - 1];
    } else {
      var init := s[..n - 1];
      MatchingSumRemove(init, k, inputKey, asDouble);
      var without := s[..k] + s[k + 1..];
      assert without[..|without| - 1] == init[..k] + init[k + 1..];
      assert without[|without| - 1] == s[n - 1];
      assert init[k] == s[k];
    }
  }

  /** The sum does not depend on the order in which the fields are visited:
      any reordering of the payload gives the same sum (over the reals). */
  lemma {:induction false} MatchingSumOrderIndependent<V>(a: seq<Field<V>>, b: seq<Field<V>>, inputKey: string, asDouble: V -> real)
    requires multiset(a) == multiset(b)
    ensures MatchingSum(a, inputKey, asDouble) == MatchingSum(b, inputKey, asDouble)
    decreases |a|
  {
    if a == [] {
      assert |b| == |multiset(b)| == 0;
    } else {
      var n := |a|;
      var init, last := a[..n - 1], a[n - 1];
      assert a == init + [last];
      assert last in multiset(b);
      var k :| 0 <= k < |b| && b[k] == last;
      var rest := b[..k] + b[k + 1..];
      assert b == b[..k] + [last] + b[k + 1..];
      assert multiset(init) + multiset{last} == multiset(rest) + multiset{last};
      assert multiset(init) == multiset(rest) by {
        forall x ensures multiset(init)[x] == multiset(rest)[x] {
          assert (multiset(init) + multiset{last})[x] == (multiset(rest) + multiset{last})[x];
        }
      }
      MatchingSumOrderIndependent(init, rest, inputKey, asDouble);
      MatchingSumRemove(b, k, inputKey, asDouble);
    }
  }

  /** A payload field named like the output key is treated as any other
      field: when the output key starts with the input key, that field
      matches and its value is part of the sum. */
  lemma OutputKeyFieldIsSummed<V>(fields: seq<Field<V>>, k: nat, inputKey: string, outputKey: string, asDouble: V -> real)
    requires k < |fields| && fields[k].name == outputKey
    requires StartsWith(outputKey, inputKey)
    ensures AnyMatch(fields, inputKey)
    ensures MatchingSum(fields, inputKey, asDouble)
         == MatchingSum(fields[..k] + fields[k + 1..], inputKey, asDouble) + asDouble(fields[k].value)
  {
    MatchingSumRemove(fields, k, inputKey, asDouble);
  }

  /** Payload `{"temp_1": 10, "temp_2": 20, "humidity": 5}` with input key
      "temp_" and output key "tempSum": the message goes to SUCCESS with the
      payload `{"tempSum": 30.0}`. */
  lemma SumOfTwoOfThreeFields(msg: TbMsg, writeValueAsString: ObjectNode<real> -> Result<string>)
    requires writeValueAsString(ObjectNode([Field("tempSum", 30.0)])).Ok?
    ensures
      var payload := ObjectNode([Field("temp_1", 10.0), Field("temp_2", 20.0), Field("humidity", 5.0)]);
      Route("temp_", "tempSum", msg, s => Ok(payload), x => x, writeValueAsString)
        == Success(msg.(data := writeValueAsString(ObjectNode([Field("tempSum", 30.0)])).value))
  {
    var fields: seq<Field<real>> := [Field("temp_1", 10.0), Field("temp_2", 20.0), Field("humidity", 5.0)];
    assert StartsWith("temp_1", "temp_");
    assert StartsWith("temp_2", "temp_");
    assert !StartsWith("humidity", "temp_") by {
      assert "humidity"[..5] != "temp_" by { assert "humidity"[0] != 't'; }
    }
    var asDouble: real -> real := x => x;
    assert fields[0].name == "temp_1";
    assert fields[..2] == [Field("temp_1", 10.0), Field("temp_2", 20.0)];
    assert fields[..2][..1] == [Field("temp_1", 10.0)];
    assert |fields[..2][..1][..0]| == 0;
    assert MatchingSum(fields[..2][..1], "temp_", asDouble) == 10.0;
    assert MatchingSum(fields[..2], "temp_", asDouble) == 30.0;
    assert MatchingSum(fields, "temp_", asDouble) == 30.0;
  }

  /** Payload `{"humidity": 5}` with input key "temp_": the original message
      goes to FAILURE with the no-key error. */
  lemma NoTemperatureField(msg: TbMsg, outputKey: string, writeValueAsString: ObjectNode<real> -> Result<string>)
    ensures
      var payload := ObjectNode([Field("humidity", 5.0)]);
      Route("temp_", outputKey, msg, s => Ok(payload), x => x, writeValueAsString)
        == NoMatch(msg, "Message doesn't contains the key: temp_")
  {
    assert !StartsWith("humidity", "temp_") by {
      assert "humidity"[..5] != "temp_" by { assert "humidity"[0] != 't'; }
    }
  }
}
