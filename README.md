# "Get sum" rule node — Dafny model

This project models `TbGetSumNode`, a transformation node of the ThingsBoard
rule engine. The node is initialised with two strings, `inputKey` and
`outputKey`. For every incoming message it reads the JSON payload and walks
the top-level field names. It adds up the numeric value (`asDouble()`) of
every field whose name starts with `inputKey`, and sets a `hasRecords` flag
for each such field. Then exactly one of three things happens:

- at least one field matched: a new message with the original type,
  originator and metadata, whose payload is the single field
  `{outputKey: sum}`, is sent along the SUCCESS link;
- no field matched: the original message is sent along the FAILURE link with
  the error `Message doesn't contains the key: <inputKey>`;
- reading the payload (or writing the new one) throws an `IOException`: the
  original message is handed to the host's `tellFailure`.

Files:

- `json_tree.dfy` (module `JsonTree`): the part of a Jackson object node the
  node uses. It holds the fields in order, `fieldNames()`, `get` (first field
  of that name, or none) and `put`.
- `rule_engine.dfy` (module `RuleEngine`): the message `TbMsg` and the node's
  configuration.
- `tb_get_sum_node.dfy` (module `GetSumNode`): the selection (`StartsWith`,
  `AnyMatch`, `Selected`) and the sum (`MatchingSum`, built field by field as
  the loop builds it, and `Total`, a plain sum). It also holds the routing
  specification `Route` and the class `TbGetSumNode`. That class has the
  fields `config`, `inputKey` and `outputKey`, the method `Init` and the
  method `OnMsg`, which has the `while` loop over the field names.

The Jackson calls are parameters of `OnMsg` and `Route`:

- `readTree` turns the payload text into an object node, or into the
  exception it throws;
- `asDouble` coerces a field's value node to a number;
- `writeValueAsString` turns the output node into text, or into the
  exception it throws.

The value node type is the type parameter `V`. The routing calls on the
host context (`tellNext`, `tellFailure`) become the returned `Outcome`.

Two consequences of the code that are easy to miss:

- The keys are never checked. An empty `inputKey` therefore matches every
  field (`EmptyKeySelectsAll`), and a field named like `outputKey` is summed
  like any other (`OutputKeyFieldIsSummed`).
- `writeValueAsString` sits inside the same `try` block as `readTree`, and
  the `JsonProcessingException` it may throw is an `IOException`. A failure
  to write the output therefore also reaches `tellFailure`, with that
  exception. `Route` and `OnMsg` model this case (the outcome `IoFailure`).

## Model

| member | source | states |
|---|---|---|
| `GetSumNode.TbGetSumNode.constructor` | src/main/java/org/thingsboard/rule/engine/node/transform/TbGetSumNode.java:48-50 | before `init` the node holds no configuration, so it is not ready to handle messages |
| `GetSumNode.TbGetSumNode.Init` | src/main/java/org/thingsboard/rule/engine/node/transform/TbGetSumNode.java:53-57 | `init` stores the configuration and copies its input and output keys into the node's fields |
| `GetSumNode.TbGetSumNode.OnMsg` | src/main/java/org/thingsboard/rule/engine/node/transform/TbGetSumNode.java:61-85 | the loop over the field names leaves `hasRecords` equal to "some field name starts with inputKey" and `sum` equal to the sum over the matching fields, so the routing is exactly `Route`. The method has no `modifies` clause, so `inputKey` and `outputKey` stay unchanged |
| `GetSumNode.Route` | src/main/java/org/thingsboard/rule/engine/node/transform/TbGetSumNode.java:61-85 | a read error gives `tellFailure` with the original message and that error. Otherwise the FAILURE route is taken if and only if no field name starts with `inputKey`, and it carries the original message and the error "Message doesn't contains the key: " + inputKey. When some field matches, a write error gives `tellFailure` with the original message and that error; SUCCESS is taken if and only if some field matches and the output is written, and the new message differs from the original only in its data, which is the written `{outputKey: sum}` |
| `GetSumNode.SumPayload` | src/main/java/org/thingsboard/rule/engine/node/transform/TbGetSumNode.java:75 | the output node has exactly one field, named `outputKey`, holding the sum |
| `GetSumNode.Selected` | src/main/java/org/thingsboard/rule/engine/node/transform/TbGetSumNode.java:67-70 | every selected field is a payload field whose name starts with `inputKey`, and every such payload field is selected |
| `GetSumNode.SelectedCounts` | src/main/java/org/thingsboard/rule/engine/node/transform/TbGetSumNode.java:67-70 | the selection holds each matching field exactly as many times as the payload does, and no other field, so it is exactly the matching part of the payload |
| `GetSumNode.MatchingSumIsTotalOfSelected` | src/main/java/org/thingsboard/rule/engine/node/transform/TbGetSumNode.java:62-73 | the sum built field by field from 0 equals the plain sum of the coerced values of the selected fields, so fields that do not match contribute nothing |
| `GetSumNode.NoMatchSumIsZero` | src/main/java/org/thingsboard/rule/engine/node/transform/TbGetSumNode.java:62-73 | when no field name starts with `inputKey`, the sum stays at its initial 0 |
| `GetSumNode.MatchingSumRemove` | src/main/java/org/thingsboard/rule/engine/node/transform/TbGetSumNode.java:67-73 | taking one field out of the payload lowers the sum by exactly what that field contributed (its value if it matches, 0 otherwise) |
| `GetSumNode.MatchingSumOrderIndependent` | src/main/java/org/thingsboard/rule/engine/node/transform/TbGetSumNode.java:66-73 | two payloads holding the same fields in any order give the same sum (over the reals), so the iteration order of `fieldNames()` does not matter |
| `GetSumNode.EmptyKeySelectsAll` | src/main/java/org/thingsboard/rule/engine/node/transform/TbGetSumNode.java:69 | with an empty `inputKey`, `startsWith` accepts every name: the node finds a match if and only if the payload has a field, and it sums all fields |
| `GetSumNode.OutputKeyFieldIsSummed` | src/main/java/org/thingsboard/rule/engine/node/transform/TbGetSumNode.java:69-71 | a payload field named `outputKey` is not treated specially: in any payload, if `outputKey` starts with `inputKey`, that field matches and the sum is the sum over the other fields plus its value |
| `GetSumNode.SumOfTwoOfThreeFields` | src/main/java/org/thingsboard/rule/engine/node/transform/TbGetSumNode.java:67-78 | `{"temp_1": 10, "temp_2": 20, "humidity": 5}` with keys "temp_" and "tempSum" goes to SUCCESS with payload `{"tempSum": 30.0}` |
| `GetSumNode.NoTemperatureField` | src/main/java/org/thingsboard/rule/engine/node/transform/TbGetSumNode.java:67-80 | `{"humidity": 5}` with input key "temp_" sends the original message to FAILURE with the error "Message doesn't contains the key: temp_" |
| `JsonTree.GetFieldValue` | src/main/java/org/thingsboard/rule/engine/node/transform/TbGetSumNode.java:66-71 | in an object node without duplicate names, `get` of a name taken from `fieldNames()` returns that field's own value, never null |
| `JsonTree.Lookup` | src/main/java/org/thingsboard/rule/engine/node/transform/TbGetSumNode.java:71 | `get(name)` is null exactly when no field has that name; otherwise it returns the value of a field with that name |
| `JsonTree.ObjectNode.Put` | src/main/java/org/thingsboard/rule/engine/node/transform/TbGetSumNode.java:75 | after `put(name, value)`, `get(name)` returns `value` and every other name keeps its value |
| `JsonTree.ObjectNode.FieldNames` | src/main/java/org/thingsboard/rule/engine/node/transform/TbGetSumNode.java:66 | `fieldNames()` lists the fields' own names, position by position, and in a node without duplicate names no name is listed twice, so the loop visits each field once |
| `JsonTree.EmptyObject` | src/main/java/org/thingsboard/rule/engine/node/transform/TbGetSumNode.java:75 | `createObjectNode()` gives a node with no fields |

## Left out

- JSON decoding and encoding (`ObjectMapper.readTree`, `writeValueAsString`) are Jackson library code. They are parameters returning either a result or the thrown `IOException`. Whether a non-object root (an array, a scalar) throws or yields no field names is up to that parameter.
- Value coercion `asDouble()` is Jackson behaviour for numbers, text, booleans, null and nested nodes. It is a parameter `V -> real`, not a fixed mapping.
- Doubles are modelled as reals, so IEEE-754 rounding in `sum += …` is not modelled. `MatchingSumOrderIndependent` holds over the reals only; floating-point addition is not associative.
- `GetSumNode.TbGetSumNode.OnMsg` requires that `Init` has run (`Valid()`). In Java, a message handled before `init` would meet null keys; the rule engine always calls `init` first.
- `GetSumNode.TbGetSumNode.OnMsg` requires that a decoded object node has distinct field names. Jackson's object node guarantees this, but it is stated here rather than derived from Jackson.
- `ctx.newMsg` also gives the new message a fresh identifier. The model keeps only type, originator, metadata and data.
- `GetSumNode.StartsWith` works on Unicode scalar values, while Java's `startsWith` compares UTF-16 code units. They agree on well-formed strings; names or keys holding unpaired surrogates cannot be represented.
- Other runtime exceptions (for instance a null payload string) are not modelled. They are not caught by the node.
- `JsonTree.ObjectNode.Put`: states only what `get` returns after the call, not that field order and name uniqueness are kept. The node only calls `put` on a fresh, empty object node.
- Configuration loading (`TbNodeUtils.convert`), the `@RuleNode` annotation and UI resources, `@Slf4j` logging and the empty `destroy` are host framework plumbing with no logic to model.
