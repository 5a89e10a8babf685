# Priority value object, Order and the high/rush counter

A Dafny model of a small JavaScript code base written as an exercise in the
"replace primitive with object" refactoring. It has three parts:

- `Priorities` (`priority.dfy`): the immutable `Priority` value object. It
  wraps one label of the ranked list `low < normal < high < rush`. Its
  constructor is also a coercion. Given a label, it checks the label and
  either wraps it or fails with `<value> is invalid for Priority`. Given an
  existing Priority, it returns that Priority unchanged. `equals` compares
  labels. `lowerThan` and `higherThan` compare positions in the legal list
  (`_index`), not string order.
- `Orders` (`order.dfy`): the `Order` class. It has one mutable field, the
  stored Priority. Its setter sends every assignment through the Priority
  constructor, so the class invariant "the stored label is legal" always
  holds. The `priority` and `priorityString` getters read that field.
- `ClientCode` (`client_code.dfy`): `countHighPriorityAndRushOrders`. It
  filters the elements equal to the string `"high"` or `"rush"` and returns
  how many there are.

How the JavaScript maps onto Dafny:

- A Priority object is the record `Priority(value)`, which holds its
  `_value` field.
- `ValidPriority` is the subset of those records with a legal label. Every
  Priority the program can hold is one, because only the constructor makes
  them.
- The constructor's argument is `Argument = Label(text) | Existing(instance)`.
  This replaces the `instanceof` test with a static type.
- The thrown error is `Err(InvalidPriority(value))`, with its message as
  `Message()`.
- The `Order` constructor can throw, so it is the static method `Create`,
  which returns `Result<Order>`. The setter returns `Pass` or
  `Fail(error)`.

The counter is modelled over a sequence of priority labels, because its
strict `===` comparisons against string literals assume string elements.
The repository's test for it passes `Order` objects, whose `priority` getter
returns a Priority object. In JavaScript a string is never `===` to an
object, so on that input the code as written counts 0, not the 2 the test
expects. This model states no count for `Order` elements. The module comment
in `client_code.dfy` records this mismatch. `HighOrRushIsAboveNormal`
proves that the callback accepts exactly the priorities ranked above
`normal`. That is the threshold "strictly above normal"
(`higherThan(new Priority("normal"))`).

## Model

| member | source | states |
|---|---|---|
| Priorities.IsLegal | src/priority/index.js:4 | a label is legal iff the rank table (low = 0, normal = 1, high = 2, rush = 3) gives it a rank |
| Priorities.New | src/priority/index.js:2-9 | an existing Priority is returned as it is; a label succeeds iff it is legal, and the result's `toString` is that label; every failure comes from a label and carries it |
| Priorities.ToString | src/priority/index.js:11-13 | wrapping the returned label gives back the same Priority, so `toString` loses nothing |
| Priorities.Equals | src/priority/index.js:15-17 | `equals` holds iff the two Priorities are the same value |
| Priorities.Index | src/priority/index.js:19-21 | `_index` is in -1..3; it is -1 exactly for an illegal label, and otherwise the legal list holds the label at that position |
| Priorities.LowerThan | src/priority/index.js:23-25 | `lowerThan` holds iff the first label has the smaller rank in the table low = 0, normal = 1, high = 2, rush = 3 |
| Priorities.HigherThan | src/priority/index.js:27-29 | `higherThan` holds iff the first label has the greater rank in that table |
| Priorities.LegalValues | src/priority/index.js:31-33 | the legal list has four labels and no repeats, so a position in it identifies a label |
| Priorities.InvalidPriority.Message | src/priority/index.js:5 | the message is `<`, then the offending value, then `> is invalid for Priority` |
| Priorities.NewFromLabel | src/priority/index.js:4-8 | construction from a label succeeds iff the label is low, normal, high or rush, and the result holds that label |
| Priorities.NewRejectsIllegal | src/priority/index.js:4-5 | an illegal label fails with an error that carries that label and whose message names it |
| Priorities.NewWrongMessage | src/priority/index.test.js:15-17 | the label "wrong" fails with the message `<wrong> is invalid for Priority` |
| Priorities.NewPassesThrough | src/priority/index.js:3 | an existing Priority is returned unchanged, with no validation and no copy |
| Priorities.NewIdempotent | src/priority/index.js:3-8 | coercing the result of a successful construction again gives the same result |
| Priorities.ToStringRoundTrip | src/priority/index.js:11-13 | `toString` of a Priority built from a legal label returns exactly that label |
| Priorities.EqualsIffSameLabel | src/priority/index.js:15-17 | `equals` holds iff the two labels are identical, which is the same as the two records being equal |
| Priorities.EqualsReflexiveSymmetric | src/priority/index.js:15-17 | `equals` is reflexive and symmetric |
| Priorities.EqualsSameLabelInstances | src/priority/index.test.js:20-25 | two Priorities built separately from the same label are equal |
| Priorities.FindIndex | src/priority/index.js:20 | `findIndex` gives the first position holding the value, or -1 exactly when the value is absent |
| Priorities.IndexInRange | src/priority/index.js:19-21 | `_index` of a constructed Priority is in 0..3 and the legal list holds its label at that position; it is never -1 |
| Priorities.IndexMissingIffIllegal | src/priority/index.js:19-21 | `_index` is -1 exactly for labels the constructor refuses |
| Priorities.IndexIsRank | src/priority/index.js:19-21 | `_index` is 0 for low, 1 for normal, 2 for high, 3 for rush and -1 for anything else |
| Priorities.IndexInjective | src/priority/index.js:19-21 | two constructed Priorities have the same `_index` iff they are the same |
| Priorities.OrderFollowsRank | src/priority/index.js:23-29 | `lowerThan` / `higherThan` hold iff the rank of the first label is smaller / greater than the second's |
| Priorities.OrderOfAllPairs | src/priority/index.test.js:27-49 | all twelve ordered pairs of distinct legal Priorities compare as low < normal < high < rush |
| Priorities.RankIsNotLexical | src/priority/index.js:23-29 | "high" sorts before "low" and "normal" as a string, yet ranks above both |
| Priorities.LowerIsConverseOfHigher | src/priority/index.js:23-29 | `a.lowerThan(b)` iff `b.higherThan(a)`, and neither holds of a Priority and itself |
| Priorities.LowerThanTransitive | src/priority/index.js:23-25 | `lowerThan` is transitive |
| Priorities.Trichotomy | src/priority/index.js:15-29 | for two constructed Priorities exactly one of `lowerThan`, `higherThan` and `equals` holds |
| Orders.Order.Init | src/order/index.js:17 | an order built around a constructed Priority holds that Priority and satisfies the invariant |
| Orders.Order.Create | src/order/index.js:4-6 | an order is made iff the Priority constructor accepts `data.priority`; it then holds that Priority, its `priorityString` is the given label, and otherwise the constructor's error is returned |
| Orders.Order.GetPriority | src/order/index.js:8-10 | the getter returns the stored Priority, which is legal and has `_index` in 0..3 |
| Orders.Order.PriorityString | src/order/index.js:12-14 | `priorityString` is the stored Priority's `toString`, always one of the four legal labels |
| Orders.Order.SetPriority | src/order/index.js:16-18 | on success the field holds the constructor's result, and for an existing Priority the field holds a Priority equal to the given one; the invariant is kept in every case; on an illegal label the setter fails with the constructor's error and the field keeps its previous Priority |
| ClientCode.IsHighOrRush | src/client-code/index.js:7 | the callback accepts exactly the labels of rank high or above in the rank table |
| ClientCode.CountHighPriorityAndRushOrders | src/client-code/index.js:5-11 | the count is at most the number of elements, and it is 0 iff no element is "high" or "rush" |
| ClientCode.FilterHighOrRush | src/client-code/index.js:6-8 | the filtered sequence is no longer than the input, holds only "high" and "rush", and keeps every "high" and "rush" element as often as the input has it |
| ClientCode.CountIsMultiplicity | src/client-code/index.js:6-10 | the count is the number of "high" elements plus the number of "rush" elements |
| ClientCode.CountBounds | src/client-code/index.js:6-10 | the count is between 0 and the number of orders, and is 0 for no orders |
| ClientCode.FilterAppend | src/client-code/index.js:6-8 | filtering a concatenation concatenates the filtered parts |
| ClientCode.CountAppend | src/client-code/index.js:6-10 | the count is additive over concatenation |
| ClientCode.OtherLabelsNeverCount | src/client-code/index.js:7 | an element other than "high" or "rush", such as "low" or "normal", never changes the count |
| ClientCode.CountAllIffAllHighOrRush | src/client-code/index.js:6-8 | every element counts iff every element is "high" or "rush" |
| ClientCode.CountExamples | src/client-code/index.test.js:5-13 | the labels `[high, rush, low]` count 2, `[normal, normal]` count 0 and no labels count 0 |
| ClientCode.HighOrRushIsAboveNormal | src/client-code/index.js:7 | for every label, being "high" or "rush" is the same as ranking strictly above "normal" |

## Left out

- Priorities.NewPassesThrough: JavaScript returns the very same object (reference identity, a Jest `toBe`). Dafny datatype values have no identity, so the lemma states equality of values. For the same reason, two Priorities built from one label cannot be told apart here.
- Orders.Order.SetPriority: the JavaScript setter stores the very object it is given when that object is already a Priority (reference identity). Dafny datatype values have no identity, so the contract states that the stored Priority is equal to the given one.
- Orders.Order.Create: the JavaScript constructor runs the setter on the new object, and the setter may throw. The model runs the Priority constructor first and allocates an order only on success. The observable result is the same: either an order holding the coerced Priority, or the error.
- ClientCode.CountHighPriorityAndRushOrders: its elements are priority labels, not `Order` objects. On `Order` objects the code as written compares strings with objects and counts nothing, so no count is stated for them.
- JavaScript's dynamic typing: an `instanceof` test on arbitrary values, and `equals`, `lowerThan` or `higherThan` on a non-Priority. The `Argument` and `Priority` types rule these out statically.
- The class and identity of the thrown `Error` object. Only its message and the offending value are modelled.
- The test runner, and the module `import`/`export` lines. They contain no logic.
- The input of `countHighPriorityAndRushOrders` is not mutated. That holds by construction, because Dafny sequences are values.
