/**
 An order holding one Priority. Whatever is assigned to its priority, a raw
 label or a Priority, goes through the Priority constructor first, so the
 order can never hold an illegal label.
 */
module Orders {
  import opened Priorities

  /** The `data` argument of `new Order(data)`: only its `priority` is read. */
  datatype OrderData = OrderData(priority: Argument)

  /** The result of the `priority` setter: it either stores a Priority or
      throws the constructor's error. */
  datatype Outcome = Pass | Fail(error: InvalidPriority)

  class Order {
    /** The `_priority` field. */
    var priority: Priority

    /** The class invariant: the stored Priority has a legal label. */
    ghost predicate Valid()
      reads this
    {
      IsLegal(priority.value)
    }

    /** Allocation of an order around a Priority the constructor produced. */
    constructor Init(p: ValidPriority)
      ensures Valid() && priority == p
    {
      priority := p;
    }

    /** `new Order(data)`: coerces `data.priority` through the Priority
        constructor; an illegal label fails with that constructor's error and
        no order is made. */
    static method Create(data: OrderData) returns (r: Result<Order>)
      ensures New(data.priority).Err? ==> r == Err(New(data.priority).error)
      ensures New(data.priority).Ok? ==>
        r.Ok? && fresh(r.value) && r.value.Valid() && r.value.priority == New(data.priority).value
      ensures data.priority.Label? ==> (r.Ok? <==> IsLegal(data.priority.text))
      ensures r.Ok? && data.priority.Label? ==> r.value.PriorityString() == data.priority.text
      ensures r.Ok? && data.priority.Existing? ==> r.value.priority == data.priority.instance
    {
      var p := New(data.priority);
      if p.Err? {
        r := Err(p.error);
      } else {
        var o := new Order.Init(p.value);
        r := Ok(o);
      }
    }

    /** The `priority` getter: the stored Priority itself, always legal. */
    function GetPriority(): (p: ValidPriority)
      reads this
      requires Valid()
      ensures p == priority && 0 <= Index(p) <= 3
    {
      IndexInRange(priority);
      priority
    }

    /** The `priorityString` getter: the stored Priority's `toString`, one of
        the four legal labels. */
    function PriorityString(): (s: string)
      reads this
      requires Valid()
      ensures s == ToString(priority)
      ensures s == "low" || s == "normal" || s == "high" || s == "rush"
    {
      ToString(priority)
    }

    /** The `priority` setter: stores what the Priority constructor returns,
        which for an existing Priority is that very instance. The constructor
        runs before the assignment, so an illegal label throws and leaves the
        previous Priority in place. */
    method SetPriority(arg: Argument) returns (outcome: Outcome)
      requires Valid()
      modifies this
      ensures Valid()
      ensures New(arg).Ok? ==> outcome == Pass && priority == New(arg).value && Valid()
      ensures New(arg).Err? ==> outcome == Fail(New(arg).error) && priority == old(priority)
      ensures arg.Existing? ==> outcome == Pass && priority == arg.instance
      ensures arg.Label? ==> (outcome == Pass <==> IsLegal(arg.text))
      ensures outcome == Pass ==> GetPriority() == priority
    {
      match New(arg)
      case Err(e) =>
        outcome := Fail(e);
      case Ok(p) =>
        priority := p;
        outcome := Pass;
    }
  }
}
