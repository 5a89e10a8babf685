/**
 The client function `countHighPriorityAndRushOrders`: filter the orders
 whose priority is the string "high" or the string "rush" and count them.

 The elements are modelled as priority labels, which is what the function's
 strict `===` comparisons against string literals assume. The repository's
 own test passes `Order` objects instead, whose `priority` getter returns a
 Priority object; a string is never `===` to an object, so on those inputs
 the code as written counts nothing, not the 2 the test expects. That case is
 outside this model: nothing here states a count for `Order` elements.
 */
module ClientCode {
  import opened Priorities

  /** The filter's callback: `"high" === p || "rush" === p`. */
  predicate IsHighOrRush(l: string)
    ensures IsHighOrRush(l) <==> Rank(l) >= 2
  {
    l == "high" || l == "rush"
  }

  /** `orders.filter(...)`: a new sequence holding, in order, the elements
      the callback accepts; the input is left as it is. */
  function FilterHighOrRush(orders: seq<string>): (r: seq<string>)
    ensures |r| <= |orders|
    ensures forall i :: 0 <= i < |r| ==> IsHighOrRush(r[i])
    ensures forall x :: IsHighOrRush(x) ==> multiset(r)[x] == multiset(orders)[x]
    ensures forall x :: !IsHighOrRush(x) ==> multiset(r)[x] == 0
  {
    if |orders| == 0 then []
    else
      assert orders == [orders[0]] + orders[1..];
      if IsHighOrRush(orders[0]) then [orders[0]] + FilterHighOrRush(orders[1..])
      else FilterHighOrRush(orders[1..])
  }

  /** `countHighPriorityAndRushOrders(orders)`: the length of the filtered
      sequence. */
  function CountHighPriorityAndRushOrders(orders: seq<string>): (n: nat)
    ensures n <= |orders|
    ensures n == 0 <==> forall i :: 0 <= i < |orders| ==> !IsHighOrRush(orders[i])
  {
    |FilterHighOrRush(orders)|
  }

  /** The count is the number of "high" elements plus the number of "rush"
      elements. */
  lemma {:induction false} CountIsMultiplicity(orders: seq<string>)
    ensures CountHighPriorityAndRushOrders(orders) == multiset(orders)["high"] + multiset(orders)["rush"]
  {
    if |orders| > 0 {
      assert orders == [orders[0]] + orders[1..];
      assert multiset(orders) == multiset{orders[0]} + multiset(orders[1..]);
      CountIsMultiplicity(orders[1..]);
    }
  }

  /** The count lies in 0..|orders| and is 0 for no orders. */
  lemma CountBounds(orders: seq<string>)
    ensures 0 <= CountHighPriorityAndRushOrders(orders) <= |orders|
    ensures orders == [] ==> CountHighPriorityAndRushOrders(orders) == 0
  {
  }

  /** Filtering distributes over concatenation. */
  lemma {:induction false} FilterAppend(a: seq<string>, b: seq<string>)
    ensures FilterHighOrRush(a + b) == FilterHighOrRush(a) + FilterHighOrRush(b)
  {
    if |a| == 0 {
      assert a + b == b;
    } else {
      assert (a + b)[0] == a[0];
      assert (a + b)[1..] == a[1..] + b;
      FilterAppend(a[1..], b);
    }
  }

  /** The count is additive over concatenation. */
  lemma CountAppend(a: seq<string>, b: seq<string>)
    ensures CountHighPriorityAndRushOrders(a + b)
         == CountHighPriorityAndRushOrders(a) + CountHighPriorityAndRushOrders(b)
  {
    FilterAppend(a, b);
  }

  /** An element that is neither "high" nor "rush", such as "low" or
      "normal", never changes the count, wherever it stands. */
  lemma OtherLabelsNeverCount(a: seq<string>, l: string, b: seq<string>)
    requires !IsHighOrRush(l)
    ensures CountHighPriorityAndRushOrders(a + [l] + b) == CountHighPriorityAndRushOrders(a + b)
  {
    CountAppend(a + [l], b);
    CountAppend(a, [l]);
    CountAppend(a, b);
  }

  /** Every "high" or "rush" element counts: all of the orders count exactly
      when each of them is one of the two. */
  lemma {:induction false} CountAllIffAllHighOrRush(orders: seq<string>)
    ensures CountHighPriorityAndRushOrders(orders) == |orders|
        <==> forall i :: 0 <= i < |orders| ==> IsHighOrRush(orders[i])
  {
    if |orders| > 0 {
      CountAllIffAllHighOrRush(orders[1..]);
      assert forall i :: 1 <= i < |orders| ==> orders[i] == orders[1..][i - 1];
    }
  }

  /** The labels `[high, rush, low]` count 2, `[normal, normal]` counts 0 and
      no orders count 0. */
  lemma CountExamples()
    ensures CountHighPriorityAndRushOrders(["high", "rush", "low"]) == 2
    ensures CountHighPriorityAndRushOrders(["normal", "normal"]) == 0
    ensures CountHighPriorityAndRushOrders([]) == 0
  {
    var s := ["high", "rush", "low"];
    assert s[1..] == ["rush", "low"] && s[1..][1..] == ["low"] && s[1..][1..][1..] == [];
    assert FilterHighOrRush(s) == ["high", "rush"];
    var t := ["normal", "normal"];
    assert t[1..] == ["normal"] && t[1..][1..] == [];
    assert FilterHighOrRush(t) == [];
  }

  /** The callback accepts exactly the priorities ranked strictly above
      "normal". */
  lemma HighOrRushIsAboveNormal(l: string)
    ensures IsHighOrRush(l) <==> HigherThan(Priority(l), Priority("normal"))
  {
  }
}
