/**
 The `Priority` value object: an immutable wrapper around one label of the
 fixed, ranked list low < normal < high < rush. Its constructor is also a
 coercion: given a label it validates it, given an existing Priority it
 returns that Priority unchanged. Comparisons go by the label's position in
 the legal list, never by string order.
 */
module Priorities {

  /** The static `legalValues()`: the legal labels, in rank order. */
  function LegalValues(): (r: seq<string>)
    ensures |r| == 4
    ensures forall i, j :: 0 <= i < j < |r| ==> r[i] != r[j]
  {
    ["low", "normal", "high", "rush"]
  }

  /** `legalValues().includes(value)`. */
  predicate IsLegal(value: string)
    ensures IsLegal(value) <==> Rank(value) >= 0
  {
    value in LegalValues()
  }

  /** The state of a Priority object: its one field `_value`. */
  datatype Priority = Priority(value: string)

  /** A Priority produced by the constructor; every Priority in the program is
      one, because the constructor admits legal labels only. */
  type ValidPriority = p: Priority | IsLegal(p.value) witness Priority("low")

  /** What the constructor may be given: a raw label or an existing instance. */
  datatype Argument = Label(text: string) | Existing(instance: ValidPriority)

  /** The error the constructor throws, carrying the offending value. */
  datatype InvalidPriority = InvalidPriority(value: string) {
    /** The error's message, `<value> is invalid for Priority`. */
    function Message(): (m: string)
      ensures |m| == |value| + 26
      ensures m[0] == '<' && m[1..|value| + 1] == value
      ensures m[|value| + 1..] == "> is invalid for Priority"
    {
      "<" + value + "> is invalid for Priority"
    }
  }

  datatype Result<+T> = Ok(value: T) | Err(error: InvalidPriority)

  /** `new Priority(value)`: pass an existing instance through untouched,
      otherwise validate the label and wrap it, or fail naming the label. */
  function New(arg: Argument): (r: Result<ValidPriority>)
    ensures arg.Existing? ==> r == Ok(arg.instance)
    ensures arg.Label? ==> (r.Ok? <==> IsLegal(arg.text))
    ensures arg.Label? && r.Ok? ==> ToString(r.value) == arg.text
    ensures r.Err? ==> arg.Label? && r.error.value == arg.text
  {
    match arg
    case Existing(p) => Ok(p)
    case Label(l) => if IsLegal(l) then Ok(Priority(l)) else Err(InvalidPriority(l))
  }

  /** `toString()`: the raw label, untransformed. */
  function ToString(p: Priority): (s: string)
    ensures Priority(s) == p
  {
    p.value
  }

  /** `equals(other)`: comparison of the underlying labels. */
  predicate Equals(p: Priority, other: Priority)
    ensures Equals(p, other) <==> p == other
  {
    p.value == other.value
  }

  /** `Array.prototype.findIndex` looking for `x`: the first position of `x`
      in `s`, or -1 when `x` is absent. */
  function FindIndex(s: seq<string>, x: string): (r: int)
    ensures -1 <= r < |s|
    ensures r == -1 <==> x !in s
    ensures 0 <= r ==> s[r] == x && forall j :: 0 <= j < r ==> s[j] != x
  {
    if |s| == 0 then -1
    else if s[0] == x then 0
    else
      var k := FindIndex(s[1..], x);
      if k == -1 then -1 else k + 1
  }

  /** `_index()`: the rank of the label, its position in the legal list. */
  function Index(p: Priority): (r: int)
    ensures -1 <= r <= 3
    ensures r == -1 <==> !IsLegal(p.value)
    ensures 0 <= r ==> LegalValues()[r] == p.value
  {
    FindIndex(LegalValues(), p.value)
  }

  /** `lowerThan(other)`: strictly smaller rank. */
  predicate LowerThan(p: Priority, other: Priority)
    ensures LowerThan(p, other) <==> Rank(p.value) < Rank(other.value)
  {
    Index(p) < Index(other)
  }

  /** `higherThan(other)`: strictly greater rank. */
  predicate HigherThan(p: Priority, other: Priority)
    ensures HigherThan(p, other) <==> Rank(p.value) > Rank(other.value)
  {
    Index(p) > Index(other)
  }

  /** An independent statement of the rank order, one label at a time. */
  function Rank(l: string): int {
    if l == "low" then 0
    else if l == "normal" then 1
    else if l == "high" then 2
    else if l == "rush" then 3
    else -1
  }

  /** JavaScript's `<` on strings: lexicographic order of the characters. */
  predicate LexicallyBefore(a: string, b: string) {
    if |a| == 0 then |b| > 0
    else if |b| == 0 then false
    else if a[0] != b[0] then a[0] < b[0]
    else LexicallyBefore(a[1..], b[1..])
  }

  // ---------------------------------------------------------------------
  // Construction

  /** Construction from a label succeeds exactly for the four legal labels,
      and the new Priority holds that very label. */
  lemma NewFromLabel(l: string)
    ensures New(Label(l)).Ok? <==> (l == "low" || l == "normal" || l == "high" || l == "rush")
    ensures New(Label(l)).Ok? ==> New(Label(l)).value.value == l
  {
  }

  /** A label outside the legal list is refused with an error naming it. */
  lemma NewRejectsIllegal(l: string)
    requires l !in LegalValues()
    ensures New(Label(l)) == Err(InvalidPriority(l))
    ensures New(Label(l)).error.Message() == "<" + l + "> is invalid for Priority"
  {
  }

  /** The error for the label "wrong" has the message the repository's test expects. */
  lemma NewWrongMessage()
    ensures New(Label("wrong")).Err?
    ensures New(Label("wrong")).error.Message() == "<wrong> is invalid for Priority"
  {
    assert Rank("wrong") == -1;
    assert New(Label("wrong")) == Err(InvalidPriority("wrong"));
  }

  /** Given an existing Priority the constructor returns it unchanged, with no
      validation and no copy; coercing twice is the same as coercing once. */
  lemma NewPassesThrough(p: ValidPriority)
    ensures New(Existing(p)) == Ok(p)
  {
  }

  lemma NewIdempotent(arg: Argument)
    ensures New(arg).Ok? ==> New(Existing(New(arg).value)) == New(arg)
  {
  }

  /** `toString` of a Priority built from a legal label gives that label back. */
  lemma ToStringRoundTrip(l: string)
    requires IsLegal(l)
    ensures ToString(New(Label(l)).value) == l
  {
  }

  // ---------------------------------------------------------------------
  // Equality

  /** `equals` holds exactly when the labels are identical, which for these
      records is the same as the two values being equal. */
  lemma EqualsIffSameLabel(p: Priority, q: Priority)
    ensures Equals(p, q) <==> ToString(p) == ToString(q)
    ensures Equals(p, q) <==> p == q
  {
  }

  lemma EqualsReflexiveSymmetric(p: Priority, q: Priority)
    ensures Equals(p, p)
    ensures Equals(p, q) <==> Equals(q, p)
  {
  }

  /** Two Priorities built separately from the same label are equal: the
      repository's test of `equals` restated over values, where the two
      constructions cannot be told apart. */
  lemma EqualsSameLabelInstances(l: string)
    requires IsLegal(l)
    ensures Equals(New(Label(l)).value, New(Label(l)).value)
  {
  }

  // ---------------------------------------------------------------------
  // Rank

  /** `_index` of a constructed Priority is a position 0..3 of the legal list
      holding its label; it is -1 only for labels the constructor refuses. */
  lemma IndexInRange(p: ValidPriority)
    ensures 0 <= Index(p) <= 3
    ensures LegalValues()[Index(p)] == p.value
  {
  }

  lemma IndexMissingIffIllegal(p: Priority)
    ensures Index(p) == -1 <==> !IsLegal(p.value)
  {
  }

  /** `_index` agrees with the rank table low = 0, normal = 1, high = 2,
      rush = 3, for every label. */
  lemma IndexIsRank(p: Priority)
    ensures Index(p) == Rank(p.value)
  {
  }

  /** Two constructed Priorities with the same rank have the same label. */
  lemma IndexInjective(p: ValidPriority, q: ValidPriority)
    ensures Index(p) == Index(q) <==> p == q
  {
  }

  // ---------------------------------------------------------------------
  // Ordering

  /** `lowerThan` and `higherThan` follow low < normal < high < rush. */
  lemma OrderFollowsRank(p: ValidPriority, q: ValidPriority)
    ensures LowerThan(p, q) <==> Rank(p.value) < Rank(q.value)
    ensures HigherThan(p, q) <==> Rank(p.value) > Rank(q.value)
  {
  }

  /** The twelve ordered pairs of distinct legal Priorities. */
  lemma OrderOfAllPairs()
    ensures LowerThan(Priority("low"), Priority("normal"))
    ensures LowerThan(Priority("low"), Priority("high"))
    ensures LowerThan(Priority("low"), Priority("rush"))
    ensures HigherThan(Priority("normal"), Priority("low"))
    ensures LowerThan(Priority("normal"), Priority("high"))
    ensures LowerThan(Priority("normal"), Priority("rush"))
    ensures HigherThan(Priority("high"), Priority("low"))
    ensures HigherThan(Priority("high"), Priority("normal"))
    ensures LowerThan(Priority("high"), Priority("rush"))
    ensures HigherThan(Priority("rush"), Priority("low"))
    ensures HigherThan(Priority("rush"), Priority("normal"))
    ensures HigherThan(Priority("rush"), Priority("high"))
  {
  }

  /** Rank order is not string order: "high" sorts before "low" and "normal"
      as a string, yet ranks above both. */
  lemma RankIsNotLexical()
    ensures LexicallyBefore("high", "low") && HigherThan(Priority("high"), Priority("low"))
    ensures LexicallyBefore("high", "normal") && HigherThan(Priority("high"), Priority("normal"))
  {
  }

  /** `a.lowerThan(b)` exactly when `b.higherThan(a)`; neither is reflexive. */
  lemma LowerIsConverseOfHigher(p: Priority, q: Priority)
    ensures LowerThan(p, q) <==> HigherThan(q, p)
    ensures !LowerThan(p, p) && !HigherThan(p, p)
  {
  }

  /** `lowerThan` is a strict order. */
  lemma LowerThanTransitive(p: Priority, q: Priority, o: Priority)
    requires LowerThan(p, q) && LowerThan(q, o)
    ensures LowerThan(p, o)
  {
  }

  /** For constructed Priorities exactly one of `lowerThan`, `higherThan` and
      `equals` holds. */
  lemma Trichotomy(p: ValidPriority, q: ValidPriority)
    ensures LowerThan(p, q) || HigherThan(p, q) || Equals(p, q)
    ensures !(LowerThan(p, q) && HigherThan(p, q))
    ensures !(LowerThan(p, q) && Equals(p, q))
    ensures !(HigherThan(p, q) && Equals(p, q))
  {
  }
}
