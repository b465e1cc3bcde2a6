/**
 Differences of monotone metric snapshots: what two successive differences say about the whole span.
 */
module MetricDeltas {
  import opened Results

  /**
   A metric document; the truth values count as the numbers 0 and 1, and an object keeps its field names in order.
   */
  datatype Json = Num(n: real) | Text(s: string) | Null | List(items: seq<Json>)
                | Obj(names: seq<string>, fields: map<string, Json>)

  /** A difference, or the sum of two of different shapes. */
  datatype Difference = Count(n: real) | Each(items: seq<Difference>) | Fields(fields: map<string, Difference>) | Mixed

  /** Only numbers, lists and objects are subtracted; an object drops its other fields. */
  predicate Countable(j: Json) {
    j.Num? || j.List? || j.Obj?
  }

  // ----- what Python's `in`, `len` and iteration make of a document of any kind

  predicate Searchable(j: Json) {
    j.Text? || j.List? || j.Obj?
  }

  predicate Occurs(k: string, s: string) {
    exists i :: 0 <= i <= |s| && k <= s[i..]
  }

  /** The text has it somewhere, perhaps empty. */
  lemma OccursMeans(k: string, s: string)
    ensures Occurs(k, s) <==> exists a, b :: s == a + k + b
  {
    if Occurs(k, s) {
      var i :| 0 <= i <= |s| && k <= s[i..];
      assert s == s[..i] + k + s[i..][|k|..];
    }
    if a, b :| s == a + k + b {
      assert s[|a|..] == k + b;
    }
  }

  /** A field name, an item that is this text, or a part of the text. */
  predicate Holds(j: Json, k: string) {
    match j
    case Obj(_, fields) => k in fields
    case List(items) => Text(k) in items
    case Text(s) => Occurs(k, s)
    case _ => false
  }

  function Texts(names: seq<string>): seq<Json> {
    seq(|names|, i requires 0 <= i < |names| => Text(names[i]))
  }

  function Letters(s: string): seq<string> {
    seq(|s|, i requires 0 <= i < |s| => [s[i]])
  }

  function Elements(j: Json): Option<seq<Json>> {
    match j
    case List(items) => Some(items)
    case Obj(names, _) => Some(Texts(names))
    case Text(s) => Some(Texts(Letters(s)))
    case _ => None
  }

  // ----- the difference

  /** The fields of `after` that are subtracted: countable, and already there before. */
  function Common(before: Json, after: map<string, Json>): (keys: set<string>)
    ensures forall k :: k in keys <==> k in after && Holds(before, k) && Countable(after[k])
  {
    set k | k in after && Holds(before, k) && Countable(after[k])
  }

  /** Looking a name up in anything but an object fails, and so does looking for one in a number or nothing. */
  function Subtract(before: Json, after: Json): Result<Difference>
    decreases after
  {
    match after
    case Obj(_, fields) =>
      var keys := Common(before, fields);
      if before.Obj? then
        if exists k :: k in keys && Subtract(before.fields[k], fields[k]).Err? then Err
        else Ok(Fields(map k | k in keys :: Subtract(before.fields[k], fields[k]).value))
      else if keys != {} || (fields.Keys != {} && !Searchable(before)) then Err
      else Ok(Fields(map[]))
    case List(items) =>
      var elements := Elements(before);
      if elements.None? || |elements.value| != |items| then Err
      else if exists i :: 0 <= i < |items| && Subtract(elements.value[i], items[i]).Err? then Err
      else Ok(Each(seq(|items|, i requires 0 <= i < |items| => Subtract(elements.value[i], items[i]).value)))
    case Num(n) =>
      if !before.Num? || n - before.n < 0.0 then Err else Ok(Count(n - before.n))
    case _ => Err
  }

  /** None of the countable fields' names is to be found in what was there before. */
  ghost predicate NamesAbsent(before: Json, fields: map<string, Json>) {
    forall k :: k in fields && (fields[k].Num? || fields[k].List? || fields[k].Obj?) ==>
      match before
      case List(items) => forall i :: 0 <= i < |items| ==> items[i] != Text(k)
      case Text(s) => forall a, b :: s != a + k + b
      case _ => false
  }

  /** An object can follow a list or a text that has none of its names in it, or anything if it is empty; nothing is counted. */
  lemma {:induction false} ObjectAfterOther(before: Json, after: Json)
    requires after.Obj? && !before.Obj?
    ensures Subtract(before, after).Ok? <==>
            after.fields == map[] || ((before.List? || before.Text?) && NamesAbsent(before, after.fields))
    ensures Subtract(before, after).Ok? ==> Subtract(before, after).value == Fields(map[])
  {
    if before.Text? {
      forall k: string {
        OccursMeans(k, before.s);
      }
    }
    assert after.fields == map[] <==> after.fields.Keys == {};
  }

  /** A list can follow an object or a text of its length, whose names or letters its items can follow; no number can. */
  lemma {:induction false} ListAfterOther(before: Json, items: seq<Json>)
    requires !before.List?
    ensures Subtract(before, List(items)).Ok? <==>
            match before
            case Obj(names, _) => |names| == |items| && forall i :: 0 <= i < |items| ==> Subtract(Text(names[i]), items[i]).Ok?
            case Text(s) => |s| == |items| && forall i :: 0 <= i < |items| ==> Subtract(Text([s[i]]), items[i]).Ok?
            case _ => false
  {
  }

  /** Adding two differences field by field; a field counts only if both have it. */
  function Plus(x: Difference, y: Difference): Difference
    decreases x
  {
    match (x, y)
    case (Count(m), Count(n)) => Count(m + n)
    case (Each(xs), Each(ys)) =>
      if |xs| != |ys| then Mixed else Each(seq(|xs|, i requires 0 <= i < |xs| => Plus(xs[i], ys[i])))
    case (Fields(xs), Fields(ys)) => Fields(map k | k in xs && k in ys :: Plus(xs[k], ys[k]))
    case _ => Mixed
  }

  /**
   The middle snapshot is of the kind of the last, every field counted over the whole span was there too, and nothing
   that was no object before is searched in vain.
   */
  predicate Bridged(a: Json, b: Json, c: Json)
    decreases c
  {
    match c
    case Obj(_, fields) =>
      && b.Obj?
      && if a.Obj? then
           forall k :: k in fields && k in a.fields && Countable(fields[k]) ==>
             k in b.fields && Bridged(a.fields[k], b.fields[k], fields[k])
         else Common(a, fields) == {} && (fields.Keys == {} || Searchable(a))
    case List(items) =>
      && b.List? && Elements(a).Some? && |Elements(a).value| == |b.items| == |items|
      && forall i :: 0 <= i < |items| ==> Bridged(Elements(a).value[i], b.items[i], items[i])
    case _ => true
  }

  /** A difference is of the kind of the later document. */
  lemma {:induction false} SubtractKind(before: Json, after: Json)
    requires Subtract(before, after).Ok?
    ensures var x := Subtract(before, after).value;
            match after
            case Obj(_, fields) => x.Fields? && x.fields.Keys == Common(before, fields) && (!before.Obj? ==> x.fields == map[])
            case List(items) => x.Each? && Elements(before).Some? && |x.items| == |items| == |Elements(before).value|
            case Num(n) => before.Num? && x == Count(n - before.n) && n >= before.n
            case _ => false
  {
  }

  /** The field or item of `after` that a difference entry was taken from, and from what. */
  lemma {:induction false} SubtractAt(before: Json, after: Json)
    requires Subtract(before, after).Ok?
    ensures after.Obj? ==> forall k :: k in Subtract(before, after).value.fields ==>
              && before.Obj? && k in before.fields && k in after.fields
              && Subtract(before.fields[k], after.fields[k]) == Ok(Subtract(before, after).value.fields[k])
    ensures after.List? ==> forall i :: 0 <= i < |after.items| ==>
              Subtract(Elements(before).value[i], after.items[i]) == Ok(Subtract(before, after).value.items[i])
  {
  }

  /** Every count in the difference, at any depth, is nonnegative. */
  predicate NonNegative(d: Difference) {
    match d
    case Count(n) => n >= 0.0
    case Each(items) => forall i :: 0 <= i < |items| ==> NonNegative(items[i])
    case Fields(fields) => forall k :: k in fields ==> NonNegative(fields[k])
    case Mixed => false
  }

  /** A successful difference is counts all the way down, none of them negative: no metric was reset anywhere. */
  lemma {:induction false} DifferenceIsMonotone(before: Json, after: Json)
    requires Subtract(before, after).Ok?
    ensures NonNegative(Subtract(before, after).value)
    decreases after
  {
    var x := Subtract(before, after).value;
    SubtractKind(before, after);
    SubtractAt(before, after);
    match after
    case Obj(_, fields) =>
      forall k | k in x.fields
        ensures NonNegative(x.fields[k])
      {
        DifferenceIsMonotone(before.fields[k], fields[k]);
      }
    case List(items) =>
      forall i | 0 <= i < |items|
        ensures NonNegative(x.items[i])
      {
        DifferenceIsMonotone(Elements(before).value[i], items[i]);
      }
    case _ =>
  }

  // ----- composition

  /** The two successive differences add up to the whole one. */
  predicate AddsUp(a: Json, b: Json, c: Json)
    requires Subtract(a, b).Ok? && Subtract(b, c).Ok?
  {
    Subtract(a, c) == Ok(Plus(Subtract(a, b).value, Subtract(b, c).value))
  }

  lemma {:induction false} Compose(a: Json, b: Json, c: Json)
    requires Subtract(a, b).Ok? && Subtract(b, c).Ok?
    ensures AddsUp(a, b, c) <==> Bridged(a, b, c)
    decreases c
  {
    SubtractKind(a, b);
    SubtractKind(b, c);
    match c
    case Obj(_, _) =>
      if b.Obj? && a.Obj? {
        if Bridged(a, b, c) {
          BridgedAddsUp(a, b, c);
        }
        if AddsUp(a, b, c) {
          AddsUpBridged(a, b, c);
        }
      } else if b.Obj? {
        ComposeWithoutObject(a, b, c);
      }
    case List(_) =>
      if b.List? {
        ComposeLists(a, b, c);
      }
    case _ =>
  }

  lemma {:induction false} ComposeWithoutObject(a: Json, b: Json, c: Json)
    requires c.Obj? && b.Obj? && !a.Obj? && Subtract(a, b).Ok? && Subtract(b, c).Ok?
    ensures AddsUp(a, b, c) <==> Bridged(a, b, c)
  {
    SubtractKind(a, b);
    SubtractKind(b, c);
    assert Plus(Subtract(a, b).value, Subtract(b, c).value).fields == map[];
  }

  lemma {:induction false} ComposeLists(a: Json, b: Json, c: Json)
    requires c.List? && b.List? && Subtract(a, b).Ok? && Subtract(b, c).Ok?
    ensures AddsUp(a, b, c) <==> Bridged(a, b, c)
    decreases c, 0
  {
    var x, y := Subtract(a, b).value, Subtract(b, c).value;
    SubtractKind(a, b);
    SubtractKind(b, c);
    var elements := Elements(a).value;
    forall i | 0 <= i < |c.items|
      ensures Subtract(elements[i], c.items[i]) == Ok(Plus(x.items[i], y.items[i]))
              <==> Bridged(elements[i], b.items[i], c.items[i])
    {
      Compose(elements[i], b.items[i], c.items[i]);
    }
    if Bridged(a, b, c) {
      assert Subtract(a, c).value.items == Plus(x, y).items;
    }
    if AddsUp(a, b, c) {
      forall i | 0 <= i < |c.items|
        ensures Bridged(elements[i], b.items[i], c.items[i])
      {
        assert Subtract(a, c).value.items[i] == Plus(x, y).items[i];
      }
    }
  }

  /** A field that the middle snapshot has with a kind that is not counted is lost. */
  lemma {:induction false} Uncounted(b: Json, c: Json)
    requires Countable(c) && !Countable(b) && Subtract(b, c).Ok?
    ensures forall a :: !Bridged(a, b, c)
  {
  }

  lemma {:induction false} ComposeField(a: Json, b: Json, c: Json, k: string)
    requires c.Obj? && b.Obj? && a.Obj? && Subtract(a, b).Ok? && Subtract(b, c).Ok?
    requires k in Common(a, c.fields) && k in b.fields
    ensures var x, y := Subtract(a, b).value, Subtract(b, c).value;
            && k in y.fields
            && (k !in x.fields ==> !Bridged(a.fields[k], b.fields[k], c.fields[k]))
            && (k in x.fields ==> (Subtract(a.fields[k], c.fields[k]) == Ok(Plus(x.fields[k], y.fields[k]))
                                   <==> Bridged(a.fields[k], b.fields[k], c.fields[k])))
    decreases c, 0
  {
    SubtractAt(a, b);
    SubtractAt(b, c);
    if k in Common(a, b.fields) {
      Compose(a.fields[k], b.fields[k], c.fields[k]);
    } else {
      Uncounted(b.fields[k], c.fields[k]);
    }
  }

  lemma {:induction false} BridgedAddsUp(a: Json, b: Json, c: Json)
    requires c.Obj? && b.Obj? && a.Obj? && Subtract(a, b).Ok? && Subtract(b, c).Ok? && Bridged(a, b, c)
    ensures AddsUp(a, b, c)
    decreases c, 1
  {
    var x, y := Subtract(a, b).value, Subtract(b, c).value;
    SubtractKind(a, b);
    SubtractKind(b, c);
    forall k | k in Common(a, c.fields)
      ensures k in x.fields && k in y.fields
      ensures Subtract(a.fields[k], c.fields[k]) == Ok(Plus(x.fields[k], y.fields[k]))
    {
      ComposeField(a, b, c, k);
    }
    assert Subtract(a, c).value.fields == Plus(x, y).fields;
  }

  lemma {:induction false} AddsUpBridged(a: Json, b: Json, c: Json)
    requires c.Obj? && b.Obj? && a.Obj? && Subtract(a, b).Ok? && Subtract(b, c).Ok? && AddsUp(a, b, c)
    ensures Bridged(a, b, c)
    decreases c, 1
  {
    var x, y := Subtract(a, b).value, Subtract(b, c).value;
    SubtractKind(b, c);
    SubtractKind(a, c);
    SubtractAt(a, c);
    forall k | k in Common(a, c.fields)
      ensures k in b.fields && Bridged(a.fields[k], b.fields[k], c.fields[k])
    {
      assert k in Plus(x, y).fields && k in x.fields && k in y.fields;
      assert Subtract(a, c).value.fields[k] == Plus(x.fields[k], y.fields[k]);
      ComposeField(a, b, c, k);
    }
  }

  /** A metric missing only from the middle snapshot is lost from the two differences but not from the whole. */
  lemma VanishingMetric()
    ensures var a, b := Obj(["roots"], map["roots" := Num(1.0)]), Obj([], map[]);
            var c := Obj(["roots"], map["roots" := Num(3.0)]);
            && Subtract(a, b) == Subtract(b, c) == Ok(Fields(map[]))
            && Subtract(a, c) == Ok(Fields(map["roots" := Count(2.0)]))
  {
    var a, c := Obj(["roots"], map["roots" := Num(1.0)]), Obj(["roots"], map["roots" := Num(3.0)]);
    assert Subtract(Num(1.0), Num(3.0)) == Ok(Count(2.0));
    assert Common(a, c.fields) == {"roots"};
    assert Subtract(a, c).value.fields == map["roots" := Count(2.0)];
  }
}
