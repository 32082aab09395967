/**
 * The login-time cart merge of `syncCart`: the server's list first, then each
 * local line either adds its quantity to the merged line with the same
 * `String(id)` or is appended.
 */
module CartSync {
  import opened Js
  import opened Items
  import opened ShoppingCart

  /** `String(x.id)` */
  function Key(x: Json): string
  {
    ToStr(Get(x, "id"))
  }

  /** `m.quantity = (m.quantity || 1) + (item.quantity || 1)` */
  function Combined(m: Json, item: Json): Json
  {
    Put(m, "quantity", Add(Or(Get(m, "quantity"), Num(1)), Or(Get(item, "quantity"), Num(1))))
  }

  /** One turn of the loop over the local lines. The search callback reads
      both ids, so it throws at an unreadable line, but only when there is a
      merged line to compare with. */
  function MergeStep(merged: seq<Json>, item: Json): (r: Outcome<seq<Json>>)
    ensures r.Returned? ==> |merged| <= |r.value| <= |merged| + 1
  {
    if merged == [] then Returned([item])
    else if Unreadable(item) then Threw
    else
      match FindIndex(merged, KeyIs(Key(item)))
      case Threw => Threw
      case Returned(j) =>
        if j > -1 then Returned(merged[j := Combined(merged[j], item)])
        else Returned(merged + [item])
  }

  /** The whole loop, one local line at a time. */
  function MergeAll(server: seq<Json>, items: seq<Json>): (r: Outcome<seq<Json>>)
    ensures r.Returned? ==> |server| <= |r.value| <= |server| + |items|
    decreases |items|
  {
    if items == [] then Returned(server)
    else
      match MergeAll(server, items[..|items| - 1])
      case Threw => Threw
      case Returned(m) => MergeStep(m, items[|items| - 1])
  }

  // ------------------------------------------------------------ conservation

  /** A cart line as the cart writes it: an object whose quantity is absent
      or a positive number. */
  predicate Line(x: Json)
  {
    x.Obj? && Counted(x)
  }

  predicate Lines(s: seq<Json>)
  {
    forall i :: 0 <= i < |s| ==> Line(s[i])
  }

  lemma CombinedCounts(m: Json, item: Json)
    requires Line(m) && Line(item)
    ensures Line(Combined(m, item))
    ensures QtyOf(Combined(m, item)) == QtyOf(m) + QtyOf(item)
  {
    var a := LineQty(m);
    var b := LineQty(item);
    CombinedIs(m, item, a, b);
    var c := Put(m, "quantity", Num(a + b));
    PutThenGet(m, "quantity", Num(a + b));
    assert c.Obj?;
    QtyOfNum(c, a + b);
  }

  /** A line's `quantity || 1` is the quantity the count reads. */
  lemma LineQty(x: Json) returns (k: int)
    requires Line(x)
    ensures Or(Get(x, "quantity"), Num(1)) == Num(k) && QtyOf(x) == k && k >= 1
  {
    QtyOfCounted(x);
    k := OrOne(Get(x, "quantity"));
  }

  lemma QtyOfNum(x: Json, k: int)
    requires Get(x, "quantity") == Num(k) && k >= 1
    ensures Counted(x) && QtyOf(x) == k
  {
    ParseIntOfNum(k);
  }

  /** `q || 1` for an absent or positive quantity. */
  lemma OrOne(q: Json) returns (k: int)
    requires q.Undefined? || (q.Num? && q.n >= 1)
    ensures Or(q, Num(1)) == Num(k) && k >= 1
    ensures q.Num? ==> k == q.n
    ensures q.Undefined? ==> k == 1
  {
    k := if q.Num? then q.n else 1;
  }

  lemma CombinedIs(m: Json, item: Json, a: int, b: int)
    requires Or(Get(m, "quantity"), Num(1)) == Num(a) && Or(Get(item, "quantity"), Num(1)) == Num(b)
    ensures Combined(m, item) == Put(m, "quantity", Num(a + b))
  {
  }

  lemma StepConserves(m: seq<Json>, item: Json)
    requires Lines(m) && Line(item)
    ensures MergeStep(m, item).Returned?
    ensures Lines(MergeStep(m, item).value)
    ensures Sum(MergeStep(m, item).value) == Sum(m) + QtyOf(item)
  {
    if m == [] {
      SumAppend([], item);
      assert [] + [item] == [item];
    } else {
      var r := StepOutcome(m, item);
      if r == m + [item] {
        SumAppend(m, item);
      } else {
        var j :| 0 <= j < |m| && r == m[j := Combined(m[j], item)];
        StepCombines(m, item, j);
      }
    }
  }

  /** On readable lines a turn of the merge either appends the line or
      combines it into one merged line. */
  lemma StepOutcome(m: seq<Json>, item: Json) returns (r: seq<Json>)
    requires Lines(m) && Line(item) && m != []
    ensures MergeStep(m, item) == Returned(r)
    ensures r == m + [item] || exists j :: 0 <= j < |m| && r == m[j := Combined(m[j], item)]
  {
    assert Readable(m) by {
      assert forall i :: 0 <= i < |m| ==> Line(m[i]);
    }
    r := MergeStep(m, item).value;
  }

  lemma StepCombines(m: seq<Json>, item: Json, j: int)
    requires Lines(m) && Line(item) && 0 <= j < |m|
    ensures Lines(m[j := Combined(m[j], item)])
    ensures Sum(m[j := Combined(m[j], item)]) == Sum(m) + QtyOf(item)
  {
    var c := Combined(m[j], item);
    CombinedCounts(m[j], item);
    SumUpdate(m, j, c);
  }

  /** Merge conservation: when every line is an object with an absent or
      positive quantity, the merge never throws and the merged count is the
      server count plus the local count. */
  lemma {:induction false} Conservation(server: seq<Json>, items: seq<Json>)
    requires Lines(server) && Lines(items)
    ensures MergeAll(server, items).Returned?
    ensures Lines(MergeAll(server, items).value)
    ensures Sum(MergeAll(server, items).value) == Sum(server) + Sum(items)
    decreases |items|
  {
    if items != [] {
      var n := |items|;
      Conservation(server, items[..n - 1]);
      StepConserves(MergeAll(server, items[..n - 1]).value, items[n - 1]);
    }
  }

  lemma {:induction false} SumOfLines(s: seq<Json>)
    requires Lines(s)
    ensures Sum(s) >= |s|
  {
    if s != [] {
      SumOfLines(s[..|s| - 1]);
      QtyOfCounted(s[|s| - 1]);
    }
  }

  /** The merge is not idempotent: merging a cart with itself doubles its
      count, so it is never the cart it started from. */
  lemma MergeWithItselfDoubles(s: seq<Json>)
    requires Lines(s) && s != []
    ensures MergeAll(s, s).Returned?
    ensures Sum(MergeAll(s, s).value) == 2 * Sum(s)
    ensures MergeAll(s, s).value != s
  {
    Conservation(s, s);
    SumOfLines(s);
  }

  // -------------------------------------------------------------- ids, order

  lemma StepKeys(m: seq<Json>, item: Json)
    requires MergeStep(m, item).Returned?
    ensures var r := MergeStep(m, item).value;
      (forall i :: 0 <= i < |m| ==> Key(r[i]) == Key(m[i])) &&
      (|r| == |m| + 1 ==> r[|m|] == item) &&
      Has(r, Key(item))
  {
    var r := MergeStep(m, item).value;
    if m == [] {
      assert Key(r[0]) == Key(item);
    } else {
      var j := FindIndex(m, KeyIs(Key(item))).value;
      if j > -1 {
        if m[j].Obj? {
          PutKeepsOthers(m[j], "quantity", Add(Or(Get(m[j], "quantity"), Num(1)), Or(Get(item, "quantity"), Num(1))), "id");
        }
        assert Key(r[j]) == Key(item);
      } else {
        assert Key(r[|m|]) == Key(item);
      }
    }
  }

  /** The merged list starts with the server's lines in order: only their
      quantities change. */
  lemma {:induction false} ServerLinesFirst(server: seq<Json>, items: seq<Json>)
    requires MergeAll(server, items).Returned?
    ensures var r := MergeAll(server, items).value;
      forall i :: 0 <= i < |server| ==> Key(r[i]) == Key(server[i])
    decreases |items|
  {
    if items != [] {
      var n := |items|;
      ServerLinesFirst(server, items[..n - 1]);
      StepKeys(MergeAll(server, items[..n - 1]).value, items[n - 1]);
    }
  }

  /** Some line of `s` has this `String(id)`. */
  predicate Has(s: seq<Json>, key: string)
  {
    exists i :: 0 <= i < |s| && Key(s[i]) == key
  }

  /** Every local line's id is in the merged list. */
  lemma {:induction false} LocalKeysPresent(server: seq<Json>, items: seq<Json>)
    requires MergeAll(server, items).Returned?
    ensures forall k :: 0 <= k < |items| ==> Has(MergeAll(server, items).value, Key(items[k]))
    decreases |items|
  {
    if items != [] {
      var front := items[..|items| - 1];
      MergeAllLast(server, items);
      LocalKeysPresent(server, front);
      assert forall k :: 0 <= k < |front| ==> front[k] == items[k];
      var m := MergeAll(server, front).value;
      StepKeys(m, items[|items| - 1]);
      StepLocalPresent(m, MergeAll(server, items).value, items);
    }
  }

  /** The ids a turn keeps: every merged id stays in place and the local
      line's id is present. */
  predicate KeysGrow(m: seq<Json>, r: seq<Json>, item: Json)
  {
    |m| <= |r| && (forall i :: 0 <= i < |m| ==> Key(r[i]) == Key(m[i])) && Has(r, Key(item))
  }

  lemma StepLocalPresent(m: seq<Json>, r: seq<Json>, items: seq<Json>)
    requires items != [] && KeysGrow(m, r, items[|items| - 1])
    requires forall k :: 0 <= k < |items| - 1 ==> Has(m, Key(items[k]))
    ensures forall k :: 0 <= k < |items| ==> Has(r, Key(items[k]))
  {
    var n := |items|;
    forall k | 0 <= k < n
      ensures Has(r, Key(items[k]))
    {
      if k < n - 1 {
        var i :| 0 <= i < |m| && Key(m[i]) == Key(items[k]);
        assert Key(r[i]) == Key(items[k]);
      }
    }
  }

  /** Every merged line's id is a server id or a local id. */
  lemma {:induction false} NoOtherKeys(server: seq<Json>, items: seq<Json>)
    requires MergeAll(server, items).Returned?
    ensures var r := MergeAll(server, items).value;
      forall i :: 0 <= i < |r| ==> Has(server, Key(r[i])) || Has(items, Key(r[i]))
    decreases |items|
  {
    if items == [] {
      var r := MergeAll(server, items).value;
      assert forall i :: 0 <= i < |r| ==> Key(r[i]) == Key(server[i]);
    } else {
      var front := items[..|items| - 1];
      MergeAllLast(server, items);
      NoOtherKeys(server, front);
      StepNoOther(MergeAll(server, front).value, server, items);
    }
  }

  lemma StepNoOther(m: seq<Json>, server: seq<Json>, items: seq<Json>)
    requires items != [] && MergeStep(m, items[|items| - 1]).Returned?
    requires forall i :: 0 <= i < |m| ==> Has(server, Key(m[i])) || Has(items[..|items| - 1], Key(m[i]))
    ensures var r := MergeStep(m, items[|items| - 1]).value;
      forall i :: 0 <= i < |r| ==> Has(server, Key(r[i])) || Has(items, Key(r[i]))
  {
    var n := |items|;
    var r := MergeStep(m, items[n - 1]).value;
    StepKeys(m, items[n - 1]);
    forall i | 0 <= i < |r|
      ensures Has(server, Key(r[i])) || Has(items, Key(r[i]))
    {
      if i < |m| {
        assert Key(r[i]) == Key(m[i]);
        if Has(items[..n - 1], Key(m[i])) {
          HasInFront(items, Key(m[i]));
        }
      } else {
        assert r[i] == items[n - 1];
      }
    }
  }

  /** The last turn of a merge that did not throw. */
  lemma MergeAllLast(server: seq<Json>, items: seq<Json>)
    requires items != [] && MergeAll(server, items).Returned?
    ensures MergeAll(server, items[..|items| - 1]).Returned?
    ensures MergeAll(server, items) == MergeStep(MergeAll(server, items[..|items| - 1]).value, items[|items| - 1])
  {
  }

  lemma HasInFront(items: seq<Json>, key: string)
    requires items != [] && Has(items[..|items| - 1], key)
    ensures Has(items, key)
  {
    var front := items[..|items| - 1];
    var k :| 0 <= k < |front| && Key(front[k]) == key;
    assert items[k] == front[k];
  }

  /** No two lines share a `String(id)`. */
  predicate Distinct(s: seq<Json>)
  {
    forall i, j :: 0 <= i < j < |s| ==> Key(s[i]) != Key(s[j])
  }

  /** A local line whose id is already merged is never appended, so the
      merge repeats an id only when the server's list already does. */
  lemma {:induction false} MergeKeepsDistinct(server: seq<Json>, items: seq<Json>)
    requires Distinct(server) && MergeAll(server, items).Returned?
    ensures Distinct(MergeAll(server, items).value)
    decreases |items|
  {
    if items != [] {
      var n := |items|;
      MergeKeepsDistinct(server, items[..n - 1]);
      StepKeepsDistinct(MergeAll(server, items[..n - 1]).value, items[n - 1]);
    }
  }

  /** A turn appends a line only when no merged line has its id. */
  lemma StepKeepsDistinct(m: seq<Json>, item: Json)
    requires Distinct(m) && MergeStep(m, item).Returned?
    ensures Distinct(MergeStep(m, item).value)
  {
    var r := MergeStep(m, item).value;
    StepKeys(m, item);
    if |r| == |m| + 1 && m != [] {
      assert FindIndex(m, KeyIs(Key(item))) == Returned(-1);
      assert forall i :: 0 <= i < |m| ==> Key(r[i]) != Key(item);
    }
  }
}
