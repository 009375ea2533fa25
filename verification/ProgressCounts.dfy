/** Progress said by counting the items of a checklist. */
module ProgressCounts {
  import opened Prelude
  import opened Progress

  function Of(items: seq<Item>, section: Section): set<nat> {
    set i: nat | i < |items| && items[i].section == section
  }

  function Done(items: seq<Item>, section: Section): set<nat> {
    set i: nat | i < |items| && items[i].section == section && items[i].isChecked
  }

  function Shifted(a: set<nat>): set<nat> {
    set i: nat | i in a :: i + 1
  }

  lemma ShiftedHas(a: set<nat>, y: nat)
    ensures y in Shifted(a) <==> y > 0 && y - 1 in a
  {
    if y > 0 && y - 1 in a {
      assert y == (y - 1) + 1;
    }
  }

  lemma {:induction false} ShiftedCount(a: set<nat>)
    ensures |Shifted(a)| == |a|
    decreases |a|
  {
    if a != {} {
      var x: nat :| x in a;
      ShiftedCount(a - {x});
      forall y: nat ensures y in Shifted(a) <==> y in Shifted(a - {x}) || y == x + 1 {
        ShiftedHas(a, y);
        ShiftedHas(a - {x}, y);
      }
      ShiftedHas(a - {x}, x + 1);
      assert Shifted(a) == Shifted(a - {x}) + {x + 1};
    } else {
      assert a == {} && Shifted(a) == {};
    }
  }

  lemma OfFirst(items: seq<Item>, section: Section)
    requires items != []
    ensures Of(items, section) == (if items[0].section == section then {0} else {}) + Shifted(Of(items[1..], section))
    ensures Done(items, section)
            == (if items[0].section == section && items[0].isChecked then {0} else {})
               + Shifted(Done(items[1..], section))
  {
    forall i: nat | 0 < i < |items| ensures i in Shifted(Of(items[1..], section)) <==> items[i].section == section {
      assert i - 1 in Of(items[1..], section) <==> items[i].section == section;
    }
    forall i: nat | 0 < i < |items|
      ensures i in Shifted(Done(items[1..], section)) <==> items[i].section == section && items[i].isChecked
    {
      assert i - 1 in Done(items[1..], section) <==> items[i].section == section && items[i].isChecked;
    }
  }

  lemma FirstCount(here: set<nat>, rest: set<nat>)
    requires here == {0} || here == {}
    requires 0 !in Shifted(rest)
    ensures |here + Shifted(rest)| == |here| + |rest|
  {
    ShiftedCount(rest);
    assert here !! Shifted(rest);
  }

  /** The filters count what they say. */
  lemma {:induction false} FiltersCount(items: seq<Item>, section: Section)
    ensures |OfSection(items, section)| == |Of(items, section)|
    ensures |CheckedOf(OfSection(items, section))| == |Done(items, section)|
  {
    if items != [] {
      var rest := items[1..];
      FiltersCount(rest, section);
      OfFirst(items, section);
      FirstCount(if items[0].section == section then {0} else {}, Of(rest, section));
      FirstCount(if items[0].section == section && items[0].isChecked then {0} else {}, Done(rest, section));
      CheckedFirst(if items[0].section == section then [items[0]] else [], OfSection(rest, section));
    }
  }

  /** A section opens the next one when it has items and all of them are checked. */
  predicate AllDone(items: seq<Item>, section: Section) {
    Of(items, section) != {} && Of(items, section) <= Done(items, section)
  }

  lemma CompleteExactly(items: seq<Item>, section: Section)
    ensures Complete(OfSection(items, section)) <==> AllDone(items, section)
  {
    FiltersCount(items, section);
    var of, done := Of(items, section), Done(items, section);
    assert done <= of && of == done + (of - done);
    assert |of| == |done| + |of - done|;
    assert |of - done| == 0 <==> of <= done;
    assert |of| == 0 <==> of == {};
  }

  /** The page counts the mandatory items, the bonus items once those are all done, and the supplemental ones
      once the bonus items are too. */
  lemma CountsExactly(items: seq<Item>)
    ensures var bonus := AllDone(items, MANDATORY);
            var supplemental := bonus && AllDone(items, BONUS);
            && Readiness(items).currentValue
               == |Done(items, MANDATORY)| + (if bonus then |Done(items, BONUS)| else 0)
                  + (if supplemental then |Done(items, SUPPLEMENTAL)| else 0)
            && Readiness(items).completeAt
               == |Of(items, MANDATORY)| + (if bonus then |Of(items, BONUS)| else 0)
                  + (if supplemental then |Of(items, SUPPLEMENTAL)| else 0)
  {
    FiltersCount(items, MANDATORY);
    FiltersCount(items, BONUS);
    FiltersCount(items, SUPPLEMENTAL);
    CompleteExactly(items, MANDATORY);
    CompleteExactly(items, BONUS);
  }

  lemma RoundedBounds(x: real)
    ensures var p := Round(x); (2 * p - 1) as real <= 2.0 * x < (2 * p + 1) as real
  {
  }

  lemma ScaledBounds(c: int, n: int, p: int)
    requires n > 0 && (2 * p - 1) as real <= 2.0 * ((c as real / n as real) * 100.0) < (2 * p + 1) as real
    ensures (2 * p - 1) * n <= 200 * c < (2 * p + 1) * n
  {
    var q := c as real / n as real;
    assert q * n as real == c as real;
    SignOfProduct(200.0 * q - (2 * p - 1) as real, n as real);
    assert (200.0 * q - (2 * p - 1) as real) * n as real == 200.0 * c as real - (2 * p - 1) as real * n as real;
    SignOfProduct(200.0 * q - (2 * p + 1) as real, n as real);
    assert (200.0 * q - (2 * p + 1) as real) * n as real == 200.0 * c as real - (2 * p + 1) as real * n as real;
    assert (2 * p - 1) as real * n as real == ((2 * p - 1) * n) as real;
    assert (2 * p + 1) as real * n as real == ((2 * p + 1) * n) as real;
  }

  /** A section's percent is the whole number nearest to the share of its checked items, the upper of two. */
  lemma PercentIsNearest(items: seq<Item>, section: Section)
    ensures var n, c, p := |Of(items, section)|, |Done(items, section)|, SectionPercent(OfSection(items, section));
            if n == 0 then p == 0 else (2 * p - 1) * n <= 200 * c < (2 * p + 1) * n
  {
    FiltersCount(items, section);
    var n, c := |Of(items, section)|, |Done(items, section)|;
    if n > 0 {
      RoundedBounds((c as real / n as real) * 100.0);
      ScaledBounds(c, n, SectionPercent(OfSection(items, section)));
    }
  }
}
