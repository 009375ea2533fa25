/** Checklist progress, computed twice: for the project card (backend, capped at 100) and for the
    checklist page (frontend, up to 150). Percents are exact rationals, rounded half up. */
module Progress {
  import opened Prelude

  datatype Section = MANDATORY | BONUS | SUPPLEMENTAL
  datatype Item = Item(section: Section, isChecked: bool)

  function OfSection(items: seq<Item>, section: Section): seq<Item> {
    if items == [] then []
    else (if items[0].section == section then [items[0]] else []) + OfSection(items[1..], section)
  }

  function CheckedOf(items: seq<Item>): (r: seq<Item>)
    ensures |r| <= |items|
    ensures |r| == |items| <==> forall i :: 0 <= i < |items| ==> items[i].isChecked
  {
    if items == [] then []
    else (if items[0].isChecked then [items[0]] else []) + CheckedOf(items[1..])
  }

  /** `Math.round`: to the nearest integer, halves up. */
  function Round(x: real): int {
    (x + 0.5).Floor
  }

  function SectionPercent(items: seq<Item>): int {
    if |items| == 0 then 0
    else Round((|CheckedOf(items)| as real / |items| as real) * 100.0)
  }

  predicate Complete(items: seq<Item>) {
    |items| > 0 && forall i :: 0 <= i < |items| ==> items[i].isChecked
  }

  // ---------------------------------------------------------------- the two computations

  datatype Progress = Progress(currentValue: int, completeAt: int, percent: real)

  const CATEGORY_WEIGHT := 25.0

  /** What the checklist page shows, section by section. */
  function Readiness(items: seq<Item>): Progress {
    var m, b, s := OfSection(items, MANDATORY), OfSection(items, BONUS), OfSection(items, SUPPLEMENTAL);
    var bonusCounts := Complete(m);
    var supplementalCounts := bonusCounts && Complete(b);
    Progress(
      |CheckedOf(m)| + (if bonusCounts then |CheckedOf(b)| else 0) + (if supplementalCounts then |CheckedOf(s)| else 0),
      |m| + (if bonusCounts then |b| else 0) + (if supplementalCounts then |s| else 0),
      Round(SectionPercent(m) as real
            + (if bonusCounts then (SectionPercent(b) as real / 100.0) * CATEGORY_WEIGHT else 0.0)
            + (if supplementalCounts then (SectionPercent(s) as real / 100.0) * CATEGORY_WEIGHT else 0.0)) as real)
  }

  method ComputeEvaluationChecklistProgress(items: seq<Item>) returns (progress: Progress)
    ensures progress == Readiness(items)
  {
    var mandatory := OfSection(items, MANDATORY);
    var bonus := OfSection(items, BONUS);
    var supplemental := OfSection(items, SUPPLEMENTAL);
    progress := Progress(|CheckedOf(mandatory)|, |mandatory|, SectionPercent(mandatory) as real);
    if Complete(mandatory) {
      progress := progress.(currentValue := progress.currentValue + |CheckedOf(bonus)|);
      progress := progress.(completeAt := progress.completeAt + |bonus|);
      progress := progress.(percent := progress.percent + (SectionPercent(bonus) as real / 100.0) * CATEGORY_WEIGHT);
      if Complete(bonus) {
        progress := progress.(currentValue := progress.currentValue + |CheckedOf(supplemental)|);
        progress := progress.(completeAt := progress.completeAt + |supplemental|);
        progress := progress.(percent :=
          progress.percent + (SectionPercent(supplemental) as real / 100.0) * CATEGORY_WEIGHT);
      }
    }
    progress := progress.(percent := Round(progress.percent) as real);
  }

  /** What the project card shows. It opens a section on the rounded percent of the one before. */
  method ComputeProjectProgress(items: seq<Item>) returns (percent: int)
    ensures percent == SectionPercent(OfSection(items, MANDATORY))
    ensures percent == Min(100, Readiness(items).percent.Floor)
  {
    var mandatory := SectionPercent(OfSection(items, MANDATORY));
    var bonus := SectionPercent(OfSection(items, BONUS));
    var supplemental := SectionPercent(OfSection(items, SUPPLEMENTAL));
    var overall := mandatory as real;
    if mandatory >= 100 {
      overall := overall + (bonus as real / 100.0) * 25.0;
      if bonus >= 100 {
        overall := overall + (supplemental as real / 100.0) * 25.0;
      }
    }
    percent := Min(Round(overall), 100);
    PercentIsBounded(OfSection(items, MANDATORY));
    PercentIsBounded(OfSection(items, BONUS));
    PercentIsBounded(OfSection(items, SUPPLEMENTAL));
    ReadinessStartsWithMandatory(items);
  }

  // ---------------------------------------------------------------- one section

  lemma SignOfProduct(x: real, n: real)
    requires n > 0.0
    ensures x * n >= 0.0 <==> x >= 0.0
  {
    if x >= 0.0 {
      assert x * n >= 0.0;
    } else {
      assert (-x) * n > 0.0;
    }
  }

  /** Comparing a quotient with a bound is comparing the numerator with the scaled bound. */
  lemma QuotientAtLeast(c: real, n: real, bound: real)
    requires n > 0.0
    ensures c / n >= bound <==> c >= bound * n
  {
    var q := c / n;
    assert q * n == c;
    assert (q - bound) * n == q * n - bound * n;
    SignOfProduct(q - bound, n);
  }

  lemma QuotientAtMost(c: real, n: real, bound: real)
    requires n > 0.0
    ensures c / n <= bound <==> c <= bound * n
  {
    var q := c / n;
    assert q * n == c;
    assert (bound - q) * n == bound * n - q * n;
    SignOfProduct(bound - q, n);
  }

  lemma Ratio(c: int, n: int)
    requires 0 <= c <= n && 0 < n
    ensures var p := Round((c as real / n as real) * 100.0);
            && 0 <= p <= 100
            && (p == 100 <==> 200 * (n - c) <= n)
  {
    QuotientAtLeast(c as real, n as real, 0.0);
    QuotientAtLeast(c as real, n as real, 0.995);
    QuotientAtMost(c as real, n as real, 1.0);
    RoundedRatio(c as real / n as real);
    assert 200 * (n - c) <= n <==> c as real >= 0.995 * n as real;
  }

  lemma RoundedRatio(q: real)
    requires 0.0 <= q <= 1.0
    ensures 0 <= Round(q * 100.0) <= 100
    ensures Round(q * 100.0) == 100 <==> q >= 0.995
  {
  }

  lemma RatioGrows(c: int, d: int, n: int)
    requires 0 <= c <= d <= n && 0 < n
    ensures Round((c as real / n as real) * 100.0) <= Round((d as real / n as real) * 100.0)
  {
    var q := c as real / n as real;
    QuotientAtLeast(c as real, n as real, q);
    QuotientAtLeast(d as real, n as real, q);
    RoundGrows(q * 100.0, (d as real / n as real) * 100.0);
  }

  lemma RoundGrows(x: real, y: real)
    requires x <= y
    ensures Round(x) <= Round(y)
  {
  }

  lemma PercentIsBounded(items: seq<Item>)
    ensures 0 <= SectionPercent(items) <= 100
    ensures Complete(items) ==> SectionPercent(items) == 100
  {
    if items != [] {
      Ratio(|CheckedOf(items)|, |items|);
    }
  }

  /** A section shows 100 exactly when it is non-empty and at most one item in 200 is unchecked. */
  lemma HundredPercentExactly(items: seq<Item>)
    ensures SectionPercent(items) == 100 <==> |items| > 0 && 200 * (|items| - |CheckedOf(items)|) <= |items|
  {
    if items != [] {
      Ratio(|CheckedOf(items)|, |items|);
    }
  }

  /** Below 200 items, and the service admits 50, 100 percent means fully checked. */
  lemma HundredPercentIsComplete(items: seq<Item>)
    requires |items| < 200
    ensures SectionPercent(items) == 100 <==> Complete(items)
  {
    HundredPercentExactly(items);
  }

  // ---------------------------------------------------------------- all sections

  predicate MandatoryDone(items: seq<Item>) {
    Complete(OfSection(items, MANDATORY))
  }

  predicate BonusDone(items: seq<Item>) {
    MandatoryDone(items) && Complete(OfSection(items, BONUS))
  }

  lemma RoundQuarters(m: int, b: int, s: int)
    ensures Round(m as real + (b as real / 100.0) * CATEGORY_WEIGHT + (s as real / 100.0) * CATEGORY_WEIGHT)
            == (4 * m + b + s + 2) / 4
  {
    var x := m as real + (b as real / 100.0) * CATEGORY_WEIGHT + (s as real / 100.0) * CATEGORY_WEIGHT;
    assert 4.0 * (x + 0.5) == (4 * m + b + s + 2) as real;
  }

  /** The page's percent in whole numbers: a quarter of four times the mandatory percent plus the
      percents of the open sections, rounded half up. */
  lemma PercentInQuarters(items: seq<Item>)
    ensures var m := SectionPercent(OfSection(items, MANDATORY));
            var b := SectionPercent(OfSection(items, BONUS));
            var s := SectionPercent(OfSection(items, SUPPLEMENTAL));
            && 0 <= m <= 100 && 0 <= b <= 100 && 0 <= s <= 100
            && (MandatoryDone(items) ==> m == 100)
            && (BonusDone(items) ==> b == 100)
            && Readiness(items).percent ==
               ((4 * m + (if MandatoryDone(items) then b else 0) + (if BonusDone(items) then s else 0) + 2) / 4) as real
  {
    var m := SectionPercent(OfSection(items, MANDATORY));
    var b := if MandatoryDone(items) then SectionPercent(OfSection(items, BONUS)) else 0;
    var s := if BonusDone(items) then SectionPercent(OfSection(items, SUPPLEMENTAL)) else 0;
    PercentIsBounded(OfSection(items, MANDATORY));
    PercentIsBounded(OfSection(items, BONUS));
    PercentIsBounded(OfSection(items, SUPPLEMENTAL));
    RoundQuarters(m, b, s);
  }

  lemma ReadinessStartsWithMandatory(items: seq<Item>)
    ensures Readiness(items).percent.Floor as real == Readiness(items).percent
    ensures Min(100, Readiness(items).percent.Floor) == SectionPercent(OfSection(items, MANDATORY))
    ensures 0.0 <= Readiness(items).percent <= 150.0
  {
    PercentInQuarters(items);
  }

  /** The colour tier of a percent. */
  function Tier(percent: real): Section {
    if percent > 125.0 then SUPPLEMENTAL
    else if percent > 100.0 then BONUS
    else MANDATORY
  }

  lemma TiersInQuarters(percent: real, m: int, b: int, s: int, bonusCounts: bool, supplementalCounts: bool)
    requires 0 <= m <= 100 && 0 <= b <= 100 && 0 <= s <= 100
    requires (bonusCounts ==> m == 100) && (supplementalCounts ==> bonusCounts && b == 100)
    requires percent
             == ((4 * m + (if bonusCounts then b else 0) + (if supplementalCounts then s else 0) + 2) / 4) as real
    ensures percent == 150.0 <==> supplementalCounts && s >= 98
    ensures percent >= 125.0 <==> bonusCounts && b >= 98
    ensures Tier(percent) == SUPPLEMENTAL <==> supplementalCounts && s >= 2
    ensures Tier(percent) != MANDATORY <==> bonusCounts && b >= 2
  {
  }

  /** The thresholds of the page: a tier's full score is reached from 98 percent of its section on,
      because a quarter of the missing two percent rounds away. */
  lemma ThresholdsExactly(items: seq<Item>)
    ensures Readiness(items).percent == 150.0
            <==> BonusDone(items) && SectionPercent(OfSection(items, SUPPLEMENTAL)) >= 98
    ensures Readiness(items).percent >= 125.0 <==> MandatoryDone(items) && SectionPercent(OfSection(items, BONUS)) >= 98
  {
    PercentInQuarters(items);
    TiersInQuarters(Readiness(items).percent, SectionPercent(OfSection(items, MANDATORY)),
                    SectionPercent(OfSection(items, BONUS)), SectionPercent(OfSection(items, SUPPLEMENTAL)),
                    MandatoryDone(items), BonusDone(items));
  }

  function Items(section: Section, checked: nat, unchecked: nat): (r: seq<Item>)
    ensures |r| == checked + unchecked
  {
    if checked > 0 then [Item(section, true)] + Items(section, checked - 1, unchecked)
    else if unchecked > 0 then [Item(section, false)] + Items(section, 0, unchecked - 1)
    else []
  }

  lemma {:induction false} OfSectionFirst(item: Item, items: seq<Item>, section: Section)
    ensures OfSection([item] + items, section) == (if item.section == section then [item]
            else []) + OfSection(items, section)
    ensures CheckedOf([item] + items) == (if item.isChecked then [item] else []) + CheckedOf(items)
  {
    assert ([item] + items)[1..] == items;
  }

  lemma {:induction false} ItemsOfSection(section: Section, other: Section, checked: nat, unchecked: nat)
    ensures OfSection(Items(section, checked, unchecked), other)
            == if other == section then Items(section, checked, unchecked) else []
    decreases checked + unchecked
  {
    if checked > 0 {
      ItemsOfSection(section, other, checked - 1, unchecked);
      OfSectionFirst(Item(section, true), Items(section, checked - 1, unchecked), other);
    } else if unchecked > 0 {
      ItemsOfSection(section, other, 0, unchecked - 1);
      OfSectionFirst(Item(section, false), Items(section, 0, unchecked - 1), other);
    }
  }

  lemma {:induction false} ItemsChecked(section: Section, checked: nat, unchecked: nat)
    ensures |CheckedOf(Items(section, checked, unchecked))| == checked
    decreases checked + unchecked
  {
    if checked > 0 {
      ItemsChecked(section, checked - 1, unchecked);
      OfSectionFirst(Item(section, true), Items(section, checked - 1, unchecked), section);
    } else if unchecked > 0 {
      ItemsChecked(section, 0, unchecked - 1);
      OfSectionFirst(Item(section, false), Items(section, 0, unchecked - 1), section);
    }
  }

  lemma {:induction false} SectionJoins(a: seq<Item>, b: seq<Item>, section: Section)
    ensures OfSection(a + b, section) == OfSection(a, section) + OfSection(b, section)
  {
    if a == [] {
      assert a + b == b;
    } else {
      assert (a + b)[1..] == a[1..] + b;
      SectionJoins(a[1..], b, section);
      Regroup(if a[0].section == section then [a[0]] else [], OfSection(a[1..], section), OfSection(b, section));
    }
  }

  /** Everything checked but the last of `n` supplemental items. */
  function OneItemLeft(mandatory: nat, bonus: nat, n: nat): seq<Item>
    requires n > 0
  {
    Items(MANDATORY, mandatory, 0) + (Items(BONUS, bonus, 0) + Items(SUPPLEMENTAL, n - 1, 1))
  }

  lemma SectionOfOneItemLeft(mandatory: nat, bonus: nat, n: nat, section: Section)
    requires n > 0
    ensures OfSection(OneItemLeft(mandatory, bonus, n), section) ==
            match section
            case MANDATORY => Items(MANDATORY, mandatory, 0)
            case BONUS => Items(BONUS, bonus, 0)
            case SUPPLEMENTAL => Items(SUPPLEMENTAL, n - 1, 1)
  {
    var m, b, s := Items(MANDATORY, mandatory, 0), Items(BONUS, bonus, 0), Items(SUPPLEMENTAL, n - 1, 1);
    SectionJoins(m, b + s, section);
    SectionJoins(b, s, section);
    ItemsOfSection(MANDATORY, section, mandatory, 0);
    ItemsOfSection(BONUS, section, bonus, 0);
    ItemsOfSection(SUPPLEMENTAL, section, n - 1, 1);
  }

  lemma PercentOfItems(section: Section, checked: nat, unchecked: nat)
    requires checked + unchecked > 0
    ensures SectionPercent(Items(section, checked, unchecked))
            == Round((checked as real / (checked + unchecked) as real) * 100.0)
    ensures Complete(Items(section, checked, unchecked)) <==> unchecked == 0
  {
    ItemsChecked(section, checked, unchecked);
  }

  lemma OneItemLeftOpens(mandatory: nat, bonus: nat, n: nat)
    requires mandatory > 0 && bonus > 0 && n > 0
    ensures BonusDone(OneItemLeft(mandatory, bonus, n))
  {
    SectionOfOneItemLeft(mandatory, bonus, n, MANDATORY);
    SectionOfOneItemLeft(mandatory, bonus, n, BONUS);
    PercentOfItems(MANDATORY, mandatory, 0);
    PercentOfItems(BONUS, bonus, 0);
  }

  lemma OneOfManyMissing(n: nat)
    requires n > 0
    ensures Round(((n - 1) as real / n as real) * 100.0) >= 98 <==> n >= 40
  {
    QuotientAtLeast((n - 1) as real, n as real, 0.975);
    assert (n - 1) as real >= 0.975 * n as real <==> n >= 40;
    var q := (n - 1) as real / n as real;
    assert (q * 100.0 + 0.5).Floor >= 98 <==> q * 100.0 + 0.5 >= 98.0;
  }

  lemma OneItemLeftPercent(mandatory: nat, bonus: nat, n: nat)
    requires n > 0
    ensures SectionPercent(OfSection(OneItemLeft(mandatory, bonus, n), SUPPLEMENTAL)) >= 98 <==> n >= 40
    ensures !Complete(OfSection(OneItemLeft(mandatory, bonus, n), SUPPLEMENTAL))
  {
    SectionOfOneItemLeft(mandatory, bonus, n, SUPPLEMENTAL);
    PercentOfItems(SUPPLEMENTAL, n - 1, 1);
    OneOfManyMissing(n);
  }

  /** From 40 supplemental items on, and the service admits 50, the page shows the greatest score with
      one of them still unchecked. */
  lemma OneItemLeftShows150(mandatory: nat, bonus: nat, n: nat)
    requires mandatory > 0 && bonus > 0 && n > 0
    ensures Readiness(OneItemLeft(mandatory, bonus, n)).percent == 150.0 <==> n >= 40
    ensures !Complete(OfSection(OneItemLeft(mandatory, bonus, n), SUPPLEMENTAL))
  {
    OneItemLeftOpens(mandatory, bonus, n);
    OneItemLeftPercent(mandatory, bonus, n);
    ThresholdsExactly(OneItemLeft(mandatory, bonus, n));
  }

  /** A tier is worn only once the sections before it are fully checked. */
  lemma TierNeedsEarlierSections(items: seq<Item>)
    ensures Tier(Readiness(items).percent) == SUPPLEMENTAL
            <==> BonusDone(items) && SectionPercent(OfSection(items, SUPPLEMENTAL)) >= 2
    ensures Tier(Readiness(items).percent) != MANDATORY
            <==> MandatoryDone(items) && SectionPercent(OfSection(items, BONUS)) >= 2
  {
    PercentInQuarters(items);
    TiersInQuarters(Readiness(items).percent, SectionPercent(OfSection(items, MANDATORY)),
                    SectionPercent(OfSection(items, BONUS)), SectionPercent(OfSection(items, SUPPLEMENTAL)),
                    MandatoryDone(items), BonusDone(items));
  }

  // ---------------------------------------------------------------- checking an item

  function Check(items: seq<Item>, i: nat): seq<Item>
    requires i < |items|
  {
    items[i := items[i].(isChecked := true)]
  }

  lemma {:induction false} CheckInSection(items: seq<Item>, i: nat, section: Section)
    requires i < |items|
    ensures var before, after := OfSection(items, section), OfSection(Check(items, i), section);
            && |after| == |before|
            && |CheckedOf(before)| <= |CheckedOf(after)|
  {
    var rest, after := OfSection(items[1..], section), Check(items, i);
    if i == 0 {
      assert after[1..] == items[1..];
    } else {
      assert after[1..] == Check(items[1..], i - 1);
      CheckInSection(items[1..], i - 1, section);
    }
    CheckedFirst(if items[0].section == section then [items[0]] else [], OfSection(items[1..], section));
    CheckedFirst(if after[0].section == section then [after[0]] else [], OfSection(after[1..], section));
  }

  lemma CheckedFirst(a: seq<Item>, b: seq<Item>)
    requires |a| <= 1
    ensures |CheckedOf(a + b)| == |CheckedOf(a)| + |CheckedOf(b)|
  {
    if a == [] {
      assert a + b == b;
    } else {
      assert (a + b)[1..] == b;
    }
  }

  lemma SectionNeverDrops(items: seq<Item>, i: nat, section: Section)
    requires i < |items|
    ensures var before, after := OfSection(items, section), OfSection(Check(items, i), section);
            && SectionPercent(before) <= SectionPercent(after)
            && (Complete(before) ==> Complete(after))
  {
    var before, after := OfSection(items, section), OfSection(Check(items, i), section);
    CheckInSection(items, i, section);
    if before != [] {
      RatioGrows(|CheckedOf(before)|, |CheckedOf(after)|, |before|);
    }
  }

  /** Checking an item never lowers what the page shows. */
  lemma CheckingNeverLowers(items: seq<Item>, i: nat)
    requires i < |items|
    ensures Readiness(items).percent <= Readiness(Check(items, i)).percent
  {
    SectionNeverDrops(items, i, MANDATORY);
    SectionNeverDrops(items, i, BONUS);
    SectionNeverDrops(items, i, SUPPLEMENTAL);
    PercentInQuarters(items);
    PercentInQuarters(Check(items, i));
  }
}
