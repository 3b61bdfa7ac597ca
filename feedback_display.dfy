/** The per-pattern score shown by the feedback display: the share of passed
    checklist items, rounded to a whole percentage, graded against the
    thresholds 80 and 60. */
module FeedbackDisplay {
  import opened Wrappers
  import opened Types
  import AnalysisFormatter

  /** The two item icons: a green check circle and a red cross circle. */
  datatype Icon = CheckCircle | XCircle

  /** `getStatusIcon`: a passed item gets a tick, a failed one a cross. */
  function GetStatusIcon(status: bool): (icon: Icon)
    ensures icon == CheckCircle <==> status
    ensures icon == XCircle <==> !status
  {
    if status then CheckCircle else XCircle
  }

  /** The display and the text export agree: an item shows the tick icon
      exactly when its exported line carries the `x` mark. */
  lemma IconAgreesWithExport(name: string, status: bool)
    ensures GetStatusIcon(status) == CheckCircle <==> AnalysisFormatter.ItemLine(name, status)[7] == 'x'
  {
    var line := AnalysisFormatter.ItemLine(name, status);
    assert line[7] == AnalysisFormatter.Mark(status)[0];
  }

  /** The number of items of one checklist that passed. */
  function CountPassed(checklist: ChecklistItem): (n: nat)
    ensures n <= |checklist|
    ensures n == |checklist| <==> forall e :: 0 <= e < |checklist| ==> checklist[e].1
    ensures n == 0 <==> forall e :: 0 <= e < |checklist| ==> !checklist[e].1
  {
    if checklist == [] then 0
    else (if checklist[0].1 then 1 else 0) + CountPassed(checklist[1..])
  }

  /** `totalItems`: the number of keys over all checklists; zero exactly
      when every checklist is empty, and never less than one checklist's. */
  function TotalItems(checklists: seq<ChecklistItem>): (n: nat)
    ensures n == 0 <==> forall k :: 0 <= k < |checklists| ==> checklists[k] == []
    ensures forall k :: 0 <= k < |checklists| ==> |checklists[k]| <= n
  {
    if checklists == [] then 0
    else
      var rest := TotalItems(checklists[1..]);
      assert forall k :: 1 <= k < |checklists| ==> checklists[k] == checklists[1..][k - 1];
      |checklists[0]| + rest
  }

  /** `passedItems`: the number of true values over all checklists; never
      more than the total, equal to it exactly when every item passed and
      zero exactly when none did. */
  function PassedItems(checklists: seq<ChecklistItem>): (n: nat)
    ensures n <= TotalItems(checklists)
    ensures n == TotalItems(checklists) <==> AllPassed(checklists)
    ensures n == 0 <==> NonePassed(checklists)
  {
    if checklists == [] then 0 else CountPassed(checklists[0]) + PassedItems(checklists[1..])
  }

  predicate AllPassed(checklists: seq<ChecklistItem>) {
    forall k, e :: 0 <= k < |checklists| && 0 <= e < |checklists[k]| ==> checklists[k][e].1
  }

  predicate NonePassed(checklists: seq<ChecklistItem>) {
    forall k, e :: 0 <= k < |checklists| && 0 <= e < |checklists[k]| ==> !checklists[k][e].1
  }

  /** Counting passed items splits over joined checklists. */
  lemma {:induction false} CountPassedConcat(a: ChecklistItem, b: ChecklistItem)
    ensures CountPassed(a + b) == CountPassed(a) + CountPassed(b)
  {
    if a != [] {
      assert (a + b)[0] == a[0];
      assert (a + b)[1..] == a[1..] + b;
      CountPassedConcat(a[1..], b);
    } else {
      assert a + b == b;
    }
  }

  /** The total over two runs of checklists is the sum of their totals. */
  lemma {:induction false} TotalItemsConcat(a: seq<ChecklistItem>, b: seq<ChecklistItem>)
    ensures TotalItems(a + b) == TotalItems(a) + TotalItems(b)
  {
    if a != [] {
      assert (a + b)[0] == a[0];
      assert (a + b)[1..] == a[1..] + b;
      TotalItemsConcat(a[1..], b);
    } else {
      assert a + b == b;
    }
  }

  /** The passed count over two runs of checklists is the sum of theirs. */
  lemma {:induction false} PassedItemsConcat(a: seq<ChecklistItem>, b: seq<ChecklistItem>)
    ensures PassedItems(a + b) == PassedItems(a) + PassedItems(b)
  {
    if a != [] {
      assert (a + b)[0] == a[0];
      assert (a + b)[1..] == a[1..] + b;
      PassedItemsConcat(a[1..], b);
    } else {
      assert a + b == b;
    }
  }

  /** `Math.round(passed / total * 100)` with half-up rounding; `None` stands
      for `NaN`, which is what the division gives when there are no items.
      Otherwise the value is the whole number nearest to `100 * passed / total`,
      halves rounded up, and at most 100. */
  function Percentage(passed: nat, total: nat): (pct: Option<nat>)
    ensures pct.None? <==> total == 0
    ensures pct.Some? ==> 2 * total * pct.value <= 200 * passed + total < 2 * total * (pct.value + 1)
    ensures pct.Some? && passed <= total ==> pct.value <= 100
  {
    if total == 0 then None
    else
      var q := (200 * passed + total) / (2 * total);
      assert 2 * total * q <= 200 * passed + total < 2 * total * (q + 1);
      Some(q)
  }

  /** The three grades, with the colour and the label the display shows. */
  datatype Grade = Excellent | Partial | Critical {
    function Color(): string {
      match this
      case Excellent => "green"
      case Partial => "yellow"
      case Critical => "red"
    }
    function Label(): string {
      match this
      case Excellent => "Excelente"
      case Partial => "Parcial"
      case Critical => "Crítico"
    }
    /** Excellent is better than Partial, Partial better than Critical. */
    function Rank(): nat {
      match this
      case Excellent => 2
      case Partial => 1
      case Critical => 0
    }
  }

  /** The threshold chain: at least 80 is excellent, at least 60 partial,
      anything else (including `NaN`) critical. */
  function GradeOf(pct: Option<nat>): (g: Grade)
    ensures g == Excellent <==> pct.Some? && pct.value >= 80
    ensures g == Partial <==> pct.Some? && 60 <= pct.value < 80
    ensures g == Critical <==> pct.None? || pct.value < 60
  {
    if pct.Some? && pct.value >= 80 then Excellent
    else if pct.Some? && pct.value >= 60 then Partial
    else Critical
  }

  datatype PatternStatus = PatternStatus(color: string, status: string)

  /** The grade of a pattern's checklists. */
  function PatternGrade(checklists: seq<ChecklistItem>): Grade {
    GradeOf(Percentage(PassedItems(checklists), TotalItems(checklists)))
  }

  /** `getPatternStatus`: always one of the three fixed colour/label pairs. */
  function GetPatternStatus(checklists: seq<ChecklistItem>): (s: PatternStatus)
    ensures || s == PatternStatus("green", "Excelente")
            || s == PatternStatus("yellow", "Parcial")
            || s == PatternStatus("red", "Crítico")
    ensures s.color == PatternGrade(checklists).Color() && s.status == PatternGrade(checklists).Label()
  {
    var g := PatternGrade(checklists);
    PatternStatus(g.Color(), g.Label())
  }

  /** The boundaries of the threshold chain. */
  lemma GradeBoundaries()
    ensures GradeOf(Some(80)) == Excellent && GradeOf(Some(79)) == Partial
    ensures GradeOf(Some(60)) == Partial && GradeOf(Some(59)) == Critical
    ensures GradeOf(None) == Critical
  {
  }

  lemma MulMonotone(c: nat, a: nat, b: nat)
    requires a <= b
    ensures c * a <= c * b
  {
  }

  /** The grades in exact arithmetic: excellent exactly when
      `100 * passed / total >= 79.5`, partial exactly when it lies in
      `[59.5, 79.5)`, critical otherwise and whenever there are no items. */
  lemma {:induction false} GradeThresholds(passed: nat, total: nat)
    ensures GradeOf(Percentage(passed, total)) == Excellent <==> total > 0 && 200 * passed >= 159 * total
    ensures GradeOf(Percentage(passed, total)) == Partial
        <==> total > 0 && 119 * total <= 200 * passed < 159 * total
    ensures GradeOf(Percentage(passed, total)) == Critical <==> total == 0 || 200 * passed < 119 * total
  {
    var pct := Percentage(passed, total);
    if total > 0 {
      var q := pct.value;
      var a := 200 * passed + total;
      assert 2 * total * q <= a < 2 * total * (q + 1);
      if q >= 80 { MulMonotone(2 * total, 80, q); }
      else { MulMonotone(2 * total, q + 1, 80); }
      if q >= 60 { MulMonotone(2 * total, 60, q); }
      else { MulMonotone(2 * total, q + 1, 60); }
    }
  }

  /** For a fixed number of items, passing more items never lowers the grade. */
  lemma GradeMonotone(passed1: nat, passed2: nat, total: nat)
    requires passed1 <= passed2
    ensures GradeOf(Percentage(passed1, total)).Rank() <= GradeOf(Percentage(passed2, total)).Rank()
  {
    GradeThresholds(passed1, total);
    GradeThresholds(passed2, total);
  }

  /** Without any item the percentage is `NaN` and the pattern is critical. */
  lemma NoItemsIsCritical(checklists: seq<ChecklistItem>)
    requires TotalItems(checklists) == 0
    ensures GetPatternStatus(checklists) == PatternStatus("red", "Crítico")
  {
  }

  /** Checklists with items that all passed are excellent; with items none of
      which passed, critical. */
  lemma AllOrNothing(checklists: seq<ChecklistItem>)
    requires TotalItems(checklists) > 0
    ensures AllPassed(checklists) ==> PatternGrade(checklists) == Excellent
    ensures NonePassed(checklists) ==> PatternGrade(checklists) == Critical
  {
    GradeThresholds(PassedItems(checklists), TotalItems(checklists));
  }
}
