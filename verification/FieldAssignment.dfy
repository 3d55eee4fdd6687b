/**
 * Giving the numbers found on a form to the labels found on it.  Labels and numbers come in the
 * order in which they stand in the text; labels without a number between them form a group, and the
 * numbers behind the group are dealt out to its labels in order.
 */
module FieldAssignment {
  import opened Wrappers
  import opened SheetChecks

  datatype LabelHit = LabelHit(field: Field, index: nat, end: nat)

  datatype FoundNumber = FoundNumber(value: nat, index: nat)

  /** Each field is looked for once. */
  ghost predicate OneLabelEach(labels: seq<LabelHit>) {
    forall a, b :: 0 <= a < b < |labels| ==> labels[a].field != labels[b].field
  }

  ghost predicate InTextOrder(numbers: seq<FoundNumber>) {
    forall a, b :: 0 <= a < b < |numbers| ==> numbers[a].index < numbers[b].index
  }

  /** A total of voters or ballots is not below ten. */
  predicate TooSmall(f: Field, value: nat) {
    f in {RegisteredVoters, AccreditedVoters, BallotPapersIssued, UsedBallotPapers} && value < 10
  }

  predicate NumberBetween(labels: seq<LabelHit>, numbers: seq<FoundNumber>, j: nat)
    requires 1 <= j < |labels|
  {
    exists n | n in numbers :: labels[j - 1].end <= n.index < labels[j].index
  }

  /** Where the group that reaches up to label `j - 1` ends. */
  function GroupEnd(labels: seq<LabelHit>, numbers: seq<FoundNumber>, j: nat): (r: nat)
    requires 1 <= j <= |labels|
    ensures j <= r <= |labels|
    decreases |labels| - j
  {
    if j == |labels| || NumberBetween(labels, numbers, j) then j else GroupEnd(labels, numbers, j + 1)
  }

  /** The first number from `n` on that does not stand before `position`. */
  function SkipTo(numbers: seq<FoundNumber>, n: nat, position: nat): (r: nat)
    ensures n <= r
    decreases |numbers| - n
  {
    if n < |numbers| && numbers[n].index < position then SkipTo(numbers, n + 1, position) else n
  }

  predicate Precedes(number: FoundNumber, labels: seq<LabelHit>, j: nat) {
    j < |labels| ==> number.index < labels[j].index
  }

  /** A number is left to deal out before the group that starts at `j`. */
  predicate Available(labels: seq<LabelHit>, numbers: seq<FoundNumber>, j: nat, n: nat) {
    n < |numbers| && Precedes(numbers[n], labels, j)
  }

  /** Which number each of the labels from `k` to `j` gets, dealing from number `n` on. */
  function Deal(labels: seq<LabelHit>, numbers: seq<FoundNumber>, j: nat, n: nat, k: nat): (r: seq<Option<nat>>)
    requires k <= j <= |labels|
    ensures |r| == j - k
    decreases j - k + |numbers| - n, j - k
  {
    if k == j then []
    else if !Available(labels, numbers, j, n) then seq(j - k, _ => None)
    else if TooSmall(labels[k].field, numbers[n].value) then Deal(labels, numbers, j, n + 1, k)
    else [Some(n)] + Deal(labels, numbers, j, n + 1, k + 1)
  }

  /** The number at which dealing to that group stops. */
  function DealtUpTo(labels: seq<LabelHit>, numbers: seq<FoundNumber>, j: nat, n: nat, k: nat): (r: nat)
    requires k <= j <= |labels|
    ensures n <= r
    decreases |numbers| - n
  {
    if k == j || !Available(labels, numbers, j, n) then n
    else if TooSmall(labels[k].field, numbers[n].value) then DealtUpTo(labels, numbers, j, n + 1, k)
    else DealtUpTo(labels, numbers, j, n + 1, k + 1)
  }

  /** Which number each label from `i` on gets, if any. */
  function Assigned(labels: seq<LabelHit>, numbers: seq<FoundNumber>, i: nat, n: nat): (r: seq<Option<nat>>)
    requires i <= |labels|
    ensures |r| == |labels| - i
    decreases |labels| - i
  {
    if i == |labels| then []
    else
      var j := GroupEnd(labels, numbers, i + 1);
      var first := SkipTo(numbers, n, labels[j - 1].end);
      Deal(labels, numbers, j, first, i) + Assigned(labels, numbers, j, DealtUpTo(labels, numbers, j, first, i))
  }

  function Assignment(labels: seq<LabelHit>, numbers: seq<FoundNumber>): (r: seq<Option<nat>>)
    ensures |r| == |labels|
  {
    if labels == [] then [] else Assigned(labels, numbers, 0, SkipTo(numbers, 0, labels[0].index))
  }

  // ---------------------------------------------------------------- what is assigned

  /** What holds of the number a label gets. */
  ghost predicate Fits(labels: seq<LabelHit>, numbers: seq<FoundNumber>, k: nat, n: nat)
    requires k < |labels|
  {
    var j := GroupEnd(labels, numbers, k + 1);
    && n < |numbers|
    && labels[j - 1].end <= numbers[n].index
    && Precedes(numbers[n], labels, j)
    && !TooSmall(labels[k].field, numbers[n].value)
  }

  /** All numbers given to the labels from `i` on fit, increase, and lie between `low` and `high`. */
  ghost predicate Ordered(
      labels: seq<LabelHit>, numbers: seq<FoundNumber>, i: nat, given: seq<Option<nat>>, low: nat, high: nat)
    requires i + |given| <= |labels|
  {
    && (forall a :: 0 <= a < |given| && given[a].Some? ==>
          low <= given[a].value < high && Fits(labels, numbers, i + a, given[a].value))
    && (forall a, b :: 0 <= a < b < |given| && given[a].Some? && given[b].Some? ==> given[a].value < given[b].value)
  }

  /** All labels of a group agree where it ends. */
  lemma {:induction false} OneGroupEnd(labels: seq<LabelHit>, numbers: seq<FoundNumber>, j: nat, k: nat)
    requires 1 <= j <= |labels| && j <= k <= GroupEnd(labels, numbers, j)
    ensures GroupEnd(labels, numbers, k) == GroupEnd(labels, numbers, j)
    decreases k - j
  {
    if j < k {
      OneGroupEnd(labels, numbers, j + 1, k);
    }
  }

  lemma {:induction false} SkippedAreBefore(numbers: seq<FoundNumber>, n: nat, position: nat)
    requires InTextOrder(numbers)
    ensures Behind(numbers, SkipTo(numbers, n, position), position)
    decreases |numbers| - n
  {
    if n < |numbers| && numbers[n].index < position {
      SkippedAreBefore(numbers, n + 1, position);
    }
  }

  /** All numbers from `n` on stand at or after `position`. */
  ghost predicate Behind(numbers: seq<FoundNumber>, n: nat, position: nat) {
    forall m :: n <= m < |numbers| ==> position <= numbers[m].index
  }

  lemma BehindNext(numbers: seq<FoundNumber>, n: nat, position: nat)
    requires n < |numbers| && Behind(numbers, n, position)
    ensures Behind(numbers, n + 1, position) && position <= numbers[n].index
  {
  }

  lemma NothingIsOrdered(labels: seq<LabelHit>, numbers: seq<FoundNumber>, i: nat, given: seq<Option<nat>>, low: nat,
      high: nat)
    requires i + |given| <= |labels| && forall a :: 0 <= a < |given| ==> given[a] == None
    ensures Ordered(labels, numbers, i, given, low, high)
  {
  }

  lemma FitsInGroup(labels: seq<LabelHit>, numbers: seq<FoundNumber>, i: nat, j: nat, n: nat, k: nat)
    requires i <= k < j <= |labels| && j == GroupEnd(labels, numbers, i + 1)
    requires Available(labels, numbers, j, n) && !TooSmall(labels[k].field, numbers[n].value)
    requires labels[j - 1].end <= numbers[n].index
    ensures Fits(labels, numbers, k, n)
  {
    OneGroupEnd(labels, numbers, i + 1, k + 1);
  }

  lemma OrderedLower(labels: seq<LabelHit>, numbers: seq<FoundNumber>, i: nat, given: seq<Option<nat>>, lower: nat,
      low: nat, high: nat)
    requires i + |given| <= |labels| && lower <= low && Ordered(labels, numbers, i, given, low, high)
    ensures Ordered(labels, numbers, i, given, lower, high)
  {
  }

  lemma {:induction false} DealIsOrdered(labels: seq<LabelHit>, numbers: seq<FoundNumber>, i: nat, j: nat, n: nat,
      k: nat)
    requires i <= k <= j <= |labels| && i < |labels| && j == GroupEnd(labels, numbers, i + 1)
    requires Behind(numbers, n, labels[j - 1].end)
    ensures Ordered(labels, numbers, k, Deal(labels, numbers, j, n, k), n, DealtUpTo(labels, numbers, j, n, k))
    decreases j - k + |numbers| - n, j - k
  {
    hide Ordered, GroupEnd, Fits, Deal, DealtUpTo, Behind;
    if k == j || !Available(labels, numbers, j, n) {
      DealNoMore(labels, numbers, j, n, k);
      NothingIsOrdered(labels, numbers, k, Deal(labels, numbers, j, n, k), n, n);
    } else {
      BehindNext(numbers, n, labels[j - 1].end);
      DealOne(labels, numbers, j, n, k);
      if TooSmall(labels[k].field, numbers[n].value) {
        DealIsOrdered(labels, numbers, i, j, n + 1, k);
        var given := Deal(labels, numbers, j, n + 1, k);
        OrderedLower(labels, numbers, k, given, n, n + 1, DealtUpTo(labels, numbers, j, n + 1, k));
      } else {
        DealIsOrdered(labels, numbers, i, j, n + 1, k + 1);
        FitsInGroup(labels, numbers, i, j, n, k);
        var given := Deal(labels, numbers, j, n + 1, k + 1);
        OrderedCons(labels, numbers, k, n, given, DealtUpTo(labels, numbers, j, n + 1, k + 1));
      }
    }
  }

  /** A number of the group's stretch is dealt out, too small for a label, or left when all have one. */
  ghost predicate Accounted(
      labels: seq<LabelHit>, numbers: seq<FoundNumber>, j: nat, k: nat, given: seq<Option<nat>>, m: nat)
    requires k <= j <= |labels| && m < |numbers|
  {
    || Some(m) in given
    || (forall a :: 0 <= a < |given| ==> given[a].Some?)
    || exists l :: k <= l < j && TooSmall(labels[l].field, numbers[m].value)
  }

  lemma {:induction false} DealWastesNothing(labels: seq<LabelHit>, numbers: seq<FoundNumber>, j: nat, n: nat,
      k: nat, m: nat)
    requires k <= j <= |labels| && n <= m < |numbers|
    requires InTextOrder(numbers) && Precedes(numbers[m], labels, j)
    ensures Accounted(labels, numbers, j, k, Deal(labels, numbers, j, n, k), m)
    decreases j - k + |numbers| - n, j - k
  {
    if k < j {
      assert Available(labels, numbers, j, n);
      if TooSmall(labels[k].field, numbers[n].value) {
        if n < m {
          DealWastesNothing(labels, numbers, j, n + 1, k, m);
        }
      } else if n < m {
        DealWastesNothing(labels, numbers, j, n + 1, k + 1, m);
        var given := Deal(labels, numbers, j, n + 1, k + 1);
        assert forall a | 0 <= a < |[Some(n)] + given| :: a > 0 ==> ([Some(n)] + given)[a] == given[a - 1];
      } else {
        assert (Deal(labels, numbers, j, n, k))[0] == Some(m);
      }
    }
  }

  lemma OrderedCons(labels: seq<LabelHit>, numbers: seq<FoundNumber>, k: nat, n: nat, given: seq<Option<nat>>,
      high: nat)
    requires k + 1 + |given| <= |labels| && Ordered(labels, numbers, k + 1, given, n + 1, high)
    requires Fits(labels, numbers, k, n) && n < high
    ensures Ordered(labels, numbers, k, [Some(n)] + given, n, high)
  {
    var all := [Some(n)] + given;
    forall a | 0 <= a < |all| && all[a].Some?
      ensures n <= all[a].value < high && Fits(labels, numbers, k + a, all[a].value)
    {
      if a > 0 {
        assert all[a] == given[a - 1];
        assert Fits(labels, numbers, k + 1 + (a - 1), given[a - 1].value);
      }
    }
  }

  lemma OrderedTogether(labels: seq<LabelHit>, numbers: seq<FoundNumber>, i: nat,
      x: seq<Option<nat>>, y: seq<Option<nat>>, low: nat, middle: nat, high: nat)
    requires i + |x| + |y| <= |labels| && low <= middle <= high
    requires Ordered(labels, numbers, i, x, low, middle) && Ordered(labels, numbers, i + |x|, y, middle, high)
    ensures Ordered(labels, numbers, i, x + y, low, high)
  {
    var all := x + y;
    forall a | 0 <= a < |all| && all[a].Some?
      ensures low <= all[a].value < high && Fits(labels, numbers, i + a, all[a].value)
    {
      if a >= |x| {
        assert all[a] == y[a - |x|];
        assert Fits(labels, numbers, i + |x| + (a - |x|), y[a - |x|].value);
      }
    }
  }

  lemma {:induction false} DealtUpToBound(labels: seq<LabelHit>, numbers: seq<FoundNumber>, j: nat, n: nat, k: nat)
    requires k <= j <= |labels| && n <= |numbers|
    ensures DealtUpTo(labels, numbers, j, n, k) <= |numbers|
    decreases |numbers| - n
  {
    if k < j && Available(labels, numbers, j, n) {
      DealtUpToBound(labels, numbers, j, n + 1, if TooSmall(labels[k].field, numbers[n].value) then k else k + 1);
    }
  }

  lemma {:induction false} SkipToBound(numbers: seq<FoundNumber>, n: nat, position: nat)
    requires n <= |numbers|
    ensures SkipTo(numbers, n, position) <= |numbers|
    decreases |numbers| - n
  {
    if n < |numbers| {
      SkipToBound(numbers, n + 1, position);
    }
  }

  lemma {:induction false} AssignedIsOrdered(labels: seq<LabelHit>, numbers: seq<FoundNumber>, i: nat, n: nat)
    requires i <= |labels| && n <= |numbers| && InTextOrder(numbers)
    ensures Ordered(labels, numbers, i, Assigned(labels, numbers, i, n), n, |numbers|)
    decreases |labels| - i
  {
    hide Ordered, Deal, DealtUpTo, GroupEnd, SkipTo, InTextOrder, Behind;
    if i == |labels| {
      NothingIsOrdered(labels, numbers, i, [], n, |numbers|);
    } else {
      var j := GroupEnd(labels, numbers, i + 1);
      var first := SkipTo(numbers, n, labels[j - 1].end);
      var next := DealtUpTo(labels, numbers, j, first, i);
      SkipToBound(numbers, n, labels[j - 1].end);
      SkippedAreBefore(numbers, n, labels[j - 1].end);
      DealIsOrdered(labels, numbers, i, j, first, i);
      DealtUpToBound(labels, numbers, j, first, i);
      AssignedIsOrdered(labels, numbers, j, next);
      var x, y := Deal(labels, numbers, j, first, i), Assigned(labels, numbers, j, next);
      OrderedTogether(labels, numbers, i, x, y, first, next, |numbers|);
      OrderedLower(labels, numbers, i, x + y, n, first, |numbers|);
    }
  }

  /**
   * No number is given to two labels, later labels get later numbers, every number stands behind the
   * last label of its label's group and before the next group, and no total is below ten.
   */
  lemma AssignmentIsOrderedInjection(labels: seq<LabelHit>, numbers: seq<FoundNumber>)
    requires InTextOrder(numbers)
    ensures
      var given := Assignment(labels, numbers);
      && (forall k :: 0 <= k < |labels| && given[k].Some? ==> Fits(labels, numbers, k, given[k].value))
      && (forall k, l :: 0 <= k < l < |labels| && given[k].Some? && given[l].Some? ==> given[k].value < given[l].value)
  {
    if labels != [] {
      var n := SkipTo(numbers, 0, labels[0].index);
      SkipToBound(numbers, 0, labels[0].index);
      AssignedIsOrdered(labels, numbers, 0, n);
      var given := Assigned(labels, numbers, 0, n);
      forall k | 0 <= k < |labels| && given[k].Some?
        ensures Fits(labels, numbers, k, given[k].value)
      {
        assert Fits(labels, numbers, 0 + k, given[k].value);
      }
    }
  }

  // ---------------------------------------------------------------- which labels share which numbers

  ghost predicate HasNumberIn(numbers: seq<FoundNumber>, from: nat, to: nat) {
    exists n :: n in numbers && from <= n.index < to
  }

  /** The labels from `i` to `j` stand together: no number between two of them, one before and one behind. */
  ghost predicate IsGroup(labels: seq<LabelHit>, numbers: seq<FoundNumber>, i: nat, j: nat) {
    && i < j <= |labels|
    && (i > 0 ==> HasNumberIn(numbers, labels[i - 1].end, labels[i].index))
    && (forall m :: i < m < j ==> !HasNumberIn(numbers, labels[m - 1].end, labels[m].index))
    && (j < |labels| ==> HasNumberIn(numbers, labels[j - 1].end, labels[j].index))
  }

  /** A group ends at the first place with a number between two labels, or with the last label. */
  lemma {:induction false} GroupEndExactly(labels: seq<LabelHit>, numbers: seq<FoundNumber>, k: nat, j: nat)
    requires k < |labels|
    ensures GroupEnd(labels, numbers, k + 1) == j <==>
      && k < j <= |labels|
      && (forall m :: k < m < j ==> !HasNumberIn(numbers, labels[m - 1].end, labels[m].index))
      && (j < |labels| ==> HasNumberIn(numbers, labels[j - 1].end, labels[j].index))
    decreases |labels| - k
  {
    if k + 1 < |labels| {
      assert NumberBetween(labels, numbers, k + 1) <==>
        HasNumberIn(numbers, labels[k].end, labels[k + 1].index);
      if !NumberBetween(labels, numbers, k + 1) {
        GroupEndExactly(labels, numbers, k + 1, j);
      }
    }
  }

  /** Labels stand in the order in which they begin. */
  ghost predicate InFormOrder(labels: seq<LabelHit>) {
    && (forall a :: 0 <= a < |labels| ==> labels[a].index <= labels[a].end)
    && (forall a, b :: 0 <= a < b < |labels| ==> labels[a].index <= labels[b].index)
  }

  ghost predicate FitsLabel(f: Field, value: nat) {
    value >= 10 || f !in {RegisteredVoters, AccreditedVoters, BallotPapersIssued, UsedBallotPapers}
  }

  /** The number stands behind the last label of the group that ends at `j` and before the next label. */
  ghost predicate InStretch(labels: seq<LabelHit>, numbers: seq<FoundNumber>, j: nat, m: nat)
    requires 1 <= j <= |labels|
  {
    m < |numbers| && labels[j - 1].end <= numbers[m].index && (j < |labels| ==> numbers[m].index < labels[j].index)
  }

  /** Label `k` gets the first number from `low` on that fits it, or none if there is none. */
  ghost predicate TakesFirst(
      labels: seq<LabelHit>, numbers: seq<FoundNumber>, j: nat, k: nat, low: nat, given: Option<nat>)
    requires k < j <= |labels|
  {
    match given
    case Some(m) =>
      && low <= m && InStretch(labels, numbers, j, m) && FitsLabel(labels[k].field, numbers[m].value)
      && forall l :: low <= l < m && InStretch(labels, numbers, j, l) ==> !FitsLabel(labels[k].field, numbers[l].value)
    case None =>
      forall l :: low <= l && InStretch(labels, numbers, j, l) ==> !FitsLabel(labels[k].field, numbers[l].value)
  }

  /** Of the labels from `k` on, label `k + a` takes the first number that fits, behind the one before. */
  ghost predicate TakesNext(
      labels: seq<LabelHit>, numbers: seq<FoundNumber>, j: nat, n: nat, k: nat, given: seq<Option<nat>>, a: nat)
    requires a < |given| && k + |given| <= j <= |labels|
  {
    if a == 0 then TakesFirst(labels, numbers, j, k, n, given[0])
    else if given[a - 1].None? then given[a].None?
    else TakesFirst(labels, numbers, j, k + a, given[a - 1].value + 1, given[a])
  }

  ghost predicate Greedy(
      labels: seq<LabelHit>, numbers: seq<FoundNumber>, j: nat, n: nat, k: nat, given: seq<Option<nat>>)
    requires k + |given| <= j <= |labels|
  {
    forall a :: 0 <= a < |given| ==> TakesNext(labels, numbers, j, n, k, given, a)
  }

  lemma NothingLeft(labels: seq<LabelHit>, numbers: seq<FoundNumber>, j: nat, n: nat, k: nat)
    requires k < j <= |labels| && InTextOrder(numbers) && !Available(labels, numbers, j, n)
    ensures Greedy(labels, numbers, j, n, k, seq(j - k, _ => None))
  {
    assert forall l :: n <= l ==> !InStretch(labels, numbers, j, l);
  }

  lemma SkippedFirst(
      labels: seq<LabelHit>, numbers: seq<FoundNumber>, j: nat, n: nat, k: nat, given: seq<Option<nat>>)
    requires k < j <= |labels| && |given| == j - k && n < |numbers|
    requires TooSmall(labels[k].field, numbers[n].value) && Greedy(labels, numbers, j, n + 1, k, given)
    ensures Greedy(labels, numbers, j, n, k, given)
  {
    assert TakesNext(labels, numbers, j, n + 1, k, given, 0);
    SmallIsSkipped(labels, numbers, j, n, k, given[0]);
    hide TakesFirst;
    forall a | 0 <= a < |given|
      ensures TakesNext(labels, numbers, j, n, k, given, a)
    {
      assert TakesNext(labels, numbers, j, n + 1, k, given, a);
    }
  }

  lemma SmallIsSkipped(
      labels: seq<LabelHit>, numbers: seq<FoundNumber>, j: nat, n: nat, k: nat, given: Option<nat>)
    requires k < j <= |labels| && n < |numbers| && TooSmall(labels[k].field, numbers[n].value)
    requires TakesFirst(labels, numbers, j, k, n + 1, given)
    ensures TakesFirst(labels, numbers, j, k, n, given)
  {
  }

  lemma TakenFirst(
      labels: seq<LabelHit>, numbers: seq<FoundNumber>, j: nat, n: nat, k: nat, given: seq<Option<nat>>)
    requires k < j <= |labels| && |given| == j - k - 1 && Available(labels, numbers, j, n)
    requires labels[j - 1].end <= numbers[n].index && !TooSmall(labels[k].field, numbers[n].value)
    requires Greedy(labels, numbers, j, n + 1, k + 1, given)
    ensures Greedy(labels, numbers, j, n, k, [Some(n)] + given)
  {
    FirstFits(labels, numbers, j, n, k);
    hide TakesFirst;
    var all := [Some(n)] + given;
    forall a | 0 <= a < |all|
      ensures TakesNext(labels, numbers, j, n, k, all, a)
    {
      if a > 0 {
        assert TakesNext(labels, numbers, j, n + 1, k + 1, given, a - 1);
        assert all[a] == given[a - 1] && (a > 1 ==> all[a - 1] == given[a - 2]);
        assert k + 1 + (a - 1) == k + a;
      }
    }
  }

  lemma FirstFits(labels: seq<LabelHit>, numbers: seq<FoundNumber>, j: nat, n: nat, k: nat)
    requires k < j <= |labels| && Available(labels, numbers, j, n)
    requires labels[j - 1].end <= numbers[n].index && !TooSmall(labels[k].field, numbers[n].value)
    ensures TakesFirst(labels, numbers, j, k, n, Some(n))
  {
  }

  lemma {:induction false} DealIsGreedy(labels: seq<LabelHit>, numbers: seq<FoundNumber>, j: nat, n: nat, k: nat)
    requires k <= j <= |labels| && j > 0 && InTextOrder(numbers) && Behind(numbers, n, labels[j - 1].end)
    ensures Greedy(labels, numbers, j, n, k, Deal(labels, numbers, j, n, k))
    decreases j - k + |numbers| - n, j - k
  {
    if k < j {
      hide Greedy, Deal, InTextOrder, Behind;
      if !Available(labels, numbers, j, n) {
        DealNoMore(labels, numbers, j, n, k);
        NothingLeft(labels, numbers, j, n, k);
      } else {
        BehindNext(numbers, n, labels[j - 1].end);
        DealOne(labels, numbers, j, n, k);
        if TooSmall(labels[k].field, numbers[n].value) {
          DealIsGreedy(labels, numbers, j, n + 1, k);
          SkippedFirst(labels, numbers, j, n, k, Deal(labels, numbers, j, n + 1, k));
        } else {
          DealIsGreedy(labels, numbers, j, n + 1, k + 1);
          TakenFirst(labels, numbers, j, n, k, Deal(labels, numbers, j, n + 1, k + 1));
        }
      }
    }
  }

  /** All numbers before `n` stand before `position`. */
  ghost predicate AllBefore(numbers: seq<FoundNumber>, n: nat, position: nat) {
    n <= |numbers| && forall m :: 0 <= m < n ==> numbers[m].index < position
  }

  lemma {:induction false} SkippedExactly(numbers: seq<FoundNumber>, n: nat, position: nat)
    requires AllBefore(numbers, n, position)
    ensures AllBefore(numbers, SkipTo(numbers, n, position), position)
    decreases |numbers| - n
  {
    if n < |numbers| && numbers[n].index < position {
      SkippedExactly(numbers, n + 1, position);
    }
  }

  lemma {:induction false} DealtAreBefore(labels: seq<LabelHit>, numbers: seq<FoundNumber>, j: nat, n: nat, k: nat)
    requires k <= j < |labels| && AllBefore(numbers, n, labels[j].index)
    ensures AllBefore(numbers, DealtUpTo(labels, numbers, j, n, k), labels[j].index)
    decreases |numbers| - n
  {
    if k < j && Available(labels, numbers, j, n) {
      DealtAreBefore(labels, numbers, j, n + 1, if TooSmall(labels[k].field, numbers[n].value) then k else k + 1);
    }
  }

  /** Dealing from label `from` and number `n` on gives the group from `i` to `j` the numbers behind it. */
  ghost predicate IsDealtTo(labels: seq<LabelHit>, numbers: seq<FoundNumber>, from: nat, n: nat, i: nat, j: nat)
    requires from <= i < j <= |labels|
  {
    var first := SkipTo(numbers, 0, labels[j - 1].end);
    && Behind(numbers, first, labels[j - 1].end) && AllBefore(numbers, first, labels[j - 1].end)
    && Assigned(labels, numbers, from, n)[i - from..j - from] == Deal(labels, numbers, j, first, i)
  }

  lemma FirstIsDealtTo(labels: seq<LabelHit>, numbers: seq<FoundNumber>, n: nat, i: nat, j: nat)
    requires IsGroup(labels, numbers, i, j) && InTextOrder(numbers) && InFormOrder(labels)
    requires AllBefore(numbers, n, labels[i].index)
    ensures IsDealtTo(labels, numbers, i, n, i, j)
  {
    hide Assigned, Deal, DealtUpTo, SkipTo, InTextOrder, InFormOrder, AllBefore, Behind;
    var first := SkipTo(numbers, n, labels[j - 1].end);
    GroupEndExactly(labels, numbers, i, j);
    AssignedInParts(labels, numbers, i, n);
    FirstBehind(labels, numbers, n, i, j);
    hide GroupEnd, IsGroup;
    FirstPart(Deal(labels, numbers, j, first, i),
      Assigned(labels, numbers, j, DealtUpTo(labels, numbers, j, first, i)));
  }

  /** A group before it changes nothing about it. */
  lemma LaterIsDealtTo(
      labels: seq<LabelHit>, numbers: seq<FoundNumber>, from: nat, n: nat, end: nat, next: nat, i: nat, j: nat)
    requires from < end <= i < j <= |labels| && end == GroupEnd(labels, numbers, from + 1)
    requires next == DealtUpTo(labels, numbers, end, SkipTo(numbers, n, labels[end - 1].end), from)
    requires IsDealtTo(labels, numbers, end, next, i, j)
    ensures IsDealtTo(labels, numbers, from, n, i, j)
  {
    hide Assigned, Deal, DealtUpTo, SkipTo, AllBefore, Behind, GroupEnd;
    AssignedInParts(labels, numbers, from, n);
    SecondPart(Deal(labels, numbers, end, SkipTo(numbers, n, labels[end - 1].end), from),
      Assigned(labels, numbers, end, next), i - from, j - from);
  }

  /** The group that begins at `i` is dealt to from the first number behind it on. */
  lemma {:induction false} GroupIsReached(
      labels: seq<LabelHit>, numbers: seq<FoundNumber>, from: nat, n: nat, i: nat, j: nat)
    requires from <= i && IsGroup(labels, numbers, i, j) && InTextOrder(numbers) && InFormOrder(labels)
    requires AllBefore(numbers, n, labels[from].index)
    ensures IsDealtTo(labels, numbers, from, n, i, j)
    decreases |labels| - from
  {
    hide IsDealtTo, DealtUpTo, SkipTo, GroupEnd, InTextOrder, InFormOrder, AllBefore, HasNumberIn;
    if from == i {
      FirstIsDealtTo(labels, numbers, n, i, j);
    } else {
      var end := GroupEnd(labels, numbers, from + 1);
      var next := DealtUpTo(labels, numbers, end, SkipTo(numbers, n, labels[end - 1].end), from);
      GroupEndExactly(labels, numbers, from, end);
      EndsBefore(labels, numbers, from, end, i, j);
      NextIsBefore(labels, numbers, from, n, end);
      GroupIsReached(labels, numbers, end, next, i, j);
      LaterIsDealtTo(labels, numbers, from, n, end, next, i, j);
    }
  }

  lemma AssignedInParts(labels: seq<LabelHit>, numbers: seq<FoundNumber>, from: nat, n: nat)
    requires from < |labels|
    ensures
      var end := GroupEnd(labels, numbers, from + 1);
      var first := SkipTo(numbers, n, labels[end - 1].end);
      Assigned(labels, numbers, from, n)
      == Deal(labels, numbers, end, first, from)
        + Assigned(labels, numbers, end, DealtUpTo(labels, numbers, end, first, from))
  {
    hide Deal, DealtUpTo, SkipTo, GroupEnd;
  }

  lemma FirstPart<T>(x: seq<T>, y: seq<T>)
    ensures (x + y)[0..|x|] == x
  {
  }

  lemma SecondPart<T>(x: seq<T>, y: seq<T>, from: nat, to: nat)
    requires |x| <= from <= to <= |x + y|
    ensures (x + y)[from..to] == y[from - |x|..to - |x|]
  {
  }

  /** A group that begins before another ends before it. */
  lemma EndsBefore(labels: seq<LabelHit>, numbers: seq<FoundNumber>, from: nat, end: nat, i: nat, j: nat)
    requires from < i && IsGroup(labels, numbers, i, j) && from < end <= |labels|
    requires forall m :: from < m < end ==> !HasNumberIn(numbers, labels[m - 1].end, labels[m].index)
    ensures end <= i
  {
  }

  /** After a group that is not the last, dealing has not gone beyond the next label. */
  lemma NextIsBefore(labels: seq<LabelHit>, numbers: seq<FoundNumber>, from: nat, n: nat, end: nat)
    requires from < end < |labels| && InFormOrder(labels) && AllBefore(numbers, n, labels[from].index)
    requires HasNumberIn(numbers, labels[end - 1].end, labels[end].index)
    ensures
      var first := SkipTo(numbers, n, labels[end - 1].end);
      AllBefore(numbers, DealtUpTo(labels, numbers, end, first, from), labels[end].index)
  {
    hide DealtUpTo, SkipTo;
    assert labels[from].index <= labels[end - 1].end <= labels[end].index;
    SkippedExactly(numbers, n, labels[end - 1].end);
    DealtAreBefore(labels, numbers, end, SkipTo(numbers, n, labels[end - 1].end), from);
  }

  /** Skipping on from a number before the group is skipping from the start. */
  lemma FirstBehind(labels: seq<LabelHit>, numbers: seq<FoundNumber>, n: nat, i: nat, j: nat)
    requires i < j <= |labels| && InTextOrder(numbers) && InFormOrder(labels)
    requires AllBefore(numbers, n, labels[i].index)
    ensures
      var first := SkipTo(numbers, 0, labels[j - 1].end);
      && SkipTo(numbers, n, labels[j - 1].end) == first
      && Behind(numbers, first, labels[j - 1].end) && AllBefore(numbers, first, labels[j - 1].end)
  {
    var position := labels[j - 1].end;
    assert labels[i].index <= position;
    SkippedExactly(numbers, 0, position);
    SkippedExactly(numbers, n, position);
    SkippedAreBefore(numbers, 0, position);
    SkippedAreBefore(numbers, n, position);
    OneFirst(numbers, SkipTo(numbers, 0, position), SkipTo(numbers, n, position), position);
  }

  lemma OneFirst(numbers: seq<FoundNumber>, a: nat, b: nat, position: nat)
    requires AllBefore(numbers, a, position) && Behind(numbers, a, position)
    requires AllBefore(numbers, b, position) && Behind(numbers, b, position)
    ensures a == b
  {
    var x := if a < |numbers| then numbers[a].index else position;
    var y := if b < |numbers| then numbers[b].index else position;
    assert x >= position && y >= position;
  }

  /**
   * The labels of a group share the numbers between its last label and the next: each in turn gets the
   * first number there, behind that of the label before, that is not too small for it.
   */
  lemma GroupTakesInOrder(labels: seq<LabelHit>, numbers: seq<FoundNumber>, i: nat, j: nat, k: nat)
    requires IsGroup(labels, numbers, i, j) && InTextOrder(numbers) && InFormOrder(labels) && i <= k < j
    ensures
      var given := Assignment(labels, numbers);
      if k == i then TakesFirst(labels, numbers, j, k, 0, given[k])
      else if given[k - 1].None? then given[k].None?
      else TakesFirst(labels, numbers, j, k, given[k - 1].value + 1, given[k])
  {
    hide Deal, Assigned, InTextOrder, TakesFirst;
    var n := SkipTo(numbers, 0, labels[0].index);
    SkippedExactly(numbers, 0, labels[0].index);
    GroupIsReached(labels, numbers, 0, n, i, j);
    var first := SkipTo(numbers, 0, labels[j - 1].end);
    DealIsGreedy(labels, numbers, j, first, i);
    var given, dealt := Assignment(labels, numbers), Deal(labels, numbers, j, first, i);
    assert given[i..j] == dealt;
    assert given[k] == dealt[k - i] && (k > i ==> given[k - 1] == dealt[k - i - 1]);
    assert TakesNext(labels, numbers, j, first, i, dealt, k - i);
    if k == i {
      TakesFromStart(labels, numbers, j, k, first, given[k]);
    }
  }

  lemma TakesFromStart(
      labels: seq<LabelHit>, numbers: seq<FoundNumber>, j: nat, k: nat, first: nat, given: Option<nat>)
    requires k < j <= |labels| && AllBefore(numbers, first, labels[j - 1].end)
    requires TakesFirst(labels, numbers, j, k, first, given)
    ensures TakesFirst(labels, numbers, j, k, 0, given)
  {
  }

  /** So where enough large numbers stand behind a group, its labels get the first of them in order. */
  lemma {:induction false} LargeNumbersGoInOrder(
      labels: seq<LabelHit>, numbers: seq<FoundNumber>, i: nat, j: nat, first: nat, k: nat)
    requires IsGroup(labels, numbers, i, j) && InTextOrder(numbers) && InFormOrder(labels) && i <= k < j
    requires forall m :: 0 <= m < first && m < |numbers| ==> numbers[m].index < labels[j - 1].end
    requires forall m :: first <= m < first + (j - i) ==>
      InStretch(labels, numbers, j, m) && numbers[m].value >= 10
    ensures Assignment(labels, numbers)[k] == Some(first + (k - i))
    decreases k - i
  {
    assert j <= |labels|;
    hide IsGroup, InTextOrder, InFormOrder, Assignment;
    GroupTakesInOrder(labels, numbers, i, j, k);
    if k > i {
      LargeNumbersGoInOrder(labels, numbers, i, j, first, k - 1);
    }
    FirstIsLarge(labels, numbers, j, k, if k == i then 0 else first + (k - i), first + (k - i),
      Assignment(labels, numbers)[k]);
  }

  lemma FirstIsLarge(
      labels: seq<LabelHit>, numbers: seq<FoundNumber>, j: nat, k: nat, low: nat, m: nat, given: Option<nat>)
    requires k < j <= |labels| && low <= m && TakesFirst(labels, numbers, j, k, low, given)
    requires InStretch(labels, numbers, j, m) && numbers[m].value >= 10
    requires forall l :: low <= l < m ==> !InStretch(labels, numbers, j, l)
    ensures given == Some(m)
  {
  }

  // ---------------------------------------------------------------- the fields

  /** The fields after writing the numbers given to the labels from `i` on. */
  function Written(
      fields: map<Field, int>, labels: seq<LabelHit>, numbers: seq<FoundNumber>,
      given: seq<Option<nat>>): map<Field, int>
    requires |given| <= |labels|
    requires forall a | 0 <= a < |given| :: given[a].Some? ==> given[a].value < |numbers|
  {
    if given == [] then fields
    else
      var rest, last := given[..|given| - 1], given[|given| - 1];
      var before := Written(fields, labels, numbers, rest);
      if last.None? then before else before[labels[|given| - 1].field := numbers[last.value].value]
  }

  /** A field holds a number exactly if its label was given it. */
  lemma {:induction false} WrittenExactly(labels: seq<LabelHit>, numbers: seq<FoundNumber>, given: seq<Option<nat>>)
    requires |given| <= |labels| && OneLabelEach(labels)
    requires forall a | 0 <= a < |given| :: given[a].Some? ==> given[a].value < |numbers|
    ensures
      var fields := Written(map[], labels, numbers, given);
      && (forall a :: 0 <= a < |given| ==>
            if given[a].Some? then labels[a].field in fields && fields[labels[a].field] == numbers[given[a].value].value
            else labels[a].field !in fields)
      && (forall f :: f in fields ==> exists a :: 0 <= a < |given| && labels[a].field == f)
  {
    if given == [] {
    } else {
      var rest := given[..|given| - 1];
      WrittenExactly(labels, numbers, rest);
      var before := Written(map[], labels, numbers, rest);
      forall a | 0 <= a < |given|
        ensures
          var fields := Written(map[], labels, numbers, given);
          if given[a].Some? then labels[a].field in fields && fields[labels[a].field] == numbers[given[a].value].value
          else labels[a].field !in fields
      {
        if a < |rest| {
          assert rest[a] == given[a];
          assert labels[a].field != labels[|given| - 1].field;
        }
      }
    }
  }

  // ---------------------------------------------------------------- the loops

  /** Where the group of label `i` ends. */
  method FindGroupEnd(labels: seq<LabelHit>, numbers: seq<FoundNumber>, i: nat) returns (j: nat)
    requires i < |labels|
    ensures j == GroupEnd(labels, numbers, i + 1)
    ensures i < j <= |labels|
    ensures forall m :: i < m < j ==> !HasNumberIn(numbers, labels[m - 1].end, labels[m].index)
    ensures j < |labels| ==> HasNumberIn(numbers, labels[j - 1].end, labels[j].index)
  {
    GroupEndExactly(labels, numbers, i, GroupEnd(labels, numbers, i + 1));
    j := i + 1;
    while j < |labels|
      invariant i < j <= |labels|
      invariant GroupEnd(labels, numbers, j) == GroupEnd(labels, numbers, i + 1)
    {
      var hasNumberBetween := exists n | n in numbers :: labels[j - 1].end <= n.index < labels[j].index;
      if hasNumberBetween {
        break;
      }
      j := j + 1;
    }
  }

  method SkipNumbers(numbers: seq<FoundNumber>, start: nat, position: nat) returns (numIdx: nat)
    ensures numIdx == SkipTo(numbers, start, position)
  {
    numIdx := start;
    while numIdx < |numbers| && numbers[numIdx].index < position
      invariant SkipTo(numbers, numIdx, position) == SkipTo(numbers, start, position)
    {
      numIdx := numIdx + 1;
    }
  }

  /** The cluster of numbers for the labels from `i` to `j`; `taken` says which numbers they are. */
  method TakeCluster(labels: seq<LabelHit>, numbers: seq<FoundNumber>, i: nat, j: nat, start: nat)
    returns (cluster: seq<nat>, numIdx: nat, ghost taken: seq<nat>)
    requires i <= j <= |labels|
    ensures |cluster| == |taken| <= j - i && numIdx == DealtUpTo(labels, numbers, j, start, i)
    ensures Deal(labels, numbers, j, start, i) == Padded(taken, j - i)
    ensures forall a | 0 <= a < |taken| :: taken[a] < |numbers| && cluster[a] == numbers[taken[a]].value
    ensures forall a | 0 <= a < |taken| :: !TooSmall(labels[i + a].field, cluster[a])
  {
    hide Deal, DealtUpTo, Somes;
    cluster, numIdx, taken := [], start, [];
    NoSomes();
    while numIdx < |numbers| && Precedes(numbers[numIdx], labels, j) && |cluster| < j - i
      invariant |cluster| == |taken| <= j - i
      invariant DealtUpTo(labels, numbers, j, numIdx, i + |taken|) == DealtUpTo(labels, numbers, j, start, i)
      invariant Somes(taken) + Deal(labels, numbers, j, numIdx, i + |taken|) == Deal(labels, numbers, j, start, i)
      invariant forall a | 0 <= a < |taken| :: taken[a] < |numbers| && cluster[a] == numbers[taken[a]].value
      invariant forall a | 0 <= a < |taken| :: !TooSmall(labels[i + a].field, cluster[a])
      decreases |numbers| - numIdx
    {
      var value := numbers[numIdx].value;
      var field := labels[i + |cluster|].field;
      DealOne(labels, numbers, j, numIdx, i + |taken|);
      if !TooSmall(field, value) {
        OneMoreSome(taken, numIdx, Deal(labels, numbers, j, numIdx + 1, i + |taken| + 1));
        cluster, taken := cluster + [value], taken + [numIdx];
      }
      numIdx := numIdx + 1;
    }
    DealNoMore(labels, numbers, j, numIdx, i + |taken|);
  }

  lemma DealOne(labels: seq<LabelHit>, numbers: seq<FoundNumber>, j: nat, n: nat, k: nat)
    requires k < j <= |labels| && Available(labels, numbers, j, n)
    ensures if TooSmall(labels[k].field, numbers[n].value) then
        && Deal(labels, numbers, j, n, k) == Deal(labels, numbers, j, n + 1, k)
        && DealtUpTo(labels, numbers, j, n, k) == DealtUpTo(labels, numbers, j, n + 1, k)
      else
        && Deal(labels, numbers, j, n, k) == [Some(n)] + Deal(labels, numbers, j, n + 1, k + 1)
        && DealtUpTo(labels, numbers, j, n, k) == DealtUpTo(labels, numbers, j, n + 1, k + 1)
  {
  }

  lemma DealNoMore(labels: seq<LabelHit>, numbers: seq<FoundNumber>, j: nat, n: nat, k: nat)
    requires k <= j <= |labels| && (k == j || !Available(labels, numbers, j, n))
    ensures Deal(labels, numbers, j, n, k) == seq(j - k, _ => None) && DealtUpTo(labels, numbers, j, n, k) == n
  {
  }

  lemma NoSomes()
    ensures Somes([]) == []
  {
  }

  lemma OneMoreSome(ns: seq<nat>, n: nat, rest: seq<Option<nat>>)
    ensures Somes(ns) + ([Some(n)] + rest) == Somes(ns + [n]) + rest
  {
  }

  function Somes(ns: seq<nat>): seq<Option<nat>> {
    seq(|ns|, a requires 0 <= a < |ns| => Some(ns[a]))
  }

  /** `ns`, and nothing for the rest up to `length`. */
  function Padded(ns: seq<nat>, length: nat): seq<Option<nat>>
    requires |ns| <= length
  {
    Somes(ns) + seq(length - |ns|, _ => None)
  }

  lemma PaddedAt(given: seq<Option<nat>>, i: nat, ns: seq<nat>, length: nat, k: nat)
    requires |ns| <= length && i + length <= |given| && Padded(ns, length) <= given[i..] && k < length
    ensures given[i + k] == if k < |ns| then Some(ns[k]) else None
  {
    assert given[i + k] == given[i..][k] == Padded(ns, length)[k];
  }

  method AssignClusteredFields(labels: seq<LabelHit>, numbers: seq<FoundNumber>) returns (fields: map<Field, int>)
    requires InTextOrder(numbers)
    ensures Valued(numbers, Assignment(labels, numbers))
    ensures fields == Written(map[], labels, numbers, Assignment(labels, numbers))
  {
    hide Deal, DealtUpTo, GroupEnd, SkipTo, Ordered, Written;
    fields := map[];
    ghost var given := Assignment(labels, numbers);
    AllValued(labels, numbers);
    if |labels| == 0 {
      NothingWritten(fields, labels, numbers);
      return;
    }
    var numIdx := SkipNumbers(numbers, 0, labels[0].index);
    var i := 0;
    NothingWritten(fields, labels, numbers);
    while i < |labels|
      invariant i <= |labels|
      invariant given[i..] == Assigned(labels, numbers, i, numIdx)
      invariant fields == Written(map[], labels, numbers, given[..i])
    {
      var j := FindGroupEnd(labels, numbers, i);
      numIdx := SkipNumbers(numbers, numIdx, labels[j - 1].end);
      var cluster, next;
      ghost var taken;
      cluster, next, taken := TakeCluster(labels, numbers, i, j, numIdx);
      assert given[i..] == Padded(taken, j - i) + Assigned(labels, numbers, j, next);
      fields := WriteCluster(fields, labels, numbers, i, j, cluster, taken, given);
      assert given[j..] == given[i..][j - i..];
      i, numIdx := j, next;
    }
    assert given[..|labels|] == given;
  }

  /** Every number given out exists. */
  ghost predicate Valued(numbers: seq<FoundNumber>, given: seq<Option<nat>>) {
    forall a | 0 <= a < |given| :: given[a].Some? ==> given[a].value < |numbers|
  }

  lemma AllValued(labels: seq<LabelHit>, numbers: seq<FoundNumber>)
    requires InTextOrder(numbers)
    ensures Valued(numbers, Assignment(labels, numbers))
  {
    AssignmentIsOrderedInjection(labels, numbers);
  }

  lemma NothingWritten(fields: map<Field, int>, labels: seq<LabelHit>, numbers: seq<FoundNumber>)
    ensures Written(fields, labels, numbers, []) == fields
  {
  }

  /** Write one cluster; the values were all checked when the cluster was taken. */
  method WriteCluster(before: map<Field, int>, labels: seq<LabelHit>, numbers: seq<FoundNumber>, i: nat, j: nat,
      cluster: seq<nat>, ghost taken: seq<nat>, ghost given: seq<Option<nat>>) returns (fields: map<Field, int>)
    requires i <= j <= |labels| == |given| && |cluster| == |taken| <= j - i && Valued(numbers, given)
    requires Padded(taken, j - i) <= given[i..]
    requires forall a | 0 <= a < |taken| :: taken[a] < |numbers| && cluster[a] == numbers[taken[a]].value
    requires forall a | 0 <= a < |taken| :: !TooSmall(labels[i + a].field, cluster[a])
    requires before == Written(map[], labels, numbers, given[..i])
    ensures fields == Written(map[], labels, numbers, given[..j])
  {
    hide Padded;
    fields := before;
    for k := 0 to j - i
      invariant fields == Written(map[], labels, numbers, given[..i + k])
    {
      PaddedAt(given, i, taken, j - i, k);
      if k < |cluster| {
        var value := cluster[k];
        if !TooSmall(labels[i + k].field, value) {
          fields := fields[labels[i + k].field := value];
        }
      }
      assert given[..i + k + 1][..i + k] == given[..i + k];
    }
  }
}
