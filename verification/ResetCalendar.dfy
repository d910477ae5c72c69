/**
 The reset calendar (service/client.go): month boundaries with a clamped day, and the pass that clears
 the counters of every client whose period is over.  The panel's zone is a fixed offset from UTC, so
 local times are seconds since 1970-01-01 00:00 on the local clock.
 */
module ResetCalendar {
  const Day: int := 86400

  // ---------- the Gregorian calendar ----------

  predicate Leap(year: int) {
    year % 4 == 0 && (year % 100 != 0 || year % 400 == 0)
  }

  /** Months are numbered from January 1970, in both directions. */
  function YearOf(m: int): int {
    1970 + m / 12
  }

  /** January is month 0 of a year. */
  function LengthOf(month: int, leap: bool): (n: int)
    ensures 28 <= n <= 31
  {
    if month == 1 then if leap then 29 else 28
    else if month == 3 || month == 5 || month == 8 || month == 10 then 30
    else 31
  }

  function DaysInMonth(m: int): (n: int)
    ensures 28 <= n <= 31
  {
    LengthOf(m % 12, Leap(YearOf(m)))
  }

  /** The day number of the first of the month. */
  function MonthStart(m: int): int
    decreases if m < 0 then -m else m
  {
    if m == 0 then 0 else if m > 0 then MonthStart(m - 1) + DaysInMonth(m - 1) else MonthStart(m + 1) - DaysInMonth(m)
  }

  lemma FirstMonth()
    ensures MonthStart(12 * 0) == 0
  {
  }

  lemma MonthStep(m: int)
    ensures MonthStart(m + 1) == MonthStart(m) + DaysInMonth(m)
  {
  }

  /** Years the other way: 365 days each and a day for every leap year gone by. */
  function LeapsBefore(year: int): int {
    (year - 1) / 4 - (year - 1) / 100 + (year - 1) / 400
  }

  lemma LeapStep(year: int)
    ensures LeapsBefore(year + 1) == LeapsBefore(year) + if Leap(year) then 1 else 0
  {
    Fourth(year);
    Hundredth(year);
    FourHundredth(year);
    Multiples(year);
    hide LeapsBefore;
    LeapsAre(year);
    LeapsAre(year + 1);
  }

  lemma LeapsAre(year: int)
    ensures LeapsBefore(year) == (year - 1) / 4 - (year - 1) / 100 + (year - 1) / 400
  {
  }

  lemma Fourth(y: int)
    ensures y / 4 == (y - 1) / 4 + if y % 4 == 0 then 1 else 0
  {
  }

  lemma Hundredth(y: int)
    ensures y / 100 == (y - 1) / 100 + if y % 100 == 0 then 1 else 0
  {
  }

  lemma FourHundredth(y: int)
    ensures y / 400 == (y - 1) / 400 + if y % 400 == 0 then 1 else 0
  {
  }

  lemma Multiples(y: int)
    ensures y % 400 == 0 ==> y % 100 == 0
    ensures y % 100 == 0 ==> y % 4 == 0
  {
  }

  /** Days of a year before its i-th month. */
  function DaysBefore(i: nat, leap: bool): int {
    if i == 0 then 0 else DaysBefore(i - 1, leap) + LengthOf(i - 1, leap)
  }

  lemma {:induction false} WithinYear(k: int, i: nat)
    requires i <= 12
    ensures MonthStart(12 * k + i) == MonthStart(12 * k) + DaysBefore(i, Leap(1970 + k))
  {
    hide MonthStart, Leap;
    if i > 0 {
      WithinYear(k, i - 1);
      var m := 12 * k + i - 1;
      assert m / 12 == k && m % 12 == i - 1;
      MonthStep(m);
    }
  }

  lemma YearLength(k: int)
    ensures MonthStart(12 * (k + 1)) == MonthStart(12 * k) + if Leap(1970 + k) then 366 else 365
  {
    hide MonthStart, Leap;
    WithinYear(k, 12);
    DaysOfYear(Leap(1970 + k));
    assert 12 * (k + 1) == 12 * k + 12;
  }

  lemma DaysOfYear(leap: bool)
    ensures DaysBefore(12, leap) == if leap then 366 else 365
  {
    var more := if leap then 1 else 0;
    assert DaysBefore(1, leap) == 31;
    assert DaysBefore(2, leap) == 59 + more;
    assert DaysBefore(3, leap) == 90 + more;
    assert DaysBefore(4, leap) == 120 + more;
    assert DaysBefore(5, leap) == 151 + more;
    assert DaysBefore(6, leap) == 181 + more;
    assert DaysBefore(7, leap) == 212 + more;
    assert DaysBefore(8, leap) == 243 + more;
    assert DaysBefore(9, leap) == 273 + more;
    assert DaysBefore(10, leap) == 304 + more;
    assert DaysBefore(11, leap) == 334 + more;
  }

  /** The month-by-month calendar is the Gregorian one. */
  lemma {:induction false} YearsAgree(k: int)
    ensures MonthStart(12 * k) == 365 * k + LeapsBefore(1970 + k) - LeapsBefore(1970)
    decreases if k < 0 then -k else k
  {
    hide MonthStart, LeapsBefore, Leap;
    if k == 0 {
      FirstMonth();
    } else if k > 0 {
      YearsAgree(k - 1);
      YearLength(k - 1);
      LeapStep(1970 + k - 1);
    } else {
      YearsAgree(k + 1);
      YearLength(k);
      LeapStep(1970 + k);
    }
  }

  /** The same within a year, counted from March: months of 31 and 30 days fall as 153 days to five months. */
  function DayOfYear(i: nat, leap: bool): int {
    if i == 0 then 0 else if i == 1 then 31 else 59 + (if leap then 1 else 0) + (153 * (i - 2) + 2) / 5
  }

  lemma {:induction false} MonthsAgree(i: nat, leap: bool)
    requires i <= 12
    ensures DaysBefore(i, leap) == DayOfYear(i, leap)
  {
    if i > 0 {
      MonthsAgree(i - 1, leap);
    }
  }

  /** Every first of the month, in closed form. */
  lemma DatesAgree(k: int, i: nat)
    requires i <= 12
    ensures MonthStart(12 * k + i) == 365 * k + LeapsBefore(1970 + k) - LeapsBefore(1970) + DayOfYear(i, Leap(1970 + k))
  {
    hide MonthStart, LeapsBefore, Leap;
    YearsAgree(k);
    WithinYear(k, i);
    MonthsAgree(i, Leap(1970 + k));
  }

  lemma {:induction false} MonthsIncrease(m: int, n: int)
    requires m <= n
    ensures MonthStart(m) + 28 * (n - m) <= MonthStart(n)
    decreases n - m
  {
    if m < n {
      MonthsIncrease(m, n - 1);
      MonthStep(n - 1);
    }
  }

  /** The month a day falls in, looking from month m. */
  function MonthFrom(d: int, m: int): (r: int)
    ensures MonthStart(r) <= d < MonthStart(r + 1)
    decreases d < MonthStart(m), if d < MonthStart(m) then MonthStart(m) - d else d - MonthStart(m)
  {
    MonthStep(m);
    MonthStep(m - 1);
    if d < MonthStart(m) then MonthFrom(d, m - 1)
    else if MonthStart(m + 1) <= d then MonthFrom(d, m + 1)
    else m
  }

  function MonthOf(d: int): (r: int)
    ensures MonthStart(r) <= d < MonthStart(r + 1)
  {
    MonthFrom(d, 0)
  }

  lemma MonthIsUnique(d: int, m: int)
    requires MonthStart(m) <= d < MonthStart(m + 1)
    ensures MonthOf(d) == m
  {
    var r := MonthOf(d);
    if r < m {
      MonthsIncrease(r + 1, m);
    } else if m < r {
      MonthsIncrease(m + 1, r);
    }
  }

  // ---------- month boundaries ----------

  function Clamped(m: int, dom: int): int {
    if dom > DaysInMonth(m) then DaysInMonth(m) else dom
  }

  /** Local midnight of day `dom` in month m, or of the month's last day. */
  function Boundary(m: int, dom: int): int {
    Day * (MonthStart(m) + Clamped(m, dom) - 1)
  }

  lemma BoundaryInMonth(m: int, dom: int)
    requires dom >= 1
    ensures Day * MonthStart(m) <= Boundary(m, dom) < Day * MonthStart(m + 1)
    ensures MonthOf(Boundary(m, dom) / Day) == m
  {
    MonthStep(m);
    MonthIsUnique(MonthStart(m) + Clamped(m, dom) - 1, m);
  }

  lemma BoundariesIncrease(m: int, n: int, dom: int)
    requires dom >= 1 && m < n
    ensures Boundary(m, dom) < Boundary(n, dom)
  {
    BoundaryInMonth(m, dom);
    BoundaryInMonth(n, dom);
    MonthsIncrease(m + 1, n);
  }

  /** t is the first boundary after `from`. */
  ghost predicate IsNext(from: int, dom: int, t: int) {
    && from < t
    && (exists m :: t == Boundary(m, dom))
    && (forall m :: from < Boundary(m, dom) ==> t <= Boundary(m, dom))
  }

  function NextMonthly(from: int, dom: int): int {
    var m := MonthOf(from / Day);
    if from < Boundary(m, dom) then Boundary(m, dom) else Boundary(m + 1, dom)
  }

  lemma FirstBoundary(from: int, dom: int, k: int)
    requires dom >= 1 && from < Boundary(k, dom) && Boundary(k - 1, dom) <= from
    ensures IsNext(from, dom, Boundary(k, dom))
  {
    forall m | from < Boundary(m, dom)
      ensures Boundary(k, dom) <= Boundary(m, dom)
    {
      if m < k - 1 {
        BoundariesIncrease(m, k - 1, dom);
      } else if k < m {
        BoundariesIncrease(k, m, dom);
      }
    }
  }

  lemma NextMonthlyIsNext(from: int, dom: int)
    requires dom >= 1
    ensures IsNext(from, dom, NextMonthly(from, dom))
  {
    var m := MonthOf(from / Day);
    BoundaryInMonth(m - 1, dom);
    BoundaryInMonth(m + 1, dom);
    if from < Boundary(m, dom) {
      FirstBoundary(from, dom, m);
    } else {
      FirstBoundary(from, dom, m + 1);
    }
  }

  lemma NextIsUnique(from: int, dom: int, t: int, u: int)
    requires IsNext(from, dom, t) && IsNext(from, dom, u)
    ensures t == u
  {
  }

  /** The loop over months; the zone's offset has already been added to `from`. */
  method NextMonthlyReset(from: int, dom: int) returns (t: int)
    ensures dom >= 1 ==> t == NextMonthly(from, dom) && IsNext(from, dom, t)
    ensures t == from || (from < t && exists m :: t == Boundary(m, dom))
  {
    hide MonthStart, Boundary, IsNext;
    ghost var start := MonthOf(from / Day);
    var m, i := MonthOf(from / Day), 0;
    if dom >= 1 {
      NextMonthlyIsNext(from, dom);
      NextIsAfter(from, dom);
    }
    while i < 13
      invariant 0 <= i <= 13 && m == start + i
      invariant dom >= 1 ==> i < 2 && (i == 1 ==> Boundary(start, dom) <= from)
    {
      t := Boundary(m, dom);
      if t > from {
        return;
      }
      m, i := m + 1, i + 1;
    }
    t := from;
  }

  lemma NextIsAfter(from: int, dom: int)
    requires dom >= 1
    ensures from < Boundary(MonthOf(from / Day) + 1, dom)
  {
    BoundaryInMonth(MonthOf(from / Day) + 1, dom);
  }

  function Iterated(from: int, dom: int, n: nat): int {
    if n == 0 then from else NextMonthly(Iterated(from, dom, n - 1), dom)
  }

  /** One boundary in every month and no other, always on min(dom, length of the month): a clamp in
      February does not stick. */
  lemma {:induction false} OneBoundaryPerMonth(m: int, dom: int, n: nat)
    requires dom >= 1
    ensures Iterated(Boundary(m, dom), dom, n) == Boundary(m + n, dom)
    ensures MonthOf(Boundary(m + n, dom) / Day) == m + n
    ensures Boundary(m + n, dom) == Day * (MonthStart(m + n) + (if dom < DaysInMonth(m + n) then dom else DaysInMonth(m + n)) - 1)
  {
    hide MonthStart, MonthOf, DaysInMonth;
    BoundaryInMonth(m + n, dom);
    if n > 0 {
      OneBoundaryPerMonth(m, dom, n - 1);
      FromBoundary(m + n - 1, dom);
    }
  }

  lemma FromBoundary(m: int, dom: int)
    requires dom >= 1
    ensures NextMonthly(Boundary(m, dom), dom) == Boundary(m + 1, dom)
  {
    hide Boundary, MonthOf;
    BoundaryInMonth(m, dom);
    BoundariesIncrease(m, m + 1, dom);
  }
}
