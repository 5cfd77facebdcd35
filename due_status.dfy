/** The due-status evaluator: is a member's monthly subscription outstanding
    on a given day? "Now" is the calendar day of the reference instant; all
    stored dates denote midnight, so `date <= now` on instants is
    `OnOrBefore(date, today)` on days. */
module DueStatus {
  import opened Calendar
  import opened Records

  /** The date of the newest payment in a non-empty history: the date of the
      first element once the history is sorted newest-first. */
  function LatestPaymentDate(h: seq<Payment>): (r: Date)
    requires h != []
    ensures exists i :: 0 <= i < |h| && h[i].date == r
    ensures forall i :: 0 <= i < |h| ==> OnOrBefore(h[i].date, r)
  {
    if |h| == 1 then h[0].date
    else
      var rest := LatestPaymentDate(h[1..]);
      assert forall i :: 1 <= i < |h| ==> h[i] == h[1..][i - 1];
      if Before(rest, h[0].date) then h[0].date else rest
  }

  /** A member who never paid is due once the subscription has started;
      otherwise once one month has passed since the newest payment. */
  predicate IsPaymentDue(m: Member, today: Date): (due: bool)
    ensures due ==> forall i :: 0 <= i < |m.paymentHistory| ==> Before(m.paymentHistory[i].date, today)
  {
    if |m.paymentHistory| == 0 then OnOrBefore(m.startDate, today)
    else OnOrBefore(AddOneMonth(LatestPaymentDate(m.paymentHistory)), today)
  }

  /** The dates occurring in a payment history. */
  function PaymentDates(h: seq<Payment>): set<Date> {
    set i | 0 <= i < |h| :: h[i].date
  }

  predicate IsNewestFirst(h: seq<Payment>) {
    forall i, j :: 0 <= i < j < |h| ==> OnOrBefore(h[j].date, h[i].date)
  }

  // ---------------------------------------------------------------------

  lemma OnOrBeforeAntisymmetric(a: Date, b: Date)
    requires OnOrBefore(a, b) && OnOrBefore(b, a)
    ensures a == b
  {
  }

  /** A date of the history that no other date exceeds is the latest date. */
  lemma LatestIsTheMaximum(h: seq<Payment>, d: Date)
    requires d in PaymentDates(h)
    requires forall i :: 0 <= i < |h| ==> OnOrBefore(h[i].date, d)
    ensures h != [] && LatestPaymentDate(h) == d
  {
    var k :| 0 <= k < |h| && h[k].date == d;
    var r := LatestPaymentDate(h);
    var j :| 0 <= j < |h| && h[j].date == r;
    OnOrBeforeAntisymmetric(r, d);
  }

  /** The latest date depends on the set of dates alone. */
  lemma {:induction false} LatestDependsOnDatesOnly(h1: seq<Payment>, h2: seq<Payment>)
    requires h1 != [] && PaymentDates(h1) == PaymentDates(h2)
    ensures h2 != [] && LatestPaymentDate(h1) == LatestPaymentDate(h2)
  {
    var d := LatestPaymentDate(h1);
    var k :| 0 <= k < |h1| && h1[k].date == d;
    assert d in PaymentDates(h1);
    forall i | 0 <= i < |h2|
      ensures OnOrBefore(h2[i].date, d)
    {
      assert h2[i].date in PaymentDates(h1);
      var j :| 0 <= j < |h1| && h1[j].date == h2[i].date;
    }
    LatestIsTheMaximum(h2, d);
  }

  /** Sorting newest-first and taking the head yields the latest date,
      whichever of several same-dated payments the sort puts first. */
  lemma NewestFirstHeadIsLatest(sorted: seq<Payment>, h: seq<Payment>)
    requires h != [] && multiset(sorted) == multiset(h)
    requires IsNewestFirst(sorted)
    ensures sorted != [] && sorted[0].date == LatestPaymentDate(h)
  {
    assert |sorted| == |multiset(sorted)| == |multiset(h)| == |h|;
    forall i | 0 <= i < |h|
      ensures OnOrBefore(h[i].date, sorted[0].date)
    {
      assert h[i] in multiset(sorted);
      var j :| 0 <= j < |sorted| && sorted[j] == h[i];
    }
    assert sorted[0] in multiset(h);
    var k :| 0 <= k < |h| && h[k] == sorted[0];
    assert sorted[0].date in PaymentDates(h);
    LatestIsTheMaximum(h, sorted[0].date);
  }

  /** The due status in terms of a maximum of the history rather than the
      recursive search: with no payments the start date decides; otherwise a
      payment no other payment postdates decides, and the start date is
      ignored. */
  lemma DueCharacterization(m: Member, today: Date)
    ensures |m.paymentHistory| == 0 ==>
      (IsPaymentDue(m, today) <==> OnOrBefore(m.startDate, today))
    ensures |m.paymentHistory| > 0 ==>
      (IsPaymentDue(m, today) <==>
        exists k :: 0 <= k < |m.paymentHistory|
          && (forall i :: 0 <= i < |m.paymentHistory| ==>
                OnOrBefore(m.paymentHistory[i].date, m.paymentHistory[k].date))
          && OnOrBefore(AddOneMonth(m.paymentHistory[k].date), today))
  {
    var h := m.paymentHistory;
    if |h| > 0 {
      var d := LatestPaymentDate(h);
      var k :| 0 <= k < |h| && h[k].date == d;
      forall k' | 0 <= k' < |h| && (forall i :: 0 <= i < |h| ==> OnOrBefore(h[i].date, h[k'].date))
        ensures h[k'].date == d
      {
        assert h[k'].date in PaymentDates(h);
        LatestIsTheMaximum(h, h[k'].date);
      }
    }
  }

  /** Measured in days: a member who has paid is due exactly when at least
      as many days as the newest payment's month has have elapsed since it. */
  lemma DueAfterMonthLengthElapsed(m: Member, today: Date)
    requires |m.paymentHistory| > 0
    ensures var last := LatestPaymentDate(m.paymentHistory);
      IsPaymentDue(m, today) <==> EpochDay(today) - EpochDay(last) >= DaysInMonth(last.year, last.month)
  {
    var last := LatestPaymentDate(m.paymentHistory);
    AddOneMonthAdvancesByMonthLength(last);
    OnOrBeforeIffDays(AddOneMonth(last), today);
  }

  /** The due status depends on the start date and the set of payment dates
      only: not on the order of the history, the amounts, notes or ids. */
  lemma DueDependsOnDatesOnly(m1: Member, m2: Member, today: Date)
    requires m1.startDate == m2.startDate
    requires PaymentDates(m1.paymentHistory) == PaymentDates(m2.paymentHistory)
    ensures IsPaymentDue(m1, today) == IsPaymentDue(m2, today)
  {
    var h1, h2 := m1.paymentHistory, m2.paymentHistory;
    if |h1| > 0 {
      LatestDependsOnDatesOnly(h1, h2);
    } else if |h2| > 0 {
      LatestDependsOnDatesOnly(h2, h1);
    }
  }

  /** Reordering the history leaves the due status unchanged. */
  lemma DueUnchangedByPermutation(m: Member, h: seq<Payment>, today: Date)
    requires multiset(h) == multiset(m.paymentHistory)
    ensures IsPaymentDue(m.(paymentHistory := h), today) == IsPaymentDue(m, today)
  {
    var h0 := m.paymentHistory;
    forall d | d in PaymentDates(h) ensures d in PaymentDates(h0) {
      var i :| 0 <= i < |h| && h[i].date == d;
      assert h[i] in multiset(h0);
      var j :| 0 <= j < |h0| && h0[j] == h[i];
    }
    forall d | d in PaymentDates(h0) ensures d in PaymentDates(h) {
      var i :| 0 <= i < |h0| && h0[i].date == d;
      assert h0[i] in multiset(h);
      var j :| 0 <= j < |h| && h[j] == h0[i];
    }
    DueDependsOnDatesOnly(m.(paymentHistory := h), m, today);
  }

  /** Recording a payment dated no later than the newest one (with any
      amount) leaves the due status unchanged. */
  lemma DueUnchangedByEarlierPayment(m: Member, p: Payment, today: Date)
    requires |m.paymentHistory| > 0
    requires OnOrBefore(p.date, LatestPaymentDate(m.paymentHistory))
    ensures IsPaymentDue(m.(paymentHistory := m.paymentHistory + [p]), today) == IsPaymentDue(m, today)
  {
    var h := m.paymentHistory;
    var h' := h + [p];
    var d := LatestPaymentDate(h);
    var k :| 0 <= k < |h| && h[k].date == d;
    assert h'[k].date == d;
    assert d in PaymentDates(h');
    LatestIsTheMaximum(h', d);
  }

  /** Recording a payment dated today or later clears the due status today. */
  lemma PaymentOnOrAfterTodayClearsDue(m: Member, p: Payment, today: Date)
    requires OnOrBefore(today, p.date)
    ensures !IsPaymentDue(m.(paymentHistory := m.paymentHistory + [p]), today)
  {
    var h' := m.paymentHistory + [p];
    assert h'[|h'| - 1] == p;
    var last := LatestPaymentDate(h');
    BeforeIffEarlierDay(last, AddOneMonth(last));
    OnOrBeforeIffDays(p.date, last);
    OnOrBeforeIffDays(today, p.date);
    OnOrBeforeIffDays(AddOneMonth(last), today);
  }

  /** Once due, a member stays due on every later day until a payment is recorded. */
  lemma DueStaysDue(m: Member, today: Date, later: Date)
    requires IsPaymentDue(m, today) && OnOrBefore(today, later)
    ensures IsPaymentDue(m, later)
  {
    var d := if |m.paymentHistory| == 0 then m.startDate else AddOneMonth(LatestPaymentDate(m.paymentHistory));
    OnOrBeforeIffDays(d, today);
    OnOrBeforeIffDays(today, later);
    OnOrBeforeIffDays(d, later);
  }
}
