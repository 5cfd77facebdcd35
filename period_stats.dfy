/** The period aggregator: expected, collected and pending totals of the
    active members for one (month, year) period. Month is 0-based, as
    Date.getMonth reports it. */
module PeriodStats {
  import opened Calendar
  import opened Records

  datatype Stats = Stats(total: int, collected: int, pending: int) {
    function Plus(other: Stats): Stats {
      Stats(total + other.total, collected + other.collected, pending + other.pending)
    }
  }

  lemma PlusAssociative(x: Stats, y: Stats, z: Stats)
    ensures x.Plus(y).Plus(z) == x.Plus(y.Plus(z))
  {
  }

  const NoStats := Stats(0, 0, 0)

  predicate InPeriod(p: Payment, month: int, year: int) {
    p.date.month == month && p.date.year == year
  }

  predicate HasPaymentIn(h: seq<Payment>, month: int, year: int) {
    exists i :: 0 <= i < |h| && InPeriod(h[i], month, year)
  }

  /** h[i] is the first payment of the history that falls in the period. */
  predicate IsFirstInPeriod(h: seq<Payment>, i: int, month: int, year: int) {
    0 <= i < |h| && InPeriod(h[i], month, year)
    && forall j :: 0 <= j < i ==> !InPeriod(h[j], month, year)
  }

  /** The index of the first payment of the history that falls in the period. */
  function FirstIndexInPeriod(h: seq<Payment>, month: int, year: int): (r: Option<nat>)
    ensures r.None? <==> !HasPaymentIn(h, month, year)
    ensures r.Some? ==> IsFirstInPeriod(h, r.value, month, year)
  {
    if h == [] then None
    else if InPeriod(h[0], month, year) then Some(0)
    else
      assert forall i :: 1 <= i < |h| ==> h[i] == h[1..][i - 1];
      match FirstIndexInPeriod(h[1..], month, year)
      case Some(i) => Some(i + 1)
      case None => None
  }

  /** Array.prototype.find over the history: the first payment in the period. */
  function FirstInPeriod(h: seq<Payment>, month: int, year: int): (r: Option<Payment>)
    ensures r.None? <==> !HasPaymentIn(h, month, year)
    ensures r.Some? ==> exists i :: IsFirstInPeriod(h, i, month, year) && h[i] == r.value
  {
    match FirstIndexInPeriod(h, month, year)
    case Some(i) => Some(h[i])
    case None => None
  }

  /** What one member adds to the period's totals. */
  function MemberStats(m: Member, month: int, year: int): (r: Stats)
    ensures !m.isActive ==> r == NoStats
    ensures m.isActive ==> r.total == m.subscriptionAmount
  {
    if !m.isActive then NoStats
    else match FirstInPeriod(m.paymentHistory, month, year)
      case Some(p) => Stats(m.subscriptionAmount, p.amount, 0)
      case None => Stats(m.subscriptionAmount, 0, m.subscriptionAmount)
  }

  /** An inactive member adds nothing; an active one adds their subscription
      to the expected total and either the amount of their first payment in
      the period to collected, or, having none, their subscription to pending. */
  lemma MemberContribution(m: Member, month: int, year: int)
    ensures !m.isActive ==> MemberStats(m, month, year) == NoStats
    ensures m.isActive ==> MemberStats(m, month, year).total == m.subscriptionAmount
    ensures m.isActive && HasPaymentIn(m.paymentHistory, month, year) ==>
      MemberStats(m, month, year).pending == 0
      && exists i :: IsFirstInPeriod(m.paymentHistory, i, month, year)
                     && MemberStats(m, month, year).collected == m.paymentHistory[i].amount
    ensures m.isActive && !HasPaymentIn(m.paymentHistory, month, year) ==>
      MemberStats(m, month, year).pending == m.subscriptionAmount
      && MemberStats(m, month, year).collected == 0
  {
  }

  lemma MemberPending(m: Member, month: int, year: int)
    ensures MemberStats(m, month, year).pending
         == if m.isActive && !HasPaymentIn(m.paymentHistory, month, year) then m.subscriptionAmount else 0
  {
  }

  /** The period's totals over a member list, member by member in list order. */
  function PeriodTotals(ms: seq<Member>, month: int, year: int): Stats {
    if ms == [] then NoStats
    else PeriodTotals(ms[..|ms| - 1], month, year).Plus(MemberStats(ms[|ms| - 1], month, year))
  }

  /** The body of the dashboard's per-member callback: an inactive member
      is skipped; an active one adds their subscription to the expected total
      and either their first payment of the period to collected or their
      subscription to pending. */
  method TallyMember(acc: Stats, member: Member, filterMonth: int, filterYear: int) returns (r: Stats)
    ensures r == acc.Plus(MemberStats(member, filterMonth, filterYear))
  {
    r := acc;
    if !member.isActive {
      return;
    }
    r := r.(total := r.total + member.subscriptionAmount);
    var paymentInMonth := FirstInPeriod(member.paymentHistory, filterMonth, filterYear);
    if paymentInMonth.Some? {
      r := r.(collected := r.collected + paymentInMonth.value.amount);
    } else {
      r := r.(pending := r.pending + member.subscriptionAmount);
    }
  }

  /** The dashboard's statistics: one pass over the members in list order,
      accumulating the three totals. */
  method GetMonthlyPayments(members: seq<Member>, filterMonth: int, filterYear: int)
    returns (stats: Stats)
    ensures stats == PeriodTotals(members, filterMonth, filterYear)
  {
    stats := NoStats;
    var i := 0;
    while i < |members|
      invariant 0 <= i <= |members|
      invariant stats == PeriodTotals(members[..i], filterMonth, filterYear)
    {
      PeriodTotalsPrefix(members, i, filterMonth, filterYear);
      stats := TallyMember(stats, members[i], filterMonth, filterYear);
      i := i + 1;
    }
    assert members[..|members|] == members;
  }

  lemma PeriodTotalsPrefix(ms: seq<Member>, i: int, month: int, year: int)
    requires 0 <= i < |ms|
    ensures PeriodTotals(ms[..i + 1], month, year)
         == PeriodTotals(ms[..i], month, year).Plus(MemberStats(ms[i], month, year))
  {
    assert ms[..i + 1][..i] == ms[..i];
  }

  // ---------------------------------------------------------------------

  /** The active members, in list order. */
  function ActiveMembers(ms: seq<Member>): seq<Member> {
    if ms == [] then []
    else ActiveMembers(ms[..|ms| - 1]) + (if ms[|ms| - 1].isActive then [ms[|ms| - 1]] else [])
  }

  /** The members with a payment in the period, in list order. */
  function PaidMembers(ms: seq<Member>, month: int, year: int): seq<Member> {
    if ms == [] then []
    else
      PaidMembers(ms[..|ms| - 1], month, year)
      + (if HasPaymentIn(ms[|ms| - 1].paymentHistory, month, year) then [ms[|ms| - 1]] else [])
  }

  /** The members with no payment in the period, in list order. */
  function UnpaidMembers(ms: seq<Member>, month: int, year: int): seq<Member> {
    if ms == [] then []
    else
      UnpaidMembers(ms[..|ms| - 1], month, year)
      + (if HasPaymentIn(ms[|ms| - 1].paymentHistory, month, year) then [] else [ms[|ms| - 1]])
  }

  lemma {:induction false} ActiveMembersAreTheActiveOnes(ms: seq<Member>)
    ensures forall m :: m in ActiveMembers(ms) <==> m in ms && m.isActive
  {
    if ms != [] {
      var init := ms[..|ms| - 1];
      ActiveMembersAreTheActiveOnes(init);
      assert ms == init + [ms[|ms| - 1]];
    }
  }

  /** A member is counted as paid exactly when one of their payments falls
      in the period, and as unpaid exactly when none does. */
  lemma {:induction false} PaidAndUnpaidPartition(ms: seq<Member>, month: int, year: int)
    ensures forall m :: m in PaidMembers(ms, month, year) <==> m in ms && HasPaymentIn(m.paymentHistory, month, year)
    ensures forall m :: m in UnpaidMembers(ms, month, year) <==> m in ms && !HasPaymentIn(m.paymentHistory, month, year)
  {
    if ms != [] {
      var init := ms[..|ms| - 1];
      PaidAndUnpaidPartition(init, month, year);
      assert ms == init + [ms[|ms| - 1]];
    }
  }

  function SumSubscriptions(ms: seq<Member>): int {
    if ms == [] then 0 else SumSubscriptions(ms[..|ms| - 1]) + ms[|ms| - 1].subscriptionAmount
  }

  lemma SumSubscriptionsSnoc(ms: seq<Member>, x: Member)
    ensures SumSubscriptions(ms + [x]) == SumSubscriptions(ms) + x.subscriptionAmount
  {
    assert (ms + [x])[..|ms|] == ms;
  }

  lemma PeriodTotalsSnoc(ms: seq<Member>, x: Member, month: int, year: int)
    ensures PeriodTotals(ms + [x], month, year) == PeriodTotals(ms, month, year).Plus(MemberStats(x, month, year))
  {
    assert (ms + [x])[..|ms|] == ms;
  }

  lemma {:induction false} PeriodTotalsAppend(a: seq<Member>, b: seq<Member>, month: int, year: int)
    ensures PeriodTotals(a + b, month, year) == PeriodTotals(a, month, year).Plus(PeriodTotals(b, month, year))
  {
    if b == [] {
      assert a + b == a;
    } else {
      var init, last := b[..|b| - 1], b[|b| - 1];
      var ab := a + b;
      assert ab[..|ab| - 1] == a + init;
      assert ab[|ab| - 1] == last;
      PeriodTotalsAppend(a, init, month, year);
      assert PeriodTotals(b, month, year) == PeriodTotals(init, month, year).Plus(MemberStats(last, month, year));
      PlusAssociative(PeriodTotals(a, month, year), PeriodTotals(init, month, year), MemberStats(last, month, year));
      calc {
        PeriodTotals(ab, month, year);
        PeriodTotals(a + init, month, year).Plus(MemberStats(last, month, year));
        PeriodTotals(a, month, year).Plus(PeriodTotals(init, month, year)).Plus(MemberStats(last, month, year));
        PeriodTotals(a, month, year).Plus(PeriodTotals(b, month, year));
      }
    }
  }

  /** A list without active members has all three totals zero. */
  lemma {:induction false} NoActiveMembersNoTotals(ms: seq<Member>, month: int, year: int)
    requires forall i :: 0 <= i < |ms| ==> !ms[i].isActive
    ensures PeriodTotals(ms, month, year) == NoStats
  {
    if ms != [] {
      var init := ms[..|ms| - 1];
      assert forall i :: 0 <= i < |init| ==> init[i] == ms[i];
      NoActiveMembersNoTotals(init, month, year);
      assert MemberStats(ms[|ms| - 1], month, year) == NoStats;
    }
  }

  /** Inactive members contribute nothing: the totals over the whole list are
      the totals over its active members. */
  lemma {:induction false} InactiveMembersIgnored(ms: seq<Member>, month: int, year: int)
    ensures PeriodTotals(ms, month, year) == PeriodTotals(ActiveMembers(ms), month, year)
  {
    if ms != [] {
      InactiveMembersIgnored(ms[..|ms| - 1], month, year);
      InactiveMembersIgnoredStep(ms, month, year);
    }
  }

  lemma InactiveMembersIgnoredStep(ms: seq<Member>, month: int, year: int)
    requires ms != []
    requires PeriodTotals(ms[..|ms| - 1], month, year) == PeriodTotals(ActiveMembers(ms[..|ms| - 1]), month, year)
    ensures PeriodTotals(ms, month, year) == PeriodTotals(ActiveMembers(ms), month, year)
  {
    var init, last := ms[..|ms| - 1], ms[|ms| - 1];
    if last.isActive {
      ActiveLastCounted(ms, month, year);
    } else {
      InactiveLastSkipped(ms, month, year);
    }
  }

  lemma ActiveLastCounted(ms: seq<Member>, month: int, year: int)
    requires ms != [] && ms[|ms| - 1].isActive
    ensures PeriodTotals(ActiveMembers(ms), month, year)
         == PeriodTotals(ActiveMembers(ms[..|ms| - 1]), month, year).Plus(MemberStats(ms[|ms| - 1], month, year))
  {
    var init, last := ms[..|ms| - 1], ms[|ms| - 1];
    assert ActiveMembers(ms) == ActiveMembers(init) + [last];
    PeriodTotalsSnoc(ActiveMembers(init), last, month, year);
  }

  lemma InactiveLastSkipped(ms: seq<Member>, month: int, year: int)
    requires ms != [] && !ms[|ms| - 1].isActive
    ensures PeriodTotals(ms, month, year) == PeriodTotals(ms[..|ms| - 1], month, year)
    ensures ActiveMembers(ms) == ActiveMembers(ms[..|ms| - 1])
  {
    var before := PeriodTotals(ms[..|ms| - 1], month, year);
    assert MemberStats(ms[|ms| - 1], month, year) == NoStats;
    assert before.Plus(NoStats) == before;
  }

  /** The expected total is the sum of the active members' subscriptions. */
  lemma {:induction false} TotalIsActiveSubscriptions(ms: seq<Member>, month: int, year: int)
    ensures PeriodTotals(ms, month, year).total == SumSubscriptions(ActiveMembers(ms))
  {
    if ms != [] {
      TotalIsActiveSubscriptions(ms[..|ms| - 1], month, year);
      PeriodTotalsLast(ms, month, year);
      ActiveSumLast(ms);
    }
  }

  /** Pending is the sum of the subscriptions of the active members with no
      payment in the period. */
  lemma {:induction false} PendingIsUnpaidSubscriptions(ms: seq<Member>, month: int, year: int)
    ensures PeriodTotals(ms, month, year).pending
      == SumSubscriptions(UnpaidMembers(ActiveMembers(ms), month, year))
  {
    if ms != [] {
      PendingIsUnpaidSubscriptions(ms[..|ms| - 1], month, year);
      PeriodTotalsLast(ms, month, year);
      FilteredSumsLast(ms, month, year);
    }
  }

  /** The expected total splits into pending plus the subscriptions of the
      active members who did pay in the period: each active member adds to
      exactly one of the two. */
  lemma {:induction false} TotalIsPendingPlusPaidSubscriptions(ms: seq<Member>, month: int, year: int)
    ensures PeriodTotals(ms, month, year).total
      == PeriodTotals(ms, month, year).pending
       + SumSubscriptions(PaidMembers(ActiveMembers(ms), month, year))
  {
    if ms != [] {
      TotalIsPendingPlusPaidSubscriptions(ms[..|ms| - 1], month, year);
      PeriodTotalsLast(ms, month, year);
      FilteredSumsLast(ms, month, year);
    }
  }

  /** How the last member of the list moves the expected and pending totals. */
  lemma PeriodTotalsLast(ms: seq<Member>, month: int, year: int)
    requires ms != []
    ensures var init, last := ms[..|ms| - 1], ms[|ms| - 1];
      PeriodTotals(ms, month, year).total
        == PeriodTotals(init, month, year).total + (if last.isActive then last.subscriptionAmount else 0)
      && PeriodTotals(ms, month, year).pending
        == PeriodTotals(init, month, year).pending
         + (if last.isActive && !HasPaymentIn(last.paymentHistory, month, year) then last.subscriptionAmount else 0)
  {
    MemberPending(ms[|ms| - 1], month, year);
  }

  lemma ActiveSumLast(ms: seq<Member>)
    requires ms != []
    ensures var init, last := ms[..|ms| - 1], ms[|ms| - 1];
      SumSubscriptions(ActiveMembers(ms))
        == SumSubscriptions(ActiveMembers(init)) + (if last.isActive then last.subscriptionAmount else 0)
  {
    var init, last := ms[..|ms| - 1], ms[|ms| - 1];
    if last.isActive {
      assert ActiveMembers(ms) == ActiveMembers(init) + [last];
      SumSubscriptionsSnoc(ActiveMembers(init), last);
    } else {
      assert ActiveMembers(ms) == ActiveMembers(init);
    }
  }

  /** How the last member of the list moves the paid and unpaid sums. */
  lemma FilteredSumsLast(ms: seq<Member>, month: int, year: int)
    requires ms != []
    ensures var init, last := ms[..|ms| - 1], ms[|ms| - 1];
      var paid := last.isActive && HasPaymentIn(last.paymentHistory, month, year);
      var unpaid := last.isActive && !HasPaymentIn(last.paymentHistory, month, year);
      SumSubscriptions(PaidMembers(ActiveMembers(ms), month, year))
        == SumSubscriptions(PaidMembers(ActiveMembers(init), month, year)) + (if paid then last.subscriptionAmount else 0)
      && SumSubscriptions(UnpaidMembers(ActiveMembers(ms), month, year))
        == SumSubscriptions(UnpaidMembers(ActiveMembers(init), month, year)) + (if unpaid then last.subscriptionAmount else 0)
  {
    var init, last := ms[..|ms| - 1], ms[|ms| - 1];
    if last.isActive {
      var active := ActiveMembers(init);
      assert ActiveMembers(ms) == active + [last];
      FilteredSnoc(active, last, month, year);
      if HasPaymentIn(last.paymentHistory, month, year) {
        SumSubscriptionsSnoc(PaidMembers(active, month, year), last);
        assert UnpaidMembers(active + [last], month, year) == UnpaidMembers(active, month, year);
      } else {
        SumSubscriptionsSnoc(UnpaidMembers(active, month, year), last);
        assert PaidMembers(active + [last], month, year) == PaidMembers(active, month, year);
      }
    } else {
      assert ActiveMembers(ms) == ActiveMembers(init);
    }
  }

  lemma FilteredSnoc(ms: seq<Member>, x: Member, month: int, year: int)
    ensures PaidMembers(ms + [x], month, year)
         == PaidMembers(ms, month, year) + (if HasPaymentIn(x.paymentHistory, month, year) then [x] else [])
    ensures UnpaidMembers(ms + [x], month, year)
         == UnpaidMembers(ms, month, year) + (if HasPaymentIn(x.paymentHistory, month, year) then [] else [x])
  {
    assert (ms + [x])[..|ms|] == ms;
  }

  /** The first in-period index is unchanged by appending a payment to a
      history that already has one in the period. */
  lemma FirstIndexUnchangedByAppend(h: seq<Payment>, q: Payment, month: int, year: int)
    requires HasPaymentIn(h, month, year)
    ensures FirstIndexInPeriod(h + [q], month, year) == FirstIndexInPeriod(h, month, year)
  {
    var k := FirstIndexInPeriod(h, month, year).value;
    assert IsFirstInPeriod(h + [q], k, month, year);
    FirstIndexIsUnique(h + [q], FirstIndexInPeriod(h + [q], month, year).value, k, month, year);
  }

  /** A history has at most one first payment in a period. */
  lemma FirstIndexIsUnique(h: seq<Payment>, i: int, j: int, month: int, year: int)
    requires IsFirstInPeriod(h, i, month, year) && IsFirstInPeriod(h, j, month, year)
    ensures i == j
  {
  }

  /** Only the first payment of a period is credited: recording another
      payment for a member who has already paid in the period leaves every
      total unchanged, whatever its amount and date. */
  lemma LaterPaymentIgnored(ms: seq<Member>, i: int, q: Payment, month: int, year: int)
    requires 0 <= i < |ms|
    requires HasPaymentIn(ms[i].paymentHistory, month, year)
    ensures PeriodTotals(ms[i := ms[i].(paymentHistory := ms[i].paymentHistory + [q])], month, year)
         == PeriodTotals(ms, month, year)
  {
    var m := ms[i];
    var m' := m.(paymentHistory := m.paymentHistory + [q]);
    FirstIndexUnchangedByAppend(m.paymentHistory, q, month, year);
    assert MemberStats(m', month, year) == MemberStats(m, month, year);
    PeriodTotalsAfterReplacing(ms, i, m', month, year);
  }

  /** Recording the first payment of the period for an active member moves
      their subscription out of pending and credits the payment's amount. */
  lemma FirstPaymentMovesPendingToCollected(ms: seq<Member>, i: int, q: Payment, month: int, year: int)
    requires 0 <= i < |ms| && ms[i].isActive
    requires !HasPaymentIn(ms[i].paymentHistory, month, year)
    requires InPeriod(q, month, year)
    ensures var before := PeriodTotals(ms, month, year);
      var after := PeriodTotals(ms[i := ms[i].(paymentHistory := ms[i].paymentHistory + [q])], month, year);
      after.total == before.total
      && after.collected == before.collected + q.amount
      && after.pending == before.pending - ms[i].subscriptionAmount
  {
    var m := ms[i];
    var h' := m.paymentHistory + [q];
    var m' := m.(paymentHistory := h');
    assert IsFirstInPeriod(h', |h'| - 1, month, year);
    assert FirstIndexInPeriod(h', month, year) == Some(|h'| - 1);
    PeriodTotalsAfterReplacing(ms, i, m', month, year);
  }

  /** A newly added member (active, with no payments) adds their
      subscription to both the expected total and pending, and nothing to
      collected. */
  lemma NewMemberAddsToPending(ms: seq<Member>, x: Member, month: int, year: int)
    requires x.isActive && x.paymentHistory == []
    ensures var before, after := PeriodTotals(ms, month, year), PeriodTotals(ms + [x], month, year);
      after.total == before.total + x.subscriptionAmount
      && after.collected == before.collected
      && after.pending == before.pending + x.subscriptionAmount
  {
    PeriodTotalsSnoc(ms, x, month, year);
  }

  /** Reminders play no part in the totals. */
  lemma RemindersIgnored(ms: seq<Member>, i: int, rs: seq<Reminder>, month: int, year: int)
    requires 0 <= i < |ms|
    ensures PeriodTotals(ms[i := ms[i].(remindersSent := rs)], month, year) == PeriodTotals(ms, month, year)
  {
    PeriodTotalsAfterReplacing(ms, i, ms[i].(remindersSent := rs), month, year);
  }

  lemma PeriodTotalsSplit(ms: seq<Member>, i: int, month: int, year: int)
    requires 0 <= i < |ms|
    ensures PeriodTotals(ms, month, year)
         == PeriodTotals(ms[..i], month, year).Plus(MemberStats(ms[i], month, year)).Plus(PeriodTotals(ms[i + 1..], month, year))
  {
    assert ms == ms[..i] + [ms[i]] + ms[i + 1..];
    PeriodTotalsAppend(ms[..i] + [ms[i]], ms[i + 1..], month, year);
    PeriodTotalsAppend(ms[..i], [ms[i]], month, year);
    assert [ms[i]][..0] == [];
  }

  /** Replacing one member changes the totals by the difference of the two
      members' contributions. */
  lemma PeriodTotalsAfterReplacing(ms: seq<Member>, i: int, x: Member, month: int, year: int)
    requires 0 <= i < |ms|
    ensures var before, after := PeriodTotals(ms, month, year), PeriodTotals(ms[i := x], month, year);
      var old_, new_ := MemberStats(ms[i], month, year), MemberStats(x, month, year);
      after.total == before.total - old_.total + new_.total
      && after.collected == before.collected - old_.collected + new_.collected
      && after.pending == before.pending - old_.pending + new_.pending
  {
    var s := ms[i := x];
    PeriodTotalsSplit(ms, i, month, year);
    PeriodTotalsSplit(s, i, month, year);
    assert s[..i] == ms[..i];
    assert s[i + 1..] == ms[i + 1..];
  }
}
