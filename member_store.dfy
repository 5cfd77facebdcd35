/** The member list and the three operations that change it. Each appends
    one record, or leaves the list as it was when the member is not found or
    the payment details are invalid. Input values that the page reads from
    its form fields, the clock and the id generator are parameters here. */
module MemberStore {
  import opened Calendar
  import opened Records

  /** What a list update did; `InvalidDetails` is the case the page reports
      with an alert. */
  datatype Outcome = Done | UnknownMember | InvalidDetails

  /** Array.prototype.findIndex by id: the first member with that id. */
  function FindIndex(ms: seq<Member>, id: string): (r: Option<nat>)
    ensures r.None? <==> forall i :: 0 <= i < |ms| ==> ms[i].id != id
    ensures r.Some? ==> r.value < |ms| && ms[r.value].id == id
    ensures r.Some? ==> forall j :: 0 <= j < r.value ==> ms[j].id != id
  {
    if ms == [] then None
    else if ms[0].id == id then Some(0)
    else
      assert forall i :: 1 <= i < |ms| ==> ms[i] == ms[1..][i - 1];
      match FindIndex(ms[1..], id)
      case Some(i) => Some(i + 1)
      case None => None
  }

  /** The payment record the page builds from the form. */
  function NewPayment(id: string, date: Date, amount: int, notes: string): (r: Payment)
    ensures r.id == id && r.date == date && r.amount == amount && r.notes == notes
    ensures r.collectedBy == CurrentUser && r.collectionMethod == CashMethod
  {
    Payment(id, date, amount, notes, CurrentUser, CashMethod)
  }

  /** The reminder record the page builds; an empty message box falls back
      to the default message. */
  function NewReminder(id: string, today: Date, channel: ReminderMethod, message: string): (r: Reminder)
    ensures r.id == id && r.date == today && r.channel == channel && r.sentBy == CurrentUser
    ensures r.message != []
    ensures message != [] ==> r.message == message
    ensures message == [] ==> r.message == DefaultReminderMessage
  {
    Reminder(id, today, channel, if message == [] then DefaultReminderMessage else message, CurrentUser)
  }

  class Store {
    var members: seq<Member>

    /** The list as loaded from storage. */
    constructor (saved: seq<Member>)
      ensures members == saved
    {
      members := saved;
    }

    /** Appends a new active member with no payments and no reminders. */
    method AddMember(id: string, name: string, address: string, phone: string, email: string,
                     subscriptionAmount: int, startDate: Date, notes: string)
      modifies this
      ensures |members| == |old(members)| + 1
      ensures members[..|old(members)|] == old(members)
      ensures members[|old(members)|]
           == Member(id, name, address, phone, email, subscriptionAmount, startDate, [], [], notes, true)
    {
      var newMember := Member(id, name, address, phone, email, subscriptionAmount, startDate, [], [], notes, true);
      members := members + [newMember];
    }

    /** Appends a payment to the history of the first member with the given
        id. An empty date (`None`) or an amount that does not parse (`None`)
        is rejected without change; so is an unknown id. */
    method RecordPayment(memberId: string, paymentId: string, date: Option<Date>, amount: Option<int>, notes: string)
      returns (outcome: Outcome)
      modifies this
      ensures FindIndex(old(members), memberId).None? ==> outcome == UnknownMember
      ensures FindIndex(old(members), memberId).Some? && (date.None? || amount.None?) ==> outcome == InvalidDetails
      ensures FindIndex(old(members), memberId).Some? && date.Some? && amount.Some? ==> outcome == Done
      ensures outcome != Done ==> members == old(members)
      ensures outcome == Done ==>
        FindIndex(old(members), memberId).Some? && date.Some? && amount.Some?
        && var i := FindIndex(old(members), memberId).value;
           members == old(members)[i := old(members)[i].(
             paymentHistory := old(members)[i].paymentHistory + [NewPayment(paymentId, date.value, amount.value, notes)])]
    {
      var memberIndex := FindIndex(members, memberId);
      if memberIndex.None? {
        return UnknownMember;
      }
      if date.None? || amount.None? {
        return InvalidDetails;
      }
      var i := memberIndex.value;
      var paymentRecord := NewPayment(paymentId, date.value, amount.value, notes);
      members := members[i := members[i].(paymentHistory := members[i].paymentHistory + [paymentRecord])];
      outcome := Done;
    }

    /** Appends a reminder to the log of the first member with the given id;
        an unknown id changes nothing. */
    method SendReminder(memberId: string, reminderId: string, today: Date, channel: ReminderMethod, message: string)
      returns (outcome: Outcome)
      modifies this
      ensures outcome != InvalidDetails
      ensures outcome == UnknownMember <==> FindIndex(old(members), memberId).None?
      ensures outcome == UnknownMember ==> members == old(members)
      ensures outcome == Done ==>
        var i := FindIndex(old(members), memberId).value;
        members == old(members)[i := old(members)[i].(
          remindersSent := old(members)[i].remindersSent + [NewReminder(reminderId, today, channel, message)])]
    {
      var memberIndex := FindIndex(members, memberId);
      if memberIndex.None? {
        return UnknownMember;
      }
      var i := memberIndex.value;
      var reminderRecord := NewReminder(reminderId, today, channel, message);
      members := members[i := members[i].(remindersSent := members[i].remindersSent + [reminderRecord])];
      outcome := Done;
    }
  }
}
