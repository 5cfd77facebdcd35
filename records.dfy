/** The entities the dues engine works on: members, the payments collected
    from them and the reminders logged for them. */
module Records {
  import opened Calendar

  datatype Option<T> = None | Some(value: T)

  /** The channels offered by the reminder form (the record's `method` field). */
  datatype ReminderMethod = Sms | PhoneCall | Email | WhatsApp

  datatype Payment = Payment(
    id: string,
    date: Date,
    amount: int,
    notes: string,
    collectedBy: string,
    collectionMethod: string)

  datatype Reminder = Reminder(
    id: string,
    date: Date,
    channel: ReminderMethod,
    message: string,
    sentBy: string)

  datatype Member = Member(
    id: string,
    name: string,
    address: string,
    phone: string,
    email: string,
    subscriptionAmount: int,
    startDate: Date,
    paymentHistory: seq<Payment>,
    remindersSent: seq<Reminder>,
    notes: string,
    isActive: bool)

  /** The operator recorded on every payment and reminder. */
  const CurrentUser: string := "Current User"
  /** The collection method recorded on every payment (door-to-door cash). */
  const CashMethod: string := "Cash"
  /** The message used when the reminder form's message box is empty. */
  const DefaultReminderMessage: string := "Friendly reminder about your monthly subscription"
}
