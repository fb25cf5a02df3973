/** The client-side reminder record (frontend/src/types/reminder.ts).
    Dates are integer timestamps in milliseconds (`Date.getTime()`). */
module ReminderTypes {

  /** The three statuses a client reminder can carry. */
  datatype Status = Upcoming | Overdue | Completed

  datatype Reminder = Reminder(
    id: string,
    text: string,
    dateTime: int,
    createdAt: int,
    status: Status)

  /** What the creation form hands to the client service. */
  datatype CreateReminderData = CreateReminderData(text: string, dateTime: int)
}
