/**
 * The meeting-request dialog (BookingModal.tsx): five fields, all required,
 * and an effect that pre-fills the topic on opening and clears the form on
 * closing.
 */
module Booking {

  const FillAll: string := "Please fill out all fields."

  datatype BookingForm = BookingForm(name: string, email: string, date: string, time: string, topic: string)

  const Empty: BookingForm := BookingForm("", "", "", "", "")

  datatype MeetingRequest = MeetingRequest(name: string, email: string, date: string, time: string, topic: string)

  /** What a submit does: hand the request on, or raise an alert. */
  datatype Outcome = Emit(request: MeetingRequest) | Alert(message: string)

  /** `handleSubmit`: every field must be non-empty. */
  function Submit(f: BookingForm): (r: Outcome)
    ensures r.Emit? <==> f.name != "" && f.email != "" && f.date != "" && f.time != "" && f.topic != ""
    ensures r.Emit? ==> r.request == MeetingRequest(f.name, f.email, f.date, f.time, f.topic)
    ensures r.Alert? ==> r.message == FillAll
  {
    if f.name != "" && f.email != "" && f.date != "" && f.time != "" && f.topic != ""
    then Emit(MeetingRequest(f.name, f.email, f.date, f.time, f.topic))
    else Alert(FillAll)
  }

  /** Clearing any one field blocks the submit. */
  lemma ClearedFieldBlocks(f: BookingForm)
    ensures Submit(f.(name := "")).Alert? && Submit(f.(email := "")).Alert?
    ensures Submit(f.(date := "")).Alert? && Submit(f.(time := "")).Alert? && Submit(f.(topic := "")).Alert?
  {
  }

  /**
   * The open/close effect. An absent initial topic is the empty string (both
   * are falsy): opened with a topic, the topic is set; closed, every field is
   * cleared; opened without one, nothing changes.
   */
  function OnOpenChange(f: BookingForm, isOpen: bool, initialTopic: string): (g: BookingForm)
    ensures !isOpen ==> g == Empty
    ensures isOpen && initialTopic != "" ==> g == f.(topic := initialTopic)
    ensures isOpen && initialTopic == "" ==> g == f
  {
    if isOpen && initialTopic != "" then f.(topic := initialTopic)
    else if !isOpen then Empty
    else f
  }

  /** Closing and reopening with a topic leaves only that topic filled in. */
  lemma ReopenWithTopic(f: BookingForm, topic: string)
    requires topic != ""
    ensures OnOpenChange(OnOpenChange(f, false, topic), true, topic) == Empty.(topic := topic)
    ensures Submit(OnOpenChange(OnOpenChange(f, false, topic), true, topic)).Alert?
  {
  }
}
