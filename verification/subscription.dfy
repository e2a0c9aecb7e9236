/** The newsletter box (Subscription.tsx): a non-empty address is handed on and the box cleared. */
module Subscription {
  import opened Wrappers

  /** The box starts empty. */
  const InitialEmail: string := ""

  /** `handleSubmit`: the field afterwards, and the address passed to `onSubscribe`, if any. */
  function Submit(email: string): (r: (string, Option<string>))
    ensures email != "" ==> r == ("", Some(email))
    ensures email == "" ==> r == (email, None)
  {
    if email != "" then ("", Some(email)) else (email, None)
  }

  /** A second submit right after a successful one does nothing. */
  lemma NoDoubleSubscribe(email: string)
    ensures Submit(Submit(email).0).1.None?
  {
  }
}
