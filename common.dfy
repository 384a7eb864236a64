/** Vocabulary shared by every page of the model: optional values, identifiers,
    time, and JavaScript truthiness where the pages rely on it. */
module Common {

  /** A value that may be absent (`null`/`undefined` in the pages). */
  datatype Option<+T> = None | Some(value: T)

  /** Row identifiers handed out by the store. */
  type Id = nat

  /** The opaque user id returned by the identity provider. */
  type UserId = string

  /** Wall-clock time in milliseconds, as `Date` values compare. */
  type Time = int

  const MsPerHour: int := 3600000

  /** `expiresAt.setHours(expiresAt.getHours() + hours)` on a clock reading `now`. */
  function ExpiryAfter(now: Time, hours: int): Time
  {
    now + hours * MsPerHour
  }

  /** A poll created with a duration of `hours` is still open at its creation
      instant exactly when the duration is positive; nothing else bounds it. */
  lemma ExpiryAfterIsLater(now: Time, hours: int)
    ensures ExpiryAfter(now, hours) > now <==> hours > 0
    ensures ExpiryAfter(now, hours) - now == hours * MsPerHour
  {
  }

  /** Truthiness of an optional string: `null`, `undefined` and `""` are falsy. */
  predicate Truthy(s: Option<string>)
  {
    s.Some? && s.value != ""
  }

  /** The field check shared by the two publication forms: title, text,
      question and every option text must be non-empty. */
  predicate FieldsComplete(title: string, content: string, question: string, options: seq<string>)
  {
    title != "" && content != "" && question != "" &&
    forall i :: 0 <= i < |options| ==> options[i] != ""
  }
}
