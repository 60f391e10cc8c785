/** The Firebase configuration helpers: whether the environment supplied the
    settings the app cannot start without, and the user-facing text for a
    Firestore error. Reading the environment and initializing the SDK are
    outside the model; the settings are inputs, each possibly unset. */
module FirebaseConfig {
  import opened Results

  /** The six settings read from the build environment; None when a variable is unset. */
  datatype Config = Config(
    apiKey: Option<string>, authDomain: Option<string>, projectId: Option<string>,
    storageBucket: Option<string>, messagingSenderId: Option<string>, appId: Option<string>)

  /** An environment value is truthy when it is set and not empty. */
  predicate Set(v: Option<string>) {
    v.Some? && v.value != ""
  }

  /** `isFirebaseConfigured`: the API key, the project id and the auth domain are all set. */
  function IsConfigured(c: Config): (ok: bool)
    ensures ok ==> Set(c.apiKey) && Set(c.projectId) && Set(c.authDomain)
    ensures !Set(c.apiKey) || !Set(c.projectId) || !Set(c.authDomain) ==> !ok
  {
    Set(c.apiKey) && Set(c.projectId) && Set(c.authDomain)
  }

  /** The storage bucket, sender id and app id play no part in the check. */
  lemma OptionalSettingsIgnored(c: Config, bucket: Option<string>, sender: Option<string>, app: Option<string>)
    ensures IsConfigured(c) == IsConfigured(c.(storageBucket := bucket, messagingSenderId := sender, appId := app))
  {
  }

  // ---------------------------------------------------------------------------
  // getFirebaseErrorMessage

  /** The error codes with their own message, and that message. */
  const KnownMessages: map<string, string> := map[
    "permission-denied" := "You do not have permission to perform this action.",
    "unavailable" := "Service is currently unavailable. Please try again later.",
    "not-found" := "The requested data was not found.",
    "already-exists" := "This item already exists.",
    "failed-precondition" := "Operation failed. Please check your input and try again."
  ]

  const DefaultMessage: string := "An unexpected error occurred."

  /** An error as the helper sees it: its `code` and its `message`, either possibly missing. */
  datatype FirebaseError = FirebaseError(code: Option<string>, message: Option<string>)

  /** `getFirebaseErrorMessage`: a known code gets its fixed text whatever the error's
      own message says; any other error shows its own message when it has a
      non-empty one, and the generic text otherwise. */
  function ErrorMessage(e: FirebaseError): (m: string)
    ensures m != ""
    ensures e.code.Some? && e.code.value in KnownMessages ==> m == KnownMessages[e.code.value]
    ensures !(e.code.Some? && e.code.value in KnownMessages) && Set(e.message) ==> m == e.message.value
    ensures !(e.code.Some? && e.code.value in KnownMessages) && !Set(e.message) ==> m == DefaultMessage
  {
    match e.code
    case Some(code) =>
      if code in KnownMessages then KnownMessages[code]
      else if Set(e.message) then e.message.value else DefaultMessage
    case None =>
      if Set(e.message) then e.message.value else DefaultMessage
  }

  /** The five fixed texts are different from each other and from the generic one,
      so a shown fixed text names its code. */
  lemma FixedTextsIdentifyTheirCode(a: string, b: string)
    requires a in KnownMessages && b in KnownMessages
    requires KnownMessages[a] == KnownMessages[b]
    ensures a == b
    ensures KnownMessages[a] != DefaultMessage
  {
  }

  /** An unrecognised or missing code falls back to the error's own text, or the generic one. */
  lemma UnknownCodeFallsBack(code: Option<string>, message: Option<string>)
    requires code.None? || code.value !in KnownMessages
    ensures ErrorMessage(FirebaseError(code, message)) == if Set(message) then message.value else DefaultMessage
  {
  }
}
