/**
 * The passwordless sign-in form: an email box and a button that asks the
 * authentication provider to mail a sign-in link.
 *
 * `sendMagicLink` runs in two halves around its `await`: `Submit` is what
 * happens before the provider is called, `Complete` what happens when its
 * reply arrives. The provider itself is not modelled; its reply is an input.
 */
module Login {
  import opened Wrappers
  import opened Text

  const BLANK_EMAIL_ERROR := "Digite seu email."
  const FALLBACK_ERROR := "Não foi possível enviar o link."

  /** The provider's answer: no error, or an error whose message may be missing. */
  datatype Reply = Accepted | Rejected(message: Option<string>)

  /** The form's whole state. */
  datatype LoginState = LoginState(email: string, loading: bool, sent: bool, error: Option<string>)

  const INITIAL_LOGIN := LoginState("", false, false, None)

  /**
   * The first half of a submission: clear the error, refuse a blank email,
   * otherwise start loading and hand the email, as typed, to the provider.
   */
  function Submitted(s: LoginState): (LoginState, Option<string>) {
    if Trim(s.email) == [] then (s.(error := Some(BLANK_EMAIL_ERROR)), None)
    else (s.(error := None, loading := true), Some(s.email))
  }

  /** The second half: record the outcome, and stop loading in every case. */
  function Completed(s: LoginState, reply: Reply): LoginState {
    match reply
    case Accepted => s.(sent := true, loading := false)
    case Rejected(message) => s.(error := Some(message.GetOr(FALLBACK_ERROR)), loading := false)
  }

  /**
   * A blank email (nothing but whitespace) is refused with its own error,
   * without contacting the provider and without touching `loading` or
   * `sent`; any other email is sent exactly as typed, with `loading` raised
   * and the previous error gone.
   */
  lemma SubmitCases(s: LoginState)
    ensures var (t, request) := Submitted(s);
      && t.email == s.email && t.sent == s.sent
      && (request == None <==> AllSpace(s.email))
      && (request == None ==> t.error == Some(BLANK_EMAIL_ERROR) && t.loading == s.loading)
      && (request != None ==> request == Some(s.email) && t.error == None && t.loading)
  {
    TrimBlankIff(s.email);
  }

  /**
   * A whole submission from an idle form: whatever the provider says,
   * `loading` ends false; an acceptance leaves `sent` set and no error;
   * a rejection shows the provider's message, or the fallback text when it
   * has none, and leaves `sent` as it was.
   */
  lemma SendOutcome(s: LoginState, reply: Reply)
    requires !s.loading
    ensures var (t, request) := Submitted(s);
      var u := if request == None then t else Completed(t, reply);
      && !u.loading
      && u.email == s.email
      && (request != None && reply == Accepted ==> u.sent && u.error == None)
      && (request != None && reply.Rejected? ==>
            u.sent == s.sent && u.error == Some(if reply.message.Some? then reply.message.value else FALLBACK_ERROR))
      && (request == None ==> u.sent == s.sent && u.error == Some(BLANK_EMAIL_ERROR))
  {
  }

  /** The error box is drawn only for a non-empty error text. */
  predicate ErrorShown(s: LoginState) {
    s.error.Some? && s.error.value != ""
  }

  /**
   * Every refused or failed submission shows an error box, except a
   * rejection whose message is the empty text: that one is recorded but
   * not drawn.
   */
  lemma ErrorShownAfterFailure(s: LoginState, reply: Reply)
    requires !s.loading
    ensures Submitted(s).1 == None ==> ErrorShown(Submitted(s).0)
    ensures reply.Rejected? ==>
      (ErrorShown(Completed(Submitted(s).0, reply)) <==> reply.message != Some(""))
  {
  }

  /** The form's state fields. */
  class LoginForm {
    var email: string
    var loading: bool
    var sent: bool
    var error: Option<string>

    function State(): LoginState
      reads this
    {
      LoginState(email, loading, sent, error)
    }

    constructor ()
      ensures State() == INITIAL_LOGIN
    {
      email := "";
      loading := false;
      sent := false;
      error := None;
    }

    /** The email box's `onChange`. */
    method SetEmail(value: string)
      modifies this
      ensures State() == old(State()).(email := value)
    {
      email := value;
    }

    /** The submit button is enabled while no request is pending. */
    predicate SubmitEnabled()
      reads this
    {
      !loading
    }

    /**
     * `sendMagicLink` up to its `await`; `request` is the email passed to
     * the provider, or `None` when the provider is not called.
     */
    method Submit() returns (request: Option<string>)
      requires SubmitEnabled()
      modifies this
      ensures (State(), request) == Submitted(old(State()))
    {
      error := None;
      if Trim(email) == [] {
        error := Some(BLANK_EMAIL_ERROR);
        return None;
      }
      loading := true;
      request := Some(email);
    }

    /** `sendMagicLink` after its `await`: the `try`, `catch` and `finally` blocks. */
    method Complete(reply: Reply)
      requires loading
      modifies this
      ensures State() == Completed(old(State()), reply)
      ensures SubmitEnabled()
    {
      match reply {
        case Accepted =>
          sent := true;
        case Rejected(message) =>
          error := Some(message.GetOr(FALLBACK_ERROR));
      }
      loading := false;
    }
  }

  /** A full round trip on a fresh form with a non-blank email that the provider accepts. */
  method SignIn(address: string) returns (form: LoginForm, request: Option<string>)
    requires !AllSpace(address)
    ensures request == Some(address)
    ensures form.sent && !form.loading && form.error == None
  {
    form := new LoginForm();
    form.SetEmail(address);
    request := form.Submit();
    TrimBlankIff(address);
    form.Complete(Accepted);
  }
}
