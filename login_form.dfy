/**
 * The login form (src/components/auth/LoginForm.tsx): the credential
 * table, the credential check the submit timer runs, the demo logins,
 * and the form's `email` / `password` / `loading` state.
 */
module LoginForm {
  import opened Wrappers
  import opened Users
  import Lists

  /** The one password every account accepts. */
  const SharedPassword: string := "password"

  /** `mockUsers`: the credential table, keyed by e-mail address. */
  const MockUsers: map<string, Identity> := map[
    "admin@hospital.com" := Identity(1, "Hospital Administrator", "admin@hospital.com", "admin"),
    "doctor@hospital.com" := Identity(2, "Dr. Smith", "doctor@hospital.com", "doctor"),
    "patient@hospital.com" := Identity(3, "John Doe", "patient@hospital.com", "patient")]

  /** The only way a credential check fails. */
  datatype AuthError = InvalidCredentials

  /** The check the submit timer runs: an exact key lookup and the shared password. */
  function Authenticate(email: string, password: string): Result<Identity, AuthError>
  {
    if email in MockUsers && password == SharedPassword then Ok(MockUsers[email])
    else Err(InvalidCredentials)
  }

  /** The e-mail address `demoCredentials[role]` fills in. */
  function DemoEmail(r: Role): (email: string)
    ensures email in MockUsers
  {
    match r
    case Admin => "admin@hospital.com"
    case Doctor => "doctor@hospital.com"
    case Patient => "patient@hospital.com"
  }

  /** The table has three entries, each stored under its own address, with distinct ids and roles. */
  lemma CredentialTable()
    ensures |MockUsers| == 3
    ensures forall e :: e in MockUsers ==> MockUsers[e].email == e
    ensures forall e, f :: e in MockUsers && f in MockUsers && e != f ==>
              MockUsers[e].id != MockUsers[f].id && MockUsers[e].role != MockUsers[f].role
    ensures forall r: Role :: MockUsers[DemoEmail(r)].role == r.Name()
    ensures forall e :: e in MockUsers ==> exists r: Role :: e == DemoEmail(r)
  {
    assert MockUsers.Keys == {"admin@hospital.com", "doctor@hospital.com", "patient@hospital.com"};
    assert DemoEmail(Admin) == "admin@hospital.com";
    assert DemoEmail(Doctor) == "doctor@hospital.com";
    assert DemoEmail(Patient) == "patient@hospital.com";
  }

  /** Each fixed account signs in with the shared password, and with no other. */
  lemma FixedAccounts(r: Role, password: string)
    ensures Authenticate(DemoEmail(r), password).Ok? <==> password == "password"
    ensures password == "password" ==>
              Authenticate(DemoEmail(r), password).value.role == r.Name()
              && Authenticate(DemoEmail(r), password).value.email == DemoEmail(r)
  {
    CredentialTable();
  }

  /** An address outside the table fails whatever the password. */
  lemma UnknownEmail(email: string, password: string)
    requires forall r: Role :: email != DemoEmail(r)
    ensures Authenticate(email, password) == Err(InvalidCredentials)
  {
    CredentialTable();
  }

  /** A callback scheduled with `setTimeout` and not yet run. */
  datatype Timer =
    | CheckCredentials(email: string, password: string)  // the submit handler's, with the values it captured
    | DemoSignIn(role: Role)                              // a demo button's

  /** The component state of the login form. */
  class Form {
    var email: string
    var password: string
    var loading: bool
    var timers: seq<Timer>

    /** `loading` is set exactly while one credential check is pending. */
    ghost predicate Valid()
      reads this
    {
      Lists.Count(timers, (t: Timer) => t.CheckCredentials?) == if loading then 1 else 0
    }

    constructor ()
      ensures Valid()
      ensures email == "" && password == "" && !loading && timers == []
    {
      email, password, loading, timers := "", "", false, [];
    }

    /** The e-mail input's `onChange`. */
    method SetEmail(value: string)
      modifies this
      ensures email == value
      ensures password == old(password) && loading == old(loading) && timers == old(timers)
    {
      email := value;
    }

    /** The password input's `onChange`. */
    method SetPassword(value: string)
      modifies this
      ensures password == value
      ensures email == old(email) && loading == old(loading) && timers == old(timers)
    {
      password := value;
    }

    /**
     * `handleSubmit`: sets `loading` and schedules the credential check on
     * the current e-mail and password.  While `loading` the submit button is
     * disabled, so a submit then does nothing.
     */
    method Submit()
      requires Valid()
      modifies this
      ensures Valid() && loading
      ensures timers == if old(loading) then old(timers)
                        else old(timers) + [CheckCredentials(old(email), old(password))]
      ensures email == old(email) && password == old(password)
    {
      if !loading {
        Lists.CountConcat(timers, [CheckCredentials(email, password)], (t: Timer) => t.CheckCredentials?);
        loading := true;
        timers := timers + [CheckCredentials(email, password)];
      }
    }

    /** `handleDemoLogin(role)`: fills the form in and schedules the demo sign-in. */
    method DemoLogin(r: Role)
      requires Valid()
      modifies this
      ensures Valid()
      ensures email == DemoEmail(r) && password == SharedPassword
      ensures timers == old(timers) + [DemoSignIn(r)] && loading == old(loading)
    {
      Lists.CountConcat(timers, [DemoSignIn(r)], (t: Timer) => t.CheckCredentials?);
      email := DemoEmail(r);
      password := SharedPassword;
      timers := timers + [DemoSignIn(r)];
    }

    /**
     * Runs the pending timer at position `i` and returns the identity it
     * passes to `onLogin`, or `None` when it does not call `onLogin`.
     */
    method FireTimer(i: nat) returns (signedIn: Option<Identity>)
      requires Valid() && i < |timers|
      modifies this
      ensures Valid()
      ensures timers == old(timers[..i] + timers[i + 1..])
      ensures email == old(email) && password == old(password)
      ensures match old(timers[i])
              case CheckCredentials(e, p) => signedIn == Authenticate(e, p).ToOption() && !loading
              case DemoSignIn(r) => signedIn == Some(MockUsers[DemoEmail(r)]) && loading == old(loading)
    {
      var t := timers[i];
      Lists.CountRemove(timers, i, (t: Timer) => t.CheckCredentials?);
      timers := timers[..i] + timers[i + 1..];
      match t
      case CheckCredentials(e, p) =>
        signedIn := Authenticate(e, p).ToOption();
        loading := false;
      case DemoSignIn(r) =>
        signedIn := Some(MockUsers[DemoEmail(r)]);
    }
  }

  /**
   * Typing credentials and submitting: `loading` holds until the check
   * runs, is cleared afterwards on both outcomes, and `onLogin` receives
   * the table entry exactly when the credentials are right.
   */
  method SubmitScenario(email: string, password: string)
    returns (loadingWhilePending: bool, loadingAfter: bool, signedIn: Option<Identity>)
    ensures loadingWhilePending && !loadingAfter
    ensures signedIn.Some? <==> email in MockUsers && password == SharedPassword
    ensures signedIn.Some? ==> signedIn.value == MockUsers[email]
  {
    var form := new Form();
    form.SetEmail(email);
    form.SetPassword(password);
    form.Submit();
    loadingWhilePending := form.loading;
    signedIn := form.FireTimer(0);
    loadingAfter := form.loading;
  }

  /** A demo button signs in as the table entry whose role is the button's. */
  method DemoScenario(r: Role) returns (signedIn: Option<Identity>)
    ensures signedIn.Some? && signedIn.value.role == r.Name()
    ensures signedIn.value.email in MockUsers && signedIn.value == MockUsers[signedIn.value.email]
  {
    var form := new Form();
    form.DemoLogin(r);
    signedIn := form.FireTimer(0);
    CredentialTable();
  }
}
