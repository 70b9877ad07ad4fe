/**
 * The sign-in and registration page: the validation schemas, the per-field error map built from
 * their issues, clearing an error while typing, and the register/login mode.
 */
module AuthPage {
  import opened Wrappers
  import opened Text
  import opened Query
  import opened Domain
  import opened AuthContext
  import Session

  /** The form's five inputs, all `''` at first. */
  datatype AuthForm = AuthForm(email: string, password: string, firstname: string, lastname: string, phone: string)

  const EmptyForm := AuthForm("", "", "", "", "")

  /** The `name` attributes of the inputs; `Name` is the key they use in the error map. */
  datatype AuthField = Email | Password | Firstname | Lastname | Phone {
    function Name(): string {
      match this
      case Email => "email"
      case Password => "password"
      case Firstname => "firstname"
      case Lastname => "lastname"
      case Phone => "phone"
    }
  }

  lemma NamesDistinct(a: AuthField, b: AuthField)
    ensures a.Name() == b.Name() <==> a == b
  {
  }

  function Value(f: AuthForm, n: AuthField): string {
    match n
    case Email => f.email
    case Password => f.password
    case Firstname => f.firstname
    case Lastname => f.lastname
    case Phone => f.phone
  }

  /** A validation issue: the field it is about and its message. */
  type Issue = (string, string)

  /** `z.string().min(n, message)` on one field: an issue when the text is shorter than `n`. */
  function MinLength(field: string, s: string, n: nat, message: string): (r: seq<Issue>)
    ensures |r| <= 1 && (|r| == 1 <==> |s| < n)
    ensures |r| == 1 ==> r[0] == (field, message)
  {
    if |s| < n then [(field, message)] else []
  }

  /** `z.string().email(...)`; the address grammar is `validEmail`. */
  function EmailIssue(s: string, validEmail: string -> bool): (r: seq<Issue>)
    ensures |r| == 1 <==> !validEmail(s)
    ensures |r| <= 1 && (|r| == 1 ==> r[0] == ("email", "Invalid email address"))
  {
    if validEmail(s) then [] else [("email", "Invalid email address")]
  }

  /** The issues of `loginSchema`, in field order. The password minimum is 2 although the message says 6. */
  function LoginIssues(f: AuthForm, validEmail: string -> bool): (r: seq<Issue>)
    ensures |r| == 0 <==> validEmail(f.email) && |f.password| >= 2
  {
    EmailIssue(f.email, validEmail)
    + MinLength("password", f.password, 2, "Password must be at least 6 characters")
  }

  /** The issues of `registerSchema`, in field order. */
  function RegisterIssues(f: AuthForm, validEmail: string -> bool): (r: seq<Issue>)
    ensures |r| == 0 <==>
      validEmail(f.email) && |f.firstname| >= 2 && |f.lastname| >= 2 && |f.password| >= 6 && |f.phone| >= 10
  {
    EmailIssue(f.email, validEmail)
    + MinLength("firstname", f.firstname, 2, "First name must be at least 2 characters")
    + MinLength("lastname", f.lastname, 2, "Last name must be at least 2 characters")
    + MinLength("password", f.password, 6, "Password must be at least 6 characters")
    + MinLength("phone", f.phone, 10, "Phone number must be at least 10 digits")
  }

  /** Sign-in takes a two-character password, the one the message calls too short. */
  lemma LoginAcceptsShortPassword(email: string, validEmail: string -> bool)
    requires validEmail(email)
    ensures LoginIssues(AuthForm(email, "ab", "", "", ""), validEmail) == []
    ensures |RegisterIssues(AuthForm(email, "ab", "Ann", "Lee", "0771234567"), validEmail)| == 1
  {
  }

  /**
   * The error map of `handleSubmit`: each issue with a non-empty field stores its message under
   * the field, so a later issue for the same field overwrites an earlier one.
   */
  function FieldErrors(issues: seq<Issue>): (r: map<string, string>)
    ensures forall k :: k in r <==> k != "" && exists i :: 0 <= i < |issues| && issues[i].0 == k
  {
    if |issues| == 0 then map[]
    else
      var last := issues[|issues| - 1];
      var before := FieldErrors(issues[..|issues| - 1]);
      assert forall i :: 0 <= i < |issues| - 1 ==> issues[..|issues| - 1][i] == issues[i];
      if last.0 != "" then before[last.0 := last.1] else before
  }

  /** The message kept for a field is that of its last issue. */
  lemma {:induction false} FieldErrorsLastWins(issues: seq<Issue>, i: nat)
    requires i < |issues| && issues[i].0 != ""
    requires forall j :: i < j < |issues| ==> issues[j].0 != issues[i].0
    ensures issues[i].0 in FieldErrors(issues) && FieldErrors(issues)[issues[i].0] == issues[i].1
  {
    if i < |issues| - 1 {
      var prefix := issues[..|issues| - 1];
      assert prefix[i] == issues[i];
      FieldErrorsLastWins(prefix, i);
    }
  }

  /** What submitting does: show the field errors and send nothing, or send the request. */
  datatype Step = ShowErrors(errors: map<string, string>) | SendRegister(form: AuthForm) | SendLogin(email: string, password: string)
  {
    /** The error map once the step is taken: `setErrors({})` first, then the field errors if any. */
    function Errors(): map<string, string> {
      if ShowErrors? then errors else map[]
    }
  }

  /** The issues of the schema the current mode validates with. */
  function ActiveIssues(isRegister: bool, f: AuthForm, validEmail: string -> bool): seq<Issue> {
    if isRegister then RegisterIssues(f, validEmail) else LoginIssues(f, validEmail)
  }

  /**
   * `handleSubmit` up to the request: the errors are cleared, and then either the active schema's
   * issues become the field error map and nothing is sent, or the form is sent and the map stays empty.
   */
  function Submit(isRegister: bool, f: AuthForm, validEmail: string -> bool): (r: Step)
    ensures r.ShowErrors? <==> |ActiveIssues(isRegister, f, validEmail)| > 0
    ensures r.SendRegister? ==> isRegister && r.form == f
    ensures r.SendLogin? ==> !isRegister && r.email == f.email && r.password == f.password
    ensures r.ShowErrors? ==> |r.errors| > 0 && r.errors == FieldErrors(ActiveIssues(isRegister, f, validEmail))
    ensures !r.ShowErrors? ==> r.Errors() == map[]
  {
    var issues := ActiveIssues(isRegister, f, validEmail);
    if |issues| > 0 then
      assert issues[0].0 != "";
      assert issues[0].0 in FieldErrors(issues);
      ShowErrors(FieldErrors(issues))
    else if isRegister then SendRegister(f)
    else SendLogin(f.email, f.password)
  }

  /** Submitting the empty sign-up form marks all four length-checked fields. */
  lemma EmptyRegisterFormErrors(validEmail: string -> bool)
    ensures var r := Submit(true, EmptyForm, validEmail);
      r.ShowErrors? && "firstname" in r.errors && "lastname" in r.errors && "password" in r.errors && "phone" in r.errors
  {
    var issues := RegisterIssues(EmptyForm, validEmail);
    var k := |EmailIssue("", validEmail)|;
    assert issues[k].0 == "firstname" && issues[k + 1].0 == "lastname";
    assert issues[k + 2].0 == "password" && issues[k + 3].0 == "phone";
  }

  /** Submitting the empty sign-in form marks the password, with the message that asks for six characters. */
  lemma EmptyLoginFormErrors(validEmail: string -> bool)
    ensures var r := Submit(false, EmptyForm, validEmail);
      r.ShowErrors? && "password" in r.errors && r.errors["password"] == "Password must be at least 6 characters"
  {
    var issues := LoginIssues(EmptyForm, validEmail);
    FieldErrorsLastWins(issues, |issues| - 1);
  }

  /**
   * Any sign-up form whose password is under six characters is stopped, and the password error
   * reads "Password must be at least 6 characters", whatever the other fields hold.
   */
  lemma RegisterShortPasswordShown(f: AuthForm, validEmail: string -> bool)
    requires |f.password| < 6
    ensures Submit(true, f, validEmail).ShowErrors?
    ensures var e := Submit(true, f, validEmail).Errors();
      "password" in e && e["password"] == "Password must be at least 6 characters"
  {
    var front := EmailIssue(f.email, validEmail)
      + MinLength("firstname", f.firstname, 2, "First name must be at least 2 characters")
      + MinLength("lastname", f.lastname, 2, "Last name must be at least 2 characters");
    var phone := MinLength("phone", f.phone, 10, "Phone number must be at least 10 digits");
    var issues := RegisterIssues(f, validEmail);
    assert issues == front + [("password", "Password must be at least 6 characters")] + phone;
    var i := |front|;
    assert issues[i] == ("password", "Password must be at least 6 characters");
    assert forall j :: i < j < |issues| ==> issues[j] == phone[j - i - 1];
    FieldErrorsLastWins(issues, i);
  }

  /** `handleChange`: the field takes the value and its error is emptied; nothing else changes. */
  function Change(f: AuthForm, errors: map<string, string>, n: AuthField, v: string): (r: (AuthForm, map<string, string>))
    ensures Value(r.0, n) == v && forall m :: m != n ==> Value(r.0, m) == Value(f, m)
    ensures n.Name() in r.1 && r.1[n.Name()] == ""
    ensures forall k :: k != n.Name() ==> (k in r.1 <==> k in errors) && (k in errors ==> r.1[k] == errors[k])
  {
    var form := match n
      case Email => f.(email := v)
      case Password => f.(password := v)
      case Firstname => f.(firstname := v)
      case Lastname => f.(lastname := v)
      case Phone => f.(phone := v);
    (form, errors[n.Name() := ""])
  }

  /** `searchParams.get('mode') === 'register'`: the form the page opens with. */
  predicate StartsInRegister(q: Params) {
    Get(q, "mode") == Some("register")
  }

  /** The reply of `authAPI.register`: `_id`, whether `data` is truthy, and `message`. */
  datatype RegisterReply = RegisterReply(id: Option<string>, hasData: bool, message: Option<string>)

  /**
   * After the registration request: whether the form stays in register mode, and the error toast.
   * A reply with `_id` or `data` switches to sign-in; a thrown request reads "Something went wrong".
   */
  function AfterRegister(response: Fetched<RegisterReply>): (r: (bool, Option<string>))
    ensures !r.0 <==> response.Got? && (Truthy(response.body.id) || response.body.hasData)
    ensures r.1.None? <==> !r.0
    ensures response.Got? && r.1.Some? ==> r.1.value == OrElse(response.body.message, "Registration failed")
    ensures response.Failed? ==> r.1 == Some("Something went wrong")
  {
    match response
    case Failed => (true, Some("Something went wrong"))
    case Got(reply) =>
      if Truthy(reply.id) || reply.hasData then (false, None)
      else (true, Some(OrElse(reply.message, "Registration failed")))
  }

  /** A signed-in visitor is sent to the dashboard. */
  function PageGuard(user: Option<User>): (r: Guard)
    ensures r == Redirect("/dashboard") <==> IsAuthenticated(user)
    ensures r != Redirect("/dashboard") ==> r == Proceed
  {
    if IsAuthenticated(user) then Redirect("/dashboard") else Proceed
  }

  /** The error toast after a sign-in attempt: none on success (the page shows "Welcome back!" instead), else the context's error or "Login failed". */
  function LoginToast(outcome: LoginOutcome): (r: Option<string>)
    ensures r.None? <==> outcome.success
    ensures r.Some? ==> r.value == OrElse(outcome.error, "Login failed")
  {
    if outcome.success then None else Some(OrElse(outcome.error, "Login failed"))
  }

  /**
   * The sign-in round: no toast exactly when the login call brought back a truthy access token,
   * and then the page's own guard moves the new user on to the dashboard. A thrown call reads
   * "Network error", and a refused one the server's message or "Login failed".
   */
  lemma SignInOutcome(s: Session.Store, user: Option<User>, response: Fetched<Session.LoginReply>)
    ensures LoginToast(Login(s, user, response)).None? <==> response.Got? && Session.Accepted(response.body)
    ensures LoginToast(Login(s, user, response)).None? ==> PageGuard(Login(s, user, response).user) == Redirect("/dashboard")
    ensures response.Failed? ==> LoginToast(Login(s, user, response)) == Some("Network error")
    ensures response.Got? && !Session.Accepted(response.body) ==>
      LoginToast(Login(s, user, response)) == Some(OrElse(response.body.message, "Login failed"))
  {
  }
}
