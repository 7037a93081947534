/** The `loginUser` server action. It validates the fields, looks the email
    up, and compares the password with the stored hash. It only reads the
    store: the action returns a state and no store, so it cannot change one. */
module Login {
  import opened Wrappers
  import opened FormValidation
  import opened Accounts
  import Register

  datatype LoginForm = LoginForm(email: string, password: string)

  /** What the action returns to the page. */
  datatype LoginState = LoginState(
    message: Option<string>, error: Option<string>, success: bool, redirectTo: Option<string>)

  const InvalidEmail := "Invalid email address."
  const PasswordEmpty := "Password cannot be empty."
  const BadCredentials := "Invalid email or password."
  const LoginCrashed := "An unexpected error occurred during login."

  /** The login schema's field checks, in field order. */
  function LoginChecks(form: LoginForm, env: Env): seq<FieldCheck>
  {
    [ FieldCheck(env.isEmail(form.email), InvalidEmail),
      FieldCheck(|form.password| >= 1, PasswordEmpty) ]
  }

  /** The login schema's constraints, stated directly. */
  predicate FieldsValid(form: LoginForm, env: Env)
  {
    env.isEmail(form.email) && form.password != ""
  }

  lemma LoginChecksAreSchema(form: LoginForm, env: Env)
    ensures AllPass(LoginChecks(form, env)) <==> FieldsValid(form, env)
  {
    var checks := LoginChecks(form, env);
    if AllPass(checks) {
      assert checks[0].ok && checks[1].ok;
    }
  }

  function Rejected(error: string): LoginState
  {
    LoginState(None, Some(error), false, None)
  }

  function WelcomeBack(displayName: string): string
  {
    "Login successful! Welcome back, " + displayName + ". (Session management not yet implemented)"
  }

  /** True when the store knows the email and the password matches its hash. */
  predicate CredentialsMatch(store: Store, form: LoginForm, env: Env)
  {
    form.email in store && env.compare(form.password, store[form.email].hashedPassword)
  }

  /** The action. `fault` is an exception raised while the database is
      consulted; every such exception gives the same generic error. */
  function LoginUser(store: Store, form: LoginForm, env: Env, fault: DbFault): (r: LoginState)
    // success means a welcome message and no error
    ensures r.success <==> r.message.Some? && r.error.None?
    ensures !r.success ==> r.error.Some?
    // no path sets a redirect target
    ensures r.redirectTo == None
    // invalid fields are reported with the failing fields' messages
    ensures !FieldsValid(form, env) ==>
              r == Rejected(JoinWithSpaces(FailedMessages(LoginChecks(form, env))))
    // success exactly for valid fields whose email is known and whose password matches
    ensures r.success <==> FieldsValid(form, env) && fault == NoFault && CredentialsMatch(store, form, env)
    ensures r.success ==> r.message == Some(WelcomeBack(store[form.email].displayName))
    // an unknown email and a wrong password give one and the same answer
    ensures FieldsValid(form, env) && fault == NoFault && !CredentialsMatch(store, form, env) ==>
              r == Rejected(BadCredentials)
    // any database failure after validation gives the unexpected-error answer
    ensures FieldsValid(form, env) && fault != NoFault ==> r == Rejected(LoginCrashed)
  {
    LoginChecksAreSchema(form, env);
    match SchemaError(LoginChecks(form, env))
    case Some(msg) => Rejected(msg)
    case None =>
      if fault != NoFault then Rejected(LoginCrashed)
      else if form.email !in store then Rejected(BadCredentials)
      else
        var user := store[form.email];
        if !env.compare(form.password, user.hashedPassword) then Rejected(BadCredentials)
        else LoginState(Some(WelcomeBack(user.displayName)), None, true, None)
  }

  /** When both fields are invalid, the error names the email first and the
      password second, separated by a single space. */
  lemma BothFieldsInvalidMessage(store: Store, form: LoginForm, env: Env, fault: DbFault)
    requires !env.isEmail(form.email) && form.password == ""
    ensures LoginUser(store, form, env, fault).error == Some(InvalidEmail + " " + PasswordEmpty)
  {
    var checks := LoginChecks(form, env);
    assert checks == [checks[0]] + [checks[1]];
    FailedMessagesOfConcat([checks[0]], [checks[1]]);
    assert FailedMessages(checks) == [InvalidEmail, PasswordEmpty];
    assert [InvalidEmail, PasswordEmpty][1..] == [PasswordEmpty];
  }

  /** Invalid fields are refused before the database is consulted: the answer
      does not depend on the store or on any database fault. */
  lemma ValidationPrecedesLookup(s1: Store, s2: Store, form: LoginForm, env: Env, f1: DbFault, f2: DbFault)
    requires !FieldsValid(form, env)
    ensures LoginUser(s1, form, env, f1) == LoginUser(s2, form, env, f2)
  {
  }

  /** An unknown email and a known email with a wrong password are answered
      identically, so the answer does not reveal which emails are registered. */
  lemma UnknownEmailLooksLikeWrongPassword(unknown: Store, known: Store, form: LoginForm, env: Env)
    requires form.email !in unknown
    requires form.email in known && !env.compare(form.password, known[form.email].hashedPassword)
    ensures LoginUser(unknown, form, env, NoFault) == LoginUser(known, form, env, NoFault)
  {
  }

  /** Round trip: once a registration has succeeded, logging in with the same
      email and password succeeds and greets the registered display name. */
  lemma RegisterThenLogin(store: Store, form: Register.RegisterForm, env: Env, salt: string)
    requires HashSound(env)
    requires Register.RegisterUser(store, form, env, salt, NoFault).0.success
    ensures var store' := Register.RegisterUser(store, form, env, salt, NoFault).1;
            LoginUser(store', LoginForm(form.email, form.password), env, NoFault)
              == LoginState(Some(WelcomeBack(form.displayName)), None, true, None)
  {
    var store' := Register.RegisterUser(store, form, env, salt, NoFault).1;
    assert store'[form.email].hashedPassword == env.hash(form.password, salt);
    assert env.compare(form.password, env.hash(form.password, salt));
  }
}
