/** The `registerUser` server action: a state machine over the credential
    store. Checks run in a fixed order — password confirmation, then field
    validation, then the duplicate-email lookup — and only then is a new user
    inserted, with the default tier `free`. */
module Register {
  import opened Wrappers
  import opened Tiers
  import opened FormValidation
  import opened Accounts

  datatype RegisterForm = RegisterForm(
    displayName: string, email: string, password: string, confirmPassword: string)

  /** What the action returns to the page. */
  datatype RegisterState = RegisterState(message: Option<string>, error: Option<string>, success: bool)

  const PasswordMismatch := "Passwords do not match."
  const DisplayNameEmpty := "Display name cannot be empty."
  const InvalidEmail := "Invalid email address."
  const PasswordTooShort := "Password must be at least 6 characters long."
  const DuplicateEmail := "User with this email already exists."
  const NothingInserted := "Failed to create account. Please try again."
  const RegistrationCrashed := "An unexpected error occurred during registration."
  const MinPasswordLength := 6
  const DefaultTier := Free

  /** The register schema's field checks, in field order. */
  function RegisterChecks(form: RegisterForm, env: Env): seq<FieldCheck>
  {
    [ FieldCheck(|form.displayName| >= 1, DisplayNameEmpty),
      FieldCheck(env.isEmail(form.email), InvalidEmail),
      FieldCheck(|form.password| >= MinPasswordLength, PasswordTooShort) ]
  }

  /** The register schema's constraints, stated directly. */
  predicate FieldsValid(form: RegisterForm, env: Env)
  {
    form.displayName != "" && env.isEmail(form.email) && |form.password| >= 6
  }

  /** The check list is the schema: it passes exactly on valid fields. */
  lemma RegisterChecksAreSchema(form: RegisterForm, env: Env)
    ensures AllPass(RegisterChecks(form, env)) <==> FieldsValid(form, env)
  {
    var checks := RegisterChecks(form, env);
    if AllPass(checks) {
      assert checks[0].ok && checks[1].ok && checks[2].ok;
    }
  }

  function Rejected(error: string): RegisterState
  {
    RegisterState(None, Some(error), false)
  }

  function WelcomeMessage(displayName: string): string
  {
    "Welcome, " + displayName + "! Your account has been created with a '" + TierName(DefaultTier)
    + "' tier. You can now try to log in (login functionality not yet implemented)."
  }

  /** The record a successful registration inserts. */
  function NewUser(form: RegisterForm, env: Env, salt: string): User
  {
    User(form.displayName, env.hash(form.password, salt), DefaultTier)
  }

  /** `after` is `before` with exactly one entry added: `u`, under an email
      `before` did not hold; every other entry is kept as it was. */
  predicate AddsOneEntry(before: Store, after: Store, email: string, u: User)
  {
    && email !in before
    && email in after
    && after.Keys == before.Keys + {email}
    && |after| == |before| + 1
    && after[email] == u
    && (forall e :: e in before ==> after[e] == before[e])
  }

  /** Inserting under a new key adds exactly that entry. */
  lemma InsertAddsOneEntry(store: Store, email: string, u: User)
    requires email !in store
    ensures AddsOneEntry(store, store[email := u], email, u)
  {
  }

  /** The part of the action after validation: the duplicate lookup, then
      the INSERT, whose outcome `fault` decides. */
  function LookupAndInsert(store: Store, form: RegisterForm, env: Env, salt: string, fault: DbFault)
    : (out: (RegisterState, Store))
    ensures out.0.success <==> out.0.message.Some? && out.0.error.None?
    ensures !out.0.success ==> out.0.error.Some? && out.1 == store
    ensures form.email in store ==> out.0 == Rejected(DuplicateEmail)
    ensures out.0.success <==> form.email !in store && fault == NoFault
    // the INSERT's failures, each with its own answer
    ensures form.email !in store && fault == UniqueConstraint ==> out.0 == Rejected(DuplicateEmail)
    ensures form.email !in store && fault == NoRowsChanged ==> out.0 == Rejected(NothingInserted)
    ensures form.email !in store && fault == OtherError ==> out.0 == Rejected(RegistrationCrashed)
    ensures out.0.success ==>
              && out.0.message == Some(WelcomeMessage(form.displayName))
              && AddsOneEntry(store, out.1, form.email, NewUser(form, env, salt))
  {
    if form.email in store then
      (Rejected(DuplicateEmail), store)
    else
      match fault
      case NoFault =>
        InsertAddsOneEntry(store, form.email, NewUser(form, env, salt));
        (RegisterState(Some(WelcomeMessage(form.displayName)), None, true),
         store[form.email := NewUser(form, env, salt)])
      case UniqueConstraint => (Rejected(DuplicateEmail), store)
      case NoRowsChanged => (Rejected(NothingInserted), store)
      case OtherError => (Rejected(RegistrationCrashed), store)
  }

  /** The action: the returned state and the store after it. `salt` is the
      salt bcrypt draws at random; `fault` is what the INSERT raises. */
  function RegisterUser(store: Store, form: RegisterForm, env: Env, salt: string, fault: DbFault)
    : (out: (RegisterState, Store))
    // success means a welcome message and no error
    ensures out.0.success <==> out.0.message.Some? && out.0.error.None?
    // a failure reports an error and leaves the store as it was
    ensures !out.0.success ==> out.0.error.Some? && out.1 == store
    // the password confirmation is checked first
    ensures form.password != form.confirmPassword ==> out.0 == Rejected(PasswordMismatch)
    // then the schema; its error lists the failing fields' messages
    ensures form.password == form.confirmPassword && !FieldsValid(form, env) ==>
              out.0 == Rejected(JoinWithSpaces(FailedMessages(RegisterChecks(form, env))))
    // then the duplicate lookup
    ensures form.password == form.confirmPassword && FieldsValid(form, env) && form.email in store ==>
              out.0 == Rejected(DuplicateEmail)
    // an INSERT that fails: a UNIQUE violation reads as a duplicate, no changed
    // row asks to try again, and any other exception is unexpected
    ensures form.password == form.confirmPassword && FieldsValid(form, env) && form.email !in store ==>
              && (fault == UniqueConstraint ==> out.0 == Rejected(DuplicateEmail))
              && (fault == NoRowsChanged ==> out.0 == Rejected(NothingInserted))
              && (fault == OtherError ==> out.0 == Rejected(RegistrationCrashed))
    // success exactly when every check passes and the INSERT goes through
    ensures out.0.success <==>
              form.password == form.confirmPassword && FieldsValid(form, env)
              && form.email !in store && fault == NoFault
    // on success exactly one entry is added, under the email, and nothing else changes
    ensures out.0.success ==>
              && out.0.message == Some(WelcomeMessage(form.displayName))
              && AddsOneEntry(store, out.1, form.email, User(form.displayName, env.hash(form.password, salt), Free))
  {
    if form.password != form.confirmPassword then
      (Rejected(PasswordMismatch), store)
    else
      RegisterChecksAreSchema(form, env);
      match SchemaError(RegisterChecks(form, env))
      case Some(msg) => (Rejected(msg), store)
      case None =>
        LookupAndInsert(store, form, env, salt, fault)
  }

  /** A UNIQUE-constraint failure at the INSERT reads exactly like the
      duplicate found by the lookup: the caller cannot tell them apart. */
  lemma UniqueViolationReadsAsDuplicate(store: Store, form: RegisterForm, env: Env, salt: string)
    requires form.password == form.confirmPassword && FieldsValid(form, env)
    ensures RegisterUser(store, form, env, salt, UniqueConstraint).0 == Rejected(DuplicateEmail)
    ensures RegisterUser(store, form, env, salt, UniqueConstraint).1 == store
  {
  }

  /** When every field is invalid, the error names all three, in the
      schema's field order, separated by single spaces. */
  lemma AllFieldsInvalidMessage(store: Store, form: RegisterForm, env: Env, salt: string, fault: DbFault)
    requires form.password == form.confirmPassword
    requires form.displayName == "" && !env.isEmail(form.email) && |form.password| < MinPasswordLength
    ensures RegisterUser(store, form, env, salt, fault).0.error
            == Some(DisplayNameEmpty + " " + InvalidEmail + " " + PasswordTooShort)
  {
    var checks := RegisterChecks(form, env);
    ThreeFailuresInOrder(checks[0], checks[1], checks[2]);
    assert checks == [checks[0], checks[1], checks[2]];
    JoinOfThree(DisplayNameEmpty, InvalidEmail, PasswordTooShort);
    assert !FieldsValid(form, env);
  }

  /** Registering succeeds at most once per email: after a successful
      registration, any later registration under that email is refused with
      the duplicate-email error, and the store stays as it is. */
  lemma SecondRegistrationIsDuplicate(
    store: Store, form: RegisterForm, again: RegisterForm, env: Env, salt: string, salt': string, fault: DbFault)
    requires RegisterUser(store, form, env, salt, NoFault).0.success
    requires again.email == form.email
    requires again.password == again.confirmPassword && FieldsValid(again, env)
    ensures var store' := RegisterUser(store, form, env, salt, NoFault).1;
            RegisterUser(store', again, env, salt', fault) == (Rejected(DuplicateEmail), store')
  {
  }
}
