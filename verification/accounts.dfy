/** The credential store the register and login actions share.

    The store is the `users` table as the actions use it: one record per
    email (the email column is UNIQUE, so the email is the key), holding the
    display name, the bcrypt hash of the password and the tier. The libraries
    the actions call (zod's email check and bcrypt) are given as an `Env` of
    functions, and database exceptions as a `DbFault`. */
module Accounts {
  import opened Tiers

  datatype User = User(displayName: string, hashedPassword: string, tier: Tier)

  /** Email -> user record. A map has each key once, which is the UNIQUE
      constraint on the email column. */
  type Store = map<string, User>

  /** The library behaviour the actions depend on: zod's email format check,
      bcrypt's hash of a password under a salt, and bcrypt's comparison of a
      password with a stored hash. */
  datatype Env = Env(
    isEmail: string -> bool,
    hash: (string, string) -> string,
    compare: (string, string) -> bool)

  /** What bcrypt guarantees: a password matches every hash made of it. */
  ghost predicate HashSound(env: Env)
  {
    forall pw, salt :: env.compare(pw, env.hash(pw, salt))
  }

  /** The exception, if any, the database raises while an action runs:
      a UNIQUE-constraint violation (another writer took the email), an
      INSERT that reports no changed rows, or any other error. */
  datatype DbFault = NoFault | UniqueConstraint | NoRowsChanged | OtherError
}
