/** What the scanner and the testing analyzer pages share: the blank-input
    guard built on `String.prototype.trim`, the reading of a thrown value,
    and the toast notifications. */
module Submission {

  const EmptyCode := "Smart contract code cannot be empty."
  const UnknownError := "An unknown error occurred."

  /** The characters `trim` removes: ECMAScript WhiteSpace (tab, vertical tab,
      form feed, space, no-break space, zero-width no-break space and the
      other space separators) and LineTerminator (LF, CR, U+2028, U+2029). */
  predicate IsTrimmable(c: char)
  {
    var n := c as int;
    n == 0x09 || n == 0x0A || n == 0x0B || n == 0x0C || n == 0x0D || n == 0x20
    || n == 0xA0 || n == 0x1680 || (0x2000 <= n <= 0x200A) || n == 0x2028
    || n == 0x2029 || n == 0x202F || n == 0x205F || n == 0x3000 || n == 0xFEFF
  }

  predicate AllTrimmable(s: string)
  {
    forall i :: 0 <= i < |s| ==> IsTrimmable(s[i])
  }

  /** The input without its leading trimmable characters. */
  function TrimStart(s: string): (t: string)
    ensures |t| <= |s| && t == s[|s| - |t|..]
    ensures AllTrimmable(s[..|s| - |t|])
    ensures t == [] || !IsTrimmable(t[0])
  {
    if |s| > 0 && IsTrimmable(s[0]) then
      var t := TrimStart(s[1..]);
      assert s[..|s| - |t|] == [s[0]] + s[1..][..|s| - 1 - |t|];
      t
    else s
  }

  /** The input without its trailing trimmable characters. */
  function TrimEnd(s: string): (t: string)
    ensures t <= s
    ensures AllTrimmable(s[|t|..])
    ensures t == [] || !IsTrimmable(t[|t| - 1])
  {
    if |s| > 0 && IsTrimmable(s[|s| - 1]) then
      var t := TrimEnd(s[..|s| - 1]);
      assert s[|t|..] == s[..|s| - 1][|t|..] + [s[|s| - 1]];
      t
    else s
  }

  /** JavaScript's `trim` of a string: empty exactly when every character of the input is
      trimmable, and otherwise starting and ending with a character that
      is not. */
  function Trim(s: string): (t: string)
    ensures t == [] <==> AllTrimmable(s)
    ensures t != [] ==> !IsTrimmable(t[0]) && !IsTrimmable(t[|t| - 1])
    ensures |t| <= |s|
  {
    TrimIsEmptyOnlyWhenAllTrimmable(s);
    TrimEnd(TrimStart(s))
  }

  lemma TrimIsEmptyOnlyWhenAllTrimmable(s: string)
    ensures TrimEnd(TrimStart(s)) == [] <==> AllTrimmable(s)
    ensures TrimEnd(TrimStart(s)) != [] ==> !IsTrimmable(TrimEnd(TrimStart(s))[0])
  {
    var u := TrimStart(s);
    var t := TrimEnd(u);
    if t == [] {
      assert AllTrimmable(u) by { assert u[|t|..] == u; }
      assert u == [];
      assert s[..|s|] == s;
    } else {
      assert t[0] == u[0];
    }
  }

  /** A trimmable prefix cut from a string, then a trimmable suffix cut from
      what is left, leave a contiguous part of the string between two
      trimmable ends. */
  lemma CutEndsLeaveInfix(s: string, u: string, t: string)
    requires |u| <= |s| && u == s[|s| - |u|..] && AllTrimmable(s[..|s| - |u|])
    requires t <= u && AllTrimmable(u[|t|..])
    ensures exists i, j :: 0 <= i <= j <= |s| && t == s[i..j]
                           && AllTrimmable(s[..i]) && AllTrimmable(s[j..])
  {
    var i := |s| - |u|;
    var j := i + |t|;
    assert t == s[i..j] by { assert t == u[..|t|]; }
    assert s[j..] == u[|t|..];
    assert 0 <= i <= j <= |s| && t == s[i..j] && AllTrimmable(s[..i]) && AllTrimmable(s[j..]);
  }

  /** The trimmed input is a contiguous part of the input, and what was cut
      away before and after it is trimmable characters only. */
  lemma TrimIsInfix(s: string)
    ensures exists i, j :: 0 <= i <= j <= |s| && Trim(s) == s[i..j]
                           && AllTrimmable(s[..i]) && AllTrimmable(s[j..])
  {
    var u := TrimStart(s);
    var t := TrimEnd(u);
    assert Trim(s) == t;
    CutEndsLeaveInfix(s, u, t);
  }

  /** Code the pages treat as empty: trimming leaves nothing, because every
      character is trimmable. */
  predicate IsBlank(code: string)
  {
    Trim(code) == []
  }

  /** A blank input is exactly one without a non-trimmable character. */
  lemma BlankIffNoContent(code: string)
    ensures IsBlank(code) <==> !exists i :: 0 <= i < |code| && !IsTrimmable(code[i])
  {
  }

  /** What a failed call throws: an `Error` with a message, or another value. */
  datatype Thrown = ErrorObject(message: string) | OtherValue

  /** The text a failure shows: an `Error`'s own message, and a fixed text
      for any other thrown value. */
  function ThrownMessage(e: Thrown): string
  {
    match e
    case ErrorObject(m) => m
    case OtherValue => UnknownError
  }

  /** The outcome of the external analysis call, an oracle of the model. */
  datatype CallOutcome<T> = Returned(value: T) | Threw(thrown: Thrown)

  datatype ToastVariant = DefaultToast | DestructiveToast

  datatype Toast = Toast(title: string, description: string, variant: ToastVariant)

  /** The toast a failed call raises. */
  function FailureToast(title: string, e: Thrown): Toast
  {
    Toast(title, "An error occurred: " + ThrownMessage(e), DestructiveToast)
  }
}
