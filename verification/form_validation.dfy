/** Field validation of the register and login forms.

    Both server actions validate their fields against a schema, and on failure
    report every failing field's message, in the schema's field order, joined
    by single spaces. A schema is modelled as the list of its field checks:
    each check knows whether it passed and which message it reports if not. */
module FormValidation {
  import opened Wrappers

  datatype FieldCheck = FieldCheck(ok: bool, message: string)

  /** True when every check of the schema passed. */
  predicate AllPass(checks: seq<FieldCheck>)
  {
    forall i :: 0 <= i < |checks| ==> checks[i].ok
  }

  /** The messages of the failing checks, in schema order, one per failing
      check. A single check contributes its message exactly when it fails;
      `FailedMessagesOfConcat` shows that the list of a schema is the lists
      of its parts in order, which fixes order and multiplicity. */
  function FailedMessages(checks: seq<FieldCheck>): (msgs: seq<string>)
    ensures |checks| == 1 ==> msgs == (if checks[0].ok then [] else [checks[0].message])
    ensures |msgs| <= |checks|
    ensures msgs == [] <==> AllPass(checks)
    ensures forall m :: m in msgs ==>
              exists i :: 0 <= i < |checks| && !checks[i].ok && checks[i].message == m
    ensures forall i :: 0 <= i < |checks| && !checks[i].ok ==> checks[i].message in msgs
  {
    if checks == [] then []
    else
      var rest := FailedMessages(checks[1..]);
      assert forall i :: 1 <= i < |checks| ==> checks[i] == checks[1..][i - 1];
      if checks[0].ok then rest else [checks[0].message] + rest
  }

  /** The messages joined with a single space between neighbours. The text
      starts with the first message. */
  function JoinWithSpaces(msgs: seq<string>): (s: string)
    ensures msgs == [] ==> s == ""
    ensures |msgs| == 1 ==> s == msgs[0]
    ensures msgs != [] ==> msgs[0] <= s
  {
    if msgs == [] then ""
    else if |msgs| == 1 then msgs[0]
    else msgs[0] + " " + JoinWithSpaces(msgs[1..])
  }

  /** Splitting a schema splits its failure messages at the same place:
      the messages of the first part come first, in order. */
  lemma {:induction false} FailedMessagesOfConcat(a: seq<FieldCheck>, b: seq<FieldCheck>)
    ensures FailedMessages(a + b) == FailedMessages(a) + FailedMessages(b)
  {
    if a == [] {
      assert a + b == b;
    } else {
      var ab := a + b;
      assert ab[0] == a[0] && ab[1..] == a[1..] + b;
      FailedMessagesOfConcat(a[1..], b);
    }
  }

  /** Joining two non-empty lists puts one space between their joins. */
  lemma {:induction false} JoinOfConcat(a: seq<string>, b: seq<string>)
    requires a != [] && b != []
    ensures JoinWithSpaces(a + b) == JoinWithSpaces(a) + " " + JoinWithSpaces(b)
  {
    if |a| == 1 {
      assert (a + b)[1..] == b;
    } else {
      assert (a + b)[1..] == a[1..] + b;
      JoinOfConcat(a[1..], b);
    }
  }

  /** The error a schema reports: none when every check passed, otherwise the
      failing fields' messages joined. */
  function SchemaError(checks: seq<FieldCheck>): (e: Option<string>)
    ensures e == None <==> AllPass(checks)
    ensures e.Some? ==> e.value == JoinWithSpaces(FailedMessages(checks))
  {
    var msgs := FailedMessages(checks);
    if msgs == [] then None else Some(JoinWithSpaces(msgs))
  }

  /** A failing schema whose messages are non-empty reports a non-empty
      error, so the pages that test the error for truthiness do show it. */
  lemma {:induction false} FailingSchemaErrorIsNonEmpty(checks: seq<FieldCheck>)
    requires !AllPass(checks)
    requires forall i :: 0 <= i < |checks| ==> checks[i].message != ""
    ensures SchemaError(checks).Some? && SchemaError(checks).value != ""
  {
    var msgs := FailedMessages(checks);
    assert msgs != [];
    assert msgs[0] in msgs;
    assert msgs[0] != "";
  }

  /** Three messages are joined with a space after the first and second. */
  lemma JoinOfThree(a: string, b: string, c: string)
    ensures JoinWithSpaces([a, b, c]) == a + " " + b + " " + c
  {
    assert [a, b, c][1..] == [b, c];
    assert [b, c][1..] == [c];
  }

  /** Three failing checks report their three messages in order. */
  lemma ThreeFailuresInOrder(x: FieldCheck, y: FieldCheck, z: FieldCheck)
    requires !x.ok && !y.ok && !z.ok
    ensures FailedMessages([x, y, z]) == [x.message, y.message, z.message]
  {
    assert FailedMessages([z]) == [z.message];
    assert [y, z][1..] == [z];
    assert FailedMessages([y, z]) == [y.message, z.message];
    assert [x, y, z][1..] == [y, z];
  }
}
