/**
 The sign-up form: six registered fields with their rules, the submission
 that posts the form to `/api/auth/signup` and resets it, and the error
 messages the page shows under each field.
 */
module SignUp {
  import opened Wrappers
  import opened FormRules
  import opened Browser

  /** The `register` calls of the form, in page order. */
  const Registry: seq<Field> := [
    Field("firstname", Rules(Some("First Name is required"), None, None, None)),
    Field("lastname", Rules(Some("Last Name is required"), None, None, None)),
    Field("mobile", Rules(Some("Mobile number is required"), None,
      Some(PatternRule(TenDigits, "Enter a valid 10-digit number")), None)),
    Field("email", Rules(Some("Email is required"), None, None, None)),
    Field("password", Rules(Some("Password is required"),
      Some(MinLengthRule(6, "Password must be at least 6 characters")), None, None)),
    Field("confirmPassword", Rules(Some("Confirm your password"), None, None,
      Some(SameAsRule("password", "Passwords do not match"))))
  ]

  function SignUpErrors(values: Values): map<string, string>
  {
    Errors(Registry, values)
  }

  lemma RegistryDistinct()
    ensures DistinctNames(Registry)
  {
  }

  /** First and last name carry only a `required` rule. */
  lemma NameRules(values: Values)
    ensures Lookup(SignUpErrors(values), "firstname") ==
      if ValueOf(values, "firstname") == "" then Some("First Name is required") else None
    ensures Lookup(SignUpErrors(values), "lastname") ==
      if ValueOf(values, "lastname") == "" then Some("Last Name is required") else None
  {
    RegistryDistinct();
    ErrorOfField(Registry, values, 0);
    ErrorOfField(Registry, values, 1);
  }

  /** The mobile number is accepted exactly when it is ten ASCII digits. */
  lemma MobileRule(values: Values)
    ensures "mobile" !in SignUpErrors(values) <==> TenDigitsMatch(ValueOf(values, "mobile"))
    ensures ValueOf(values, "mobile") == "" ==>
      Lookup(SignUpErrors(values), "mobile") == Some("Mobile number is required")
    ensures ValueOf(values, "mobile") != "" && !TenDigitsMatch(ValueOf(values, "mobile")) ==>
      Lookup(SignUpErrors(values), "mobile") == Some("Enter a valid 10-digit number")
  {
    RegistryDistinct();
    ErrorOfField(Registry, values, 2);
  }

  /** The e-mail address has only a `required` rule: any non-empty text passes. */
  lemma EmailRule(values: Values)
    ensures Lookup(SignUpErrors(values), "email") ==
      if ValueOf(values, "email") == "" then Some("Email is required") else None
  {
    RegistryDistinct();
    ErrorOfField(Registry, values, 3);
  }

  /** The password is accepted exactly when it has at least six characters. */
  lemma PasswordRule(values: Values)
    ensures "password" !in SignUpErrors(values) <==> |ValueOf(values, "password")| >= 6
    ensures ValueOf(values, "password") == "" ==>
      Lookup(SignUpErrors(values), "password") == Some("Password is required")
    ensures 0 < |ValueOf(values, "password")| < 6 ==>
      Lookup(SignUpErrors(values), "password") == Some("Password must be at least 6 characters")
  {
    RegistryDistinct();
    ErrorOfField(Registry, values, 4);
  }

  /** The confirmation is accepted exactly when it is non-empty and equals the current password. */
  lemma ConfirmPasswordRule(values: Values)
    ensures "confirmPassword" !in SignUpErrors(values) <==>
      ValueOf(values, "confirmPassword") != "" && ValueOf(values, "confirmPassword") == ValueOf(values, "password")
    ensures ValueOf(values, "confirmPassword") == "" ==>
      Lookup(SignUpErrors(values), "confirmPassword") == Some("Confirm your password")
    ensures ValueOf(values, "confirmPassword") != "" && ValueOf(values, "confirmPassword") != ValueOf(values, "password") ==>
      Lookup(SignUpErrors(values), "confirmPassword") == Some("Passwords do not match")
  {
    RegistryDistinct();
    ErrorOfField(Registry, values, 5);
  }

  /** Everything the form demands, field by field. */
  ghost predicate Acceptable(values: Values)
  {
    && ValueOf(values, "firstname") != ""
    && ValueOf(values, "lastname") != ""
    && TenDigitsMatch(ValueOf(values, "mobile"))
    && ValueOf(values, "email") != ""
    && |ValueOf(values, "password")| >= 6
    && ValueOf(values, "confirmPassword") == ValueOf(values, "password")
  }

  /** The form passes validation exactly when every field rule holds. */
  lemma SignUpAcceptedIff(values: Values)
    ensures SignUpErrors(values) == map[] <==> Acceptable(values)
  {
    RegistryDistinct();
    ErrorsEmptyIff(Registry, values);
    NameRules(values);
    MobileRule(values);
    EmailRule(values);
    PasswordRule(values);
    ConfirmPasswordRule(values);
    if Acceptable(values) {
      forall i | 0 <= i < |Registry|
        ensures FieldError(Registry, values, i).None?
      {
        ErrorOfField(Registry, values, i);
      }
    }
  }

  /** What a press of the submit button produces: the request sent, if any, and the form's values and errors afterwards. */
  datatype Submission = Submission(request: Option<Request>, values: Values, errors: map<string, string>)

  /**
   A press of the submit button on a form holding `values` and showing
   `errors`. The e-mail input has `type="email"` and the form no `noValidate`,
   so the browser first refuses a non-empty value that is not an e-mail
   address, and then nothing else happens. Otherwise `handleSubmit(onSubmit)`
   posts a valid form whole and resets it, or keeps an invalid one and reports
   its errors.
   */
  function HandleSubmit(values: Values, errors: map<string, string>): (s: Submission)
    ensures s.request.Some? <==> NativeEmailOk(ValueOf(values, "email")) && Acceptable(values)
    ensures s.request.Some? ==>
      s.request.value == Request("POST", "/api/auth/signup", values) && s.values == map[] && s.errors == map[]
    ensures !NativeEmailOk(ValueOf(values, "email")) ==> s.request.None? && s.values == values && s.errors == errors
    ensures NativeEmailOk(ValueOf(values, "email")) && !Acceptable(values) ==>
      s.values == values && s.errors == SignUpErrors(values) && s.errors != map[]
  {
    SignUpAcceptedIff(values);
    if !NativeEmailOk(ValueOf(values, "email")) then Submission(None, values, errors)
    else
      var found := SignUpErrors(values);
      if found == map[] then Submission(Some(Request("POST", "/api/auth/signup", values)), map[], map[])
      else Submission(None, values, found)
  }

  // ---------------------------------------------------------------------------
  // Which error messages the page shows
  // ---------------------------------------------------------------------------

  /** The keys the page reads error messages from, in page order (first two misspelt). */
  const DisplayKeysAsWritten: seq<string> :=
    ["firstName", "lastName", "mobile", "email", "password", "confirmPassword"]

  /** The keys the page should read: the registered names. */
  const DisplayKeys: seq<string> :=
    ["firstname", "lastname", "mobile", "email", "password", "confirmPassword"]

  /** The messages `errors.<key> && <p>{errors.<key>.message}</p>` renders, in page order. */
  function Shown(errors: map<string, string>, keys: seq<string>): seq<string>
    decreases |keys|
  {
    if |keys| == 0 then []
    else (if keys[0] in errors then [errors[keys[0]]] else []) + Shown(errors, keys[1..])
  }

  lemma {:induction false} ShownIncludes(errors: map<string, string>, keys: seq<string>, i: nat)
    requires i < |keys| && keys[i] in errors
    ensures errors[keys[i]] in Shown(errors, keys)
    decreases i
  {
    if i > 0 {
      ShownIncludes(errors, keys[1..], i - 1);
    }
  }

  /** As written, the first- and last-name messages are never shown, whatever the input. */
  lemma NameMessagesNeverShownAsWritten(values: Values)
    ensures Shown(SignUpErrors(values), DisplayKeysAsWritten) == Shown(SignUpErrors(values), DisplayKeysAsWritten[2..])
  {
    ErrorKeysRegistered(Registry, values);
    assert "firstName" !in SignUpErrors(values);
    assert "lastName" !in SignUpErrors(values);
    assert DisplayKeysAsWritten[1..][1..] == DisplayKeysAsWritten[2..];
  }

  lemma {:induction false} ShownNothing(errors: map<string, string>, keys: seq<string>)
    requires forall i :: 0 <= i < |keys| ==> keys[i] !in errors
    ensures Shown(errors, keys) == []
    decreases |keys|
  {
    if |keys| > 0 {
      ShownNothing(errors, keys[1..]);
    }
  }

  /**
   A blank first name with every other field valid (the e-mail address also
   to the browser) blocks the submission with an error on the first name, yet
   as written the page shows no message at all.
   */
  lemma BlankFirstNameBlocksSilently(values: Values, errors: map<string, string>)
    requires ValueOf(values, "firstname") == "" && ValueOf(values, "lastname") != ""
    requires TenDigitsMatch(ValueOf(values, "mobile")) && ValidEmailAddress(ValueOf(values, "email"))
    requires |ValueOf(values, "password")| >= 6
    requires ValueOf(values, "confirmPassword") == ValueOf(values, "password")
    ensures HandleSubmit(values, errors).request.None?
    ensures HandleSubmit(values, errors).errors == SignUpErrors(values) == map["firstname" := "First Name is required"]
    ensures Shown(HandleSubmit(values, errors).errors, DisplayKeysAsWritten) == []
  {
    var found := SignUpErrors(values);
    NameRules(values);
    MobileRule(values);
    EmailRule(values);
    PasswordRule(values);
    ConfirmPasswordRule(values);
    ErrorKeysRegistered(Registry, values);
    assert found == map["firstname" := "First Name is required"] by {
      forall k | k in found
        ensures k == "firstname"
      {
        var i :| 0 <= i < |Registry| && Registry[i].name == k;
      }
    }
    NameMessagesNeverShownAsWritten(values);
    ShownNothing(found, DisplayKeysAsWritten[2..]);
  }

  lemma ExampleAddressValid()
    ensures ValidEmailAddress("a@b.in")
  {
    assert IndexOfFrom("a@b.in", '@', 0) == Some(1);
    assert "a@b.in"[2..] == "b.in";
    assert IndexOfFrom("b.in", '.', 0) == Some(1);
    assert "b.in"[..1] == "b" && "b.in"[2..] == "in";
    assert IndexOfFrom("in", '.', 0) == None;
  }

  /** One such form, filled in. */
  const BlankFirstNameForm: Values := map["firstname" := "", "lastname" := "Rao", "mobile" := "9876543210",
                                          "email" := "a@b.in", "password" := "secret", "confirmPassword" := "secret"]

  lemma BlankFirstNameFormValues()
    ensures ValueOf(BlankFirstNameForm, "firstname") == "" && ValueOf(BlankFirstNameForm, "lastname") == "Rao"
    ensures ValueOf(BlankFirstNameForm, "mobile") == "9876543210" && ValueOf(BlankFirstNameForm, "email") == "a@b.in"
    ensures ValueOf(BlankFirstNameForm, "password") == "secret" && ValueOf(BlankFirstNameForm, "confirmPassword") == "secret"
  {
  }

  lemma BlankFirstNameExample()
    ensures HandleSubmit(BlankFirstNameForm, map[]).request.None?
    ensures Shown(HandleSubmit(BlankFirstNameForm, map[]).errors, DisplayKeysAsWritten) == []
  {
    BlankFirstNameFormValues();
    ExampleAddressValid();
    BlankFirstNameBlocksSilently(BlankFirstNameForm, map[]);
  }

  /** Display keys that are exactly the registered names show every reported error. */
  lemma RegisteredKeysShowAll(registry: seq<Field>, values: Values, keys: seq<string>)
    requires |keys| == |registry|
    requires forall i :: 0 <= i < |registry| ==> keys[i] == registry[i].name
    ensures forall k :: k in Errors(registry, values) ==> Errors(registry, values)[k] in Shown(Errors(registry, values), keys)
  {
    var errors := Errors(registry, values);
    ErrorKeysRegistered(registry, values);
    forall k | k in errors
      ensures errors[k] in Shown(errors, keys)
    {
      var i :| 0 <= i < |registry| && registry[i].name == k;
      ShownIncludes(errors, keys, i);
    }
  }

  /** Reading the registered names, every reported error is shown. */
  lemma EveryErrorShown(values: Values)
    ensures forall k :: k in SignUpErrors(values) ==> SignUpErrors(values)[k] in Shown(SignUpErrors(values), DisplayKeys)
  {
    RegisteredKeysShowAll(Registry, values, DisplayKeys);
  }
}
