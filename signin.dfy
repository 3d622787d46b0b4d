/**
 The sign-in form: two fields with their rules, the payload it posts to
 `/api/auth/signin`, and the effect that runs when the request's state
 changes, which on success stores the role and the token and updates the
 session context.
 */
module SignIn {
  import opened Wrappers
  import opened FormRules
  import opened Browser
  import opened Context

  /** The two `Controller` declarations and their `rules`. */
  const Registry: seq<Field> := [
    Field("email", Rules(Some("Email is required"), None,
      Some(PatternRule(EmailShape, "Enter a valid email")), None)),
    Field("password", Rules(Some("Password is required"), None, None, None))
  ]

  /** `defaultValues` of the form. */
  const DefaultValues: Values := map["email" := "", "password" := ""]

  function SignInErrors(values: Values): map<string, string>
  {
    Errors(Registry, values)
  }

  lemma RegistryDistinct()
    ensures DistinctNames(Registry)
  {
  }

  /** The e-mail address is accepted exactly when it matches `^\S+@\S+\.\S+$`. */
  lemma EmailRule(values: Values)
    ensures "email" !in SignInErrors(values) <==> EmailRegex(ValueOf(values, "email"))
    ensures ValueOf(values, "email") == "" ==>
      Lookup(SignInErrors(values), "email") == Some("Email is required")
    ensures ValueOf(values, "email") != "" && !EmailRegex(ValueOf(values, "email")) ==>
      Lookup(SignInErrors(values), "email") == Some("Enter a valid email")
  {
    RegistryDistinct();
    ErrorOfField(Registry, values, 0);
    EmailMatchIsRegex(ValueOf(values, "email"));
  }

  /** The password has only a `required` rule. */
  lemma PasswordRule(values: Values)
    ensures Lookup(SignInErrors(values), "password") ==
      if ValueOf(values, "password") == "" then Some("Password is required") else None
  {
    RegistryDistinct();
    ErrorOfField(Registry, values, 1);
  }

  /** The untouched form fails on both fields with their `required` messages. */
  lemma DefaultsRejected()
    ensures SignInErrors(DefaultValues) == map["email" := "Email is required", "password" := "Password is required"]
  {
    assert ValueOf(DefaultValues, "email") == "" && ValueOf(DefaultValues, "password") == "";
  }

  /** `onSubmit`'s payload: the form's e-mail address and password, nothing else. */
  function Payload(values: Values): (body: Values)
    ensures body.Keys == {"email", "password"}
    ensures body["email"] == ValueOf(values, "email") && body["password"] == ValueOf(values, "password")
  {
    map["email" := ValueOf(values, "email"), "password" := ValueOf(values, "password")]
  }

  /**
   A press of the submit button. The e-mail input has `type="email"` and the
   form no `noValidate`, so the browser first refuses a non-empty value that is
   not an e-mail address; otherwise `handleSubmit(onSubmit)` sends the payload
   exactly when both fields pass their rules.
   */
  function HandleSubmit(values: Values): (r: Option<Request>)
    ensures r.Some? <==>
      NativeEmailOk(ValueOf(values, "email")) && EmailRegex(ValueOf(values, "email")) && ValueOf(values, "password") != ""
    ensures r.Some? ==> r.value.verb == "POST" && r.value.path == "/api/auth/signin"
    ensures r.Some? ==> r.value.body == Payload(values)
  {
    RegistryDistinct();
    ErrorsEmptyIff(Registry, values);
    EmailRule(values);
    PasswordRule(values);
    if !NativeEmailOk(ValueOf(values, "email")) then None
    else if SignInErrors(values) == map[] then Some(Request("POST", "/api/auth/signin", Payload(values)))
    else None
  }

  /**
   What the form sends is a browser-valid address whose domain has a dot: the
   pattern adds the dot, the browser rules out a second '@' and characters such
   as '!' in the domain.
   */
  lemma SentAddressIff(values: Values)
    ensures HandleSubmit(values).Some? <==>
      && ValidEmailAddress(ValueOf(values, "email"))
      && '.' in DomainOf(ValueOf(values, "email"))
      && ValueOf(values, "password") != ""
  {
    var email := ValueOf(values, "email");
    if ValidEmailAddress(email) {
      ValidAddressRegexIff(email);
    }
  }

  /** The browser accepts an address without a dot in its domain; the pattern does not. */
  lemma UndottedDomainRejectedByPattern()
    ensures ValidEmailAddress("a@b") && !EmailRegex("a@b")
  {
    assert IndexOfFrom("a@b", '@', 0) == Some(1);
    assert "a@b"[2..] == "b";
    assert IndexOfFrom("b", '.', 0) == None;
    ValidAddressRegexIff("a@b");
  }

  /** The pattern accepts a second '@'; the browser does not. */
  lemma SecondAtRejectedByBrowser()
    ensures EmailRegex("a@b@c.d") && !ValidEmailAddress("a@b@c.d")
  {
    assert EmailSplit("a@b@c.d", 1, 5);
    assert IndexOfFrom("a@b@c.d", '@', 0) == Some(1);
    assert "a@b@c.d"[2..] == "b@c.d";
    assert IndexOfFrom("b@c.d", '.', 0) == Some(3);
    assert "b@c.d"[..3] == "b@c";
    assert !ValidLabel("b@c");
  }

  /** The pattern accepts a '!' in the domain; the browser does not. */
  lemma DomainPunctuationRejectedByBrowser()
    ensures EmailRegex("a@b.c!") && !ValidEmailAddress("a@b.c!")
  {
    assert EmailSplit("a@b.c!", 1, 3);
    assert IndexOfFrom("a@b.c!", '@', 0) == Some(1);
    assert "a@b.c!"[2..] == "b.c!";
    assert IndexOfFrom("b.c!", '.', 0) == Some(1);
    assert "b.c!"[2..] == "c!";
    assert IndexOfFrom("c!", '.', 0) == None;
    assert !ValidLabel("c!");
  }

  // ---------------------------------------------------------------------------
  // The success effect
  // ---------------------------------------------------------------------------

  /** What the request hook reports; `encodedToken` is `data?.encoded_token`, absent when the response has none. */
  datatype QueryState = QueryState(
    isSuccess: bool,
    successMessage: string,
    isError: bool,
    encodedToken: Option<string>)

  /** The outcome of `jwtDecode`: it throws, or yields claims whose `role` is some value. */
  datatype DecodeOutcome = InvalidToken | Claims(role: JsValue)

  /**
   `jwtDecode(token)`. The library throws for anything but a string, and for a
   string without a '.' (there is no payload part to decode). Decoding the
   payload part of any other string is foreign code: `payload` stands for it,
   and may itself throw.
   */
  function Decode(token: Option<string>, payload: string -> DecodeOutcome): (d: DecodeOutcome)
    ensures d.Claims? ==> token.Some? && '.' in token.value
  {
    match token
    case None => InvalidToken
    case Some(t) => if '.' in t then payload(t) else InvalidToken
  }

  /** A response without a token never gets past decoding. */
  lemma AbsentTokenNotDecoded(payload: string -> DecodeOutcome)
    ensures Decode(None, payload) == InvalidToken
  {
  }

  /** A decoded token is never empty, so it authenticates. */
  lemma DecodedTokenTruthy(token: Option<string>, payload: string -> DecodeOutcome)
    requires Decode(token, payload).Claims?
    ensures Truthy(token)
  {
  }

  predicate Succeeded(q: QueryState)
  {
    q.isSuccess && q.successMessage != ""
  }

  /** The store after the success branch: the role first, then the token, each as text. */
  function SignInWrites(items: map<string, string>, token: string, role: JsValue): (r: map<string, string>)
    ensures r.Keys == items.Keys + {RoleKey, TokenKey}
    ensures r[TokenKey] == token && r[RoleKey] == JsString(role)
    ensures forall k :: k in items && k != RoleKey && k != TokenKey ==> r[k] == items[k]
  {
    items[RoleKey := JsString(role)][TokenKey := token]
  }

  /**
   The effect on a change of the request state. On success with a token that
   decodes, it writes the role, resets the form, sets the context token and
   writes the token, then navigates to "/layout". When decoding throws (always
   so for an absent token), the effect stops before its first write and the
   exception leaves it: nothing catches it, so `thrown` reports it. On error
   it only notifies.
   */
  method OnQueryChange(q: QueryState, payload: string -> DecodeOutcome, ctx: DataContext, store: LocalStorage, form: Values)
    returns (form': Values, nav: Option<string>, thrown: bool)
    modifies ctx, store
    ensures thrown <==> Succeeded(q) && Decode(q.encodedToken, payload).InvalidToken?
    ensures Succeeded(q) && Decode(q.encodedToken, payload).Claims? ==>
      && q.encodedToken.Some?
      && store.items == SignInWrites(old(store.items), q.encodedToken.value, Decode(q.encodedToken, payload).role)
      && ctx.State() == old(ctx.State()).(token := q.encodedToken)
      && form' == DefaultValues
      && nav == Some("/layout")
    ensures !(Succeeded(q) && Decode(q.encodedToken, payload).Claims?) ==>
      && store.items == old(store.items)
      && ctx.State() == old(ctx.State())
      && form' == form
      && nav == None
    ensures q.encodedToken.None? ==>
      store.items == old(store.items) && ctx.State() == old(ctx.State()) && form' == form && nav == None
    ensures q.encodedToken.None? ==> thrown == Succeeded(q)
  {
    form', nav, thrown := form, None, false;
    if Succeeded(q) {
      match Decode(q.encodedToken, payload)
      case InvalidToken =>
        thrown := true;
        return;
      case Claims(role) =>
        store.SetItem(RoleKey, JsString(role));
        form' := DefaultValues;
        ctx.SetToken(q.encodedToken);
        store.SetItem(TokenKey, q.encodedToken.value);
        nav := Some("/layout");
    } else if q.isError {
      // only a notification
    }
  }

  /** After a sign-in, a fresh context reads back the token and the role's text as they were written. */
  lemma ReloadAfterSignIn(items: map<string, string>, token: string, role: JsValue)
    ensures InitialSession(SignInWrites(items, token, role)).token == Some(token)
    ensures InitialSession(SignInWrites(items, token, role)).userRole == Some(JsString(role))
  {
  }

  /** A token the effect accepted comes back unchanged after a reload and authenticates the fresh session. */
  lemma ReloadKeepsToken(items: map<string, string>, token: string, payload: string -> DecodeOutcome)
    requires Decode(Some(token), payload).Claims?
    ensures InitialSession(SignInWrites(items, token, Decode(Some(token), payload).role)).token == Some(token)
    ensures Authenticated(InitialSession(SignInWrites(items, token, Decode(Some(token), payload).role)))
  {
    DecodedTokenTruthy(Some(token), payload);
  }

  /** A token without a `role` claim stores the text "undefined" as role, a null claim the text "null". */
  lemma MissingRoleStoredAsText(items: map<string, string>, token: string)
    ensures InitialSession(SignInWrites(items, token, Undefined)).userRole == Some("undefined")
    ensures InitialSession(SignInWrites(items, token, Null)).userRole == Some("null")
  {
  }
}
