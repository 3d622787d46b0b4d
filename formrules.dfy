/**
 The validation rules the sign-up and sign-in forms hand to react-hook-form,
 and the order in which that library applies them to one field: `required`
 first, then `minLength`, then `pattern`, then `validate`; the first failing
 rule's message is the field's error. Length and pattern rules are skipped for
 an empty value.
 */
module FormRules {
  import opened Wrappers
  import opened Browser

  /** The regular expressions used as `pattern` rules by the active forms. */
  datatype Pattern =
    | TenDigits   // ^[0-9]{10}$
    | EmailShape  // ^\S+@\S+\.\S+$

  datatype MinLengthRule = MinLengthRule(value: nat, message: string)
  datatype PatternRule = PatternRule(pattern: Pattern, message: string)

  /** `validate: (value) => value === watch(field) || message`. */
  datatype SameAsRule = SameAsRule(field: string, message: string)

  datatype Rules = Rules(
    required: Option<string>,
    minLength: Option<MinLengthRule>,
    pattern: Option<PatternRule>,
    sameAs: Option<SameAsRule>)

  /** One `register(name, rules)` / `Controller` declaration. */
  datatype Field = Field(name: string, rules: Rules)

  /** The form's values, keyed by registered name. */
  type Values = map<string, string>

  /** A request handed to the API helper. */
  datatype Request = Request(verb: string, path: string, body: Values)

  /** An input that holds nothing reads as the empty string. */
  function ValueOf(values: Values, name: string): string
  {
    if name in values then values[name] else ""
  }

  // ---------------------------------------------------------------------------
  // Patterns
  // ---------------------------------------------------------------------------

  /** ECMAScript's `\s`: the white-space and line-terminator code points. */
  predicate IsWhitespace(c: char)
  {
    var n := c as int;
    n == 0x9 || n == 0xA || n == 0xB || n == 0xC || n == 0xD || n == 0x20 || n == 0xA0 || n == 0x1680
    || (0x2000 <= n <= 0x200A) || n == 0x2028 || n == 0x2029 || n == 0x202F || n == 0x205F
    || n == 0x3000 || n == 0xFEFF
  }

  predicate NoWhitespace(s: string)
  {
    forall i :: 0 <= i < |s| ==> !IsWhitespace(s[i])
  }

  /** `^[0-9]{10}$`: exactly ten ASCII digits and nothing else. */
  predicate TenDigitsMatch(s: string)
  {
    |s| == 10 && forall i :: 0 <= i < |s| ==> '0' <= s[i] <= '9'
  }

  /**
   A reading of `^\S+@\S+\.\S+$` that splits `s` at an '@' (offset p) and a
   '.' (offset q) into three non-empty runs of non-white-space characters.
   */
  ghost predicate EmailSplit(s: string, p: int, q: int)
  {
    && 0 < p && p + 1 < q && q + 1 < |s|
    && s[p] == '@' && s[q] == '.'
    && NoWhitespace(s[..p]) && NoWhitespace(s[p + 1..q]) && NoWhitespace(s[q + 1..])
  }

  ghost predicate EmailRegex(s: string)
  {
    exists p, q :: EmailSplit(s, p, q)
  }

  /** The first offset at or after `from` holding `c`; a step of the pattern decisions below. */
  function IndexOfFrom(s: string, c: char, from: nat): (r: Option<nat>)
    ensures r.Some? ==> from <= r.value < |s| && s[r.value] == c
    ensures r.Some? ==> forall j :: from <= j < r.value ==> s[j] != c
    ensures r.None? ==> forall j :: from <= j < |s| ==> s[j] != c
    decreases |s| - from
  {
    if from >= |s| then None
    else if s[from] == c then Some(from)
    else IndexOfFrom(s, c, from + 1)
  }

  /** The last offset holding `c`; a step of the `^\S+@\S+\.\S+$` decision. */
  function LastIndexOf(s: string, c: char): (r: Option<nat>)
    ensures r.Some? ==> r.value < |s| && s[r.value] == c
    ensures r.Some? ==> forall j :: r.value < j < |s| ==> s[j] != c
    ensures r.None? ==> forall j :: 0 <= j < |s| ==> s[j] != c
    decreases |s|
  {
    if |s| == 0 then None
    else if s[|s| - 1] == c then Some(|s| - 1)
    else LastIndexOf(s[..|s| - 1], c)
  }

  /**
   Decides `^\S+@\S+\.\S+$`: no white space, and the earliest '@' after the
   first character lies at least two before the latest '.' ahead of the last
   character.
   */
  predicate EmailMatch(s: string)
  {
    && NoWhitespace(s)
    && |s| > 0
    && match IndexOfFrom(s, '@', 1)
       case None => false
       case Some(p) =>
         match LastIndexOf(s[..|s| - 1], '.')
         case None => false
         case Some(q) => p + 2 <= q
  }

  /** The decision procedure accepts exactly the strings the regular expression matches. */
  lemma EmailMatchIsRegex(s: string)
    ensures EmailMatch(s) <==> EmailRegex(s)
  {
    if EmailMatch(s) {
      var p := IndexOfFrom(s, '@', 1).value;
      var q := LastIndexOf(s[..|s| - 1], '.').value;
      assert s[q] == s[..|s| - 1][q];
      assert EmailSplit(s, p, q);
    }
    if EmailRegex(s) {
      var p', q' :| EmailSplit(s, p', q');
      forall i | 0 <= i < |s|
        ensures !IsWhitespace(s[i])
      {
        if i < p' {
          assert s[i] == s[..p'][i];
        } else if p' < i < q' {
          assert s[i] == s[p' + 1..q'][i - p' - 1];
        } else if q' < i {
          assert s[i] == s[q' + 1..][i - q' - 1];
        }
      }
      var p := IndexOfFrom(s, '@', 1);
      var q := LastIndexOf(s[..|s| - 1], '.');
      assert s[..|s| - 1][q'] == '.';
      assert p.Some? && p.value <= p';
      assert q.Some? && q'<= q.value;
    }
  }

  function PatternMatches(p: Pattern, s: string): bool
  {
    match p
    case TenDigits => TenDigitsMatch(s)
    case EmailShape => EmailMatch(s)
  }

  // ---------------------------------------------------------------------------
  // The browser's own check of an `<input type="email">`
  // ---------------------------------------------------------------------------

  predicate AlnumChar(c: char)
  {
    'a' <= c <= 'z' || 'A' <= c <= 'Z' || '0' <= c <= '9'
  }

  /** The characters HTML allows before the '@' of a valid e-mail address. */
  predicate LocalChar(c: char)
  {
    AlnumChar(c) || c in ".!#$%&'*+/=?^_`{|}~-"
  }

  /** One domain label: 1 to 63 letters, digits or '-', starting and ending with a letter or digit. */
  predicate ValidLabel(l: string)
  {
    && 1 <= |l| <= 63
    && AlnumChar(l[0]) && AlnumChar(l[|l| - 1])
    && forall i :: 0 <= i < |l| ==> AlnumChar(l[i]) || l[i] == '-'
  }

  /** Labels separated by single dots. */
  predicate ValidDomain(d: string)
    decreases |d|
  {
    match IndexOfFrom(d, '.', 0)
    case None => ValidLabel(d)
    case Some(i) => ValidLabel(d[..i]) && ValidDomain(d[i + 1..])
  }

  /** HTML's "valid e-mail address": a non-empty local part of `LocalChar`s, an '@', a domain. */
  predicate ValidEmailAddress(s: string)
  {
    match IndexOfFrom(s, '@', 0)
    case None => false
    case Some(p) => p > 0 && (forall i :: 0 <= i < p ==> LocalChar(s[i])) && ValidDomain(s[p + 1..])
  }

  /**
   Constraint validation of an `<input type="email">` without a `required`
   attribute: an empty value passes, any other must be a valid e-mail address.
   A failure stops the form's submit event before any handler runs.
   */
  predicate NativeEmailOk(value: string)
  {
    value == "" || ValidEmailAddress(value)
  }

  /** The domain of an address that has an '@': everything after the first one. */
  function DomainOf(s: string): (d: string)
    ensures '@' in s ==> exists p :: 0 <= p < |s| && s[p] == '@' && '@' !in s[..p] && d == s[p + 1..]
    ensures '@' !in s ==> d == ""
  {
    match IndexOfFrom(s, '@', 0)
    case None => ""
    case Some(p) => s[p + 1..]
  }

  lemma {:induction false} DomainChars(d: string)
    requires ValidDomain(d)
    ensures |d| > 0 && d[0] != '.' && d[|d| - 1] != '.'
    ensures forall i :: 0 <= i < |d| ==> AlnumChar(d[i]) || d[i] == '-' || d[i] == '.'
    decreases |d|
  {
    match IndexOfFrom(d, '.', 0)
    case None =>
    case Some(i) =>
      var rest := d[i + 1..];
      DomainChars(rest);
      forall j | 0 <= j < |d|
        ensures AlnumChar(d[j]) || d[j] == '-' || d[j] == '.'
      {
        if j < i {
          assert d[j] == d[..i][j];
        } else if j > i {
          assert d[j] == rest[j - i - 1];
        }
      }
      assert d[|d| - 1] == rest[|rest| - 1];
      assert d[0] == d[..i][0];
  }

  lemma NoWhitespaceSlice(s: string, a: nat, b: nat)
    requires NoWhitespace(s) && a <= b <= |s|
    ensures NoWhitespace(s[a..b])
  {
    assert forall i :: 0 <= i < b - a ==> s[a..b][i] == s[a + i];
  }

  lemma AddressCharNotSpace(c: char)
    requires LocalChar(c) || AlnumChar(c) || c == '-' || c == '.' || c == '@'
    ensures !IsWhitespace(c)
  {
  }

  /** A valid address has its only '@' at the end of the local part, and no white space. */
  lemma AddressChars(s: string)
    requires ValidEmailAddress(s)
    ensures IndexOfFrom(s, '@', 0).Some?
    ensures forall i :: 0 <= i < |s| && s[i] == '@' ==> i == IndexOfFrom(s, '@', 0).value
    ensures NoWhitespace(s)
  {
    var p := IndexOfFrom(s, '@', 0).value;
    var d := s[p + 1..];
    DomainChars(d);
    forall i | 0 <= i < p
      ensures !IsWhitespace(s[i])
    {
      AddressCharNotSpace(s[i]);
    }
    forall i | p < i < |s|
      ensures s[i] != '@' && !IsWhitespace(s[i])
    {
      var c := d[i - p - 1];
      assert s[i] == c;
      AddressCharNotSpace(c);
    }
    AddressCharNotSpace(s[p]);
  }

  /**
   For an address the browser accepts, `^\S+@\S+\.\S+$` holds exactly when its
   domain has a dot: the browser's check lets "a@b" through, and the pattern
   then rejects it.
   */
  lemma ValidAddressRegexIff(s: string)
    requires ValidEmailAddress(s)
    ensures EmailRegex(s) <==> '.' in DomainOf(s)
  {
    var p := IndexOfFrom(s, '@', 0).value;
    var d := s[p + 1..];
    assert DomainOf(s) == d;
    DomainChars(d);
    AddressChars(s);
    if '.' in d {
      var k :| 0 <= k < |d| && d[k] == '.';
      var q := p + 1 + k;
      assert s[q] == '.' && q + 1 < |s| && p + 1 < q;
      NoWhitespaceSlice(s, 0, p);
      NoWhitespaceSlice(s, p + 1, q);
      NoWhitespaceSlice(s, q + 1, |s|);
      assert EmailSplit(s, p, q);
    }
    if EmailRegex(s) {
      var p', q' :| EmailSplit(s, p', q');
      assert s[q' - p - 1 + p + 1] == '.';
    }
  }

  // ---------------------------------------------------------------------------
  // Applying the rules
  // ---------------------------------------------------------------------------

  /** The message of the first rule `value` fails, or `None` when it passes them all. */
  function CheckField(rules: Rules, value: string, values: Values): Option<string>
  {
    if rules.required.Some? && value == "" then
      Some(rules.required.value)
    else if rules.minLength.Some? && value != "" && |value| < rules.minLength.value.value then
      Some(rules.minLength.value.message)
    else if rules.pattern.Some? && value != "" && !PatternMatches(rules.pattern.value.pattern, value) then
      Some(rules.pattern.value.message)
    else if rules.sameAs.Some? && value != ValueOf(values, rules.sameAs.value.field) then
      Some(rules.sameAs.value.message)
    else
      None
  }

  function FieldError(registry: seq<Field>, values: Values, i: nat): Option<string>
    requires i < |registry|
  {
    CheckField(registry[i].rules, ValueOf(values, registry[i].name), values)
  }

  predicate DistinctNames(registry: seq<Field>)
  {
    forall i, j :: 0 <= i < j < |registry| ==> registry[i].name != registry[j].name
  }

  /** `formState.errors` after a submit: each failing field's message under its registered name. */
  function Errors(registry: seq<Field>, values: Values): map<string, string>
    decreases |registry|
  {
    if |registry| == 0 then map[]
    else
      var rest := Errors(registry[1..], values);
      match FieldError(registry, values, 0)
      case Some(message) => rest[registry[0].name := message]
      case None => rest
  }

  /** Errors are only ever reported under registered names. */
  lemma {:induction false} ErrorKeysRegistered(registry: seq<Field>, values: Values)
    ensures forall k :: k in Errors(registry, values) ==> exists i :: 0 <= i < |registry| && registry[i].name == k
    decreases |registry|
  {
    if |registry| > 0 {
      ErrorKeysRegistered(registry[1..], values);
      forall k | k in Errors(registry, values)
        ensures exists i :: 0 <= i < |registry| && registry[i].name == k
      {
        if k != registry[0].name {
          assert k in Errors(registry[1..], values);
          var i :| 0 <= i < |registry[1..]| && registry[1..][i].name == k;
          assert registry[i + 1].name == k;
        }
      }
    }
  }

  /** A field has an error exactly when one of its rules fails, and the error is that rule's message. */
  lemma {:induction false} ErrorOfField(registry: seq<Field>, values: Values, i: nat)
    requires DistinctNames(registry) && i < |registry|
    ensures registry[i].name in Errors(registry, values) <==> FieldError(registry, values, i).Some?
    ensures FieldError(registry, values, i).Some? ==>
      Errors(registry, values)[registry[i].name] == FieldError(registry, values, i).value
    decreases |registry|
  {
    if i == 0 {
      ErrorKeysRegistered(registry[1..], values);
    } else {
      assert DistinctNames(registry[1..]);
      assert FieldError(registry[1..], values, i - 1) == FieldError(registry, values, i);
      ErrorOfField(registry[1..], values, i - 1);
    }
  }

  /** A form passes validation exactly when every field passes its rules. */
  lemma ErrorsEmptyIff(registry: seq<Field>, values: Values)
    requires DistinctNames(registry)
    ensures Errors(registry, values) == map[] <==>
      forall i :: 0 <= i < |registry| ==> FieldError(registry, values, i).None?
  {
    if Errors(registry, values) != map[] {
      var k :| k in Errors(registry, values);
      ErrorKeysRegistered(registry, values);
      var i :| 0 <= i < |registry| && registry[i].name == k;
      ErrorOfField(registry, values, i);
    } else {
      forall i | 0 <= i < |registry|
        ensures FieldError(registry, values, i).None?
      {
        ErrorOfField(registry, values, i);
      }
    }
  }
}
