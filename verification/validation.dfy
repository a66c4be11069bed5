/** The contact-form field rules (`lib/validation.ts`): an e-mail shape test,
    an Indian mobile-number test, and the form validator that collects one
    message per failing field. */
module Validation {
  import opened Wrappers
  import opened Text

  /** The submitted form (`ContactFormData`). A field the JSON body leaves
      out is represented by "": every rule treats `undefined` and "" alike. */
  datatype ContactFormData = ContactFormData(
    name: string,
    email: string,
    phone: string,
    service: string,
    message: string)

  /** The keys of `ContactFormErrors`. */
  datatype Field = Name | Email | Phone | Service | Message

  /** `ContactFormErrors`: at most one message per field. */
  type ContactFormErrors = map<Field, string>

  datatype ValidationResult = ValidationResult(isValid: bool, errors: ContactFormErrors)

  const NameRequired := "Name is required"
  const NameTooShort := "Name must be at least 2 characters"
  const NameTooLong := "Name must be less than 50 characters"
  const EmailRequired := "Email is required"
  const EmailInvalid := "Please enter a valid email address"
  const PhoneRequired := "Phone number is required"
  const PhoneInvalid := "Please enter a valid 10-digit phone number"
  const ServiceRequired := "Please select a service"
  const MessageRequired := "Message is required"
  const MessageTooShort := "Message must be at least 10 characters"
  const MessageTooLong := "Message must be less than 1000 characters"

  // ---------------------------------------------------------------- e-mail

  /** The regular-expression class `[^\s@]`. */
  predicate IsPlain(c: char) {
    !IsSpace(c) && c != '@'
  }

  predicate AllPlain(s: string) {
    forall i :: 0 <= i < |s| ==> IsPlain(s[i])
  }

  /** The position of the first `c` in `s`, or `|s|` when there is none. */
  function IndexOf(s: string, c: char): (k: nat)
    ensures k <= |s|
    ensures c !in s[..k]
    ensures k < |s| ==> s[k] == c
  {
    if s == "" || s[0] == c then 0
    else
      var k := IndexOf(s[1..], c);
      assert s[..k + 1] == [s[0]] + s[1..][..k];
      k + 1
  }

  /** The part after the `@`: `[^\s@]+\.[^\s@]+`. */
  predicate IsDottedDomain(d: string) {
    AllPlain(d) && 3 <= |d| && '.' in d[1..|d| - 1]
  }

  /** `isValidEmail`: a hand-written matcher for `^[^\s@]+@[^\s@]+\.[^\s@]+$`
      that splits at the first `@`. */
  predicate IsValidEmail(email: string) {
    var k := IndexOf(email, '@');
    0 < k < |email| && AllPlain(email[..k]) && IsDottedDomain(email[k + 1..])
  }

  /** `s` reads `A@B.C` with the `@` at `i` and the `.` at `j`, where A, B and
      C are non-empty and hold no white space and no `@`. */
  predicate EmailSplit(s: string, i: nat, j: nat) {
    && 0 < i && i + 1 < j && j + 1 < |s|
    && s[i] == '@' && s[j] == '.'
    && AllPlain(s[..i]) && AllPlain(s[i + 1..j]) && AllPlain(s[j + 1..])
  }

  /** The language of the e-mail regular expression. */
  ghost predicate EmailShape(s: string) {
    exists i: nat, j: nat :: EmailSplit(s, i, j)
  }

  /** The matcher accepts exactly the language of the regular expression. */
  lemma EmailIff(s: string)
    ensures IsValidEmail(s) <==> EmailShape(s)
  {
    if IsValidEmail(s) {
      EmailSound(s);
    }
    if EmailShape(s) {
      var i: nat, j: nat :| EmailSplit(s, i, j);
      EmailComplete(s, i, j);
    }
  }

  /** What the matcher accepts has the shape: the `@` it splits at and the
      first `.` after it witness the split. */
  lemma EmailSound(s: string)
    requires IsValidEmail(s)
    ensures EmailShape(s)
  {
    var k := IndexOf(s, '@');
    var d := s[k + 1..];
    var m :| 0 <= m < |d[1..|d| - 1]| && d[1..|d| - 1][m] == '.';
    var j := k + 2 + m;
    assert s[k + 1..j] == d[..m + 1];
    assert s[j + 1..] == d[m + 2..];
    assert EmailSplit(s, k, j);
  }

  /** Every string of the shape is accepted: its `@` is the first one. */
  lemma EmailComplete(s: string, i: nat, j: nat)
    requires EmailSplit(s, i, j)
    ensures IsValidEmail(s)
  {
    var k := IndexOf(s, '@');
    assert s[i] !in s[..i];
    assert k == i;
    var d := s[k + 1..];
    assert d == s[i + 1..j] + [s[j]] + s[j + 1..];
    assert d[1..|d| - 1][j - i - 2] == '.';
  }

  /** A blank e-mail is never well-formed. */
  lemma BlankIsNotEmail(s: string)
    requires IsBlank(s)
    ensures !IsValidEmail(s)
  {
    var k := IndexOf(s, '@');
    assert k < |s| ==> IsSpace(s[k]);
  }

  // ----------------------------------------------------------------- phone

  /** The regular-expression class `[\s-]`. */
  predicate IsSeparator(c: char) {
    IsSpace(c) || c == '-'
  }

  /** `phone.replace(/[\s-]/g, '')`: `s` with every separator removed and
      every other character kept in order. */
  function StripSeparators(s: string): (r: string)
    ensures |r| <= |s|
    ensures forall i :: 0 <= i < |r| ==> !IsSeparator(r[i]) && r[i] in s
  {
    if s == "" then ""
    else if IsSeparator(s[0]) then StripSeparators(s[1..])
    else [s[0]] + StripSeparators(s[1..])
  }

  /** Stripping separators distributes over concatenation. */
  lemma {:induction false} StripAppend(a: string, b: string)
    ensures StripSeparators(a + b) == StripSeparators(a) + StripSeparators(b)
    decreases |a|
  {
    if a == "" {
      assert a + b == b;
    } else {
      assert (a + b)[0] == a[0];
      assert (a + b)[1..] == a[1..] + b;
      StripAppend(a[1..], b);
      if !IsSeparator(a[0]) {
        assert [a[0]] + (StripSeparators(a[1..]) + StripSeparators(b))
            == ([a[0]] + StripSeparators(a[1..])) + StripSeparators(b);
      }
    }
  }

  /** Only separators disappear entirely. */
  lemma {:induction false} StripBlank(s: string)
    requires IsBlank(s)
    ensures StripSeparators(s) == ""
    decreases |s|
  {
    if s != "" {
      StripBlank(s[1..]);
    }
  }

  /** Stripping after trimming is stripping alone: `trim` removes only
      characters the strip would remove anyway. */
  lemma StripTrim(s: string)
    ensures StripSeparators(Trim(s)) == StripSeparators(s)
  {
    var x, y := TrimSplit(s);
    StripAround(x, Trim(s), y);
  }

  /** Blank margins strip away entirely. */
  lemma StripAround(x: string, t: string, y: string)
    requires IsBlank(x) && IsBlank(y)
    ensures StripSeparators(x + t + y) == StripSeparators(t)
  {
    StripAppend(x + t, y);
    StripAppend(x, t);
    StripBlank(x);
    StripBlank(y);
    assert StripSeparators(x + t + y) == ("" + StripSeparators(t)) + "";
  }

  /** The regular-expression class `\d`. */
  predicate IsDigit(c: char) {
    '0' <= c <= '9'
  }

  /** `[6-9]\d{9}`: ten digits, the first of them 6 to 9. */
  predicate IsMobileNumber(m: string) {
    |m| == 10 && '6' <= m[0] <= '9' && forall i :: 0 <= i < |m| ==> IsDigit(m[i])
  }

  /** The optional prefixes of `(\+91|91|0)?`. */
  const PhonePrefixes: seq<string> := ["+91", "91", "0"]

  /** The language of `^(\+91|91|0)?[6-9]\d{9}$`. */
  ghost predicate PhoneShape(d: string) {
    || IsMobileNumber(d)
    || exists k :: 0 <= k < |PhonePrefixes| && PhonePrefixes[k] <= d
                   && IsMobileNumber(d[|PhonePrefixes[k]|..])
  }

  /** A hand-written matcher for the phone pattern: the length fixes which
      prefix, if any, must be present. */
  predicate MatchesPhone(d: string) {
    if |d| == 10 then IsMobileNumber(d)
    else if |d| == 11 then d[0] == '0' && IsMobileNumber(d[1..])
    else if |d| == 12 then d[..2] == "91" && IsMobileNumber(d[2..])
    else if |d| == 13 then d[..3] == "+91" && IsMobileNumber(d[3..])
    else false
  }

  /** The matcher accepts exactly the language of the phone pattern. */
  lemma PhoneIff(d: string)
    ensures MatchesPhone(d) <==> PhoneShape(d)
  {
    if MatchesPhone(d) && |d| != 10 {
      var k := if |d| == 13 then 0 else if |d| == 12 then 1 else 2;
      assert PhonePrefixes[k] <= d && IsMobileNumber(d[|PhonePrefixes[k]|..]);
    }
    if PhoneShape(d) && !IsMobileNumber(d) {
      var k :| 0 <= k < |PhonePrefixes| && PhonePrefixes[k] <= d
               && IsMobileNumber(d[|PhonePrefixes[k]|..]);
      assert |d| == 10 + |PhonePrefixes[k]|;
    }
  }

  /** `isValidPhone`: separators removed, then the phone pattern. */
  predicate IsValidPhone(phone: string) {
    MatchesPhone(StripSeparators(phone))
  }

  /** A well-formed address is accepted. */
  lemma EmailAccepted()
    ensures IsValidEmail("a@b.co")
  {
    var s := "a@b.co";
    assert s[1..][0] == '@';
    assert IndexOf(s[1..], '@') == 0;
    assert IndexOf(s, '@') == 1;
    assert s[..1] == "a" && s[2..] == "b.co";
    assert AllPlain("a");
    assert AllPlain("b.co");
    assert "b.co"[1..3][0] == '.';
  }

  /** An address without an `@` is rejected. */
  lemma EmailRejected()
    ensures !IsValidEmail("not-an-email")
  {
    var s := "not-an-email";
    assert forall i :: 0 <= i < |s| ==> s[i] != '@';
    assert IndexOf(s, '@') == |s|;
  }

  /** Every mobile number is accepted as it stands. */
  lemma PhoneAcceptsMobile(m: string)
    requires IsMobileNumber(m)
    ensures IsValidPhone(m)
  {
    NoSeparators(m);
  }

  /** Every mobile number behind one of the three prefixes is accepted. */
  lemma PhoneAcceptsPrefixed(k: nat, m: string)
    requires k < |PhonePrefixes| && IsMobileNumber(m)
    ensures IsValidPhone(PhonePrefixes[k] + m)
  {
    var d := PhonePrefixes[k] + m;
    NoSeparators(d);
    assert d[|PhonePrefixes[k]|..] == m;
    PhoneIff(d);
  }

  /** A separator anywhere in the input makes no difference. */
  lemma PhoneIgnoresSeparator(a: string, c: char, b: string)
    requires IsSeparator(c)
    ensures IsValidPhone(a + [c] + b) <==> IsValidPhone(a + b)
  {
    StripAppend(a + [c], b);
    StripAppend(a, [c]);
    assert [c][1..] == "";
    assert StripSeparators([c]) == StripSeparators("");
    assert StripSeparators(a + [c]) == StripSeparators(a);
    StripAppend(a, b);
  }

  /** A bare ten-digit mobile number is accepted. */
  lemma PhoneBareExample()
    ensures IsValidPhone("9876543210")
  {
    PhoneAcceptsMobile("9876543210");
  }

  /** The same number behind `+91` is accepted. */
  lemma PhonePrefixedExample()
    ensures IsValidPhone("+919876543210")
  {
    var m := "9876543210";
    assert IsMobileNumber(m);
    PhoneAcceptsPrefixed(0, m);
    assert PhonePrefixes[0] + m == "+919876543210";
  }

  /** Ten digits whose first digit is below 6 are rejected. */
  lemma PhoneRejectsLowLead(m: string)
    requires |m| == 10 && m[0] < '6'
    requires forall i :: 0 <= i < |m| ==> IsDigit(m[i])
    ensures !IsValidPhone(m)
  {
    NoSeparators(m);
  }

  /** A number whose first digit is below 6 is rejected. */
  lemma PhoneBadLeadRejected()
    ensures !IsValidPhone("1234567890")
  {
    PhoneRejectsLowLead("1234567890");
  }

  /** A string with no separators is left as it is. */
  lemma {:induction false} NoSeparators(s: string)
    requires forall i :: 0 <= i < |s| ==> !IsSeparator(s[i])
    ensures StripSeparators(s) == s
    decreases |s|
  {
    if s != "" {
      NoSeparators(s[1..]);
    }
  }

  // ------------------------------------------------------------- validator

  function NameError(name: string): (e: Option<string>)
    ensures e.None? <==> 2 <= JsLength(Trim(name)) <= 50
  {
    var n := JsLength(Trim(name));
    if n == 0 then Some(NameRequired)
    else if n < 2 then Some(NameTooShort)
    else if n > 50 then Some(NameTooLong)
    else None
  }

  function EmailError(email: string): (e: Option<string>)
    ensures e.None? <==> EmailShape(email)
  {
    EmailIff(email);
    assert IsBlank(email) ==> !IsValidEmail(email) by {
      if IsBlank(email) { BlankIsNotEmail(email); }
    }
    if IsBlank(email) then Some(EmailRequired)
    else if !IsValidEmail(email) then Some(EmailInvalid)
    else None
  }

  function PhoneError(phone: string): (e: Option<string>)
    ensures e.None? <==> PhoneShape(StripSeparators(phone))
  {
    PhoneIff(StripSeparators(phone));
    assert IsBlank(phone) ==> StripSeparators(phone) == "" by {
      if IsBlank(phone) { StripBlank(phone); }
    }
    if IsBlank(phone) then Some(PhoneRequired)
    else if !IsValidPhone(phone) then Some(PhoneInvalid)
    else None
  }

  function ServiceError(service: string): (e: Option<string>)
    ensures e.None? <==> !IsBlank(service)
  {
    if IsBlank(service) then Some(ServiceRequired) else None
  }

  function MessageError(message: string): (e: Option<string>)
    ensures e.None? <==> 10 <= JsLength(Trim(message)) <= 1000
  {
    var n := JsLength(Trim(message));
    if n == 0 then Some(MessageRequired)
    else if n < 10 then Some(MessageTooShort)
    else if n > 1000 then Some(MessageTooLong)
    else None
  }

  /** `errors.f = message` when the rule for `f` produced one. */
  function Record(errors: ContactFormErrors, f: Field, err: Option<string>): ContactFormErrors {
    if err.Some? then errors[f := err.value] else errors
  }

  /** The errors object built field by field, in the source's order, from
      the five rules' outcomes. */
  function Collect(name: Option<string>, email: Option<string>, phone: Option<string>,
                   service: Option<string>, message: Option<string>): (errors: ContactFormErrors)
    ensures Name in errors <==> name.Some?
    ensures Email in errors <==> email.Some?
    ensures Phone in errors <==> phone.Some?
    ensures Service in errors <==> service.Some?
    ensures Message in errors <==> message.Some?
    ensures Name in errors ==> errors[Name] == name.value
    ensures Email in errors ==> errors[Email] == email.value
    ensures Phone in errors ==> errors[Phone] == phone.value
    ensures Service in errors ==> errors[Service] == service.value
    ensures Message in errors ==> errors[Message] == message.value
  {
    Record(Record(Record(Record(Record(map[], Name, name), Email, email), Phone, phone),
      Service, service), Message, message)
  }

  /** `validateContactForm`: every rule runs; a field is reported exactly
      when its value breaks that field's rule, and the form is valid exactly
      when nothing was reported. */
  function ValidateContactForm(data: ContactFormData): (v: ValidationResult)
    ensures v.isValid <==> v.errors == map[]
    ensures Name in v.errors <==> !(2 <= JsLength(Trim(data.name)) <= 50)
    ensures Email in v.errors <==> !EmailShape(data.email)
    ensures Phone in v.errors <==> !PhoneShape(StripSeparators(data.phone))
    ensures Service in v.errors <==> IsBlank(data.service)
    ensures Message in v.errors <==> !(10 <= JsLength(Trim(data.message)) <= 1000)
  {
    var errors := Collect(NameError(data.name), EmailError(data.email),
      PhoneError(data.phone), ServiceError(data.service), MessageError(data.message));
    assert errors == map[] <==> |errors| == 0;
    ValidationResult(|errors| == 0, errors)
  }

  /** The name rule by trimmed length: 0 is "required", 1 is "too short",
      above 50 is "too long", and 2 to 50 inclusive pass. */
  lemma NameRule(data: ContactFormData)
    ensures var v := ValidateContactForm(data); var n := JsLength(Trim(data.name));
      && (n == 0 ==> Name in v.errors && v.errors[Name] == NameRequired)
      && (n == 1 ==> Name in v.errors && v.errors[Name] == NameTooShort)
      && (n > 50 ==> Name in v.errors && v.errors[Name] == NameTooLong)
      && (2 <= n <= 50 ==> Name !in v.errors)
  {
  }

  /** Lengths are JavaScript lengths: a name of one emoji has length 2 and
      passes the name rule. */
  lemma EmojiNameAccepted()
    ensures NameError("\U{1F600}") == None
  {
    var name := "\U{1F600}";
    assert !IsSpace(name[0]);
    TrimOfTrimmed(name);
    JsLengthAstral(name[0]);
    assert [name[0]] == name;
  }

  /** The message rule by trimmed length: 0 is "required", 1 to 9 "too
      short", above 1000 "too long", and 10 to 1000 inclusive pass. */
  lemma MessageRule(data: ContactFormData)
    ensures var v := ValidateContactForm(data); var n := JsLength(Trim(data.message));
      && (n == 0 ==> Message in v.errors && v.errors[Message] == MessageRequired)
      && (1 <= n < 10 ==> Message in v.errors && v.errors[Message] == MessageTooShort)
      && (n > 1000 ==> Message in v.errors && v.errors[Message] == MessageTooLong)
      && (10 <= n <= 1000 ==> Message !in v.errors)
  {
  }

  /** The e-mail rule: a blank address is "required"; any other address that
      is not of the form `A@B.C` is "invalid". */
  lemma EmailRule(data: ContactFormData)
    ensures var v := ValidateContactForm(data);
      && (IsBlank(data.email) ==> v.errors[Email] == EmailRequired)
      && (!IsBlank(data.email) && !EmailShape(data.email) ==> v.errors[Email] == EmailInvalid)
  {
    EmailIff(data.email);
  }

  /** The phone rule: a blank number is "required"; any other number that
      does not match the pattern once separators are removed is "invalid". */
  lemma PhoneRule(data: ContactFormData)
    ensures var v := ValidateContactForm(data);
      && (IsBlank(data.phone) ==> v.errors[Phone] == PhoneRequired)
      && (!IsBlank(data.phone) && !PhoneShape(StripSeparators(data.phone))
          ==> v.errors[Phone] == PhoneInvalid)
  {
    PhoneIff(StripSeparators(data.phone));
  }

  /** The service rule: reported, with its one message, exactly when the
      trimmed service is empty. */
  lemma ServiceRule(data: ContactFormData)
    ensures var v := ValidateContactForm(data);
      (Service in v.errors <==> Trim(data.service) == "")
      && (Service in v.errors ==> v.errors[Service] == ServiceRequired)
  {
  }

  /** The e-mail format test runs on the untrimmed value: white space at
      either end makes an address invalid. */
  lemma PaddedEmailRejected(email: string)
    requires email != "" && (IsSpace(email[0]) || IsSpace(email[|email| - 1]))
    ensures !EmailShape(email)
  {
    forall i: nat, j: nat | 0 < i && i + 1 < j && j + 1 < |email|
      ensures !EmailSplit(email, i, j)
    {
      assert email[..i][0] == email[0];
      assert email[j + 1..][|email| - j - 2] == email[|email| - 1];
    }
  }

  /** The value of field `f` in the submitted form. */
  function FieldOf(data: ContactFormData, f: Field): string {
    match f
    case Name => data.name
    case Email => data.email
    case Phone => data.phone
    case Service => data.service
    case Message => data.message
  }

  /** Each field's verdict depends on that field alone: two forms that agree
      on `f` get the same report, or none, for `f`. */
  lemma FieldIndependence(d1: ContactFormData, d2: ContactFormData, f: Field)
    requires FieldOf(d1, f) == FieldOf(d2, f)
    ensures var e1 := ValidateContactForm(d1).errors; var e2 := ValidateContactForm(d2).errors;
      (f in e1 <==> f in e2) && (f in e1 ==> e1[f] == e2[f])
  {
  }

  /** Lowercasing keeps a string of plain characters plain. */
  lemma LowerKeepsPlain(s: string)
    requires AllPlain(s)
    ensures AllPlain(Lower(s))
  {
  }

  /** Lowercasing keeps a plain slice plain. */
  lemma LowerKeepsPlainSlice(s: string, a: nat, b: nat)
    requires a <= b <= |s| && AllPlain(s[a..b])
    ensures AllPlain(Lower(s)[a..b])
  {
    LowerSlice(s, a, b);
    LowerKeepsPlain(s[a..b]);
  }

  /** Lowercasing keeps a plain prefix plain. */
  lemma LowerKeepsPlainPrefix(s: string, i: nat)
    requires i <= |s| && AllPlain(s[..i])
    ensures AllPlain(Lower(s)[..i])
  {
    var l := Lower(s);
    forall k | 0 <= k < i
      ensures IsPlain(l[..i][k])
    {
      assert s[..i][k] == s[k] && l[..i][k] == l[k];
      assert IsPlain(s[k]);
    }
  }

  /** Lowercasing keeps a plain suffix plain. */
  lemma LowerKeepsPlainSuffix(s: string, j: nat)
    requires j <= |s| && AllPlain(s[j..])
    ensures AllPlain(Lower(s)[j..])
  {
    var l := Lower(s);
    forall k | 0 <= k < |l[j..]|
      ensures IsPlain(l[j..][k])
    {
      assert s[j..][k] == s[j + k] && l[j..][k] == l[j + k];
      assert IsPlain(s[j + k]);
    }
  }

  /** Lowercasing keeps the split of an address at the same positions. */
  lemma LowerKeepsEmailSplit(email: string, i: nat, j: nat)
    requires EmailSplit(email, i, j)
    ensures EmailSplit(Lower(email), i, j)
  {
    LowerKeepsPlainPrefix(email, i);
    LowerKeepsPlainSlice(email, i + 1, j);
    LowerKeepsPlainSuffix(email, j + 1);
  }

  /** A well-formed address has nothing to trim and stays well-formed when
      lowercased. */
  lemma LowerKeepsEmailShape(email: string)
    requires EmailShape(email)
    ensures Trim(email) == email
    ensures EmailShape(Lower(email))
  {
    var i: nat, j: nat :| EmailSplit(email, i, j);
    assert email[..i][0] == email[0];
    assert email[j + 1..][|email| - j - 2] == email[|email| - 1];
    TrimOfTrimmed(email);
    LowerKeepsEmailSplit(email, i, j);
  }
}
