/** The three field validators of the contact form, taken apart from the
    DOM: each reads a raw input value and gives back whether it is valid
    together with the text the page writes into that field's error slot. */
module Validation {
  import opened Text
  import opened Email

  /** What a validator returns (`valid`) and writes (`message`). */
  datatype FieldCheck = FieldCheck(valid: bool, message: string)

  const NameRequired: string := "Name is required"
  const NameTooShort: string := "Name must be at least 2 characters"
  const EmailRequired: string := "Email is required"
  const EmailInvalid: string := "Please enter a valid email"
  const MessageRequired: string := "Message is required"
  const MessageTooShort: string := "Message must be at least 10 characters"

  const MinNameLength: nat := 2
  const MinMessageLength: nat := 10

  const Passed: FieldCheck := FieldCheck(true, "")

  function Failed(message: string): FieldCheck {
    FieldCheck(false, message)
  }

  /** `validateName`: required, then at least two characters once trimmed. */
  function ValidateName(raw: string): (r: FieldCheck)
    ensures AllWhitespace(raw) ==> r == Failed(NameRequired)
    ensures |Trim(raw)| == 1 ==> r == Failed(NameTooShort)
    ensures |Trim(raw)| >= 2 ==> r == Passed
    ensures r.valid <==> |Trim(raw)| >= MinNameLength
    ensures r.valid <==> r.message == ""
  {
    var name := Trim(raw);
    if name == "" then Failed(NameRequired)
    else if |name| < MinNameLength then Failed(NameTooShort)
    else Passed
  }

  /** `validateEmail`: required, then the whole trimmed value must match
      `^[^\s@]+@[^\s@]+\.[^\s@]+$`. */
  function ValidateEmail(raw: string): (r: FieldCheck)
    ensures AllWhitespace(raw) ==> r == Failed(EmailRequired)
    ensures r.valid <==> MatchesEmailPattern(Trim(raw))
    ensures !AllWhitespace(raw) && !r.valid ==> r.message == EmailInvalid
    ensures r.valid <==> r.message == ""
  {
    var email := Trim(raw);
    EmailMatchesPattern(email);
    if email == "" then Failed(EmailRequired)
    else if !IsEmail(email) then Failed(EmailInvalid)
    else Passed
  }

  /** `validateMessage`: required, then at least ten characters once trimmed. */
  function ValidateMessage(raw: string): (r: FieldCheck)
    ensures AllWhitespace(raw) ==> r == Failed(MessageRequired)
    ensures 0 < |Trim(raw)| < 10 ==> r == Failed(MessageTooShort)
    ensures |Trim(raw)| >= 10 ==> r == Passed
    ensures r.valid <==> |Trim(raw)| >= MinMessageLength
    ensures r.valid <==> r.message == ""
  {
    var message := Trim(raw);
    if message == "" then Failed(MessageRequired)
    else if |message| < MinMessageLength then Failed(MessageTooShort)
    else Passed
  }

  /** What `validateForm` returns: all three fields pass. */
  function FormAccepts(name: string, email: string, message: string): (ok: bool)
    ensures ok <==> |Trim(name)| >= 2 && MatchesEmailPattern(Trim(email)) && |Trim(message)| >= 10
  {
    var isNameValid := ValidateName(name).valid;
    var isEmailValid := ValidateEmail(email).valid;
    var isMessageValid := ValidateMessage(message).valid;
    isNameValid && isEmailValid && isMessageValid
  }

  /** Leading and trailing whitespace never changes any validator's
      outcome. */
  lemma PaddingIsIgnored(pre: string, raw: string, post: string)
    requires AllWhitespace(pre) && AllWhitespace(post)
    ensures ValidateName(pre + raw + post) == ValidateName(raw)
    ensures ValidateEmail(pre + raw + post) == ValidateEmail(raw)
    ensures ValidateMessage(pre + raw + post) == ValidateMessage(raw)
  {
    TrimPadded(pre, raw, post);
  }

  /** For a value with no whitespace at either end, each validator comes
      down to its second rule. */
  lemma UnpaddedValue(s: string)
    requires s != [] && !IsWhitespace(s[0]) && !IsWhitespace(s[|s| - 1])
    ensures ValidateName(s) == (if |s| < MinNameLength then Failed(NameTooShort) else Passed)
    ensures ValidateEmail(s) == (if IsEmail(s) then Passed else Failed(EmailInvalid))
    ensures ValidateMessage(s) == (if |s| < MinMessageLength then Failed(MessageTooShort) else Passed)
  {
    TrimOfUnpadded(s);
  }

  // The example lemmas take their strings as parameters pinned by
  // `requires`: stated on literals directly, the verifier unfolds every
  // function on them and runs out of resource.

  /** Worked examples for names. */
  lemma NameExamples(one: string, two: string)
    requires one == "A" && two == "Al"
    ensures ValidateName(one) == Failed(NameTooShort)
    ensures ValidateName(two) == Passed
  {
    UnpaddedValue(one);
    UnpaddedValue(two);
  }

  /** Worked examples for messages. */
  lemma MessageExamples(short: string, ten: string)
    requires short == "short" && ten == "1234567890"
    ensures ValidateMessage(short) == Failed(MessageTooShort)
    ensures ValidateMessage(ten) == Passed
  {
    UnpaddedValue(short);
    UnpaddedValue(ten);
  }

  /** Addresses the pattern accepts, including a domain with two dots. */
  lemma AcceptedEmailExamples(s: string)
    requires s == "a@b.com" || s == "a@b.c.d"
    ensures ValidateEmail(s) == Passed
  {
    assert s[..1] == "a" && s[2..3] == "b";
    assert AllEmailChars(s[4..]) by {
      if s == "a@b.com" { assert s[4..] == "com"; } else { assert s[4..] == "c.d"; }
    }
    PatternImpliesEmail(s, 1, 3);
    UnpaddedValue(s);
  }

  /** Addresses the pattern rejects because of their domain: no dot after
      the `@`, or nothing on one side of the dot. */
  lemma BadDomainExamples(s: string)
    requires s == "a@b" || s == "a@.com" || s == "a@b."
    ensures ValidateEmail(s) == Failed(EmailInvalid)
  {
    assert IndexOf(s, '@') == 1;
    if s == "a@b" {
      assert s[2..] == "b";
    } else if s == "a@.com" {
      assert s[2..] == ".com";
    } else {
      assert s[2..] == "b.";
    }
    UnpaddedValue(s);
  }

  /** Addresses the pattern rejects because they do not hold exactly one
      `@`. */
  lemma AtCountExamples(s: string)
    requires s == "a@@b.com" || s == "noatsign.com"
    ensures ValidateEmail(s) == Failed(EmailInvalid)
  {
    if s == "a@@b.com" {
      assert s == s[..2] + s[2..] && s[..2] == "a@" && s[2..][0] == '@';
      CountAppend(s[..2], s[2..], '@');
      assert Count(s, '@') >= 2;
    } else {
      assert Count(s, '@') == 0;
    }
    UnpaddedValue(s);
  }
}
