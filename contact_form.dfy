/** The contact form's submit handler up to the hand-off: the e-mail check,
    the order of the two validations, and the text of the message it builds. */
module ContactForm {
  import opened JsText
  import opened Options

  // ---------------------------------------------------------------------
  // isValidEmail: /^[^\s@]+@[^\s@]+\.[^\s@]+$/

  /** A character of the class `[^\s@]`. */
  predicate IsPartChar(c: char) {
    !IsWhitespace(c) && c != '@'
  }

  /** Every character of `s[lo..hi]` is of the class `[^\s@]`. */
  predicate PartChars(s: string, lo: nat, hi: nat)
    requires lo <= hi <= |s|
  {
    forall k :: lo <= k < hi ==> IsPartChar(s[k])
  }

  /** The regular expression matches `s` with its '@' at index `at` and the
      '.' before the last run at index `dot`: three non-empty runs of
      `[^\s@]` around them. */
  predicate MatchesAt(s: string, at: nat, dot: nat) {
    0 < at && at + 1 < dot && dot + 1 < |s| && s[at] == '@' && s[dot] == '.' &&
    PartChars(s, 0, at) && PartChars(s, at + 1, dot) && PartChars(s, dot + 1, |s|)
  }

  /** `isValidEmail`, as the regular expression defines it. */
  ghost predicate MatchesEmailRegex(s: string) {
    exists at: nat, dot: nat :: MatchesAt(s, at, dot)
  }

  /** How often `c` occurs in `s`. */
  function Count(s: string, c: char): nat {
    if s == [] then 0 else Count(s[..|s| - 1], c) + (if s[|s| - 1] == c then 1 else 0)
  }

  /** The index of the first `c` in `s`, or |s| when there is none. */
  function IndexOf(s: string, c: char): (i: nat)
    ensures i <= |s|
    ensures i < |s| ==> s[i] == c
    ensures forall k :: 0 <= k < i ==> s[k] != c
  {
    if s == [] then 0
    else if s[0] == c then 0
    else 1 + IndexOf(s[1..], c)
  }

  predicate NoWhitespace(s: string) {
    forall k :: 0 <= k < |s| ==> !IsWhitespace(s[k])
  }

  /** isValidEmail, as a check on the characters: no whitespace, exactly one
      '@' with something before it, and after it a '.' with at least one
      character on each side. */
  predicate IsValidEmail(s: string)
    ensures IsValidEmail(s) ==> |s| >= 5 && s[0] != '@' && '@' in s
  {
    var at := IndexOf(s, '@');
    NoWhitespace(s) && Count(s, '@') == 1 && 0 < at < |s| &&
    exists dot :: at + 1 < dot < |s| - 1 && s[dot] == '.'
  }

  lemma {:induction false} CountAppend(a: string, b: string, c: char)
    ensures Count(a + b, c) == Count(a, c) + Count(b, c)
    decreases |b|
  {
    if b != [] {
      assert (a + b)[..|a + b| - 1] == a + b[..|b| - 1];
      CountAppend(a, b[..|b| - 1], c);
    } else {
      assert a + b == a;
    }
  }

  lemma {:induction false} CountZero(s: string, c: char)
    ensures Count(s, c) == 0 <==> forall k :: 0 <= k < |s| ==> s[k] != c
  {
    if s != [] {
      CountZero(s[..|s| - 1], c);
      assert forall k :: 0 <= k < |s| - 1 ==> s[..|s| - 1][k] == s[k];
    }
  }

  /** With `c` at index `i`, `c` occurs once exactly when it occurs nowhere else. */
  lemma CountOne(s: string, i: nat, c: char)
    requires i < |s| && s[i] == c
    ensures Count(s, c) == 1 <==> forall k :: 0 <= k < |s| && k != i ==> s[k] != c
  {
    var a, b := s[..i], s[i + 1..];
    assert s == a + [c] + b;
    CountAppend(a + [c], b, c);
    CountAppend(a, [c], c);
    assert [c][..0] == [];
    CountZero(a, c);
    CountZero(b, c);
    assert forall k :: 0 <= k < i ==> a[k] == s[k];
    assert forall k :: i < k < |s| ==> b[k - i - 1] == s[k];
  }

  /** The check on the characters accepts exactly what the regular
      expression matches. */
  lemma IsValidEmailMatchesRegex(s: string)
    ensures IsValidEmail(s) <==> MatchesEmailRegex(s)
  {
    if IsValidEmail(s) {
      var at := IndexOf(s, '@');
      var dot :| at + 1 < dot < |s| - 1 && s[dot] == '.';
      CountOne(s, at, '@');
      assert MatchesAt(s, at, dot);
    }
    if MatchesEmailRegex(s) {
      var at: nat, dot: nat :| MatchesAt(s, at, dot);
      assert forall k :: 0 <= k < |s| && k != at ==> IsPartChar(s[k]) by {
        forall k | 0 <= k < |s| && k != at
          ensures IsPartChar(s[k])
        {
          if k < at {
            assert PartChars(s, 0, at);
          } else if k < dot {
            assert PartChars(s, at + 1, dot);
          } else if k > dot {
            assert PartChars(s, dot + 1, |s|);
          }
        }
      }
      CountOne(s, at, '@');
      assert IndexOf(s, '@') == at;
    }
  }

  /** An address that holds whitespace is never accepted. */
  lemma WhitespaceRejected(s: string, k: nat)
    requires k < |s| && IsWhitespace(s[k])
    ensures !IsValidEmail(s)
  {
  }

  // ---------------------------------------------------------------------
  // The submit handler

  const FillAllFieldsNotice: string := "Please fill in all fields"
  const InvalidEmailNotice: string := "Please enter a valid email address"

  /** The outcome of a submission: an error notification, or the text of
      the message that is then offered for WhatsApp, e-mail or the clipboard. */
  datatype Submission = Rejected(notice: string) | Prepared(content: string)

  /** The value of the form's select, or 'general' when it has none. */
  function InquiryType(select: Option<string>): (t: string)
    ensures select.None? ==> t == "general"
  {
    match select
    case Some(v) => v
    case None => "general"
  }

  /** `s.charAt(0).toUpperCase() + s.slice(1)`. */
  function Capitalize(s: string): (r: string)
    ensures |r| == |s|
    ensures s != [] ==> r[0] == UpperChar(s[0])
    ensures forall k :: 1 <= k < |s| ==> r[k] == s[k]
  {
    if s == [] then [] else [UpperChar(s[0])] + s[1..]
  }

  /** Capitalising twice is capitalising once. */
  lemma CapitalizeIdempotent(s: string)
    ensures Capitalize(Capitalize(s)) == Capitalize(s)
  {
  }

  /** The default inquiry type is shown as "General". */
  lemma GeneralCapitalized()
    ensures Capitalize(InquiryType(None)) == "General"
  {
  }

  /** The line that shows the inquiry type. */
  function TypeLine(typeText: string): string {
    "*Type:* " + typeText + "\n"
  }

  /** The part of the message before the type line. */
  function Preamble(name: string, email: string, subject: string): string {
    "\U{1F4E7} *New Contact Form Submission*\n\n" +
    "\U{1F464} *Name:* " + name + "\n" +
    "\U{1F4E7} *Email:* " + email + "\n" +
    "\U{1F4CB} *Subject:* " + subject + "\n" +
    "\U{1F3F7}\U{FE0F} "
  }

  /** The part between the type line and the user's own message. */
  function TimeLine(timestamp: string): string {
    "\U{23F0} *Time:* " + timestamp + "\n\n" +
    "\U{1F4AC} *Message:*\n"
  }

  const ContentFooter: string := "\n\n---\nSent from Shivam Patil's Portfolio Website"

  lemma Infix(a: string, m: string, b: string)
    ensures OccursAt(a + m + b, m, |a|)
    ensures (a + m + b)[|a + m + b| - |b|..] == b
  {
    assert (a + m + b)[|a|..|a| + |m|] == m;
  }

  /** createMessageContent, with the time it reads passed in as text: the
      capitalised type is on the Type line, and the user's message, unchanged,
      sits between the labelled block and the fixed signature. */
  function CreateMessageContent(name: string, email: string, subject: string, message: string,
                                inquiryType: string, timestamp: string): (r: string)
    ensures Includes(r, TypeLine(Capitalize(inquiryType)))
    ensures |r| >= |ContentFooter| + |message|
    ensures OccursAt(r, message, |r| - |ContentFooter| - |message|)
    ensures r[|r| - |ContentFooter|..] == ContentFooter
  {
    var head := Preamble(name, email, subject);
    var line := TypeLine(Capitalize(inquiryType));
    var before := head + line + TimeLine(timestamp);
    var r := before + message + ContentFooter;
    assert r == head + line + (TimeLine(timestamp) + message + ContentFooter);
    Infix(head, line, TimeLine(timestamp) + message + ContentFooter);
    IncludesAt(r, line, |head|);
    Infix(before, message, ContentFooter);
    r
  }

  /** The submit handler: all four fields must be non-empty, then the
      address must be valid, and only then is the message built. */
  function SubmitContactForm(name: string, email: string, subject: string, message: string,
                             select: Option<string>, timestamp: string): (r: Submission)
    ensures r == Rejected(FillAllFieldsNotice) <==> name == [] || email == [] || subject == [] || message == []
    ensures r == Rejected(InvalidEmailNotice) <==>
              name != [] && email != [] && subject != [] && message != [] && !MatchesEmailRegex(email)
    ensures r.Prepared? <==>
              name != [] && email != [] && subject != [] && message != [] && MatchesEmailRegex(email)
    ensures r.Prepared? ==>
              r.content == CreateMessageContent(name, email, subject, message, InquiryType(select), timestamp)
  {
    IsValidEmailMatchesRegex(email);
    if name == [] || email == [] || subject == [] || message == [] then
      Rejected(FillAllFieldsNotice)
    else if !IsValidEmail(email) then
      Rejected(InvalidEmailNotice)
    else
      Prepared(CreateMessageContent(name, email, subject, message, InquiryType(select), timestamp))
  }
}
