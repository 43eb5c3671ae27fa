/**
 * The contact-form validator of the portfolio page (validateForm in app.js):
 * four rules over the already-trimmed field values, checked in a fixed
 * order, each contributing one message when it fails.
 */
module Validation {

  const NameError := "Name must be at least 2 characters long"
  const EmailError := "Please enter a valid email address"
  const SubjectError := "Subject must be at least 3 characters long"
  const MessageError := "Message must be at least 10 characters long"

  /** The separator that joins the messages into one banner text. */
  const LineBreak := "<br>"

  /** The characters of JavaScript's `\s` class. */
  predicate IsSpace(c: char) {
    || c == '\t' || c == '\n' || c == '\U{B}' || c == '\U{C}' || c == '\r' || c == ' '
    || c == '\U{A0}' || c == '\U{1680}' || ('\U{2000}' <= c <= '\U{200A}')
    || c == '\U{2028}' || c == '\U{2029}' || c == '\U{202F}' || c == '\U{205F}'
    || c == '\U{3000}' || c == '\U{FEFF}'
  }

  /** One character of the regex class `[^\s@]`. */
  predicate Plain(c: char) {
    !IsSpace(c) && c != '@'
  }

  predicate AllPlain(s: string) {
    forall i | 0 <= i < |s| :: Plain(s[i])
  }

  /**
   * The email regex `^[^\s@]+@[^\s@]+\.[^\s@]+$`, written out: the string
   * splits as local part, '@', host, '.', top-level part, where each of the
   * three parts is a non-empty run of `[^\s@]`. The regex engine may pick
   * any such split, hence the existential.
   */
  predicate MatchesEmailPattern(s: string) {
    exists at, dot | 0 < at < |s| && at + 1 < dot < |s| - 1 ::
      && s[at] == '@' && s[dot] == '.'
      && AllPlain(s[..at]) && AllPlain(s[at + 1..dot]) && AllPlain(s[dot + 1..])
  }

  /**
   * The same shape in words: no whitespace anywhere, exactly one '@' with at
   * least one character before it, and after the '@' a '.' with at least one
   * character on each side.
   */
  predicate WellFormedEmail(s: string) {
    && (forall i | 0 <= i < |s| :: !IsSpace(s[i]))
    && exists at | 0 < at < |s| ::
         && s[at] == '@'
         && (forall i | 0 <= i < |s| && i != at :: s[i] != '@')
         && exists dot | at + 1 < dot < |s| - 1 :: s[dot] == '.'
  }

  lemma PatternImpliesWellFormed(s: string, at: int, dot: int)
    requires 0 < at < |s| && at + 1 < dot < |s| - 1
    requires s[at] == '@' && s[dot] == '.'
    requires AllPlain(s[..at]) && AllPlain(s[at + 1..dot]) && AllPlain(s[dot + 1..])
    ensures forall i | 0 <= i < |s| :: !IsSpace(s[i])
    ensures forall i | 0 <= i < |s| && i != at :: s[i] != '@'
  {
    forall i | 0 <= i < |s|
      ensures !IsSpace(s[i]) && (i != at ==> s[i] != '@')
    {
      if i < at {
        assert s[i] == s[..at][i];
      } else if at < i < dot {
        assert s[i] == s[at + 1..dot][i - at - 1];
      } else if dot < i {
        assert s[i] == s[dot + 1..][i - dot - 1];
      }
    }
  }

  lemma WellFormedImpliesPattern(s: string, at: int, dot: int)
    requires forall i | 0 <= i < |s| :: !IsSpace(s[i])
    requires 0 < at < |s| && s[at] == '@'
    requires forall i | 0 <= i < |s| && i != at :: s[i] != '@'
    requires at + 1 < dot < |s| - 1 && s[dot] == '.'
    ensures AllPlain(s[..at]) && AllPlain(s[at + 1..dot]) && AllPlain(s[dot + 1..])
  {
    var local, host, tld := s[..at], s[at + 1..dot], s[dot + 1..];
    forall i | 0 <= i < |local| ensures Plain(local[i]) {
      assert local[i] == s[i];
    }
    forall i | 0 <= i < |host| ensures Plain(host[i]) {
      assert host[i] == s[at + 1 + i];
    }
    forall i | 0 <= i < |tld| ensures Plain(tld[i]) {
      assert tld[i] == s[dot + 1 + i];
    }
  }

  /** The regex accepts exactly the well-formed addresses, in both directions. */
  lemma EmailPatternCharacterized(s: string)
    ensures MatchesEmailPattern(s) <==> WellFormedEmail(s)
  {
    if MatchesEmailPattern(s) {
      var at, dot :| 0 < at < |s| && at + 1 < dot < |s| - 1
        && s[at] == '@' && s[dot] == '.'
        && AllPlain(s[..at]) && AllPlain(s[at + 1..dot]) && AllPlain(s[dot + 1..]);
      PatternImpliesWellFormed(s, at, dot);
    }
    if WellFormedEmail(s) {
      var at :| 0 < at < |s| && s[at] == '@'
        && (forall i | 0 <= i < |s| && i != at :: s[i] != '@')
        && exists dot | at + 1 < dot < |s| - 1 :: s[dot] == '.';
      var dot :| at + 1 < dot < |s| - 1 && s[dot] == '.';
      WellFormedImpliesPattern(s, at, dot);
    }
  }

  /**
   * The messages validateForm collects, in the order it checks the rules:
   * name, email, subject, message.
   */
  function Errors(name: string, email: string, subject: string, message: string): seq<string> {
    (if |name| < 2 then [NameError] else [])
    + (if !MatchesEmailPattern(email) then [EmailError] else [])
    + (if |subject| < 3 then [SubjectError] else [])
    + (if |message| < 10 then [MessageError] else [])
  }

  /** The position of each message's rule in the checking order. */
  function Rank(error: string): nat {
    if error == NameError then 0
    else if error == EmailError then 1
    else if error == SubjectError then 2
    else 3
  }

  /** Each rule contributes its message exactly when the rule fails. */
  lemma ErrorsFollowRules(name: string, email: string, subject: string, message: string)
    ensures var errors := Errors(name, email, subject, message);
      && (NameError in errors <==> |name| < 2)
      && (EmailError in errors <==> !MatchesEmailPattern(email))
      && (SubjectError in errors <==> |subject| < 3)
      && (MessageError in errors <==> |message| < 10)
      && (forall e | e in errors :: e in [NameError, EmailError, SubjectError, MessageError])
  {
    DistinctMessages();
  }

  /** The messages appear in rule order, each at most once. */
  lemma ErrorsInRuleOrder(name: string, email: string, subject: string, message: string)
    ensures var errors := Errors(name, email, subject, message);
      forall i, j | 0 <= i < j < |errors| :: Rank(errors[i]) < Rank(errors[j])
  {
    DistinctMessages();
  }

  /** The form is valid (validateForm returns true) exactly when no message is collected. */
  lemma NoErrorsIffAllRulesPass(name: string, email: string, subject: string, message: string)
    ensures Errors(name, email, subject, message) == []
        <==> |name| >= 2 && WellFormedEmail(email) && |subject| >= 3 && |message| >= 10
  {
    EmailPatternCharacterized(email);
  }

  lemma DistinctMessages()
    ensures NameError != EmailError && NameError != SubjectError && NameError != MessageError
    ensures EmailError != SubjectError && EmailError != MessageError
    ensures SubjectError != MessageError
  {
    assert NameError[0] != EmailError[0];
    assert NameError[0] != SubjectError[0] && NameError[0] != MessageError[0];
    assert EmailError[0] != SubjectError[0] && EmailError[0] != MessageError[0];
    assert SubjectError[0] != MessageError[0];
  }

  /** A fully valid quadruple yields no message. */
  lemma ValidExample()
    ensures Errors("Jo", "a@b.co", "Hi there", "This is a long enough message") == []
  {
    var email := "a@b.co";
    assert email[..1] == "a" && email[2..3] == "b" && email[4..] == "co";
    assert MatchesEmailPattern(email) by {
      assert 0 < 1 < |email| && 1 + 1 < 3 < |email| - 1 && email[1] == '@' && email[3] == '.';
    }
  }

  /** A two-character message fails the message rule alone. */
  lemma ShortMessageExample()
    ensures Errors("Jo", "a@b.co", "Hi there", "hi") == [MessageError]
  {
    ValidExample();
  }

  /** Array.prototype.join with a separator: the parts in order, separated. */
  function Join(parts: seq<string>, sep: string): string {
    if |parts| == 0 then ""
    else if |parts| == 1 then parts[0]
    else parts[0] + sep + Join(parts[1..], sep)
  }
}
