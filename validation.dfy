/**
 * validation.js: the e-mail pattern `^[^\s@]+@[^\s@]+\.[^\s@]+$` and the
 * form check built on it. auth.js tests e-mails against the same pattern.
 */
module Validation {
  import opened Wrappers
  import opened Seqs
  import opened Strings

  /** A character of `[^\s@]`. */
  predicate Plain(c: char) { c != '@' && !IsJsWhitespace(c) }

  predicate AllPlain(s: string) { forall i :: 0 <= i < |s| ==> Plain(s[i]) }

  predicate IsAt(c: char) { c == '@' }

  /** The part after the `@`: plain characters with a `.` that is neither first nor last. */
  predicate ValidDomain(d: string)
  {
    AllPlain(d) && |d| >= 3 && '.' in d[1..|d| - 1]
  }

  /** `validateEmail`: the text before the first `@` is plain and not empty, and what follows is a valid domain. */
  predicate ValidEmail(email: string)
    ensures ValidEmail(email) ==> |email| >= 5 && forall i :: 0 <= i < |email| ==> !IsJsWhitespace(email[i])
  {
    var at := FindIndex(email, IsAt);
    0 < at < |email| && AllPlain(email[..at]) && ValidDomain(email[at + 1..])
  }

  /** `email` is `local@left.right`, each part a non-empty run of `[^\s@]`. */
  predicate EmailParts(email: string, local: string, left: string, right: string)
  {
    && email == local + "@" + left + "." + right
    && |local| > 0 && |left| > 0 && |right| > 0
    && AllPlain(local) && AllPlain(left) && AllPlain(right)
  }

  /** The recogniser accepts exactly the texts the pattern describes. */
  lemma {:induction false} ValidEmailIff(email: string)
    ensures ValidEmail(email) <==> exists l, a, b :: EmailParts(email, l, a, b)
  {
    var at := FindIndex(email, IsAt);
    if ValidEmail(email) {
      var l, d := email[..at], email[at + 1..];
      var k :| 0 <= k < |d[1..|d| - 1]| && d[1..|d| - 1][k] == '.';
      var a, b := d[..k + 1], d[k + 2..];
      assert d == a + "." + b;
      assert email == l + "@" + d;
      forall i | 0 <= i < |a| ensures Plain(a[i]) { assert a[i] == d[i]; }
      forall i | 0 <= i < |b| ensures Plain(b[i]) { assert b[i] == d[k + 2 + i]; }
      assert EmailParts(email, l, a, b);
    }
    if exists l, a, b :: EmailParts(email, l, a, b) {
      var l, a, b :| EmailParts(email, l, a, b);
      PartsAccepted(email, l, a, b);
    }
  }

  lemma {:induction false} PartsAccepted(email: string, l: string, a: string, b: string)
    requires EmailParts(email, l, a, b)
    ensures ValidEmail(email)
  {
    var d := a + "." + b;
    assert email == l + "@" + d;
    FirstAt(email, l, d);
    DomainOfParts(a, b);
  }

  /** The first `@` of `l + "@" + rest`, with `l` free of `@`, is the one after `l`. */
  lemma {:induction false} FirstAt(email: string, l: string, rest: string)
    requires email == l + "@" + rest && AllPlain(l)
    ensures FindIndex(email, IsAt) == |l|
    ensures email[..|l|] == l && email[|l| + 1..] == rest
  {
    assert email[|l|] == '@';
    forall j | 0 <= j < |l| ensures !IsAt(email[j]) {
      assert email[j] == l[j];
    }
  }

  lemma {:induction false} DomainOfParts(a: string, b: string)
    requires |a| > 0 && |b| > 0 && AllPlain(a) && AllPlain(b)
    ensures ValidDomain(a + "." + b)
  {
    var d := a + "." + b;
    forall i | 0 <= i < |d| ensures Plain(d[i]) {
      if i < |a| {
        assert d[i] == a[i];
      } else if i > |a| {
        assert d[i] == b[i - |a| - 1];
      }
    }
    assert d[1..|d| - 1][|a| - 1] == '.';
  }

  /** A text without any `@` is rejected. */
  lemma {:induction false} NoAtRejected(email: string)
    requires forall i :: 0 <= i < |email| ==> email[i] != '@'
    ensures !ValidEmail(email)
  {
  }

  /** A text with two or more `@` is rejected. */
  lemma {:induction false} TwoAtsRejected(email: string, i: nat, j: nat)
    requires i < j < |email| && email[i] == '@' && email[j] == '@'
    ensures !ValidEmail(email)
  {
    var at := FindIndex(email, IsAt);
    assert at <= i;
    if 0 < at < |email| {
      var d := email[at + 1..];
      assert d[j - at - 1] == '@';
    }
  }

  /** `data.email`: `None` when the field is missing. */
  datatype Form = Form(email: Option<string>)

  /** `validateForm`. */
  predicate ValidForm(data: Form)
  {
    if data.email.None? || data.email.value == "" then false else ValidEmail(data.email.value)
  }

  /** A form passes exactly when its e-mail is present and valid; a missing or empty one fails. */
  lemma {:induction false} ValidFormIff(data: Form)
    ensures ValidForm(data) <==> data.email.Some? && ValidEmail(data.email.value)
    ensures data.email.None? || data.email == Some("") ==> !ValidForm(data)
  {
  }
}
