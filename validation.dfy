/**
 * The string checks shared by the register and login screens: JavaScript's
 * whitespace class (the `\s` of a regular expression, and what
 * `String.prototype.trim` strips), `trim`, the e-mail pattern
 * `^[^\s@]+@[^\s@]+\.[^\s@]+$`, and the e-mail and password rules the two
 * screens write out identically.
 */
module Validation {
  import opened Common

  /** ECMAScript WhiteSpace and LineTerminator code points. */
  predicate IsWhitespace(c: char)
  {
    var n := c as int;
    || (0x09 <= n <= 0x0D) || n == 0x20 || n == 0xA0 || n == 0x1680
    || (0x2000 <= n <= 0x200A) || n == 0x2028 || n == 0x2029
    || n == 0x202F || n == 0x205F || n == 0x3000 || n == 0xFEFF
  }

  /** Empty, or whitespace only: what `!s.trim()` tests. */
  predicate Blank(s: string)
  {
    forall k :: 0 <= k < |s| ==> IsWhitespace(s[k])
  }

  /** Where the text starts: the first non-whitespace position, `|s|` if none. */
  function FirstNonBlank(s: string): (i: nat)
    ensures i <= |s| && Blank(s[..i])
    ensures i < |s| ==> !IsWhitespace(s[i])
  {
    if s == [] || !IsWhitespace(s[0]) then 0
    else
      var i := 1 + FirstNonBlank(s[1..]);
      assert forall k :: 1 <= k < i ==> s[k] == s[1..][k - 1];
      i
  }

  /** Where the text ends: one past the last non-whitespace position, 0 if none. */
  function EndNonBlank(s: string): (j: nat)
    ensures j <= |s| && Blank(s[j..])
    ensures j > 0 ==> !IsWhitespace(s[j - 1])
  {
    if s == [] || !IsWhitespace(s[|s| - 1]) then |s|
    else
      var j := EndNonBlank(s[..|s| - 1]);
      assert forall k :: j <= k < |s| - 1 ==> s[k] == s[..|s| - 1][k];
      j
  }

  /** `s.trim()`. */
  function Trim(s: string): (r: string)
    ensures r == [] <==> Blank(s)
    ensures r != [] ==> !IsWhitespace(r[0]) && !IsWhitespace(r[|r| - 1])
  {
    var i, j := FirstNonBlank(s), EndNonBlank(s);
    if i < j then
      TrimNonBlank(s, i, j);
      s[i..j]
    else
      TrimBlank(s, i, j);
      []
  }

  /** Trimming removes a whitespace-only prefix and suffix and nothing else. */
  lemma TrimRemovesOnlyMargins(s: string)
    ensures exists i :: TrimmedAt(s, Trim(s), i)
  {
    var i, j := FirstNonBlank(s), EndNonBlank(s);
    if i < j {
      TrimNonBlank(s, i, j);
      assert TrimmedAt(s, Trim(s), i);
    } else {
      TrimBlank(s, i, j);
      assert TrimmedAt(s, Trim(s), 0);
    }
  }

  /** `r` is `s` with the whitespace-only margins `s[..i]` and `s[i + |r|..]` removed. */
  predicate TrimmedAt(s: string, r: string, i: int)
  {
    0 <= i && i + |r| <= |s| && r == s[i..i + |r|] && Blank(s[..i]) && Blank(s[i + |r|..])
  }

  lemma TrimNonBlank(s: string, i: nat, j: nat)
    requires i < j <= |s| && Blank(s[..i]) && Blank(s[j..])
    requires !IsWhitespace(s[i])
    ensures !Blank(s) && TrimmedAt(s, s[i..j], i)
  {
    assert s[i..j] == s[i..i + |s[i..j]|];
  }

  lemma TrimBlank(s: string, i: nat, j: nat)
    requires j <= i <= |s| && Blank(s[..i]) && Blank(s[j..])
    ensures Blank(s) && TrimmedAt(s, [], 0)
  {
    forall k | 0 <= k < |s|
      ensures IsWhitespace(s[k])
    {
      if k < i { assert s[k] == s[..i][k]; } else { assert s[k] == s[j..][k - j]; }
    }
    assert s[..0] == [] && s[0..] == s;
  }

  // ---------------------------------------------------------------------
  // The e-mail pattern
  // ---------------------------------------------------------------------

  /** `[^\s@]+`: at least one character, none of them whitespace or '@'. */
  predicate Plain(s: string)
  {
    |s| > 0 && forall k :: 0 <= k < |s| ==> !IsWhitespace(s[k]) && s[k] != '@'
  }

  /** The strings `^[^\s@]+@[^\s@]+\.[^\s@]+$` matches, split at its '@' and its '.'. */
  ghost predicate MatchesEmailRegex(s: string)
  {
    exists i, j :: 0 <= i < j < |s| && s[i] == '@' && s[j] == '.'
                   && Plain(s[..i]) && Plain(s[i + 1..j]) && Plain(s[j + 1..])
  }

  /** The first position of `c` in `s`, `|s|` if none. */
  function IndexOf(s: string, c: char): (i: nat)
    ensures i <= |s|
    ensures i < |s| ==> s[i] == c
    ensures forall k :: 0 <= k < i ==> s[k] != c
  {
    if s == [] || s[0] == c then 0
    else
      var i := 1 + IndexOf(s[1..], c);
      assert forall k :: 1 <= k < i ==> s[k] == s[1..][k - 1];
      i
  }

  /** A '.' with at least one character on each side. */
  predicate HasInnerDot(d: string)
  {
    exists k :: 0 < k < |d| - 1 && d[k] == '.'
  }

  /** `validateEmail`: a local part, one '@', and a domain with an inner dot. */
  function ValidateEmail(email: string): bool
  {
    var at := IndexOf(email, '@');
    0 < at < |email| && Plain(email[..at]) && Plain(email[at + 1..]) && HasInnerDot(email[at + 1..])
  }

  /** `validateEmail` accepts exactly the strings the regular expression matches. */
  lemma ValidateEmailMatchesRegex(s: string)
    ensures ValidateEmail(s) <==> MatchesEmailRegex(s)
  {
    if ValidateEmail(s) {
      ValidateEmailSplits(s);
    }
    if MatchesEmailRegex(s) {
      var i, j :| 0 <= i < j < |s| && s[i] == '@' && s[j] == '.'
                  && Plain(s[..i]) && Plain(s[i + 1..j]) && Plain(s[j + 1..]);
      SplitIsValid(s, i, j);
    }
  }

  lemma ValidateEmailSplits(s: string)
    requires ValidateEmail(s)
    ensures MatchesEmailRegex(s)
  {
    var at := IndexOf(s, '@');
    var d := s[at + 1..];
    var k :| 0 < k < |d| - 1 && d[k] == '.';
    var j := at + 1 + k;
    assert s[at + 1..j] == d[..k];
    assert s[j + 1..] == d[k + 1..];
    assert s[j] == d[k];
    assert Plain(s[at + 1..j]);
    assert Plain(s[j + 1..]);
  }

  lemma SplitIsValid(s: string, i: nat, j: nat)
    requires i < j < |s| && s[i] == '@' && s[j] == '.'
    requires Plain(s[..i]) && Plain(s[i + 1..j]) && Plain(s[j + 1..])
    ensures ValidateEmail(s)
  {
    assert forall k :: 0 <= k < i ==> s[k] == s[..i][k];
    assert IndexOf(s, '@') == i;
    var d := s[i + 1..];
    assert d == s[i + 1..j] + [s[j]] + s[j + 1..];
    PlainJoin(s[i + 1..j], s[j], s[j + 1..]);
    assert d[j - i - 1] == '.';
  }

  /** Two plain strings joined by a character that is neither whitespace nor '@' are plain. */
  lemma PlainJoin(a: string, c: char, b: string)
    requires Plain(a) && Plain(b) && !IsWhitespace(c) && c != '@'
    ensures Plain(a + [c] + b)
  {
    var r := a + [c] + b;
    forall k | 0 <= k < |r|
      ensures !IsWhitespace(r[k]) && r[k] != '@'
    {
      if k < |a| {
        assert r[k] == a[k];
      } else if k > |a| {
        assert r[k] == b[k - |a| - 1];
      }
    }
  }

  /**
   * The same check in words: no whitespace anywhere, exactly one '@', a
   * non-empty part before it, and after it a '.' with text on both sides.
   */
  ghost predicate EmailShape(s: string)
  {
    && (forall k :: 0 <= k < |s| ==> !IsWhitespace(s[k]))
    && multiset(s)['@'] == 1
    && (exists i :: 0 < i < |s| && s[i] == '@' && HasInnerDot(s[i + 1..]))
  }

  lemma ValidateEmailShape(s: string)
    ensures ValidateEmail(s) <==> EmailShape(s)
  {
    if ValidateEmail(s) {
      ValidImpliesShape(s);
    }
    if EmailShape(s) {
      ShapeImpliesValid(s);
    }
  }

  /** Splitting `s` at position `at` splits its multiset of characters. */
  lemma SplitAt(s: string, at: nat)
    requires at < |s|
    ensures multiset(s) == multiset(s[..at]) + multiset{s[at]} + multiset(s[at + 1..])
  {
    assert s == s[..at] + [s[at]] + s[at + 1..];
  }

  lemma ValidImpliesShape(s: string)
    requires ValidateEmail(s)
    ensures EmailShape(s)
  {
    var at := IndexOf(s, '@');
    var d := s[at + 1..];
    SplitAt(s, at);
    assert '@' !in s[..at];
    assert '@' !in d;
    forall k | 0 <= k < |s|
      ensures !IsWhitespace(s[k])
    {
      if k < at { assert s[k] == s[..at][k]; }
      else if k > at { assert s[k] == d[k - at - 1]; }
    }
  }

  lemma ShapeImpliesValid(s: string)
    requires EmailShape(s)
    ensures ValidateEmail(s)
  {
    var i :| 0 < i < |s| && s[i] == '@' && HasInnerDot(s[i + 1..]);
    OnlyAt(s, i);
    assert IndexOf(s, '@') == i;
    var d := s[i + 1..];
    assert forall k :: 0 <= k < |d| ==> d[k] == s[i + 1 + k];
    assert forall k :: 0 <= k < i ==> s[..i][k] == s[k];
  }

  /** When `s` holds a single '@', at position `i`, no other position holds one. */
  lemma OnlyAt(s: string, i: nat)
    requires i < |s| && s[i] == '@' && multiset(s)['@'] == 1
    ensures forall k :: 0 <= k < |s| && k != i ==> s[k] != '@'
  {
    SplitAt(s, i);
    assert multiset(s[..i])['@'] == 0 && multiset(s[i + 1..])['@'] == 0;
    forall k | 0 <= k < |s| && k != i
      ensures s[k] != '@'
    {
      if k < i {
        assert s[k] == s[..i][k] && s[..i][k] in multiset(s[..i]);
      } else {
        assert s[k] == s[i + 1..][k - i - 1] && s[i + 1..][k - i - 1] in multiset(s[i + 1..]);
      }
    }
  }

  /** A valid address always has something besides whitespace. */
  lemma ValidEmailNotBlank(s: string)
    ensures ValidateEmail(s) ==> !Blank(s)
  {
    if ValidateEmail(s) {
      var at := IndexOf(s, '@');
      assert !IsWhitespace(s[at]);
    }
  }

  // ---------------------------------------------------------------------
  // The e-mail and password rules, in their order of priority
  // ---------------------------------------------------------------------

  /** Every message the two screens put in `newErrors`. */
  datatype ErrorMessage =
    | NameRequired | NameTooShort
    | EmailRequired | EmailInvalid
    | PasswordRequired | PasswordTooShort
    | ConfirmRequired | PasswordsDiffer

  /** The text shown for each message; none is empty, so a stored message is always truthy. */
  function Text(m: ErrorMessage): (t: string)
    ensures t != ""
  {
    match m
    case NameRequired => "Name is required"
    case NameTooShort => "Name must be at least 2 characters"
    case EmailRequired => "Email is required"
    case EmailInvalid => "Please enter a valid email"
    case PasswordRequired => "Password is required"
    case PasswordTooShort => "Password must be at least 6 characters"
    case ConfirmRequired => "Please confirm your password"
    case PasswordsDiffer => "Passwords don't match"
  }

  /** "required" when the trimmed value is empty, else the pattern on the raw value. */
  function EmailError(email: string): (e: Option<ErrorMessage>)
    ensures e == Some(EmailRequired) <==> Blank(email)
    ensures e == Some(EmailInvalid) <==> !Blank(email) && !MatchesEmailRegex(email)
    ensures e == None <==> MatchesEmailRegex(email)
  {
    ValidEmailNotBlank(email);
    ValidateEmailMatchesRegex(email);
    if Trim(email) == [] then Some(EmailRequired)
    else if !ValidateEmail(email) then Some(EmailInvalid)
    else None
  }

  /**
   * The pattern is tested on the untrimmed value: an address with a space
   * anywhere, leading and trailing spaces included, is reported invalid.
   */
  lemma EmailWithWhitespaceRejected(email: string, k: nat)
    requires k < |email| && IsWhitespace(email[k])
    ensures EmailError(email).Some?
  {
    ValidateEmailShape(email);
    ValidateEmailMatchesRegex(email);
  }

  /** "required" for the empty string (no trimming), else at least 6 characters. */
  function PasswordError(password: string): (e: Option<ErrorMessage>)
    ensures e == Some(PasswordRequired) <==> password == []
    ensures e == Some(PasswordTooShort) <==> 0 < |password| < 6
    ensures e == None <==> |password| >= 6
  {
    if password == [] then Some(PasswordRequired)
    else if |password| < 6 then Some(PasswordTooShort)
    else None
  }

  // ---------------------------------------------------------------------
  // The screens' `errors` state
  // ---------------------------------------------------------------------

  /** `errors[field]` is truthy: present, not null, and a message whose text is not empty. */
  predicate Truthy<F>(errors: map<F, Option<ErrorMessage>>, f: F)
  {
    f in errors && errors[f].Some? && Text(errors[f].value) != ""
  }

  /** `newErrors` after a field's if/else chain: its message, if the rule produced one, is added. */
  function AddError<F>(errs: map<F, ErrorMessage>, f: F, e: Option<ErrorMessage>): map<F, ErrorMessage>
  {
    if e.Some? then errs[f := e.value] else errs
  }

  /** Looking a field up after one field's chain: a message the chain produced is there, anything else is as before. */
  lemma AddErrorAt<F>(errs: map<F, ErrorMessage>, f: F, e: Option<ErrorMessage>, g: F)
    ensures g in AddError(errs, f, e) <==> (g == f && e.Some?) || g in errs
    ensures g in AddError(errs, f, e) ==> AddError(errs, f, e)[g] == (if g == f && e.Some? then e.value else errs[g])
  {
  }

  /**
   * One field's `if (first) newErrors.f = m1; else if (second) newErrors.f = m2;`:
   * the first failing rule of the field decides its message.
   */
  method CheckField<F>(newErrors: map<F, ErrorMessage>, f: F, first: bool, m1: ErrorMessage, second: bool, m2: ErrorMessage)
    returns (r: map<F, ErrorMessage>)
    ensures r == AddError(newErrors, f, if first then Some(m1) else if second then Some(m2) else None)
  {
    r := newErrors;
    if first {
      r := r[f := m1];
    } else if second {
      r := r[f := m2];
    }
  }

  /** `setErrors(newErrors)`: the messages found, each as a non-null value. */
  function Shown<F>(errs: map<F, ErrorMessage>): (r: map<F, Option<ErrorMessage>>)
    ensures r.Keys == errs.Keys
    ensures forall f :: f in errs ==> r[f] == Some(errs[f])
  {
    map f | f in errs :: Some(errs[f])
  }
}
