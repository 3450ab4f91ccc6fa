/**
 * `RegisterDto`: the validation attributes on the registration request.
 *
 * Character classes are ASCII: `\d` is read as `0-9`.
 */
module RegisterDto {
  import opened Wrappers
  import opened Text

  /** The request fields validation reports on. */
  datatype Field = Username | Email | Password

  /** The body of `POST /api/account/register`; a JSON null is `None`. */
  datatype RegisterRequest = RegisterRequest(
    username: Option<string>,
    email: Option<string>,
    password: Option<string>)

  /** `[Required]` on a string: not null, not empty, not only white space. */
  predicate Required(s: Option<string>)
  {
    !IsNullOrWhiteSpace(s)
  }

  predicate IsLower(c: char) { 'a' <= c <= 'z' }
  predicate IsUpper(c: char) { 'A' <= c <= 'Z' }
  predicate IsDigit(c: char) { '0' <= c <= '9' }
  /** The class `[@$!%*?&]`. */
  predicate IsSpecial(c: char) { c in "@$!%*?&" }

  /** The class `[A-Za-z\d@$!%*?&]`. */
  predicate IsAllowed(c: char)
  {
    IsLower(c) || IsUpper(c) || IsDigit(c) || IsSpecial(c)
  }

  /** Some character of `s` belongs to the class `cls`. */
  predicate HasSome(s: string, cls: char -> bool)
  {
    exists i :: 0 <= i < |s| && cls(s[i])
  }

  /**
   * The lookahead `(?=.*X)` at the start of the string: an `X` occurs with
   * only non-newline characters before it (`.` does not match `\n`).
   */
  predicate Lookahead(s: string, cls: char -> bool)
  {
    exists i :: 0 <= i < |s| && cls(s[i]) && forall j :: 0 <= j < i ==> s[j] != '\n'
  }

  /**
   * `^(?=.*[a-z])(?=.*[A-Z])(?=.*\d)(?=.*[@$!%*?&])[A-Za-z\d@$!%*?&]{12,}$`
   * matched against the whole value, as `[RegularExpression]` requires.
   */
  predicate PasswordPatternMatches(s: string)
  {
    && Lookahead(s, IsLower) && Lookahead(s, IsUpper) && Lookahead(s, IsDigit) && Lookahead(s, IsSpecial)
    && |s| >= 12 && forall i :: 0 <= i < |s| ==> IsAllowed(s[i])
  }

  /** The registration password rule in plain terms. */
  predicate IsStrongPassword(s: string)
  {
    && |s| >= 12
    && (forall i :: 0 <= i < |s| ==> IsAllowed(s[i]))
    && HasSome(s, IsLower) && HasSome(s, IsUpper) && HasSome(s, IsDigit) && HasSome(s, IsSpecial)
  }

  /** The lookaheads add nothing beyond "contains one of each class": the pattern is the plain rule. */
  lemma PatternIsStrongPassword(s: string)
    ensures PasswordPatternMatches(s) <==> IsStrongPassword(s)
  {
    if IsStrongPassword(s) {
      assert forall j :: 0 <= j < |s| ==> s[j] != '\n' by {
        forall j | 0 <= j < |s| ensures s[j] != '\n' {
          assert IsAllowed(s[j]);
        }
      }
    }
  }

  /**
   * `[RegularExpression]` accepts a null or empty value (`[Required]` is what
   * rejects those) and otherwise requires a whole-value match.
   */
  predicate PatternAttributeValid(s: Option<string>)
  {
    s.None? || s.value == [] || PasswordPatternMatches(s.value)
  }

  /**
   * The fields that fail validation. `[EmailAddress]` is framework code not
   * part of this model and is the parameter `isEmail`; like every validation
   * attribute but `[Required]` it lets null through.
   */
  function RegisterErrors(d: RegisterRequest, isEmail: string -> bool): (r: set<Field>)
    ensures Username in r <==> !Required(d.username)
    ensures Email in r <==> !Required(d.email) || (d.email.Some? && !isEmail(d.email.value))
    ensures Password in r <==> !Required(d.password) || !PatternAttributeValid(d.password)
  {
    (if Required(d.username) then {} else {Username})
    + (if Required(d.email) && (d.email.None? || isEmail(d.email.value)) then {} else {Email})
    + (if Required(d.password) && PatternAttributeValid(d.password) then {} else {Password})
  }

  /** A registration is accepted iff all three fields are present and the password is strong. */
  lemma {:induction false} RegisterAccepted(d: RegisterRequest, isEmail: string -> bool)
    ensures RegisterErrors(d, isEmail) == {} <==>
      && Required(d.username)
      && Required(d.email) && isEmail(d.email.value)
      && d.password.Some? && IsStrongPassword(d.password.value)
  {
    if d.password.Some? {
      PatternIsStrongPassword(d.password.value);
      if IsStrongPassword(d.password.value) {
        assert d.password.value[0] != ' ' by { assert IsAllowed(d.password.value[0]); }
      }
    }
    if d.password.Some? && Required(d.password) && PatternAttributeValid(d.password) {
      assert d.password.value != [];
    }
    assert Username !in RegisterErrors(d, isEmail) <==> Required(d.username);
    assert Email !in RegisterErrors(d, isEmail) <==> Required(d.email) && isEmail(d.email.value);
  }

  /** Any character outside `[A-Za-z0-9@$!%*?&]` makes a password invalid, whatever else it has. */
  lemma ForeignCharacterRejected(s: string, i: int)
    requires 0 <= i < |s| && !IsAllowed(s[i])
    ensures !IsStrongPassword(s)
  {
  }

  /** Eleven characters are never enough. */
  lemma ElevenRejected(s: string)
    requires |s| <= 11
    ensures !IsStrongPassword(s)
  {
  }

  /** Twelve allowed characters covering the four classes are enough. */
  lemma TwelveAccepted()
    ensures IsStrongPassword("Abcdefgh12!?")
  {
    var s := "Abcdefgh12!?";
    assert IsLower(s[1]) && IsUpper(s[0]) && IsDigit(s[8]) && IsSpecial(s[10]);
  }

  /** Appending an allowed character to a strong password keeps it strong. */
  lemma AppendAllowedKeepsStrong(s: string, c: char)
    requires IsStrongPassword(s) && IsAllowed(c)
    ensures IsStrongPassword(s + [c])
  {
    var t := s + [c];
    assert forall i :: 0 <= i < |s| ==> t[i] == s[i];
    var lo :| 0 <= lo < |s| && IsLower(s[lo]);
    var up :| 0 <= up < |s| && IsUpper(s[up]);
    var dg :| 0 <= dg < |s| && IsDigit(s[dg]);
    var sp :| 0 <= sp < |s| && IsSpecial(s[sp]);
    assert IsLower(t[lo]) && IsUpper(t[up]) && IsDigit(t[dg]) && IsSpecial(t[sp]);
  }

  /**
   * Removing the only character of a required class (`cls` is one of the
   * four) makes the password fail.
   */
  lemma RemoveSoleClassMemberRejected(s: string, i: int, cls: char -> bool)
    requires cls == IsLower || cls == IsUpper || cls == IsDigit || cls == IsSpecial
    requires 0 <= i < |s| && cls(s[i])
    requires forall j :: 0 <= j < |s| && j != i ==> !cls(s[j])
    ensures !IsStrongPassword(s[..i] + s[i + 1..])
  {
    var t := s[..i] + s[i + 1..];
    assert forall k :: 0 <= k < |t| ==> t[k] == if k < i then s[k] else s[k + 1];
    assert !HasSome(t, cls) by {
      forall k | 0 <= k < |t| ensures !cls(t[k]) {
        if k >= i { assert t[k] == s[k + 1]; }
      }
    }
  }

  // ------------------------------------------- the Identity password policy

  /** ASP.NET Identity's `IsLetterOrDigit`: ASCII letters and digits. */
  predicate IdentityLetterOrDigit(c: char)
  {
    IsLower(c) || IsUpper(c) || IsDigit(c)
  }

  /**
   * The policy `AddIdentity` is configured with: at least 12 characters, a
   * digit, a lower-case and an upper-case letter, and a non-alphanumeric
   * character.
   */
  predicate MeetsIdentityPolicy(s: string)
  {
    && |s| >= 12
    && HasSome(s, IsDigit) && HasSome(s, IsLower) && HasSome(s, IsUpper)
    && exists i :: 0 <= i < |s| && !IdentityLetterOrDigit(s[i])
  }

  /** Every password the registration form accepts also passes the Identity policy. */
  lemma StrongMeetsIdentityPolicy(s: string)
    requires IsStrongPassword(s)
    ensures MeetsIdentityPolicy(s)
  {
    var sp :| 0 <= sp < |s| && IsSpecial(s[sp]);
    assert !IdentityLetterOrDigit(s[sp]);
  }

  /** The converse fails: Identity accepts `#`, the registration pattern does not. */
  lemma IdentityPolicyIsWeaker()
    ensures MeetsIdentityPolicy("Abcdefgh123#") && !IsStrongPassword("Abcdefgh123#")
  {
    var s := "Abcdefgh123#";
    assert IsDigit(s[8]) && IsLower(s[1]) && IsUpper(s[0]) && !IdentityLetterOrDigit(s[11]);
    assert !IsAllowed(s[11]);
  }
}
