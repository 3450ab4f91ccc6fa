/** `LoginDto`: the validation attributes on the login request. */
module LoginDto {
  import opened Wrappers
  import opened Text
  import RegisterDto

  /** A failed validation attribute, with the message it reports. */
  datatype ValidationError =
    | RequiredMissing(field: string)
    | TooShort(field: string, message: string)

  const PasswordTooShort := "Password must be at least 12 characters long"

  /**
   * The body of `POST /api/account/login`. `Password` defaults to the empty
   * string, so an omitted password arrives as `Some("")`; a JSON null is `None`.
   */
  datatype LoginRequest = LoginRequest(username: Option<string>, password: Option<string>)

  /** The value `Password` has when the body leaves it out. */
  const DefaultPassword: Option<string> := Some("")

  /** `[MinLength(12)]`: null passes; otherwise at least 12 characters. */
  predicate MinLength12(s: Option<string>)
  {
    s.None? || |s.value| >= 12
  }

  /** The attribute failures of a login request. */
  function LoginErrors(d: LoginRequest): (r: set<ValidationError>)
    ensures RequiredMissing("Username") in r <==> !RegisterDto.Required(d.username)
    ensures RequiredMissing("Password") in r <==> !RegisterDto.Required(d.password)
    ensures TooShort("Password", PasswordTooShort) in r <==> d.password.Some? && |d.password.value| < 12
    ensures r == {} <==> RegisterDto.Required(d.username) && RegisterDto.Required(d.password) && MinLength12(d.password)
  {
    (if RegisterDto.Required(d.username) then {} else {RequiredMissing("Username")})
    + (if RegisterDto.Required(d.password) then {} else {RequiredMissing("Password")})
    + (if MinLength12(d.password) then {} else {TooShort("Password", PasswordTooShort)})
  }

  /**
   * There is no character-class rule at login: any password of at least 12
   * characters that is not only white space passes.
   */
  lemma AnyLongPasswordPasses(username: string, password: string)
    requires RegisterDto.Required(Some(username))
    requires |password| >= 12 && !AllWhiteSpace(password)
    ensures LoginErrors(LoginRequest(Some(username), Some(password))) == {}
  {
  }

  /** An omitted password fails both as missing and as too short. */
  lemma OmittedPasswordFails(username: Option<string>)
    ensures var r := LoginErrors(LoginRequest(username, DefaultPassword));
      RequiredMissing("Password") in r && TooShort("Password", PasswordTooShort) in r
  {
    assert AllWhiteSpace("");
  }

  /** Every password the registration rule accepts passes the login rule. */
  lemma {:induction false} RegisterStrongerThanLogin(d: RegisterDto.RegisterRequest, isEmail: string -> bool)
    requires RegisterDto.RegisterErrors(d, isEmail) == {}
    ensures LoginErrors(LoginRequest(d.username, d.password)) == {}
  {
    RegisterDto.RegisterAccepted(d, isEmail);
  }
}
