/** `src/lib/firebase/auth.ts`: who counts as the administrator, and the rule that
    only the administrator may stay signed in. The configured address
    (`NEXT_PUBLIC_ADMIN_EMAIL`) and the outcomes of the popup and of the sign-out,
    which are calls into the authentication service, are parameters. */
module Auth {
  import opened Wrappers
  import opened Strings

  /** The signed-in account the popup returns. */
  datatype User = User(uid: string, email: Option<string>)

  const AccessDeniedMessage: string := "Acesso negado. Apenas o administrador pode fazer login."

  /** A string-or-missing value JavaScript treats as true: present and non-empty. */
  predicate Truthy(s: Option<string>) {
    s.Some? && s.value != []
  }

  /** `isAdmin(email)` with `adminEmail` configured as the administrator address. */
  function IsAdmin(adminEmail: Option<string>, email: Option<string>): (r: bool)
    ensures r ==> Truthy(email) && Truthy(adminEmail)
  {
    Truthy(email) && Truthy(adminEmail) && Lowercase(email.value) == Lowercase(adminEmail.value)
  }

  /** Without an address, or without a configured administrator, nobody is admin;
      otherwise the test is equality up to letter case. */
  lemma IsAdminCases(adminEmail: Option<string>, email: Option<string>)
    ensures !Truthy(email) || !Truthy(adminEmail) ==> !IsAdmin(adminEmail, email)
    ensures Truthy(email) && Truthy(adminEmail) ==>
      (IsAdmin(adminEmail, email) <==> Lowercase(email.value) == Lowercase(adminEmail.value))
  {
  }

  /** The configured address itself is accepted, whenever it is set. */
  lemma AdminIsAdmin(adminEmail: string)
    requires adminEmail != []
    ensures IsAdmin(Some(adminEmail), Some(adminEmail))
  {
  }

  /** Changing the letter case of the address does not change the answer, in
      either argument. */
  lemma IsAdminIgnoresCase(adminEmail: string, email: string)
    ensures IsAdmin(Some(adminEmail), Some(AsciiUppercase(email))) == IsAdmin(Some(adminEmail), Some(email))
    ensures IsAdmin(Some(AsciiUppercase(adminEmail)), Some(email)) == IsAdmin(Some(adminEmail), Some(email))
  {
    LowercaseOfUppercase(email);
    LowercaseOfUppercase(adminEmail);
  }

  /** `signInWithGoogle()`: `popup` is what the sign-in popup returned and
      `signOut` what the sign-out the code then performs returned. A user is returned
      only if it is the administrator; anyone else is signed out again and refused.
      Every failure is passed on to the caller. */
  function SignInWithGoogle(adminEmail: Option<string>, popup: Result<User, string>, signOut: Outcome<string>): (r: Result<User, string>)
    ensures r.Success? <==> popup.Success? && IsAdmin(adminEmail, popup.value.email)
    ensures r.Success? ==> r.value == popup.value
    ensures popup.Failure? ==> r == Failure(popup.error)
    ensures popup.Success? && !IsAdmin(adminEmail, popup.value.email) ==>
      r == Failure(if signOut.Fail? then signOut.error else AccessDeniedMessage)
  {
    match popup
    case Failure(e) => Failure(e)
    case Success(user) =>
      if !IsAdmin(adminEmail, user.email) then
        (if signOut.Fail? then Failure(signOut.error) else Failure(AccessDeniedMessage))
      else Success(user)
  }

  /** Signing in with the address in other letter case is accepted too. */
  lemma SignInIgnoresCase(adminEmail: string, uid: string, signOut: Outcome<string>)
    requires adminEmail != []
    ensures SignInWithGoogle(Some(adminEmail), Success(User(uid, Some(AsciiUppercase(adminEmail)))), signOut).Success?
  {
    AdminIsAdmin(adminEmail);
    IsAdminIgnoresCase(adminEmail, adminEmail);
  }
}
