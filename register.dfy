/** The registration page (src/app/auth/register/register.page.ts): four
    checks on the form in a fixed order, the first failing one deciding the
    message; then registration through the auth service. Also the e-mail
    pattern and the password strength meter. */
module Register {
  import opened Wrappers
  import opened Text
  import Auth

  const ErrorHeader := "Erro"
  const SuccessHeader := "Sucesso"
  const FillAllMessage := "Por favor, preencha todos os campos."
  const MismatchMessage := "As senhas não coincidem."
  const ShortMessage := "A senha deve ter pelo menos 6 caracteres."
  const EmailMessage := "Por favor, insira um email válido."
  const CreatedMessage := "Conta criada com sucesso!"
  const MinPasswordLength := 6

  datatype Alert = Alert(header: string, message: string)

  // ---------------------------------------------------------------------
  // The e-mail pattern /^[^\s@]+@[^\s@]+\.[^\s@]+$/.

  /** Made only of characters of the class [^\s@]. */
  predicate Clean(s: string) {
    forall k :: 0 <= k < |s| ==> !IsSpace(s[k]) && s[k] != '@'
  }

  /** The pattern read piece by piece: a non-empty run of [^\s@], the
      '@' at i, a non-empty run, the '.' at j, a non-empty run, and
      nothing else. */
  predicate IsValidEmail(email: string) {
    exists i, j :: 0 < i && i + 1 < j < |email| - 1 && email[i] == '@' && email[j] == '.'
                   && Clean(email[..i]) && Clean(email[i + 1..j]) && Clean(email[j + 1..])
  }

  /** A domain: non-empty, in the class, with a '.' that is neither its
      first nor its last character. */
  predicate IsDomain(d: string) {
    Clean(d) && exists k :: 0 < k < |d| - 1 && d[k] == '.'
  }

  /** The address as local part, '@', domain. */
  predicate IsLocalAtDomain(s: string) {
    exists i :: 0 < i < |s| && s[i] == '@' && Clean(s[..i]) && IsDomain(s[i + 1..])
  }

  lemma CleanSlice(s: string, lo: int, hi: int)
    requires Clean(s) && 0 <= lo <= hi <= |s|
    ensures Clean(s[lo..hi])
  {
    forall k | 0 <= k < hi - lo
      ensures !IsSpace(s[lo..hi][k]) && s[lo..hi][k] != '@'
    {
      assert s[lo..hi][k] == s[lo + k];
    }
  }

  /** The pattern accepts exactly the addresses L@D with L non-empty and
      both L and D free of white space and '@', D a domain with an inner
      dot. */
  lemma EmailShape(s: string)
    ensures IsValidEmail(s) <==> IsLocalAtDomain(s)
  {
    if IsValidEmail(s) {
      PatternGivesShape(s);
    }
    if IsLocalAtDomain(s) {
      ShapeGivesPattern(s);
    }
  }

  lemma PatternGivesShape(s: string)
    requires IsValidEmail(s)
    ensures IsLocalAtDomain(s)
  {
    var i, j :| 0 < i && i + 1 < j < |s| - 1 && s[i] == '@' && s[j] == '.'
                && Clean(s[..i]) && Clean(s[i + 1..j]) && Clean(s[j + 1..]);
    DomainFromPieces(s, i, j);
  }

  /** The text after the '@' of the pattern is a domain. */
  lemma DomainFromPieces(s: string, i: int, j: int)
    requires 0 < i && i + 1 < j < |s| - 1 && s[j] == '.'
    requires Clean(s[i + 1..j]) && Clean(s[j + 1..])
    ensures IsDomain(s[i + 1..])
  {
    var d := s[i + 1..];
    forall m | 0 <= m < |d|
      ensures !IsSpace(d[m]) && d[m] != '@'
    {
      if m < j - i - 1 {
        assert d[m] == s[i + 1..j][m];
      } else if m == j - i - 1 {
        assert d[m] == '.';
      } else {
        assert d[m] == s[j + 1..][m - (j - i)];
      }
    }
    var k := j - i - 1;
    assert d[k] == '.';
  }

  lemma ShapeGivesPattern(s: string)
    requires IsLocalAtDomain(s)
    ensures IsValidEmail(s)
  {
    var i :| 0 < i < |s| && s[i] == '@' && Clean(s[..i]) && IsDomain(s[i + 1..]);
    var d := s[i + 1..];
    var k :| 0 < k < |d| - 1 && d[k] == '.';
    assert s[i + 1 + k] == d[k];
    PiecesFromDomain(s, i, i + 1 + k);
  }

  /** Splitting a clean domain at an inner dot gives the two runs of the
      pattern. */
  lemma PiecesFromDomain(s: string, i: int, j: int)
    requires 0 < i && i + 1 < j < |s| - 1 && s[i] == '@' && s[j] == '.'
    requires Clean(s[..i]) && Clean(s[i + 1..])
    ensures IsValidEmail(s)
  {
    var d := s[i + 1..];
    CleanSlice(d, 0, j - i - 1);
    CleanSlice(d, j - i, |d|);
    assert s[i + 1..j] == d[0..j - i - 1];
    assert s[j + 1..] == d[j - i..|d|];
  }

  /** A valid address has exactly one '@'. */
  lemma OneAt(s: string)
    requires IsValidEmail(s)
    ensures exists i :: 0 <= i < |s| && s[i] == '@' && forall k :: 0 <= k < |s| && k != i ==> s[k] != '@'
  {
    var i, j :| 0 < i && i + 1 < j < |s| - 1 && s[i] == '@' && s[j] == '.'
                && Clean(s[..i]) && Clean(s[i + 1..j]) && Clean(s[j + 1..]);
    forall k | 0 <= k < |s| && k != i
      ensures s[k] != '@'
    {
      if k < i {
        assert s[k] == s[..i][k];
      } else if k < j {
        assert s[k] == s[i + 1..j][k - i - 1];
      } else if k > j {
        assert s[k] == s[j + 1..][k - j - 1];
      }
    }
  }

  // ---------------------------------------------------------------------
  // Password strength.

  /** getPasswordStrength, on the password's length. */
  function PasswordStrength(password: string): (r: string)
    ensures r == "" <==> |password| == 0
    ensures r == "weak" <==> 0 < |password| < 6
    ensures r == "medium" <==> 6 <= |password| < 10
    ensures r == "strong" <==> 10 <= |password|
  {
    if |password| == 0 then ""
    else if |password| < 6 then "weak"
    else if |password| < 10 then "medium"
    else "strong"
  }

  /** getPasswordStrengthText. */
  function PasswordStrengthText(strength: string): (r: string)
    ensures strength == "weak" <==> r == "Fraca"
    ensures strength == "medium" <==> r == "Média"
    ensures strength == "strong" <==> r == "Forte"
    ensures r == "" <==> strength !in {"weak", "medium", "strong"}
  {
    match strength
    case "weak" => "Fraca"
    case "medium" => "Média"
    case "strong" => "Forte"
    case _ => ""
  }

  /** The meter's order: nothing, weak, medium, strong. */
  function Rank(strength: string): int {
    if strength == "weak" then 1
    else if strength == "medium" then 2
    else if strength == "strong" then 3
    else 0
  }

  /** A longer password is never rated weaker. */
  lemma StrengthMonotone(p: string, q: string)
    requires |p| <= |q|
    ensures Rank(PasswordStrength(p)) <= Rank(PasswordStrength(q))
  {
  }

  // ---------------------------------------------------------------------
  // The form checks.

  /** The message of the first failing check, None when all pass. */
  function Validation(data: Auth.RegisterData, confirmPassword: string): (r: Option<string>)
    ensures r == Some(FillAllMessage) <==> data.name == "" || data.email == "" || data.password == ""
    ensures r == Some(MismatchMessage) <==>
      data.name != "" && data.email != "" && data.password != "" && data.password != confirmPassword
    ensures r == Some(ShortMessage) <==>
      data.name != "" && data.email != "" && data.password != "" && data.password == confirmPassword
      && |data.password| < MinPasswordLength
    ensures r == Some(EmailMessage) <==>
      data.name != "" && data.email != "" && data.password == confirmPassword
      && |data.password| >= MinPasswordLength && !IsValidEmail(data.email)
    ensures r.None? <==>
      data.name != "" && data.email != "" && data.password == confirmPassword
      && |data.password| >= MinPasswordLength && IsValidEmail(data.email)
  {
    if data.name == "" || data.email == "" || data.password == "" then Some(FillAllMessage)
    else if data.password != confirmPassword then Some(MismatchMessage)
    else if |data.password| < MinPasswordLength then Some(ShortMessage)
    else if !IsValidEmail(data.email) then Some(EmailMessage)
    else None
  }

  /** A form that passes every check has a password rated medium or
      strong, and is one the auth service accepts. */
  lemma PassingForm(data: Auth.RegisterData, confirmPassword: string)
    requires Validation(data, confirmPassword).None?
    ensures PasswordStrength(data.password) in {"medium", "strong"}
    ensures Auth.Accepts(data)
  {
  }

  class RegisterPage {
    var registerData: Auth.RegisterData
    var confirmPassword: string
    var isLoading: bool
    var errorMessage: string
    const auth: Auth.AuthService

    constructor(auth: Auth.AuthService)
      ensures registerData == Auth.RegisterData("", "", "") && confirmPassword == ""
      ensures !isLoading && errorMessage == "" && this.auth == auth
    {
      registerData := Auth.RegisterData("", "", "");
      confirmPassword := "";
      isLoading := false;
      errorMessage := "";
      this.auth := auth;
    }

    /** onRegister, with the registration observable run to its result:
        a failing check alerts and changes nothing; a passing form is
        registered and signs the new user in. */
    method OnRegister(idStamp: string, tokenStamp: string) returns (alert: Alert)
      requires auth.Valid()
      modifies `isLoading, `errorMessage, auth`currentUser, auth`isAuthenticated, auth.store
      ensures auth.Valid()
      ensures Validation(registerData, confirmPassword).Some? ==>
        && alert == Alert(ErrorHeader, Validation(registerData, confirmPassword).value)
        && unchanged(this) && unchanged(auth) && unchanged(auth.store)
      ensures Validation(registerData, confirmPassword).None? ==>
        && alert == Alert(SuccessHeader, CreatedMessage)
        && !isLoading && errorMessage == ""
        && auth.currentUser == Some(Auth.NewUser(registerData, idStamp)) && auth.isAuthenticated
        && auth.store.items == old(auth.store.items)
             [Auth.TokenKey := Auth.Token(Auth.TokenPrefix + tokenStamp)]
             [Auth.UserKey := Auth.UserData(Auth.NewUser(registerData, idStamp))]
    {
      var data := registerData;
      if data.name == "" || data.email == "" || data.password == "" {
        return Alert(ErrorHeader, FillAllMessage);
      }
      if data.password != confirmPassword {
        return Alert(ErrorHeader, MismatchMessage);
      }
      if |data.password| < MinPasswordLength {
        return Alert(ErrorHeader, ShortMessage);
      }
      if !IsValidEmail(data.email) {
        return Alert(ErrorHeader, EmailMessage);
      }
      isLoading := true;
      errorMessage := "";
      var result := auth.Register(data, idStamp, tokenStamp);
      isLoading := false;
      if !result.success {
        // The checks above imply Auth.Accepts(data), so the service
        // never reports a failure here.
        assert false;
      }
      alert := Alert(SuccessHeader, CreatedMessage);
    }
  }
}
