/**
 * The page a password-reset link opens. Without an `oobCode` in the link it
 * offers nothing but a way back; with one it shows a form whose submit
 * checks the two passwords before handing them to the auth context.
 */
module ResetPassword {
  import opened Wrappers
  import opened AuthContext

  const Mismatch := "Hasła nie są identyczne"
  const TooShort := "Hasło musi mieć co najmniej 6 znaków"

  /** The shortest password the form accepts. */
  const MinLength: nat := 6

  /**
   * `password.length`: JavaScript counts UTF-16 code units, so a character
   * outside the Basic Multilingual Plane counts twice.
   */
  function Utf16Length(s: string): (n: nat)
    ensures |s| <= n <= 2 * |s|
    ensures (forall i :: 0 <= i < |s| ==> (s[i] as int) < 0x1_0000) ==> n == |s|
  {
    if |s| == 0 then 0
    else Utf16Length(s[..|s| - 1]) + (if s[|s| - 1] as int >= 0x1_0000 then 2 else 1)
  }

  /** What the form reports before anything is sent: mismatch first, then length. */
  function PasswordProblem(password: string, confirmPassword: string): (problem: Option<string>)
    ensures problem == Some(Mismatch) <==> password != confirmPassword
    ensures problem == Some(TooShort) <==> password == confirmPassword && Utf16Length(password) < MinLength
    ensures problem == None <==> password == confirmPassword && Utf16Length(password) >= MinLength
  {
    if password != confirmPassword then Some(Mismatch)
    else if Utf16Length(password) < MinLength then Some(TooShort)
    else None
  }

  /** Three emoji are six code units, so the form accepts them, though they are three characters. */
  lemma ThreeEmojiAreLongEnough()
    ensures var p := "\U{1F600}\U{1F600}\U{1F600}";
      |p| == 3 && PasswordProblem(p, p) == None
  {
    var e := '\U{1F600}';
    var p := [e, e, e];
    assert p == "\U{1F600}\U{1F600}\U{1F600}";
    assert Utf16Length([e]) == 2 by { assert [e][..0] == []; }
    assert Utf16Length([e, e]) == 4 by { assert [e, e][..1] == [e]; }
    assert Utf16Length(p) == 6 by { assert p[..2] == [e, e]; }
  }

  /** A short pair that also differs is reported as a mismatch. */
  lemma MismatchReportedFirst(password: string, confirmPassword: string)
    requires password != confirmPassword && |password| < MinLength && |confirmPassword| < MinLength
    ensures PasswordProblem(password, confirmPassword) == Some(Mismatch)
  {
  }

  /** Which page is shown: a missing or empty `oobCode` is an invalid link. */
  datatype View = InvalidLink | Form

  function ViewOf(oobCode: Option<string>): (v: View)
    ensures v == Form <==> oobCode.Some? && oobCode.value != ""
  {
    if oobCode.Some? && oobCode.value != "" then Form else InvalidLink
  }

  class ResetPasswordPage {
    /** The `oobCode` query parameter of the link. */
    const oobCode: Option<string>
    var password: string
    var confirmPassword: string
    var passwordError: Option<string>

    constructor (code: Option<string>)
      ensures oobCode == code && password == "" && confirmPassword == "" && passwordError == None
    {
      oobCode := code;
      password, confirmPassword, passwordError := "", "", None;
    }

    /**
     * `handleSubmit`: clears the form's error, then either reports the
     * problem without calling the auth context, or calls
     * `confirmResetPassword` once with the link's code and the password.
     * `redirect` says whether the move to the login page was scheduled,
     * which happens exactly when the reset succeeded.
     */
    method HandleSubmit(auth: AuthProvider, result: ProviderResult) returns (redirect: bool)
      requires ViewOf(oobCode) == Form
      requires auth.Valid()
      modifies this`passwordError, auth`error, auth`success, auth`requests
      ensures auth.Valid()
      ensures passwordError == PasswordProblem(password, confirmPassword)
      ensures passwordError.Some? ==>
        && auth.requests == old(auth.requests)
        && auth.error == old(auth.error) && auth.success == old(auth.success)
        && !redirect
      ensures passwordError.None? ==>
        && auth.requests == old(auth.requests) + [ConfirmReset(oobCode.value, password)]
        && Banner(auth.error, auth.success) == AfterAction(result, PasswordChanged)
        && redirect == result.Resolved?
    {
      passwordError := None;
      if password != confirmPassword {
        passwordError := Some(Mismatch);
        return false;
      }
      if Utf16Length(password) < MinLength {
        passwordError := Some(TooShort);
        return false;
      }
      var ok := auth.ConfirmResetPassword(oobCode.value, password, result);
      redirect := ok;
    }
  }
}
