/**
 * The session state the auth context keeps: the signed-in user, whether
 * the first auth report is still awaited, and the two banners (`error`,
 * `success`) that every action sets. The auth provider's answers come in
 * as parameters; the calls made to it are kept in order in `requests`.
 */
module AuthContext {
  import opened Wrappers

  /**
   * `getErrorMessage`'s switch, as two parallel tables: the fourteen provider
   * error codes it names, and its fifteen messages, the last of which is the
   * `default` branch's.
   */
  const KnownCodes: seq<string> := [
    "auth/email-already-in-use", "auth/invalid-email", "auth/operation-not-allowed",
    "auth/weak-password", "auth/user-disabled", "auth/user-not-found", "auth/wrong-password",
    "auth/invalid-credential", "auth/too-many-requests", "auth/network-request-failed",
    "auth/popup-closed-by-user", "auth/popup-blocked", "auth/cancelled-popup-request",
    "auth/account-exists-with-different-credential"]

  const Messages: seq<string> := [
    "Ten adres email jest już używany. Spróbuj się zalogować lub użyj innego adresu email.",
    "Nieprawidłowy adres email.",
    "Ta metoda logowania nie jest włączona. Skontaktuj się z administratorem.",
    "Hasło jest zbyt słabe. Użyj co najmniej 6 znaków.",
    "To konto zostało wyłączone. Skontaktuj się z administratorem.",
    "Nie znaleziono użytkownika z tym adresem email.",
    "Nieprawidłowe hasło.",
    "Nieprawidłowy email lub hasło.",
    "Zbyt wiele prób logowania. Spróbuj ponownie później.",
    "Problem z połączeniem sieciowym. Sprawdź swoje połączenie internetowe.",
    "Okno logowania zostało zamknięte. Spróbuj ponownie.",
    "Okno logowania zostało zablokowane przez przeglądarkę. Sprawdź ustawienia przeglądarki.",
    "Operacja została anulowana. Spróbuj ponownie.",
    "Konto z tym adresem email już istnieje, ale używa innej metody logowania.",
    "Wystąpił nieoczekiwany błąd. Spróbuj ponownie później."]

  const GenericError := "Wystąpił nieoczekiwany błąd. Spróbuj ponownie później."

  predicate IsKnownCode(code: string) {
    code in KnownCodes
  }

  /** The position of the switch case `code` falls into; one past the named codes for `default`. */
  function CaseOf(code: string): (i: nat)
    ensures i <= |KnownCodes|
    ensures i < |KnownCodes| ==> KnownCodes[i] == code && code !in KnownCodes[..i]
    ensures i == |KnownCodes| <==> !IsKnownCode(code)
  {
    IndexIn(KnownCodes, code)
  }

  /** The first position of `x` in `s`, or `|s|`. */
  function IndexIn(s: seq<string>, x: string): (i: nat)
    ensures i <= |s|
    ensures i < |s| ==> s[i] == x && x !in s[..i]
    ensures i == |s| <==> x !in s
  {
    if |s| == 0 then 0
    else if s[0] == x then 0
    else
      var j := IndexIn(s[1..], x);
      assert s[1..][..j] == s[1..j + 1];
      assert s == [s[0]] + s[1..];
      1 + j
  }

  /** The message shown for a provider error: the named code's own, the generic one for any other. */
  function GetErrorMessage(code: string): (message: string)
    ensures message in Messages
    ensures forall i :: 0 <= i < |KnownCodes| && KnownCodes[i] == code ==> message == Messages[i]
    ensures !IsKnownCode(code) ==> message == GenericError
    ensures IsKnownCode(code) <==> message != GenericError
  {
    TablesDistinct();
    Messages[CaseOf(code)]
  }

  /** No code is named twice, and no two messages are the same. */
  lemma TablesDistinct()
    ensures |Messages| == |KnownCodes| + 1 && Messages[|KnownCodes|] == GenericError
    ensures forall i, j :: 0 <= i < j < |KnownCodes| ==> KnownCodes[i] != KnownCodes[j]
    ensures forall i, j :: 0 <= i < j < |Messages| ==> Messages[i] != Messages[j]
  {
  }

  /** A message names its code, or says the code is unknown. */
  lemma MessageDeterminesCode(a: string, b: string)
    ensures GetErrorMessage(a) == GetErrorMessage(b) <==> a == b || (!IsKnownCode(a) && !IsKnownCode(b))
  {
    TablesDistinct();
  }

  /** The two banners every action sets. */
  datatype Banner = Banner(error: Option<string>, success: Option<string>)

  /** What the provider's promise did. */
  datatype ProviderResult = Resolved | Rejected(code: string)

  /** The banners after a sign-in, sign-up or reset action: exactly one is set. */
  function AfterAction(result: ProviderResult, successMessage: string): (b: Banner)
    ensures b.error.Some? != b.success.Some?
    ensures result.Resolved? ==> b.success == Some(successMessage)
    ensures result.Rejected? ==> b.error == Some(GetErrorMessage(result.code))
  {
    match result
    case Resolved => Banner(None, Some(successMessage))
    case Rejected(code) => Banner(Some(GetErrorMessage(code)), None)
  }

  /** The banners after `logout`: never a success, an error only when signing out failed. */
  function AfterLogout(result: ProviderResult): (b: Banner)
    ensures b.success.None?
    ensures b.error.Some? <==> result.Rejected?
    ensures result.Rejected? ==> b.error == Some(GetErrorMessage(result.code))
  {
    match result
    case Resolved => Banner(None, None)
    case Rejected(code) => Banner(Some(GetErrorMessage(code)), None)
  }

  datatype User = User(uid: string, displayName: Option<string>, email: Option<string>)

  /** A call the context makes to the auth provider. */
  datatype AuthRequest =
    | PopupSignIn
    | PasswordSignIn(email: string, password: string)
    | SignUp(email: string, password: string)
    | SendResetEmail(email: string)
    | ConfirmReset(oobCode: string, newPassword: string)
    | SignOut

  /** The `auth-token` cookie as the browser holds it. */
  datatype Cookie = Cookie(value: string, maxAge: nat)

  /** The lifetime, in seconds, of the cookie written for a signed-in user. */
  const TokenMaxAge: nat := 3600

  /** Writing a cookie with `max-age=0` deletes it. */
  function CookieAfterWrite(value: string, maxAge: nat): (c: Option<Cookie>)
    ensures c.None? <==> maxAge == 0
    ensures c.Some? ==> c.value.value == value && c.value.maxAge == maxAge
  {
    if maxAge == 0 then None else Some(Cookie(value, maxAge))
  }

  const SignedInWithGoogle := "Pomyślnie zalogowano przez Google"
  const SignedIn := "Pomyślnie zalogowano"
  const SignedUp := "Konto zostało utworzone pomyślnie"
  const ResetLinkSent := "Link do resetowania hasła został wysłany na podany adres email"
  const PasswordChanged := "Hasło zostało zmienione pomyślnie"

  class AuthProvider {
    var user: Option<User>
    var loading: bool
    var error: Option<string>
    var success: Option<string>
    var authCookie: Option<Cookie>
    var requests: seq<AuthRequest>

    /** The two banners are never both set. */
    ghost predicate Valid()
      reads this
    {
      !(error.Some? && success.Some?)
    }

    /** Mounting the provider: no user yet, loading, no banners; the browser keeps whatever cookie it had. */
    constructor (cookie: Option<Cookie>)
      ensures Valid()
      ensures user == None && loading && error == None && success == None
      ensures authCookie == cookie && requests == []
    {
      user, loading, error, success := None, true, None, None;
      authCookie, requests := cookie, [];
    }

    /** The auth listener: stores the user, ends loading, and writes or clears the cookie. */
    method OnAuthStateChanged(u: Option<User>, idToken: string)
      requires Valid()
      modifies this`user, this`loading, this`authCookie
      ensures Valid()
      ensures user == u && !loading
      ensures u.Some? ==> authCookie == Some(Cookie(idToken, TokenMaxAge))
      ensures u.None? ==> authCookie == None
    {
      user := u;
      loading := false;
      if u.Some? {
        authCookie := CookieAfterWrite(idToken, TokenMaxAge);
      } else {
        authCookie := CookieAfterWrite("", 0);
      }
    }

    /** The first step of every action: both banners cleared. */
    method ClearBanners()
      modifies this`error, this`success
      ensures Valid()
      ensures error == None && success == None
    {
      error := None;
      success := None;
    }

    /** The last step of every action but logout: one banner, and whether the provider succeeded. */
    method Settle(result: ProviderResult, successMessage: string) returns (ok: bool)
      modifies this`error, this`success
      ensures Valid()
      ensures ok == result.Resolved?
      ensures Banner(error, success) == AfterAction(result, successMessage)
    {
      match result {
        case Resolved =>
          success := Some(successMessage);
          error := None;
          ok := true;
        case Rejected(code) =>
          error := Some(GetErrorMessage(code));
          success := None;
          ok := false;
      }
    }

    method SignInWithGoogle(result: ProviderResult) returns (ok: bool)
      requires Valid()
      modifies this`error, this`success, this`requests
      ensures Valid()
      ensures ok == result.Resolved?
      ensures Banner(error, success) == AfterAction(result, SignedInWithGoogle)
      ensures requests == old(requests) + [PopupSignIn]
    {
      ClearBanners();
      requests := requests + [PopupSignIn];
      ok := Settle(result, SignedInWithGoogle);
    }

    method SignInWithEmail(email: string, password: string, result: ProviderResult) returns (ok: bool)
      requires Valid()
      modifies this`error, this`success, this`requests
      ensures Valid()
      ensures ok == result.Resolved?
      ensures Banner(error, success) == AfterAction(result, SignedIn)
      ensures requests == old(requests) + [PasswordSignIn(email, password)]
    {
      ClearBanners();
      requests := requests + [PasswordSignIn(email, password)];
      ok := Settle(result, SignedIn);
    }

    method SignUpWithEmail(email: string, password: string, result: ProviderResult) returns (ok: bool)
      requires Valid()
      modifies this`error, this`success, this`requests
      ensures Valid()
      ensures ok == result.Resolved?
      ensures Banner(error, success) == AfterAction(result, SignedUp)
      ensures requests == old(requests) + [SignUp(email, password)]
    {
      ClearBanners();
      requests := requests + [SignUp(email, password)];
      ok := Settle(result, SignedUp);
    }

    method ResetPassword(email: string, result: ProviderResult) returns (ok: bool)
      requires Valid()
      modifies this`error, this`success, this`requests
      ensures Valid()
      ensures ok == result.Resolved?
      ensures Banner(error, success) == AfterAction(result, ResetLinkSent)
      ensures requests == old(requests) + [SendResetEmail(email)]
    {
      ClearBanners();
      requests := requests + [SendResetEmail(email)];
      ok := Settle(result, ResetLinkSent);
    }

    method ConfirmResetPassword(oobCode: string, newPassword: string, result: ProviderResult) returns (ok: bool)
      requires Valid()
      modifies this`error, this`success, this`requests
      ensures Valid()
      ensures ok == result.Resolved?
      ensures Banner(error, success) == AfterAction(result, PasswordChanged)
      ensures requests == old(requests) + [ConfirmReset(oobCode, newPassword)]
    {
      ClearBanners();
      requests := requests + [ConfirmReset(oobCode, newPassword)];
      ok := Settle(result, PasswordChanged);
    }

    /** `logout`: the user itself is cleared later, by the listener. */
    method Logout(result: ProviderResult)
      requires Valid()
      modifies this`error, this`success, this`requests
      ensures Valid()
      ensures Banner(error, success) == AfterLogout(result)
      ensures requests == old(requests) + [SignOut]
    {
      ClearBanners();
      requests := requests + [SignOut];
      if result.Rejected? {
        error := Some(GetErrorMessage(result.code));
      }
    }
  }
}
