/** The client-side logic of the authentication service: the identifier built from the
    numeric user ID, the transformation of the login answer into the front end's user,
    the mapping of login failures to messages, and the swallowing of errors by
    `validateToken` and `logout`. The two backends are parameters: the login answer is
    an outcome, and the session backend a function from the request it receives to its
    outcome. */
module AuthService {
  import opened Wrappers
  import opened Sequences
  import SessionsService

  // ---------------------------------------------------------------------------
  // Hexadecimal

  const HexDigits := "0123456789abcdef"

  function HexDigit(d: nat): (c: char)
    requires d < 16
    ensures c in HexDigits
  {
    HexDigits[d]
  }

  /** The value of a lower-case hexadecimal digit. */
  function HexValue(c: char): (d: nat)
    ensures d < 16
  {
    if '0' <= c <= '9' then (c - '0') as nat
    else if 'a' <= c <= 'f' then (c - 'a') as nat + 10
    else 0
  }

  lemma HexValueOfDigit(d: nat)
    requires d < 16
    ensures HexValue(HexDigit(d)) == d
  {
  }

  /** `n.toString(16)` for a non-negative integer: lower-case digits, no leading zero. */
  function ToHex(n: nat): (s: string)
    ensures |s| >= 1
    ensures forall i :: 0 <= i < |s| ==> s[i] in HexDigits
    decreases n
  {
    if n < 16 then [HexDigit(n)] else ToHex(n / 16) + [HexDigit(n % 16)]
  }

  /** The number a string of hexadecimal digits denotes, read from the left. */
  function FromHex(s: string): nat
    decreases |s|
  {
    if s == [] then 0 else FromHex(s[..|s| - 1]) * 16 + HexValue(s[|s| - 1])
  }

  /** `FromHex` undoes `ToHex`. */
  lemma {:induction false} FromHexToHex(n: nat)
    ensures FromHex(ToHex(n)) == n
    decreases n
  {
    if n < 16 {
      HexValueOfDigit(n);
    } else {
      var s := ToHex(n);
      assert s[..|s| - 1] == ToHex(n / 16);
      FromHexToHex(n / 16);
      HexValueOfDigit(n % 16);
    }
  }

  function Pow16(k: nat): (p: nat)
    ensures p >= 1
  {
    if k == 0 then 1 else 16 * Pow16(k - 1)
  }

  /** The hexadecimal form of a number below 16^k has at most k digits, and that of a
      number at or above it has more. */
  lemma {:induction false} ToHexLength(n: nat, k: nat)
    requires k >= 1
    ensures |ToHex(n)| <= k <==> n < Pow16(k)
    decreases n
  {
    if n >= 16 {
      if k == 1 {
        ToHexLengthAtLeastOne(n / 16);
      } else {
        ToHexLength(n / 16, k - 1);
      }
    }
  }

  lemma ToHexLengthAtLeastOne(n: nat)
    ensures |ToHex(n)| >= 1
  {
  }

  function Zeros(k: nat): (z: string)
    ensures |z| == k && forall i :: 0 <= i < k ==> z[i] == '0'
  {
    if k == 0 then "" else "0" + Zeros(k - 1)
  }

  /** Leading zeros do not change the value. */
  lemma {:induction false} FromHexLeadingZeros(k: nat, s: string)
    ensures FromHex(Zeros(k) + s) == FromHex(s)
    decreases |s|
  {
    if s == [] {
      FromHexZeros(k);
      assert Zeros(k) + s == Zeros(k);
    } else {
      var t := Zeros(k) + s;
      assert t[..|t| - 1] == Zeros(k) + s[..|s| - 1];
      FromHexLeadingZeros(k, s[..|s| - 1]);
    }
  }

  lemma {:induction false} FromHexZeros(k: nat)
    ensures FromHex(Zeros(k)) == 0
  {
    if k > 0 {
      assert Zeros(k)[..k - 1] == Zeros(k - 1);
      FromHexZeros(k - 1);
    }
  }

  // ---------------------------------------------------------------------------
  // Identifier from the numeric user ID

  /** `id.toString(16)`: a negative number gets a minus sign before its digits. */
  function HexString(id: int): string {
    if id >= 0 then ToHex(id) else "-" + ToHex(-id)
  }

  /** The padding `pad` computes: zeros in front up to `size` characters, and never a
      cut. */
  function PadLeft(s: string, size: int): (padded: string)
    ensures |padded| == if |s| < size then size else |s|
    ensures padded == Zeros(|padded| - |s|) + s
  {
    if |s| < size then Zeros(size - |s|) + s else s
  }

  /** The fixed tail of the identifier, in the layout of RFC 4122 (section 3): version
      digit 4, variant digit 8. */
  const UuidSuffix := "-0000-4000-8000-000000000000"

  /** What `generateUuidFromId` returns. */
  function UuidFromId(id: int): string {
    PadLeft(HexString(id), 8) + UuidSuffix
  }

  /** The inner `pad`: the hexadecimal form of `num`, with "0" put in front until it is
      `size` characters long. */
  method Pad(num: int, size: int) returns (s: string)
    ensures s == PadLeft(HexString(num), size)
  {
    s := HexString(num);
    ghost var h := s;
    while |s| < size
      invariant |s| >= |h| && (|h| < size ==> |s| <= size) && (|h| >= size ==> s == h)
      invariant s == Zeros(|s| - |h|) + h
      decreases size - |s|
    {
      s := "0" + s;
    }
  }

  /** `generateUuidFromId`. */
  method GenerateUuidFromId(id: int) returns (uuid: string)
    ensures uuid == UuidFromId(id)
  {
    var hexId := Pad(id, 8);
    uuid := hexId + UuidSuffix;
  }

  /** Every non-negative id is written in full: the part before the suffix is its
      hexadecimal form (lower-case) padded to at least 8 digits, and reads back as the
      id. */
  lemma UuidEncodesId(id: nat)
    ensures var u := UuidFromId(id);
      |u| == (if |ToHex(id)| < 8 then 8 else |ToHex(id)|) + |UuidSuffix| &&
      u[|u| - |UuidSuffix|..] == UuidSuffix &&
      (forall i :: 0 <= i < |u| - |UuidSuffix| ==> u[i] in HexDigits) &&
      FromHex(u[..|u| - |UuidSuffix|]) == id
  {
    var h := ToHex(id);
    var p := PadLeft(h, 8);
    var u := UuidFromId(id);
    assert u[..|p|] == p && u[|p|..] == UuidSuffix;
    FromHexLeadingZeros(|p| - |h|, h);
    FromHexToHex(id);
  }

  /** Distinct non-negative ids give distinct identifiers. */
  lemma UuidInjective(a: nat, b: nat)
    requires UuidFromId(a) == UuidFromId(b)
    ensures a == b
  {
    UuidEncodesId(a);
    UuidEncodesId(b);
  }

  /** For an id below 16^8 the identifier has the 36 characters of RFC 4122's string
      form, its first 8 characters read back as the id, and the version digit '4' and
      the variant digit '8' sit at positions 14 and 19. */
  lemma {:induction false} UuidOfSmallId(id: nat)
    requires id < Pow16(8)
    ensures |UuidFromId(id)| == 36 && FromHex(UuidFromId(id)[..8]) == id
    ensures UuidFromId(id)[14] == '4' && UuidFromId(id)[19] == '8'
    ensures UuidFromId(id)[8] == '-' && UuidFromId(id)[13] == '-'
    ensures UuidFromId(id)[18] == '-' && UuidFromId(id)[23] == '-'
  {
    ToHexLength(id, 8);
    UuidEncodesId(id);
    var u := UuidFromId(id);
    assert |u| == 36;
    SuffixDigits(u, 8);
  }

  /** The digits of the suffix, wherever it starts. */
  lemma SuffixDigits(u: string, start: nat)
    requires start + 28 == |u| && u[start..] == UuidSuffix
    ensures u[start] == '-' && u[start + 5] == '-' && u[start + 6] == '4'
    ensures u[start + 10] == '-' && u[start + 11] == '8' && u[start + 15] == '-'
  {
    assert u[start + 6] == UuidSuffix[6];
    assert u[start + 11] == UuidSuffix[11];
    assert u[start] == UuidSuffix[0] && u[start + 5] == UuidSuffix[5];
    assert u[start + 10] == UuidSuffix[10] && u[start + 15] == UuidSuffix[15];
  }

  /** An id of 16^8 or more is not cut: the identifier grows beyond 36 characters, and
      the version and variant digits keep their places counted from the end. */
  lemma {:induction false} UuidOfLargeId(id: nat)
    requires id >= Pow16(8)
    ensures |UuidFromId(id)| > 36 && FromHex(UuidFromId(id)[..|UuidFromId(id)| - 28]) == id
    ensures UuidFromId(id)[|UuidFromId(id)| - 22] == '4' && UuidFromId(id)[|UuidFromId(id)| - 17] == '8'
  {
    ToHexLength(id, 8);
    UuidEncodesId(id);
    var u := UuidFromId(id);
    SuffixDigits(u, |u| - 28);
  }

  // ---------------------------------------------------------------------------
  // Login

  /** The user as the authentication backend describes it. */
  datatype RawUser = RawUser(
    usuarioId: int,
    nombre: string,
    apellidoPaterno: string,
    apellidoMaterno: string,
    tipo: string,
    usuario: string,
    gerencia: string,
    agencia: string,
    sucursales: seq<string>)

  /** The authentication backend's answer; `token` is `None` when absent. */
  datatype AuthResponse = AuthResponse(success: bool, token: Option<string>, user: RawUser)

  /** The user as the front end keeps it. */
  datatype User = User(
    id: string,
    usuario: string,
    nombre: string,
    apellidoPaterno: string,
    apellidoMaterno: string,
    tipo: string,
    gerencia: string,
    agencia: string,
    sucursales: seq<string>,
    activo: bool)

  datatype LoginResult = LoginResult(success: bool, token: string, user: User, sessionToken: string)

  function LowerChar(c: char): char {
    if 'A' <= c <= 'Z' then (c as int + 32) as char else c
  }

  /** `toLowerCase` on the ASCII letters: the length and every non-letter are kept. */
  function ToLower(s: string): (r: string)
    ensures |r| == |s|
    ensures forall i :: 0 <= i < |s| ==> r[i] == LowerChar(s[i])
  {
    if s == [] then "" else [LowerChar(s[0])] + ToLower(s[1..])
  }

  /** Lower-casing leaves no upper-case letter and is idempotent. */
  lemma ToLowerIdempotent(s: string)
    ensures forall i :: 0 <= i < |s| ==> !('A' <= ToLower(s)[i] <= 'Z')
    ensures ToLower(ToLower(s)) == ToLower(s)
  {
  }

  /** The user built from the backend's: the id derived from `UsuarioID`, the login
      name lower-cased, the other fields renamed, and always active. */
  function TransformUser(raw: RawUser): (u: User)
    ensures u.id == UuidFromId(raw.usuarioId)
    ensures u.usuario == ToLower(raw.usuario) && u.activo
    ensures u.nombre == raw.nombre && u.apellidoPaterno == raw.apellidoPaterno
    ensures u.apellidoMaterno == raw.apellidoMaterno && u.tipo == raw.tipo
    ensures u.gerencia == raw.gerencia && u.agencia == raw.agencia && u.sucursales == raw.sucursales
  {
    User(UuidFromId(raw.usuarioId), ToLower(raw.usuario), raw.nombre, raw.apellidoPaterno,
         raw.apellidoMaterno, raw.tipo, raw.gerencia, raw.agencia, raw.sucursales, true)
  }

  /** Two logins whose names differ only in letter case become the same user. */
  lemma SameUserWhateverTheCase(a: RawUser, b: RawUser)
    requires a == b.(usuario := a.usuario)
    requires |a.usuario| == |b.usuario|
    requires forall i :: 0 <= i < |a.usuario| ==> LowerChar(a.usuario[i]) == LowerChar(b.usuario[i])
    ensures TransformUser(a) == TransformUser(b)
  {
    assert ToLower(a.usuario) == ToLower(b.usuario);
  }

  const CredentialsMessage := "Credenciales incorrectas"
  const ForbiddenMessage := "Acceso denegado"
  const ConnectionMessage := "Error de conexión con el servidor"

  /** The message of the error `login` throws for a failure: 401 and 403 answers of
      the server have their own, everything else is a connection error. */
  function LoginErrorMessage(error: HttpError): (m: string)
    ensures error.isAxios && error.status == Some(401) ==> m == CredentialsMessage
    ensures error.isAxios && error.status == Some(403) ==> m == ForbiddenMessage
    ensures !(error.isAxios && error.status in {Some(401), Some(403)}) ==> m == ConnectionMessage
  {
    if error.isAxios && error.status == Some(401) then CredentialsMessage
    else if error.isAxios && error.status == Some(403) then ForbiddenMessage
    else ConnectionMessage
  }

  /** The device data `login` creates its session with. */
  function LoginSessionData(userAgent: string, platform: string): SessionsService.SessionData {
    SessionsService.SessionData("web", Some(SessionsService.GetBrowserInfo(userAgent)), Some("unknown"),
                                Some("Unknown"), Some(SessionsService.GetOS(userAgent, platform)))
  }

  /** `login`: an answer without success or without a non-empty token is rejected with
      the connection message (it is not an HTTP error); otherwise a session is created
      for the derived id, and the session's token is returned as both tokens. A failed
      session creation is mapped like a failed authentication. */
  function Login(auth: Result<AuthResponse, HttpError>,
                 createSession: SessionsService.SessionRequest -> Result<SessionsService.Session, HttpError>,
                 userAgent: string, platform: string): (r: Result<LoginResult, string>)
    ensures auth.Failure? ==> r == Failure(LoginErrorMessage(auth.error))
    ensures auth.Success? && !(auth.value.success && auth.value.token.GetOr("") != "") ==>
      r == Failure(ConnectionMessage)
    ensures r.Success? ==>
      auth.Success? && auth.value.success && auth.value.token.GetOr("") != "" &&
      var session := createSession(SessionsService.SessionRequest(UuidFromId(auth.value.user.usuarioId),
                                                                  LoginSessionData(userAgent, platform)));
      session.Success? &&
      r.value == LoginResult(true, session.value.sessionToken, TransformUser(auth.value.user), session.value.sessionToken)
    ensures r.Failure? ==> r.error in {CredentialsMessage, ForbiddenMessage, ConnectionMessage}
  {
    match auth
    case Failure(e) => Failure(LoginErrorMessage(e))
    case Success(resp) =>
      if !resp.success || resp.token.GetOr("") == "" then Failure(ConnectionMessage)
      else
        var user := TransformUser(resp.user);
        var request := SessionsService.SessionRequest(user.id, LoginSessionData(userAgent, platform));
        match createSession(request)
        case Failure(e) => Failure(LoginErrorMessage(e))
        case Success(session) =>
          Success(LoginResult(resp.success, session.sessionToken, user, session.sessionToken))
  }

  /** The device data `login` sends is exactly what `createSession` would fill in by
      itself. */
  lemma LoginSendsDefaultSessionData(usuarioId: string, userAgent: string, platform: string)
    ensures SessionsService.CreateSessionRequest(usuarioId, Some(LoginSessionData(userAgent, platform)), userAgent, platform) ==
            SessionsService.CreateSessionRequest(usuarioId, None, userAgent, platform)
  {
  }

  /** `validateToken`: the session's validation, false instead of an error. */
  function ValidateToken(response: Result<Option<bool>, HttpError>): (valid: bool)
    ensures valid <==> response == Success(Some(true))
  {
    SessionsService.ValidateSession(response)
  }

  /** `logout`: closing the session may fail, and the failure is swallowed. */
  function Logout(closeSession: Result<(), HttpError>): (r: Result<(), HttpError>)
    ensures r.Success?
  {
    Success(())
  }
}
