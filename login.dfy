/** `POST /api/auth/login`: check the submitted credentials are present,
    delegate them to the APEX login endpoint, and either mint a session token
    or map the failure to a status and a message. The HTTP call's outcome is
    an input, and so is token signing (a parameter standing for `jwt.sign`
    with the server's secret and a 24-hour expiry). */
module Login {
  import opened JsStrings
  import AuthGuard

  /** The JSON values the `success` flag can hold. Numbers are modelled by
      their integer value only. */
  datatype JsValue = Undefined | Null | Bool(b: bool) | Number(n: int) | Str(s: string) | Object

  /** A user record, as the APEX body carries it or as the server builds it.
      An absent field and an empty string are both falsy in JavaScript. */
  datatype User = User(id: Option<string>, username: Option<string>, nombre: Option<string>, rol: Option<string>)

  /** The fields of a parsed APEX body that the endpoint reads. */
  datatype ApexBody = ApexBody(
    success: JsValue,
    message: Option<string>,
    user: Option<User>,
    username: Option<string>,
    nombre: Option<string>,
    rol: Option<string>)

  /** What `data` is. For a resolved response: `apexResp.data || {}` after
      the attempt to parse a string, so an object, the value `null` (a
      string that parses to it), or anything else without fields (an
      unparsable string, a number, ...). For a rejected status nothing is
      parsed: `Parsed` then stands for an object the HTTP client delivered
      as the error's response data, and the other two for anything else. */
  datatype ApexData = Parsed(body: ApexBody) | JsonNull | NoFields

  /** How the call to APEX ended: with a response (whatever its status), by
      its 12-second timeout (`ECONNABORTED`), or by another network error. */
  datatype Upstream =
    | Replied(status: nat, data: ApexData)
    | TimedOut
    | NetworkError(message: string)

  datatype Credentials = Credentials(username: string, password: string)

  datatype LoginReply = LoginReply(status: nat, success: bool, message: string, token: Option<string>, user: Option<User>)

  /** The reply, and the credentials forwarded to APEX if a call was made. */
  datatype LoginOutcome = LoginOutcome(request: Option<Credentials>, reply: LoginReply)

  const MissingCredentialsMessage: string := "Username y password son obligatorios"
  const InvalidCredentialsMessage: string := "Credenciales inválidas"
  const SuccessMessage: string := "Login exitoso"
  const TimeoutMessage: string := "Tiempo de espera agotado al conectar con APEX"
  const ConnectionMessage: string := "Error conectando con APEX"
  const DefaultRole: string := "USER"
  /** The TypeError Node raises for `null.success`. */
  const NullAccessMessage: string := "Cannot read properties of null (reading 'success')"

  /** JavaScript truthiness of an optional string. */
  predicate Present(v: Option<string>) {
    v.Some? && v.value != ""
  }

  /** `v || fallback` for an optional string: the result is one of the two
      operands, and it is truthy exactly when one of them is. */
  function Or(v: Option<string>, fallback: string): (r: string)
    ensures r == fallback || Some(r) == v
    ensures r != "" <==> Present(v) || fallback != ""
  {
    if Present(v) then v.value else fallback
  }

  /** axios's `validateStatus`: the statuses that resolve instead of throwing. */
  predicate Resolves(status: nat) {
    200 <= status < 500
  }

  /** The message axios gives the error it throws for another status. */
  function StatusErrorMessage(status: nat): string {
    "Request failed with status code " + DecimalText(status)
  }

  /** The user record returned: the body's own, or one built from its
      top-level fields and the submitted username. A built record has no id,
      and with a non-empty username none of its fields is falsy. */
  function UserOf(body: ApexBody, username: string): (user: User)
    ensures body.user.None? ==> user.id.None?
    ensures body.user.None? && username != "" ==>
      Present(user.username) && Present(user.nombre) && Present(user.rol)
  {
    if body.user.Some? then body.user.value
    else User(None, Some(Or(body.username, username)), Some(Or(body.nombre, username)), Some(Or(body.rol, DefaultRole)))
  }

  /** The claims signed into the token: the role is never empty, and with
      a non-empty username neither are the subject and the username. */
  function ClaimsOf(user: User, username: string): (c: AuthGuard.Claims)
    ensures c.rol != ""
    ensures username != "" ==> c.sub != "" && c.username != ""
  {
    AuthGuard.Claims(Or(user.id, username), Or(user.username, username), Or(user.rol, DefaultRole))
  }

  /** The catch block: `status || 500`, with 500 answered as 504. A missing
      response status is passed as 0. */
  function Caught(responseStatus: nat, message: string): (r: LoginReply)
    ensures r.status != 500 && !r.success
    ensures responseStatus == 0 || responseStatus == 500 ==> r.status == 504
    ensures responseStatus != 0 && responseStatus != 500 ==> r.status == responseStatus
  {
    var status := if responseStatus == 0 then 500 else responseStatus;
    LoginReply(if status == 500 then 504 else status, false, message, None, None)
  }

  /** The reply once valid-looking credentials have been sent to APEX. It is
      never 400 (that is reserved for missing credentials) nor 500; it
      succeeds exactly with status 200, and then carries a token and a
      user. */
  function Answer(username: string, upstream: Upstream, sign: AuthGuard.Claims -> string): (r: LoginReply)
    ensures r.status != 400 && r.status != 500
    ensures r.success <==> r.status == 200
    ensures r.success ==> r.token.Some? && r.user.Some?
  {
    match upstream
    case TimedOut => Caught(0, TimeoutMessage)
    case NetworkError(message) => Caught(0, Or(Some(message), ConnectionMessage))
    case Replied(status, data) =>
      if !Resolves(status) then
        var bodyMessage := if data.Parsed? then data.body.message else None;
        Caught(status, Or(bodyMessage, Or(Some(StatusErrorMessage(status)), ConnectionMessage)))
      else
        match data
        case JsonNull => Caught(0, NullAccessMessage)
        case NoFields => LoginReply(401, false, InvalidCredentialsMessage, None, None)
        case Parsed(body) =>
          if body.success != Bool(true) then
            LoginReply(401, false, Or(body.message, InvalidCredentialsMessage), None, None)
          else
            var user := UserOf(body, username);
            LoginReply(200, true, Or(body.message, SuccessMessage), Some(sign(ClaimsOf(user, username))), Some(user))
  }

  /** The login endpoint: APEX is called only with a non-empty username and
      password, the reply is 400 exactly when it is not called, and it is
      never 500. */
  function Login(username: Option<string>, password: Option<string>, upstream: Upstream, sign: AuthGuard.Claims -> string): (o: LoginOutcome)
    ensures o.request.None? <==> o.reply.status == 400
    ensures o.request.Some? ==> o.request.value.username != "" && o.request.value.password != ""
    ensures o.reply.status != 500
  {
    if !Present(username) || !Present(password) then
      LoginOutcome(None, LoginReply(400, false, MissingCredentialsMessage, None, None))
    else
      LoginOutcome(Some(Credentials(username.value, password.value)), Answer(username.value, upstream, sign))
  }

  // ------------------------------------------------------------ properties

  /** A missing or empty username or password is answered with 400 and no
      call to APEX; with both present, APEX is always called, with exactly
      what was submitted. */
  lemma MissingCredentialsShortCircuit(username: Option<string>, password: Option<string>, upstream: Upstream, sign: AuthGuard.Claims -> string)
    ensures var o := Login(username, password, upstream, sign);
      && (o.request.None? <==> !Present(username) || !Present(password))
      && (o.request.None? <==> o.reply.status == 400)
      && (o.request.Some? ==> o.request.value == Credentials(username.value, password.value))
  {
    var o := Login(username, password, upstream, sign);
    if o.request.Some? {
      var r := Answer(username.value, upstream, sign);
      assert r.status != 400 by {
        match upstream
        case Replied(status, data) =>
          if !Resolves(status) {
            assert r.status == status || r.status == 504;
          }
        case _ =>
      }
    }
  }

  /** Only a resolved response whose body has `success` exactly `true` logs
      in; such a login always carries a token and a user. */
  lemma SucceedsExactly(username: Option<string>, password: Option<string>, upstream: Upstream, sign: AuthGuard.Claims -> string)
    ensures var r := Login(username, password, upstream, sign).reply;
      && (r.success <==> r.status == 200)
      && (r.status == 200 <==>
            && Present(username) && Present(password)
            && upstream.Replied? && Resolves(upstream.status)
            && upstream.data.Parsed? && upstream.data.body.success == Bool(true))
      && (r.status == 200 ==> r.token.Some? && r.user.Some?)
  {
    var r := Login(username, password, upstream, sign).reply;
    if upstream.Replied? && !Resolves(upstream.status) {
      assert upstream.status != 200;
    }
  }

  /** A resolved body whose `success` is anything but `true` (a truthy
      string or number included) is a 401 with the body's message or the
      default one; a body without fields gets the default. */
  lemma RejectedWithMessage(username: string, password: string, status: nat, data: ApexData, sign: AuthGuard.Claims -> string)
    requires username != "" && password != "" && Resolves(status)
    requires data.NoFields? || (data.Parsed? && data.body.success != Bool(true))
    ensures var r := Login(Some(username), Some(password), Replied(status, data), sign).reply;
      && r.status == 401 && !r.success && r.token.None?
      && r.message == (if data.Parsed? then Or(data.body.message, InvalidCredentialsMessage) else InvalidCredentialsMessage)
  {
  }

  /** The status of a resolved response does not matter, only its body. */
  lemma ResolvedStatusIgnored(username: Option<string>, password: Option<string>, s1: nat, s2: nat, data: ApexData, sign: AuthGuard.Claims -> string)
    requires Resolves(s1) && Resolves(s2)
    ensures Login(username, password, Replied(s1, data), sign) == Login(username, password, Replied(s2, data), sign)
  {
  }

  /** The endpoint never answers 500: the catch block turns it into 504. A
      timeout always gets the fixed timeout message. */
  lemma NeverAnswers500(username: Option<string>, password: Option<string>, upstream: Upstream, sign: AuthGuard.Claims -> string)
    ensures var r := Login(username, password, upstream, sign).reply;
      && r.status != 500
      && r.status in {200, 400, 401, 504} + (if upstream.Replied? then {upstream.status} else {})
      && (upstream.TimedOut? && Present(username) && Present(password) ==> r.status == 504 && r.message == TimeoutMessage)
  {
  }

  /** The two errors thrown without an HTTP status both end in the catch
      block as 504: a network error carries its own message, or the fixed
      connection message when that is empty; a resolved body that parses to
      `null` carries the TypeError raised by reading `success` from it. */
  lemma ThrownErrorsAnswer504(username: string, password: string, upstream: Upstream, sign: AuthGuard.Claims -> string)
    requires username != "" && password != ""
    ensures var r := Login(Some(username), Some(password), upstream, sign).reply;
      && (upstream.NetworkError? ==>
            && r.status == 504 && !r.success && r.token.None?
            && r.message == (if upstream.message != "" then upstream.message else ConnectionMessage))
      && (upstream.Replied? && Resolves(upstream.status) && upstream.data.JsonNull? ==>
            && r.status == 504 && !r.success && r.token.None?
            && r.message == NullAccessMessage)
  {
  }

  /** A failed status is passed on, except that 500 becomes 504; the message
      is the body's, or axios's description of the status. */
  lemma FailedStatusPassedOn(username: string, password: string, status: nat, data: ApexData, sign: AuthGuard.Claims -> string)
    requires username != "" && password != "" && !Resolves(status)
    ensures var r := Login(Some(username), Some(password), Replied(status, data), sign).reply;
      && r.status == (if status == 0 || status == 500 then 504 else status)
      && r.message == (if data.Parsed? && Present(data.body.message) then data.body.message.value else StatusErrorMessage(status))
  {
    assert Present(Some(StatusErrorMessage(status)));
  }

  /** On success the signed claims fall back to the submitted username for
      the subject and the username, and to `USER` for the role, so none of
      them is ever empty; the reply's message is the body's, or `Login
      exitoso` when it has none. */
  lemma IssuedClaims(username: string, password: string, status: nat, body: ApexBody, sign: AuthGuard.Claims -> string)
    requires username != "" && password != "" && Resolves(status) && body.success == Bool(true)
    ensures var r := Login(Some(username), Some(password), Replied(status, Parsed(body)), sign).reply;
      var c := ClaimsOf(UserOf(body, username), username);
      && r.token == Some(sign(c))
      && c.sub != "" && c.username != "" && c.rol != ""
      && (body.user.None? ==>
            && c.sub == username
            && c.username == Or(body.username, username)
            && c.rol == Or(body.rol, DefaultRole)
            && r.user == Some(User(None, Some(c.username), Some(Or(body.nombre, username)), Some(c.rol))))
      && (body.user.Some? ==>
            && c.sub == Or(body.user.value.id, username)
            && c.username == Or(body.user.value.username, username)
            && c.rol == Or(body.user.value.rol, DefaultRole)
            && r.user == body.user)
      && r.message == (if Present(body.message) then body.message.value else SuccessMessage)
  {
  }

  /** A token issued at login opens the guarded endpoints: if the library
      verifies what it signed and the token has no space (a JWT has none),
      the guard grants exactly the claims that were signed. */
  lemma IssuedTokenPassesGuard(
    username: string, password: string, status: nat, body: ApexBody,
    sign: AuthGuard.Claims -> string, verify: string -> Option<AuthGuard.Claims>)
    requires username != "" && password != "" && Resolves(status) && body.success == Bool(true)
    requires var c := ClaimsOf(UserOf(body, username), username);
      ' ' !in sign(c) && verify(sign(c)) == Some(c)
    ensures var r := Login(Some(username), Some(password), Replied(status, Parsed(body)), sign).reply;
      && r.token.Some?
      && AuthGuard.RequireAuth(Some("Bearer " + r.token.value), verify)
         == AuthGuard.Granted(ClaimsOf(UserOf(body, username), username))
  {
    var c := ClaimsOf(UserOf(body, username), username);
    AuthGuard.GrantedExactly(verify, sign(c));
  }
}
