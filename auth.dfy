/**
 * Login and bearer-token checking (`auth_login`, `require_auth`,
 * server/server.py). The in-memory `TOKENS` dictionary is the field of a
 * registry object; the random part of a fresh token is a parameter.
 */
module Auth {
  import opened Common

  const DefaultUser: string := "hambar"
  const DefaultPass: string := "shreeganesh"
  const TokenPrefix: string := "tok_"

  /** `os.getenv(name, default)`: a variable that is set wins, even when empty. */
  function Setting(env: Option<string>, default: string): string
  {
    if env.Some? then env.value else default
  }

  datatype HttpError = HttpError(status: int, detail: string)

  /** The `Authorization` header as `HTTPBearer` splits it. */
  datatype Credentials = Credentials(scheme: string, credentials: string)

  datatype LoginReply = LoginReply(token: string, username: string)

  /** `(payload.get(key) or "")`. */
  function OrEmpty(v: Option<string>): string
  {
    if v.Some? then v.value else ""
  }

  /** The username is compared after stripping; the password exactly. */
  predicate LoginAccepted(authUser: string, authPass: string, username: Option<string>, password: Option<string>)
  {
    Strip(OrEmpty(username)) == authUser && OrEmpty(password) == authPass
  }

  /** `require_auth` against a token table: the user a bearer token was issued to, or 401. */
  function Authorize(tokens: map<string, string>, creds: Option<Credentials>): (r: Result<string, HttpError>)
    ensures r.Success? <==> creds.Some? && Lower(creds.value.scheme) == "bearer" && creds.value.credentials in tokens
    ensures r.Success? ==> r.value == tokens[creds.value.credentials]
    ensures r.Failure? ==> r.error == HttpError(401, "Unauthorized")
  {
    if creds.None? || Lower(creds.value.scheme) != "bearer" || creds.value.credentials !in tokens
    then Failure(HttpError(401, "Unauthorized"))
    else Success(tokens[creds.value.credentials])
  }

  /** The scheme is matched without regard to ASCII case. */
  lemma BearerSchemeCase(tokens: map<string, string>, token: string)
    requires token in tokens
    ensures Authorize(tokens, Some(Credentials("Bearer", token))) == Success(tokens[token])
    ensures Authorize(tokens, Some(Credentials("BEARER", token))) == Success(tokens[token])
    ensures Authorize(tokens, Some(Credentials("Basic", token))).Failure?
  {
    assert Lower("Bearer") == "bearer";
    assert Lower("BEARER") == "bearer";
    assert Lower("Basic")[0] == 'b' && Lower("Basic")[1] == 'a';
  }

  /**
   * Issuing a token: the new token authorizes its user, and every token
   * that authorized someone before still does (for the same user, unless it
   * is the very token just issued).
   */
  lemma IssueKeepsOthers(tokens: map<string, string>, token: string, user: string, creds: Option<Credentials>)
    ensures Authorize(tokens[token := user], Some(Credentials("bearer", token))) == Success(user)
    ensures Authorize(tokens, creds).Success? ==> Authorize(tokens[token := user], creds).Success?
    ensures Authorize(tokens, creds).Success? && creds.value.credentials != token ==>
              Authorize(tokens[token := user], creds) == Authorize(tokens, creds)
  {
    assert Lower("bearer") == "bearer";
  }

  /** A missing or blank username never logs in as a non-blank user. */
  lemma BlankUsernameRejected(authUser: string, authPass: string, password: Option<string>)
    requires authUser != ""
    ensures !LoginAccepted(authUser, authPass, None, password)
    ensures !LoginAccepted(authUser, authPass, Some(" "), password)
  {
    assert Strip("") == "";
    assert IsSpace(' ');
    assert Strip(" ") == "" by {
      assert LeadingSpaces(" ") == 1;
    }
  }

  class TokenRegistry {
    const authUser: string
    const authPass: string
    /** `TOKENS`: token to username. */
    var tokens: map<string, string>

    constructor (userEnv: Option<string>, passEnv: Option<string>)
      ensures authUser == Setting(userEnv, DefaultUser) && authPass == Setting(passEnv, DefaultPass)
      ensures tokens == map[]
    {
      authUser := Setting(userEnv, DefaultUser);
      authPass := Setting(passEnv, DefaultPass);
      tokens := map[];
    }

    /**
     * `auth_login`: with the right credentials, a fresh `tok_` token is
     * recorded for the stripped username and returned; otherwise 401 and
     * the table is untouched.
     */
    method Login(username: Option<string>, password: Option<string>, randomPart: string)
      returns (r: Result<LoginReply, HttpError>)
      modifies this
      ensures r.Success? <==> LoginAccepted(authUser, authPass, username, password)
      ensures r.Success? ==> && r.value == LoginReply(TokenPrefix + randomPart, Strip(OrEmpty(username)))
                             && tokens == old(tokens)[r.value.token := r.value.username]
                             && Authorize(tokens, Some(Credentials("Bearer", r.value.token))) == Success(authUser)
      ensures r.Failure? ==> r.error == HttpError(401, "Invalid credentials") && tokens == old(tokens)
    {
      var user := Strip(OrEmpty(username));
      var pass := OrEmpty(password);
      if user == authUser && pass == authPass {
        var token := TokenPrefix + randomPart;
        tokens := tokens[token := user];
        BearerSchemeCase(tokens, token);
        r := Success(LoginReply(token, user));
      } else {
        r := Failure(HttpError(401, "Invalid credentials"));
      }
    }
  }
}
