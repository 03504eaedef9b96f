/**
 * app/api/deps.py: the current user behind a bearer token. JWT decoding (signature, algorithm
 * and expiry checks) is an input function that either returns the payload or raises JWTError;
 * the user table is a sequence, and get_user_by_username (app/services/user_service.py, not
 * part of this model) is taken to return the first user with that username.
 */
module Deps {

  import opened Wrappers
  import opened PyDict
  import opened Http
  import Config
  import Security

  datatype User = User(id: int, username: string)

  /** The single exception every failure raises (the header is from section 3 of RFC 6750). */
  const CredentialsException := HttpError(401, "Could not validate credentials", [("WWW-Authenticate", "Bearer")])

  /** The first user with this username. */
  function FindUser(users: seq<User>, username: string): (r: Option<User>)
    ensures r.None? <==> forall u :: u in users ==> u.username != username
    ensures r.Some? ==> r.value in users && r.value.username == username
  {
    if users == [] then None
    else if users[0].username == username then Some(users[0])
    else FindUser(users[1..], username)
  }

  /** get_current_user(db, token). decode(token, key, algorithms) stands for jwt.decode. A
      "sub" that is absent or null fails; one that is not a string names no user. */
  function GetCurrentUser(settings: Config.Settings, token: string,
                          decode: (string, string, seq<string>) -> Result<Dict<PyValue>, string>,
                          users: seq<User>): Result<User, HttpError>
  {
    match decode(token, settings.secretKey, [Security.Algorithm])
    case Err(_) => Err(CredentialsException)
    case Ok(payload) =>
      var sub := Get(payload, "sub");
      if sub.None? || sub.value == PyNone then Err(CredentialsException)
      else if !sub.value.PyStr? then Err(CredentialsException)
      else match FindUser(users, sub.value.s)
        case None => Err(CredentialsException)
        case Some(user) => Ok(user)
  }

  /** A user comes back exactly when the token decodes under SECRET_KEY with HS256 only, its
      "sub" is a string, and a user has that username; it is then the first such user. Every
      failure is the same 401 with the Bearer challenge. */
  lemma GetCurrentUserCases(settings: Config.Settings, token: string,
                            decode: (string, string, seq<string>) -> Result<Dict<PyValue>, string>,
                            users: seq<User>)
    ensures var r := GetCurrentUser(settings, token, decode, users);
      var decoded := decode(token, settings.secretKey, ["HS256"]);
      && (r.Ok? <==>
            && decoded.Ok?
            && Get(decoded.value, "sub").Some? && Get(decoded.value, "sub").value.PyStr?
            && exists u :: u in users && u.username == Get(decoded.value, "sub").value.s)
      && (r.Ok? ==> r.value in users && Get(decoded.value, "sub") == Some(PyStr(r.value.username))
                    && r == Ok(FindUser(users, r.value.username).value))
      && (r.Err? ==> r.error == HttpError(401, "Could not validate credentials", [("WWW-Authenticate", "Bearer")]))
  {
    var decoded := decode(token, settings.secretKey, ["HS256"]);
    if decoded.Ok? {
      var sub := Get(decoded.value, "sub");
      if sub.Some? && sub.value.PyStr? {
        var found := FindUser(users, sub.value.s);
        if found.Some? {
          assert found.value in users && found.value.username == sub.value.s;
        }
      }
    }
  }
}
