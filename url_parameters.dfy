/**
 * The URL-parameter authentication provider. A request carries the token
 * `<uuid>:<secret>` in the query parameter PARAMNAME; the provider applies when
 * the token names a stored session record whose key is the secret, and
 * authenticates the record's owner when that user exists and is active.
 */
module UrlParametersAuth {

  import opened Wrappers
  import Php
  import opened Http
  import opened ParamSessionEntity

  /** Name of the query parameter that carries the token. */
  const PARAMNAME: string := "iSession"

  /** The role every authenticated account has. */
  const AUTHENTICATED_ROLE: string := "authenticated"

  /** Index of the first record carrying `uuid`, or `|records|` when none does. */
  function FirstWithUuid(records: seq<ParamSession>, uuid: string): (i: nat)
    ensures i <= |records|
    ensures i < |records| ==> records[i].uuid == uuid
    ensures forall j :: 0 <= j < i ==> records[j].uuid != uuid
  {
    if records == [] then 0
    else if records[0].uuid == uuid then 0
    else 1 + FirstWithUuid(records[1..], uuid)
  }

  /**
   * `loadByProperties(['uuid' => $uuid])`: the records carrying that uuid, in id order;
   * its first element (`current()`) is the first stored record with that uuid.
   */
  function LoadByUuid(records: seq<ParamSession>, uuid: string): (matches: seq<ParamSession>)
    ensures forall i :: 0 <= i < |matches| ==> matches[i] in records && matches[i].uuid == uuid
    ensures forall i :: 0 <= i < |records| && records[i].uuid == uuid ==> records[i] in matches
    ensures matches == [] <==> FirstWithUuid(records, uuid) == |records|
    ensures matches != [] ==> matches[0] == records[FirstWithUuid(records, uuid)]
  {
    if records == [] then []
    else
      var rest := LoadByUuid(records[1..], uuid);
      assert records == [records[0]] + records[1..];
      if records[0].uuid == uuid then [records[0]] + rest else rest
  }

  /**
   * `getSession($uuid, $key)`: only the first record with that uuid is looked at,
   * and it is returned only when its key equals `key` exactly.
   */
  function GetSession(records: seq<ParamSession>, uuid: string, key: string): (r: Option<ParamSession>)
    ensures r.Some? <==> FirstWithUuid(records, uuid) < |records| && records[FirstWithUuid(records, uuid)].sessionKey == key
    ensures r.Some? ==> r.value == records[FirstWithUuid(records, uuid)]
    ensures r.Some? ==> r.value in records && r.value.uuid == uuid && r.value.sessionKey == key
  {
    var matches := LoadByUuid(records, uuid);
    if matches == [] then None
    else if matches[0].sessionKey != key then None
    else Some(matches[0])
  }

  /** `paramCorrect($param)`: split at the first ':', refuse a falsy secret, then look the pair up. */
  function ParamCorrect(records: seq<ParamSession>, param: string): (correct: bool)
    ensures correct ==> ':' in param
    ensures correct ==>
      (exists i :: 0 <= i < |records| && param == records[i].uuid + ":" + records[i].sessionKey)
  {
    var halves := Php.ExplodeColon(param);
    if halves.second.None? || Php.Falsy(halves.second.value) then false
    else GetSession(records, halves.first, halves.second.value).Some?
  }

  /** `applies($request)`: the parameter is present and correct. */
  function AppliesTo(query: map<string, string>, records: seq<ParamSession>): (applies: bool)
    ensures applies ==> PARAMNAME in query && ':' in query[PARAMNAME]
  {
    PARAMNAME in query && ParamCorrect(records, query[PARAMNAME])
  }

  /**
   * A parameter is correct exactly when it is the token `uuid:key` of a stored record
   * that is the first with its uuid, and whose uuid holds no ':'.
   */
  lemma {:induction false} ParamCorrectIffIssuedToken(records: seq<ParamSession>, param: string)
    ensures ParamCorrect(records, param) <==>
      exists i :: 0 <= i < |records| && FirstWithUuid(records, records[i].uuid) == i &&
        ':' !in records[i].uuid && param == records[i].uuid + ":" + records[i].sessionKey
  {
    var halves := Php.ExplodeColon(param);
    if ParamCorrect(records, param) {
      var i := FirstWithUuid(records, halves.first);
      assert records[i].uuid == halves.first;
      assert param == records[i].uuid + ":" + records[i].sessionKey;
    }
    if exists i :: 0 <= i < |records| && FirstWithUuid(records, records[i].uuid) == i &&
        ':' !in records[i].uuid && param == records[i].uuid + ":" + records[i].sessionKey {
      var i :| 0 <= i < |records| && FirstWithUuid(records, records[i].uuid) == i &&
        ':' !in records[i].uuid && param == records[i].uuid + ":" + records[i].sessionKey;
      Php.ExplodeColonOfJoin(records[i].uuid, records[i].sessionKey);
      assert halves == Php.Halves(records[i].uuid, Some(records[i].sessionKey));
    }
  }

  /** The provider does not apply to a missing parameter, one without ':', or one with a falsy secret. */
  lemma AppliesRejectsMalformed(query: map<string, string>, records: seq<ParamSession>)
    ensures PARAMNAME !in query ==> !AppliesTo(query, records)
    ensures PARAMNAME in query && ':' !in query[PARAMNAME] ==> !AppliesTo(query, records)
    ensures var halves := Php.ExplodeColon(if PARAMNAME in query then query[PARAMNAME] else "");
      (halves.second.Some? && Php.Falsy(halves.second.value)) ==> !AppliesTo(query, records)
  {
  }

  /** A row of `users_field_data`; columns the provider does not inspect are kept as a map. */
  datatype UserRow = UserRow(uid: nat, defaultLangcode: int, status: string, columns: map<string, string>)

  /** A row of `user__roles`. */
  datatype RoleRow = RoleRow(entityId: nat, rolesTargetId: string)

  /** The user query with `fetchAssoc()`: the first row for `uid` in the default language. */
  function FetchUser(users: seq<UserRow>, uid: nat): (row: Option<UserRow>)
    ensures row.Some? ==> row.value in users && row.value.uid == uid && row.value.defaultLangcode == 1
    ensures row.None? ==> forall u :: u in users ==> !(u.uid == uid && u.defaultLangcode == 1)
  {
    if users == [] then None
    else if users[0].uid == uid && users[0].defaultLangcode == 1 then Some(users[0])
    else FetchUser(users[1..], uid)
  }

  /** The role query with `fetchCol()`: the role ids of `uid`, in table order. */
  function FetchRoles(userRoles: seq<RoleRow>, uid: nat): (rids: seq<string>)
    ensures forall rid :: rid in rids <==> RoleRow(uid, rid) in userRoles
    ensures |rids| <= |userRoles|
  {
    if userRoles == [] then []
    else
      var rest := FetchRoles(userRoles[1..], uid);
      assert userRoles == [userRoles[0]] + userRoles[1..];
      if userRoles[0].entityId == uid then [userRoles[0].rolesTargetId] + rest else rest
  }

  /** The account built on success: the user's row, its roles, and the matched record under PARAMNAME. */
  datatype UserSession = UserSession(row: UserRow, roles: seq<string>, session: ParamSession)

  /**
   * What `authenticate` ends in: no account (NULL), an account, or the TypeError PHP
   * raises when a token without ':' leaves the secret null for `getSession(string, string)`.
   */
  datatype AuthResult = Declined | Authenticated(account: UserSession) | TypeErrorThrown

  /** The outcome of `authenticate` for a query, a session store and the user tables. */
  function Authentication(query: map<string, string>, records: seq<ParamSession>,
                          users: seq<UserRow>, userRoles: seq<RoleRow>): (result: AuthResult)
    ensures result.TypeErrorThrown? <==> ':' !in (if PARAMNAME in query then query[PARAMNAME] else "")
    ensures result.Authenticated? ==>
      result.account.session in records && result.account.row in users &&
      |result.account.roles| > 0 && result.account.roles[0] == AUTHENTICATED_ROLE
  {
    var token := if PARAMNAME in query then query[PARAMNAME] else "";
    var halves := Php.ExplodeColon(token);
    if halves.second.None? then TypeErrorThrown
    else match GetSession(records, halves.first, halves.second.value)
      case None => Declined
      case Some(session) =>
        if Php.EmptyId(session.ownerId) then Declined
        else match FetchUser(users, session.ownerId.value)
          case None => Declined
          case Some(row) =>
            if Php.Falsy(row.status) then Declined
            else Authenticated(UserSession(row, [AUTHENTICATED_ROLE] + FetchRoles(userRoles, row.uid), session))
  }

  /**
   * Soundness: an account is produced only for a stored record whose uuid and key are
   * the token's two halves, owned by a non-zero user id whose row exists and is active;
   * its roles are the authenticated role followed by the user's role ids in table order.
   */
  lemma AuthenticationSound(query: map<string, string>, records: seq<ParamSession>,
                            users: seq<UserRow>, userRoles: seq<RoleRow>)
    requires Authentication(query, records, users, userRoles).Authenticated?
    ensures var account := Authentication(query, records, users, userRoles).account;
      && PARAMNAME in query
      && account.session in records
      && Php.ExplodeColon(query[PARAMNAME]) == Php.Halves(account.session.uuid, Some(account.session.sessionKey))
      && query[PARAMNAME] == account.session.uuid + ":" + account.session.sessionKey
      && account.session.ownerId == Some(account.row.uid) && account.row.uid != 0
      && account.row in users && account.row.defaultLangcode == 1 && !Php.Falsy(account.row.status)
      && account.roles == [AUTHENTICATED_ROLE] + FetchRoles(userRoles, account.row.uid)
      && account.roles[0] == AUTHENTICATED_ROLE
  {
  }

  /**
   * Fail-closed: with a well-formed token, no account results when the lookup fails,
   * the owner is unset or 0, the user row is missing, or the user's status is falsy.
   */
  lemma AuthenticationFailsClosed(query: map<string, string>, records: seq<ParamSession>,
                                  users: seq<UserRow>, userRoles: seq<RoleRow>)
    requires PARAMNAME in query && ':' in query[PARAMNAME]
    ensures var halves := Php.ExplodeColon(query[PARAMNAME]);
      var found := GetSession(records, halves.first, halves.second.value);
      var result := Authentication(query, records, users, userRoles);
      && (found.None? ==> result == Declined)
      && (found.Some? && Php.EmptyId(found.value.ownerId) ==> result == Declined)
      && (found.Some? && found.value.ownerId.Some? && FetchUser(users, found.value.ownerId.value).None? ==> result == Declined)
      && (found.Some? && found.value.ownerId.Some? &&
          FetchUser(users, found.value.ownerId.value).Some? &&
          Php.Falsy(FetchUser(users, found.value.ownerId.value).value.status)
          ==> result == Declined)
      && result != TypeErrorThrown
  {
  }

  /**
   * `applies` and `authenticate` agree: when the provider applies, `authenticate` does not
   * raise; when `authenticate` produces an account, the provider applies.
   */
  lemma AppliesAgreesWithAuthentication(query: map<string, string>, records: seq<ParamSession>,
                                        users: seq<UserRow>, userRoles: seq<RoleRow>)
    ensures AppliesTo(query, records) ==> Authentication(query, records, users, userRoles) != TypeErrorThrown
    ensures Authentication(query, records, users, userRoles).Authenticated? ==> AppliesTo(query, records)
  {
  }

  /** Once a token authenticates, changing its secret half to anything else declines. */
  lemma {:induction false} OnlyTheStoredSecretAuthenticates(records: seq<ParamSession>, users: seq<UserRow>,
                                                            userRoles: seq<RoleRow>, uuid: string,
                                                            secret: string, other: string)
    requires ':' !in uuid
    requires Authentication(map[PARAMNAME := uuid + ":" + secret], records, users, userRoles).Authenticated?
    requires other != secret
    ensures Authentication(map[PARAMNAME := uuid + ":" + other], records, users, userRoles) == Declined
  {
    Php.ExplodeColonOfJoin(uuid, secret);
    Php.ExplodeColonOfJoin(uuid, other);
  }

  /** The anti-forgery seed store of the request's session metadata. */
  class MetadataBag {
    var csrfTokenSeed: Option<string>

    constructor ()
      ensures csrfTokenSeed == None
    {
      csrfTokenSeed := None;
    }

    /** `setCsrfTokenSeed($seed)`. */
    method SetCsrfTokenSeed(seed: string)
      modifies this
      ensures csrfTokenSeed == Some(seed)
    {
      csrfTokenSeed := Some(seed);
    }
  }

  /** The database tables the provider queries. */
  class Connection {
    var users: seq<UserRow>
    var userRoles: seq<RoleRow>

    constructor (users: seq<UserRow>, userRoles: seq<RoleRow>)
      ensures this.users == users && this.userRoles == userRoles
    {
      this.users := users;
      this.userRoles := userRoles;
    }
  }

  class UrlParameters {
    const storage: SessionStorage
    const connection: Connection
    const metadataBag: MetadataBag

    constructor (storage: SessionStorage, connection: Connection, metadataBag: MetadataBag)
      ensures this.storage == storage && this.connection == connection && this.metadataBag == metadataBag
    {
      this.storage := storage;
      this.connection := connection;
      this.metadataBag := metadataBag;
    }

    /** `applies($request)`; it changes no state. */
    method Applies(request: Request) returns (applies: bool)
      ensures applies == AppliesTo(request.query, storage.records)
    {
      applies := PARAMNAME in request.query && ParamCorrect(storage.records, request.query[PARAMNAME]);
    }

    /**
     * `authenticate($request)`. On success the CSRF seed becomes the matched record's key;
     * on every other outcome it is left as it was.
     */
    method Authenticate(request: Request) returns (outcome: AuthResult)
      modifies metadataBag
      ensures outcome == Authentication(request.query, storage.records, connection.users, connection.userRoles)
      ensures outcome.Authenticated? ==> metadataBag.csrfTokenSeed == Some(outcome.account.session.sessionKey)
      ensures !outcome.Authenticated? ==> metadataBag.csrfTokenSeed == old(metadataBag.csrfTokenSeed)
    {
      var token := if PARAMNAME in request.query then request.query[PARAMNAME] else "";
      var halves := Php.ExplodeColon(token);
      if halves.second.None? {
        return TypeErrorThrown;
      }
      var session := GetSession(storage.records, halves.first, halves.second.value);
      if session.None? {
        return Declined;
      }
      var uid := session.value.ownerId;
      if Php.EmptyId(uid) {
        return Declined;
      }
      var values := FetchUser(connection.users, uid.value);
      if values.None? || Php.Falsy(values.value.status) {
        return Declined;
      }
      var rids := FetchRoles(connection.userRoles, values.value.uid);
      var roles := [AUTHENTICATED_ROLE] + rids;
      metadataBag.SetCsrfTokenSeed(session.value.sessionKey);
      outcome := Authenticated(UserSession(values.value, roles, session.value));
    }

    /**
     * The provider as the authentication manager drives it: `applies` first, then
     * `authenticate`. Because `applies` changes nothing, the outcome and the seed are
     * those of `authenticate` alone, and an applying request never raises.
     */
    method AppliesThenAuthenticate(request: Request) returns (applies: bool, outcome: AuthResult)
      modifies metadataBag
      ensures applies == AppliesTo(request.query, storage.records)
      ensures outcome == Authentication(request.query, storage.records, connection.users, connection.userRoles)
      ensures outcome.Authenticated? ==> metadataBag.csrfTokenSeed == Some(outcome.account.session.sessionKey)
      ensures !outcome.Authenticated? ==> metadataBag.csrfTokenSeed == old(metadataBag.csrfTokenSeed)
      ensures applies ==> outcome != TypeErrorThrown
    {
      applies := Applies(request);
      outcome := Authenticate(request);
      AppliesAgreesWithAuthentication(request.query, storage.records, connection.users, connection.userRoles);
    }
  }
}
