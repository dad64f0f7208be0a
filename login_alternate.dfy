/**
 * Token issuance after an interactive login: a fresh session record owned by the
 * user who just logged in is created and saved, and the post-login redirect carries
 * its token `<uuid>:<session_key>` in the provider's query parameter.
 */
module LoginAlternateForm {

  import opened Wrappers
  import Php
  import opened ParamSessionEntity
  import opened UrlParametersAuth

  /** Route of a user's canonical page. */
  const CANONICAL_ROUTE: string := "entity.user.canonical"

  /** A redirect target: route name, route parameters and query parameters. */
  datatype Redirect = Redirect(route: string, routeParameters: map<string, nat>, query: map<string, string>)

  /** The token minted for a record. */
  function IssuedToken(session: ParamSession): (token: string) {
    session.uuid + ":" + session.sessionKey
  }

  /** The parts of the login form state the hook reads and writes. */
  class FormState {
    var uid: Option<nat>
    var redirect: Option<Redirect>

    constructor (uid: Option<nat>)
      ensures this.uid == uid && redirect == None
    {
      this.uid := uid;
      redirect := None;
    }
  }

  class LoginAlternate {
    const sessionStorage: SessionStorage

    constructor (sessionStorage: SessionStorage)
      ensures this.sessionStorage == sessionStorage
    {
      this.sessionStorage := sessionStorage;
    }

    /**
     * `submitForm`, after the parent login form has run. Without a uid nothing happens.
     * Otherwise exactly one new record owned by that uid is appended to the store, the
     * records already stored are left as they were, and the redirect goes to that
     * user's canonical page with the new record's token under PARAMNAME.
     * `generatedUuid` and `randomKey` are the uuid and key the storage generates.
     */
    method SubmitForm(formState: FormState, generatedUuid: string, randomKey: string)
      requires IsRandomKey(randomKey)
      modifies sessionStorage, formState
      ensures formState.uid == old(formState.uid)
      ensures Php.EmptyId(formState.uid) ==>
        sessionStorage.records == old(sessionStorage.records) && formState.redirect == old(formState.redirect)
      ensures !Php.EmptyId(formState.uid) ==>
        && |sessionStorage.records| == |old(sessionStorage.records)| + 1
        && sessionStorage.records[..|old(sessionStorage.records)|] == old(sessionStorage.records)
        && var session := sessionStorage.records[|old(sessionStorage.records)|];
        && fresh(session)
        && session.uuid == generatedUuid
        && session.ownerId == formState.uid
        && session.sessionKey == randomKey
        && session.data == None
        && formState.redirect == Some(Redirect(CANONICAL_ROUTE, map["user" := formState.uid.value],
                                               map[PARAMNAME := IssuedToken(session)]))
    {
      if Php.EmptyId(formState.uid) {
        return;
      }
      var uid := formState.uid.value;
      var session := sessionStorage.Create(CreateValues(Some(uid), None), generatedUuid, randomKey);
      sessionStorage.Save(session);
      formState.redirect := Some(Redirect(CANONICAL_ROUTE, map["user" := uid],
                                          map[PARAMNAME := IssuedToken(session)]));
    }
  }

  /**
   * Where the first record with `uuid` sits once `session` is appended: where it was,
   * or, when no stored record has that uuid, at the appended record (or past the end).
   */
  lemma {:induction false} FirstWithUuidAppend(records: seq<ParamSession>, session: ParamSession, uuid: string)
    ensures FirstWithUuid(records + [session], uuid) ==
      if FirstWithUuid(records, uuid) == |records| && session.uuid != uuid then |records| + 1
      else FirstWithUuid(records, uuid)
  {
    if records != [] {
      assert (records + [session])[1..] == records[1..] + [session];
      FirstWithUuidAppend(records[1..], session, uuid);
    }
  }

  /**
   * The token minted for a new record is accepted: it splits back into the record's uuid
   * and key, `paramCorrect` holds, and `getSession` returns that very record.
   */
  lemma IssuedTokenAccepted(records: seq<ParamSession>, session: ParamSession)
    requires forall i :: 0 <= i < |records| ==> records[i].uuid != session.uuid
    requires ':' !in session.uuid
    ensures Php.ExplodeColon(IssuedToken(session)) == Php.Halves(session.uuid, Some(session.sessionKey))
    ensures GetSession(records + [session], session.uuid, session.sessionKey) == Some(session)
    ensures ParamCorrect(records + [session], IssuedToken(session))
    ensures AppliesTo(map[PARAMNAME := IssuedToken(session)], records + [session])
  {
    Php.ExplodeColonOfJoin(session.uuid, session.sessionKey);
    FirstWithUuidAppend(records, session, session.uuid);
  }

  /**
   * The token minted for a new record authenticates its owner, provided the owner's
   * row exists and is active: the account is that row, with the owner's roles and the record.
   */
  lemma IssuedTokenAuthenticates(records: seq<ParamSession>, session: ParamSession,
                                 users: seq<UserRow>, userRoles: seq<RoleRow>)
    requires forall i :: 0 <= i < |records| ==> records[i].uuid != session.uuid
    requires ':' !in session.uuid
    requires !Php.EmptyId(session.ownerId)
    requires FetchUser(users, session.ownerId.value).Some?
    requires !Php.Falsy(FetchUser(users, session.ownerId.value).value.status)
    ensures var row := FetchUser(users, session.ownerId.value).value;
      Authentication(map[PARAMNAME := IssuedToken(session)], records + [session], users, userRoles)
        == Authenticated(UserSession(row, [AUTHENTICATED_ROLE] + FetchRoles(userRoles, session.ownerId.value), session))
  {
    IssuedTokenAccepted(records, session);
  }

  /**
   * Appending a record leaves every lookup of another uuid, and of any uuid already
   * stored, as it was.
   */
  lemma {:induction false} AppendKeepsLookups(records: seq<ParamSession>, session: ParamSession,
                                              uuid: string, key: string)
    requires uuid != session.uuid || FirstWithUuid(records, uuid) < |records|
    ensures GetSession(records + [session], uuid, key) == GetSession(records, uuid, key)
  {
    FirstWithUuidAppend(records, session, uuid);
    var i := FirstWithUuid(records, uuid);
    if i < |records| {
      assert (records + [session])[i] == records[i];
    }
  }

  /**
   * A later login does not invalidate earlier tokens: whatever a query authenticated
   * to before a new record with a fresh uuid is appended, it authenticates to afterwards.
   */
  lemma EarlierTokensStayValid(query: map<string, string>, records: seq<ParamSession>, session: ParamSession,
                               users: seq<UserRow>, userRoles: seq<RoleRow>)
    requires forall i :: 0 <= i < |records| ==> records[i].uuid != session.uuid
    requires Authentication(query, records, users, userRoles).Authenticated?
    ensures Authentication(query, records + [session], users, userRoles)
      == Authentication(query, records, users, userRoles)
  {
    var halves := Php.ExplodeColon(query[PARAMNAME]);
    AppendKeepsLookups(records, session, halves.first, halves.second.value);
  }
}
