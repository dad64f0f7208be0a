/**
 * The session record entity (`iframe_session`) and the storage it is created in
 * and saved to. A record binds a public uuid and a secret session key to an owning
 * user id, and carries an auxiliary data map.
 */
module ParamSessionEntity {

  import opened Wrappers
  import Php

  /** A character of URL-safe base64 without padding. */
  predicate Base64UrlChar(c: char) {
    'A' <= c <= 'Z' || 'a' <= c <= 'z' || '0' <= c <= '9' || c == '-' || c == '_'
  }

  /**
   * What `Crypt::randomBytesBase64(32)` returns: 32 random bytes rendered as
   * 43 characters of URL-safe base64. The randomness itself is an input of the model.
   */
  predicate IsRandomKey(k: string) {
    |k| == 43 && forall i :: 0 <= i < |k| ==> Base64UrlChar(k[i])
  }

  /** A generated key is truthy in PHP and holds no ':' (so it survives the token split). */
  lemma RandomKeyIsTruthyAndColonFree(k: string)
    requires IsRandomKey(k)
    ensures !Php.Falsy(k)
    ensures ':' !in k
  {
  }

  /** The `$values` array handed to `create()`: the owner id and, possibly, a session key. */
  datatype CreateValues = CreateValues(uid: Option<nat>, sessionKey: Option<string>)

  /** `empty($values['session_key'])`: missing, "" or "0". */
  predicate EmptyKey(key: Option<string>) {
    key.None? || Php.Falsy(key.value)
  }

  class ParamSession {
    /** Public identifier; the first half of the wire token. */
    const uuid: string
    /** Owner user id; `None` stands for an unset owner. */
    const ownerId: Option<nat>
    /** Required and read-only secret, fixed when the record is created. */
    const sessionKey: Php.TruthyString
    /** The stored `data` map item; `None` when no item is stored. */
    var data: Option<map<string, string>>

    constructor (uuid: string, ownerId: Option<nat>, sessionKey: Php.TruthyString)
      ensures this.uuid == uuid && this.ownerId == ownerId && this.sessionKey == sessionKey
      ensures data == None
    {
      this.uuid := uuid;
      this.ownerId := ownerId;
      this.sessionKey := sessionKey;
      data := None;
    }

    /**
     * `preCreate`: rewrites the creation values so that they always carry a usable
     * session key. A caller-supplied non-empty key is kept; otherwise the freshly
     * generated `randomKey` is put in its place. Nothing else in the values changes.
     */
    static method PreCreate(values: CreateValues, randomKey: string) returns (result: CreateValues)
      requires IsRandomKey(randomKey)
      ensures result.uid == values.uid
      ensures !EmptyKey(values.sessionKey) ==> result.sessionKey == values.sessionKey
      ensures EmptyKey(values.sessionKey) ==> result.sessionKey == Some(randomKey)
      ensures !EmptyKey(result.sessionKey)
    {
      result := values;
      if EmptyKey(values.sessionKey) {
        RandomKeyIsTruthyAndColonFree(randomKey);
        result := result.(sessionKey := Some(randomKey));
      }
    }

    /** `getData`: the stored map, or the empty map when none is stored. */
    function GetData(): (d: map<string, string>)
      reads this
      ensures data.None? ==> d == map[]
      ensures data.Some? ==> d == data.value
    {
      data.GetOr(map[])
    }

    /** `setData`: replaces the data map and returns the record itself. */
    method SetData(d: map<string, string>) returns (self: ParamSession)
      modifies this`data
      ensures self == this
      ensures data == Some(d)
      ensures GetData() == d
    {
      data := Some(d);
      self := this;
    }

    /** `getSessionKey`. */
    function GetSessionKey(): (key: Php.TruthyString) {
      sessionKey
    }
  }

  /**
   * The entity storage for session records: the saved records in id order,
   * which is the order a property query returns them in.
   */
  class SessionStorage {
    var records: seq<ParamSession>

    constructor ()
      ensures records == []
    {
      records := [];
    }

    /**
     * `create($values)`: runs `preCreate` and builds a new, not yet saved record.
     * `generatedUuid` is the uuid the storage assigns to a new entity.
     */
    method Create(values: CreateValues, generatedUuid: string, randomKey: string) returns (session: ParamSession)
      requires IsRandomKey(randomKey)
      ensures fresh(session)
      ensures session.uuid == generatedUuid && session.ownerId == values.uid
      ensures session.sessionKey == if EmptyKey(values.sessionKey) then randomKey else values.sessionKey.value
      ensures session.data == None
    {
      var v := ParamSession.PreCreate(values, randomKey);
      session := new ParamSession(generatedUuid, v.uid, v.sessionKey.value);
    }

    /** `save($session)`: a record not yet stored is appended; a stored one stays where it is. */
    method Save(session: ParamSession)
      modifies this
      ensures records == if session in old(records) then old(records) else old(records) + [session]
    {
      if session !in records {
        records := records + [session];
      }
    }
  }
}
