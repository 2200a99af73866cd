// The profile routes of backend/src/routes/user.ts: GET /user/:address tells the client
// whether a profile exists and is set up, PUT /user/:address creates or renames it. The
// request clock is a parameter.
module UserRoutes {
  import opened Wrappers
  import opened Strings
  import opened Types
  import opened Db

  /** The reply of GET /user/:address. */
  datatype UserReply =
    | NoProfile
    | Profile(profileSetup: bool, address: string, displayName: string, avatarUrl: Option<string>)

  /** GET /user/:address: a profile counts as set up once it has a non-empty display name. */
  function GetUser(users: map<string, User>, address: string): (r: UserReply)
    ensures r.NoProfile? <==> address !in users
    ensures r.Profile? ==> && r.profileSetup == (users[address].displayName != "")
                           && r.address == users[address].address
                           && r.displayName == users[address].displayName
                           && r.avatarUrl == users[address].avatarUrl
  {
    if address !in users then NoProfile
    else
      var u := users[address];
      Profile(u.displayName != "", u.address, u.displayName, u.avatarUrl)
  }

  /** The reply of PUT /user/:address; `avatarUrl` is echoed as sent. */
  datatype PutUserReply =
    | NameRequired(error: string)   // 400
    | Saved(address: string, displayName: string, avatarUrl: Option<string>)

  const NameRequiredError: string := "Display name is required"

  /** The guard of PUT /user/:address: a display name that is not blank once trimmed. A
      name is refused exactly when it is missing or made of whitespace only. */
  predicate AcceptsName(displayName: Option<string>)
    ensures !AcceptsName(displayName) <==> displayName.None? || AllWhitespace(displayName.value)
  {
    if displayName.Some? then
      TrimEmpty(displayName.value);
      Trim(displayName.value) != ""
    else false
  }

  /** The user row after an accepted PUT: an existing profile is renamed and gets the new
      avatar, keeping its status, ENS name, twin flag and join time; a new one starts offline,
      without a twin, joined `now`. */
  function StoredUser(existing: Option<User>, address: string, name: string, avatarUrl: Option<string>, now: string): (u: User)
    ensures u.displayName == name && u.avatarUrl == avatarUrl
    ensures existing.Some? ==> u == existing.value.(displayName := name, avatarUrl := avatarUrl)
    ensures existing.None? ==> u == User(address, None, name, avatarUrl, Offline, false, now)
  {
    match existing
    case Some(e) => e.(displayName := name, avatarUrl := avatarUrl)
    case None => User(address, None, name, avatarUrl, Offline, false, now)
  }

  /** PUT /user/:address. */
  method PutUser(db: Database, address: string, displayName: Option<string>, avatarUrl: Option<string>, now: string)
    returns (reply: PutUserReply)
    requires db.Valid()
    modifies db`users
    ensures db.Valid()
    ensures !AcceptsName(displayName) ==> reply == NameRequired(NameRequiredError) && db.users == old(db.users)
    ensures AcceptsName(displayName) ==>
      var name := Trim(displayName.value);
      var existing := if address in old(db.users) then Some(old(db.users)[address]) else None;
      && db.users == old(db.users)[address := StoredUser(existing, address, name, avatarUrl, now)]
      && reply == Saved(address, name, avatarUrl)
  {
    if !AcceptsName(displayName) {
      reply := NameRequired(NameRequiredError);
      return;
    }
    var name := Trim(displayName.value);
    var existing := if address in db.users then Some(db.users[address]) else None;
    db.users := db.users[address := StoredUser(existing, address, name, avatarUrl, now)];
    reply := Saved(address, name, avatarUrl);
  }

  /** After an accepted PUT the profile exists, is set up, and carries the trimmed name. */
  lemma PutThenGetUser(users: map<string, User>, address: string, displayName: string,
                       avatarUrl: Option<string>, now: string)
    requires AcceptsName(Some(displayName))
    requires forall a :: a in users ==> users[a].address == a
    ensures var existing := if address in users then Some(users[address]) else None;
      var after := users[address := StoredUser(existing, address, Trim(displayName), avatarUrl, now)];
      GetUser(after, address) == Profile(true, address, Trim(displayName), avatarUrl)
  {
  }
}
