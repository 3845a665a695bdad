// The account routes (server/routes/auth.js): registration, login, the
// current user, the short profile update, and Google sign-in with its
// account linking.  bcrypt hashing and comparison are foreign calls, so the
// routes take them as parameters: `hash` turns a password into what is
// stored, `matches` is `bcrypt.compare`.  Firebase token verification is
// the parameter `tokenUid`: the uid the token decodes to, None when no
// token came or its verification threw.
module AuthRoutes {
  import opened Common
  import opened Documents

  /** A user document as `User.create` fills it from the given fields and
      the schema's defaults. */
  function NewUser(id: Id, name: string, email: string, role: string, password: Option<string>,
                   googleId: Option<string>, avatar: string, authProvider: string, now: Time): (u: User)
    ensures u.id == id && u.email == email && u.role == role && u.isActive
    ensures u.password == password && u.googleId == googleId && u.authProvider == authProvider
    ensures u.wishlist == [] && u.enrolledCourses == [] && u.createdCourses == []
  {
    User(id, Trim(name), email, role, true, googleId, avatar, authProvider, "", "", "", [],
         [], [], [], 0, 0, 0, password, now, None, None, DefaultPreferences)
  }

  // ---------------------------------------------------------------------
  // POST /register

  /** The roles a visitor may ask for. */
  const SelfServiceRoles: seq<string> := ["student", "instructor"]

  datatype Registered = Registered(id: Id, name: string, email: string, role: string)

  /** The schema's validation of a new local account: a name, an e-mail and
      a password of at least 6 characters. */
  predicate RegistrationValid(name: string, email: string, password: string)
  {
    NameAcceptable(name) && email != [] && |password| >= 6
  }

  /** Register: 400 for an address already in use, 400 for a role other
      than student or instructor; a document the schema refuses makes
      `User.create` throw (500); otherwise the account is stored with the
      hashed password and the role asked for, student by default; 201. */
  function Register(db: Db, name: string, email: string, password: string, role: string,
                    id: Id, now: Time, hash: string -> string): (o: Outcome<Registered>)
    requires id !in db.users
    ensures o.response.Error? ==> o.db == db
    ensures EmailTaken(db.users, email) ==> o.response == Error(400)
    ensures !EmailTaken(db.users, email) && role != [] && role !in SelfServiceRoles ==> o.response == Error(400)
    ensures o.response.Success? <==>
      !EmailTaken(db.users, email) && (role == [] || role in SelfServiceRoles) && RegistrationValid(name, email, password)
    ensures o.response.Success? ==>
      o.response.status == 201 && o.response.body.id == id &&
      o.response.body.role == (if role == [] then "student" else role) && id in o.db.users &&
      o.db == db.(users := db.users[id := o.db.users[id]]) &&
      o.db.users[id].password == Some(hash(password)) && o.db.users[id].email == email
  {
    if EmailTaken(db.users, email) then Outcome(db, Error(400))
    else if role != [] && role !in SelfServiceRoles then Outcome(db, Error(400))
    else if !RegistrationValid(name, email, password) then Outcome(db, Error(500))
    else
      var r := if role == [] then "student" else role;
      var u := NewUser(id, name, email, r, Some(hash(password)), None, "", "local", now);
      Outcome(db.(users := db.users[id := u]), Success(201, Registered(id, u.name, email, r)))
  }

  /** Nobody can register as an admin, and a registration never creates a
      second account for an address. */
  lemma RegistrationNeverAdmin(db: Db, name: string, email: string, password: string, role: string,
                               id: Id, now: Time, hash: string -> string)
    requires id !in db.users
    ensures var o := Register(db, name, email, password, role, id, now, hash);
      o.response.Success? ==> o.response.body.role in SelfServiceRoles && o.db.users[id].role != "admin"
    ensures var o := Register(db, name, email, password, role, id, now, hash);
      o.response.Success? ==> forall u :: u in o.db.users && u != id ==> o.db.users[u].email != email
  {
  }

  /** Registering the same address twice: the second is refused. */
  lemma RegisterTwice(db: Db, name: string, email: string, password: string, role: string,
                      id: Id, id2: Id, now: Time, hash: string -> string)
    requires id !in db.users && id2 !in Register(db, name, email, password, role, id, now, hash).db.users
    requires Register(db, name, email, password, role, id, now, hash).response.Success?
    ensures var d := Register(db, name, email, password, role, id, now, hash).db;
      Register(d, name, email, password, role, id2, now, hash) == Outcome(d, Error(400))
  {
    var d := Register(db, name, email, password, role, id, now, hash).db;
    assert d.users[id].email == email;
  }

  // ---------------------------------------------------------------------
  // POST /login

  datatype LoginUser = LoginUser(id: Id, name: string, email: string, role: string, avatar: string, bio: string)

  /** Login: 401 unless an account has the address and the password
      matches its hash; an account without a password (made by Google
      sign-in) makes the comparison throw (500).  The account's `isActive`
      is not consulted. */
  function Login(db: Db, email: string, password: string, found: Option<Id>,
                 matches: (string, string) -> bool): (r: Response<LoginUser>)
    requires FoundByEmail(db.users, email, found)
    ensures r.Success? <==>
      found.Some? && db.users[found.value].password.Some? && matches(password, db.users[found.value].password.value)
    ensures !EmailTaken(db.users, email) ==> r == Error(401)
    ensures r.Success? ==> r.body.id == found.value && r.body.email == email
  {
    match found
    case None => Error(401)
    case Some(id) =>
      var u := db.users[id];
      match u.password
      case None => Error(500)
      case Some(stored) =>
        if matches(password, stored) then Success(200, LoginUser(id, u.name, u.email, u.role, u.avatar, u.bio))
        else Error(401)
  }

  /** A registered account logs in with its password, whatever the hashing,
      as long as the comparison accepts a password against its own hash. */
  lemma RegisteredCanLogIn(db: Db, name: string, email: string, password: string, role: string,
                           id: Id, now: Time, hash: string -> string, matches: (string, string) -> bool)
    requires id !in db.users
    requires Register(db, name, email, password, role, id, now, hash).response.Success?
    requires matches(password, hash(password))
    ensures var d := Register(db, name, email, password, role, id, now, hash).db;
      FoundByEmail(d.users, email, Some(id)) && Login(d, email, password, Some(id), matches).Success?
  {
  }

  // ---------------------------------------------------------------------
  // GET /me

  /** The caller's document; null (None) when it has gone. */
  function Me(db: Db, caller: Id): (r: Option<User>)
    ensures r.Some? <==> caller in db.users
    ensures r.Some? ==> r.value == db.users[caller]
  {
    if caller in db.users then Some(db.users[caller]) else None
  }

  // ---------------------------------------------------------------------
  // PUT /profile

  /** `x || old`: an empty string keeps the old value. */
  function OrKeep(x: string, current: string): (r: string)
    ensures x != [] ==> r == x
    ensures x == [] ==> r == current
  {
    if x != [] then x else current
  }

  datatype ProfileView = ProfileView(id: Id, name: string, email: string, role: string, avatar: string, bio: string)

  /** The short profile update: 404 for a vanished caller; each of name,
      bio and avatar is replaced only by a non-empty value, so none can be
      cleared; a name or bio the schema refuses makes the save throw (500). */
  function UpdateProfile(db: Db, caller: Id, name: string, bio: string, avatar: string): (o: Outcome<ProfileView>)
    ensures o.response.Error? ==> o.db == db
    ensures caller !in db.users ==> o.response == Error(404)
    ensures o.response.Success? ==> caller in db.users && caller in o.db.users
    ensures o.response.Success? && caller in db.users && caller in o.db.users ==>
      var u := db.users[caller];
      var u' := o.db.users[caller];
      o.db == db.(users := db.users[caller := u']) &&
      u' == u.(name := u'.name, bio := u'.bio, avatar := u'.avatar) &&
      u'.name == Trim(OrKeep(name, u.name)) && u'.bio == OrKeep(bio, u.bio) && u'.avatar == OrKeep(avatar, u.avatar)
  {
    if caller !in db.users then Outcome(db, Error(404))
    else
      var u := db.users[caller];
      var u' := u.(name := Trim(OrKeep(name, u.name)), bio := OrKeep(bio, u.bio), avatar := OrKeep(avatar, u.avatar));
      if !NameAcceptable(u'.name) || |u'.bio| > 500 then Outcome(db, Error(500))
      else Outcome(db.(users := db.users[caller := u']), Success(200, ProfileView(caller, u'.name, u'.email, u'.role, u'.avatar, u'.bio)))
  }

  /** Empty fields leave an accepted profile as it was (up to trimming the
      name): this route cannot clear the bio. */
  lemma EmptyProfileUpdateKeepsBio(db: Db, caller: Id)
    requires UpdateProfile(db, caller, "", "", "").response.Success?
    ensures UpdateProfile(db, caller, "", "", "").db.users[caller].bio == db.users[caller].bio
    ensures UpdateProfile(db, caller, "", "", "").db.users[caller].avatar == db.users[caller].avatar
  {
  }

  // ---------------------------------------------------------------------
  // POST /google

  datatype GoogleUser = GoogleUser(id: Id, name: string, email: string, role: string, avatar: string, authProvider: string)

  function GoogleView(u: User): GoogleUser
  {
    GoogleUser(u.id, u.name, u.email, u.role, u.avatar, u.authProvider)
  }

  /** `!user.googleId`: no Google id, or an empty one. */
  predicate Unlinked(u: User)
  {
    u.googleId.None? || u.googleId.value == []
  }

  /** Another account already carries this Google id: the unique index
      refuses the write. */
  predicate GoogleIdInUse(users: map<Id, User>, uid: string, except: Option<Id>)
  {
    exists v :: v in users && Some(v) != except && users[v].googleId == Some(uid)
  }

  /** Google sign-in: 400 without an address, a display name or a uid; 401
      when a verified token belongs to another uid.  An existing account
      with that address is linked to the uid only if it has no Google id
      yet (its avatar replaced only by a non-empty photo); otherwise it is
      left as it is.  A new address gets a student account without a
      password.  A write that would give a second account the same Google
      id, or a name the schema refuses, throws (500). */
  function Google(db: Db, email: string, displayName: string, photoURL: string, uid: string,
                  tokenUid: Option<string>, found: Option<Id>, id: Id, now: Time): (o: Outcome<GoogleUser>)
    requires FoundByEmail(db.users, email, found) && id !in db.users
    ensures o.response.Error? ==> o.db == db
    ensures email == [] || displayName == [] || uid == [] ==> o.response == Error(400)
    ensures o.response.Success? && found.Some? ==>
      var u := db.users[found.value];
      o.db.users.Keys == db.users.Keys &&
      (Unlinked(u) ==> o.db.users[found.value] == u.(googleId := Some(uid), avatar := OrKeep(photoURL, u.avatar), authProvider := "google")) &&
      (!Unlinked(u) ==> o.db == db)
    ensures o.response.Success? && found.None? ==>
      id in o.db.users && o.db.users == db.users[id := o.db.users[id]] &&
      o.db.users[id].role == "student" && o.db.users[id].password.None? &&
      o.db.users[id].googleId == Some(uid) && o.db.users[id].email == email
  {
    if email == [] || displayName == [] || uid == [] then Outcome(db, Error(400))
    else if tokenUid.Some? && tokenUid.value != uid then Outcome(db, Error(401))
    else match found
      case Some(existing) =>
        var u := db.users[existing];
        if !Unlinked(u) then Outcome(db, Success(200, GoogleView(u)))
        else if GoogleIdInUse(db.users, uid, found) then Outcome(db, Error(500))
        else
          var u' := u.(googleId := Some(uid), avatar := OrKeep(photoURL, u.avatar), authProvider := "google");
          Outcome(db.(users := db.users[existing := u']), Success(200, GoogleView(u')))
      case None =>
        if !NameAcceptable(displayName) || GoogleIdInUse(db.users, uid, None) then Outcome(db, Error(500))
        else
          var u := NewUser(id, displayName, email, "student", None, Some(uid), photoURL, "google", now);
          Outcome(db.(users := db.users[id := u]), Success(200, GoogleView(u)))
  }

  /** Sign-in never replaces a Google id an account already has, and never
      changes an account's role. */
  lemma GoogleKeepsExistingLink(db: Db, email: string, displayName: string, photoURL: string, uid: string,
                                tokenUid: Option<string>, found: Option<Id>, id: Id, now: Time)
    requires FoundByEmail(db.users, email, found) && id !in db.users
    requires found.Some? && !Unlinked(db.users[found.value])
    ensures var o := Google(db, email, displayName, photoURL, uid, tokenUid, found, id, now);
      o.db == db && (o.response.Success? ==> o.response.body.role == db.users[found.value].role)
  {
  }

  /** Signing in a second time with the same Google account changes
      nothing: the first sign-in linked or created the account. */
  lemma GoogleTwice(db: Db, email: string, displayName: string, photoURL: string, uid: string,
                    found: Option<Id>, id: Id, id2: Id, now: Time, later: Time)
    requires FoundByEmail(db.users, email, found) && id !in db.users
    requires Google(db, email, displayName, photoURL, uid, None, found, id, now).response.Success?
    ensures var d := Google(db, email, displayName, photoURL, uid, None, found, id, now).db;
      var again := if found.Some? then found else Some(id);
      FoundByEmail(d.users, email, again) &&
      (id2 !in d.users ==> Google(d, email, displayName, photoURL, uid, None, again, id2, later).db == d)
  {
    var d := Google(db, email, displayName, photoURL, uid, None, found, id, now).db;
    var again := if found.Some? then found else Some(id);
    assert !Unlinked(d.users[again.value]);
  }

  /** The linking as the handler does it: assign the three fields on the
      fetched document, then save. */
  method GoogleOn(db: Database, email: string, displayName: string, photoURL: string, uid: string,
                  tokenUid: Option<string>, found: Option<Id>, id: Id, now: Time) returns (r: Response<GoogleUser>)
    requires FoundByEmail(db.users, email, found) && id !in db.users
    modifies db
    ensures Outcome(db.State(), r) == Google(old(db.State()), email, displayName, photoURL, uid, tokenUid, found, id, now)
  {
    if email == [] || displayName == [] || uid == [] {
      return Error(400);
    }
    if tokenUid.Some? && tokenUid.value != uid {
      return Error(401);
    }
    if found.Some? {
      var u := db.users[found.value];
      if u.googleId.Some? && u.googleId.value != [] {
        return Success(200, GoogleView(u));
      }
      if GoogleIdInUse(db.users, uid, found) {
        return Error(500);
      }
      u := u.(googleId := Some(uid));
      if photoURL != [] {
        u := u.(avatar := photoURL);
      }
      u := u.(authProvider := "google");
      db.users := db.users[found.value := u];
      r := Success(200, GoogleView(u));
    } else {
      if !NameAcceptable(displayName) || GoogleIdInUse(db.users, uid, None) {
        return Error(500);
      }
      var u := NewUser(id, displayName, email, "student", None, Some(uid), photoURL, "google", now);
      db.users := db.users[id := u];
      r := Success(200, GoogleView(u));
    }
  }
}
