// The wishlist routes (server/routes/wishlist.js): a user's wishlist is a
// list of course ids that `$addToSet` and `$pull` keep as a set; add,
// remove, list and check.
module WishlistRoutes {
  import opened Common
  import opened Documents

  // ---------------------------------------------------------------------
  // POST /add/:courseId

  /** An unknown course 404; a vanished caller makes the handler throw
      (500); a course already in the wishlist 400; otherwise it is added. */
  function Add(db: Db, user: Id, courseId: Id): (o: Outcome<()>)
    ensures o.response.Error? ==> o.db == db
    ensures courseId !in db.courses ==> o.response == Error(404)
    ensures courseId in db.courses && user in db.users && courseId in db.users[user].wishlist ==>
      o.response == Error(400)
    ensures o.response.Success? <==>
      courseId in db.courses && user in db.users && courseId !in db.users[user].wishlist
    ensures o.response.Success? ==>
      o.db == db.(users := db.users[user := db.users[user].(wishlist := db.users[user].wishlist + [courseId])])
  {
    if courseId !in db.courses then Outcome(db, Error(404))
    else if user !in db.users then Outcome(db, Error(500))
    else
      var u := db.users[user];
      if courseId in u.wishlist then Outcome(db, Error(400))
      else Outcome(db.(users := db.users[user := u.(wishlist := AddToSet(u.wishlist, courseId))]), Success(200, ()))
  }

  // ---------------------------------------------------------------------
  // DELETE /remove/:courseId

  /** `$pull` of the course; succeeds whether or not it was there, and for
      a caller that no longer exists changes nothing. */
  function Remove(db: Db, user: Id, courseId: Id): (o: Outcome<()>)
    ensures o.response == Success(200, ())
    ensures user !in db.users ==> o.db == db
    ensures user in db.users ==> user in o.db.users
    ensures user in db.users ==>
      var w := o.db.users[user].wishlist;
      o.db == db.(users := db.users[user := db.users[user].(wishlist := w)]) &&
      courseId !in w && forall c :: c != courseId ==> (c in w <==> c in db.users[user].wishlist)
  {
    if user !in db.users then Outcome(db, Success(200, ()))
    else
      var u := db.users[user];
      Outcome(db.(users := db.users[user := u.(wishlist := RemoveAll(u.wishlist, courseId))]), Success(200, ()))
  }

  // ---------------------------------------------------------------------
  // GET /check/:courseId

  /** Whether the course is in the caller's wishlist; a vanished caller
      makes the handler throw (500). */
  function Check(db: Db, user: Id, courseId: Id): (r: Response<bool>)
    ensures r.Error? <==> user !in db.users
    ensures r.Success? ==> (r.body <==> courseId in db.users[user].wishlist)
  {
    if user !in db.users then Error(500) else Success(200, courseId in db.users[user].wishlist)
  }

  // ---------------------------------------------------------------------
  // GET /

  /** What the listing reports of one wishlisted course. */
  datatype WishlistEntry = WishlistEntry(
    courseId: Id, title: string, description: string, instructor: Id,
    category: string, level: string, rating: Option<real>)

  function EntryOf(c: Course): WishlistEntry
  {
    WishlistEntry(c.id, c.title, c.description, c.instructor, c.category, c.level, c.rating)
  }

  /** An id that population resolves: it names a stored course. */
  function Resolves(courses: map<Id, Course>): Id -> bool
  {
    (id: Id) => id in courses && courses[id].id == id
  }

  /** The populated wishlist: the ids that still name a course, in order,
      each replaced by its course's entry. */
  function Entries(courses: map<Id, Course>, ids: seq<Id>): (r: seq<WishlistEntry>)
    ensures |r| <= |ids|
    ensures forall e :: e in r ==> e.courseId in ids
  {
    if ids == [] then []
    else
      var rest := Entries(courses, ids[1..]);
      if ids[0] in courses && courses[ids[0]].id == ids[0] then [EntryOf(courses[ids[0]])] + rest else rest
  }

  /** The entries are those of the ids that resolve, one each, in the
      wishlist's order. */
  lemma {:induction false} EntriesInOrder(courses: map<Id, Course>, ids: seq<Id>)
    ensures var kept := Filter(ids, Resolves(courses));
      |Entries(courses, ids)| == |kept| &&
      forall k :: 0 <= k < |kept| ==> kept[k] in courses && Entries(courses, ids)[k] == EntryOf(courses[kept[k]])
  {
    if ids != [] {
      EntriesInOrder(courses, ids[1..]);
      var rest := Entries(courses, ids[1..]);
      var tail := Filter(ids[1..], Resolves(courses));
      if Resolves(courses)(ids[0]) {
        assert Filter(ids, Resolves(courses)) == [ids[0]] + tail;
        assert Entries(courses, ids) == [EntryOf(courses[ids[0]])] + rest;
      } else {
        assert Filter(ids, Resolves(courses)) == tail;
        assert Entries(courses, ids) == rest;
      }
    }
  }

  /** Every id that resolves gives its entry, and every entry is the one
      of the course its id names. */
  lemma EntriesListed(courses: map<Id, Course>, ids: seq<Id>)
    ensures forall id :: id in ids && id in courses && courses[id].id == id ==> EntryOf(courses[id]) in Entries(courses, ids)
    ensures forall e :: e in Entries(courses, ids) ==> e.courseId in courses && e == EntryOf(courses[e.courseId])
  {
    var r := Entries(courses, ids);
    var kept := Filter(ids, Resolves(courses));
    EntriesInOrder(courses, ids);
    forall id | id in ids && id in courses && courses[id].id == id
      ensures EntryOf(courses[id]) in r
    {
      assert Resolves(courses)(id);
      assert id in kept;
      var k :| 0 <= k < |kept| && kept[k] == id;
      assert r[k] == EntryOf(courses[id]);
    }
    forall e | e in r
      ensures e.courseId in courses && e == EntryOf(courses[e.courseId])
    {
      var k :| 0 <= k < |r| && r[k] == e;
      assert kept[k] in kept;
      assert Resolves(courses)(kept[k]);
    }
  }

  /** A vanished caller makes the handler throw (500); otherwise every
      wishlisted id that names a course is listed with that course's
      entry, and nothing else is. */
  function List(db: Db, user: Id): (r: Response<seq<WishlistEntry>>)
    ensures r.Error? <==> user !in db.users
    ensures r.Success? ==> forall e :: e in r.body ==> e.courseId in db.users[user].wishlist
    ensures r.Success? ==> forall id :: id in db.users[user].wishlist && id in db.courses && db.courses[id].id == id ==>
      EntryOf(db.courses[id]) in r.body
    ensures r.Success? ==> forall e :: e in r.body ==>
      e.courseId in db.courses && e == EntryOf(db.courses[e.courseId])
  {
    if user !in db.users then Error(500)
    else
      EntriesListed(db.courses, db.users[user].wishlist);
      Success(200, Entries(db.courses, db.users[user].wishlist))
  }

  // ---------------------------------------------------------------------
  // Set behaviour

  /** No route puts a duplicate in a wishlist. */
  lemma RoutesKeepWishlistDistinct(db: Db, user: Id, courseId: Id)
    requires user in db.users && NoDuplicates(db.users[user].wishlist)
    ensures Add(db, user, courseId).response.Success? ==> NoDuplicates(Add(db, user, courseId).db.users[user].wishlist)
    ensures NoDuplicates(Remove(db, user, courseId).db.users[user].wishlist)
  {
    AddToSetKeepsDistinct(db.users[user].wishlist, courseId);
    RemoveAllKeepsDistinct(db.users[user].wishlist, courseId);
  }

  /** Removing twice is removing once. */
  lemma RemoveIdempotent(db: Db, user: Id, courseId: Id)
    ensures Remove(Remove(db, user, courseId).db, user, courseId) == Remove(db, user, courseId)
  {
    if user in db.users {
      var d1 := Remove(db, user, courseId).db;
      assert RemoveAll(d1.users[user].wishlist, courseId) == d1.users[user].wishlist;
    }
  }

  /** After an add the check answers true, after a remove false; and a
      remove undoes a successful add. */
  lemma AddRemoveCheck(db: Db, user: Id, courseId: Id)
    requires user in db.users
    ensures Add(db, user, courseId).response.Success? ==> Check(Add(db, user, courseId).db, user, courseId) == Success(200, true)
    ensures Check(Remove(db, user, courseId).db, user, courseId) == Success(200, false)
    ensures Add(db, user, courseId).response.Success? ==> Remove(Add(db, user, courseId).db, user, courseId).db == db
  {
    var u := db.users[user];
    if courseId in db.courses && courseId !in u.wishlist {
      RemoveAllAppended(u.wishlist, courseId);
      var d1 := Add(db, user, courseId).db;
      assert d1.users[user] == u.(wishlist := u.wishlist + [courseId]);
      assert Remove(d1, user, courseId).db.users == db.users[user := u];
    }
  }

  // ---------------------------------------------------------------------
  // The handlers on the database object

  method AddOn(db: Database, user: Id, courseId: Id) returns (r: Response<()>)
    modifies db
    ensures Outcome(db.State(), r) == Add(old(db.State()), user, courseId)
  {
    if courseId !in db.courses {
      return Error(404);
    }
    if user !in db.users {
      return Error(500);
    }
    var u := db.users[user];
    if courseId in u.wishlist {
      return Error(400);
    }
    db.users := db.users[user := u.(wishlist := AddToSet(u.wishlist, courseId))];
    r := Success(200, ());
  }

  method RemoveOn(db: Database, user: Id, courseId: Id) returns (r: Response<()>)
    modifies db
    ensures Outcome(db.State(), r) == Remove(old(db.State()), user, courseId)
  {
    if user in db.users {
      var u := db.users[user];
      db.users := db.users[user := u.(wishlist := RemoveAll(u.wishlist, courseId))];
    }
    r := Success(200, ());
  }
}
