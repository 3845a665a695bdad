// The course discussion routes (server/routes/discussions.js): reading a
// course's discussions, opening a discussion and replying to one, each
// open only to the course's instructor and its enrolled students.
module DiscussionRoutes {
  import opened Common
  import opened Documents

  // ---------------------------------------------------------------------
  // The access rule

  /** The access test as written: it reads `student.user` of every
      enrolment, but an enrolment stores the student under `student`, so
      `user` is undefined and calling toString on it throws; the handler's
      catch answers 500.  Only a course nobody is enrolled in gets past the
      test, and then only its instructor. */
  function AccessAsWritten(c: Course, caller: Id): (r: Response<()>)
    ensures |c.enrolledStudents| > 0 ==> r == Error(500)
  {
    if |c.enrolledStudents| > 0 then Error(500)
    else if c.instructor == caller then Success(200, ())
    else Error(403)
  }

  /** The rule the handlers mean: the instructor or an enrolled student. */
  function Access(c: Course, caller: Id): (r: Response<()>)
    ensures r.Success? <==> c.instructor == caller || IsEnrolled(c, caller)
    ensures r.Error? ==> r.status == 403
  {
    if c.instructor == caller || IsEnrolled(c, caller) then Success(200, ()) else Error(403)
  }

  /** An enrolled student is refused with 500 by the test as written and
      let in by the intended rule; so is the instructor of any course with
      a student. */
  lemma AccessAsWrittenLocksOutEveryone(c: Course, caller: Id)
    requires IsEnrolled(c, caller) || (c.instructor == caller && |c.enrolledStudents| > 0)
    ensures AccessAsWritten(c, caller) == Error(500)
    ensures Access(c, caller).Success?
  {
  }

  /** Where nobody is enrolled the two tests agree. */
  lemma AccessAgreesWithoutEnrolments(c: Course, caller: Id)
    requires c.enrolledStudents == []
    ensures AccessAsWritten(c, caller) == Access(c, caller)
  {
  }

  // ---------------------------------------------------------------------
  // GET /:courseId/discussions

  /** An unknown course 404; a caller without access 403; otherwise the
      course's discussions. */
  function Discussions(db: Db, caller: Id, courseId: Id): (r: Response<seq<Discussion>>)
    ensures r.Success? <==> courseId in db.courses && Access(db.courses[courseId], caller).Success?
    ensures r.Success? ==> r.body == db.courses[courseId].discussions
    ensures courseId !in db.courses ==> r == Error(404)
  {
    if courseId !in db.courses then Error(404)
    else
      var c := db.courses[courseId];
      match Access(c, caller)
      case Error(status) => Error(status)
      case Success(_, _) => Success(200, c.discussions)
  }

  // ---------------------------------------------------------------------
  // POST /:courseId/discussions

  /** The new discussion: pinned only when the instructor asks for it,
      category 'general' unless one is given, unresolved, without likes or
      replies, created and updated now. */
  function NewDiscussion(c: Course, caller: Id, id: Id, title: string, content: string,
                         category: string, pin: bool, now: Time): (d: Discussion)
    ensures d.isPinned <==> c.instructor == caller && pin
    ensures d.category == (if category == "" then "general" else category)
    ensures !d.isResolved && d.likes == [] && d.replies == []
    ensures d.author == caller && d.createdAt == now && d.updatedAt == now
  {
    Discussion(id, title, content, if category == "" then "general" else category, caller,
               c.instructor == caller && pin, false, [], [], now, now)
  }

  /** An unknown course 404; a caller without access 403; otherwise the
      discussion is appended to the course's list; 201 with it. */
  function CreateDiscussion(db: Db, caller: Id, courseId: Id, id: Id, title: string, content: string,
                            category: string, pin: bool, now: Time): (o: Outcome<Discussion>)
    ensures o.response.Error? ==> o.db == db
    ensures o.response.Success? <==> courseId in db.courses && Access(db.courses[courseId], caller).Success?
    ensures o.response.Success? ==>
      var c := db.courses[courseId];
      o.response.status == 201 &&
      o.db == db.(courses := db.courses[courseId := c.(discussions := c.discussions + [o.response.body])])
  {
    if courseId !in db.courses then Outcome(db, Error(404))
    else
      var c := db.courses[courseId];
      match Access(c, caller)
      case Error(status) => Outcome(db, Error(status))
      case Success(_, _) =>
        var d := NewDiscussion(c, caller, id, title, content, category, pin, now);
        Outcome(db.(courses := db.courses[courseId := c.(discussions := c.discussions + [d])]), Success(201, d))
  }

  /** Only the instructor can pin: a discussion opened by anyone else is
      never pinned, whatever was asked. */
  lemma OnlyInstructorPins(db: Db, caller: Id, courseId: Id, id: Id, title: string, content: string,
                           category: string, pin: bool, now: Time)
    requires CreateDiscussion(db, caller, courseId, id, title, content, category, pin, now).response.Success?
    ensures var d := CreateDiscussion(db, caller, courseId, id, title, content, category, pin, now).response.body;
      d.isPinned <==> pin && db.courses[courseId].instructor == caller
    ensures var o := CreateDiscussion(db, caller, courseId, id, title, content, category, pin, now);
      |o.db.courses[courseId].discussions| == |db.courses[courseId].discussions| + 1
  {
  }

  /** The handler on the database object: push and save. */
  method CreateDiscussionOn(db: Database, caller: Id, courseId: Id, id: Id, title: string, content: string,
                            category: string, pin: bool, now: Time) returns (r: Response<Discussion>)
    modifies db
    ensures Outcome(db.State(), r) == CreateDiscussion(old(db.State()), caller, courseId, id, title, content, category, pin, now)
  {
    if courseId !in db.courses {
      return Error(404);
    }
    var c := db.courses[courseId];
    var access := Access(c, caller);
    if access.Error? {
      return Error(access.status);
    }
    var d := NewDiscussion(c, caller, id, title, content, category, pin, now);
    var discussions := c.discussions;
    discussions := discussions + [d];
    db.courses := db.courses[courseId := c.(discussions := discussions)];
    r := Success(201, d);
  }

  // ---------------------------------------------------------------------
  // POST /:courseId/discussions/:discussionId/replies

  /** `course.discussions.id(discussionId)`. */
  function DiscussionIndex(ds: seq<Discussion>, id: Id): (r: Option<nat>)
    ensures r.Some? ==> r.value < |ds| && ds[r.value].id == id
    ensures r.None? <==> forall j :: 0 <= j < |ds| ==> ds[j].id != id
  {
    FirstIndex(ds, (d: Discussion) => d.id == id)
  }

  /** An unknown course 404; a caller without access 403; an unknown
      discussion 404; otherwise a reply by the caller is appended and the
      discussion's `updatedAt` refreshed; 201 with the reply. */
  function AddReply(db: Db, caller: Id, courseId: Id, discussionId: Id, content: string, now: Time): (o: Outcome<Reply>)
    ensures o.response.Error? ==> o.db == db
  {
    if courseId !in db.courses then Outcome(db, Error(404))
    else
      var c := db.courses[courseId];
      match Access(c, caller)
      case Error(status) => Outcome(db, Error(status))
      case Success(_, _) =>
        match DiscussionIndex(c.discussions, discussionId)
        case None => Outcome(db, Error(404))
        case Some(k) =>
          var reply := Reply(content, caller, now, now);
          var d := c.discussions[k];
          var d' := d.(replies := d.replies + [reply], updatedAt := now);
          Outcome(db.(courses := db.courses[courseId := c.(discussions := c.discussions[k := d'])]), Success(201, reply))
  }

  /** A reply fails exactly for an unknown course or discussion or a caller
      without access; a reply appends exactly one reply, by the caller, to
      that discussion, and touches no other discussion or course. */
  lemma ReplyProperties(db: Db, caller: Id, courseId: Id, discussionId: Id, content: string, now: Time)
    ensures var o := AddReply(db, caller, courseId, discussionId, content, now);
      o.response.Success? <==>
        courseId in db.courses && Access(db.courses[courseId], caller).Success? &&
        DiscussionIndex(db.courses[courseId].discussions, discussionId).Some?
    ensures var o := AddReply(db, caller, courseId, discussionId, content, now);
      o.response.Success? ==>
        var c := db.courses[courseId];
        var k := DiscussionIndex(c.discussions, discussionId).value;
        var c' := o.db.courses[courseId];
        o.response.body.author == caller && o.response.body.content == content &&
        o.db == db.(courses := db.courses[courseId := c']) &&
        c' == c.(discussions := c'.discussions) && |c'.discussions| == |c.discussions| &&
        c'.discussions[k].replies == c.discussions[k].replies + [o.response.body] &&
        c'.discussions[k].updatedAt == now &&
        c'.discussions[k] == c.discussions[k].(replies := c'.discussions[k].replies, updatedAt := now) &&
        forall j :: 0 <= j < |c.discussions| && j != k ==> c'.discussions[j] == c.discussions[j]
  {
  }

  /** The handler on the database object: find, push, stamp and save. */
  method AddReplyOn(db: Database, caller: Id, courseId: Id, discussionId: Id, content: string, now: Time)
    returns (r: Response<Reply>)
    modifies db
    ensures Outcome(db.State(), r) == AddReply(old(db.State()), caller, courseId, discussionId, content, now)
  {
    if courseId !in db.courses {
      return Error(404);
    }
    var c := db.courses[courseId];
    var access := Access(c, caller);
    if access.Error? {
      return Error(access.status);
    }
    var k := DiscussionIndex(c.discussions, discussionId);
    if k.None? {
      return Error(404);
    }
    var reply := Reply(content, caller, now, now);
    var d := c.discussions[k.value];
    d := d.(replies := d.replies + [reply]);
    d := d.(updatedAt := now);
    db.courses := db.courses[courseId := c.(discussions := c.discussions[k.value := d])];
    r := Success(201, reply);
  }
}
