// The comment routes (server/routes/comments.js): the listing of a
// course's or a lesson's top-level comments, the listing of a comment's
// replies, creating a comment or a reply, editing, soft deletion and the
// like toggle.  The comments collection is `db.comments`, in insertion
// order; a like is the id of the user who gave it.
module CommentRoutes {
  import opened Common
  import opened Documents

  /** `Comment.findById(id)`. */
  function CommentIndex(cs: seq<Comment>, id: Id): (r: Option<nat>)
    ensures r.Some? ==> r.value < |cs| && cs[r.value].id == id
    ensures r.None? <==> forall j :: 0 <= j < |cs| ==> cs[j].id != id
  {
    FirstIndex(cs, (c: Comment) => c.id == id)
  }

  // ---------------------------------------------------------------------
  // GET /:courseId/:lessonId?

  /** The listing query: a comment of the course that is neither deleted
      nor a reply; with a lesson id only that lesson's comments, without
      one only those whose lesson is absent or null. */
  predicate TopLevel(c: Comment, course: Id, lesson: Option<Id>)
  {
    c.course == course && !c.isDeleted && c.parentComment.None? &&
    (if lesson.Some? then c.lesson == lesson else c.lesson.None?)
  }

  function TopLevelOf(cs: seq<Comment>, course: Id, lesson: Option<Id>): (r: seq<Comment>)
    ensures |r| <= |cs|
    ensures forall c :: c in r <==> c in cs && TopLevel(c, course, lesson)
  {
    Filter(cs, (c: Comment) => TopLevel(c, course, lesson))
  }

  function CreatedAt(c: Comment): int { c.createdAt }

  function CreatedAtReversed(c: Comment): int { -c.createdAt }

  /** `.sort({createdAt: order === 'desc' ? -1 : 1})`. */
  function ByCreation(cs: seq<Comment>, descending: bool): (r: seq<Comment>)
    ensures multiset(r) == multiset(cs)
    ensures forall c :: c in r <==> c in cs
    ensures descending ==> SortedDesc(r, CreatedAt)
    ensures !descending ==> SortedDesc(r, CreatedAtReversed)
  {
    SortDescSorted(cs, CreatedAt);
    SortDescSorted(cs, CreatedAtReversed);
    if descending then SortDesc(cs, CreatedAt) else SortDesc(cs, CreatedAtReversed)
  }

  /** The page of comments with `pagination: {current, pages, total}`;
      `pages` is None where Math.ceil gives a non-number (a zero limit). */
  datatype CommentPage = CommentPage(comments: seq<Comment>, current: int, pages: Option<int>, total: nat)

  /** The listing: the matching comments ordered by creation time, the
      requested page of them, and the page count over all matches.  A
      negative skip is refused by the database (500). */
  function ListComments(db: Db, course: Id, lesson: Option<Id>, order: string, page: int, limit: int): (r: Response<CommentPage>)
    ensures r.Error? <==> (page - 1) * limit < 0
    ensures r.Success? ==> r.status == 200
    ensures r.Success? ==> r.body.total == |TopLevelOf(db.comments, course, lesson)| && r.body.current == page
    ensures r.Success? ==> forall c :: c in r.body.comments ==> c in db.comments && TopLevel(c, course, lesson)
    ensures r.Success? && limit > 0 ==>
      |r.body.comments| <= limit && r.body.pages.Some? && limit * (r.body.pages.value - 1) < r.body.total <= limit * r.body.pages.value
  {
    PageOf(TopLevelOf(db.comments, course, lesson), order == "desc", page, limit)
  }

  /** The requested page of `matching` in creation order, and the page
      count over all of `matching`. */
  function PageOf(matching: seq<Comment>, descending: bool, page: int, limit: int): (r: Response<CommentPage>)
    ensures r.Error? <==> (page - 1) * limit < 0
    ensures r.Success? ==> r.status == 200 && r.body.total == |matching| && r.body.current == page
    ensures r.Success? ==> r.body.pages == PageCount(|matching|, limit)
    ensures r.Success? ==> forall c :: c in r.body.comments ==> c in matching
    ensures r.Success? && limit > 0 ==> |r.body.comments| <= limit
    ensures r.Success? ==> r.body.comments == Paginate(ByCreation(matching, descending), page, limit).body
  {
    match Paginate(ByCreation(matching, descending), page, limit)
    case Error(status) => Error(status)
    case Success(_, items) => Success(200, CommentPage(items, page, PageCount(|matching|, limit), |matching|))
  }

  /** A page of the listing is in creation order, newest first unless
      `order` asks otherwise. */
  lemma ListingOrdered(db: Db, course: Id, lesson: Option<Id>, order: string, page: int, limit: int)
    requires ListComments(db, course, lesson, order, page, limit).Success?
    ensures var cs := ListComments(db, course, lesson, order, page, limit).body.comments;
      (order == "desc" ==> SortedDesc(cs, CreatedAt)) && (order != "desc" ==> SortedDesc(cs, CreatedAtReversed))
  {
    var sorted := ByCreation(TopLevelOf(db.comments, course, lesson), order == "desc");
    assert PageOf(TopLevelOf(db.comments, course, lesson), order == "desc", page, limit).Success?;
    if order == "desc" {
      PaginateSorted(sorted, page, limit, CreatedAt);
    } else {
      PaginateSorted(sorted, page, limit, CreatedAtReversed);
    }
  }

  // ---------------------------------------------------------------------
  // GET /:id/replies

  /** The query: the comment's replies that are not deleted. */
  predicate LiveReplyOf(c: Comment, parent: Id)
  {
    c.parentComment == Some(parent) && !c.isDeleted
  }

  function LiveRepliesOf(cs: seq<Comment>, parent: Id): (r: seq<Comment>)
    ensures forall c :: c in r <==> c in cs && LiveReplyOf(c, parent)
  {
    Filter(cs, (c: Comment) => LiveReplyOf(c, parent))
  }

  /** The replies, oldest first, paged the same way as the listing. */
  function ListReplies(db: Db, parent: Id, page: int, limit: int): (r: Response<CommentPage>)
    ensures r.Error? <==> (page - 1) * limit < 0
    ensures r.Success? ==> r.body.total == |LiveRepliesOf(db.comments, parent)|
    ensures r.Success? ==> forall c :: c in r.body.comments ==> c in db.comments && LiveReplyOf(c, parent)
    ensures r.Success? ==> SortedDesc(r.body.comments, CreatedAtReversed)
  {
    var matching := LiveRepliesOf(db.comments, parent);
    var r := PageOf(matching, false, page, limit);
    if r.Success? then
      PaginateSorted(ByCreation(matching, false), page, limit, CreatedAtReversed);
      r
    else r
  }

  // ---------------------------------------------------------------------
  // POST /

  /** A new comment as `Comment.create` stores it. */
  function NewComment(id: Id, author: Id, content: string, course: Id, lesson: Option<Id>,
                      parent: Option<Id>, now: Time): Comment
  {
    Comment(id, content, course, lesson, parent, author, false, false, None, [], [], now)
  }

  /** `$push: {replies: id}` on the parent, when it exists; an unknown
      parent leaves the collection as it is. */
  function WithReply(cs: seq<Comment>, parent: Id, reply: Id): (r: seq<Comment>)
    ensures |r| == |cs|
    ensures forall k :: 0 <= k < |cs| ==> r[k] == (if Some(k) == CommentIndex(cs, parent)
      then cs[k].(replies := cs[k].replies + [reply]) else cs[k])
  {
    match CommentIndex(cs, parent)
    case None => cs
    case Some(k) => cs[k := cs[k].(replies := cs[k].replies + [reply])]
  }

  /** Missing content or course 400; otherwise the comment is stored with
      the caller as author, and a reply's id is pushed onto its parent's
      replies; 201 with the comment. */
  function CreateComment(db: Db, author: Id, content: string, course: Option<Id>, lesson: Option<Id>,
                         parent: Option<Id>, id: Id, now: Time): (o: Outcome<Comment>)
  {
    if content == "" || course.None? then Outcome(db, Error(400))
    else
      var c := NewComment(id, author, content, course.value, lesson, parent, now);
      var cs := db.comments + [c];
      Outcome(db.(comments := if parent.Some? then WithReply(cs, parent.value, id) else cs), Success(201, c))
  }

  /** Creation refuses exactly a missing content or course; it appends one
      comment, authored by the caller, not deleted, edited or liked; a
      reply's id lands in its existing parent's replies and nothing else
      changes. */
  lemma CreateProperties(db: Db, author: Id, content: string, course: Option<Id>, lesson: Option<Id>,
                         parent: Option<Id>, id: Id, now: Time)
    requires parent != Some(id)
    ensures var o := CreateComment(db, author, content, course, lesson, parent, id, now);
      (o.response.Error? <==> content == "" || course.None?) &&
      (o.response.Error? ==> o.response.status == 400 && o.db == db)
    ensures var o := CreateComment(db, author, content, course, lesson, parent, id, now);
      o.response.Success? ==>
        var c := o.response.body;
        o.response.status == 201 && o.db == db.(comments := o.db.comments) &&
        |o.db.comments| == |db.comments| + 1 && o.db.comments[|db.comments|] == c &&
        c.id == id && c.author == author && c.content == content && c.course == course.value &&
        c.lesson == lesson && c.parentComment == parent && !c.isDeleted && !c.isEdited && c.likes == []
    ensures var o := CreateComment(db, author, content, course, lesson, parent, id, now);
      o.response.Success? ==>
        forall k :: 0 <= k < |db.comments| ==>
          o.db.comments[k] == (if parent.Some? && Some(k) == CommentIndex(db.comments, parent.value)
            then db.comments[k].(replies := db.comments[k].replies + [id]) else db.comments[k])
  {
    if content != "" && course.Some? {
      var c := NewComment(id, author, content, course.value, lesson, parent, now);
      var cs := db.comments + [c];
      if parent.Some? {
        var p := parent.value;
        var inCs, inDb := CommentIndex(cs, p), CommentIndex(db.comments, p);
        assert inCs != Some(|db.comments|) by {
          if inDb.Some? {
            assert cs[inDb.value].id == p;
          }
        }
        forall k | 0 <= k < |db.comments|
          ensures Some(k) == inCs <==> Some(k) == inDb
        {
          assert cs[k] == db.comments[k];
          if inDb.Some? {
            assert cs[inDb.value] == db.comments[inDb.value];
          }
        }
      }
    }
  }

  /** A new top-level comment shows up in its course's (or lesson's)
      listing; a reply does not. */
  lemma CreatedIsListedIffTopLevel(db: Db, author: Id, content: string, course: Id, lesson: Option<Id>,
                                   parent: Option<Id>, id: Id, now: Time)
    requires content != ""
    ensures var o := CreateComment(db, author, content, Some(course), lesson, parent, id, now);
      o.response.body in TopLevelOf(o.db.comments, course, lesson) <==> parent.None?
  {
    var o := CreateComment(db, author, content, Some(course), lesson, parent, id, now);
    var c := o.response.body;
    if parent.None? {
      assert o.db.comments[|db.comments|] == c;
    }
  }

  // ---------------------------------------------------------------------
  // PUT /:id

  /** Empty content 400 (before the lookup), an unknown comment 404, a
      caller who is not the author 403; otherwise the content is replaced
      and the comment marked edited at `now`. */
  function EditComment(db: Db, user: Id, id: Id, content: string, now: Time): (o: Outcome<Comment>)
    ensures o.response.Error? ==> o.db == db
    ensures o.response.Error? <==> content == "" || CommentIndex(db.comments, id).None? ||
                                   db.comments[CommentIndex(db.comments, id).value].author != user
    ensures o.response.Success? ==>
      var k := CommentIndex(db.comments, id).value;
      var c := o.response.body;
      c == db.comments[k].(content := content, isEdited := true, editedAt := Some(now)) &&
      c.author == user && content != "" && o.db == db.(comments := db.comments[k := c])
  {
    if content == "" then Outcome(db, Error(400))
    else match CommentIndex(db.comments, id)
      case None => Outcome(db, Error(404))
      case Some(k) =>
        var c := db.comments[k];
        if c.author != user then Outcome(db, Error(403))
        else
          var edited := c.(content := content, isEdited := true, editedAt := Some(now));
          Outcome(db.(comments := db.comments[k := edited]), Success(200, edited))
  }

  // ---------------------------------------------------------------------
  // DELETE /:id

  /** An unknown comment 404; a caller who is neither the author nor an
      admin 403; otherwise the comment is marked deleted and kept. */
  function DeleteComment(db: Db, user: Id, role: string, id: Id): (o: Outcome<()>)
    ensures CommentIndex(db.comments, id).None? ==> o == Outcome(db, Error(404))
    ensures CommentIndex(db.comments, id).Some? ==>
      var k := CommentIndex(db.comments, id).value;
      (db.comments[k].author != user && role != "admin" ==> o == Outcome(db, Error(403))) &&
      (db.comments[k].author == user || role == "admin" ==>
        o.response.Success? && o.db == db.(comments := db.comments[k := db.comments[k].(isDeleted := true)]))
  {
    match CommentIndex(db.comments, id)
    case None => Outcome(db, Error(404))
    case Some(k) =>
      var c := db.comments[k];
      if c.author != user && role != "admin" then Outcome(db, Error(403))
      else Outcome(db.(comments := db.comments[k := c.(isDeleted := true)]), Success(200, ()))
  }

  /** Deletion is soft: the comment stays, with every other field, so the
      collection keeps its size; but it leaves both listings. */
  lemma DeleteIsSoft(db: Db, user: Id, role: string, id: Id, course: Id, lesson: Option<Id>, parent: Id)
    requires DeleteComment(db, user, role, id).response.Success?
    ensures var o := DeleteComment(db, user, role, id);
      var k := CommentIndex(db.comments, id).value;
      |o.db.comments| == |db.comments| &&
      o.db.comments[k] == db.comments[k].(isDeleted := true) &&
      (db.comments[k].author == user || role == "admin") &&
      (forall j :: 0 <= j < |db.comments| && j != k ==> o.db.comments[j] == db.comments[j]) &&
      o.db.comments[k] !in TopLevelOf(o.db.comments, course, lesson) &&
      o.db.comments[k] !in LiveRepliesOf(o.db.comments, parent)
  {
  }

  // ---------------------------------------------------------------------
  // POST /:id/like

  datatype LikeResult = LikeResult(liked: bool, likeCount: nat)

  /** The toggle: a like by the user is removed (all of them), otherwise
      one is added. */
  function Toggled(likes: seq<Id>, user: Id): (r: seq<Id>)
    ensures user in r <==> user !in likes
    ensures forall u :: u != user ==> (u in r <==> u in likes)
  {
    if user in likes then RemoveAll(likes, user) else likes + [user]
  }

  /** Toggling twice from a state without the user's like restores the
      list exactly; from one with it, restores who has liked. */
  lemma {:induction false} ToggleTwice(likes: seq<Id>, user: Id)
    ensures user !in likes ==> Toggled(Toggled(likes, user), user) == likes
    ensures forall u :: u in Toggled(Toggled(likes, user), user) <==> u in likes
  {
    if user !in likes {
      RemoveAllAppended(likes, user);
    }
  }

  /** Toggling keeps a like list free of duplicates. */
  lemma ToggleKeepsDistinct(likes: seq<Id>, user: Id)
    requires NoDuplicates(likes)
    ensures NoDuplicates(Toggled(likes, user))
  {
    if user in likes {
      RemoveAllKeepsDistinct(likes, user);
    }
  }

  /** Unknown comment 404; otherwise the like is toggled and the answer
      says whether the user now likes it and how many likes there are. */
  function ToggleLike(db: Db, user: Id, id: Id): (o: Outcome<LikeResult>)
    ensures o.response.Error? <==> CommentIndex(db.comments, id).None?
    ensures o.response.Error? ==> o.db == db && o.response.status == 404
    ensures o.response.Success? ==>
      var k := CommentIndex(db.comments, id).value;
      |o.db.comments| == |db.comments| &&
      var after := o.db.comments[k];
      o.db == db.(comments := db.comments[k := after]) &&
      after == db.comments[k].(likes := after.likes) &&
      o.response.body.liked == (user !in db.comments[k].likes) &&
      (user in after.likes <==> o.response.body.liked) &&
      (forall u :: u != user ==> (u in after.likes <==> u in db.comments[k].likes)) &&
      o.response.body.likeCount == |after.likes|
  {
    match CommentIndex(db.comments, id)
    case None => Outcome(db, Error(404))
    case Some(k) =>
      var c := db.comments[k];
      var likes := Toggled(c.likes, user);
      Outcome(db.(comments := db.comments[k := c.(likes := likes)]), Success(200, LikeResult(user !in c.likes, |likes|)))
  }

  /** Two toggles by the same user leave the set of users who like the
      comment as it was. */
  lemma ToggleLikeTwice(db: Db, user: Id, id: Id)
    requires CommentIndex(db.comments, id).Some?
    ensures var o2 := ToggleLike(ToggleLike(db, user, id).db, user, id);
      var k := CommentIndex(db.comments, id).value;
      o2.db.comments[k] == db.comments[k].(likes := o2.db.comments[k].likes) &&
      forall u :: u in o2.db.comments[k].likes <==> u in db.comments[k].likes
  {
    var k := CommentIndex(db.comments, id).value;
    var d1 := ToggleLike(db, user, id).db;
    assert CommentIndex(d1.comments, id) == Some(k) by {
      assert forall j :: 0 <= j < |d1.comments| ==> d1.comments[j].id == db.comments[j].id;
    }
    ToggleTwice(db.comments[k].likes, user);
  }

  /** The handler on the database object: filter or push, then save. */
  method ToggleLikeOn(db: Database, user: Id, id: Id) returns (r: Response<LikeResult>)
    modifies db
    ensures Outcome(db.State(), r) == ToggleLike(old(db.State()), user, id)
  {
    var k := CommentIndex(db.comments, id);
    if k.None? {
      return Error(404);
    }
    var c := db.comments[k.value];
    var existing := user in c.likes;
    var likes := c.likes;
    if existing {
      likes := RemoveAll(likes, user);
    } else {
      likes := likes + [user];
    }
    db.comments := db.comments[k.value := c.(likes := likes)];
    r := Success(200, LikeResult(!existing, |likes|));
  }
}
