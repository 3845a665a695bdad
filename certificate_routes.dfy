// The certificate routes (server/routes/certificates.js): issuing the
// certificate of a completed course, the learner's certificate list with
// its totals, the download counter, public verification and the preview.
// The PDF drawing and the file system are not part of this model; whether
// the PDF file already exists is a parameter of the download.
module CertificateRoutes {
  import opened Common
  import opened ProgressModel
  import opened CertificateModel
  import opened Documents
  import opened EnrollmentRoutes

  // ---------------------------------------------------------------------
  // POST /generate

  /** `score || (mean of the recorded quiz scores, or 100)`: a supplied
      score counts only when it is truthy, so 0 falls back too. */
  function FinalScore(score: Option<int>, cs: seq<Completion>): (r: int)
    ensures score.Some? && score.value != 0 ==> r == score.value
    ensures (score.None? || score.value == 0) && EntriesInRange(cs) ==> 0 <= r <= 100
    ensures (score.None? || score.value == 0) && QuizScores(cs) == [] ==> r == 100
  {
    if score.Some? && score.value != 0 then score.value
    else
      CompletionScoreWithin2(cs);
      CompletionScore(cs)
  }

  lemma CompletionScoreWithin2(cs: seq<Completion>)
    ensures EntriesInRange(cs) ==> 0 <= CompletionScore(cs) <= 100
  {
    if EntriesInRange(cs) {
      CompletionScoreWithin(cs);
    }
  }

  /** `Progress.findOne({user, course, isCompleted: true})`. */
  function CompletedRecord(records: seq<ProgressState>, user: Id, course: Id): (r: Option<nat>)
    ensures r.Some? ==> r.value < |records|
    ensures r.Some? ==> records[r.value].user == user && records[r.value].course == course && records[r.value].isCompleted
    ensures r.None? <==> forall p :: p in records ==> !(p.user == user && p.course == course && p.isCompleted)
  {
    var r := FirstIndex(records, (p: ProgressState) => p.user == user && p.course == course && p.isCompleted);
    assert r.None? ==> forall j :: 0 <= j < |records| ==> !(records[j].user == user && records[j].course == course && records[j].isCompleted);
    r
  }

  /** `/uploads/certificates/certificate-${certificateId}.pdf`. */
  function CertificateUrl(certificateId: string): string
  {
    "/uploads/certificates/certificate-" + certificateId + ".pdf"
  }

  /** The certificate the route creates, before the save hook. */
  function IssuedCertificate(user: Id, courseId: Id, course: Course, record: ProgressState, score: Option<int>,
                             now: Time, seed: CertSeed): (c: Certificate)
    ensures c.user == user && c.course == courseId && c.score == Some(FinalScore(score, record.completedLessons))
    ensures c.grade == GradeFor(FinalScore(score, record.completedLessons))
    ensures c.creditsEarned == CreditsFor(course.estimatedDuration)
  {
    var finalScore := FinalScore(score, record.completedLessons);
    NewCertificate(seed.id, user, courseId, Some(finalScore), GradeFor(finalScore), course.tags,
                   CreditsFor(course.estimatedDuration),
                   if record.completedAt.Some? then record.completedAt.value else now)
  }

  /** The user's `$inc: {certificatesEarned: 1}`; an unknown user is not updated. */
  function CountCertificate(users: map<Id, User>, user: Id): map<Id, User>
  {
    if user in users then users[user := users[user].(certificatesEarned := users[user].certificatesEarned + 1)]
    else users
  }

  /** POST /generate: refusals in the order 400 (no course id), 404 (no
      course), 400 (course not completed); an existing certificate is
      returned with 200; otherwise a certificate is created (a validation
      failure is a 500), given its URL, and the user's counter goes up. */
  function Generate(db: Db, user: Id, courseId: Option<Id>, score: Option<int>, now: Time, seed: CertSeed)
    : Outcome<Certificate>
  {
    if courseId.None? then Outcome(db, Error(400))
    else if courseId.value !in db.courses then Outcome(db, Error(404))
    else
      var course := db.courses[courseId.value];
      match CompletedRecord(db.progress, user, courseId.value)
      case None => Outcome(db, Error(400))
      case Some(i) =>
        match CertificateOf(db.certificates, user, courseId.value)
        case Some(existing) => Outcome(db, Success(200, existing))
        case None =>
          var created := IssuedCertificate(user, courseId.value, course, db.progress[i], score, now, seed);
          match Save(created, seed.year, seed.randomId, seed.randomCode)
          case None => Outcome(db, Error(500))
          case Some(saved) =>
            var c := saved.(certificateUrl := Some(CertificateUrl(saved.certificateId.value)));
            Outcome(db.(certificates := db.certificates + [c], users := CountCertificate(db.users, user)),
                    Success(201, c))
  }

  /** The route on the database object: the certificate document is
      created, its save hook generates the ids, validation runs, the URL is
      set, and the user's counter is incremented. */
  method GenerateOn(db: Database, user: Id, courseId: Option<Id>, score: Option<int>, now: Time, seed: CertSeed)
    returns (r: Response<Certificate>)
    modifies db
    ensures Outcome(db.State(), r) == Generate(old(db.State()), user, courseId, score, now, seed)
  {
    if courseId.None? {
      return Error(400);
    }
    if courseId.value !in db.courses {
      return Error(404);
    }
    var course := db.courses[courseId.value];
    var found := CompletedRecord(db.progress, user, courseId.value);
    if found.None? {
      return Error(400);
    }
    var existing := CertificateOf(db.certificates, user, courseId.value);
    if existing.Some? {
      return Success(200, existing.value);
    }
    var doc := new CertificateDoc(IssuedCertificate(user, courseId.value, course, db.progress[found.value], score,
                                                    now, seed));
    doc.GenerateIds(seed.year, seed.randomId, seed.randomCode);
    if !SchemaValid(doc.State()) {
      return Error(500);
    }
    doc.certificateUrl := Some(CertificateUrl(doc.certificateId.value));
    db.certificates := db.certificates + [doc.State()];
    db.users := CountCertificate(db.users, user);
    r := Success(201, doc.State());
  }

  /** Every refusal leaves the database as it was, and each status has its
      cause. */
  lemma GenerateRefusals(db: Db, user: Id, courseId: Option<Id>, score: Option<int>, now: Time, seed: CertSeed)
    ensures var o := Generate(db, user, courseId, score, now, seed);
      o.response.Error? || o.response.status == 200 ==> o.db == db
    ensures var o := Generate(db, user, courseId, score, now, seed);
      (o.response == Error(400) <==>
        courseId.None? ||
        (courseId.value in db.courses && CompletedRecord(db.progress, user, courseId.value).None?))
    ensures var o := Generate(db, user, courseId, score, now, seed);
      o.response == Error(404) <==> courseId.Some? && courseId.value !in db.courses
    ensures var o := Generate(db, user, courseId, score, now, seed);
      o.response.Success? && o.response.status == 200 <==>
        courseId.Some? && courseId.value in db.courses &&
        CompletedRecord(db.progress, user, courseId.value).Some? &&
        CertificateOf(db.certificates, user, courseId.value).Some?
  {
  }

  /** What a 201 writes: the one new certificate, for this user and this
      existing course, and the user's counter. */
  lemma GenerateWrites(db: Db, user: Id, courseId: Option<Id>, score: Option<int>, now: Time, seed: CertSeed)
    requires Generate(db, user, courseId, score, now, seed).response.Success?
    requires Generate(db, user, courseId, score, now, seed).response.status == 201
    ensures courseId.Some? && courseId.value in db.courses
    ensures CompletedRecord(db.progress, user, courseId.value).Some?
    ensures CertificateOf(db.certificates, user, courseId.value).None?
    ensures var o := Generate(db, user, courseId, score, now, seed);
      var c := o.response.body;
      c.user == user && c.course == courseId.value &&
      o.db == db.(certificates := db.certificates + [c], users := CountCertificate(db.users, user))
  {
    var k := CompletedRecord(db.progress, user, courseId.value).value;
    var created := IssuedCertificate(user, courseId.value, db.courses[courseId.value], db.progress[k], score, now, seed);
    var saved := Save(created, seed.year, seed.randomId, seed.randomCode).value;
    assert saved.user == user && saved.course == courseId.value;
  }

  /** A new certificate is issued only for a completed course the user has
      no certificate for; it carries the final score and the grade the
      ladder gives it, both ids, the credits of the course, no downloads. */
  lemma GenerateIssues(db: Db, user: Id, courseId: Option<Id>, score: Option<int>, now: Time, seed: CertSeed)
    requires seed.randomCode != ""
    requires Generate(db, user, courseId, score, now, seed).response.Success?
    requires Generate(db, user, courseId, score, now, seed).response.status == 201
    ensures courseId.Some? && courseId.value in db.courses
    ensures var c := Generate(db, user, courseId, score, now, seed).response.body;
      var k := CompletedRecord(db.progress, user, courseId.value).value;
      c.score == Some(FinalScore(score, db.progress[k].completedLessons)) &&
      c.grade == GradeFor(c.score.value) && 0 <= c.score.value <= 100
    ensures var c := Generate(db, user, courseId, score, now, seed).response.body;
      Present(c.certificateId) && Present(c.verificationCode) &&
      c.creditsEarned == CreditsFor(db.courses[courseId.value].estimatedDuration) &&
      c.downloadCount == 0 && c.isValid
  {
    GenerateWrites(db, user, courseId, score, now, seed);
    var k := CompletedRecord(db.progress, user, courseId.value).value;
    var created := IssuedCertificate(user, courseId.value, db.courses[courseId.value], db.progress[k], score, now, seed);
    SaveAssignsIds(created, seed.year, seed.randomId, seed.randomCode);
    GeneratedIdsProperties(created, seed.year, seed.randomId, seed.randomCode);
    var saved := Save(created, seed.year, seed.randomId, seed.randomCode).value;
    assert Generate(db, user, courseId, score, now, seed).response.body ==
      saved.(certificateUrl := Some(CertificateUrl(saved.certificateId.value)));
  }

  /** A supplied score outside [0, 100] fails the schema's bounds: 500, and
      nothing is written. */
  lemma GenerateRejectsScoreOutOfRange(db: Db, user: Id, courseId: Id, score: int, now: Time, seed: CertSeed)
    requires score < 0 || score > 100
    requires courseId in db.courses && CompletedRecord(db.progress, user, courseId).Some?
    requires CertificateOf(db.certificates, user, courseId).None?
    ensures Generate(db, user, Some(courseId), Some(score), now, seed) == Outcome(db, Error(500))
  {
  }

  /** Issuing is idempotent: asking again returns the same certificate with
      200 and writes nothing. */
  lemma GenerateTwice(db: Db, user: Id, courseId: Option<Id>, score: Option<int>, now: Time, seed: CertSeed,
                      score2: Option<int>, now2: Time, seed2: CertSeed)
    requires Generate(db, user, courseId, score, now, seed).response.Success?
    ensures var o := Generate(db, user, courseId, score, now, seed);
      var o2 := Generate(o.db, user, courseId, score2, now2, seed2);
      o2 == Outcome(o.db, Success(200, o.response.body))
  {
    var o := Generate(db, user, courseId, score, now, seed);
    if o.response.status == 201 {
      GenerateWrites(db, user, courseId, score, now, seed);
      var c := o.response.body;
      assert o.db.certificates[|db.certificates|] == c;
    }
  }

  // ---------------------------------------------------------------------
  // GET /my-certificates

  function CompletionDate(c: Certificate): int
  {
    c.completionDate
  }

  function Credits(c: Certificate): int
  {
    c.creditsEarned
  }

  datatype CertificateEntry = CertificateEntry(certificate: Certificate, courseTitle: string, category: string,
                                               duration: Option<real>)

  datatype CertificatesSummary = CertificatesSummary(certificates: seq<CertificateEntry>, totalCertificates: nat,
                                                     totalCredits: int)

  /** The user's certificates, latest completion first. */
  function UserCertificates(db: Db, user: Id): (r: seq<Certificate>)
    ensures forall c :: c in r <==> c in db.certificates && c.user == user
    ensures SortedDesc(r, CompletionDate)
    ensures SumOf(r, Credits) == SumOf(Filter(db.certificates, (c: Certificate) => c.user == user), Credits)
    ensures |r| == |Filter(db.certificates, (c: Certificate) => c.user == user)|
  {
    var mine := Filter(db.certificates, (c: Certificate) => c.user == user);
    SortDescSorted(mine, CompletionDate);
    SumOfSortDesc(mine, CompletionDate, Credits);
    SortDesc(mine, CompletionDate)
  }

  function CertificateEntries(db: Db, certs: seq<Certificate>): (r: seq<CertificateEntry>)
    requires forall c :: c in certs ==> c.course in db.courses
    ensures |r| == |certs|
    ensures forall j :: 0 <= j < |r| ==> r[j].certificate == certs[j]
  {
    seq(|certs|, j requires 0 <= j < |certs| =>
      var course := db.courses[certs[j].course];
      CertificateEntry(certs[j], course.title, course.category, course.estimatedDuration))
  }

  /** GET /my-certificates: one entry per certificate of the user with its
      course's title (a deleted course makes `cert.course.title` throw: 500),
      their number and the sum of their credits. */
  function MyCertificates(db: Db, user: Id): (r: Response<CertificatesSummary>)
    ensures r.Error? <==> exists c :: c in db.certificates && c.user == user && c.course !in db.courses
    ensures r.Success? ==> r.body.totalCertificates == |r.body.certificates|
    ensures r.Success? ==> forall j :: 0 <= j < |r.body.certificates| ==>
      r.body.certificates[j].certificate in db.certificates && r.body.certificates[j].certificate.user == user
  {
    var mine := UserCertificates(db, user);
    if exists c :: c in mine && c.course !in db.courses then Error(500)
    else
      var entries := CertificateEntries(db, mine);
      EntriesAreTheUsers(db, user, mine);
      Success(200, CertificatesSummary(entries, |mine|, SumOf(mine, Credits)))
  }

  lemma EntriesAreTheUsers(db: Db, user: Id, mine: seq<Certificate>)
    requires forall c :: c in mine ==> c.course in db.courses && c in db.certificates && c.user == user
    ensures forall j :: 0 <= j < |CertificateEntries(db, mine)| ==>
      CertificateEntries(db, mine)[j].certificate in db.certificates &&
      CertificateEntries(db, mine)[j].certificate.user == user
  {
    forall j | 0 <= j < |CertificateEntries(db, mine)|
      ensures CertificateEntries(db, mine)[j].certificate in db.certificates &&
        CertificateEntries(db, mine)[j].certificate.user == user
    {
      assert mine[j] in mine;
    }
  }

  /** One more certificate of the user adds one to their count and its
      credits to their sum. */
  lemma UserCertificatesAppend(db: Db, user: Id, c: Certificate)
    requires c.user == user
    ensures var after := UserCertificates(db.(certificates := db.certificates + [c]), user);
      |after| == |UserCertificates(db, user)| + 1 &&
      SumOf(after, Credits) == SumOf(UserCertificates(db, user), Credits) + c.creditsEarned
  {
    var p := (x: Certificate) => x.user == user;
    FilterAppend(db.certificates, [c], p);
    assert Filter([c], p) == [c] by {
      assert [c][1..] == [];
    }
    SumOfAppend(Filter(db.certificates, p), [c], Credits);
    assert SumOf([c], Credits) == c.creditsEarned by {
      assert [c][1..] == [];
    }
  }

  /** Issuing a certificate adds one to the learner's total and its credits
      to their credit total. */
  lemma GenerateAddsToMyCertificates(db: Db, user: Id, courseId: Option<Id>, score: Option<int>, now: Time,
                                     seed: CertSeed)
    requires Generate(db, user, courseId, score, now, seed).response.Success?
    requires Generate(db, user, courseId, score, now, seed).response.status == 201
    requires MyCertificates(db, user).Success?
    ensures var o := Generate(db, user, courseId, score, now, seed);
      var after := MyCertificates(o.db, user);
      after.Success? &&
      after.body.totalCertificates == MyCertificates(db, user).body.totalCertificates + 1 &&
      after.body.totalCredits == MyCertificates(db, user).body.totalCredits + o.response.body.creditsEarned
  {
    GenerateWrites(db, user, courseId, score, now, seed);
    var o := Generate(db, user, courseId, score, now, seed);
    var c := o.response.body;
    UserCertificatesAppend(db, user, c);
    assert o.db.certificates == db.certificates + [c];
    assert o.db.courses == db.courses;
    assert MyCertificates(o.db, user).Success?;
    MyCertificatesTotals(db, user);
    MyCertificatesTotals(o.db, user);
  }

  /** The totals of a listing are the count and the credit sum of the
      user's certificates. */
  lemma MyCertificatesTotals(db: Db, user: Id)
    requires MyCertificates(db, user).Success?
    ensures MyCertificates(db, user).body.totalCertificates == |UserCertificates(db, user)|
    ensures MyCertificates(db, user).body.totalCredits == SumOf(UserCertificates(db, user), Credits)
  {
  }

  // ---------------------------------------------------------------------
  // GET /download/:certificateId and GET /preview/:certificateId

  /** `Certificate.findOne({certificateId, user})`. */
  function OwnedCertificate(certs: seq<Certificate>, certificateId: string, user: Id): (r: Option<nat>)
    ensures r.Some? ==> r.value < |certs|
    ensures r.Some? ==> certs[r.value].certificateId == Some(certificateId) && certs[r.value].user == user
    ensures r.None? <==> forall j :: 0 <= j < |certs| ==>
      !(certs[j].certificateId == Some(certificateId) && certs[j].user == user)
  {
    FirstIndex(certs, (c: Certificate) => c.certificateId == Some(certificateId) && c.user == user)
  }

  /** GET /download: 404 for a certificate the user does not own; a missing
      PDF is redrawn first, which throws (500) when the course is gone;
      otherwise the download counter goes up and the file is sent, named
      after the course title (a deleted course throws there: 500, after the
      counter was saved). */
  function Download(db: Db, user: Id, certificateId: string, fileExists: bool, now: Time): Outcome<string>
  {
    match OwnedCertificate(db.certificates, certificateId, user)
    case None => Outcome(db, Error(404))
    case Some(i) =>
      var c := db.certificates[i];
      if !fileExists && c.course !in db.courses then Outcome(db, Error(500))
      else
        var db1 := db.(certificates := db.certificates[i := c.(downloadCount := c.downloadCount + 1,
                                                              lastDownloaded := Some(now))]);
        if c.course !in db.courses then Outcome(db1, Error(500))
        else Outcome(db1, Success(200, db.courses[c.course].title + " - Certificate.pdf"))
  }

  /** A download changes only the downloaded certificate: one more
      download, stamped now. */
  lemma DownloadCountsOne(db: Db, user: Id, certificateId: string, fileExists: bool, now: Time)
    ensures var o := Download(db, user, certificateId, fileExists, now);
      o.response.Success? ==>
        |o.db.certificates| == |db.certificates| &&
        exists i :: 0 <= i < |db.certificates| && db.certificates[i].user == user &&
          db.certificates[i].certificateId == Some(certificateId) &&
          o.db.certificates[i].downloadCount == db.certificates[i].downloadCount + 1 &&
          o.db.certificates[i].lastDownloaded == Some(now) &&
          (forall j :: 0 <= j < |db.certificates| && j != i ==> o.db.certificates[j] == db.certificates[j]) &&
          o.db == db.(certificates := o.db.certificates)
    ensures Download(db, user, certificateId, fileExists, now).response == Error(404) <==>
      OwnedCertificate(db.certificates, certificateId, user).None?
  {
    var o := Download(db, user, certificateId, fileExists, now);
    if o.response.Success? {
      var i := OwnedCertificate(db.certificates, certificateId, user).value;
      assert o.db.certificates[i].downloadCount == db.certificates[i].downloadCount + 1;
    }
  }

  /** The route on the database object, with the counter kept by the
      certificate document's own markAsDownloaded. */
  method DownloadOn(db: Database, user: Id, certificateId: string, fileExists: bool, now: Time)
    returns (r: Response<string>)
    modifies db
    ensures Outcome(db.State(), r) == Download(old(db.State()), user, certificateId, fileExists, now)
  {
    var found := OwnedCertificate(db.certificates, certificateId, user);
    if found.None? {
      return Error(404);
    }
    var i := found.value;
    var course := db.certificates[i].course;
    if !fileExists && course !in db.courses {
      return Error(500);
    }
    var doc := new CertificateDoc(db.certificates[i]);
    doc.MarkAsDownloaded(now);
    db.certificates := db.certificates[i := doc.State()];
    if course !in db.courses {
      return Error(500);
    }
    r := Success(200, db.courses[course].title + " - Certificate.pdf");
  }

  datatype PreviewView = PreviewView(certificate: Certificate, studentName: string, courseTitle: string,
                                     instructorName: string, category: string)

  /** GET /preview: 404 unless the user owns the certificate; the course's
      title is read (500 once the course is gone); a missing instructor is
      shown as 'EduCharity'. */
  function Preview(db: Db, user: Id, studentName: string, certificateId: string): (r: Response<PreviewView>)
    ensures r.Error? ==> r.status == 404 || r.status == 500
    ensures r.Success? ==> r.body.certificate in db.certificates
    ensures r.Success? ==> r.body.certificate.user == user && r.body.certificate.certificateId == Some(certificateId)
  {
    match OwnedCertificate(db.certificates, certificateId, user)
    case None => Error(404)
    case Some(i) =>
      var c := db.certificates[i];
      if c.course !in db.courses then Error(500)
      else
        var course := db.courses[c.course];
        var instructor := if course.instructor in db.users then db.users[course.instructor].name else "EduCharity";
        Success(200, PreviewView(c, studentName, course.title, instructor, course.category))
  }

  // ---------------------------------------------------------------------
  // GET /verify/:certificateId/:verificationCode

  datatype Verification = Verification(certificate: Certificate, studentName: string, studentEmail: string,
                                       courseTitle: string)

  /** GET /verify: 404 unless a valid certificate matches both the id and
      the code; the student's name and the course's title are read (500
      once either is gone). */
  function VerifyRoute(db: Db, certificateId: string, verificationCode: string): (r: Response<Verification>)
    ensures r == Error(404) <==> forall c :: c in db.certificates ==> !Verifies(c, certificateId, verificationCode)
    ensures r.Success? ==> r.body.certificate in db.certificates
    ensures r.Success? ==> Verifies(r.body.certificate, certificateId, verificationCode)
  {
    match VerifyCertificate(db.certificates, certificateId, verificationCode)
    case None => Error(404)
    case Some(c) =>
      if c.user !in db.users || c.course !in db.courses then Error(500)
      else Success(200, Verification(c, db.users[c.user].name, db.users[c.user].email, db.courses[c.course].title))
  }

  /** An issued certificate verifies with its own id and code. */
  lemma IssuedCertificateVerifies(db: Db, user: Id, courseId: Option<Id>, score: Option<int>, now: Time,
                                  seed: CertSeed)
    requires seed.randomCode != ""
    requires user in db.users
    requires forall c :: c in db.certificates ==> c.user in db.users && c.course in db.courses
    requires Generate(db, user, courseId, score, now, seed).response.Success?
    requires Generate(db, user, courseId, score, now, seed).response.status == 201
    ensures var o := Generate(db, user, courseId, score, now, seed);
      var c := o.response.body;
      VerifyRoute(o.db, c.certificateId.value, c.verificationCode.value).Success?
  {
    GenerateIssues(db, user, courseId, score, now, seed);
    var o := Generate(db, user, courseId, score, now, seed);
    var c := o.response.body;
    assert c in o.db.certificates by {
      assert o.db.certificates[|db.certificates|] == c;
    }
    var v := VerifyCertificate(o.db.certificates, c.certificateId.value, c.verificationCode.value).value;
    assert v.user in o.db.users && v.course in o.db.courses by {
      assert v == c || v in db.certificates;
    }
  }
}
