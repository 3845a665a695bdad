// The Certificate document (server/models/Certificate.js): the grade enum
// and score bounds of the schema, the pre-save hook that fills in the
// certificate id and verification code, the `verifyCertificate` lookup and
// the `markAsDownloaded` counter.  The threshold ladder that turns a score
// into a grade, shared by the issuing routes, lives here with the enum.
module CertificateModel {
  import opened Common

  // ---------------------------------------------------------------------
  // Grades

  /** The schema's grade enum: 'A+', 'A', 'B+', 'B', 'C+', 'C', 'Pass'. */
  datatype Grade = APlus | A | BPlus | B | CPlus | C | Pass

  function GradeName(g: Grade): string
  {
    match g
    case APlus => "A+"
    case A => "A"
    case BPlus => "B+"
    case B => "B"
    case CPlus => "C+"
    case C => "C"
    case Pass => "Pass"
  }

  /** The enum validator: a string is a grade iff it is one of the seven names. */
  function ParseGrade(s: string): (r: Option<Grade>)
    ensures r.Some? ==> GradeName(r.value) == s
  {
    if s == "A+" then Some(APlus)
    else if s == "A" then Some(A)
    else if s == "B+" then Some(BPlus)
    else if s == "B" then Some(B)
    else if s == "C+" then Some(CPlus)
    else if s == "C" then Some(C)
    else if s == "Pass" then Some(Pass)
    else None
  }

  lemma ParseGradeName(g: Grade)
    ensures ParseGrade(GradeName(g)) == Some(g)
  {
  }

  /** Position of a grade on the ladder: Pass 0 up to A+ 6. */
  function GradeRank(g: Grade): nat
  {
    match g
    case Pass => 0
    case C => 1
    case CPlus => 2
    case B => 3
    case BPlus => 4
    case A => 5
    case APlus => 6
  }

  /** The ladder of the issuing routes: >= 95 A+, >= 90 A, >= 85 B+, >= 80 B,
      >= 75 C+, >= 70 C, otherwise Pass. */
  function GradeFor(score: int): Grade
  {
    if score >= 95 then APlus
    else if score >= 90 then A
    else if score >= 85 then BPlus
    else if score >= 80 then B
    else if score >= 75 then CPlus
    else if score >= 70 then C
    else Pass
  }

  /** The thresholds, lowest first. */
  const GradeThresholds: seq<int> := [70, 75, 80, 85, 90, 95]

  /** How many thresholds a score reaches. */
  function ThresholdsReached(score: int, ts: seq<int>): nat
  {
    if ts == [] then 0
    else (if score >= ts[0] then 1 else 0) + ThresholdsReached(score, ts[1..])
  }

  /** The ladder agrees with counting the thresholds reached: a grade's rank
      is the number of thresholds its score clears. */
  lemma GradeRankCountsThresholds(score: int)
    ensures GradeRank(GradeFor(score)) == ThresholdsReached(score, GradeThresholds)
  {
    var b := (x: int) => if score >= x then 1 else 0;
    assert ThresholdsReached(score, [95]) == b(95);
    assert ThresholdsReached(score, [90, 95]) == b(90) + b(95) by {
      assert [90, 95][1..] == [95];
    }
    assert ThresholdsReached(score, [85, 90, 95]) == b(85) + b(90) + b(95) by {
      assert [85, 90, 95][1..] == [90, 95];
    }
    assert ThresholdsReached(score, [80, 85, 90, 95]) == b(80) + b(85) + b(90) + b(95) by {
      assert [80, 85, 90, 95][1..] == [85, 90, 95];
    }
    assert ThresholdsReached(score, [75, 80, 85, 90, 95]) == b(75) + b(80) + b(85) + b(90) + b(95) by {
      assert [75, 80, 85, 90, 95][1..] == [80, 85, 90, 95];
    }
    assert GradeThresholds[1..] == [75, 80, 85, 90, 95];
  }

  /** A higher score never earns a lower grade. */
  lemma GradeMonotone(s1: int, s2: int)
    requires s1 <= s2
    ensures GradeRank(GradeFor(s1)) <= GradeRank(GradeFor(s2))
  {
  }

  // ---------------------------------------------------------------------
  // The document

  datatype Certificate = Certificate(
    id: Id,
    user: Id,
    course: Id,
    certificateId: Option<string>,
    completionDate: Time,
    grade: Grade,
    score: Option<int>,
    certificateUrl: Option<string>,
    verificationCode: Option<string>,
    skills: seq<string>,
    creditsEarned: int,
    isValid: bool,
    downloadCount: int,
    lastDownloaded: Option<Time>)

  /** A string field with `required: true` is missing when absent or empty. */
  predicate Present(s: Option<string>)
  {
    s.Some? && s.value != ""
  }

  /** The schema validators: both ids required, a score (when present) in [0, 100]. */
  predicate SchemaValid(c: Certificate)
  {
    Present(c.certificateId) && Present(c.verificationCode) &&
    (c.score.Some? ==> 0 <= c.score.value <= 100)
  }

  /** `CERT-${year}-${randomId.toUpperCase()}`; `randomId` stands for the
      base-36 digits of Math.random(). */
  function CertificateIdFor(year: nat, randomId: string): (r: string)
    ensures IsPrefix("CERT-", r)
  {
    var r := "CERT-" + NatToString(year) + "-" + ToUpper(randomId);
    assert r[..5] == "CERT-";
    r
  }

  /** The pre-save hook on a value: each id is generated only when absent. */
  function WithGeneratedIds(c: Certificate, year: nat, randomId: string, randomCode: string): Certificate
  {
    c.(certificateId := if Present(c.certificateId) then c.certificateId
                        else Some(CertificateIdFor(year, randomId)),
       verificationCode := if Present(c.verificationCode) then c.verificationCode
                           else Some(ToUpper(randomCode)))
  }

  /** After the hook both ids are present; ids that were present are kept;
      nothing else changes. */
  lemma GeneratedIdsProperties(c: Certificate, year: nat, randomId: string, randomCode: string)
    requires randomCode != ""
    ensures var d := WithGeneratedIds(c, year, randomId, randomCode);
      Present(d.certificateId) && Present(d.verificationCode) &&
      (Present(c.certificateId) ==> d.certificateId == c.certificateId) &&
      (Present(c.verificationCode) ==> d.verificationCode == c.verificationCode) &&
      (!Present(c.certificateId) ==> IsPrefix("CERT-", d.certificateId.value)) &&
      d.(certificateId := c.certificateId, verificationCode := c.verificationCode) == c
  {
  }

  /** Running the hook twice is running it once. */
  lemma GeneratedIdsIdempotent(c: Certificate, year: nat, randomId: string, randomCode: string,
                               year2: nat, randomId2: string, randomCode2: string)
    requires randomCode != ""
    ensures var d := WithGeneratedIds(c, year, randomId, randomCode);
      WithGeneratedIds(d, year2, randomId2, randomCode2) == d
  {
    GeneratedIdsProperties(c, year, randomId, randomCode);
  }

  /** save() as Mongoose runs it on this schema: the built-in validation
      runs before the user's pre('save') hook, so the required ids are
      checked before the hook could generate them.  None is a validation
      error. */
  function SaveAsWritten(c: Certificate, year: nat, randomId: string, randomCode: string): Option<Certificate>
  {
    if !SchemaValid(c) then None else Some(WithGeneratedIds(c, year, randomId, randomCode))
  }

  /** A new certificate created without ids, as every issuing route creates
      one, is rejected by validation. */
  lemma SaveAsWrittenRejectsNewCertificate(c: Certificate, year: nat, randomId: string, randomCode: string)
    requires !Present(c.certificateId) || !Present(c.verificationCode)
    ensures SaveAsWritten(c, year, randomId, randomCode) == None
  {
  }

  /** save() with the id generation run before validation (a pre('validate')
      hook): the evidently intended behaviour, used by the rest of the model. */
  function Save(c: Certificate, year: nat, randomId: string, randomCode: string): Option<Certificate>
  {
    var d := WithGeneratedIds(c, year, randomId, randomCode);
    if SchemaValid(d) then Some(d) else None
  }

  /** With generation first, a certificate saves iff its score is in range,
      and the saved value carries both ids. */
  lemma SaveAssignsIds(c: Certificate, year: nat, randomId: string, randomCode: string)
    requires randomCode != ""
    ensures Save(c, year, randomId, randomCode).Some? <==> (c.score.Some? ==> 0 <= c.score.value <= 100)
    ensures Save(c, year, randomId, randomCode).Some? ==>
      Save(c, year, randomId, randomCode).value == WithGeneratedIds(c, year, randomId, randomCode) &&
      SchemaValid(Save(c, year, randomId, randomCode).value)
  {
    GeneratedIdsProperties(c, year, randomId, randomCode);
  }

  /** `Math.ceil(course.estimatedDuration || 1)`: a missing or zero duration
      earns one credit. */
  function CreditsFor(estimatedDuration: Option<real>): (r: int)
    ensures estimatedDuration.None? || estimatedDuration == Some(0.0) ==> r == 1
    ensures estimatedDuration.Some? && estimatedDuration.value != 0.0 ==>
      r as real - 1.0 < estimatedDuration.value <= r as real
  {
    if estimatedDuration.None? || estimatedDuration.value == 0.0 then 1
    else Ceil(estimatedDuration.value)
  }

  /** The defaults of `Certificate.create` for the fields a route does not pass. */
  function NewCertificate(id: Id, user: Id, course: Id, score: Option<int>, grade: Grade,
                          skills: seq<string>, credits: int, completionDate: Time): (c: Certificate)
    ensures c.downloadCount == 0 && c.isValid && c.lastDownloaded.None?
    ensures c.certificateId.None? && c.verificationCode.None? && c.certificateUrl.None?
  {
    Certificate(id, user, course, None, completionDate, grade, score, None, None, skills, credits, true, 0, None)
  }

  // ---------------------------------------------------------------------
  // verifyCertificate

  predicate Verifies(c: Certificate, certificateId: string, verificationCode: string)
  {
    c.certificateId == Some(certificateId) && c.verificationCode == Some(verificationCode) && c.isValid
  }

  /** `findOne({certificateId, verificationCode, isValid: true})`: the first
      stored certificate matching all three, if any. */
  function VerifyCertificate(certs: seq<Certificate>, certificateId: string, verificationCode: string): (r: Option<Certificate>)
    ensures r.Some? ==> r.value in certs && Verifies(r.value, certificateId, verificationCode)
    ensures r.None? <==> forall c :: c in certs ==> !Verifies(c, certificateId, verificationCode)
  {
    match FirstIndex(certs, (c: Certificate) => Verifies(c, certificateId, verificationCode))
    case None => None
    case Some(k) => Some(certs[k])
  }

  /** A certificate revoked (isValid false) or presented with a wrong code
      never verifies. */
  lemma VerifyNeedsAllThree(certs: seq<Certificate>, certificateId: string, verificationCode: string)
    requires forall c :: c in certs && c.certificateId == Some(certificateId) ==>
      !c.isValid || c.verificationCode != Some(verificationCode)
    ensures VerifyCertificate(certs, certificateId, verificationCode).None?
  {
  }

  // ---------------------------------------------------------------------
  // The document as an object

  class CertificateDoc {
    var id: Id
    var user: Id
    var course: Id
    var certificateId: Option<string>
    var completionDate: Time
    var grade: Grade
    var score: Option<int>
    var certificateUrl: Option<string>
    var verificationCode: Option<string>
    var skills: seq<string>
    var creditsEarned: int
    var isValid: bool
    var downloadCount: int
    var lastDownloaded: Option<Time>

    function State(): Certificate
      reads this
    {
      Certificate(id, user, course, certificateId, completionDate, grade, score, certificateUrl,
        verificationCode, skills, creditsEarned, isValid, downloadCount, lastDownloaded)
    }

    constructor (c: Certificate)
      ensures State() == c
    {
      id, user, course, certificateId := c.id, c.user, c.course, c.certificateId;
      completionDate, grade, score, certificateUrl := c.completionDate, c.grade, c.score, c.certificateUrl;
      verificationCode, skills, creditsEarned := c.verificationCode, c.skills, c.creditsEarned;
      isValid, downloadCount, lastDownloaded := c.isValid, c.downloadCount, c.lastDownloaded;
    }

    /** The pre('save') hook. */
    method GenerateIds(year: nat, randomId: string, randomCode: string)
      modifies this
      ensures State() == WithGeneratedIds(old(State()), year, randomId, randomCode)
    {
      if !Present(certificateId) {
        certificateId := Some(CertificateIdFor(year, randomId));
      }
      if !Present(verificationCode) {
        verificationCode := Some(ToUpper(randomCode));
      }
    }

    /** markAsDownloaded: one more download, stamped now. */
    method MarkAsDownloaded(now: Time)
      modifies this
      ensures State() == old(State()).(downloadCount := old(downloadCount) + 1, lastDownloaded := Some(now))
    {
      downloadCount := downloadCount + 1;
      lastDownloaded := Some(now);
    }
  }
}
