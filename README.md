# lms-charity, modelled in Dafny

lms-charity is a learning-management system. Its Express/Mongoose server keeps courses (modules of lessons, enrolments, discussions), users, per-course progress records, certificates and comments, and its React client lets instructors write courses and students follow them. This project models the logic of that system which does not depend on the database, the network or the browser, and proves what the code promises about it.

The model has one Dafny module per source file, plus two shared modules:

- `Common` holds the vocabulary the other modules share:
  - optional values and route responses (a status and a body, or an error status);
  - JavaScript's `Math.round` and `Math.ceil` on integer quotients: `RoundDiv` and `Percent`, with `Percent(c, t) = Math.round(100 * c / t)`;
  - the string operations the handlers use (`trim`, `toLowerCase`, `includes`, `split`);
  - sums, filters, sorting and pagination over sequences.
- `Documents` holds the documents the server routes read and write: courses, users and comments. It also holds `Db`, the whole database as one value, and `Database`, a class whose fields hold the same collections.

The server routes follow one pattern. Each handler is a function from the database value and the request to an `Outcome`: the new database and the response. The properties are proved about these functions. A handler that mutates fetched documents step by step is also a method on `Database`, and that method is proved to produce the outcome its function describes. Examples are enrolling, completing a lesson, grading, the like toggle, the wishlist, and adding a lesson. The same pattern covers the other state that the source updates in place. Each of the following is a class whose methods update its fields, specified by functions on a snapshot of those fields:

- the `Progress` document (`ProgressModel.Progress`);
- the certificate document (`CertificateModel.CertificateDoc`);
- the wizard's step counter (`CourseCreateWizard.CourseWizard`);
- the learning page (`CourseLearn.LearnPage`);
- the My Learning lists, which `sort` reorders in place (`MyLearning.MyLearningPage`);
- the quiz question whose options the one-page editor writes into (`CourseCreateStreamlined.QuestionDraft`);
- the notification panel (`NotificationCenter.Panel`);
- the dashboard hook (`StudentDashboardHook.Dashboard`).

The source's searching loops, and the loops that build a tally or a map step by step, are loops in the model, proved against a function:

- the nested module/lesson search in grading;
- the quiz scoring counters;
- the analytics `forEach` tallies;
- the instructor's per-student aggregation;
- the multi-file upload;
- the uploader's batch check.

A loop that only selects items, or only counts the items that pass a test, is a filter on a sequence in the model, and a count is that filter's length. One example is the nested `forEach` that counts the instructor's enrolments of the last 30 days (`server/routes/instructor.js:49-55`), which the model states as `|Recent(Visits(cs), now)|` (`InstructorRoutes.InstructorStats`). The loop that collects the instructor's students (`server/routes/instructor.js:114-150`) builds a map, and is a loop (`InstructorRoutes.CollectStudents`).

The client editors (quiz, lesson, assignment, course wizard and one-page editor, basics form) are functions from the edited value to the value handed on. The dashboards and the grading dialog are functions over their props.

The model takes the following as parameters:

- the clock (`now`);
- random and generated ids;
- the order in which MongoDB returns matches (`found`, constrained to be a match);
- bcrypt (`hash`, `matches`);
- the Firebase token check;
- the machine-learning essay score;
- the answer of every backend call the client makes.

The repository also contains a Python scoring service (`ml_api/app.py`). It is one Flask route around a pretrained text classifier. The model covers the server and client code, and treats the score that service returns as an opaque input.

Besides the findings below, the proofs record several behaviours of the code as written. Each is a lemma:

- `EnrollmentRoutes.CompletedCoursesAlwaysEmpty`: the completed-courses listing is always empty, because its `populate` omits `isPublished`.
- `EnrollmentRoutes.ZeroScoreQuirk`: a quiz score of 0 is dropped on a first completion but kept on a repeat.
- `ProgressRoutes.CompleteLessonRepeatCountsAgain`: completing a lesson again on a completed course counts the course as completed again.
- `ProgressRoutes.CompleteCourseCountsEveryCall`: complete-course counts the course on every call.
- `ProgressRoutes.CompleteLessonBeyondCourse`: a lesson beyond the course's count ends in a 500.
- `CourseLearn.NearlyDoneCountsAsDone`: 199 of 200 lessons shows 100%.
- `StudentDashboard.AverageRoundsUpToComplete`: the average progress can show 100% while one course is unfinished.
- `QuizLessonForm.RemovingCorrectOptionMovesMark`: removing the correct option moves the mark to another option.
- `GradingCenter.FilterOptions`: the grading dialog's 'ungraded' filter shows nothing.
- `AdminDashboard.CourseFilterFacts`: the admin course filter also keeps courses whose `status` field equals the selection.
- `AdminDashboard.ModerationRequests`: the reason given to Reject never reaches the request.
- `NotificationCenter.CounterGap`: deleting an unread notification leaves the badge one too high.
- `NotificationCenter.SameFilterReloadsPage`: choosing the current filter again loads page 2 twice.
- `StudentDashboardHook.RefreshKeepsApart`: a failed catalogue fetch keeps the old available list beside the new enrolled list.
- `FileUploadResource.BatchExceedsLimit`: one batch can take the uploader past its file limit.
- `FileUploadResource.TrailingCommaAllowsAll`: a trailing comma in the accepted types admits every file.
- `AuthRoutes.Login`: login does not consult `isActive`.
- `AuthRoutes.EmptyProfileUpdateKeepsBio`: the short profile update cannot clear the bio.
- `LessonRoutes.SubmitAssignmentEffects`: a user who is not enrolled can submit an assignment.

## Model

| member | source | states |
|---|---|---|
| AdminDashboard.StatusFor | lms-charity/client/src/pages/AdminDashboard.jsx:136-149 | publish asks for published, unpublish for draft, archive for archived, and any other action is sent as the status itself |
| AdminDashboard.StatusForSettles | lms-charity/client/src/pages/AdminDashboard.jsx:136-149 | the status sent is never a bare action word, and mapping it again leaves it as it is |
| AdminDashboard.CourseStatusRequest | lms-charity/client/src/pages/AdminDashboard.jsx:133-153 | the request names the course and the status the action maps to |
| AdminDashboard.ModerationRequests | lms-charity/client/src/pages/AdminDashboard.jsx:614-706 | the card's button asks for the opposite of the course's published state, Approve for published and Reject for draft, and the reason given to Reject makes no difference |
| AdminDashboard.CourseBadge | lms-charity/client/src/pages/AdminDashboard.jsx:596-604 | Published for a published course, else its status when non-empty, else Draft |
| AdminDashboard.StatusButtonFlips | lms-charity/client/src/pages/AdminDashboard.jsx:108-112 | the user button sends the opposite of what the table shows, so once stored the user shows with the other status |
| AdminDashboard.FilteredUsers | lms-charity/client/src/pages/AdminDashboard.jsx:201-206 | exactly the users whose name or email contains the term, ignoring case, in the role selected unless 'all' |
| AdminDashboard.UserFilterFacts | lms-charity/client/src/pages/AdminDashboard.jsx:201-206 | with no term and 'all', exactly the users with a name or an email; a role filter keeps only that role |
| AdminDashboard.FilteredCourses | lms-charity/client/src/pages/AdminDashboard.jsx:208-215 | exactly the courses whose title contains the term and whose status test passes |
| AdminDashboard.CourseFilterFacts | lms-charity/client/src/pages/AdminDashboard.jsx:208-215 | 'all' keeps every matching title; 'published' and 'unpublished' also keep a course whose status reads the same word; another selection keeps that status; a course without a title is never kept |
| AdminDashboard.Share | lms-charity/client/src/pages/AdminDashboard.jsx:294 | the share is the part over the total as a percentage rounded half up, a missing or zero total counting as one |
| AdminDashboard.ShareRange | lms-charity/client/src/pages/AdminDashboard.jsx:294-314 | a part of the users shows between 0% and 100%, all of them 100%, and a missing or zero total shows a hundred times the part |
| AdminDashboard.SharesAddUp | lms-charity/client/src/pages/AdminDashboard.jsx:294-314 | the student and instructor shares add up to at most 101 |
| AdminDashboard.RecentActivity | lms-charity/client/src/pages/AdminDashboard.jsx:335-341 | the first five notifications, each by its message or "System activity" |
| AdminRoutes.Guarded | lms-charity/server/routes/admin.js:9-10 | a caller who is not an admin gets 403 before any handler runs, and nothing is written; an admin gets the handler's outcome |
| AdminRoutes.Public | lms-charity/server/routes/admin.js:46 | a user as sent has no password and is otherwise the stored user |
| AdminRoutes.UsersMatching | lms-charity/server/routes/admin.js:26-38 | exactly the users of the role asked for whose name or email contains the search text, ignoring case |
| AdminRoutes.ListUsers | lms-charity/server/routes/admin.js:15-63 | 403 for a non-admin and 500 for a negative skip; otherwise exactly the users in the pagination window of the matching users, in order, each without its password |
| AdminRoutes.NoFilterListsEveryone | lms-charity/server/routes/admin.js:26-38 | without a role or a search text every user is listed |
| AdminRoutes.GetUser | lms-charity/server/routes/admin.js:69-87 | 403 for a non-admin, 404 for an unknown user; otherwise the user without the password |
| AdminRoutes.Edited | lms-charity/server/routes/admin.js:103-107 | a non-empty name, email or role replaces the stored one, the name trimmed; isActive is set whenever given, false included; nothing else changes |
| AdminRoutes.UpdateUser | lms-charity/server/routes/admin.js:93-124 | 403 for a non-admin and 404 for an unknown user; a save failing validation gives 500; none of these writes; otherwise the edited user is stored |
| AdminRoutes.SaveValidAfterSave | lms-charity/server/routes/admin.js:109 | a user that passed validation stays valid once stored under its id |
| AdminRoutes.DeactivationApplies | lms-charity/server/routes/admin.js:107 | deactivating takes effect, and empty strings keep the other fields |
| AdminRoutes.UpdateUserIdempotent | lms-charity/server/routes/admin.js:93-124 | sending the same edit twice leaves the database as after once |
| AdminRoutes.EditedIdempotent | lms-charity/server/routes/admin.js:103-107 | applying the same edit twice is applying it once |
| AdminRoutes.UpdateUserOn | lms-charity/server/routes/admin.js:93-124 | the handler's assignments, one field at a time, end as the value-level UpdateUser |
| AdminRoutes.DeleteUser | lms-charity/server/routes/admin.js:130-147 | succeeds iff the caller is an admin and the user exists; only the user document is removed, courses keep their references |
| AdminRoutes.CoursesMatching | lms-charity/server/routes/admin.js:160-180 | exactly the courses matching the search, category and isPublished filters |
| AdminRoutes.ListCourses | lms-charity/server/routes/admin.js:153-204 | 403 for a non-admin and 500 for a negative skip; otherwise exactly the pagination window of the matching courses, in order |
| AdminRoutes.PublishedFilterSplits | lms-charity/server/routes/admin.js:178-180 | isPublished "true" selects the published courses and any other value the unpublished ones |
| AdminRoutes.DeleteCourse | lms-charity/server/routes/admin.js:210-232 | 403 for a non-admin and 404 for an unknown course; otherwise the course is removed |
| AdminRoutes.AdminDeleteIsOwnerDelete | lms-charity/server/routes/admin.js:210-232 | the admin deletion is the course routes' deletion without the ownership check, and succeeds for every existing course |
| AdminRoutes.ToggleFeatured | lms-charity/server/routes/admin.js:238-259 | succeeds iff the caller is an admin and the course exists; the featured flag is negated and the reply names the new state |
| AdminRoutes.ToggleTwiceRestores | lms-charity/server/routes/admin.js:246-247 | toggling twice restores the database |
| AdminRoutes.ToggleFeaturedOn | lms-charity/server/routes/admin.js:238-259 | the handler on the database object ends as the value-level ToggleFeatured |
| AdminRoutes.OnlyAdminsWrite | lms-charity/server/routes/admin.js:9-10 | a caller who is not an admin changes nothing through any route |
| AdminRoutes.CountRole | lms-charity/server/routes/admin.js:270-271 | a role's count is at most the number of users |
| AdminRoutes.RoleCountsBounded | lms-charity/server/routes/admin.js:270-271 | students and instructors together are at most all the users |
| AdminRoutes.UnwoundLength | lms-charity/server/routes/admin.js:281-283 | the unwound list has one entry per enrolment |
| AdminRoutes.TotalEnrollments | lms-charity/server/routes/admin.js:280-286 | the total is the number of enrolments over all courses, 0 when there are none |
| AdminRoutes.Categories | lms-charity/server/routes/admin.js:290 | the distinct categories of the courses, each once |
| AdminRoutes.CoursesInPositive | lms-charity/server/routes/admin.js:290 | a category has courses exactly when some course is in it |
| AdminRoutes.Ranked | lms-charity/server/routes/admin.js:290-291 | every category once, by number of courses, largest first |
| AdminRoutes.Top | lms-charity/server/routes/admin.js:292 | the first five of the ranked categories, or all when fewer |
| AdminRoutes.TopCategories | lms-charity/server/routes/admin.js:289-293 | one group per top category with its number of courses |
| AdminRoutes.TopCategoriesRanked | lms-charity/server/routes/admin.js:289-293 | at most five groups, each a category of some course listed once with its count, largest first |
| AdminRoutes.TopCategoriesComplete | lms-charity/server/routes/admin.js:289-293 | a category left out means five are listed, none with fewer courses than it |
| AdminRoutes.Published | lms-charity/server/routes/admin.js:272 | exactly the published courses |
| AdminRoutes.RegisteredSince | lms-charity/server/routes/admin.js:275-278 | exactly the users registered at or after the date |
| AdminRoutes.Stats | lms-charity/server/routes/admin.js:265-313 | 403 iff the caller is not an admin; otherwise the user, course, role and enrolment totals, the published count as the number of published courses, the recent users as those registered in the last thirty days, and the top categories |
| AdminRoutes.NoEnrolmentsCountZero | lms-charity/server/routes/admin.js:286 | without enrolments the total is 0, not missing |
| AssignmentLessonForm.WithAssignment | lms-charity/client/src/components/AssignmentLessonForm.jsx:5-80 | an assignment update replaces the assignment and keeps the lesson's title and type |
| AssignmentLessonForm.AddCriterion | lms-charity/client/src/components/AssignmentLessonForm.jsx:5-20 | a criterion with no name, 10 points and no description joins the end of the rubric; the earlier criteria and every other assignment field stay |
| AssignmentLessonForm.Apply | lms-charity/client/src/components/AssignmentLessonForm.jsx:274 | a points edit stores the parsed number, or 10 when it is unparsable or zero, so points are never 0; a name or description edit sets only that field |
| AssignmentLessonForm.UpdateCriterion | lms-charity/client/src/components/AssignmentLessonForm.jsx:22-36 | only the criterion at that index changes, as the edit says; the other criteria and assignment fields stay |
| AssignmentLessonForm.RemoveCriterion | lms-charity/client/src/components/AssignmentLessonForm.jsx:38-47 | the rubric loses exactly the criterion at that index, and nothing else changes |
| AssignmentLessonForm.UploadResource | lms-charity/client/src/components/AssignmentLessonForm.jsx:49-69 | without a file nothing changes; otherwise one entry with the file's name, type and size joins the end of the resources |
| AssignmentLessonForm.RemoveResource | lms-charity/client/src/components/AssignmentLessonForm.jsx:71-80 | the resources lose exactly the file at that index, and nothing else changes |
| AssignmentLessonForm.AddThenRemove | lms-charity/client/src/components/AssignmentLessonForm.jsx:5-80 | removing the criterion or file just added gives back the assignment as it was |
| AssignmentLessonForm.RubricPointsAfterEdits | lms-charity/client/src/components/AssignmentLessonForm.jsx:5-36 | a new criterion adds 10 to the rubric's total points, and a points edit changes the total by that criterion's change |
| AssignmentLessonForm.ReplacePoints | lms-charity/client/src/components/AssignmentLessonForm.jsx:22-36 | replacing one criterion changes the total points by the difference of the two criteria's points |
| AssignmentLessonForm.SetDueDays | lms-charity/client/src/components/AssignmentLessonForm.jsx:124-131 | the due-days field stores the parsed number, or 7 when it is unparsable or zero |
| AssignmentLessonForm.SetMaxPoints | lms-charity/client/src/components/AssignmentLessonForm.jsx:143-150 | the max-points field stores the parsed number, or 100 when it is unparsable or zero |
| AssignmentLessonForm.SettingsFallBack | lms-charity/client/src/components/AssignmentLessonForm.jsx:124-150 | an unparsable or zero entry falls back to 7 days and 100 points, both stored and shown; any other number is stored and shown as typed |
| AuthRoutes.NewUser | lms-charity/server/routes/auth.js:28-35 | a new account has the given id, address, role, password and provider, is active, and has no wishlist or courses |
| AuthRoutes.Register | lms-charity/server/routes/auth.js:11-52 | 400 for an address in use or a role other than student or instructor, 500 for a document the schema refuses, none writing; otherwise the account is stored with the hashed password and the role asked for, student by default |
| AuthRoutes.RegistrationNeverAdmin | lms-charity/server/routes/auth.js:23-25 | nobody can register as an admin, and registration never creates a second account for an address |
| AuthRoutes.RegisterTwice | lms-charity/server/routes/auth.js:16-20 | registering the same address a second time is refused |
| AuthRoutes.Login | lms-charity/server/routes/auth.js:58-86 | succeeds iff an account has the address and the password matches its hash, answering with that account; an unknown address gives 401 |
| AuthRoutes.RegisteredCanLogIn | lms-charity/server/routes/auth.js:11-86 | a registered account logs in with its password whenever the comparison accepts a password against its own hash |
| AuthRoutes.Me | lms-charity/server/routes/auth.js:92-105 | the caller's document, and nothing iff the caller has gone |
| AuthRoutes.OrKeep | lms-charity/server/routes/auth.js:118-120 | a non-empty value replaces the old one and an empty one keeps it |
| AuthRoutes.UpdateProfile | lms-charity/server/routes/auth.js:111-141 | 404 for a caller that has gone; name, bio and avatar are replaced only by non-empty values |
| AuthRoutes.EmptyProfileUpdateKeepsBio | lms-charity/server/routes/auth.js:118-120 | empty fields keep the bio and the avatar, so this route cannot clear the bio |
| AuthRoutes.Google | lms-charity/server/routes/auth.js:147-212 | 400 without an address, a name or a uid; 401 for a token of another uid; an existing account is linked only if it has no Google id yet; otherwise a new student account is created |
| AuthRoutes.GoogleKeepsExistingLink | lms-charity/server/routes/auth.js:171-178 | sign-in never replaces a Google id an account already has, and never changes an account's role |
| AuthRoutes.GoogleTwice | lms-charity/server/routes/auth.js:147-212 | a second sign-in with the same Google account changes nothing |
| AuthRoutes.GoogleOn | lms-charity/server/routes/auth.js:169-178 | the linking on the fetched document ends as the value-level Google |
| CertificateModel.ParseGrade | lms-charity/server/models/Certificate.js:24-28 | a string passes the grade enum only when it is the name of one of the seven grades |
| CertificateModel.ParseGradeName | lms-charity/server/models/Certificate.js:26 | every grade's name passes the enum and parses back to that grade |
| CertificateModel.GradeRankCountsThresholds | lms-charity/server/routes/certificates.js:79-86 | the grade of a score ranks as many steps above Pass as the thresholds 70, 75, 80, 85, 90, 95 it reaches |
| CertificateModel.GradeMonotone | lms-charity/server/routes/certificates.js:79-86 | a higher score never earns a lower grade |
| CertificateModel.CertificateIdFor | lms-charity/server/models/Certificate.js:82-84 | a generated certificate id starts with "CERT-" |
| CertificateModel.GeneratedIdsProperties | lms-charity/server/models/Certificate.js:80-92 | after the pre-save hook both ids are present, ids already present are kept, and no other field changes |
| CertificateModel.GeneratedIdsIdempotent | lms-charity/server/models/Certificate.js:80-92 | running the hook a second time changes nothing |
| CertificateModel.SaveAsWrittenRejectsNewCertificate | lms-charity/server/models/Certificate.js:14-18 | with validation before the hook, a certificate created without its ids is rejected |
| CertificateModel.SaveAssignsIds | lms-charity/server/models/Certificate.js:29-43 | with the ids generated before validation, a certificate saves iff its score is absent or within 0 to 100, and the saved document carries both ids |
| CertificateModel.CreditsFor | lms-charity/server/routes/certificates.js:95 | a missing or zero duration earns one credit; otherwise the credits are the duration rounded up |
| CertificateModel.NewCertificate | lms-charity/server/models/Certificate.js:19-69 | a new certificate has no downloads, is valid, and has no ids or URL until saved |
| CertificateModel.VerifyCertificate | lms-charity/server/models/Certificate.js:95-108 | a certificate is returned only when its id and code match and it is valid, and nothing is returned iff no stored certificate matches all three |
| CertificateModel.VerifyNeedsAllThree | lms-charity/server/models/Certificate.js:97-101 | a revoked certificate, or one presented with the wrong code, never verifies |
| CertificateModel.CertificateDoc.constructor | lms-charity/server/models/Certificate.js:3-72 | a new document holds the given certificate |
| CertificateModel.CertificateDoc.GenerateIds | lms-charity/server/models/Certificate.js:80-92 | the hook leaves the document as WithGeneratedIds describes |
| CertificateModel.CertificateDoc.MarkAsDownloaded | lms-charity/server/models/Certificate.js:111-115 | the download count grows by one, the last download is now, and nothing else changes |
| CertificateRoutes.FinalScore | lms-charity/server/routes/certificates.js:70-77 | a non-zero supplied score is used as given; otherwise the rounded mean of the recorded quiz scores, between 0 and 100 when they are, or 100 when there are none |
| CertificateRoutes.CompletedRecord | lms-charity/server/routes/certificates.js:37-41 | the record found is this user's completed record for the course, and nothing is found iff there is none |
| CertificateRoutes.IssuedCertificate | lms-charity/server/routes/certificates.js:88-97 | the new certificate is the user's for the course, with the final score, the grade the ladder gives it, and the credits of the course's duration |
| CertificateRoutes.GenerateOn | lms-charity/server/routes/certificates.js:22-133 | the route on the database object ends in the state and response the value-level Generate gives |
| CertificateRoutes.Generate | lms-charity/server/routes/certificates.js:22-133 | the certificate-issuing route as a function of the database; its contract is stated by the GenerateRefusals, GenerateWrites, GenerateIssues, GenerateRejectsScoreOutOfRange and GenerateTwice rows |
| CertificateRoutes.GenerateRefusals | lms-charity/server/routes/certificates.js:25-67 | a missing course id gives 400, an unknown course 404, no completed record 400, an existing certificate 200 with that certificate; none of these writes anything |
| CertificateRoutes.GenerateWrites | lms-charity/server/routes/certificates.js:88-112 | a 201 only follows for an existing course the user completed without a certificate, and writes exactly the new certificate and one more on the user's counter |
| CertificateRoutes.GenerateIssues | lms-charity/server/routes/certificates.js:69-126 | an issued certificate carries the final score, its grade, both ids, the course's credits and no downloads |
| CertificateRoutes.GenerateRejectsScoreOutOfRange | lms-charity/server/routes/certificates.js:75-97 | a supplied score outside 0 to 100 fails the schema bounds with 500 and writes nothing |
| CertificateRoutes.GenerateTwice | lms-charity/server/routes/certificates.js:50-67 | asking again after success returns the same certificate with 200 and writes nothing |
| CertificateRoutes.UserCertificates | lms-charity/server/routes/certificates.js:139-143 | the user's certificates, all of them and only them, latest completion first, with the same count and credit sum as in storage order |
| CertificateRoutes.CertificateEntries | lms-charity/server/routes/certificates.js:150-166 | one entry per certificate, in order, each holding its certificate |
| CertificateRoutes.MyCertificates | lms-charity/server/routes/certificates.js:138-180 | the listing fails iff one of the user's certificates names a deleted course; otherwise the total is the number of entries and each entry is one of the user's certificates |
| CertificateRoutes.UserCertificatesAppend | lms-charity/server/routes/certificates.js:166-170 | one more certificate of the user adds one to the count and its credits to the credit total |
| CertificateRoutes.GenerateAddsToMyCertificates | lms-charity/server/routes/certificates.js:88-170 | an issued certificate adds one to the learner's total and its credits to their credit total |
| CertificateRoutes.OwnedCertificate | lms-charity/server/routes/certificates.js:189-192 | the certificate found has that id and belongs to the user, and nothing is found iff no certificate does |
| CertificateRoutes.DownloadCountsOne | lms-charity/server/routes/certificates.js:187-229 | a download changes only that certificate, one more download stamped now; 404 iff the user owns no certificate with that id |
| CertificateRoutes.DownloadOn | lms-charity/server/routes/certificates.js:187-229 | the route on the database object, counting through the document's own markAsDownloaded, ends as the value-level Download |
| CertificateRoutes.Download | lms-charity/server/routes/certificates.js:187-229 | the download route as a function of the database; its contract is stated by the DownloadCountsOne row |
| CertificateRoutes.Preview | lms-charity/server/routes/certificates.js:281-321 | the preview fails only with 404 or 500, and shows a certificate the user owns with the id asked for |
| CertificateRoutes.VerifyRoute | lms-charity/server/routes/certificates.js:236-274 | 404 iff no valid certificate matches both id and code; a success shows a stored certificate that verifies |
| CertificateRoutes.IssuedCertificateVerifies | lms-charity/server/routes/certificates.js:22-274 | a certificate just issued verifies with its own id and code |
| CloudinaryFilter.AllowedTypes | lms-charity/server/utils/cloudinary.js:36-49 | the table has its own entries exactly for video, image and document |
| CloudinaryFilter.DocumentsExtendLocalList | lms-charity/server/utils/cloudinary.js:36-49 | the documents this filter takes are those of the local document upload plus ZIP and RAR archives |
| CloudinaryFilter.RejectionNamesTheList | lms-charity/server/utils/cloudinary.js:55 | the rejection message starts with the declared type and names every type it would have taken |
| CloudinaryFilter.FileFilterAsWritten | lms-charity/server/utils/cloudinary.js:51-52 | as written, a declared type that is an inherited key of the table, such as constructor, makes the filter throw |
| CloudinaryFilter.FileFilter | lms-charity/server/utils/cloudinary.js:33-61 | the intended filter never throws; with a declared type of the table it takes the file iff its MIME type is listed; with any other or no declared type it takes every file |
| CloudinaryFilter.AsWrittenAgreesOffPrototype | lms-charity/server/utils/cloudinary.js:51-59 | apart from the inherited keys the filter as written and the intended one agree |
| CloudinaryFilter.ConstructorTypeThrows | lms-charity/server/utils/cloudinary.js:51-52 | a form field type=constructor makes the filter as written throw where the intended filter takes the file |
| CloudinaryFilter.SizeLimit | lms-charity/server/utils/cloudinary.js:64-95 | no uploader allows more than 100 MB, and exactly the video and any-type uploaders allow 100 MB |
| CloudinaryFilter.UploaderDoesNotFixType | lms-charity/server/utils/cloudinary.js:33-78 | the image uploader refuses any file over 10 MB, but takes a small MP4 when the form declares video: the uploader does not fix the type |
| CloudinaryFilter.AnyUploaderTakesMost | lms-charity/server/utils/cloudinary.js:64-95 | every file the image, document or video uploader takes, the any-type uploader takes too |
| CommentRoutes.CommentIndex | lms-charity/server/routes/comments.js:115 | the index found holds the comment with that id, and nothing is found iff no comment has it |
| CommentRoutes.TopLevelOf | lms-charity/server/routes/comments.js:17-32 | the listing's filter keeps exactly the live top-level comments of the course, or of the lesson when one is given |
| CommentRoutes.ByCreation | lms-charity/server/routes/comments.js:35-46 | the same comments, as a permutation, newest first for 'desc' and oldest first otherwise |
| CommentRoutes.ListComments | lms-charity/server/routes/comments.js:10-66 | a negative skip fails; otherwise the page holds matching stored comments, at most the limit, and the total counts all matches |
| CommentRoutes.PageOf | lms-charity/server/routes/comments.js:34-60 | the page is the requested slice of the matches in creation order, and the page count is taken over all matches |
| CommentRoutes.ListingOrdered | lms-charity/server/routes/comments.js:35-48 | a page of the listing is in creation order, newest first unless the order asks otherwise |
| CommentRoutes.LiveRepliesOf | lms-charity/server/routes/comments.js:211-215 | exactly the live replies to the parent |
| CommentRoutes.ListReplies | lms-charity/server/routes/comments.js:207-238 | a negative skip fails; otherwise the page holds live stored replies to the parent, oldest first, and the total counts them all |
| CommentRoutes.WithReply | lms-charity/server/routes/comments.js:88-93 | the parent's reply list gains the new id; every other comment stays, and an unknown parent leaves the collection as it is |
| CommentRoutes.CreateProperties | lms-charity/server/routes/comments.js:71-102 | creation refuses exactly a missing content or course; it appends one comment by the caller, not deleted, edited or liked; a reply's id lands in its existing parent's replies, and nothing else changes |
| CommentRoutes.CreatedIsListedIffTopLevel | lms-charity/server/routes/comments.js:71-102 | a new top-level comment shows in its course's or lesson's listing, and a reply does not |
| CommentRoutes.CreateComment | lms-charity/server/routes/comments.js:71-102 | the comment-creation route as a function of the database; its contract is stated by the CreateProperties and CreatedIsListedIffTopLevel rows |
| CommentRoutes.EditComment | lms-charity/server/routes/comments.js:107-138 | an empty content gives 400, an unknown comment 404, anyone but the author 403, none of them writing; otherwise only the content, the edited flag and its time change |
| CommentRoutes.DeleteComment | lms-charity/server/routes/comments.js:143-165 | an unknown comment gives 404 and anyone but the author or an admin 403; otherwise the comment is marked deleted and kept |
| CommentRoutes.DeleteIsSoft | lms-charity/server/routes/comments.js:155-160 | a deleted comment stays with every other field, so the collection keeps its size, but it leaves both listings |
| CommentRoutes.Toggled | lms-charity/server/routes/comments.js:178-190 | the caller likes the comment afterwards iff they did not before, and every other user's like stays |
| CommentRoutes.ToggleTwice | lms-charity/server/routes/comments.js:178-190 | two toggles restore who has liked, and restore the list exactly when the caller had not liked it |
| CommentRoutes.ToggleKeepsDistinct | lms-charity/server/routes/comments.js:178-190 | toggling keeps a like list without duplicates |
| CommentRoutes.ToggleLike | lms-charity/server/routes/comments.js:170-202 | 404 iff the comment is unknown, writing nothing; otherwise the like is toggled and the answer reports whether the caller now likes it and the number of likes |
| CommentRoutes.ToggleLikeTwice | lms-charity/server/routes/comments.js:170-202 | two toggles by the same user leave the set of users who like the comment as it was |
| CommentRoutes.ToggleLikeOn | lms-charity/server/routes/comments.js:170-202 | the handler on the database object, filtering or pushing then saving, ends as the value-level ToggleLike |
| CourseBasicsForm.AddTagClicked | lms-charity/client/src/components/CourseBasicsForm.jsx:27-33 | when the draft rule refuses the tag nothing changes; otherwise the trimmed tag joins the course's tags and the input clears |
| CourseBasicsForm.RemoveTagClicked | lms-charity/client/src/components/CourseBasicsForm.jsx:35-38 | the course's tags lose every copy of that tag, and the input and other fields stay |
| CourseBasicsForm.EnterIsAdd | lms-charity/client/src/components/CourseBasicsForm.jsx:40-45 | pressing Enter in the tag input is the Add button; any other key leaves the form as it was |
| CourseBasicsForm.TagsStayDistinct | lms-charity/client/src/components/CourseBasicsForm.jsx:27-38 | adding and removing tags keep the tags duplicate-free, and removing a tag just added restores the tags |
| CourseBasicsForm.ForwardTouchesOneField | lms-charity/client/src/components/CourseBasicsForm.jsx:11-25 | each text field's change handler sets that one field to the typed value and leaves every other field alone |
| CourseCreateStreamlined.FormatTimeIsClock | lms-charity/client/src/pages/CourseCreateStreamlined.jsx:141-146 | the special case for a missing or zero duration gives what the general m:ss rule gives, and the text reads back as the duration |
| CourseCreateStreamlined.AddModule | lms-charity/client/src/pages/CourseCreateStreamlined.jsx:195-215 | nothing is added iff the title is blank; otherwise one module with order one past the module count, no lessons and the clock as its id is appended |
| CourseCreateStreamlined.QuizOf | lms-charity/client/src/pages/CourseCreateStreamlined.jsx:246-257 | the stored quiz keeps each question's text, options and answer; a zero time limit becomes 300 seconds and a zero pass mark 70, so neither is ever 0 |
| CourseCreateStreamlined.AssignmentOf | lms-charity/client/src/pages/CourseCreateStreamlined.jsx:260-270 | the stored assignment keeps its title, and its maximum score and submission type fall back so they are never 0 or empty |
| CourseCreateStreamlined.AddLessonToModule | lms-charity/client/src/pages/CourseCreateStreamlined.jsx:225-303 | nothing is added iff the title is blank; otherwise only the modules change |
| CourseCreateStreamlined.AddedLessonShape | lms-charity/client/src/pages/CourseCreateStreamlined.jsx:227-283 | the lesson goes at the end of its module with order one past its lessons; it carries a quiz iff it is a quiz lesson with questions, an assignment iff an assignment lesson with a title, video fields iff a video and content iff a text lesson; other modules stay |
| CourseCreateStreamlined.Validate | lms-charity/client/src/pages/CourseCreateStreamlined.jsx:352-373 | the course passes iff title and description are non-blank and some module has a lesson; a blank title is reported first |
| CourseCreateStreamlined.ValidateOrder | lms-charity/client/src/pages/CourseCreateStreamlined.jsx:352-373 | each message appears only when the earlier checks pass, so a course without modules fails before the lesson check |
| CourseCreateStreamlined.DurationGrowsByLesson | lms-charity/client/src/pages/CourseCreateStreamlined.jsx:379-381 | adding a lesson adds its video duration to the course's total |
| CourseCreateStreamlined.DurationKeptByModule | lms-charity/client/src/pages/CourseCreateStreamlined.jsx:379-381 | adding a module, which has no lessons yet, leaves the total duration as it was |
| CourseCreateStreamlined.NonBlank | lms-charity/client/src/pages/CourseCreateStreamlined.jsx:390-392 | the lines kept are exactly the non-blank ones |
| CourseCreateStreamlined.NonBlankIdempotent | lms-charity/client/src/pages/CourseCreateStreamlined.jsx:390-392 | dropping blank lines twice is dropping them once |
| CourseCreateStreamlined.MakePayload | lms-charity/client/src/pages/CourseCreateStreamlined.jsx:383-395 | the payload is an unpublished draft with the summed duration, the course's modules, title and tags, the three lists without blank lines, and the signed-in user's name as instructor when there is one |
| CourseCreateStreamlined.PayloadListsSettled | lms-charity/client/src/pages/CourseCreateStreamlined.jsx:390-392 | building a payload from a payload's course leaves its lists as they are |
| CourseCreateStreamlined.QuestionDraft.constructor | lms-charity/client/src/pages/CourseCreateStreamlined.jsx:1081-1086 | a new question starts with its text and options and answer 0 |
| CourseCreateStreamlined.SelectCorrect | lms-charity/client/src/pages/CourseCreateStreamlined.jsx:1124-1131 | choosing the correct option makes a new question object with that answer, which shares its options array with the old one; other questions stay |
| CourseCreateStreamlined.EditOption | lms-charity/client/src/pages/CourseCreateStreamlined.jsx:1136-1143 | editing an option copies the list but not the question, so the text is written into the options array that the previous state holds too |
| CourseCreateWizard.FreshFormBlocksEarlySteps | lms-charity/client/src/pages/CourseCreate_new.jsx:100-117 | on a freshly opened form only step 5 (review) passes its check; steps 1 to 4 and any number outside 1 to 5 do not |
| CourseCreateWizard.StepRoundTrip | lms-charity/client/src/pages/CourseCreate_new.jsx:119-132 | moves stay within steps 1 to 5; going back undoes a move forward; going forward again after going back returns to the step when the step before it still passes; a move forward happens exactly when the step passes and is not the last |
| CourseCreateWizard.CourseWizard.constructor | lms-charity/client/src/pages/CourseCreate_new.jsx:33-56 | the wizard opens on step 1 with the initial form |
| CourseCreateWizard.CourseWizard.GoNext | lms-charity/client/src/pages/CourseCreate_new.jsx:122-126 | the step advances to what NextStep gives (one on, only when the current step passes and is not the last) and the form is untouched |
| CourseCreateWizard.CourseWizard.GoPrevious | lms-charity/client/src/pages/CourseCreate_new.jsx:128-132 | the step goes back one unless it is the first, and the form is untouched |
| CourseCreateWizard.CompletedSteps | lms-charity/client/src/pages/CourseCreate_new.jsx:830-831 | after a move forward from step s, exactly the steps before the new step are marked completed, and step s is among them only when it passed |
| CourseCreateWizard.AddModule | lms-charity/client/src/pages/CourseCreate_new.jsx:223-242 | nothing is added iff the title is blank; otherwise one module with order one past the module count and no lessons is appended |
| CourseCreateWizard.AddLesson | lms-charity/client/src/pages/CourseCreate_new.jsx:252-290 | nothing is added iff the title is blank or no module is chosen; otherwise only the modules change and their number stays |
| CourseCreateWizard.AddedLessonShape | lms-charity/client/src/pages/CourseCreate_new.jsx:254-276 | the added lesson goes at the end of the chosen module with order one past its lessons, carries only its kind's field (duration for video, content for text), leaves other modules untouched, and makes the content step pass |
| CourseDetail.FormatDuration | lms-charity/client/src/pages/CourseDetailNew.jsx:324-333 | The duration text reads back as the whole number of minutes in the seconds given, and carries an hours part exactly when the duration is at least one hour |
| CourseDetail.DurationLabel | lms-charity/client/src/pages/CourseDetailNew.jsx:895-897 | A lesson shows a duration exactly when it is a video with a non-zero duration, and the text reads back as its whole minutes |
| CourseDetail.TotalsOverAllLessons | lms-charity/client/src/pages/CourseDetailNew.jsx:790-793 | The curriculum's lecture count is the number of lessons over all modules and its length is the sum of their video durations, a missing one counting 0 |
| CourseDetail.LockedLessons | lms-charity/client/src/pages/CourseDetailNew.jsx:901 | A lesson of the curriculum shows a lock exactly when the visitor is not enrolled and the lesson is not a preview |
| CourseDetail.LockFacts | lms-charity/client/src/pages/CourseDetailNew.jsx:901 | Once enrolled no lesson is locked; before that exactly the non-preview lessons are |
| CourseDetail.ToggleModule | lms-charity/client/src/pages/CourseDetailNew.jsx:317-322 | Toggling a module flips whether it is shown expanded, an absent entry reading as collapsed, and leaves every other module's entry as it was |
| CourseDetail.ToggleTwice | lms-charity/client/src/pages/CourseDetailNew.jsx:317-322 | Toggling a module twice shows every module as before |
| CourseDetail.ToggleCommutes | lms-charity/client/src/pages/CourseDetailNew.jsx:317-322 | Toggling two modules shows the same whichever is toggled first |
| CourseDetail.Enroll | lms-charity/client/src/pages/CourseDetailNew.jsx:292-305 | The enrol button ends enrolled exactly when a user is signed in; otherwise it sends the visitor to the login page |
| CourseDetail.Wishlist | lms-charity/client/src/pages/CourseDetailNew.jsx:307-315 | Without a user the wishlist flag stays and the visitor is told to log in; with one the flag is flipped |
| CourseDetail.WishlistToggles | lms-charity/client/src/pages/CourseDetailNew.jsx:307-315 | For a signed-in user two clicks give the flag back and the message says "Added" exactly when the item is now wishlisted; without a user nothing changes |
| CourseDraft.InitialForm | lms-charity/client/src/pages/CourseCreate_new.jsx:36-56 | a new form opens with one blank line in each of the three lists, no modules and no tags |
| CourseDraft.WithList | lms-charity/client/src/pages/CourseCreate_new.jsx:139-159 | replacing one list field sets that list and leaves every other field of the course as it was |
| CourseDraft.ChangeItem | lms-charity/client/src/pages/CourseCreate_new.jsx:139-144 | the edited list keeps its length, line index takes the new value and every other line and list stays |
| CourseDraft.AddItem | lms-charity/client/src/pages/CourseCreate_new.jsx:146-151 | the list gains one blank line at its end, its earlier lines unchanged, and no other list changes |
| CourseDraft.RemoveItem | lms-charity/client/src/pages/CourseCreate_new.jsx:153-160 | a list of one line or none is left as it is; otherwise line index is dropped, and no other list changes |
| CourseDraft.ListEditsKeepNonEmpty | lms-charity/client/src/pages/CourseCreate_new.jsx:139-160 | no list edit can empty a list: a form whose three lists each have a line keeps at least one line in each |
| CourseDraft.AddTag | lms-charity/client/src/pages/CourseCreate_new.jsx:163-171 | a tag is added iff its trimmed text is non-blank and not already a tag; it goes at the end, and a duplicate-free tag list stays duplicate-free |
| CourseDraft.RemoveTag | lms-charity/client/src/pages/CourseCreate_new.jsx:173-178 | afterwards the tag is absent, every other tag stays present or absent as before, and duplicate-freedom is kept |
| CourseDraft.TagRoundTrip | lms-charity/client/src/pages/CourseCreate_new.jsx:163-178 | removing a tag just added gives the tags back as they were, and removal keeps the remaining tags in order |
| CourseDraft.RemoveModule | lms-charity/client/src/pages/CourseCreate_new.jsx:244-249 | the modules kept are exactly those whose id differs from the one removed |
| CourseDraft.RemoveAbsentModule | lms-charity/client/src/pages/CourseCreate_new.jsx:244-249 | removing a module id that is not present changes nothing |
| CourseDraft.LessonsWithout | lms-charity/client/src/pages/CourseCreate_new.jsx:292-300 | the lessons kept are exactly those whose id differs from the one removed |
| CourseDraft.LessonsWithoutAppended | lms-charity/client/src/pages/CourseCreate_new.jsx:292-300 | removing a lesson appended under a fresh id gives back the lessons as they were |
| CourseDraft.AppendLesson | lms-charity/client/src/pages/CourseCreate_new.jsx:269-276 | the chosen module gains the lesson at its end; the number of modules and every other module stay the same |
| CourseDraft.RemoveLesson | lms-charity/client/src/pages/CourseCreate_new.jsx:292-300 | the chosen module loses the lessons with that id, and every other module stays the same |
| CourseDraft.AppendThenRemoveLesson | lms-charity/client/src/pages/CourseCreate_new.jsx:269-300 | removing a lesson just added under a fresh id gives back the modules as they were |
| CourseLearn.ReachedIff | lms-charity/client/src/pages/CourseLearnEnhanced.jsx:507-516 | the course counts as reached iff at least 99.5% of its lessons are done, since the percentage is rounded before the comparison with 100 |
| CourseLearn.NearlyDoneCountsAsDone | lms-charity/client/src/pages/CourseLearnEnhanced.jsx:509-514 | 199 lessons done out of 200 rounds up to 100% |
| CourseLearn.LessonIndex | lms-charity/client/src/pages/CourseLearnEnhanced.jsx:728 | the index found holds the first lesson with that id, and -1 means no lesson has it |
| CourseLearn.ModuleIndex | lms-charity/client/src/pages/CourseLearnEnhanced.jsx:735 | the index found holds the first module with that id, and -1 means no module has it |
| CourseLearn.IndicesOf | lms-charity/client/src/pages/CourseLearnEnhanced.jsx:728-735 | in an outline with distinct ids, looking up a lesson's own module and lesson ids gives back its position |
| CourseLearn.NextSteps | lms-charity/client/src/pages/CourseLearnEnhanced.jsx:725-744 | next moves one lesson on within the module, from the last lesson of a module to the first of the next, and stays put at the last lesson of the course |
| CourseLearn.PreviousSteps | lms-charity/client/src/pages/CourseLearnEnhanced.jsx:746-763 | previous moves one lesson back within the module, from the first lesson of a module to the last of the one before, and stays put at the first lesson of the course |
| CourseLearn.NextThenPrevious | lms-charity/client/src/pages/CourseLearnEnhanced.jsx:725-763 | going back undoes going forward everywhere but at the last lesson of the course |
| CourseLearn.PreviousThenNext | lms-charity/client/src/pages/CourseLearnEnhanced.jsx:725-763 | going forward undoes going back everywhere but at the first lesson of the course |
| CourseLearn.FlagLessons | lms-charity/client/src/pages/CourseLearnEnhanced.jsx:626-629 | every lesson keeps its fields, and its completed flag becomes whether its id is in the completed list |
| CourseLearn.FlagModules | lms-charity/client/src/pages/CourseLearnEnhanced.jsx:623-631 | every module keeps its fields, and its lessons are flagged |
| CourseLearn.FlagsMatchCompleted | lms-charity/client/src/pages/CourseLearnEnhanced.jsx:619-633 | after flagging, a lesson is marked completed iff its id is in the list, and ids and outline shape stay |
| CourseLearn.FlaggedTotal | lms-charity/client/src/pages/CourseLearnEnhanced.jsx:619-633 | flagging keeps the total number of lessons |
| CourseLearn.FlagIdempotent | lms-charity/client/src/pages/CourseLearnEnhanced.jsx:619-633 | flagging twice with the same list is flagging once |
| CourseLearn.CorrectUpTo | lms-charity/client/src/pages/CourseLearnEnhanced.jsx:775-779 | the number of questions answered correctly never exceeds the number of questions counted |
| CourseLearn.AllCorrectIff | lms-charity/client/src/pages/CourseLearnEnhanced.jsx:775-779 | every question counts iff every question is answered with its correct answer |
| CourseLearn.PassMarks | lms-charity/client/src/pages/CourseLearnEnhanced.jsx:781-784 | a perfect score passes any pass mark up to 100, and no correct answer passes only a mark of 0 or less |
| CourseLearn.Score | lms-charity/client/src/pages/CourseLearnEnhanced.jsx:774-779 | the loop's score is the number of questions answered correctly |
| CourseLearn.LearnPage.constructor | lms-charity/client/src/pages/CourseLearnEnhanced.jsx:119-125 | a loaded course opens on the first lesson of the first module when that module has a lesson, and on no module or lesson otherwise, with nothing completed and no quiz |
| CourseLearn.LearnPage.GoToNextLesson | lms-charity/client/src/pages/CourseLearnEnhanced.jsx:725-744 | without a current lesson nothing changes; otherwise the current module and lesson become the next position, and nothing else changes |
| CourseLearn.LearnPage.GoToPreviousLesson | lms-charity/client/src/pages/CourseLearnEnhanced.jsx:746-763 | without a current lesson nothing changes; otherwise the current module and lesson become the previous position, and nothing else changes |
| CourseLearn.LearnPage.MarkLessonComplete | lms-charity/client/src/pages/CourseLearnEnhanced.jsx:677-723 | with a current lesson not yet completed its id is appended, the progress is recomputed, and the course is completed with its modal shown exactly when every lesson is done; otherwise nothing changes |
| CourseLearn.LearnPage.ProgressEffect | lms-charity/client/src/pages/CourseLearnEnhanced.jsx:507-517 | with at least one lesson done the progress is recomputed and the course marked completed once it reaches 100; with none nothing changes |
| CourseLearn.LearnPage.UpdateLessonCompletionStatus | lms-charity/client/src/pages/CourseLearnEnhanced.jsx:619-638 | with at least one lesson done every lesson is flagged by membership in the completed list; with none nothing changes |
| CourseLearn.LearnPage.LessonChangedEffect | lms-charity/client/src/pages/CourseLearnEnhanced.jsx:521-537 | a quiz lesson loads its quiz with no answers and not submitted; any other lesson clears the quiz |
| CourseLearn.LearnPage.SubmitQuiz | lms-charity/client/src/pages/CourseLearnEnhanced.jsx:771-808 | without a quiz nothing changes; otherwise the quiz is marked submitted and scored, and on a pass that the backend accepted the lesson is recorded as completed once |
| CourseLearn.CompletionIsFullProgress | lms-charity/client/src/pages/CourseLearnEnhanced.jsx:684-690 | completing the last outstanding lesson always reads as 100% and reached |
| CourseLearn.FormatTime | lms-charity/client/src/pages/CourseLearnEnhanced.jsx:871-875 | the m:ss text reads back as the whole number of seconds, fractions dropped |
| CourseRoutes.Selected | lms-charity/server/routes/courses.js:24-50 | exactly the courses the query selects, published only and narrowed by search, category, level, featured and instructor, in collection order |
| CourseRoutes.CardOf | lms-charity/server/routes/courses.js:62-68 | a card carries its course, the number of students and lessons, and the total of the lessons' durations |
| CourseRoutes.TotalDurationBounds | lms-charity/server/routes/courses.js:66 | lessons of non-negative length at most a bound give a total between 0 and the bound times the lesson count |
| CourseRoutes.ListCourses | lms-charity/server/routes/courses.js:11-82 | a negative skip fails; otherwise the cards of exactly the pagination window of the selected courses, in order, with the total and page count over all selected courses |
| CourseRoutes.FirstPageListsAll | lms-charity/server/routes/courses.js:52-58 | the first page with a limit covering the total lists every selected course, in order |
| CourseRoutes.ListingOnlyPublished | lms-charity/server/routes/courses.js:25-46 | the listing never shows an unpublished course, and a featured listing only featured ones |
| CourseRoutes.GetCourse | lms-charity/server/routes/courses.js:88-111 | 404 iff the course is unknown; otherwise its card |
| CourseRoutes.NewCourse | lms-charity/server/routes/courses.js:117-142 | a new course is the caller's, unpublished, not featured, without lessons, students, discussions or modules, with a zero rating and the given tags |
| CourseRoutes.CreateCourse | lms-charity/server/routes/courses.js:117-157 | an invalid document fails with 500 and writes nothing; otherwise the course is stored under its id and pushed onto the caller's created courses |
| CourseRoutes.UpdateCourse | lms-charity/server/routes/courses.js:163-189 | 404 for an unknown course, 403 unless the caller is its instructor or an admin, and 500 iff a field the body changes breaks the schema, none of them writing; otherwise the body's fields overwrite the course's |
| CourseRoutes.UpdateToUnknownLevelRefused | lms-charity/server/routes/courses.js:177-181 | setting a course's level outside the schema's list answers 500 and leaves the database as it was |
| CourseRoutes.DeleteCourse | lms-charity/server/routes/courses.js:195-222 | succeeds iff the course exists and the caller may manage it; the course is removed and pulled from its instructor's created courses |
| CourseRoutes.Enroll | lms-charity/server/routes/courses.js:228-270 | 404 for an unknown course and 400 when already enrolled, neither writing; otherwise the caller is enrolled |
| CourseRoutes.EnrollOnce | lms-charity/server/routes/courses.js:236-262 | a success appends one enrolment to the course and one entry to the caller, and a second attempt is refused with 400 and changes nothing |
| CourseRoutes.EnrollKeepsStudentsDistinct | lms-charity/server/routes/courses.js:236-250 | enrolling keeps every course free of duplicate students |
| CourseRoutes.EnrollOn | lms-charity/server/routes/courses.js:228-270 | the handler on the database object ends as the value-level Enroll |
| CourseRoutes.NewLesson | lms-charity/server/routes/courses.js:291-300 | the new lesson is numbered after the existing ones, with no resources unless given and the default quiz unless given |
| CourseRoutes.AddLesson | lms-charity/server/routes/courses.js:276-311 | 404, 403 unless the caller may manage the course, 500 when validation fails, none writing; otherwise the lesson is appended |
| CourseRoutes.AddLessonKeepsNumbering | lms-charity/server/routes/courses.js:296 | adding lessons one by one keeps them numbered 1 to n |
| CourseRoutes.OthersCannotChange | lms-charity/server/routes/courses.js:172-173 | anyone but the instructor or an admin gets 403 from update, delete and add-lesson, and nothing is written |
| CourseRoutes.AddLessonOn | lms-charity/server/routes/courses.js:276-311 | the handler on the database object ends as the value-level AddLesson |
| DiscussionRoutes.AccessAsWritten | lms-charity/server/routes/discussions.js:22-30 | the access test as written throws (500) for any course with at least one enrolment, because it reads `student.user` of an enrolment that stores the student elsewhere |
| DiscussionRoutes.Access | lms-charity/server/routes/discussions.js:22-30 | the intended rule: access succeeds iff the caller is the instructor or an enrolled student, and fails with 403 otherwise |
| DiscussionRoutes.AccessAsWrittenLocksOutEveryone | lms-charity/server/routes/discussions.js:22-30 | an enrolled student, or the instructor of a course with a student, gets 500 from the test as written but is let in by the intended rule |
| DiscussionRoutes.AccessAgreesWithoutEnrolments | lms-charity/server/routes/discussions.js:22-30 | for a course with no enrolments the test as written and the intended rule agree |
| DiscussionRoutes.Discussions | lms-charity/server/routes/discussions.js:10-43 | succeeds iff the course exists and the caller has access, and then answers exactly that course's discussions; an unknown course gives 404 |
| DiscussionRoutes.NewDiscussion | lms-charity/server/routes/discussions.js:69-83 | the new discussion is pinned iff the instructor asked to pin it; its category defaults to 'general'; it starts unresolved with no likes or replies, authored by the caller and stamped now |
| DiscussionRoutes.CreateDiscussion | lms-charity/server/routes/discussions.js:48-105 | an error leaves the database unchanged; success happens iff the course exists and the caller has access, and then appends exactly the new discussion |
| DiscussionRoutes.OnlyInstructorPins | lms-charity/server/routes/discussions.js:70-77 | a discussion opened by anyone but the instructor is never pinned, whatever the request asked |
| DiscussionRoutes.CreateDiscussionOn | lms-charity/server/routes/discussions.js:86-87 | the push and save on the course document leave the database and answer that CreateDiscussion specifies |
| DiscussionRoutes.DiscussionIndex | lms-charity/server/routes/discussions.js:131 | a found index holds a discussion with that id, and nothing is found exactly when no discussion has that id |
| DiscussionRoutes.AddReply | lms-charity/server/routes/discussions.js:110-165 | an unknown course or discussion gives 404 and a caller without access 403, and an error leaves the database unchanged |
| DiscussionRoutes.ReplyProperties | lms-charity/server/routes/discussions.js:131-147 | a reply fails exactly for an unknown course or discussion or a caller without access; on success exactly one reply by the caller is appended to that discussion and no other discussion or course changes |
| DiscussionRoutes.AddReplyOn | lms-charity/server/routes/discussions.js:131-147 | the find, push, stamp and save on the course document leave the database and answer that AddReply specifies |
| Documents.EnrollmentIndex | lms-charity/server/routes/enrollment.js:45-47 | the first enrolment of that student, and nothing iff the student is not enrolled |
| Documents.LessonIndex | lms-charity/server/routes/lessons.js:25 | the index of a lesson with that id, and nothing iff there is none |
| Documents.LessonCountReplace | lms-charity/server/routes/grading.js:53 | replacing a module by one with as many lessons keeps the course's lesson total |
| Documents.ModuleIndex | lms-charity/server/routes/lessons.js:205 | the index of a module with that id, and nothing iff there is none |
| Documents.LessonLocation | lms-charity/server/routes/lessons.js:277-284 | the first module holding a lesson with that id and the lesson's index in it, and nothing iff no module holds one |
| Documents.EnrolledCourseIndex | lms-charity/server/routes/lessons.js:41-43 | the index of the user's entry for that course, and nothing iff there is none |
| Documents.ProgressIndex | lms-charity/server/routes/enrollment.js:58 | the index of the user's record for that course, and nothing iff there is none |
| EnrollmentRoutes.EnrollRefusals | lms-charity/server/routes/enrollment.js:19-65 | an unknown course gives 404; an unpublished course, the course's own instructor, an enrolled student or an existing progress record gives 400; a refusal writes nothing |
| EnrollmentRoutes.EnrollSuccessEffects | lms-charity/server/routes/enrollment.js:67-141 | a successful enrolment appends one entry to the course's students and one to the user's courses, counts one enrolment and creates a 0% record, and nothing else changes |
| EnrollmentRoutes.EnrollKeepsInvariant | lms-charity/server/routes/enrollment.js:44-103 | enrolment keeps each course's students distinct and each user and course with at most one progress record |
| EnrollmentRoutes.EnrollTwiceRefused | lms-charity/server/routes/enrollment.js:44-56 | after a successful enrolment the same request is refused with 400 |
| EnrollmentRoutes.EnrollIn | lms-charity/server/routes/enrollment.js:15-171 | the handler on the database object ends in the state and response the value-level Enroll gives |
| EnrollmentRoutes.CertificateOf | lms-charity/server/routes/enrollment.js:210 | the certificate found is the user's for the course, and nothing is found only when there is none |
| EnrollmentRoutes.StatusAgreesWithEnroll | lms-charity/server/routes/enrollment.js:179-243 | a not-enrolled status says the user can enrol exactly when the enrolment handler would accept, and after enrolling the status reads enrolled at 0% |
| EnrollmentRoutes.ClampedScore | lms-charity/server/routes/enrollment.js:295 | the stored score lies in 0 to 100 and a score already in range is kept |
| EnrollmentRoutes.RecordCompletionKeepsRange | lms-charity/server/routes/enrollment.js:289-307 | recording a completion keeps every stored quiz score within 0 to 100 |
| EnrollmentRoutes.RecordCompletionOnce | lms-charity/server/routes/enrollment.js:284-307 | a first completion adds exactly one entry, a repeat none, and the total time grows by the clamped time either way |
| EnrollmentRoutes.ZeroScoreQuirk | lms-charity/server/routes/enrollment.js:295-305 | a quiz score of 0 is dropped on a first completion but stored on a repeat |
| EnrollmentRoutes.StreakByDayCases | lms-charity/server/routes/enrollment.js:313-323 | the same calendar day keeps the record; the day after grows the streak by one; any other day restarts it at 1; the last active date becomes now when it changes |
| EnrollmentRoutes.StreakByDaySameDay | lms-charity/server/routes/enrollment.js:313-323 | two updates on the same day count once |
| EnrollmentRoutes.CompletionScoreWithin | lms-charity/server/routes/enrollment.js:516-522 | with scores in range the certificate's average lies within 0 to 100 |
| EnrollmentRoutes.CompletionCertificateSaves | lms-charity/server/routes/enrollment.js:510-542 | with scores in range the completion certificate saves, with the grade the ladder gives its score |
| EnrollmentRoutes.RecordsWith | lms-charity/server/routes/enrollment.js:271-282 | the handler always ends up with a record for the user and course, found or created |
| EnrollmentRoutes.EnrollmentAfter | lms-charity/server/routes/enrollment.js:328-331 | the lesson is in the enrolment's completed list afterwards, and a list without duplicates stays without them |
| EnrollmentRoutes.CompletionStepFacts | lms-charity/server/routes/enrollment.js:310-383 | one step succeeds iff the percentage stays within 100, touches only this record, keeps its owner, and moves the completion counter by one exactly when the side effects fire |
| EnrollmentRoutes.CompletionStep | lms-charity/server/routes/enrollment.js:310-383 | the save, enrolment update and completion side effects of the lesson-progress route; its contract is stated by the CompletionStepFacts and CompletionCountedOnce rows |
| EnrollmentRoutes.AdvancedKeepsOwner | lms-charity/server/routes/enrollment.js:284-323 | recording, recalculating and the streak keep the record's user and course |
| EnrollmentRoutes.StreakKeepsRecord | lms-charity/server/routes/enrollment.js:313-323 | the streak update touches only the streak and its date |
| EnrollmentRoutes.SavedStepFacts | lms-charity/server/routes/enrollment.js:325-383 | the save and its side effects touch only this record, keep its owner, and count a completion only when they fire |
| EnrollmentRoutes.AsWrittenNeverCompletes | lms-charity/server/routes/enrollment.js:310-338 | as written, the completion side effects never happen, because calculateProgress has already set the completed flag |
| EnrollmentRoutes.AsWrittenMissesOnlyLesson | lms-charity/server/routes/enrollment.js:250-400 | as written, a learner completing the only lesson of a course gets a 100% response, yet the completion count and the enrolment's certificate flag stay as they were |
| EnrollmentRoutes.CorrectedCountsOnlyLesson | lms-charity/server/routes/enrollment.js:250-400 | corrected, the same request answers 100%, adds one to the course's completions and marks the learner's enrolment as holding a certificate |
| EnrollmentRoutes.RecordsWithFacts | lms-charity/server/routes/enrollment.js:271-282 | the record found or created has the stored record's completion state, if one was stored |
| EnrollmentRoutes.CompletionCountedOnce | lms-charity/server/routes/enrollment.js:334-349 | corrected, the side effects fire exactly when this request takes the record to 100% from not completed, and the record is then completed so they do not repeat |
| EnrollmentRoutes.LessonProgressPercentWithin | lms-charity/server/routes/enrollment.js:384-398 | a successful update reports a percentage within 0 to 100 |
| EnrollmentRoutes.RecordOn | lms-charity/server/routes/enrollment.js:284-307 | recording on the fetched document leaves it as RecordCompletion specifies |
| EnrollmentRoutes.RecordCompletion | lms-charity/server/routes/enrollment.js:284-307 | one lesson completion recorded on the progress record; its contract is stated by the RecordCompletionOnce and RecordCompletionKeepsRange rows |
| EnrollmentRoutes.DayStreakOn | lms-charity/server/routes/enrollment.js:313-323 | the streak update on the fetched document leaves it as StreakByDay specifies |
| EnrollmentRoutes.RunCompletionStep | lms-charity/server/routes/enrollment.js:284-383 | the step on the mutable documents ends as the value-level CompletionStep |
| EnrollmentRoutes.SaveStep | lms-charity/server/routes/enrollment.js:325-383 | the save, enrolment update and side effects on the mutable documents end as the value-level SavedStep |
| EnrollmentRoutes.UpdateLessonProgress | lms-charity/server/routes/enrollment.js:250-408 | the handler on the mutable documents ends as the value-level LessonProgress |
| EnrollmentRoutes.Populate | lms-charity/server/routes/enrollment.js:426-433 | a populated course keeps its id, and has isPublished exactly when that field is selected |
| EnrollmentRoutes.MyRecords | lms-charity/server/routes/enrollment.js:419-434 | the user's records matching the status filter, all of them and only them, most recently accessed first |
| EnrollmentRoutes.MyCourseOf | lms-charity/server/routes/enrollment.js:445-478 | an entry keeps its record's course and access time, and shows a certificate only for a completed record, the user's certificate for that course |
| EnrollmentRoutes.UserCounts | lms-charity/server/routes/enrollment.js:482-485 | the completed count never exceeds the total |
| EnrollmentRoutes.PageEntries | lms-charity/server/routes/enrollment.js:445-478 | one entry per record on the page, in order, with its course and access time |
| EnrollmentRoutes.MyCourses | lms-charity/server/routes/enrollment.js:415-506 | a negative skip fails with 500; a page holds at most the limit, most recently accessed first, and the in-progress count is the total less the completed |
| EnrollmentRoutes.EnrolledEntryOf | lms-charity/server/routes/enrollment.js:650-670 | an entry keeps its record's course and access time and counts the lessons of all its modules |
| EnrollmentRoutes.EnrolledCourses | lms-charity/server/routes/enrollment.js:630-681 | every entry is the user's, for an existing published course, with its lesson total; every record of the user for an existing published course has its entry; the entries are most recently accessed first |
| EnrollmentRoutes.CompletedCoursesAlwaysEmpty | lms-charity/server/routes/enrollment.js:687-720 | the completed-courses listing is always empty, because isPublished is not selected and the published filter drops everything |
| FileTypeDetection.ParseTag | lms-charity/client/src/utils/fileTypeDetection.js:115-155 | a name read back as a tag is that tag's own name, and a name that is no tag's name reads back as none |
| FileTypeDetection.TagRoundTrip | lms-charity/client/src/utils/fileTypeDetection.js:115-155 | every tag's name reads back as that tag |
| FileTypeDetection.ExtensionType | lms-charity/client/src/utils/fileTypeDetection.js:12-95 | the extension table never yields tutorial, article, reference or link |
| FileTypeDetection.CleanUrl | lms-charity/client/src/utils/fileTypeDetection.js:6 | the cleaned URL is never longer than the URL |
| FileTypeDetection.ExtensionShape | lms-charity/client/src/utils/fileTypeDetection.js:6-9 | the cleaned URL has no query or fragment left, and the extension has no dot, question mark or hash |
| FileTypeDetection.DetectFileType | lms-charity/client/src/utils/fileTypeDetection.js:2-112 | a missing, non-string or empty URL is a link; otherwise a host rule, when one applies, decides; else the extension's table entry, or link |
| FileTypeDetection.DetectFileTypeAsWritten | lms-charity/client/src/utils/fileTypeDetection.js:111 | the as-written lookup yields something other than a tag only for an extension that is an inherited key of the table |
| FileTypeDetection.AsWrittenAgreesOffPrototype | lms-charity/client/src/utils/fileTypeDetection.js:111 | apart from inherited keys the as-written lookup and the model agree on every URL |
| FileTypeDetection.NoHostRuleWithoutLetters | lms-charity/client/src/utils/fileTypeDetection.js:98-108 | no host rule applies to a URL lacking the letters y, v, g, k, m, h and w |
| FileTypeDetection.CleanUrlWithoutQuery | lms-charity/client/src/utils/fileTypeDetection.js:6 | without a query or fragment the cleaned URL is the lower-cased URL |
| FileTypeDetection.ExtensionAfterDot | lms-charity/client/src/utils/fileTypeDetection.js:9 | for a lower-case URL without query or fragment the extension is what follows the last dot |
| FileTypeDetection.CleanUrlOfQuery | lms-charity/client/src/utils/fileTypeDetection.js:6 | everything from the first question mark on is dropped, a hash in the query included |
| FileTypeDetection.ExtensionDecidesWithoutHostRule | lms-charity/client/src/utils/fileTypeDetection.js:110-111 | when no host rule applies the extension table decides, link by default |
| FileTypeDetection.UppercaseExtensionWithQueryAndFragment | lms-charity/client/src/utils/fileTypeDetection.js:6-9 | X.PDF?a=1#b is a PDF: query and fragment are dropped and the extension compared lower-cased |
| FileTypeDetection.GithubPdfIsCode | lms-charity/client/src/utils/fileTypeDetection.js:100 | a host rule wins over the extension: a PDF on github.com is code |
| FileTypeDetection.ShortYoutubeLinkIsVideo | lms-charity/client/src/utils/fileTypeDetection.js:98 | a youtu.be link is a video whatever its extension |
| FileTypeDetection.GithubIsCodeHost | lms-charity/client/src/utils/fileTypeDetection.js:100 | github.com matches the code-host rule |
| FileTypeDetection.UppercaseHostIgnored | lms-charity/client/src/utils/fileTypeDetection.js:98-108 | host rules read the original text, so GITHUB.COM matches no rule although its lower-case form does |
| FileTypeDetection.DocsHostPaths | lms-charity/client/src/utils/fileTypeDetection.js:104-108 | on docs.google.com, once no earlier host matched, a document, spreadsheet or presentation path decides the tag |
| FileTypeDetection.DocsHostWithoutDocumentPath | lms-charity/client/src/utils/fileTypeDetection.js:104-108 | a docs.google.com URL naming no other host and none of the three paths gets no host rule |
| FileTypeDetection.GoogleFormHasNoHostRule | lms-charity/client/src/utils/fileTypeDetection.js:98-108 | docs.google.com/f matches no host rule |
| FileTypeDetection.GoogleFormFallsThrough | lms-charity/client/src/utils/fileTypeDetection.js:104-111 | a docs.google.com URL that is not a document, sheet or deck falls through to the extension table, here to link |
| FileTypeDetection.HostOnlyTags | lms-charity/client/src/utils/fileTypeDetection.js:101-103 | tutorial, article and reference come only from their host rules |
| FileTypeDetection.AsWrittenInheritedExtension | lms-charity/client/src/utils/fileTypeDetection.js:111 | with no host rule and the extension constructor, the source's lookup yields that inherited member instead of a tag, while the model gives link |
| FileTypeDetection.AsWrittenConstructorExtension | lms-charity/client/src/utils/fileTypeDetection.js:111 | for the URL a.constructor the source's lookup returns a value that is not a tag |
| FileTypeDetection.LookupsTotalOnTags | lms-charity/client/src/utils/fileTypeDetection.js:115-155 | both tables cover every tag detectFileType can return, and no tag's display name is the fallback 'Link' |
| FileTypeDetection.LookupsDefaultOffTags | lms-charity/client/src/utils/fileTypeDetection.js:133-155 | a name that is no tag's gets the default icon and the display name 'Link' |
| FileTypeDetection.DisplayNamesDistinct | lms-charity/client/src/utils/fileTypeDetection.js:138-153 | different tags have different display names |
| FileUploadResource.ValidateFile | lms-charity/client/src/components/FileUploadResource.jsx:34-56 | a file is refused as too large iff over the size limit; else as of a type not allowed iff no listed type matches; else as one too many iff the stored resources reach the limit; and accepted iff all three checks pass |
| FileUploadResource.TrailingCommaAllowsAll | lms-charity/client/src/components/FileUploadResource.jsx:40-45 | a trailing comma in the allowed-types setting lists the empty type, which occurs in every MIME type, so every file type is then allowed |
| FileUploadResource.ResourceType | lms-charity/client/src/components/FileUploadResource.jsx:73-78 | the stored kind is one of video, pdf, image and document, and is pdf iff the MIME type is exactly application/pdf |
| FileUploadResource.StoredKindIcon | lms-charity/client/src/components/FileUploadResource.jsx:22-32 | the list shows the icon of the stored kind, so a stored video or image shows the generic icon although its MIME type has its own |
| FileUploadResource.HandleFileUpload | lms-charity/client/src/components/FileUploadResource.jsx:58-98 | the files refused are exactly those ValidateFile refuses, and the accepted ones are appended after the stored resources only when at least one was accepted |
| FileUploadResource.EachFileOnce | lms-charity/client/src/components/FileUploadResource.jsx:62-91 | every file is either accepted or refused, never both; the accepted ones pass every check and keep their order; with the limit already reached none is accepted |
| FileUploadResource.BatchExceedsLimit | lms-charity/client/src/components/FileUploadResource.jsx:51-52 | the count is checked against the resources stored before the batch, so with a limit of one file two acceptable files are both added |
| FileUploadResource.RemoveResource | lms-charity/client/src/components/FileUploadResource.jsx:114-117 | the resources kept are exactly those with a different id |
| GradingCenter.StatusOf | lms-charity/client/src/components/GradingCenter.jsx:90-94 | the status is Graded iff a grade is present, Late iff ungraded and submitted after a readable due date, so a missing due date never makes a submission late |
| GradingCenter.ColorFollowsStatus | lms-charity/client/src/components/GradingCenter.jsx:84-88 | the colour follows the status: green for graded, red for late, yellow for pending |
| GradingCenter.LowerStatusText | lms-charity/client/src/components/GradingCenter.jsx:72 | the status texts the filter compares are "graded", "late" and "pending" |
| GradingCenter.FilteredSubmissions | lms-charity/client/src/components/GradingCenter.jsx:71-82 | a submission is shown iff it is one of the submissions and passes the status and name tests, in the original order |
| GradingCenter.FilterOptions | lms-charity/client/src/components/GradingCenter.jsx:71-82 | 'all' with no search shows every submission; 'graded' shows exactly the graded ones; the 'ungraded' option shows nothing, since no status reads "ungraded" |
| GradingCenter.Percentage | lms-charity/client/src/components/GradingCenter.jsx:366-369 | no grade or no maximum gives 0; otherwise the grade as a percentage of the maximum, rounded half up |
| GradingCenter.PercentageRange | lms-charity/client/src/components/GradingCenter.jsx:366-369 | a grade between 0 and the maximum shows 0 to 100%, and the full maximum shows 100% |
| GradingCenter.ColorFollowsLetter | lms-charity/client/src/components/GradingCenter.jsx:371-378 | each letter grade has its own colour band |
| GradingCenter.LetterThresholds | lms-charity/client/src/components/GradingCenter.jsx:516-519 | the letter is A iff the grade is at least 89.5% of the maximum, and F iff it is below 59.5%, since the percentage is rounded first |
| GradingCenter.LetterMonotone | lms-charity/client/src/components/GradingCenter.jsx:516-519 | a higher grade never earns a lower letter |
| GradingCenter.CompletionLabel | lms-charity/client/src/components/GradingCenter.jsx:183 | the label is Complete iff a submissions list exists and every submission in it is graded, else Pending |
| GradingCenter.SubmissionCount | lms-charity/client/src/components/GradingCenter.jsx:174 | a missing submissions list counts 0, otherwise its length |
| GradingCenter.CompletionEdgeCases | lms-charity/client/src/components/GradingCenter.jsx:183 | an empty submissions list reads Complete while a missing one reads Pending, and grading the one ungraded submission turns the label to Complete |
| GradingRoutes.SubmissionIn | lms-charity/server/routes/grading.js:27-28 | the index found holds a submission with that id in the lesson's assignment, and nothing is found iff the lesson has no assignment or no such submission |
| GradingRoutes.LessonWithSubmission | lms-charity/server/routes/grading.js:26-34 | the first lesson of a module holding the submission, with the submission's index; nothing iff no lesson holds it |
| GradingRoutes.SubmissionPlace | lms-charity/server/routes/grading.js:25-37 | the first module holding the submission, then its first lesson holding it; nothing iff no module holds it |
| GradingRoutes.PlaceFoundIffHeld | lms-charity/server/routes/grading.js:25-41 | the search finds a valid place holding the submission exactly when the course holds it |
| GradingRoutes.FindInModule | lms-charity/server/routes/grading.js:26-34 | the inner loop with its break finds what LessonWithSubmission specifies |
| GradingRoutes.FindSubmission | lms-charity/server/routes/grading.js:25-37 | the two loops with their breaks find what SubmissionPlace specifies |
| GradingRoutes.WithSubmissionAt | lms-charity/server/routes/grading.js:43-46 | the submission at the place is replaced, and the modules, their ids, the lesson count and everything else of the course stay |
| GradingRoutes.Regraded | lms-charity/server/routes/grading.js:43-46 | the grade, feedback and status are the new ones and the grading time is now; the student, content, essay and submission time stay |
| GradingRoutes.Approved | lms-charity/server/routes/grading.js:48-56 | approval changes only the enrolments of the course |
| GradingRoutes.ApprovedCreditsOnce | lms-charity/server/routes/grading.js:48-56 | the lesson ends up in the student's enrolment once, the progress is the rounded share of all lessons, and approving twice is approving once |
| GradingRoutes.GradedCourse | lms-charity/server/routes/grading.js:43-58 | the graded submission is stored at its place; only the modules and enrolments change, and the enrolments only on approval |
| GradingRoutes.GradeNotFound | lms-charity/server/routes/grading.js:17-41 | 404 iff no course holds the submission |
| GradingRoutes.GradeSucceeded | lms-charity/server/routes/grading.js:12-60 | a successful grading replaces the submission's course by the graded course and changes nothing else |
| GradingRoutes.GradeStoresSubmission | lms-charity/server/routes/grading.js:43-58 | the stored submission carries the new grade, feedback, status and time |
| GradingRoutes.GradeTouchesOneCourse | lms-charity/server/routes/grading.js:43-58 | only the course holding the submission changes, and its enrolments only on approval |
| GradingRoutes.GradeApprovalCredits | lms-charity/server/routes/grading.js:48-56 | approving an enrolled student's submission credits its lesson to that student's enrolment |
| GradingRoutes.RegradeCourse | lms-charity/server/routes/grading.js:43-56 | the course document's updates in the handler's order give GradedCourse |
| GradingRoutes.GradeOn | lms-charity/server/routes/grading.js:12-64 | the handler on the database object ends as the value-level GradeSubmission |
| GradingRoutes.GradeSubmission | lms-charity/server/routes/grading.js:12-64 | the grading route as a function of the database: 404 when no course holds the submission, otherwise the regraded course and, on approval, the credited enrolment; its contract is stated by the GradeNotFound, GradeSucceeded, GradeStoresSubmission, GradeTouchesOneCourse and GradeApprovalCredits rows |
| GradingRoutes.GradeAt | lms-charity/server/routes/grading.js:43-58 | once found, the submission at the place is regraded and stored back |
| GradingRoutes.ScoreEssay | lms-charity/server/routes/grading.js:69-81 | an empty text gives 400; otherwise the scoring service's answer is sent with 200, even when it reports a failure |
| InstructorRoutes.VisitsOf | lms-charity/server/routes/instructor.js:22-24 | one visit per enrolment of the course, in order, carrying the course's id and title |
| InstructorRoutes.AverageRatingBounds | lms-charity/server/routes/instructor.js:35-38 | ratings on the 0 to 5 scale give an average, in tenths, between 0 and 5, and 0 for an instructor without courses |
| InstructorRoutes.Recent | lms-charity/server/routes/instructor.js:44-55 | exactly the enrolments made in the last 30 days |
| InstructorRoutes.InstructorStats | lms-charity/server/routes/instructor.js:11-84 | the course count is the number of courses, the published count those published and the drafts the rest; the students are the distinct enrolled ids, the recent enrolments those of the last thirty days, the certificates the enrolments with one issued, and the average rating the mean in tenths |
| InstructorRoutes.Breakdown | lms-charity/server/routes/instructor.js:82-90 | one row per course, in order, with its enrolment count, publication flag and status, 'draft' when missing |
| InstructorRoutes.TakenIffEnrolled | lms-charity/server/routes/instructor.js:114-146 | a student has taken a course iff they are among the enrolled students, and has finished no more courses than taken |
| InstructorRoutes.CollectedShape | lms-charity/server/routes/instructor.js:112-146 | the map's insertion order lists each key exactly once |
| InstructorRoutes.CollectedKeys | lms-charity/server/routes/instructor.js:116-134 | the map has a row for exactly the existing students with an enrolment |
| InstructorRoutes.CollectedRow | lms-charity/server/routes/instructor.js:135-146 | a row's courses, progress total and completed count are those of the student's enrolments |
| InstructorRoutes.Summaries | lms-charity/server/routes/instructor.js:158-163 | one summary per key in insertion order, each averaging the student's progress |
| InstructorRoutes.Unsorted | lms-charity/server/routes/instructor.js:158-163 | the summaries before sorting, one per collected student |
| InstructorRoutes.StudentsOf | lms-charity/server/routes/instructor.js:105-175 | the summaries as a permutation, newest first enrolment first, with the total, and the active and completed counts as the numbers of summaries that are active or have completed a course |
| InstructorRoutes.StudentsListed | lms-charity/server/routes/instructor.js:116-134 | a student is listed iff they are an existing user enrolled in one of the courses |
| InstructorRoutes.StudentFigures | lms-charity/server/routes/instructor.js:135-163 | a listed student's figures are those of their enrolments, the average being the rounded mean of their progress |
| InstructorRoutes.StudentsDistinct | lms-charity/server/routes/instructor.js:112-166 | no student is listed twice |
| InstructorRoutes.StatsAgreeWithStudents | lms-charity/server/routes/instructor.js:22-25 | when every enrolled student still exists, the overview's distinct student count equals the length of the students list |
| InstructorRoutes.AverageProgressBounds | lms-charity/server/routes/instructor.js:158-163 | progress values in 0 to 100 give averages in 0 to 100 |
| InstructorRoutes.Record | lms-charity/server/routes/instructor.js:116-146 | the inner body records one enrolment as Visited specifies |
| InstructorRoutes.CollectCourse | lms-charity/server/routes/instructor.js:115-146 | the inner loop over one course's enrolments extends the map as Collected specifies |
| InstructorRoutes.CollectStudents | lms-charity/server/routes/instructor.js:114-147 | the outer loop over the courses builds the map Collected specifies |
| LessonCreationModal.BlankTitleBlocksSubmit | lms-charity/client/src/components/LessonCreationModal_Simple.jsx:17-22 | a lesson whose title is only spaces is never submitted, whatever its description |
| LessonCreationModal.ChangeType | lms-charity/client/src/components/LessonCreationModal_Simple.jsx:79-102 | a type change keeps the title, description and resources; it keeps the video URL and a non-zero duration only for a video and the content only for a text lesson, clears them otherwise, and gives a quiz or assignment fresh defaults |
| LessonCreationModal.ChangeTypeSettles | lms-charity/client/src/components/LessonCreationModal_Simple.jsx:79-102 | choosing the same type twice is choosing it once, and any change of type discards quiz questions already written |
| LessonCreationModal.WithQuestions | lms-charity/client/src/components/LessonCreationModal_Simple.jsx:213-221 | replacing the questions keeps the quiz's time limit and passing score and every other field of the lesson |
| LessonCreationModal.SetTimeLimit | lms-charity/client/src/components/LessonCreationModal_Simple.jsx:169-178 | typing a time limit changes only the quiz's time limit |
| LessonCreationModal.SetPassingScore | lms-charity/client/src/components/LessonCreationModal_Simple.jsx:187-195 | typing a passing score changes only the quiz's passing score |
| LessonCreationModal.SettingsShowBack | lms-charity/client/src/components/LessonCreationModal_Simple.jsx:169-192 | the fields show back what was typed, except that zero or text that is not a number shows the defaults of 5 minutes and 70% |
| LessonCreationModal.AddQuestion | lms-charity/client/src/components/LessonCreationModal_Simple.jsx:299-312 | the questions gain one at the end, with four blank options and the first marked correct; the earlier questions stay |
| LessonCreationModal.RemoveQuestion | lms-charity/client/src/components/LessonCreationModal_Simple.jsx:213-221 | the questions lose exactly the one at that index |
| LessonCreationModal.SetQuestionText | lms-charity/client/src/components/LessonCreationModal_Simple.jsx:233-246 | only that question's text changes; the other questions stay |
| LessonCreationModal.SelectAnswer | lms-charity/client/src/components/LessonCreationModal_Simple.jsx:257-270 | only that question's correct answer changes, to the option clicked |
| LessonCreationModal.WithInstructions | lms-charity/client/src/components/LessonCreationModal_Simple.jsx:376-385 | replacing the instructions changes nothing else of the assignment or the lesson |
| LessonCreationModal.AddInstruction | lms-charity/client/src/components/LessonCreationModal_Simple.jsx:411-418 | the instructions gain one blank line at the end, the earlier ones unchanged |
| LessonCreationModal.ChangeInstruction | lms-charity/client/src/components/LessonCreationModal_Simple.jsx:376-385 | only the instruction at that index takes the new text |
| LessonCreationModal.RemoveInstruction | lms-charity/client/src/components/LessonCreationModal_Simple.jsx:392-400 | the instructions lose exactly the one at that index |
| LessonCreationModal.AddResource | lms-charity/client/src/components/LessonCreationModal_Simple.jsx:572-577 | the resources gain an empty link at the end, the earlier ones unchanged, and nothing else changes |
| LessonCreationModal.ChangeResource | lms-charity/client/src/components/LessonCreationModal_Simple.jsx:501-545 | only the resource at that index changes, and only in the field edited |
| LessonCreationModal.RemoveResource | lms-charity/client/src/components/LessonCreationModal_Simple.jsx:556-561 | the resources lose exactly the one at that index, and nothing else changes |
| LessonCreationModal.AddThenRemove | lms-charity/client/src/components/LessonCreationModal_Simple.jsx:213-577 | removing the question, instruction or resource just added gives back the lesson as it was |
| LessonRoutes.CompletedEntry | lms-charity/server/routes/lessons.js:50-57 | the lesson ends up in the entry; a lesson already there leaves the entry unchanged; otherwise it is appended once and the percentage is the rounded share of the course's lessons |
| LessonRoutes.CompleteLessonRefusals | lms-charity/server/routes/lessons.js:11-47 | a missing course id gives 400, an unknown course or lesson 404, a learner not enrolled 403, a missing enrolment entry 404; a refusal writes nothing |
| LessonRoutes.CompleteLessonEffects | lms-charity/server/routes/lessons.js:48-66 | a completion adds the lesson to the user's entry at most once, sets the percentage to round(100 * completed / lessons), and touches nothing but that entry |
| LessonRoutes.CompleteLessonTwice | lms-charity/server/routes/lessons.js:50-58 | completing the same lesson twice is completing it once |
| LessonRoutes.CompleteLessonOn | lms-charity/server/routes/lessons.js:11-73 | the route on the database object ends as the value-level CompleteLesson |
| LessonRoutes.CompleteLesson | lms-charity/server/routes/lessons.js:11-73 | the lesson-completion route as a function of the database; its contract is stated by the CompleteLessonRefusals, CompleteLessonEffects and CompleteLessonTwice rows |
| LessonRoutes.LessonProgress | lms-charity/server/routes/lessons.js:79-107 | the progress succeeds iff the user, the entry and the course exist, and reports the course's lesson count with the entry's completions |
| LessonRoutes.CountCorrect | lms-charity/server/routes/lessons.js:146-150 | the correct answers among the first n questions are at most n |
| LessonRoutes.QuizReportProperties | lms-charity/server/routes/lessons.js:145-170 | one result per question, correct iff the answer equals the key; a score in 0 to 100 that is the rounded share of correct answers, so 199 right of 200 already gives 100; a pass iff the score reaches the pass mark |
| LessonRoutes.QuizScoreMonotone | lms-charity/server/routes/lessons.js:162 | more correct answers never lower the score |
| LessonRoutes.GradeQuiz | lms-charity/server/routes/lessons.js:145-163 | the scoring loop produces the report QuizReportOf specifies |
| LessonRoutes.SubmitQuiz | lms-charity/server/routes/lessons.js:114-179 | a success needs both the course id and the answers, an existing course and an enrolled learner, and reports the quiz's score; nothing is stored |
| LessonRoutes.SubmitQuizOn | lms-charity/server/routes/lessons.js:114-179 | the route with the scoring loop answers as SubmitQuiz |
| LessonRoutes.WithSubmission | lms-charity/server/routes/lessons.js:244-252 | exactly one lesson's assignment gains the submission; every other module and lesson and every other field of the course stay |
| LessonRoutes.SubmitEssayOnce | lms-charity/server/routes/lessons.js:189-264 | an essay is stored only for an enrolled student with no earlier submission to that lesson, exactly one submission is added, and a second essay is refused with 409 |
| LessonRoutes.SubmitEssay | lms-charity/server/routes/lessons.js:189-264 | the essay route as a function of the database and the scoring service's answer; its contract is stated by the SubmitEssayOnce row |
| LessonRoutes.SubmitAssignmentEffects | lms-charity/server/routes/lessons.js:269-309 | the submission is appended to exactly the one lesson's assignment, and a user who is not enrolled can submit too |
| LessonRoutes.SubmitAssignment | lms-charity/server/routes/lessons.js:269-309 | the assignment route as a function of the database; its contract is stated by the SubmitAssignmentEffects row |
| LessonRoutes.FindLesson | lms-charity/server/routes/lessons.js:277-284 | the loop with its break finds the first module holding the lesson, as LessonLocation specifies |
| MyLearning.TabCourses | lms-charity/client/src/pages/MyLearningEnhanced.jsx:130-142 | the learning tab starts from the enrolled courses below 100%, the completed and wishlist tabs from their lists, and any other tab from every enrolled course |
| MyLearning.Visible | lms-charity/client/src/pages/MyLearningEnhanced.jsx:144-155 | a course is shown iff it is on the tab's list and matches the search term and the category, where an empty term and 'all' keep everything |
| MyLearning.DisplayedIsSortedVisible | lms-charity/client/src/pages/MyLearningEnhanced.jsx:127-176 | the list shown holds the visible courses, each as often as before, in the order chosen |
| MyLearning.Displayed | lms-charity/client/src/pages/MyLearningEnhanced.jsx:127-176 | the list the page shows; its contract is stated by the DisplayedIsSortedVisible row |
| MyLearning.TitleOrderAscending | lms-charity/client/src/pages/MyLearningEnhanced.jsx:165-167 | under the 'title' order an earlier position never holds a later title in the collation |
| MyLearning.LearningCount | lms-charity/client/src/pages/MyLearningEnhanced.jsx:211 | the learning tab's count is the size of the learning tab's list, at most the number of enrolled courses |
| MyLearning.MyLearningPage.constructor | lms-charity/client/src/pages/MyLearningEnhanced.jsx:41-59 | the page opens on the learning tab, sorted by recent, with no search and the 'all' category |
| MyLearning.MyLearningPage.FilteredCourses | lms-charity/client/src/pages/MyLearningEnhanced.jsx:127-176 | returns the displayed list; when no filter has made a copy, the in-place sort leaves the page's own state list reordered, and the settings are unchanged |
| MyLearning.MyLearningPage.TabList | lms-charity/client/src/pages/MyLearningEnhanced.jsx:128-155 | gives the visible list, and whether it is still the state list itself, which happens iff the tab is not 'learning' and neither search nor category filtered |
| MyLearning.ContinueWatching | lms-charity/client/src/pages/MyLearningEnhanced.jsx:178-183 | the continue-watching list; its contract is stated by the ContinueWatchingShape row |
| MyLearning.ContinueWatchingShape | lms-charity/client/src/pages/MyLearningEnhanced.jsx:178-183 | exactly min(4, started) courses, all started and unfinished, most recently accessed first; no started course left out was accessed more recently than one shown, and with at most four started courses all of them are shown |
| MyLearning.Recommended | lms-charity/client/src/pages/MyLearningEnhanced.jsx:185-194 | the recommended list; its contract is stated by the RecommendedShape row |
| MyLearning.RecommendedShape | lms-charity/client/src/pages/MyLearningEnhanced.jsx:185-194 | the first three enrolled courses that are unstarted and in a category of some completed course, in enrolment order, or all of them when fewer; none without completed courses |
| MyLearning.FormatDuration | lms-charity/client/src/pages/MyLearningEnhanced.jsx:196-201 | the text reads back as the number of minutes, and contains an hour part iff the duration is an hour or more |
| MyLearning.ProgressColorBands | lms-charity/client/src/pages/MyLearningEnhanced.jsx:203-208 | the colours are four bands of 25 points each, red, yellow, blue and green, the last band open-ended |
| NotificationCenter.QueryFor | lms-charity/client/src/components/NotificationCenter.jsx:22 | the query asks for that page with a size of 20, and for unread notifications exactly under the 'unread' filter |
| NotificationCenter.MarkRead | lms-charity/client/src/components/NotificationCenter.jsx:48-54 | the list keeps its length; exactly the notifications with that id become read at the given time |
| NotificationCenter.MarkAllRead | lms-charity/client/src/components/NotificationCenter.jsx:64-66 | the list keeps its length; every notification becomes read at the given time |
| NotificationCenter.Without | lms-charity/client/src/components/NotificationCenter.jsx:76 | exactly the notifications with a different id are kept |
| NotificationCenter.MarkReadCount | lms-charity/client/src/components/NotificationCenter.jsx:45-58 | with distinct ids, marking one read lowers the unread notifications in the list by one exactly when it was there and unread |
| NotificationCenter.MarkAllReadCount | lms-charity/client/src/components/NotificationCenter.jsx:61-70 | after marking all read nothing in the list is unread |
| NotificationCenter.WithoutCount | lms-charity/client/src/components/NotificationCenter.jsx:73-80 | with distinct ids, deleting one lowers the unread notifications in the list by one exactly when it was there and unread |
| NotificationCenter.CounterGap | lms-charity/client/src/components/NotificationCenter.jsx:45-80 | marking a loaded unread notification read keeps the gap between the counter and the list's unread ones, while deleting one widens it by one |
| NotificationCenter.Panel.constructor | lms-charity/client/src/components/NotificationCenter.jsx:8-14 | the panel starts closed, empty, not loading, at page 1 with more pages, under the 'all' filter |
| NotificationCenter.Panel.StartFetch | lms-charity/client/src/components/NotificationCenter.jsx:17-22 | without a user nothing happens; otherwise the panel is loading and the query for that page under the current filter goes out |
| NotificationCenter.Panel.FinishFetch | lms-charity/client/src/components/NotificationCenter.jsx:24-36 | a reset replaces the list and a page fetch appends to it; the counter comes from the answer and more pages remain while the current page is before the last; a failure keeps the list; loading ends either way |
| NotificationCenter.Panel.MarkAsRead | lms-charity/client/src/components/NotificationCenter.jsx:45-58 | on success the notifications with that id are read and the counter drops by one; nothing else changes |
| NotificationCenter.Panel.MarkAllAsRead | lms-charity/client/src/components/NotificationCenter.jsx:61-70 | on success everything is read and the counter is zero; nothing else changes |
| NotificationCenter.Panel.DeleteNotification | lms-charity/client/src/components/NotificationCenter.jsx:73-80 | on success the notifications with that id go, and the counter is left as it was |
| NotificationCenter.Panel.LoadMore | lms-charity/client/src/components/NotificationCenter.jsx:82-88 | only when not loading and more pages remain, the page advances by one and that page is requested, to be appended |
| NotificationCenter.Panel.SelectFilter | lms-charity/client/src/components/NotificationCenter.jsx:39-43 | the filter is set and the page goes back to 1; the reset fetch follows only when the filter changed |
| NotificationCenter.Panel.ToggleOpen | lms-charity/client/src/components/NotificationCenter.jsx:121 | the bell toggles the panel open and closed and changes nothing else |
| NotificationCenter.SameFilterReloadsPage | lms-charity/client/src/components/NotificationCenter.jsx:39-88 | re-clicking the selected filter after two pages sends the page back to 1 without reloading, so the next load-more fetches page 2 again and appends it twice |
| NotificationCenter.Badge | lms-charity/client/src/components/NotificationCenter.jsx:126-135 | no badge unless the counter is positive, "99+" above 99, else the count's digits |
| NotificationCenter.Icon | lms-charity/client/src/components/NotificationCenter.jsx:90-105 | a listed type shows its own icon, and the bell marks exactly the types not listed |
| NotificationCenter.PriorityColor | lms-charity/client/src/components/NotificationCenter.jsx:107-114 | the three priorities have their own colours, and grey marks exactly any other |
| NotificationCenter.ViewOf | lms-charity/client/src/components/NotificationCenter.jsx:164-283 | "mark all read" shows exactly when the badge does; the empty message never shows with "load more" or the spinner, and "load more" never with the spinner |
| ProfileRoutes.UpdateFields | lms-charity/server/routes/profile.js:40-47 | the name is carried only when non-empty; bio, location and phone number whenever given, so they can be cleared; the other fields as given |
| ProfileRoutes.BuildUpdateFields | lms-charity/server/routes/profile.js:40-47 | the handler's conditional assignments build the fields UpdateFields specifies |
| ProfileRoutes.UpdateProfile | lms-charity/server/routes/profile.js:27-63 | a name or bio the validators refuse gives 500 and writes nothing; a caller that has gone gets null; otherwise exactly the carried fields are written |
| ProfileRoutes.ProfileFieldsCanBeCleared | lms-charity/server/routes/profile.js:42-45 | bio, location and phone number are cleared by empty strings, while an empty name leaves the name alone |
| ProfileRoutes.UpdateProfileIdempotent | lms-charity/server/routes/profile.js:27-63 | sending the same update twice has the effect of sending it once |
| ProfileRoutes.UpdateAvatar | lms-charity/server/routes/profile.js:68-90 | 400 without an avatar URL; succeeds iff one is given and the caller exists, replacing only the avatar |
| ProfileRoutes.UpdatePreferences | lms-charity/server/routes/profile.js:95-117 | 400 without preferences; succeeds iff they are given and the caller exists, replacing the preferences whole |
| ProfileRoutes.ChangePassword | lms-charity/server/routes/profile.js:122-152 | 400 unless both passwords are given, the new one has at least 6 characters and the current one matches, none writing; a success stores the new password's hash |
| ProfileRoutes.ChangePasswordOn | lms-charity/server/routes/profile.js:122-152 | the handler on the database object ends as the value-level ChangePassword |
| ProfileRoutes.ExistingCourses | lms-charity/server/routes/profile.js:227-230 | the created courses that still exist, each the stored course of one of the ids |
| ProfileRoutes.PublicProfileOf | lms-charity/server/routes/profile.js:157-172 | 404 iff the user is unknown; otherwise the public fields with the user's name and role |
| ProfileRoutes.Hits | lms-charity/server/routes/profile.js:185-196 | exactly the active users of the role asked for whose name, bio or skills match the query |
| ProfileRoutes.Search | lms-charity/server/routes/profile.js:177-220 | 400 without a query and 500 for a negative skip; otherwise exactly the pagination window of the hits, in order, with the page count over all of them |
| ProfileRoutes.CategoryCountsCorrect | lms-charity/server/routes/profile.js:251-256 | a category has an entry iff some enrolment is in it, and the entry counts those enrolments |
| ProfileRoutes.CountCategories | lms-charity/server/routes/profile.js:251-256 | the loop fills the counts CategoryCounts specifies |
| ProfileRoutes.EnrolledCategories | lms-charity/server/routes/profile.js:251-256 | the categories of the enrolled courses in order, or nothing when one of the courses has gone |
| ProfileRoutes.InstructorPartOf | lms-charity/server/routes/profile.js:233-247 | a course without a rating object makes it fail; otherwise the course count and the students taught, and an average of 0 without courses |
| ProfileRoutes.StatsOf | lms-charity/server/routes/profile.js:225-282 | a caller that has gone gives 500, as does an instructor with a created course or a student with an enrolled course that is gone; otherwise the user's own counters, the instructor part only for instructors, built from the created courses that exist, and the student part only for students, with the enrolled count and the category counts |
| ProfileRoutes.CategoryCountsTotal | lms-charity/server/routes/profile.js:251-256 | no category counts more than the enrolments |
| ProfileRoutes.InstructorRatingBounds | lms-charity/server/routes/profile.js:237-241 | with ratings on the 0 to 5 scale an instructor's average, in tenths, is between 0 and 5 |
| ProfileRoutes.Deactivate | lms-charity/server/routes/profile.js:287-313 | 400 without a password or when it does not match, writing nothing; a success sets only isActive to false |
| ProfileRoutes.DeactivatedNotFound | lms-charity/server/routes/profile.js:191 | a deactivated account no longer turns up in any search |
| ProfileRoutes.DeactivateOn | lms-charity/server/routes/profile.js:287-313 | the handler on the database object ends as the value-level Deactivate |
| ProgressModel.CompletionOf | lms-charity/server/models/Progress.js:171-173 | the index found holds the first completion of that lesson, and nothing is found iff the lesson has no completion |
| ProgressModel.QuizScores | lms-charity/server/models/Progress.js:188-190 | the scores collected are at most as many as the completions |
| ProgressModel.RoundedMean | lms-charity/server/models/Progress.js:192-194 | the average is the integer nearest the mean, halves rounded up |
| ProgressModel.RoundedMeanWithin | lms-charity/server/models/Progress.js:192-194 | the rounded mean of scores between two bounds lies between them |
| ProgressModel.CourseProgress | lms-charity/server/models/Progress.js:143-151 | a missing course or one without lessons gives 0; otherwise the completed share as a percentage rounded half up |
| ProgressModel.CourseProgressWithin | lms-charity/server/models/Progress.js:143-151 | with no more completions than lessons the percentage is between 0 and 100, and 100 when all are done |
| ProgressModel.DaysBetween | lms-charity/server/models/Progress.js:211 | the day count is the number of whole days elapsed, rounded down |
| ProgressModel.StreakCases | lms-charity/server/models/Progress.js:213-220 | one day later the streak grows by one, two or more days later it restarts at 1, and within the same day it stays |
| ProgressModel.StreakUpdated | lms-charity/server/models/Progress.js:208-224 | updating the streak changes only the streak and the last active date, which becomes today |
| ProgressModel.StreakSameMomentIdempotent | lms-charity/server/models/Progress.js:208-224 | two updates at the same moment count once |
| ProgressModel.RecalculatedNeverUncompletes | lms-charity/server/models/Progress.js:138-160 | a recalculation never clears the completed flag, sets it iff the percentage reaches 100 or it was set, and keeps the completions |
| ProgressModel.Recalculated | lms-charity/server/models/Progress.js:138-165 | calculateProgress on a record value; its contract is stated by the RecalculatedNeverUncompletes row |
| ProgressModel.CompleteLessonIdempotent | lms-charity/server/models/Progress.js:168-204 | completing a lesson that is already completed changes nothing at all |
| ProgressModel.CompleteLessonAppendsOnce | lms-charity/server/models/Progress.js:168-198 | a new completion appends exactly one entry for that lesson and adds its time to the total |
| ProgressModel.Recorded | lms-charity/server/models/Progress.js:174-195 | the record with one completion pushed, before recalculation; its contract is stated by the CompleteLessonAppendsOnce and CompleteLessonAverage rows |
| ProgressModel.LessonCompleted | lms-charity/server/models/Progress.js:168-204 | completeLesson on a record value; its contract is stated by the CompleteLessonIdempotent, CompleteLessonAppendsOnce and CompleteLessonAverage rows |
| ProgressModel.CompleteLessonAverage | lms-charity/server/models/Progress.js:187-195 | with a quiz score the average becomes the rounded mean of all stored scores, and stays between 0 and 100 when every score does |
| ProgressModel.WithoutBookmark | lms-charity/server/models/Progress.js:239-244 | the bookmarks kept are exactly those with a different id |
| ProgressModel.WithoutNote | lms-charity/server/models/Progress.js:271-276 | the notes kept are exactly those with a different id |
| ProgressModel.RemoveBookmarkProperties | lms-charity/server/models/Progress.js:239-244 | removing an unknown id keeps the list, and removing twice is removing once |
| ProgressModel.RemoveNoteKeepsOrder | lms-charity/server/models/Progress.js:271-276 | removal keeps the other notes in their order, and an unknown id keeps the list |
| ProgressModel.NoteUpdated | lms-charity/server/models/Progress.js:260-268 | the list keeps its length; the first note with that id takes the new title, content and time and every other note stays; an unknown id changes nothing |
| ProgressModel.InsertRecord | lms-charity/server/models/Progress.js:133 | inserting is refused iff a record already exists for the same user and course; otherwise the record is appended |
| ProgressModel.InsertKeepsUnique | lms-charity/server/models/Progress.js:133 | insertion keeps at most one record per user and course |
| ProgressModel.NewProgress | lms-charity/server/models/Progress.js:1-130 | a new record starts with no completions, 0%, not completed, no streak, no time spent and a 0 average |
| ProgressModel.Progress.constructor | lms-charity/server/models/Progress.js:1-130 | a new document holds the fresh record |
| ProgressModel.Progress.Load | lms-charity/server/models/Progress.js:1-130 | a loaded document holds the stored record |
| ProgressModel.Progress.CalculateProgress | lms-charity/server/models/Progress.js:138-165 | the in-place update leaves the record Recalculated specifies and returns its percentage |
| ProgressModel.Progress.CompleteLesson | lms-charity/server/models/Progress.js:168-204 | the in-place update leaves the record LessonCompleted specifies |
| ProgressModel.Progress.UpdateStreak | lms-charity/server/models/Progress.js:208-224 | the in-place update leaves the record StreakUpdated specifies |
| ProgressModel.Progress.AddBookmark | lms-charity/server/models/Progress.js:227-236 | one bookmark is appended and nothing else changes |
| ProgressModel.Progress.RemoveBookmark | lms-charity/server/models/Progress.js:239-244 | the bookmarks become WithoutBookmark of the old ones and nothing else changes |
| ProgressModel.Progress.AddNote | lms-charity/server/models/Progress.js:247-257 | one note is appended and nothing else changes |
| ProgressModel.Progress.UpdateNote | lms-charity/server/models/Progress.js:260-268 | the notes become NoteUpdated of the old ones and nothing else changes |
| ProgressModel.Progress.RemoveNote | lms-charity/server/models/Progress.js:271-276 | the notes become WithoutNote of the old ones and nothing else changes |
| ProgressRoutes.GetProgress | lms-charity/server/routes/progress.js:12-28 | 404 iff the caller has no record for the course; otherwise the caller's record for it |
| ProgressRoutes.AllProgress | lms-charity/server/routes/progress.js:33-44 | all the caller's records and only theirs, most recently accessed first |
| ProgressRoutes.StartProperties | lms-charity/server/routes/progress.js:49-90 | an unknown course gives 404 and a learner not enrolled 403, neither writing; a first start stores a new record at 0% on the course's first lesson, or on no lesson for a course without lessons; a later start keeps the stored completions, current lesson and start time while the access time and the streak move |
| ProgressRoutes.Start | lms-charity/server/routes/progress.js:49-90 | the start route as a function of the database; its contract is stated by the StartProperties row |
| ProgressRoutes.LessonTotal | lms-charity/server/routes/progress.js:103-118 | the lesson count is known iff the course exists, and is its number of lessons |
| ProgressRoutes.Credited | lms-charity/server/routes/progress.js:121-131 | the learner's increments leave every other user as they were and add no user |
| ProgressRoutes.CompleteLessonRefusals | lms-charity/server/routes/progress.js:95-101 | a missing course or lesson id gives 400 and writes nothing; with both given the caller ends up with a record for the course |
| ProgressRoutes.CompleteLessonEffects | lms-charity/server/routes/progress.js:103-137 | an accepted completion credits exactly the time spent to the learner and touches no other user; the record holds the lesson and its streak is updated |
| ProgressRoutes.CompleteLessonRepeatCountsAgain | lms-charity/server/routes/progress.js:117-131 | repeating a lesson of a completed course changes no lesson yet counts the course as completed once more |
| ProgressRoutes.CompleteLessonBeyondCourse | lms-charity/server/routes/progress.js:117 | a new lesson beyond the course's count lifts the percentage above 100, which the schema refuses, so the call fails with 500 |
| ProgressRoutes.OpenRecord | lms-charity/server/routes/progress.js:103-115 | the handler's document is the caller's record, found or created, at its position in the stored records |
| ProgressRoutes.Credit | lms-charity/server/routes/progress.js:121-131 | the two increments leave the users as Credited describes |
| ProgressRoutes.CompleteLessonOn | lms-charity/server/routes/progress.js:95-143 | the handler driven through the Progress document ends as the value-level CompleteLesson |
| ProgressRoutes.CompleteLesson | lms-charity/server/routes/progress.js:95-143 | the lesson-completion route as a function of the database; its contract is stated by the CompleteLessonRefusals and CompleteLessonEffects rows |
| ProgressRoutes.CompleteCourseProperties | lms-charity/server/routes/progress.js:148-209 | a missing id gives 400 and no record 404, neither writing; otherwise the record is completed at 100% and the learner's count grows by one |
| ProgressRoutes.CompleteCourseCountsEveryCall | lms-charity/server/routes/progress.js:166-176 | calling complete-course again succeeds again and counts the course a second time |
| ProgressRoutes.CompleteCourseOn | lms-charity/server/routes/progress.js:148-209 | the handler on the Progress document ends as the value-level CompleteCourse |
| ProgressRoutes.CompleteCourse | lms-charity/server/routes/progress.js:148-209 | the course-completion route as a function of the database; its contract is stated by the CompleteCourseProperties row |
| ProgressRoutes.CurrentLessonProperties | lms-charity/server/routes/progress.js:214-242 | missing ids give 400 and no record 404; otherwise only the caller's record changes, taking the new current lesson and the access time even when the streak save fails, and a success answers that stored record |
| ProgressRoutes.CurrentLesson | lms-charity/server/routes/progress.js:214-242 | the current-lesson route as a function of the database; its contract is stated by the CurrentLessonProperties row |
| ProgressRoutes.UserRecords | lms-charity/server/routes/progress.js:251-252 | the user's records, all and only theirs |
| ProgressRoutes.CategoryStatsCounts | lms-charity/server/routes/progress.js:266-276 | a category appears iff some record is in it, with the number of its records and no more completed ones than records |
| ProgressRoutes.FillCategoryStats | lms-charity/server/routes/progress.js:266-276 | the loop fills the tally CategoryStats specifies |
| ProgressRoutes.MaxStreak | lms-charity/server/routes/progress.js:286-288 | the current streak is at least every record's streak and equals one of them |
| ProgressRoutes.OverviewOf | lms-charity/server/routes/progress.js:255-298 | totals, completed and in-progress counts agree with the records, recent activity is the number of records accessed since the cut-off, the average is the rounded mean percentage, the streak the largest, and the time the sum |
| ProgressRoutes.AverageProgressWithin | lms-charity/server/routes/progress.js:260-262 | with valid percentages the rounded average lies within 0 to 100 |
| ProgressRoutes.RecentProgress | lms-charity/server/routes/progress.js:301-303 | the first five of the records ordered most recently accessed first; no record left out was accessed later than one shown |
| ProgressRoutes.UserAnalytics | lms-charity/server/routes/progress.js:247-309 | 500 iff one of the user's records names a deleted course; otherwise the overview and tally of the user's records |
| ProgressRoutes.CourseRecords | lms-charity/server/routes/progress.js:329-330 | the course's records, all and only those |
| ProgressRoutes.LessonStatsCounts | lms-charity/server/routes/progress.js:342-355 | a lesson appears iff some completion names it, with that many completions and no more quiz scores than completions |
| ProgressRoutes.LessonStats | lms-charity/server/routes/progress.js:342-355 | the per-lesson tally of completions and quiz scores; its contract is stated by the LessonStatsCounts row |
| ProgressRoutes.TallyCompletions | lms-charity/server/routes/progress.js:344-354 | the inner loop adds one record's completions to the tally of those before them |
| ProgressRoutes.FillLessonStats | lms-charity/server/routes/progress.js:342-355 | the nested loop fills the tally LessonStats specifies over all completions |
| ProgressRoutes.CompletionRate | lms-charity/server/routes/progress.js:369 | the rate is 0 with no students, lies within 0 and 100, and is 100 iff every student completed |
| ProgressRoutes.CourseOverviewOf | lms-charity/server/routes/progress.js:331-375 | the counts agree with the records, recent enrolments are the number of records started since the cut-off, the average progress and time are the rounded means, and the completion rate is the completed share |
| ProgressRoutes.StudentProgress | lms-charity/server/routes/progress.js:376 | the records, as a permutation, by percentage highest first |
| ProgressRoutes.CourseAnalytics | lms-charity/server/routes/progress.js:314-382 | 404 iff the course is unknown, 403 for anyone but its instructor or an admin; otherwise the report over the course's records |
| ProgressRoutes.ResetRemovesRecord | lms-charity/server/routes/progress.js:387-403 | under the unique index a reset leaves no record for the pair, keeps every other record, and a second reset gives 404 |
| ProgressRoutes.Reset | lms-charity/server/routes/progress.js:387-403 | the reset route as a function of the database; its contract is stated by the ResetRemovesRecord row |
| QuizLessonForm.AddQuestion | lms-charity/client/src/components/QuizLessonForm.jsx:5-23 | the questions gain one at the end, the earlier ones unchanged; the new one is a multiple-choice question with four blank options, answer 0 and 1 point; the quiz settings stay |
| QuizLessonForm.RemoveQuestion | lms-charity/client/src/components/QuizLessonForm.jsx:98-107 | an index outside the list removes nothing; otherwise exactly that question goes and the others keep their order; the quiz settings stay |
| QuizLessonForm.AddThenRemoveQuestion | lms-charity/client/src/components/QuizLessonForm.jsx:5-107 | removing the question just added gives back the question list as it was |
| QuizLessonForm.PointsInput | lms-charity/client/src/components/QuizLessonForm.jsx:272 | the points entered are never 0: an unparsable or zero entry falls back to 1 |
| QuizLessonForm.UpdateQuestion | lms-charity/client/src/components/QuizLessonForm.jsx:25-39 | the list keeps its length and every other question; the quiz settings stay |
| QuizLessonForm.UpdateQuestionSetsOneField | lms-charity/client/src/components/QuizLessonForm.jsx:25-39 | an edit sets its own field of the question to the value given and leaves the other fields; repeating the edit changes nothing |
| QuizLessonForm.UpdateOption | lms-charity/client/src/components/QuizLessonForm.jsx:41-57 | only option optionIndex of that question takes the new text; the other options, fields and questions stay |
| QuizLessonForm.AddOption | lms-charity/client/src/components/QuizLessonForm.jsx:59-73 | that question gains one blank option at the end; everything else stays |
| QuizLessonForm.RemoveOption | lms-charity/client/src/components/QuizLessonForm.jsx:75-96 | nothing is updated iff the question has two options or fewer; otherwise that option goes and an answer at or after it moves back by one, never below 0 |
| QuizLessonForm.RemoveOptionKeepsAnswer | lms-charity/client/src/components/QuizLessonForm.jsx:75-96 | a correct answer that names an option still names one after a removal, and the same text when the removed option came before it |
| QuizLessonForm.RemovingCorrectOptionMovesMark | lms-charity/client/src/components/QuizLessonForm.jsx:84-86 | removing the correct option itself moves the mark onto the option before it, an answer the author did not choose |
| QuizLessonForm.AddThenRemoveOption | lms-charity/client/src/components/QuizLessonForm.jsx:59-96 | removing the option just added gives back the question as it was, once it had at least two options and a valid answer |
| StudentDashboard.AverageProgress | lms-charity/client/src/pages/StudentDashboard.jsx:226 | The average-progress card is the mean progress of the enrolled courses rounded to the nearest whole number (within half a point of the exact mean), and 0 with no courses |
| StudentDashboard.CompletedCount | lms-charity/client/src/pages/StudentDashboard.jsx:227 | the completed-courses card is the number of courses at exactly 100, counted one by one, and never more than the number of courses |
| StudentDashboard.AverageProgressRange | lms-charity/client/src/pages/StudentDashboard.jsx:226 | With every progress between 0 and 100 the average shows between 0 and 100, and 100 when every course is complete |
| StudentDashboard.AverageRoundsUpToComplete | lms-charity/client/src/pages/StudentDashboard.jsx:226-227 | One course at 100 and one at 99 show an average of 100% while only one of the two is counted completed |
| StudentDashboard.TagDeadlines | lms-charity/client/src/pages/StudentDashboard.jsx:228-233 | A course without a deadline list contributes nothing; otherwise each of its deadlines appears once, in order, tagged with the course's title |
| StudentDashboard.UpcomingDeadlines | lms-charity/client/src/pages/StudentDashboard.jsx:228-233 | every course's tagged deadlines, course by course; its contract is stated by the DeadlinesListed and DeadlineCount rows |
| StudentDashboard.DeadlinesListed | lms-charity/client/src/pages/StudentDashboard.jsx:228-233 | Every deadline of every course appears in the upcoming list, and everything listed is a tagged deadline of some course |
| StudentDashboard.DeadlineCount | lms-charity/client/src/pages/StudentDashboard.jsx:228-233 | The number of upcoming deadlines is the sum over courses of each course's deadline count |
| StudentDashboard.UrgencyFacts | lms-charity/client/src/pages/StudentDashboard.jsx:846-847 | A deadline already due is urgent, one three days or more away is not, and an urgent deadline stays urgent as time passes |
| StudentDashboard.OverallProgress | lms-charity/client/src/pages/StudentDashboard.jsx:476-478 | The total-progress figure is completed lessons over total lessons as a percentage rounded to the nearest whole number, and 0 when there are no lessons |
| StudentDashboard.OverallProgressRange | lms-charity/client/src/pages/StudentDashboard.jsx:476-478 | When no course counts more completed lessons than it has, the overall progress lies between 0 and 100 and is 100 when every lesson is completed |
| StudentDashboard.TimeRemainingBounds | lms-charity/client/src/pages/StudentDashboard.jsx:526 | The summed hours left, a missing value counting 0, is never negative and is at least any one course's hours left |
| StudentDashboard.TimeRemaining | lms-charity/client/src/pages/StudentDashboard.jsx:526 | the summed hours left; its contract is stated by the TimeRemainingBounds row |
| StudentDashboard.BrowseCourses | lms-charity/client/src/pages/StudentDashboard.jsx:399-406 | The browse tab keeps exactly the courses whose title or description contains the term ignoring case and whose level and category match unless 'all' is selected |
| StudentDashboard.MyCourses | lms-charity/client/src/pages/StudentDashboard.jsx:341-345 | The my-courses tab keeps exactly the courses whose title or category contains the term ignoring case |
| StudentDashboard.EmptyTermKeepsAll | lms-charity/client/src/pages/StudentDashboard.jsx:341-345 | With an empty term and 'all' selected, both tabs list every course unchanged and in order |
| StudentDashboard.ClickMarks | lms-charity/client/src/pages/StudentDashboard.jsx:680-684 | Clicking a notification asks to mark exactly that notification read, and only when it is unread |
| StudentDashboardHook.Normalise | lms-charity/client/src/hooks/useStudentDashboard.js:22-35 | progress, completed and total lessons default to 0, the time left to 'N/A', the next lesson to 'Start Course'; the dates come from the enrolment first; the deadlines are empty |
| StudentDashboardHook.NormaliseAll | lms-charity/client/src/hooks/useStudentDashboard.js:22-35 | one normalised course per raw course, in order |
| StudentDashboardHook.NormalisedNeverBlank | lms-charity/client/src/hooks/useStudentDashboard.js:27-30 | a normalised course never shows a blank next lesson or time left, and keeps its id |
| StudentDashboardHook.Available | lms-charity/client/src/hooks/useStudentDashboard.js:40-42 | exactly the catalogue courses whose id is not enrolled, in order |
| StudentDashboardHook.AvailableDisjoint | lms-charity/client/src/hooks/useStudentDashboard.js:40-42 | no available course shares an id with an enrolled one, and every catalogue course is one or the other |
| StudentDashboardHook.Reached | lms-charity/client/src/hooks/useStudentDashboard.js:20-51 | the number of requests that succeeded before the first failure, each counted only if all before it succeeded |
| StudentDashboardHook.Refreshed | lms-charity/client/src/hooks/useStudentDashboard.js:14-60 | each list is replaced once its request succeeded, so a failure keeps the later lists as they were; the error is cleared iff all succeeded, and is otherwise the first failure's message |
| StudentDashboardHook.RefreshKeepsApart | lms-charity/client/src/hooks/useStudentDashboard.js:36-43 | when the catalogue loads after the enrolled courses, no offered course is enrolled |
| StudentDashboardHook.RefreshForgetsOldState | lms-charity/client/src/hooks/useStudentDashboard.js:14-60 | a refresh with every request answered depends on the answers only |
| StudentDashboardHook.CompletionRequestOf | lms-charity/client/src/hooks/useStudentDashboard.js:105-112 | the request carries the course, lesson and quiz score, and a time spent of 0 when none is given |
| StudentDashboardHook.Dashboard.constructor | lms-charity/client/src/hooks/useStudentDashboard.js:6-11 | the dashboard starts with empty lists, no error, loading |
| StudentDashboardHook.Dashboard.Refresh | lms-charity/client/src/hooks/useStudentDashboard.js:14-60 | the dashboard ends as Refreshed specifies and is no longer loading |
| StudentDashboardHook.Dashboard.EnrollInCourse | lms-charity/client/src/hooks/useStudentDashboard.js:68-83 | on success the dashboard is refreshed and the result is true; on failure nothing changes and the result is false |
| StudentDashboardHook.Dashboard.CompleteLesson | lms-charity/client/src/hooks/useStudentDashboard.js:105-124 | the completion request is sent; on success the dashboard is refreshed and the result is true; on failure nothing changes and the result is false |
| StudentDashboardHook.Dashboard.ContinueLearning | lms-charity/client/src/hooks/useStudentDashboard.js:86-102 | the access update is sent iff the course is enrolled, and the result is false only when that update fails |
| StudentDashboardHook.Dashboard.MarkNotificationAsRead | lms-charity/client/src/hooks/useStudentDashboard.js:127-145 | on success only the notifications with that id change, to read now |
| StudentDashboardHook.Dashboard.MarkAllNotificationsAsRead | lms-charity/client/src/hooks/useStudentDashboard.js:148-168 | on success every notification is read |
| StudentDashboardHook.Dashboard.DeleteNotification | lms-charity/client/src/hooks/useStudentDashboard.js:171-186 | on success the notifications with that id go |
| StudentDashboardHook.CertificateFileName | lms-charity/client/src/hooks/useStudentDashboard.js:197 | the name is "certificate-", the id, then ".pdf" |
| UploadRoutes.FolderName | lms-charity/server/routes/upload.js:11-14 | each upload folder is named images, videos or documents |
| UploadRoutes.FolderNamesDistinct | lms-charity/server/routes/upload.js:11-14 | two folders share a name iff they are the same folder |
| UploadRoutes.FiltersDisjoint | lms-charity/server/routes/upload.js:42-73 | the image and video filters test only the MIME prefix, so no file passes both, and the document filter takes no image or video type |
| UploadRoutes.UrlOf | lms-charity/server/routes/upload.js:107 | a stored file's URL starts with /uploads/ and its folder's name |
| UploadRoutes.Received | lms-charity/server/routes/upload.js:23-40 | the handler receives the file iff one was sent, the uploader's filter accepts it and it is within the size limit; otherwise 400 with the filter's message, the size message or the missing-file message |
| UploadRoutes.UploadFile | lms-charity/server/routes/upload.js:130-188 | a video or document upload succeeds iff the file is received, and then answers its URL under the uploader's folder |
| UploadRoutes.UploadImage | lms-charity/server/routes/upload.js:83-124 | an image upload succeeds iff the file is received, and then answers a URL under the images folder |
| UploadRoutes.UploadersSeparate | lms-charity/server/routes/upload.js:50-73 | a file the document uploader stores is refused by the video uploader, and the reverse |
| UploadRoutes.Destination | lms-charity/server/routes/upload.js:193-202 | the multi-file storage folder is images iff the MIME type starts with image/, videos iff video/ and not image/, and documents otherwise |
| UploadRoutes.FirstProblem | lms-charity/server/routes/upload.js:209-212 | no problem is found iff there are at most ten files and every one is within the size limit |
| UploadRoutes.UploadedFiles | lms-charity/server/routes/upload.js:221-241 | the reply lists one entry per file, in order, each built from that file |
| UploadRoutes.UploadMultiple | lms-charity/server/routes/upload.js:190-253 | a refusal happens iff multer finds too many or too large files, and is a 400; otherwise one entry per file with the count in the message |
| UploadRoutes.UrlMatchesStorage | lms-charity/server/routes/upload.js:193-232 | each returned URL names the folder the file was stored in, the same folder the single uploaders use for its kind |
| UploadRoutes.TenFilesAtMost | lms-charity/server/routes/upload.js:209-212 | files within the size limit are taken iff there are at most ten |
| UploadRoutes.FolderOf | lms-charity/server/routes/upload.js:263-275 | the type parameter names a folder iff it is images, videos or documents |
| UploadRoutes.Delete | lms-charity/server/routes/upload.js:258-287 | any other type gives 400, a file not stored 404, and otherwise exactly that file is removed |
| UploadRoutes.DeleteTwice | lms-charity/server/routes/upload.js:277-282 | deleting the same file a second time answers 404 |
| UploadRoutes.UploadedCanBeDeleted | lms-charity/server/routes/upload.js:221-282 | a file stored by the multi-file route can be deleted through the folder name its URL carries |
| WishlistRoutes.Add | lms-charity/server/routes/wishlist.js:11-51 | an unknown course gives 404 and a course already wishlisted 400, both leaving the database as it was; otherwise the course joins the caller's wishlist and nothing else changes |
| WishlistRoutes.Remove | lms-charity/server/routes/wishlist.js:56-78 | always answers 200; the course is pulled from the caller's wishlist and every other entry stays in order |
| WishlistRoutes.Check | lms-charity/server/routes/wishlist.js:125-145 | fails exactly for a caller who no longer exists; otherwise answers true iff the course is in the wishlist |
| WishlistRoutes.Entries | lms-charity/server/routes/wishlist.js:87-110 | the populated list has at most as many entries as ids, and each entry comes from a wishlisted id |
| WishlistRoutes.EntriesInOrder | lms-charity/server/routes/wishlist.js:87-110 | the entries are exactly those of the wishlisted ids whose course still exists, one each, in wishlist order |
| WishlistRoutes.EntriesListed | lms-charity/server/routes/wishlist.js:87-110 | every wishlisted id whose course exists gives an entry, and every entry is the card of its own course |
| WishlistRoutes.List | lms-charity/server/routes/wishlist.js:83-120 | fails exactly for a caller who no longer exists; otherwise every course listed is in the caller's wishlist and shown as its own card, and every wishlisted course that still exists is listed |
| WishlistRoutes.RoutesKeepWishlistDistinct | lms-charity/server/routes/wishlist.js:27-37 | neither add nor remove puts a duplicate into a duplicate-free wishlist: the wishlist behaves as a set |
| WishlistRoutes.RemoveIdempotent | lms-charity/server/routes/wishlist.js:62-64 | removing a course twice gives the same database and answer as removing it once |
| WishlistRoutes.AddRemoveCheck | lms-charity/server/routes/wishlist.js:27-37 | after a successful add the check answers true, after a remove false, and removing what was just added restores the database |
| WishlistRoutes.AddOn | lms-charity/server/routes/wishlist.js:11-51 | the handler's in-place updates leave the database and answer that Add specifies |
| WishlistRoutes.RemoveOn | lms-charity/server/routes/wishlist.js:56-78 | the handler's in-place update leaves the database and answer that Remove specifies |

## Left out

- The Python scoring service (`ml_api/app.py`) and the server code that relays to it (`server/utils/scoreEssay.js`, `server/routes/essays.js`). The service is a pretrained classifier behind one route, so the essay score is an opaque input to the lesson and grading handlers.
- `server/middleware/auth.js` is not part of this model. `protect` is taken to have produced the caller's id. Where a route is restricted to a role, the answer for another role is taken to be 403.
- Persistence:
  - Mongoose queries, `populate`, `aggregate` and indexes are maps and sequences.
  - The unique index on certificate ids is not modelled.
  - Schema casting is not modelled. Schema validation is modelled where a handler's outcome depends on it:
    - the certificate's grade and score bounds;
    - the progress record's percentages;
    - a new course's title, description, category and level (`CourseRoutes.CreateCourse`), and the same rules for the fields an update changes (`CourseRoutes.UpdateCourse`);
    - a new lesson (`CourseRoutes.AddLesson`);
    - a user edited by an admin (`AdminRoutes.UpdateUser`) or by themselves (`ProfileRoutes.UpdateProfile`);
    - registration (`AuthRoutes.Register`).
  - The required fields of bookmarks and notes are not checked: adding a bookmark or a note always saves.
  - Where several matches exist, the one MongoDB returns is a parameter.
  - Multi-document writes are not atomic in the source, and the model does not add atomicity. Concurrent requests are not modelled.
- `Course.js` does not declare several fields the handlers read and write: `modules`, `analytics`, `status`, `estimatedDuration`, `discussions`, and an enrolment's `completedLessons` and `certificateIssued`. The model follows the handlers and treats each of them as stored.
- Cryptography and identity:
  - bcrypt hashing and comparison are the parameters `hash` and `matches`.
  - JWT issuance is left out.
  - Firebase token verification is the parameter `tokenUid`.
  - Reset tokens are left out.
- Other I/O:
  - e-mail;
  - the PDF drawing of certificates (only whether the file exists is a parameter);
  - disk writes and `sharp` resizing in the upload routes (a file is its multer description, and the disk is a set of stored names);
  - the Cloudinary upload and delete calls;
  - multer's own error texts and field-name checks;
  - `path.join` normalisation of a `..` in a file name to delete.
- The clock and randomness are parameters:
  - `new Date()`;
  - `Date.now()` ids;
  - `Math.random` certificate codes and file names;
  - the browser's object URLs.

  Days are counted in UTC (`DayOf`), so `toDateString`'s local time zone is not modelled.
- Floating point:
  - `Math.round(100 * c / t)` is computed exactly on integers, so a quotient that lands within floating-point error of a half may round differently in JavaScript.
  - The instructor rating average is computed as exact reals.
  - The completion rate of the course analytics is a real.
  - `formatFileSize` (`Math.log`), revenue and monthly earnings, discount and rating-distribution percentages, and image-compression scaling are not modelled.
- Strings:
  - `toLowerCase` and `toUpperCase` act on ASCII letters only.
  - `trim` removes ASCII whitespace, the no-break space and the byte-order mark.
  - `localeCompare` is the parameter `collation` of the title sort.
  - A Mongo `$regex` search is a case-insensitive substring test, so patterns with metacharacters are not modelled.
  - The e-mail format check and the lower-casing setter of the user schema are not modelled.
- Presentation:
  - JSX markup, icons, animations, toasts, `window.confirm`, `localStorage` and navigation are left out. Where the text of a toast or an alert is the outcome of a handler, it is returned.
  - In the notification panel, a lookup of an `iconMap` key inherited from `Object.prototype` is not modelled: a type is a known key or falls back.
  - In the admin dashboard, the tab counts, the course modal, the delete handlers and the refetch after each action are left out.
  - In the student dashboard, the recent-activity list and its icons are left out.
- `StudentDashboard.TimeRemainingBounds`: `parseInt` of `estimatedTimeLeft` is taken as already parsed, so the `NaN` a non-numeric value gives is not modelled.
- StudentDashboard.TimeRemaining: sums `estimatedTimeLeft` taken as already parsed, a missing value counting 0. The `NaN` that `parseInt` gives for a non-numeric value, such as the hook's default 'N/A', is not modelled (see StudentDashboard.TimeRemainingBounds).
- A course without a title would make `title.toLowerCase()` throw in the dashboard filters. The model gives every course a title.
- `StudentDashboardHook`: `downloadCertificate`'s DOM and blob handling are left out. Only the file name it gives the download is modelled.
- `CourseDetail`: the page's mock course data and the two-second `setTimeout` of the simulated enrolment are left out. The course is a parameter, and `Enroll` is the state the timer leaves.
- `CourseLearn`: timers and the calls to the progress API are left out. A backend answer is a parameter where the page branches on it.
- `Common.Percent`: the contract states the rounding of the exact quotient, not of its double-precision value.
- Editors that index a list (`updateQuestion`, `updateOption`, and the rubric and resource edits): the model requires an index in range. The source writes a hole or throws for an index out of range, which no control on the page produces.
- `QuizLessonForm`: the quiz settings fields (time limit, attempts, passing score) are forwarded unchanged and not modelled.
- The known breakages are modelled as the code behaves:
  - `progress.js` uses `Certificate` without importing it. The call throws inside its own `try` block, so complete-course answers 200 with a null certificate.
  - `instructor.js` registers `/discussions` twice and calls `require` inside an ES module. Those routes, and the instructor's assignment and certificate routes, are left out.
- CourseRoutes.UpdateCourse: Mongoose's update validators check every path the request sets. The model checks the fields whose value changes, which differs only for a stored course that already breaks the schema.
- ProgressModel.QuizScores: a quiz score is either a number or missing. The source tells two kinds of missing apart, and the model does not:
  - `progress.js` stores an unsent score as `null` (the default at line 97).
  - `enrollment.js` stores it as `undefined` (line 295), so the field is absent from the stored entry.
  - `Progress.js:189` keeps every score that is not `null`, so an absent score makes the mean `NaN` and that save fails.
  - `certificates.js:71-73` and `enrollment.js:516-518` keep every score that is not `undefined`, so a `null` score counts as 0 in the mean. For example, scores null, null and 90 average 30 there, where the model gives 90.

  The model treats both kinds as "no score": it leaves them out of every mean. The lines below name the members this affects.
- ProgressModel.Recorded: the average quiz score is the mean over the present scores. An absent score, which `Progress.js:187-193` keeps and which makes the mean `NaN`, is not modelled (see ProgressModel.QuizScores).
- ProgressModel.LessonCompleted: averages through ProgressModel.Recorded, so the same mean over present scores (see ProgressModel.QuizScores).
- ProgressModel.Progress.CompleteLesson: leaves the record ProgressModel.LessonCompleted describes, so the same mean over present scores (see ProgressModel.QuizScores).
- ProgressModel.CompleteLessonAverage: the average is the mean over the present scores; the `NaN` that an absent score gives in the source is not modelled (see ProgressModel.QuizScores).
- CertificateRoutes.FinalScore: the mean leaves out null scores, which the source counts as 0 (see ProgressModel.QuizScores).
- EnrollmentRoutes.CompletionScore: the mean leaves out null scores, which the source counts as 0 (see ProgressModel.QuizScores).
- EnrollmentRoutes.CompletionScoreWithin: stated for the mean over present scores only (see ProgressModel.QuizScores).
- EnrollmentRoutes.CompletionCertificateSaves: stated for the mean over present scores only (see ProgressModel.QuizScores).
- ProgressRoutes.LessonStats: the quiz tally keeps only present scores, where `progress.js:351` also keeps absent ones and so averages to `NaN` (see ProgressModel.QuizScores).
- DiscussionRoutes.Discussions: models the corrected access test (`DiscussionRoutes.Access`, see Findings). The test as written is `DiscussionRoutes.AccessAsWritten`.
- DiscussionRoutes.CreateDiscussion: models the corrected access test (see DiscussionRoutes.Discussions).
- DiscussionRoutes.AddReply: models the corrected access test (see DiscussionRoutes.Discussions).
- CertificateRoutes.GenerateOn: models the corrected save, with the ids generated before validation (see Findings). As written, every new certificate is rejected (`CertificateModel.SaveAsWrittenRejectsNewCertificate`).
- CertificateRoutes.GenerateWrites: models the corrected save (see CertificateRoutes.GenerateOn).
- CertificateRoutes.Generate: models the corrected save (see CertificateRoutes.GenerateOn). As written, the route answers 500 for every new certificate. The refusals (GenerateRefusals, GenerateRejectsScoreOutOfRange) hold either way. The lemmas about a successful issue (GenerateIssues, GenerateTwice, GenerateAddsToMyCertificates, IssuedCertificateVerifies) hold for the corrected save only.
- EnrollmentRoutes.UpdateLessonProgress: models the corrected completion test, which reads `isCompleted` before the recalculation (`CapturedBefore`, see Findings). The test as written is `ReadAfterRecalculation`, under which the completion side effects never run.
- CommentRoutes.ListComments: the listing is always sorted by creation time. A `sortBy` query naming another field (`comments.js:13`, used at line 46) is not modelled.
- CommentRoutes.ByCreation: sorts by creation time only (see CommentRoutes.ListComments).
- CommentRoutes.PageOf: pages the listing sorted by creation time only (see CommentRoutes.ListComments).
- CommentRoutes.ListingOrdered: stated for the sort by creation time only (see CommentRoutes.ListComments).
- CourseLearn.Passes: the pass test is exact, `100 * score >= passingScore * n`. The source compares the double `(score / n) * 100`, which can fall just below the exact value: 57 of 100 gives 56.99999999999999 and fails a pass mark of 57. Such rounding is not modelled.
- CourseLearn.LearnPage.SubmitQuiz: decides the pass with the exact test (see CourseLearn.Passes).
- MyLearning.AccessKey: a course never accessed sorts as at time 0, which is what `new Date(null)` gives. A course whose `lastAccessed` is absent gives `NaN` instead. The comparator is then inconsistent and V8's sort order depends on the comparisons it happens to make: [A (none), B (5), C (10)] can come out as [A, C, B]. This is not modelled.
- MyLearning.ContinueWatching: orders as MyLearning.AccessKey describes.
- Routes with no rules beyond storing and returning documents are left out: notifications, contact messages, and `Course.js`'s virtuals.

## Findings

| source | as written | input that shows it | evidently intended | confidence | as-written member | corrected member |
|---|---|---|---|---|---|---|
| lms-charity/server/routes/enrollment.js:334-338 | `calculateProgress` has already set `progress.isCompleted` when the percentage reaches 100, so `isCompleted && !progress.isCompleted` is never true. The completion side effects never run: the enrolment is not marked, the counters do not move and no certificate is issued. | An enrolled learner completes the only lesson of a one-lesson course | The side effects run once, when this request takes the record to 100% from not completed | not executed | EnrollmentRoutes.AsWrittenMissesOnlyLesson | EnrollmentRoutes.CompletionCountedOnce |
| lms-charity/server/models/Certificate.js:14-18 | `certificateId` and `verificationCode` are required. Mongoose validates them before the `pre('save')` hook at lines 80-92 could generate them. | Any new certificate created without the two ids, which is how every issuing route creates one | The ids are generated before validation, so the certificate saves with both | not executed | CertificateModel.SaveAsWrittenRejectsNewCertificate | CertificateModel.SaveAssignsIds |
| lms-charity/client/src/utils/fileTypeDetection.js:111 | `fileTypeMap[extension] \|\| 'link'` also finds keys inherited from `Object.prototype`. The result is then a function, not a tag. | the URL `a.constructor` | Only the table's own extensions map to a tag; any other extension gives 'link' | not executed | FileTypeDetection.AsWrittenConstructorExtension | FileTypeDetection.DetectFileType |
| lms-charity/server/routes/discussions.js:22-30 | The test reads `student.user.toString()`, but an enrolment stores the student under `student`. The call throws for any course with an enrolment, and the handler answers 500. | An enrolled student, or the instructor of a course with any student, opens the course's discussions | The instructor and enrolled students are admitted, and everyone else gets 403 | not executed | DiscussionRoutes.AccessAsWrittenLocksOutEveryone | DiscussionRoutes.Access |
| lms-charity/server/utils/cloudinary.js:51-52 | `allowedTypes[type]` also finds keys inherited from `Object.prototype`, and `.includes` is then undefined, so the filter throws. | A form field `type=constructor` | An unknown type is treated like a missing type, and the file is accepted | not executed | CloudinaryFilter.ConstructorTypeThrows | CloudinaryFilter.FileFilter |
