/** The account API: signup and login rules, profile updates, user uploads
    scoped to their owner, per-user statistics and the activity timeline.
    The bearer token of a request is modelled by the user id it carries;
    password hashing and checking are parameters. */
module AuthApi {
  import opened Common
  import opened Records
  import opened BusinessApi

  // ---------------------------------------------------------------------
  // Guard chains
  // ---------------------------------------------------------------------

  /** The body of `POST /signup`. */
  datatype SignupRequest = SignupRequest(
    firstName: string,
    lastName: string,
    email: string,
    password: string,
    userType: string,
    companyName: Option<string>,
    industry: Option<string>)

  /** Python truthiness of an optional string: present and non-empty. */
  predicate Truthy(s: Option<string>)
  {
    s.Some? && s.value != ""
  }

  /** The first user registered under `email`. */
  function FindUserByEmail(users: seq<User>, email: string): (r: Option<User>)
    ensures r.Some? ==> r.value in users && r.value.email == email
    ensures r.None? <==> forall u :: u in users ==> u.email != email
  {
    if users == [] then None
    else if users[0].email == email then Some(users[0])
    else FindUserByEmail(users[1..], email)
  }

  /** The signup checks, in order: email taken, password shorter than six
      characters, unknown user type, business without company or industry.
      Each is a 400. */
  function SignupCheck(users: seq<User>, req: SignupRequest): (r: Option<HttpError>)
    ensures r.Some? ==> r.value.status == 400
    ensures r.None? <==> && (forall u :: u in users ==> u.email != req.email)
                         && |req.password| >= 6
                         && (req.userType == "regular" || req.userType == "business")
                         && (req.userType == "business" ==> Truthy(req.companyName) && Truthy(req.industry))
    ensures FindUserByEmail(users, req.email).Some? ==> r == Some(HttpError(400, "Email already registered"))
    ensures FindUserByEmail(users, req.email).None? && |req.password| < 6 ==>
              r == Some(HttpError(400, "Password must be at least 6 characters long"))
    ensures FindUserByEmail(users, req.email).None? && |req.password| >= 6
            && req.userType != "regular" && req.userType != "business" ==>
              r == Some(HttpError(400, "Invalid user type"))
    ensures FindUserByEmail(users, req.email).None? && |req.password| >= 6
            && req.userType == "business" && (!Truthy(req.companyName) || !Truthy(req.industry)) ==>
              r == Some(HttpError(400, "Company name and industry are required for business users"))
  {
    if FindUserByEmail(users, req.email).Some? then Some(HttpError(400, "Email already registered"))
    else if |req.password| < 6 then Some(HttpError(400, "Password must be at least 6 characters long"))
    else if req.userType != "regular" && req.userType != "business" then Some(HttpError(400, "Invalid user type"))
    else if req.userType == "business" && (!Truthy(req.companyName) || !Truthy(req.industry)) then
      Some(HttpError(400, "Company name and industry are required for business users"))
    else None
  }

  /** The login checks: unknown email and wrong password give the same
      401; the deactivation check comes only after the password matched.
      `verify` stands for the password-hash check. */
  function LoginCheck(users: seq<User>, email: string, password: string,
                      verify: (string, string) -> bool): (r: Result<User>)
    ensures r.Ok? <==> && FindUserByEmail(users, email).Some?
                       && verify(password, FindUserByEmail(users, email).value.passwordHash)
                       && FindUserByEmail(users, email).value.isActive
    ensures r.Ok? ==> r.value == FindUserByEmail(users, email).value
    ensures r.Err? ==> r.error.status == 401
    ensures r == Err(HttpError(401, "Account is deactivated")) ==>
              && FindUserByEmail(users, email).Some?
              && verify(password, FindUserByEmail(users, email).value.passwordHash)
  {
    match FindUserByEmail(users, email)
    case None => Err(HttpError(401, "Incorrect email or password"))
    case Some(u) =>
      if !verify(password, u.passwordHash) then Err(HttpError(401, "Incorrect email or password"))
      else if !u.isActive then Err(HttpError(401, "Account is deactivated"))
      else Ok(u)
  }

  /** A failed login does not tell an unknown email from a wrong password:
      both give the same error. */
  lemma LoginHidesWhichCheckFailed(users: seq<User>, email: string, password: string,
                                   verify: (string, string) -> bool, u: User)
    requires u in users && u.email == email && !verify(password, u.passwordHash)
    requires forall v :: v in users && v.email == email ==> v == u
    ensures LoginCheck(users, email, password, verify)
            == LoginCheck([], email, password, verify)
            == Err(HttpError(401, "Incorrect email or password"))
  {
  }

  /** The upload checks: the declared kind must be "image" or "pdf", an
      image needs an `image/` MIME type and a PDF exactly
      `application/pdf`.  Each is a 400. */
  function UploadCheck(contentType: string, mimeType: string): (r: Option<HttpError>)
    ensures r.Some? ==> r.value.status == 400
    ensures r.None? <==> || (contentType == "image" && "image/" <= mimeType)
                         || (contentType == "pdf" && mimeType == "application/pdf")
    ensures contentType != "image" && contentType != "pdf" ==>
              r == Some(HttpError(400, "Invalid content type. Must be 'image' or 'pdf'"))
    ensures contentType == "image" && !("image/" <= mimeType) ==> r == Some(HttpError(400, "File must be an image"))
    ensures contentType == "pdf" && mimeType != "application/pdf" ==> r == Some(HttpError(400, "File must be a PDF"))
  {
    if contentType != "image" && contentType != "pdf" then
      Some(HttpError(400, "Invalid content type. Must be 'image' or 'pdf'"))
    else if contentType == "image" && !("image/" <= mimeType) then Some(HttpError(400, "File must be an image"))
    else if contentType == "pdf" && mimeType != "application/pdf" then Some(HttpError(400, "File must be a PDF"))
    else None
  }

  /** `str.title()` of an accepted upload kind. */
  function KindTitle(contentType: string): string
  {
    if contentType == "image" then "Image" else "Pdf"
  }

  // ---------------------------------------------------------------------
  // Per-user queries
  // ---------------------------------------------------------------------

  /** The uploads of user `userId`, in table order. */
  function UploadsOf(uploads: seq<UserUpload>, userId: int): (r: seq<UserUpload>)
    ensures |r| <= |uploads|
    ensures forall x :: x in r <==> x in uploads && x.userId == userId
  {
    if uploads == [] then []
    else (if uploads[0].userId == userId then [uploads[0]] else []) + UploadsOf(uploads[1..], userId)
  }

  /** The PDF uploads among `uploads`. */
  function PdfsOf(uploads: seq<UserUpload>): (r: seq<UserUpload>)
    ensures |r| <= |uploads|
    ensures forall x :: x in r <==> x in uploads && x.contentType == "pdf"
  {
    if uploads == [] then []
    else (if uploads[0].contentType == "pdf" then [uploads[0]] else []) + PdfsOf(uploads[1..])
  }

  /** The activities of user `userId`, oldest first. */
  function ActivitiesOf(activities: seq<UserActivity>, userId: int): (r: seq<UserActivity>)
    ensures |r| <= |activities|
    ensures forall x :: x in r <==> x in activities && x.userId == userId
  {
    if activities == [] then []
    else
      var last := activities[|activities| - 1];
      ActivitiesOf(activities[..|activities| - 1], userId) + (if last.userId == userId then [last] else [])
  }

  /** `UploadsOf` keeps every upload of the user as often as the table
      holds it, and nothing else. */
  lemma {:induction false} UploadsOfKeepsMultiplicity(uploads: seq<UserUpload>, userId: int)
    ensures forall x :: multiset(UploadsOf(uploads, userId))[x]
                        == if x.userId == userId then multiset(uploads)[x] else 0
  {
    if uploads != [] {
      UploadsOfKeepsMultiplicity(uploads[1..], userId);
      assert uploads == [uploads[0]] + uploads[1..];
    }
  }

  /** `PdfsOf` keeps every PDF upload as often as `uploads` holds it, and
      nothing else. */
  lemma {:induction false} PdfsOfKeepsMultiplicity(uploads: seq<UserUpload>)
    ensures forall x :: multiset(PdfsOf(uploads))[x] == if x.contentType == "pdf" then multiset(uploads)[x] else 0
  {
    if uploads != [] {
      PdfsOfKeepsMultiplicity(uploads[1..]);
      assert uploads == [uploads[0]] + uploads[1..];
    }
  }

  /** `ActivitiesOf` keeps every activity of the user as often as the log
      holds it, and nothing else. */
  lemma {:induction false} ActivitiesOfKeepsMultiplicity(activities: seq<UserActivity>, userId: int)
    ensures forall x :: multiset(ActivitiesOf(activities, userId))[x]
                        == if x.userId == userId then multiset(activities)[x] else 0
  {
    if activities != [] {
      var front := activities[..|activities| - 1];
      ActivitiesOfKeepsMultiplicity(front, userId);
      assert activities == front + [activities[|activities| - 1]];
    }
  }

  /** Activities in non-decreasing time order. */
  predicate TimeOrdered(s: seq<UserActivity>)
  {
    forall j, k :: 0 <= j < k < |s| ==> s[j].timestamp <= s[k].timestamp
  }

  lemma AppendingLatestKeepsOrder(s: seq<UserActivity>, a: UserActivity)
    requires TimeOrdered(s)
    requires forall j :: 0 <= j < |s| ==> s[j].timestamp <= a.timestamp
    ensures TimeOrdered(s + [a])
  {
  }

  lemma {:induction false} ActivitiesOfKeepsOrder(activities: seq<UserActivity>, userId: int)
    requires TimeOrdered(activities)
    ensures TimeOrdered(ActivitiesOf(activities, userId))
  {
    if activities != [] {
      var n := |activities|;
      var front := activities[..n - 1];
      ActivitiesOfKeepsOrder(front, userId);
      var r := ActivitiesOf(front, userId);
      var last := activities[n - 1];
      if last.userId == userId {
        forall j | 0 <= j < |r| ensures r[j].timestamp <= last.timestamp {
          assert r[j] in r;
          var m :| 0 <= m < |front| && front[m] == r[j];
          assert activities[m] == r[j];
        }
        AppendingLatestKeepsOrder(r, last);
        assert ActivitiesOf(activities, userId) == r + [last];
      } else {
        assert ActivitiesOf(activities, userId) == r;
      }
    }
  }

  /** The most activities the timeline returns. */
  const ActivityLimit := 50

  /** The newest `ActivityLimit` activities of `log` (oldest first), newest
      first. */
  function NewestFirst(log: seq<UserActivity>): (r: seq<UserActivity>)
    ensures |r| == if |log| < ActivityLimit then |log| else ActivityLimit
    ensures HoldsNewestOf(r, log)
    ensures forall k :: 0 <= k < |r| ==> r[k] in log
    ensures TimeOrdered(log) ==> forall j, k :: 0 <= j < k < |r| ==> r[j].timestamp >= r[k].timestamp
    ensures TimeOrdered(log) && |r| > 0 ==>
              forall j :: 0 <= j < |log| - |r| ==> log[j].timestamp <= r[|r| - 1].timestamp
  {
    var n := if |log| < ActivityLimit then |log| else ActivityLimit;
    var r := seq(n, k requires 0 <= k < n => log[|log| - 1 - k]);
    ReversedSuffixKeepsEntries(log, r);
    r
  }

  /** The caller's timeline taken from a time-ordered log: at most 50 of the
      caller's own entries, exactly the newest ones, newest first, and no
      omitted entry newer than the last one returned. */
  lemma NewestOfCaller(activities: seq<UserActivity>, userId: int)
    requires TimeOrdered(activities)
    ensures var mine := ActivitiesOf(activities, userId);
            var r := NewestFirst(mine);
            && |r| <= ActivityLimit
            && (|r| < ActivityLimit ==> |r| == |mine|)
            && (forall k :: 0 <= k < |r| ==> r[k] in activities && r[k].userId == userId)
            && (forall j, k :: 0 <= j < k < |r| ==> r[j].timestamp >= r[k].timestamp)
            && HoldsNewestOf(r, mine)
            && (forall j :: 0 <= j < |mine| - |r| ==> mine[j].timestamp <= r[|r| - 1].timestamp)
  {
    ActivitiesOfKeepsOrder(activities, userId);
  }

  /** `r` holds exactly the last `|r|` entries of `log`, in some order. */
  predicate HoldsNewestOf(r: seq<UserActivity>, log: seq<UserActivity>)
  {
    |r| <= |log| && multiset(r) == multiset(log[|log| - |r|..])
  }

  /** A sequence that reads the end of `log` backwards holds exactly the
      entries of that end. */
  lemma {:induction false} ReversedSuffixKeepsEntries(log: seq<UserActivity>, r: seq<UserActivity>)
    requires |r| <= |log|
    requires forall k :: 0 <= k < |r| ==> r[k] == log[|log| - 1 - k]
    ensures HoldsNewestOf(r, log)
    decreases |r|
  {
    if |r| > 0 {
      var m := |r| - 1;
      var front := r[..m];
      assert forall k :: 0 <= k < |front| ==> front[k] == r[k];
      ReversedSuffixKeepsEntries(log, front);
      var oldest := log[|log| - |r|];
      assert r[m] == oldest;
      assert log[|log| - |r|..] == [oldest] + log[|log| - m..];
      assert r == front + [oldest];
      assert multiset(r) == multiset(front) + multiset{oldest};
    }
  }

  /** Statistics of `GET /statistics`. */
  datatype Statistics = Statistics(totalUploads: nat, totalPdfs: nat, totalMatches: nat, daysActive: int)

  const SecondsPerDay := 86400

  /** The signup activity's description. */
  function SignupDescription(userType: string): string
  {
    "New " + userType + " account created"
  }

  /** A user with the given names written over the current ones where
      present, and `updated_at` set. */
  function Patched(u: User, firstName: Option<string>, lastName: Option<string>, now: int): (v: User)
    ensures v.firstName == (if firstName.Some? then firstName.value else u.firstName)
    ensures v.lastName == (if lastName.Some? then lastName.value else u.lastName)
    ensures v.updatedAt == now
    ensures v.(firstName := u.firstName, lastName := u.lastName, updatedAt := u.updatedAt) == u
  {
    var v := if firstName.Some? then u.(firstName := firstName.value) else u;
    var w := if lastName.Some? then v.(lastName := lastName.value) else v;
    w.(updatedAt := now)
  }

  /** The position of the user with id `userId`. */
  function UserIndex(users: seq<User>, userId: int): (r: Option<nat>)
    ensures r.Some? ==> r.value < |users| && users[r.value].id == userId
    ensures r.None? <==> forall k :: 0 <= k < |users| ==> users[k].id != userId
  {
    if users == [] then None
    else if users[0].id == userId then Some(0)
    else match UserIndex(users[1..], userId)
      case None => None
      case Some(k) => Some(k + 1)
  }

  /** The position of upload `uploadId` when it belongs to user `userId`. */
  function OwnUploadIndex(uploads: seq<UserUpload>, userId: int, uploadId: int): (r: Option<nat>)
    ensures r.Some? ==> r.value < |uploads| && uploads[r.value].id == uploadId && uploads[r.value].userId == userId
    ensures r.None? <==> forall k :: 0 <= k < |uploads| ==> !(uploads[k].id == uploadId && uploads[k].userId == userId)
  {
    if uploads == [] then None
    else if uploads[0].id == uploadId && uploads[0].userId == userId then Some(0)
    else match OwnUploadIndex(uploads[1..], userId, uploadId)
      case None => None
      case Some(k) => Some(k + 1)
  }

  /** User ids and emails are unique. */
  predicate UsersUnique(users: seq<User>)
  {
    forall j, k :: 0 <= j < k < |users| ==> users[j].id != users[k].id && users[j].email != users[k].email
  }

  predicate UploadIdsUnique(uploads: seq<UserUpload>)
  {
    forall j, k :: 0 <= j < k < |uploads| ==> uploads[j].id != uploads[k].id
  }

  /** The invariant of the account tables: unique users and emails, unique
      upload ids, issued ids below the next ones, and an activity log in
      time order that does not run ahead of the clock. */
  predicate AccountInvariant(users: seq<User>, uploads: seq<UserUpload>, activities: seq<UserActivity>,
                             nextUserId: int, nextUploadId: int, clock: int)
  {
    && UsersUnique(users)
    && (forall k :: 0 <= k < |users| ==> users[k].id < nextUserId)
    && UploadIdsUnique(uploads)
    && (forall k :: 0 <= k < |uploads| ==> uploads[k].id < nextUploadId)
    && TimeOrdered(activities)
    && (forall k :: 0 <= k < |activities| ==> activities[k].timestamp <= clock)
  }

  /** The users, uploads and activity tables of the account API.  `clock`
      is the latest time any handler has seen. */
  class AccountStore {
    var users: seq<User>
    var uploads: seq<UserUpload>
    var activities: seq<UserActivity>
    var nextUserId: int
    var nextUploadId: int
    var nextActivityId: int
    var clock: int

    ghost predicate Valid()
      reads this
    {
      AccountInvariant(users, uploads, activities, nextUserId, nextUploadId, clock)
    }

    constructor(start: int)
      ensures Valid()
      ensures users == [] && uploads == [] && activities == [] && clock == start
    {
      users, uploads, activities := [], [], [];
      nextUserId, nextUploadId, nextActivityId := 1, 1, 1;
      clock := start;
    }

    /** Appends one entry to the activity log at the current time. */
    method Log(userId: int, activityType: string, title: string, description: Option<string>)
      requires Valid()
      modifies this
      ensures Valid()
      ensures activities == old(activities) + [UserActivity(old(nextActivityId), userId, activityType, title, description, clock)]
      ensures users == old(users) && uploads == old(uploads) && clock == old(clock)
      ensures nextUserId == old(nextUserId) && nextUploadId == old(nextUploadId)
    {
      activities := activities + [UserActivity(nextActivityId, userId, activityType, title, description, clock)];
      nextActivityId := nextActivityId + 1;
    }

    /** Moves the clock forward to `now`. */
    method Tick(now: int)
      requires Valid() && now >= clock
      modifies this
      ensures Valid()
      ensures clock == now
      ensures users == old(users) && uploads == old(uploads) && activities == old(activities)
      ensures nextUserId == old(nextUserId) && nextUploadId == old(nextUploadId) && nextActivityId == old(nextActivityId)
    {
      clock := now;
    }

    /** `POST /signup`: on success a new active user is added and a signup
        activity logged; otherwise nothing changes.  `hash` stands for the
        password hashing. */
    method Signup(req: SignupRequest, hash: string -> string, now: int) returns (r: Result<int>)
      requires Valid() && now >= clock
      modifies this
      ensures Valid()
      ensures uploads == old(uploads)
      ensures r.Err? <==> SignupCheck(old(users), req).Some?
      ensures r.Err? ==> r.error == SignupCheck(old(users), req).value
                         && users == old(users) && activities == old(activities)
      ensures r.Ok? ==> && r.value == old(nextUserId)
                        && users == old(users) + [User(r.value, req.firstName, req.lastName, req.email, hash(req.password),
                                                       req.userType, req.companyName, req.industry, true, now, now)]
                        && activities == old(activities) + [UserActivity(old(nextActivityId), r.value, "signup",
                                                                         "Account Created",
                                                                         Some(SignupDescription(req.userType)), now)]
    {
      Tick(now);
      var check := SignupCheck(users, req);
      if check.Some? {
        return Err(check.value);
      }
      var id := nextUserId;
      users := users + [User(id, req.firstName, req.lastName, req.email, hash(req.password),
                             req.userType, req.companyName, req.industry, true, now, now)];
      nextUserId := nextUserId + 1;
      Log(id, "signup", "Account Created", Some(SignupDescription(req.userType)));
      r := Ok(id);
    }

    /** `POST /login`: a successful login is logged. */
    method Login(email: string, password: string, verify: (string, string) -> bool, now: int) returns (r: Result<User>)
      requires Valid() && now >= clock
      modifies this
      ensures Valid()
      ensures users == old(users) && uploads == old(uploads)
      ensures r == LoginCheck(users, email, password, verify)
      ensures r.Err? ==> activities == old(activities)
      ensures r.Ok? ==> activities == old(activities) + [UserActivity(old(nextActivityId), r.value.id, "login",
                                                                      "User Login",
                                                                      Some("User logged in successfully"), now)]
    {
      Tick(now);
      r := LoginCheck(users, email, password, verify);
      if r.Ok? {
        Log(r.value.id, "login", "User Login", Some("User logged in successfully"));
      }
    }

    /** `PUT /profile`: only the names given are changed, and `updated_at`
        is always set. */
    method UpdateProfile(userId: int, firstName: Option<string>, lastName: Option<string>, now: int) returns (r: Result<User>)
      requires Valid() && now >= clock
      modifies this
      ensures Valid()
      ensures uploads == old(uploads)
      ensures UserIndex(old(users), userId).None? ==>
                r == Err(HttpError(401, "User not found")) && users == old(users) && activities == old(activities)
      ensures UserIndex(old(users), userId).Some? ==>
                var k := UserIndex(old(users), userId).value;
                && users == old(users)[k := Patched(old(users)[k], firstName, lastName, now)]
                && r == Ok(users[k])
                && activities == old(activities) + [UserActivity(old(nextActivityId), userId, "profile",
                                                                 "Profile Updated",
                                                                 Some("User profile information updated"), now)]
    {
      Tick(now);
      var found := UserIndex(users, userId);
      if found.None? {
        return Err(HttpError(401, "User not found"));
      }
      var k := found.value;
      var patched := Patched(users[k], firstName, lastName, now);
      users := users[k := patched];
      Log(userId, "profile", "Profile Updated", Some("User profile information updated"));
      r := Ok(patched);
    }

    /** `POST /upload`: the checks run before anything is stored. */
    method Upload(userId: int, filename: string, mimeType: string, contentType: string,
                  tags: Option<string>, now: int) returns (r: Result<int>)
      requires Valid() && now >= clock
      modifies this
      ensures Valid()
      ensures users == old(users)
      ensures UserIndex(users, userId).None? ==> r == Err(HttpError(401, "User not found"))
      ensures UserIndex(users, userId).Some? ==> (r.Err? <==> UploadCheck(contentType, mimeType).Some?)
      ensures UserIndex(users, userId).Some? && r.Err? ==> r.error == UploadCheck(contentType, mimeType).value
      ensures r.Err? ==> uploads == old(uploads) && activities == old(activities)
      ensures r.Ok? ==> && r.value == old(nextUploadId)
                        && uploads == old(uploads) + [UserUpload(r.value, userId, filename,
                                                                 "user_uploads/" + IntText(userId) + "/" + filename,
                                                                 contentType, tags, now)]
                        && activities == old(activities) + [UserActivity(old(nextActivityId), userId, "upload",
                                                                         "Content Uploaded",
                                                                         Some(KindTitle(contentType) + " file uploaded: " + filename),
                                                                         now)]
    {
      Tick(now);
      if UserIndex(users, userId).None? {
        return Err(HttpError(401, "User not found"));
      }
      var check := UploadCheck(contentType, mimeType);
      if check.Some? {
        return Err(check.value);
      }
      var id := nextUploadId;
      uploads := uploads + [UserUpload(id, userId, filename, "user_uploads/" + IntText(userId) + "/" + filename,
                                       contentType, tags, now)];
      nextUploadId := nextUploadId + 1;
      Log(userId, "upload", "Content Uploaded", Some(KindTitle(contentType) + " file uploaded: " + filename));
      r := Ok(id);
    }

    /** `GET /uploads/{id}`: only the caller's own upload is found. */
    function GetUpload(userId: int, uploadId: int): (r: Result<UserUpload>)
      reads this
      ensures UserIndex(users, userId).None? ==> r == Err(HttpError(401, "User not found"))
      ensures r.Ok? ==> r.value in uploads && r.value.id == uploadId && r.value.userId == userId
      ensures UserIndex(users, userId).Some? ==>
                (r.Err? <==> forall u :: u in uploads ==> !(u.id == uploadId && u.userId == userId))
      ensures UserIndex(users, userId).Some? && r.Err? ==> r.error == HttpError(404, "Upload not found")
    {
      if UserIndex(users, userId).None? then Err(HttpError(401, "User not found"))
      else match OwnUploadIndex(uploads, userId, uploadId)
      case None => Err(HttpError(404, "Upload not found"))
      case Some(k) => Ok(uploads[k])
    }

    /** `DELETE /uploads/{id}`: removes exactly the caller's own record. */
    method DeleteUpload(userId: int, uploadId: int, now: int) returns (r: Result<string>)
      requires Valid() && now >= clock
      modifies this
      ensures Valid()
      ensures users == old(users)
      ensures UserIndex(users, userId).None? ==>
                r == Err(HttpError(401, "User not found")) && uploads == old(uploads) && activities == old(activities)
      ensures UserIndex(users, userId).Some? && OwnUploadIndex(old(uploads), userId, uploadId).None? ==>
                r == Err(HttpError(404, "Upload not found")) && uploads == old(uploads) && activities == old(activities)
      ensures UserIndex(users, userId).Some? && OwnUploadIndex(old(uploads), userId, uploadId).Some? ==>
                var k := OwnUploadIndex(old(uploads), userId, uploadId).value;
                && uploads == RemoveAt(old(uploads), k)
                && r == Ok("Upload deleted successfully")
                && activities == old(activities) + [UserActivity(old(nextActivityId), userId, "delete",
                                                                 "Content Deleted",
                                                                 Some("Upload deleted: " + old(uploads)[k].filename), now)]
    {
      Tick(now);
      if UserIndex(users, userId).None? {
        return Err(HttpError(401, "User not found"));
      }
      var found := OwnUploadIndex(uploads, userId, uploadId);
      if found.None? {
        return Err(HttpError(404, "Upload not found"));
      }
      var k := found.value;
      var filename := uploads[k].filename;
      uploads := RemoveAt(uploads, k);
      Log(userId, "delete", "Content Deleted", Some("Upload deleted: " + filename));
      r := Ok("Upload deleted successfully");
    }

    /** `GET /statistics` at time `now` for user `userId`. */
    function UserStatistics(userId: int, now: int): (r: Result<Statistics>)
      reads this
      ensures r.Err? <==> UserIndex(users, userId).None?
      ensures r.Ok? ==> && r.value.totalPdfs <= r.value.totalUploads
                        && r.value.totalUploads == |UploadsOf(uploads, userId)|
                        && r.value.totalPdfs == |PdfsOf(UploadsOf(uploads, userId))|
                        && r.value.totalMatches == 0
      ensures r.Ok? && now >= users[UserIndex(users, userId).value].createdAt ==> r.value.daysActive >= 1
      ensures r.Ok? ==> var created := users[UserIndex(users, userId).value].createdAt;
                        created + (r.value.daysActive - 1) * SecondsPerDay <= now
                        < created + r.value.daysActive * SecondsPerDay
    {
      match UserIndex(users, userId)
      case None => Err(HttpError(401, "User not found"))
      case Some(k) =>
        var mine := UploadsOf(uploads, userId);
        Ok(Statistics(|mine|, |PdfsOf(mine)|, 0, (now - users[k].createdAt) / SecondsPerDay + 1))
    }

    /** `GET /activity`: at most 50 of the caller's activities, newest
        first, and none older than the ones left out. */
    function RecentActivity(userId: int): (r: Result<seq<UserActivity>>)
      requires Valid()
      reads this
      ensures r.Err? <==> UserIndex(users, userId).None?
      ensures r.Err? ==> r.error == HttpError(401, "User not found")
      ensures r.Ok? ==> r.value == NewestFirst(ActivitiesOf(activities, userId))
      ensures r.Ok? ==> |r.value| <= ActivityLimit
      ensures r.Ok? ==> forall k :: 0 <= k < |r.value| ==> r.value[k] in activities && r.value[k].userId == userId
      ensures r.Ok? ==> forall j, k :: 0 <= j < k < |r.value| ==> r.value[j].timestamp >= r.value[k].timestamp
      ensures r.Ok? && |r.value| < ActivityLimit ==> |r.value| == |ActivitiesOf(activities, userId)|
      ensures r.Ok? ==> HoldsNewestOf(r.value, ActivitiesOf(activities, userId))
      ensures r.Ok? ==> var mine := ActivitiesOf(activities, userId);
                        forall j :: 0 <= j < |mine| - |r.value| ==> mine[j].timestamp <= r.value[|r.value| - 1].timestamp
    {
      if UserIndex(users, userId).None? then Err(HttpError(401, "User not found"))
      else
        var mine := ActivitiesOf(activities, userId);
        NewestOfCaller(activities, userId);
        Ok(NewestFirst(mine))
    }
  }
}
