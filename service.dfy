/** The talent profile service: the write path that validates a request, merges it
    into the caller's profile, rescores the profile and stores it, and the read path
    that turns the stored profile (or its absence) into a response. */
module ProfileService {
  import opened Wrappers
  import opened Strings
  import opened Profiles
  import opened Scoring

  const UserNotFound := "USER_NOT_FOUND"
  const EmailNotVerified := "EMAIL_NOT_VERIFIED"
  const TranscriptTooLong := "Transcript too long, please shorten it thanks."
  const StatementTooLong := "Statement of Purpose too long, please shorten it thanks."
  const BioTooLong := "Bio too long, please shorten it thanks."

  /** Longest accepted transcript, statement of purpose and bio, in characters. */
  const MaxTranscript: nat := 1000
  const MaxStatement: nat := 2000
  const MaxBio: nat := 500

  const SuccessPrefix := "Talent profile updated successfully ("
  const SuccessSuffix := "% complete)"
  const LoadedMessage := "Profile loaded successfully"
  const NotStartedMessage := "Profile not started. Complete your profile to get started!"

  /** The missing list the read path reports for a user with no profile. */
  const DefaultMissing: seq<string> :=
    ["firstName", "lastName", "bio", "headline", "skills",
     "experienceLevel", "location", "transcript", "statementOfPurpose"]

  // ---------------------------------------------------------------------------
  // Validation

  /** A non-null field longer than `max` characters. */
  predicate TooLong(field: Option<string>, max: nat) {
    field.Some? && |field.value| > max
  }

  /** The length check of the write path: the transcript is checked first, then the
      statement of purpose, then the bio, and the first one too long decides the
      error. */
  function LengthError(request: ProfileFields): (e: Option<string>)
    ensures e.None? <==>
      !TooLong(request.transcript, MaxTranscript) &&
      !TooLong(request.statementOfPurpose, MaxStatement) &&
      !TooLong(request.bio, MaxBio)
    ensures e == Some(TranscriptTooLong) <==> TooLong(request.transcript, MaxTranscript)
    ensures e == Some(StatementTooLong) <==>
      !TooLong(request.transcript, MaxTranscript) &&
      TooLong(request.statementOfPurpose, MaxStatement)
    ensures e == Some(BioTooLong) <==>
      !TooLong(request.transcript, MaxTranscript) &&
      !TooLong(request.statementOfPurpose, MaxStatement) &&
      TooLong(request.bio, MaxBio)
  {
    if TooLong(request.transcript, MaxTranscript) then Some(TranscriptTooLong)
    else if TooLong(request.statementOfPurpose, MaxStatement) then Some(StatementTooLong)
    else if TooLong(request.bio, MaxBio) then Some(BioTooLong)
    else None
  }

  // ---------------------------------------------------------------------------
  // Merging, upserting, messages

  /** `updateProfileFields`: every editable field of the profile takes the request's
      value, null included (a full replace, not a patch); identity, score, missing
      list and visibility are untouched. */
  function UpdateProfileFields(profile: TalentProfile, request: ProfileFields): (q: TalentProfile)
    ensures Editable(q) == request
    ensures q.id == profile.id && q.userId == profile.userId
    ensures q.completeness == profile.completeness && q.missingFields == profile.missingFields
    ensures q.profileVisible == profile.profileVisible
  {
    profile.(firstName := request.firstName, lastName := request.lastName,
             phone := request.phone, location := request.location,
             profilePicture := request.profilePicture,
             bio := request.bio, headline := request.headline, skills := request.skills,
             experienceLevel := request.experienceLevel,
             currentPosition := request.currentPosition, company := request.company,
             highestDegree := request.highestDegree, institution := request.institution,
             fieldOfStudy := request.fieldOfStudy, graduationYear := request.graduationYear,
             transcript := request.transcript, statementOfPurpose := request.statementOfPurpose,
             resumeUrl := request.resumeUrl, portfolioUrl := request.portfolioUrl,
             preferredRoles := request.preferredRoles, workMode := request.workMode,
             salaryExpectation := request.salaryExpectation,
             locationPreference := request.locationPreference)
  }

  /** The profile the write path starts from: the stored one, or a new one. */
  function BaseProfile(profiles: map<string, TalentProfile>, userId: string): TalentProfile {
    if userId in profiles then profiles[userId] else NewProfile(userId)
  }

  /** The profile a successful write stores: the request merged into the base
      profile, then rescored. It carries exactly the request's fields, its score and
      missing list agree with them, and it keeps the stored profile's identity and
      visibility (a new profile has no id yet and is visible). */
  function Upserted(profiles: map<string, TalentProfile>, userId: string, request: ProfileFields)
    : (p: TalentProfile)
    ensures Editable(p) == request && Consistent(p)
    ensures userId in profiles ==>
      p.id == profiles[userId].id && p.userId == profiles[userId].userId &&
      p.profileVisible == profiles[userId].profileVisible
    ensures userId !in profiles ==> p.id == None && p.userId == Some(userId) && p.profileVisible
  {
    var merged := UpdateProfileFields(BaseProfile(profiles, userId), request);
    merged.(completeness := Completeness(request), missingFields := Some(MissingFields(request)))
  }

  /** The confirmation of a write, which reports the new score. */
  function SuccessMessage(completeness: nat): (m: string)
    ensures |m| > |SuccessPrefix| + |SuccessSuffix|
    ensures m[..|SuccessPrefix|] == SuccessPrefix && m[|m| - |SuccessSuffix|..] == SuccessSuffix
  {
    SuccessPrefix + NatToString(completeness) + SuccessSuffix
  }

  /** `mapProfileToResponse`: the response carries the profile's editable fields,
      score, missing list and visibility, and the "loaded" message; the status, email
      and verification flag it already had are kept. */
  function MapProfileToResponse(profile: TalentProfile, response: TalentProfileResponse)
    : (q: TalentProfileResponse)
    ensures ResponseFields(q) == Editable(profile)
    ensures q.completeness == profile.completeness && q.missingFields == profile.missingFields
    ensures q.profileVisible == profile.profileVisible
    ensures q.message == Some(LoadedMessage)
    ensures q.status == response.status && q.email == response.email && q.verified == response.verified
  {
    response.(firstName := profile.firstName, lastName := profile.lastName,
              phone := profile.phone, location := profile.location,
              profilePicture := profile.profilePicture,
              bio := profile.bio, headline := profile.headline, skills := profile.skills,
              experienceLevel := profile.experienceLevel,
              currentPosition := profile.currentPosition, company := profile.company,
              highestDegree := profile.highestDegree, institution := profile.institution,
              fieldOfStudy := profile.fieldOfStudy, graduationYear := profile.graduationYear,
              transcript := profile.transcript, statementOfPurpose := profile.statementOfPurpose,
              resumeUrl := profile.resumeUrl, portfolioUrl := profile.portfolioUrl,
              preferredRoles := profile.preferredRoles, workMode := profile.workMode,
              salaryExpectation := profile.salaryExpectation,
              locationPreference := profile.locationPreference,
              completeness := profile.completeness, missingFields := profile.missingFields,
              profileVisible := profile.profileVisible, message := Some(LoadedMessage))
  }

  /** The stored profiles agree with their keys and with their own fields, and
      belong to known users. */
  predicate ValidStore(users: map<string, User>, profiles: map<string, TalentProfile>) {
    forall userId :: userId in profiles ==>
      userId in users && profiles[userId].userId == Some(userId) && Consistent(profiles[userId])
  }

  // ---------------------------------------------------------------------------
  // The service

  /** The service over its two repositories: users by id, and talent profiles by the
      id of the user they belong to. */
  class TalentProfileService {
    var users: map<string, User>
    var profiles: map<string, TalentProfile>

    ghost predicate Valid()
      reads this
    {
      ValidStore(users, profiles)
    }

    constructor(users: map<string, User>, profiles: map<string, TalentProfile>)
      ensures this.users == users && this.profiles == profiles
    {
      this.users := users;
      this.profiles := profiles;
    }

    /** `createOrUpdateProfile`: the user must exist and be verified, the request
        must pass the length check, and then the caller's profile becomes the
        request merged and rescored; the reply reports the new score. A failed call
        stores nothing. */
    method CreateOrUpdateProfile(userId: string, request: ProfileFields) returns (r: Result<string>)
      modifies this`profiles
      ensures userId !in users ==> r == Err(UserNotFound)
      ensures userId in users && !users[userId].verified ==> r == Err(EmailNotVerified)
      ensures userId in users && users[userId].verified && LengthError(request).Some? ==>
        r == Err(LengthError(request).value)
      ensures userId in users && users[userId].verified && LengthError(request).None? ==>
        r == Ok(SuccessMessage(Completeness(request)))
      ensures r.Err? ==> profiles == old(profiles)
      ensures r.Ok? ==> profiles == old(profiles)[userId := Upserted(old(profiles), userId, request)]
      ensures old(Valid()) ==> Valid()
    {
      if userId !in users {
        return Err(UserNotFound);
      }
      var user := users[userId];
      if !user.verified {
        return Err(EmailNotVerified);
      }

      var profile := BaseProfile(profiles, userId);

      if request.transcript.Some? && |request.transcript.value| > MaxTranscript {
        return Err(TranscriptTooLong);
      }
      if request.statementOfPurpose.Some? && |request.statementOfPurpose.value| > MaxStatement {
        return Err(StatementTooLong);
      }
      if request.bio.Some? && |request.bio.value| > MaxBio {
        return Err(BioTooLong);
      }

      profile := UpdateProfileFields(profile, request);
      profile := CalculateCompleteness(profile);
      UpsertKeepsStoreValid(users, profiles, userId, request);
      profiles := profiles[userId := profile];

      CompletenessScore(request);
      return Ok(SuccessMessage(profile.completeness));
    }

    /** `getMyProfile`: fails only for an unknown user (verification is not
        required). The response always carries the user's email and verification
        flag; with a stored profile it carries that profile, without one it reports
        score 0, the default missing list and the "not started" message. */
    method GetMyProfile(userId: string) returns (r: Result<TalentProfileResponse>)
      ensures r.Err? <==> userId !in users
      ensures r.Err? ==> r.message == UserNotFound
      ensures r.Ok? ==>
        r.value.status == "success" &&
        r.value.email == Some(users[userId].email) && r.value.verified == users[userId].verified
      ensures r.Ok? && userId in profiles ==>
        ResponseFields(r.value) == Editable(profiles[userId]) &&
        r.value.completeness == profiles[userId].completeness &&
        r.value.missingFields == profiles[userId].missingFields &&
        r.value.profileVisible == profiles[userId].profileVisible &&
        r.value.message == Some(LoadedMessage)
      ensures r.Ok? && userId !in profiles ==>
        ResponseFields(r.value) == NoFields &&
        r.value.completeness == 0 && r.value.missingFields == Some(DefaultMissing) &&
        !r.value.profileVisible && r.value.message == Some(NotStartedMessage)
      ensures Valid() && r.Ok? && userId in profiles ==>
        r.value.completeness == Completeness(ResponseFields(r.value)) &&
        r.value.missingFields == Some(MissingFields(ResponseFields(r.value)))
    {
      if userId !in users {
        return Err(UserNotFound);
      }
      var user := users[userId];
      var response := EmptyResponse.(email := Some(user.email), verified := user.verified);

      if userId in profiles {
        response := MapProfileToResponse(profiles[userId], response);
      } else {
        response := response.(completeness := 0, missingFields := Some(DefaultMissing),
                              message := Some(NotStartedMessage));
      }
      return Ok(response);
    }
  }

  // ---------------------------------------------------------------------------
  // Properties of the write and read paths

  /** A successful write keeps the store valid. */
  lemma UpsertKeepsStoreValid(users: map<string, User>, profiles: map<string, TalentProfile>,
                              userId: string, request: ProfileFields)
    requires userId in users
    ensures ValidStore(users, profiles) ==>
      ValidStore(users, profiles[userId := Upserted(profiles, userId, request)])
  {
  }

  /** Writing the same request twice stores the same profile as writing it once. */
  lemma UpsertIdempotent(profiles: map<string, TalentProfile>, userId: string, request: ProfileFields)
    ensures var once := profiles[userId := Upserted(profiles, userId, request)];
            Upserted(once, userId, request) == Upserted(profiles, userId, request)
  {
  }

  /** Reading after a successful write returns the request's fields, with the score
      and missing list computed from them. */
  lemma ReadAfterWrite(profiles: map<string, TalentProfile>, userId: string, request: ProfileFields,
                       response: TalentProfileResponse)
    ensures var r := MapProfileToResponse(Upserted(profiles, userId, request), response);
            ResponseFields(r) == request &&
            r.completeness == Completeness(request) && r.missingFields == Some(MissingFields(request))
  {
  }

  /** The score can be read back out of the confirmation message. */
  lemma SuccessMessageReportsScore(completeness: nat)
    ensures var m := SuccessMessage(completeness);
            ParseNat(m[|SuccessPrefix|..|m| - |SuccessSuffix|]) == completeness
  {
    var m := SuccessMessage(completeness);
    assert m[|SuccessPrefix|..|m| - |SuccessSuffix|] == NatToString(completeness);
    ParseNatToString(completeness);
  }

  /** The read path's list for a user with no profile is the list a stored empty
      profile would carry, except that it leaves out "resumeUrl". */
  lemma DefaultMissingOmitsResume()
    ensures MissingFields(NoFields) == DefaultMissing + ["resumeUrl"]
    ensures "resumeUrl" !in DefaultMissing
    ensures |DefaultMissing| == TotalFields - 1
  {
    NoFieldsMissing();
  }
}
