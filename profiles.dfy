/** The records the profile service reads and writes: the user (email and
    verification flag), the editable profile fields as a request carries them, the
    stored talent profile, and the response of the read path. A Java `null` is `None`. */
module Profiles {
  import opened Wrappers

  /** The user record, as far as the profile service looks at it. */
  datatype User = User(email: string, verified: bool)

  /** The twenty-three fields a caller edits: the shape of the request, and the
      editable part of both the stored profile and the response. */
  datatype ProfileFields = ProfileFields(
    firstName: Option<string>,
    lastName: Option<string>,
    phone: Option<string>,
    location: Option<string>,
    profilePicture: Option<string>,
    bio: Option<string>,
    headline: Option<string>,
    skills: Option<seq<string>>,
    experienceLevel: Option<string>,
    currentPosition: Option<string>,
    company: Option<string>,
    highestDegree: Option<string>,
    institution: Option<string>,
    fieldOfStudy: Option<string>,
    graduationYear: Option<int>,
    transcript: Option<string>,
    statementOfPurpose: Option<string>,
    resumeUrl: Option<string>,
    portfolioUrl: Option<string>,
    preferredRoles: Option<seq<string>>,
    workMode: Option<string>,
    salaryExpectation: Option<string>,
    locationPreference: Option<string>)

  /** Every editable field null. */
  const NoFields: ProfileFields :=
    ProfileFields(None, None, None, None, None, None, None, None, None, None, None, None,
                  None, None, None, None, None, None, None, None, None, None, None)

  /** The stored profile document: its identity, the editable fields, and the derived
      completeness, missing-field list and visibility. */
  datatype TalentProfile = TalentProfile(
    id: Option<string>,
    userId: Option<string>,
    firstName: Option<string>,
    lastName: Option<string>,
    phone: Option<string>,
    location: Option<string>,
    profilePicture: Option<string>,
    bio: Option<string>,
    headline: Option<string>,
    skills: Option<seq<string>>,
    experienceLevel: Option<string>,
    currentPosition: Option<string>,
    company: Option<string>,
    highestDegree: Option<string>,
    institution: Option<string>,
    fieldOfStudy: Option<string>,
    graduationYear: Option<int>,
    transcript: Option<string>,
    statementOfPurpose: Option<string>,
    resumeUrl: Option<string>,
    portfolioUrl: Option<string>,
    preferredRoles: Option<seq<string>>,
    workMode: Option<string>,
    salaryExpectation: Option<string>,
    locationPreference: Option<string>,
    completeness: int,
    missingFields: Option<seq<string>>,
    profileVisible: bool)

  /** The editable fields of a stored profile. */
  function Editable(p: TalentProfile): ProfileFields {
    ProfileFields(
      p.firstName, p.lastName, p.phone, p.location, p.profilePicture,
      p.bio, p.headline, p.skills, p.experienceLevel, p.currentPosition, p.company,
      p.highestDegree, p.institution, p.fieldOfStudy, p.graduationYear,
      p.transcript, p.statementOfPurpose, p.resumeUrl, p.portfolioUrl,
      p.preferredRoles, p.workMode, p.salaryExpectation, p.locationPreference)
  }

  /** A freshly constructed profile for `userId`: no id yet, every editable field
      null, completeness 0, no missing list, and visible (the field's initialiser). */
  function NewProfile(userId: string): (p: TalentProfile)
    ensures Editable(p) == NoFields
    ensures p.id == None && p.userId == Some(userId)
    ensures p.completeness == 0 && p.missingFields == None && p.profileVisible
  {
    TalentProfile(None, Some(userId),
                  None, None, None, None, None, None, None, None, None, None, None,
                  None, None, None, None, None, None, None, None, None, None, None, None,
                  0, None, true)
  }

  /** What the read path returns. */
  datatype TalentProfileResponse = TalentProfileResponse(
    status: string,
    message: Option<string>,
    email: Option<string>,
    verified: bool,
    firstName: Option<string>,
    lastName: Option<string>,
    phone: Option<string>,
    location: Option<string>,
    profilePicture: Option<string>,
    bio: Option<string>,
    headline: Option<string>,
    skills: Option<seq<string>>,
    experienceLevel: Option<string>,
    currentPosition: Option<string>,
    company: Option<string>,
    highestDegree: Option<string>,
    institution: Option<string>,
    fieldOfStudy: Option<string>,
    graduationYear: Option<int>,
    transcript: Option<string>,
    statementOfPurpose: Option<string>,
    resumeUrl: Option<string>,
    portfolioUrl: Option<string>,
    preferredRoles: Option<seq<string>>,
    workMode: Option<string>,
    salaryExpectation: Option<string>,
    locationPreference: Option<string>,
    completeness: int,
    missingFields: Option<seq<string>>,
    profileVisible: bool)

  /** The editable fields carried by a response. */
  function ResponseFields(r: TalentProfileResponse): ProfileFields {
    ProfileFields(
      r.firstName, r.lastName, r.phone, r.location, r.profilePicture,
      r.bio, r.headline, r.skills, r.experienceLevel, r.currentPosition, r.company,
      r.highestDegree, r.institution, r.fieldOfStudy, r.graduationYear,
      r.transcript, r.statementOfPurpose, r.resumeUrl, r.portfolioUrl,
      r.preferredRoles, r.workMode, r.salaryExpectation, r.locationPreference)
  }

  /** A newly constructed response: status "success" and every other field at its
      Java default (null, false or 0). */
  const EmptyResponse: TalentProfileResponse :=
    TalentProfileResponse("success", None, None, false,
                          None, None, None, None, None, None, None, None, None, None, None,
                          None, None, None, None, None, None, None, None, None, None, None, None,
                          0, None, false)
}
