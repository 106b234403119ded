# Talent profile service — a verified Dafny model

This project models the profile service of a small talent-profile backend
(`TalentProfileService`). The service has two operations.

- The write path, `createOrUpdateProfile`, works in this order:
  - it looks up the user, and stops if the user is unknown or the user's email is not verified;
  - it finds the user's stored profile, or creates one;
  - it rejects a transcript, statement of purpose or bio that is too long;
  - it overwrites every editable field with the request's value;
  - it recomputes the completeness score and the missing-field list from ten tracked fields;
  - it saves the profile and replies with the score.
- The read path, `getMyProfile`, returns the user's email and verification flag, plus either:
  - the stored profile, or
  - a "not started" default when no profile exists.

Files:

- `wrappers.dfy`: the module `Wrappers`, holding `Option` (a Java `null` is `None`) and `Result` (a thrown `CustomException` is `Err(message)`).
- `strings.dfy`: the module `Strings`, holding:
  - Java's `trim`, which strips every character `<= ' '` at both ends;
  - the decimal rendering of a non-negative `int` used in the confirmation message, together with its parser.
- `profiles.dfy`: the module `Profiles`, holding:
  - the user record;
  - the 23 editable fields (`ProfileFields`), which is the request's shape;
  - the stored `TalentProfile` document;
  - the `TalentProfileResponse` DTO.

  `Editable` and `ResponseFields` project the editable part out of a profile or a response.
- `completeness.dfy`: the module `Scoring`, holding:
  - the ten tracked fields in their checking order;
  - `isNotEmpty`;
  - the specification of the score and of the missing list, with lemmas about both;
  - `calculateCompleteness`, written as the service runs it and proved against that specification.
- `service.dfy`: the module `ProfileService`, holding:
  - the length check, the merge and the response mapping;
  - the class `TalentProfileService`, whose two maps stand for the user repository and the profile repository;
  - the two service operations as methods, with lemmas about the write path and the read path.

## Model

| member | source | states |
|---|---|---|
| Scoring.IsNotEmptyTrimmed | src/main/java/org/example/enumtalentapi/service/TalentProfileService.java:129-131 | `isNotEmpty` holds exactly for a non-null string that does not trim to empty, which is the same as having some character above `' '` |
| Strings.Trim | src/main/java/org/example/enumtalentapi/service/TalentProfileService.java:130 | the result is a slice of the input whose cut-off ends are all `<= ' '`; it is empty exactly when every character is `<= ' '`, and otherwise starts and ends with a character above `' '` |
| Scoring.PresenceRules | src/main/java/org/example/enumtalentapi/service/TalentProfileService.java:94-122 | each of the nine string fields counts as present iff it is non-null and not all space (`isNotEmpty`); skills counts iff the list is non-null and non-empty, whatever its entries (line 106), so a list holding one blank skill counts |
| Scoring.CheckField | src/main/java/org/example/enumtalentapi/service/TalentProfileService.java:94-122 | one of the ten checks, for any counter and list: a present field bumps the counter by one and leaves the list, an absent one leaves the counter and appends its name; so it takes the state after the earlier checks to the state after this one |
| Scoring.CalculateCompleteness | src/main/java/org/example/enumtalentapi/service/TalentProfileService.java:89-127 | the ten checks in source order leave in the profile the score `Scoring.Completeness` and the list `Scoring.MissingFields` of the profile's editable fields, and change nothing else |
| Scoring.CompletenessScore | src/main/java/org/example/enumtalentapi/service/TalentProfileService.java:124 | the score is 10 points per present field, a multiple of 10 in 0..100; it is 100 iff every tracked field is present iff nothing is missing, and 0 iff none is present |
| Scoring.MissingFieldsSpec | src/main/java/org/example/enumtalentapi/service/TalentProfileService.java:90-122 | the missing list names exactly the absent tracked fields (both directions; "present" as in `Scoring.PresenceRules`), with no duplicates and in checking order; its length plus the number of present fields is 10 |
| Scoring.TrackedOrderAt | src/main/java/org/example/enumtalentapi/service/TalentProfileService.java:94-122 | the checking order `Scoring.TrackedOrder` has ten entries, the k-th being the field checked k-th, and contains every tracked field |
| Scoring.AllMissing | src/main/java/org/example/enumtalentapi/service/TalentProfileService.java:94-122 | when no tracked field is present, the first k checks miss exactly the first k fields of the checking order |
| Scoring.NoFieldsMissing | src/main/java/org/example/enumtalentapi/service/TalentProfileService.java:94-124 | a profile with every field null scores 0, misses every tracked field in the order `Scoring.TrackedOrder`, and lists all ten names in that order |
| Scoring.FieldNameInjective | src/main/java/org/example/enumtalentapi/service/TalentProfileService.java:95-122 | two tracked fields share a missing-list name only when they are the same field |
| Scoring.CountPlusMissing | src/main/java/org/example/enumtalentapi/service/TalentProfileService.java:94-122 | after the first k checks, the counter plus the length of the missing list is k |
| Scoring.CountZero | src/main/java/org/example/enumtalentapi/service/TalentProfileService.java:94-122 | after the first k checks, the counter is 0 iff none of those k fields is present |
| Scoring.CountFull | src/main/java/org/example/enumtalentapi/service/TalentProfileService.java:94-122 | after the first k checks, the counter is at most k, and equals k iff all of those k fields are present |
| Scoring.MissingUpToMember | src/main/java/org/example/enumtalentapi/service/TalentProfileService.java:94-122 | a field is among the absent ones after k checks iff it is checked before position k and is not present |
| Scoring.MissingUpToAscending | src/main/java/org/example/enumtalentapi/service/TalentProfileService.java:94-122 | the absent fields appear in checking order, each one before position k |
| Scoring.NamesOfMissing | src/main/java/org/example/enumtalentapi/service/TalentProfileService.java:94-122 | the missing list after k checks is the list of names of the absent fields |
| Profiles.NewProfile | src/main/java/org/example/enumtalentapi/service/TalentProfileService.java:34-38 | a new profile has the caller's user id, no id yet, every editable field null, score 0, no missing list, and is visible (entity default at TalentProfile.java line 49) |
| ProfileService.LengthError | src/main/java/org/example/enumtalentapi/service/TalentProfileService.java:40-48 | no error iff transcript <= 1000, statement of purpose <= 2000 and bio <= 500 characters (null passes); otherwise the first failing check in that order names the error |
| ProfileService.UpdateProfileFields | src/main/java/org/example/enumtalentapi/service/TalentProfileService.java:59-87 | every editable field takes the request's value, null included (a full replace); id, user id, score, missing list and visibility are untouched |
| ProfileService.Upserted | src/main/java/org/example/enumtalentapi/service/TalentProfileService.java:33-54 | the stored profile carries exactly the request's fields, and its score and missing list agree with them; it keeps the stored profile's id, user id and visibility, and a new profile has no id, the caller's user id and is visible |
| ProfileService.SuccessMessage | src/main/java/org/example/enumtalentapi/service/TalentProfileService.java:56 | the confirmation begins "Talent profile updated successfully (" and ends "% complete)" |
| ProfileService.SuccessMessageReportsScore | src/main/java/org/example/enumtalentapi/service/TalentProfileService.java:56 | the number between that prefix and suffix reads back as the score |
| ProfileService.MapProfileToResponse | src/main/java/org/example/enumtalentapi/service/TalentProfileService.java:158-191 | the response carries the profile's editable fields, score, missing list and visibility, plus the message "Profile loaded successfully"; its status, email and verified flag are kept |
| ProfileService.TalentProfileService.CreateOrUpdateProfile | src/main/java/org/example/enumtalentapi/service/TalentProfileService.java:24-57 | gives `USER_NOT_FOUND` for an unknown user, then `EMAIL_NOT_VERIFIED` for an unverified one, then the length error; a failed call leaves the store alone; otherwise it stores `Upserted` under the user id and replies with the score of the request; the store invariant is kept |
| ProfileService.TalentProfileService.GetMyProfile | src/main/java/org/example/enumtalentapi/service/TalentProfileService.java:133-156 | fails iff the user is unknown (verification is not required); always returns the user's email and verified flag with status "success"; with a stored profile it returns that profile's fields, score, missing list and visibility, and with a valid store those agree with the returned fields; without one it returns null fields, score 0, the nine-name default list, not visible, and the "not started" message |
| ProfileService.UpsertKeepsStoreValid | src/main/java/org/example/enumtalentapi/service/TalentProfileService.java:33-54 | for a known user, if the store was valid before a successful write it is valid after: each stored profile still belongs to a known user, sits under its own user id, and has a score and missing list computed from its fields |
| ProfileService.UpsertIdempotent | src/main/java/org/example/enumtalentapi/service/TalentProfileService.java:33-54 | writing the same request a second time stores the same profile as the first write |
| ProfileService.ReadAfterWrite | src/main/java/org/example/enumtalentapi/service/TalentProfileService.java:50-54 | reading a freshly written profile returns the request's fields, with the score and missing list computed from them |
| ProfileService.DefaultMissingOmitsResume | src/main/java/org/example/enumtalentapi/service/TalentProfileService.java:150-151 | the read path's default list for a user with no profile is the list an empty stored profile would carry minus its last name, "resumeUrl" |
| Strings.ParseNatToString | src/main/java/org/example/enumtalentapi/service/TalentProfileService.java:56 | the decimal rendering of a score parses back to the same number |

For a user with no profile, the read path's default list
(`TalentProfileService.java:150-151`) has nine names. It omits `resumeUrl`, which
the scorer lists for an empty profile. The model keeps the nine names, and
`DefaultMissingOmitsResume` states the difference.

## Left out

- The web layer (controllers, the security configuration, token handling) and the tests: they sit outside the service.
- The repositories themselves: they are the two maps of the class. What they do on their own is not modelled: Mongo assigning an id on the first save. A new profile is therefore stored with no id.
- The entity's `createdAt` and `updatedAt` fields: nothing in the service sets them, and they carry no auditing annotation (TalentProfile.java:50-51), so they stay null.
- The entity's `email` field: the service never reads or writes it.
- Concurrency between requests: each call is modelled as atomic.
- Failures of the persistence layer.
- ProfileService.UpdateProfileFields, Scoring.CalculateCompleteness, ProfileService.MapProfileToResponse: these model Java's runs of in-place setters (on the profile entity, and on the response for the last one) as functions or methods that return an updated value. Aliasing of the profile or response object is not captured. Within one call each object is used by only one reference, so nothing observable is lost.
- Scoring.CalculateCompleteness: the ten inline if/else statements of the source are ten calls to one helper, `Scoring.CheckField`. Each call is made with the field to check, in source order. The score is computed in integers as `completed * 100 / 10`. This equals the source's `(int)((completed / 10.0) * 100)` for every count from 0 to 10, so no floating point is modelled.
- ProfileService.LengthError: lengths are counted in characters, while Java's `String.length()` counts UTF-16 code units. A string with characters outside the Basic Multilingual Plane is measured shorter here than in Java.
- Scoring.IsNotEmpty: Java's `trim` strips characters up to `' '`. The model does the same on Dafny characters. Unicode whitespace above that code point is not blank in either.
- `graduationYear` is an unbounded integer. The service only copies it, so 32-bit range does not matter.
