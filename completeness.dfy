/** Profile completeness: the ten tracked fields, when one counts as present, the
    score, and the ordered list of missing field names. */
module Scoring {
  import opened Wrappers
  import opened Strings
  import opened Profiles

  /** The fields that count toward completeness. */
  datatype Tracked =
    | FirstName | LastName | Bio | Headline | Skills
    | ExperienceLevel | Location | Transcript | StatementOfPurpose | ResumeUrl

  const TotalFields: nat := 10

  /** The order in which the fields are checked, and so the order of the missing list. */
  const TrackedOrder: seq<Tracked> :=
    [FirstName, LastName, Bio, Headline, Skills,
     ExperienceLevel, Location, Transcript, StatementOfPurpose, ResumeUrl]

  /** The field checked at position `k` of the checking order. */
  function TrackedAt(k: nat): Tracked
    requires k < TotalFields
  {
    if k == 0 then FirstName
    else if k == 1 then LastName
    else if k == 2 then Bio
    else if k == 3 then Headline
    else if k == 4 then Skills
    else if k == 5 then ExperienceLevel
    else if k == 6 then Location
    else if k == 7 then Transcript
    else if k == 8 then StatementOfPurpose
    else ResumeUrl
  }

  /** Position of a tracked field in the checking order. */
  function Rank(t: Tracked): nat {
    match t
    case FirstName => 0
    case LastName => 1
    case Bio => 2
    case Headline => 3
    case Skills => 4
    case ExperienceLevel => 5
    case Location => 6
    case Transcript => 7
    case StatementOfPurpose => 8
    case ResumeUrl => 9
  }

  /** The name the missing list uses for a field. */
  function FieldName(t: Tracked): string {
    match t
    case FirstName => "firstName"
    case LastName => "lastName"
    case Bio => "bio"
    case Headline => "headline"
    case Skills => "skills"
    case ExperienceLevel => "experienceLevel"
    case Location => "location"
    case Transcript => "transcript"
    case StatementOfPurpose => "statementOfPurpose"
    case ResumeUrl => "resumeUrl"
  }

  /** The service's `isNotEmpty`: non-null, and not all space, which is what makes
      something remain after trimming (see IsNotEmptyTrimmed). */
  predicate IsNotEmpty(field: Option<string>) {
    field.Some? && !AllSpace(field.value)
  }

  /** `isNotEmpty` as the service writes it: non-null, and non-empty once trimmed. */
  lemma IsNotEmptyTrimmed(field: Option<string>)
    ensures IsNotEmpty(field) <==> field.Some? && Trim(field.value) != []
  {
  }

  /** A tracked field is present: a string by IsNotEmpty, the skills list when it is
      non-null and non-empty. */
  predicate IsPresent(f: ProfileFields, t: Tracked) {
    match t
    case FirstName => IsNotEmpty(f.firstName)
    case LastName => IsNotEmpty(f.lastName)
    case Bio => IsNotEmpty(f.bio)
    case Headline => IsNotEmpty(f.headline)
    case Skills => f.skills.Some? && |f.skills.value| > 0
    case ExperienceLevel => IsNotEmpty(f.experienceLevel)
    case Location => IsNotEmpty(f.location)
    case Transcript => IsNotEmpty(f.transcript)
    case StatementOfPurpose => IsNotEmpty(f.statementOfPurpose)
    case ResumeUrl => IsNotEmpty(f.resumeUrl)
  }

  /** The checking order lists the field at each position, each field once. */
  lemma TrackedOrderAt()
    ensures |TrackedOrder| == TotalFields
    ensures forall k :: 0 <= k < TotalFields ==> TrackedOrder[k] == TrackedAt(k)
    ensures forall t :: t in TrackedOrder
  {
    forall t: Tracked ensures t in TrackedOrder {
      assert TrackedOrder[Rank(t)] == t;
    }
  }

  /** When each tracked field counts as present: a string field when it is non-null
      and not all space, the skills list when it is non-null and non-empty, whatever
      its entries are (a list of blank skills counts). */
  lemma PresenceRules(f: ProfileFields)
    ensures IsPresent(f, FirstName) <==> f.firstName.Some? && !AllSpace(f.firstName.value)
    ensures IsPresent(f, LastName) <==> f.lastName.Some? && !AllSpace(f.lastName.value)
    ensures IsPresent(f, Bio) <==> f.bio.Some? && !AllSpace(f.bio.value)
    ensures IsPresent(f, Headline) <==> f.headline.Some? && !AllSpace(f.headline.value)
    ensures IsPresent(f, Skills) <==> f.skills.Some? && f.skills.value != []
    ensures f.skills == Some([""]) ==> IsPresent(f, Skills)
    ensures IsPresent(f, ExperienceLevel) <==>
      f.experienceLevel.Some? && !AllSpace(f.experienceLevel.value)
    ensures IsPresent(f, Location) <==> f.location.Some? && !AllSpace(f.location.value)
    ensures IsPresent(f, Transcript) <==> f.transcript.Some? && !AllSpace(f.transcript.value)
    ensures IsPresent(f, StatementOfPurpose) <==>
      f.statementOfPurpose.Some? && !AllSpace(f.statementOfPurpose.value)
    ensures IsPresent(f, ResumeUrl) <==> f.resumeUrl.Some? && !AllSpace(f.resumeUrl.value)
  {
  }

  /** What the check of field `t` adds to the completed counter. */
  function Tally(f: ProfileFields, t: Tracked): nat {
    if IsPresent(f, t) then 1 else 0
  }

  /** What the check of field `t` appends to the missing list. */
  function Omission(f: ProfileFields, t: Tracked): seq<string> {
    if IsPresent(f, t) then [] else [FieldName(t)]
  }

  /** Field `t` if it is absent, as a list. */
  function Absent(f: ProfileFields, t: Tracked): seq<Tracked> {
    if IsPresent(f, t) then [] else [t]
  }

  /** The completed counter after the first `k` checks. */
  function CountUpTo(f: ProfileFields, k: nat): nat
    requires k <= TotalFields
  {
    if k == 0 then 0 else CountUpTo(f, k - 1) + Tally(f, TrackedAt(k - 1))
  }

  /** The missing list after the first `k` checks. */
  function MissingNamesUpTo(f: ProfileFields, k: nat): seq<string>
    requires k <= TotalFields
  {
    if k == 0 then [] else MissingNamesUpTo(f, k - 1) + Omission(f, TrackedAt(k - 1))
  }

  /** The absent fields among the first `k`, in checking order. */
  function MissingUpTo(f: ProfileFields, k: nat): seq<Tracked>
    requires k <= TotalFields
  {
    if k == 0 then [] else MissingUpTo(f, k - 1) + Absent(f, TrackedAt(k - 1))
  }

  /** The number of present tracked fields. */
  function CountPresent(f: ProfileFields): nat {
    CountUpTo(f, TotalFields)
  }

  /** The score stored in the profile: the Java expression
      `(int)((completed / (double) 10) * 100)`, which for `completed` in 0..10 is
      exactly the integer `completed * 100 / 10`. */
  function Completeness(f: ProfileFields): int {
    CountPresent(f) * 100 / TotalFields
  }

  /** The missing-field list stored in the profile. */
  function MissingFields(f: ProfileFields): seq<string> {
    MissingNamesUpTo(f, TotalFields)
  }

  /** The absent tracked fields, in checking order. */
  function MissingTracked(f: ProfileFields): seq<Tracked> {
    MissingUpTo(f, TotalFields)
  }

  /** The names of the fields `ts`, in the same order. */
  function Names(ts: seq<Tracked>): (names: seq<string>)
    ensures |names| == |ts|
  {
    if ts == [] then [] else Names(ts[..|ts| - 1]) + [FieldName(ts[|ts| - 1])]
  }

  /** A profile whose derived fields agree with its editable fields. */
  predicate Consistent(p: TalentProfile) {
    p.completeness == Completeness(Editable(p)) && p.missingFields == Some(MissingFields(Editable(p)))
  }

  /** The ranks strictly increase along `ts`. */
  predicate Ascending(ts: seq<Tracked>) {
    forall i, j :: 0 <= i < j < |ts| ==> Rank(ts[i]) < Rank(ts[j])
  }

  // ---------------------------------------------------------------------------
  // Facts about the checking order and the field names

  lemma RankOfTrackedAt(k: nat)
    requires k < TotalFields
    ensures Rank(TrackedAt(k)) == k
  {
  }

  lemma TrackedAtRank(t: Tracked)
    ensures Rank(t) < TotalFields && TrackedAt(Rank(t)) == t
  {
  }

  /** Distinct tracked fields have distinct names. */
  lemma FieldNameInjective(a: Tracked, b: Tracked)
    ensures FieldName(a) == FieldName(b) <==> a == b
  {
  }

  // ---------------------------------------------------------------------------
  // Facts about the counter and the missing list

  /** Every check either counts its field or lists it, never both. */
  lemma {:induction false} CountPlusMissing(f: ProfileFields, k: nat)
    requires k <= TotalFields
    ensures |MissingNamesUpTo(f, k)| + CountUpTo(f, k) == k
    ensures |MissingUpTo(f, k)| == |MissingNamesUpTo(f, k)|
  {
    if k > 0 {
      CountPlusMissing(f, k - 1);
    }
  }

  /** The counter is zero exactly when none of the first `k` fields is present. */
  lemma {:induction false} CountZero(f: ProfileFields, k: nat)
    requires k <= TotalFields
    ensures CountUpTo(f, k) == 0 <==> forall i :: 0 <= i < k ==> !IsPresent(f, TrackedAt(i))
  {
    if k > 0 {
      CountZero(f, k - 1);
    }
  }

  /** The counter reaches `k` exactly when all of the first `k` fields are present. */
  lemma {:induction false} CountFull(f: ProfileFields, k: nat)
    requires k <= TotalFields
    ensures CountUpTo(f, k) <= k
    ensures CountUpTo(f, k) == k <==> forall i :: 0 <= i < k ==> IsPresent(f, TrackedAt(i))
  {
    if k > 0 {
      CountFull(f, k - 1);
    }
  }

  /** A field is among the first `k` absent ones exactly when it is checked before
      position `k` and is not present. */
  lemma {:induction false} MissingUpToMember(f: ProfileFields, k: nat, t: Tracked)
    requires k <= TotalFields
    ensures t in MissingUpTo(f, k) <==> Rank(t) < k && !IsPresent(f, t)
  {
    if k > 0 {
      MissingUpToMember(f, k - 1, t);
      RankOfTrackedAt(k - 1);
      TrackedAtRank(t);
    }
  }

  /** The absent fields are listed in checking order, each before position `k`. */
  lemma {:induction false} MissingUpToAscending(f: ProfileFields, k: nat)
    requires k <= TotalFields
    ensures Ascending(MissingUpTo(f, k))
    ensures forall i :: 0 <= i < |MissingUpTo(f, k)| ==> Rank(MissingUpTo(f, k)[i]) < k
  {
    if k > 0 {
      MissingUpToAscending(f, k - 1);
      RankOfTrackedAt(k - 1);
    }
  }

  /** Appending a field appends its name. */
  lemma NamesSnoc(ts: seq<Tracked>, t: Tracked)
    ensures Names(ts + [t]) == Names(ts) + [FieldName(t)]
  {
    assert (ts + [t])[..|ts|] == ts;
  }

  /** Listing field `t` if absent lists its name if absent. */
  lemma NamesOfAbsent(ts: seq<Tracked>, f: ProfileFields, t: Tracked)
    ensures Names(ts + Absent(f, t)) == Names(ts) + Omission(f, t)
  {
    if IsPresent(f, t) {
      assert ts + Absent(f, t) == ts;
    } else {
      NamesSnoc(ts, t);
    }
  }

  /** The missing list holds the names of the absent fields. */
  lemma {:induction false} NamesOfMissing(f: ProfileFields, k: nat)
    requires k <= TotalFields
    ensures MissingNamesUpTo(f, k) == Names(MissingUpTo(f, k))
  {
    if k > 0 {
      NamesOfMissing(f, k - 1);
      NamesOfAbsent(MissingUpTo(f, k - 1), f, TrackedAt(k - 1));
    }
  }

  /** The `i`-th name is the name of the `i`-th field. */
  lemma {:induction false} NameAt(ts: seq<Tracked>, i: nat)
    requires i < |ts|
    ensures Names(ts)[i] == FieldName(ts[i])
  {
    if i < |ts| - 1 {
      NameAt(ts[..|ts| - 1], i);
    }
  }

  // ---------------------------------------------------------------------------
  // What the score and the missing list mean

  /** The score is ten points per present field: a multiple of ten between 0 and
      100, which is 100 exactly when every tracked field is present (equivalently,
      nothing is missing) and 0 exactly when none is. */
  lemma CompletenessScore(f: ProfileFields)
    ensures Completeness(f) == 10 * CountPresent(f)
    ensures 0 <= Completeness(f) <= 100 && Completeness(f) % 10 == 0
    ensures Completeness(f) == 100 <==> forall t :: IsPresent(f, t)
    ensures Completeness(f) == 0 <==> forall t :: !IsPresent(f, t)
    ensures Completeness(f) == 100 <==> MissingFields(f) == []
  {
    CountFull(f, TotalFields);
    CountZero(f, TotalFields);
    CountPlusMissing(f, TotalFields);
    if CountPresent(f) == TotalFields {
      forall t: Tracked ensures IsPresent(f, t) {
        TrackedAtRank(t);
      }
    }
    if CountPresent(f) == 0 {
      forall t: Tracked ensures !IsPresent(f, t) {
        TrackedAtRank(t);
      }
    }
  }

  /** The missing list names exactly the absent tracked fields, each once, in
      checking order; with the present ones it accounts for all ten. */
  lemma MissingFieldsSpec(f: ProfileFields)
    ensures |MissingFields(f)| + CountPresent(f) == TotalFields
    ensures forall t :: FieldName(t) in MissingFields(f) <==> !IsPresent(f, t)
    ensures forall i, j :: 0 <= i < j < |MissingFields(f)| ==> MissingFields(f)[i] != MissingFields(f)[j]
    ensures MissingFields(f) == Names(MissingTracked(f)) && Ascending(MissingTracked(f))
  {
    CountPlusMissing(f, TotalFields);
    NamesOfMissing(f, TotalFields);
    MissingUpToAscending(f, TotalFields);
    var ts := MissingTracked(f);
    var names := MissingFields(f);
    forall t: Tracked ensures FieldName(t) in names <==> !IsPresent(f, t) {
      MissingUpToMember(f, TotalFields, t);
      TrackedAtRank(t);
      if FieldName(t) in names {
        var i :| 0 <= i < |names| && names[i] == FieldName(t);
        NameAt(ts, i);
        FieldNameInjective(ts[i], t);
      } else if t in ts {
        var i :| 0 <= i < |ts| && ts[i] == t;
        NameAt(ts, i);
      }
    }
    forall i, j | 0 <= i < j < |names| ensures names[i] != names[j] {
      NameAt(ts, i);
      NameAt(ts, j);
      FieldNameInjective(ts[i], ts[j]);
    }
  }

  /** With no tracked field present, the first `k` checks miss the first `k` fields of
      the checking order. */
  lemma {:induction false} AllMissing(f: ProfileFields, k: nat)
    requires k <= TotalFields
    requires forall t :: !IsPresent(f, t)
    ensures MissingUpTo(f, k) == TrackedOrder[..k]
  {
    TrackedOrderAt();
    if k > 0 {
      AllMissing(f, k - 1);
      assert TrackedOrder[..k] == TrackedOrder[..k - 1] + [TrackedAt(k - 1)];
    }
  }

  /** An untouched profile scores 0 and misses all ten fields, in checking order. */
  lemma NoFieldsMissing()
    ensures Completeness(NoFields) == 0
    ensures MissingTracked(NoFields) == TrackedOrder
    ensures MissingFields(NoFields) ==
      ["firstName", "lastName", "bio", "headline", "skills",
       "experienceLevel", "location", "transcript", "statementOfPurpose", "resumeUrl"]
  {
    // Unrolling the list check by check keeps the proof cheap.
    var f := NoFields;
    assert forall t :: !IsPresent(f, t);
    CompletenessScore(f);
    AllMissing(f, TotalFields);
    assert TrackedOrder[..TotalFields] == TrackedOrder;
    assert MissingNamesUpTo(f, 3) == ["firstName", "lastName", "bio"];
    assert MissingNamesUpTo(f, 6) == ["firstName", "lastName", "bio", "headline", "skills",
      "experienceLevel"];
    assert MissingNamesUpTo(f, 9) == ["firstName", "lastName", "bio", "headline", "skills",
      "experienceLevel", "location", "transcript", "statementOfPurpose"];
  }

  // ---------------------------------------------------------------------------
  // The computation, as the service performs it

  /** One check of `calculateCompleteness`: a present field bumps the completed
      counter, an absent one appends its name to the missing list. Checking field
      `t` takes the state after the checks before it to the state after it. */
  method CheckField(f: ProfileFields, t: Tracked, completedFields: nat, missing: seq<string>)
    returns (completed': nat, missing': seq<string>)
    ensures completed' == completedFields + Tally(f, t) && missing' == missing + Omission(f, t)
    ensures completedFields == CountUpTo(f, Rank(t)) && missing == MissingNamesUpTo(f, Rank(t)) ==>
      completed' == CountUpTo(f, Rank(t) + 1) && missing' == MissingNamesUpTo(f, Rank(t) + 1)
  {
    assert TrackedAt(Rank(t)) == t;
    completed', missing' := completedFields, missing;
    if IsPresent(f, t) {
      completed' := completed' + 1;
    } else {
      missing' := missing' + [FieldName(t)];
    }
  }

  /** `calculateCompleteness`: ten checks in a fixed order, each either bumping the
      completed counter or appending the field's name to the missing list; then the
      score and the list are written into the profile, and nothing else changes. */
  method CalculateCompleteness(p: TalentProfile) returns (q: TalentProfile)
    ensures q == p.(completeness := Completeness(Editable(p)),
                    missingFields := Some(MissingFields(Editable(p))))
  {
    var f := Editable(p);
    var missing: seq<string> := [];
    var completedFields := 0;
    completedFields, missing := CheckField(f, FirstName, completedFields, missing);
    completedFields, missing := CheckField(f, LastName, completedFields, missing);
    completedFields, missing := CheckField(f, Bio, completedFields, missing);
    completedFields, missing := CheckField(f, Headline, completedFields, missing);
    completedFields, missing := CheckField(f, Skills, completedFields, missing);
    completedFields, missing := CheckField(f, ExperienceLevel, completedFields, missing);
    completedFields, missing := CheckField(f, Location, completedFields, missing);
    completedFields, missing := CheckField(f, Transcript, completedFields, missing);
    completedFields, missing := CheckField(f, StatementOfPurpose, completedFields, missing);
    completedFields, missing := CheckField(f, ResumeUrl, completedFields, missing);

    var completeness := completedFields * 100 / TotalFields;
    q := p.(completeness := completeness, missingFields := Some(missing));
  }
}
