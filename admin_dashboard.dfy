/** The admin dashboard's patient filter: a risk score falls into one of three
    risk levels, and the patient list is narrowed by risk level and by
    assessment status, where `all` places no constraint. */
module AdminDashboard {
  import opened Sequences

  /** The fields of a patient the filter looks at. */
  datatype Patient = Patient(id: string, riskScore: int, status: string)

  /** The two filter fields the handler reads. */
  datatype Filters = Filters(riskLevel: string, assessmentStatus: string)

  /** The filter value that places no constraint. */
  const All: string := "all"

  /** The risk level of a score: below 40 is `low`, from 40 up to 70 exclusive
      is `moderate`, 70 and above is `high`. */
  function RiskLevel(score: int): (level: string)
    ensures level == "low" <==> score < 40
    ensures level == "moderate" <==> 40 <= score < 70
    ensures level == "high" <==> 70 <= score
  {
    if score < 40 then "low" else if score < 70 then "moderate" else "high"
  }

  /** The test `handleFilterChange` applies to one patient. */
  predicate Keep(f: Filters, p: Patient) {
    && (f.riskLevel == All || RiskLevel(p.riskScore) == f.riskLevel)
    && (f.assessmentStatus == All || p.status == f.assessmentStatus)
  }

  /** `handleFilterChange`: the patients that pass both filters. */
  function FilterPatients(patients: seq<Patient>, f: Filters): (kept: seq<Patient>) {
    Filter(patients, p => Keep(f, p))
  }

  /** With both filters at `all`, every patient is kept, in order. */
  lemma AllFiltersKeepEverything(patients: seq<Patient>)
    ensures FilterPatients(patients, Filters(All, All)) == patients
  {
    FilterKeepsAll(patients, p => Keep(Filters(All, All), p));
  }

  /** The result keeps the input order and holds only input patients; each
      kept patient is in the chosen risk level and has the chosen status
      (unless that filter is `all`); and every input patient that meets
      both conditions is kept, as many times as it occurs. */
  lemma FilterPatientsSpec(patients: seq<Patient>, f: Filters)
    ensures Subseq(FilterPatients(patients, f), patients)
    ensures forall p :: p in FilterPatients(patients, f) ==> p in patients
    ensures forall p :: p in FilterPatients(patients, f) ==>
              f.riskLevel == All || RiskLevel(p.riskScore) == f.riskLevel
    ensures forall p :: p in FilterPatients(patients, f) ==>
              f.assessmentStatus == All || p.status == f.assessmentStatus
    ensures forall i :: 0 <= i < |patients| && Keep(f, patients[i]) ==>
              patients[i] in FilterPatients(patients, f)
    ensures forall p :: multiset(FilterPatients(patients, f))[p] ==
              if (f.riskLevel == All || RiskLevel(p.riskScore) == f.riskLevel)
                 && (f.assessmentStatus == All || p.status == f.assessmentStatus)
              then multiset(patients)[p] else 0
  {
    FilterIsSubseq(patients, p => Keep(f, p));
    FilterCount(patients, p => Keep(f, p));
    var kept := FilterPatients(patients, f);
    forall p | p in kept
      ensures f.riskLevel == All || RiskLevel(p.riskScore) == f.riskLevel
      ensures f.assessmentStatus == All || p.status == f.assessmentStatus
    {
      var i :| 0 <= i < |kept| && kept[i] == p;
    }
  }

  /** A risk-level filter other than the three levels and `all` keeps nobody. */
  lemma UnknownRiskLevelKeepsNobody(patients: seq<Patient>, f: Filters)
    requires f.riskLevel !in {All, "low", "moderate", "high"}
    ensures FilterPatients(patients, f) == []
  {
    forall i | 0 <= i < |patients| ensures !Keep(f, patients[i]) {
      var level := RiskLevel(patients[i].riskScore);
      assert level == "low" || level == "moderate" || level == "high";
    }
    FilterDropsAll(patients, p => Keep(f, p));
  }
}
