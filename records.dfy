/**
 * The skill record the backend serves (`EmployeeRecord`, backend/main.py) and
 * the four dimensions the dashboard filters it by. The API validates every
 * record against `EmployeeRecord`, so each field is present with its type.
 */
module Records {
  import opened Seqs

  datatype SkillRecord = SkillRecord(
    id: int,
    group: string,
    sbu: string,
    bu: string,
    jobFunction: string,
    ujr: string,
    jobRole: string,         // Job_Role_Name_without_concat
    l1Ujr: string,
    competencyType: string,
    skillName: string,
    skillDefinition: string,
    proficiencyLevel: int,
    band: string)

  /** The filter dimensions; `Role` is matched against `Job_Role_Name_without_concat`. */
  datatype Dimension = Function | Band | SBU | Role

  function FieldOf(r: SkillRecord, d: Dimension): string {
    match d
    case Function => r.jobFunction
    case Band => r.band
    case SBU => r.sbu
    case Role => r.jobRole
  }

  function FieldFn(d: Dimension): SkillRecord -> string {
    r => FieldOf(r, d)
  }

  /** `data.map(item => item[key])` for the key of dimension `d`. */
  function ValuesOf(data: seq<SkillRecord>, d: Dimension): (vs: seq<string>)
    ensures |vs| == |data|
    ensures forall i :: 0 <= i < |data| ==> vs[i] == FieldOf(data[i], d)
  {
    Map(data, FieldFn(d))
  }

  lemma ValuesOfMembership(data: seq<SkillRecord>, d: Dimension, v: string)
    ensures v in ValuesOf(data, d) <==> exists r :: r in data && FieldOf(r, d) == v
  {
    var vs := ValuesOf(data, d);
    if v in vs {
      var k :| 0 <= k < |vs| && vs[k] == v;
      assert data[k] in data;
    }
    if exists r :: r in data && FieldOf(r, d) == v {
      var r :| r in data && FieldOf(r, d) == v;
      var k :| 0 <= k < |data| && data[k] == r;
      assert vs[k] == v;
    }
  }
}
