/**
 * The job-board entities (src/data/jobTypes.ts) and the lookup tables the
 * filters and the admin forms choose from (src/data/mockData.ts).
 */
module JobTypes {
  import opened Common

  datatype Industry = Industry(id: string, name: string)

  datatype Location = Location(id: string, city: string, state: string)

  /** An experience band; `maxYears` is None for an open-ended band. */
  datatype Experience = Experience(id: string, range: string, minYears: nat, maxYears: Option<nat>)

  /** A salary band; `max` is None for an open-ended band. */
  datatype SalaryRange = SalaryRange(id: string, range: string, min: nat, max: Option<nat>)

  datatype JobStatus = Published | Draft

  datatype Job = Job(
    id: string,
    title: string,
    location: Location,
    experience: Experience,
    industry: Industry,
    department: string,
    keySkills: seq<string>,
    description: string,
    responsibilities: seq<string>,
    salaryRange: Option<SalaryRange>,
    status: JobStatus,
    datePosted: string,
    ctc: Option<string>)

  const Industries: seq<Industry> := [
    Industry("tech", "Technology"),
    Industry("finance", "Finance"),
    Industry("healthcare", "Healthcare"),
    Industry("education", "Education"),
    Industry("manufacturing", "Manufacturing"),
    Industry("retail", "Retail")
  ]

  const Locations: seq<Location> := [
    Location("mum", "Mumbai", "Maharashtra"),
    Location("blr", "Bangalore", "Karnataka"),
    Location("del", "Delhi", "Delhi"),
    Location("hyd", "Hyderabad", "Telangana"),
    Location("che", "Chennai", "Tamil Nadu"),
    Location("pun", "Pune", "Maharashtra")
  ]

  const ExperienceRanges: seq<Experience> := [
    Experience("fresher", "0-1 years", 0, Some(1)),
    Experience("junior", "1-3 years", 1, Some(3)),
    Experience("mid", "3-5 years", 3, Some(5)),
    Experience("senior", "5-10 years", 5, Some(10)),
    Experience("lead", "10+ years", 10, None)
  ]

  const SalaryRanges: seq<SalaryRange> := [
    SalaryRange("entry", "3-5 LPA", 300000, Some(500000)),
    SalaryRange("mid", "5-10 LPA", 500000, Some(1000000)),
    SalaryRange("senior", "10-15 LPA", 1000000, Some(1500000)),
    SalaryRange("lead", "15-25 LPA", 1500000, Some(2500000)),
    SalaryRange("executive", "25+ LPA", 2500000, None)
  ]

  /**
   * `table.find(x => key(x) === id)`: the first entry whose key is `id`, or
   * None when no entry has it.
   */
  function FindFirst<T>(table: seq<T>, key: T -> string, id: string): (r: Option<T>)
    ensures r.Some? ==> r.value in table && key(r.value) == id
  {
    if |table| == 0 then None
    else if key(table[0]) == id then Some(table[0])
    else
      var r := FindFirst(table[1..], key, id);
      assert r.Some? ==> r.value in table;
      r
  }

  /**
   * The search finds nothing exactly when no entry has the key, and what it
   * finds is the entry at the first index with the key.
   */
  lemma {:induction false} FindFirstSpec<T>(table: seq<T>, key: T -> string, id: string)
    ensures FindFirst(table, key, id).None? <==> forall k :: 0 <= k < |table| ==> key(table[k]) != id
    ensures FindFirst(table, key, id).Some? ==>
      exists k :: 0 <= k < |table| && table[k] == FindFirst(table, key, id).value &&
                  forall m :: 0 <= m < k ==> key(table[m]) != id
    decreases |table|
  {
    if |table| > 0 && key(table[0]) != id {
      var tail := table[1..];
      FindFirstSpec(tail, key, id);
      assert forall k :: 0 <= k < |tail| ==> tail[k] == table[k + 1];
      if FindFirst(tail, key, id).Some? {
        var k :| 0 <= k < |tail| && tail[k] == FindFirst(tail, key, id).value &&
                 forall m :: 0 <= m < k ==> key(tail[m]) != id;
        assert table[k + 1] == FindFirst(table, key, id).value;
        assert forall m :: 0 <= m < k + 1 ==> key(table[m]) != id by {
          forall m | 0 <= m < k + 1 ensures key(table[m]) != id {
            if m > 0 { assert table[m] == tail[m - 1]; }
          }
        }
      } else {
        forall k | 0 <= k < |table| ensures key(table[k]) != id {
          if k > 0 { assert table[k] == tail[k - 1]; }
        }
      }
    }
  }

  function IndustryId(i: Industry): string { i.id }
  function LocationId(l: Location): string { l.id }
  function ExperienceId(e: Experience): string { e.id }
  function SalaryRangeId(s: SalaryRange): string { s.id }
}
