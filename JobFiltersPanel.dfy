/**
 * The filter panel (src/components/JobFilters.tsx). The five criteria are
 * state of the index page; the panel's handlers call their setters. The
 * class below holds that state and offers the panel's handlers as methods.
 */
module JobFiltersPanel {
  import opened Common
  import opened JobTypes
  import opened JobSearch

  /** The four drop-down selections; the search box is separate. */
  datatype Slot = IndustrySlot | LocationSlot | ExperienceSlot | SalarySlot

  /** `value || null`: choosing the empty option stores null, never "". */
  function SelectionValue(value: string): (r: Option<string>)
    ensures r.None? <==> value == ""
    ensures r.Some? ==> r.value == value && Truthy(r)
  {
    if value == "" then None else Some(value)
  }

  /** The selection held in one slot of the criteria. */
  function Selected(c: Criteria, slot: Slot): Option<string> {
    match slot
    case IndustrySlot => c.industry
    case LocationSlot => c.location
    case ExperienceSlot => c.experience
    case SalarySlot => c.salary
  }

  /** The criteria with one slot replaced. */
  function WithSlot(c: Criteria, slot: Slot, v: Option<string>): (r: Criteria)
    ensures Selected(r, slot) == v
    ensures forall other :: other != slot ==> Selected(r, other) == Selected(c, other)
    ensures r.query == c.query
  {
    match slot
    case IndustrySlot => c.(industry := v)
    case LocationSlot => c.(location := v)
    case ExperienceSlot => c.(experience := v)
    case SalarySlot => c.(salary := v)
  }

  /**
   * The active-badge row is shown when at least one selection is truthy;
   * the search query plays no part.
   */
  function BadgeRowVisible(c: Criteria): (b: bool)
    ensures b <==> exists slot :: Truthy(Selected(c, slot))
  {
    assert Selected(c, IndustrySlot) == c.industry && Selected(c, LocationSlot) == c.location;
    assert Selected(c, ExperienceSlot) == c.experience && Selected(c, SalarySlot) == c.salary;
    Truthy(c.industry) || Truthy(c.location) || Truthy(c.experience) || Truthy(c.salary)
  }

  lemma BadgeRowIgnoresQuery(c: Criteria, q: string)
    ensures BadgeRowVisible(c.(query := q)) == BadgeRowVisible(c)
  {
  }

  /**
   * The text of a badge: the name, city or range of the first table entry
   * with the selected id (`find(...)?.name`), nothing when no entry has it.
   */
  function BadgeLabel(slot: Slot, id: string): Option<string> {
    match slot
    case IndustrySlot =>
      var f := FindFirst(Industries, IndustryId, id);
      if f.Some? then Some(f.value.name) else None
    case LocationSlot =>
      var f := FindFirst(Locations, LocationId, id);
      if f.Some? then Some(f.value.city) else None
    case ExperienceSlot =>
      var f := FindFirst(ExperienceRanges, ExperienceId, id);
      if f.Some? then Some(f.value.range) else None
    case SalarySlot =>
      var f := FindFirst(SalaryRanges, SalaryRangeId, id);
      if f.Some? then Some(f.value.range) else None
  }

  /** A badge has a label exactly when its slot's table has an entry with the id. */
  lemma BadgeLabelSpec(slot: Slot, id: string)
    ensures slot == IndustrySlot ==>
      (BadgeLabel(slot, id).Some? <==> exists k :: 0 <= k < |Industries| && Industries[k].id == id)
    ensures slot == LocationSlot ==>
      (BadgeLabel(slot, id).Some? <==> exists k :: 0 <= k < |Locations| && Locations[k].id == id)
    ensures slot == ExperienceSlot ==>
      (BadgeLabel(slot, id).Some? <==> exists k :: 0 <= k < |ExperienceRanges| && ExperienceRanges[k].id == id)
    ensures slot == SalarySlot ==>
      (BadgeLabel(slot, id).Some? <==> exists k :: 0 <= k < |SalaryRanges| && SalaryRanges[k].id == id)
  {
    match slot
    case IndustrySlot => FindFirstSpec(Industries, IndustryId, id);
    case LocationSlot => FindFirstSpec(Locations, LocationId, id);
    case ExperienceSlot => FindFirstSpec(ExperienceRanges, ExperienceId, id);
    case SalarySlot => FindFirstSpec(SalaryRanges, SalaryRangeId, id);
  }

  class FilterState {
    var industry: Option<string>
    var location: Option<string>
    var experience: Option<string>
    var salary: Option<string>
    var query: string

    function Criteria(): Criteria
      reads this
    {
      JobSearch.Criteria(industry, location, experience, salary, query)
    }

    /** The page starts with nothing selected and an empty query. */
    constructor ()
      ensures Criteria() == NoCriteria
    {
      industry, location, experience, salary, query := None, None, None, None, "";
    }

    /** "Clear Filters": every selection to null and the query to "". */
    method ClearFilters()
      modifies this
      ensures Criteria() == NoCriteria
      ensures !BadgeRowVisible(Criteria())
    {
      industry := None;
      location := None;
      experience := None;
      salary := None;
      query := "";
    }

    /** A drop-down change: `setSelectedX(value || null)`; nothing else changes. */
    method Select(slot: Slot, value: string)
      modifies this
      ensures Criteria() == WithSlot(old(Criteria()), slot, SelectionValue(value))
    {
      var v := SelectionValue(value);
      match slot
      case IndustrySlot => industry := v;
      case LocationSlot => location := v;
      case ExperienceSlot => experience := v;
      case SalarySlot => salary := v;
    }

    /** A click on a badge clears that one selection and nothing else. */
    method ClearBadge(slot: Slot)
      modifies this
      ensures Criteria() == WithSlot(old(Criteria()), slot, None)
    {
      match slot
      case IndustrySlot => industry := None;
      case LocationSlot => location := None;
      case ExperienceSlot => experience := None;
      case SalarySlot => salary := None;
    }

    /** Typing in the search box stores the raw text. */
    method SetQuery(q: string)
      modifies this
      ensures Criteria() == old(Criteria()).(query := q)
    {
      query := q;
    }
  }
}
