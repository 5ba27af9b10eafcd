/**
 * The filter state shared by the dashboard and its filter bar: for each
 * dimension, the list of selected values; an empty list means "no constraint".
 */
module Filters {
  import opened Records

  type FilterState = map<Dimension, seq<string>>

  /** The selection for `d`; a missing key reads as the empty selection (`filters.X || []`). */
  function Selected(f: FilterState, d: Dimension): seq<string> {
    if d in f then f[d] else []
  }

  /** `filters.X.length === 0 || filters.X.includes(item.X)`. */
  predicate Admits(f: FilterState, d: Dimension, r: SkillRecord) {
    |Selected(f, d)| == 0 || FieldOf(r, d) in Selected(f, d)
  }

  /** The record satisfies the selections of all four dimensions. */
  predicate Passes(f: FilterState, r: SkillRecord) {
    Admits(f, Function, r) && Admits(f, Band, r) && Admits(f, SBU, r) && Admits(f, Role, r)
  }

  /** The record satisfies the selections of every dimension other than `d`. */
  predicate PassesExcept(f: FilterState, d: Dimension, r: SkillRecord) {
    && (d == Function || Admits(f, Function, r))
    && (d == Band || Admits(f, Band, r))
    && (d == SBU || Admits(f, SBU, r))
    && (d == Role || Admits(f, Role, r))
  }

  function Keeper(f: FilterState): SkillRecord -> bool {
    r => Passes(f, r)
  }

  function KeeperExcept(f: FilterState, d: Dimension): SkillRecord -> bool {
    r => PassesExcept(f, d, r)
  }

  /** No dimension has a non-empty selection. */
  predicate NoneSelected(f: FilterState) {
    forall d: Dimension :: Selected(f, d) == []
  }
}
