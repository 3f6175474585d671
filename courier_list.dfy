/** The couriers screen's `filteredCouriers`: the loaded list narrowed first
    by the selected status, then by the search box. */
module CourierList {
  import opened Store
  import opened Schema
  import opened JsString
  import Couriers

  /** The status chips: everything, or one status. */
  datatype StatusFilter = All | Only(status: Status)

  /** The status stage: with 'all' every courier passes, otherwise exactly
      those in the selected status. */
  predicate PassesStatus(c: Courier, selected: StatusFilter) {
    selected.All? || c.currentStatus == selected.status
  }

  /** The search stage: a term that trims to nothing filters nothing;
      otherwise the lower-cased, untrimmed term must occur in the lower-cased
      tracking id or receiver name, or in the phone. */
  predicate PassesSearch(c: Courier, searchTerm: string) {
    Blank(searchTerm) || Couriers.Matches(c, ToLower(searchTerm))
  }

  function Shown(searchTerm: string, selected: StatusFilter): Doc<Courier> -> bool {
    (d: Doc<Courier>) => PassesStatus(d.value, selected) && PassesSearch(d.value, searchTerm)
  }

  /** `result.filter(c => c.currentStatus === selectedFilter)` unless 'all'. */
  function StatusStage(couriers: seq<Doc<Courier>>, selected: StatusFilter): seq<Doc<Courier>> {
    if selected.Only? then Filter(couriers, Couriers.StatusIs(selected.status)) else couriers
  }

  /** The search `.filter`, applied only when the trimmed term is non-empty. */
  function SearchStage(couriers: seq<Doc<Courier>>, searchTerm: string): seq<Doc<Courier>> {
    if !Blank(searchTerm) then Filter(couriers, Couriers.MatchesTerm(ToLower(searchTerm))) else couriers
  }

  /** The two stages in a row are one filter by both conditions. */
  lemma StagesAreOneFilter(couriers: seq<Doc<Courier>>, searchTerm: string, selected: StatusFilter)
    ensures SearchStage(StatusStage(couriers, selected), searchTerm) == Filter(couriers, Shown(searchTerm, selected))
  {
    var shown := Shown(searchTerm, selected);
    if selected.All? && Blank(searchTerm) {
      FilterKeepsAll(couriers, shown);
    } else if selected.All? {
      FilterAgrees(couriers, Couriers.MatchesTerm(ToLower(searchTerm)), shown);
    } else if Blank(searchTerm) {
      FilterAgrees(couriers, Couriers.StatusIs(selected.status), shown);
    } else {
      FilterTwice(couriers, Couriers.StatusIs(selected.status), Couriers.MatchesTerm(ToLower(searchTerm)), shown);
    }
  }

  /** `filteredCouriers`: empty while the list is not loaded; otherwise the
      loaded couriers that pass both stages, and only those, in the order
      `list` returned them. */
  function FilteredCouriers(couriers: Option<seq<Doc<Courier>>>, searchTerm: string, selected: StatusFilter): (r: seq<Doc<Courier>>)
    ensures couriers.None? ==> r == []
    ensures couriers.Some? ==>
              forall d :: d in r <==> d in couriers.value && PassesStatus(d.value, selected) && PassesSearch(d.value, searchTerm)
    ensures couriers.Some? ==> IsSubsequence(r, couriers.value)
  {
    match couriers
    case None => []
    case Some(all) =>
      StagesAreOneFilter(all, searchTerm, selected);
      FilterKeepsOrder(all, Shown(searchTerm, selected));
      SearchStage(StatusStage(all, selected), searchTerm)
  }

  /** With 'all' selected and a blank search box the list is shown as
      loaded. */
  lemma NoFilterShowsAll(couriers: seq<Doc<Courier>>, searchTerm: string)
    requires Blank(searchTerm)
    ensures FilteredCouriers(Some(couriers), searchTerm, All) == couriers
  {
  }
}
