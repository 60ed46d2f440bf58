/** Pieces shared by the selection stores: a URL query item and the way every
    store renders a range selection as a title. */
module Selection {
  import opened Wrappers

  /** Foundation's `URLQueryItem`: a name and an optional value. */
  datatype QueryItem = QueryItem(name: string, value: Option<string>)

  /** The placeholder shown for a missing range bound. */
  const Missing: string := "..."

  /** The title of a range selection: nothing when both bounds are missing,
      otherwise one title "low - high" with "..." for a missing bound. */
  function RangeTitle(low: Option<string>, high: Option<string>): (r: seq<string>)
    ensures r == [] <==> low.None? && high.None?
    ensures |r| <= 1
  {
    if low.None? && high.None? then []
    else [low.GetOr(Missing) + " - " + high.GetOr(Missing)]
  }

  /** A range title starts with the low bound (or "...") and ends with the high
      bound (or "..."), joined by " - ". */
  lemma RangeTitleShape(low: Option<string>, high: Option<string>)
    requires low.Some? || high.Some?
    ensures |RangeTitle(low, high)| == 1
    ensures var t := RangeTitle(low, high)[0];
      var l := low.GetOr(Missing);
      var h := high.GetOr(Missing);
      |t| == |l| + 3 + |h| && t[..|l|] == l && t[|l|..|l| + 3] == " - " && t[|l| + 3..] == h
  {
  }
}
