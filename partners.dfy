/** The partner logos: the list is split into two marquee rows, the first
    taking the larger half, and each row is rendered twice in a row so the
    scrolling track loops. */
module Partners {
  import opened Wrappers

  datatype Partner = Partner(id: int, name: string, logoUrl: string, websiteUrl: string)

  /** `Math.ceil(n / 2)` */
  function MidPoint(n: nat): (m: nat)
    ensures 2 * m >= n && 2 * m <= n + 1
  {
    (n + 1) / 2
  }

  /** The two rows, or `None` when there are no partners (nothing is
      rendered). */
  function Rows(partners: seq<Partner>): (r: Option<(seq<Partner>, seq<Partner>)>)
    ensures r.None? <==> partners == []
    ensures r.Some? ==> var (row1, row2) := r.value;
      && row1 + row2 == partners
      && |row1| == MidPoint(|partners|)
      && |row2| <= |row1| <= |row2| + 1
  {
    if |partners| == 0 then None
    else
      var mid := MidPoint(|partners|);
      assert partners[..mid] + partners[mid..] == partners;
      Some((partners[..mid], partners[mid..]))
  }

  /** One marquee track: the row, then the row again. */
  function Track(row: seq<Partner>): (t: seq<Partner>)
    ensures |t| == 2 * |row|
    ensures t[..|row|] == row && t[|row|..] == row
  {
    row + row
  }

  /** Both tracks together show every partner exactly twice as often as the
      list holds it. */
  lemma TracksShowEveryPartnerTwice(partners: seq<Partner>)
    requires partners != []
    ensures var (row1, row2) := Rows(partners).value;
      multiset(Track(row1)) + multiset(Track(row2)) == multiset(partners) + multiset(partners)
  {
    var (row1, row2) := Rows(partners).value;
    assert multiset(row1 + row2) == multiset(row1) + multiset(row2);
  }
}
