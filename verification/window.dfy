/** The heights a scan visits: from the start height downwards, clamped at genesis. */
module Window {
  import opened Ints

  /** Every height from `hi` down to `lo`, both included. */
  function Descend(hi: u64, lo: u64): (hs: seq<u64>)
    requires lo <= hi
    ensures |hs| == hi - lo + 1
    ensures forall i :: 0 <= i < |hs| ==> hs[i] == hi - i
    decreases hi - lo
  {
    if hi == lo then [hi] else [hi] + Descend(hi - 1, lo)
  }

  /** The lowest height visited: `range - 1` below the start, but never below 0. */
  function Lowest(start: u64, range: u64): (lo: u64)
    requires range >= 1
    ensures lo <= start
    ensures start >= range - 1 ==> lo == start - (range - 1)
    ensures start < range - 1 ==> lo == 0
  {
    SaturatingSub(start, range - 1)
  }

  /** The visited heights, most recent block first. */
  function Heights(start: u64, range: u64): (hs: seq<u64>)
    requires range >= 1
    ensures |hs| == if range <= start + 1 then range else start + 1
    ensures hs[0] == start && hs[|hs| - 1] == Lowest(start, range)
    ensures forall i :: 0 <= i < |hs| ==> hs[i] == start - i
    ensures forall i, j :: 0 <= i < j < |hs| ==> hs[i] > hs[j]
  {
    Descend(start, Lowest(start, range))
  }

  /** A height is visited exactly when it lies between the lowest height and the start. */
  lemma HeightsMembership(start: u64, range: u64, h: int)
    requires range >= 1
    ensures h in Heights(start, range) <==> Lowest(start, range) <= h <= start
  {
    var hs := Heights(start, range);
    if Lowest(start, range) <= h <= start {
      assert hs[start - h] == h;
    }
  }

  /** No height is visited twice. */
  lemma HeightsDistinct(start: u64, range: u64)
    requires range >= 1
    ensures forall i, j :: 0 <= i < |Heights(start, range)| && 0 <= j < |Heights(start, range)| && i != j ==>
              Heights(start, range)[i] != Heights(start, range)[j]
  {
  }

  lemma TenBelowHundred()
    ensures Heights(100, 10) == [100, 99, 98, 97, 96, 95, 94, 93, 92, 91]
  {
  }

  lemma ClampedAtGenesis()
    ensures Heights(3, 10) == [3, 2, 1, 0]
  {
  }
}
