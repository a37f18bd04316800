/**
 * The percentage tables of the joke commands: a list of inclusive
 * `[min, max]` bands, each with a message and a GIF, searched with
 * `ranges.find(r => percentage >= r.min && percentage <= r.max)`.
 */
module PercentRanges {
  import opened Wrappers

  datatype PercentRange = PercentRange(min: int, max: int, message: string, gif: string)

  predicate Matches(r: PercentRange, p: int) {
    p >= r.min && p <= r.max
  }

  /** `Array.prototype.find`: the first band that holds `p`, or `undefined`. */
  function Find(rs: seq<PercentRange>, p: int): (o: Option<PercentRange>)
    ensures o.None? <==> forall i :: 0 <= i < |rs| ==> !Matches(rs[i], p)
    ensures o.Some? ==> exists i :: 0 <= i < |rs| && rs[i] == o.value && Matches(rs[i], p) &&
                                    forall j :: 0 <= j < i ==> !Matches(rs[j], p)
  {
    if rs == [] then None
    else if Matches(rs[0], p) then Some(rs[0])
    else
      var o := Find(rs[1..], p);
      assert o.Some? ==> exists i :: 0 <= i < |rs[1..]| && rs[1..][i] == o.value && Matches(rs[1..][i], p) &&
                                     forall j :: 0 <= j < i ==> !Matches(rs[1..][j], p);
      if o.Some? then
        var i :| 0 <= i < |rs[1..]| && rs[1..][i] == o.value && Matches(rs[1..][i], p) &&
                 forall j :: 0 <= j < i ==> !Matches(rs[1..][j], p);
        assert rs[i + 1] == o.value && forall j :: 0 <= j < i + 1 ==> !Matches(rs[j], p);
        o
      else o
  }

  /**
   * The bands are non-empty, in increasing order, each starting right
   * after the previous one ends; the first starts at `lo`, the last ends at `hi`.
   */
  predicate Contiguous(rs: seq<PercentRange>, lo: int, hi: int) {
    && |rs| > 0
    && rs[0].min == lo
    && rs[|rs| - 1].max == hi
    && (forall k :: 0 <= k < |rs| ==> rs[k].min <= rs[k].max)
    && (forall k :: 0 <= k < |rs| - 1 ==> rs[k].max + 1 == rs[k + 1].min)
  }

  /** Exactly one band holds `p`. */
  ghost predicate UniqueBand(rs: seq<PercentRange>, p: int) {
    exists i :: 0 <= i < |rs| && Matches(rs[i], p) &&
      forall j :: 0 <= j < |rs| && j != i ==> !Matches(rs[j], p)
  }

  lemma {:induction false} BandsIncrease(rs: seq<PercentRange>, lo: int, hi: int, i: int, j: int)
    requires Contiguous(rs, lo, hi) && 0 <= i < j < |rs|
    ensures rs[i].max < rs[j].min
    decreases j - i
  {
    if j > i + 1 {
      BandsIncrease(rs, lo, hi, i, j - 1);
    }
  }

  lemma {:induction false} SomeBandHolds(rs: seq<PercentRange>, lo: int, hi: int, p: int)
    requires Contiguous(rs, lo, hi) && lo <= p <= hi
    ensures exists i :: 0 <= i < |rs| && Matches(rs[i], p)
    decreases |rs|
  {
    if !Matches(rs[0], p) {
      assert |rs| > 1;
      assert Contiguous(rs[1..], rs[0].max + 1, hi) by {
        forall k | 0 <= k < |rs| - 2 ensures rs[1..][k].max + 1 == rs[1..][k + 1].min {
          assert rs[1..][k] == rs[k + 1] && rs[1..][k + 1] == rs[k + 2];
        }
      }
      SomeBandHolds(rs[1..], rs[0].max + 1, hi, p);
      var i :| 0 <= i < |rs[1..]| && Matches(rs[1..][i], p);
      assert Matches(rs[i + 1], p);
    }
  }

  /** Contiguous bands from `lo` to `hi` partition `[lo, hi]`. */
  lemma ContiguousPartitions(rs: seq<PercentRange>, lo: int, hi: int, p: int)
    requires Contiguous(rs, lo, hi) && lo <= p <= hi
    ensures UniqueBand(rs, p)
    ensures Find(rs, p).Some?
  {
    SomeBandHolds(rs, lo, hi, p);
    var i :| 0 <= i < |rs| && Matches(rs[i], p);
    forall j | 0 <= j < |rs| && j != i ensures !Matches(rs[j], p) {
      if j < i { BandsIncrease(rs, lo, hi, j, i); } else { BandsIncrease(rs, lo, hi, i, j); }
    }
  }
}
