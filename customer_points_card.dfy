/** frontend/src/components/dashboard/CustomerPointsCard.tsx: the membership
    tier card. A level is given or detected from the points; the card shows
    the points still needed for the next level and the progress towards it. */
module CustomerPointsCard {
  import opened Common

  datatype Level = Bronze | Silver | Gold

  /** The `points` prop defaults to 1250. */
  const DefaultPoints := 1250

  /** `MEMBERSHIP_LEVELS[l].minPoints`. */
  function MinPoints(l: Level): int
  {
    match l
    case Bronze => 0
    case Silver => 1000
    case Gold => 5000
  }

  /** `MEMBERSHIP_LEVELS[l].maxPoints`; None is Infinity. */
  function MaxPoints(l: Level): Option<int>
  {
    match l
    case Bronze => Some(999)
    case Silver => Some(4999)
    case Gold => None
  }

  /** `points` lies in the band of level `l`. */
  predicate InBand(points: int, l: Level)
  {
    MinPoints(l) <= points && (MaxPoints(l).Some? ==> points <= MaxPoints(l).value)
  }

  /** `nextLevel`: bronze to silver, silver to gold, none above gold. */
  function NextLevel(l: Level): (r: Option<Level>)
    ensures r.None? <==> l == Gold
    ensures r.Some? ==> MinPoints(r.value) > MinPoints(l)
  {
    match l
    case Bronze => Some(Silver)
    case Silver => Some(Gold)
    case Gold => None
  }

  /** The bands are contiguous: each ends one point before the next starts. */
  lemma BandsContiguous(l: Level)
    requires l != Gold
    ensures MaxPoints(l).Some? && MaxPoints(l).value + 1 == MinPoints(NextLevel(l).value)
  {
  }

  /** `detectedLevel`: the given level, or gold from 5000 points, silver
      from 1000, else bronze. */
  function DetectLevel(points: int, given: Option<Level>): (l: Level)
    ensures given.Some? ==> l == given.value
    ensures given.None? && points >= 0 ==> InBand(points, l)
    ensures given.None? && points < 0 ==> l == Bronze
  {
    if given.Some? then given.value
    else if points >= 5000 then Gold
    else if points >= 1000 then Silver
    else Bronze
  }

  /** For a non-negative balance the detected level is the only level whose
      band holds it. */
  lemma DetectedLevelIsTheBand(points: int, l: Level)
    requires points >= 0
    ensures InBand(points, l) <==> l == DetectLevel(points, None)
  {
  }

  /** `pointsToNext`: what the next level's minimum still asks for; 0 at
      the top level. */
  function PointsToNext(points: int, l: Level): (r: int)
    ensures NextLevel(l).None? ==> r == 0
    ensures NextLevel(l).Some? ==> r + points == MinPoints(NextLevel(l).value)
  {
    match NextLevel(l)
    case None => 0
    case Some(n) => MinPoints(n) - points
  }

  /** `progressPercentage`: the share of the current band already covered,
      or 100 at the top level. */
  function Progress(points: int, l: Level): (r: real)
    ensures NextLevel(l).None? ==> r == 100.0
    ensures NextLevel(l).Some? ==>
              r * (MinPoints(NextLevel(l).value) - MinPoints(l)) as real == (points - MinPoints(l)) as real * 100.0
  {
    match NextLevel(l)
    case None => 100.0
    case Some(n) =>
      var span := (MinPoints(n) - MinPoints(l)) as real;
      ((points - MinPoints(l)) as real / span) * 100.0
  }

  /** For a detected level below gold, the next level is still ahead and
      the progress lies in [0, 100). */
  lemma DetectedProgressInRange(points: int)
    requires points >= 0
    ensures var l := DetectLevel(points, None);
            l != Gold ==> PointsToNext(points, l) > 0 && 0.0 <= Progress(points, l) < 100.0
  {
    var l := DetectLevel(points, None);
    if l != Gold {
      var span := (MinPoints(NextLevel(l).value) - MinPoints(l)) as real;
      var p := Progress(points, l);
      assert span > 0.0;
      assert p * span == (points - MinPoints(l)) as real * 100.0;
      assert (points - MinPoints(l)) as real < span;
    }
  }

  /** A given level need not match the balance: a silver card with 6000
      points has nothing left to reach and a progress above 100. */
  lemma GivenLevelCanOvershoot()
    ensures PointsToNext(6000, DetectLevel(6000, Some(Silver))) < 0
    ensures Progress(6000, DetectLevel(6000, Some(Silver))) > 100.0
  {
  }

  /** The width of the bar: the progress capped at 100. */
  function BarWidth(progress: real): (w: real)
    ensures w <= 100.0
    ensures w == progress || w == 100.0
    ensures progress <= 100.0 ==> w == progress
  {
    if progress < 100.0 then progress else 100.0
  }

  /** The line under the bar: points still missing, the next level reached
      (a given level below the balance), or the top level. */
  datatype NextLine = Missing(points: int, next: Level) | Reached(next: Level) | TopLevel

  function Caption(points: int, l: Level): (c: NextLine)
    ensures c.TopLevel? <==> l == Gold
    ensures c.Missing? ==> c.points > 0 && c.points + points == MinPoints(c.next)
    ensures c.Reached? ==> points >= MinPoints(c.next)
    ensures !c.TopLevel? ==> Some(c.next) == NextLevel(l)
  {
    match NextLevel(l)
    case None => TopLevel
    case Some(n) => if PointsToNext(points, l) > 0 then Missing(PointsToNext(points, l), n) else Reached(n)
  }
}
