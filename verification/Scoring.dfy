/** The score of an itinerary as a vector of exact components. */
module Scoring {
  import opened Wrappers
  import opened Seqs
  import opened Domain
  import opened Itineraries

  datatype PenaltyBand = PenaltyBand(minMinutes: int, maxMinutes: int, penaltyEur: real)

  datatype BonusMode = FixedBonus | ProportionalBonus

  datatype ScoringSettings = ScoringSettings(
    timeValueEurPerHour: real,
    directBonusEur: real,
    mode: BonusMode,
    bands: seq<PenaltyBand>)

  datatype ScoreError = NoBands | OutsideBands(minutes: int) | MissingStopPrice

  datatype ScoreComponents = ScoreComponents(fare: real, elapsed: real, penalty: real, bonus: real) {
    function Score(): real { fare + elapsed + penalty }
    function Adjusted(): real { Score() + bonus }
  }

  // -- the layover penalty -----------------------------------------------------------

  function TopMinutes(bands: seq<PenaltyBand>): (top: int)
    requires bands != []
    ensures forall b :: b in bands ==> b.maxMinutes <= top
    ensures exists b :: b in bands && b.maxMinutes == top
  {
    if |bands| == 1 then bands[0].maxMinutes
    else
      assert bands == [bands[0]] + bands[1..];
      var rest := TopMinutes(bands[1..]);
      if rest < bands[0].maxMinutes then bands[0].maxMinutes else rest
  }

  /** Lower-inclusive and half-open, except that the topmost edge is closed. */
  predicate InBand(b: PenaltyBand, top: int, minutes: int) {
    b.minMinutes <= minutes < b.maxMinutes || (b.maxMinutes == top && minutes == b.maxMinutes)
  }

  function FirstBand(bands: seq<PenaltyBand>, top: int, minutes: int): Option<PenaltyBand> {
    if bands == [] then None
    else if InBand(bands[0], top, minutes) then Some(bands[0])
    else FirstBand(bands[1..], top, minutes)
  }

  function LayoverPenalty(minutes: int, bands: seq<PenaltyBand>): Result<real, ScoreError> {
    if bands == [] then Err(NoBands)
    else match FirstBand(bands, TopMinutes(bands), minutes)
         case Some(b) => Ok(b.penaltyEur)
         case None => Err(OutsideBands(minutes))
  }

  lemma {:induction false} FirstBandFinds(bands: seq<PenaltyBand>, top: int, minutes: int, b: PenaltyBand)
    requires b in bands && InBand(b, top, minutes)
    requires forall o :: o in bands && InBand(o, top, minutes) ==> o == b
    ensures FirstBand(bands, top, minutes) == Some(b)
  {
    if !InBand(bands[0], top, minutes) {
      assert bands == [bands[0]] + bands[1..];
      FirstBandFinds(bands[1..], top, minutes, b);
    }
  }

  /** Bands laid end to end from `lo` to `hi`. */
  predicate Chain(bands: seq<PenaltyBand>, lo: int, hi: int) {
    && bands != []
    && bands[0].minMinutes == lo
    && bands[|bands| - 1].maxMinutes == hi
    && (forall i :: 0 <= i < |bands| ==> bands[i].minMinutes < bands[i].maxMinutes)
    && (forall i :: 0 <= i < |bands| - 1 ==> bands[i].maxMinutes == bands[i + 1].minMinutes)
  }

  /** A table that can be laid end to end, in whatever order it is written. */
  ghost predicate Tiles(bands: seq<PenaltyBand>, lo: int, hi: int) {
    exists chain :: Chain(chain, lo, hi) && multiset(chain) == multiset(bands)
  }

  lemma {:induction false} ChainRises(chain: seq<PenaltyBand>, lo: int, hi: int, i: nat, j: nat)
    requires Chain(chain, lo, hi) && i < j < |chain|
    ensures chain[i].maxMinutes <= chain[j].minMinutes
    decreases j - i
  {
    if i + 1 < j {
      ChainRises(chain, lo, hi, i, j - 1);
    }
  }

  /** Walking the chain finds the band of any minute of the window. */
  lemma {:induction false} ChainCovers(chain: seq<PenaltyBand>, lo: int, hi: int, minutes: int, from: nat)
    returns (i: nat)
    requires Chain(chain, lo, hi) && from < |chain| && chain[from].minMinutes <= minutes <= hi
    ensures i < |chain| && InBand(chain[i], hi, minutes)
    decreases |chain| - from
  {
    if minutes < chain[from].maxMinutes || from + 1 == |chain| {
      i := from;
    } else {
      i := ChainCovers(chain, lo, hi, minutes, from + 1);
    }
  }

  lemma ChainUnique(chain: seq<PenaltyBand>, lo: int, hi: int, minutes: int, i: nat, j: nat)
    requires Chain(chain, lo, hi) && i < |chain| && j < |chain|
    requires InBand(chain[i], hi, minutes) && InBand(chain[j], hi, minutes)
    ensures i == j
  {
    if i < j {
      BelowTop(chain, lo, hi, i);
      ChainRises(chain, lo, hi, i, j);
    } else if j < i {
      BelowTop(chain, lo, hi, j);
      ChainRises(chain, lo, hi, j, i);
    }
  }

  lemma BelowTop(chain: seq<PenaltyBand>, lo: int, hi: int, i: nat)
    requires Chain(chain, lo, hi) && i + 1 < |chain|
    ensures chain[i].maxMinutes < hi
  {
    ChainRises(chain, lo, hi, i, |chain| - 1);
  }

  lemma ChainTop(chain: seq<PenaltyBand>, bands: seq<PenaltyBand>, lo: int, hi: int)
    requires Chain(chain, lo, hi) && multiset(chain) == multiset(bands)
    ensures bands != [] && TopMinutes(bands) == hi
  {
    assert chain[0] in multiset(bands);
    var last := chain[|chain| - 1];
    assert last in multiset(bands);
    var b :| b in bands && b.maxMinutes == TopMinutes(bands);
    assert b in multiset(chain);
    var i :| 0 <= i < |chain| && chain[i] == b;
    if i < |chain| - 1 { ChainRises(chain, lo, hi, i, |chain| - 1); }
  }

  /** In a tiling table every minute of the window lies in exactly one band,
      and the lookup returns that band's penalty whatever the order of the rows. */
  lemma ExactlyOneBand(bands: seq<PenaltyBand>, lo: int, hi: int, minutes: int) returns (b: PenaltyBand)
    requires Tiles(bands, lo, hi) && lo <= minutes <= hi
    ensures b in bands && InBand(b, hi, minutes)
    ensures forall o :: o in bands && InBand(o, hi, minutes) ==> o == b
    ensures LayoverPenalty(minutes, bands) == Ok(b.penaltyEur)
  {
    var chain :| Chain(chain, lo, hi) && multiset(chain) == multiset(bands);
    ChainTop(chain, bands, lo, hi);
    var i := ChainCovers(chain, lo, hi, minutes, 0);
    b := chain[i];
    assert b in multiset(bands);
    forall o | o in bands && InBand(o, hi, minutes) ensures o == b {
      assert o in multiset(chain);
      var j :| 0 <= j < |chain| && chain[j] == o;
      ChainUnique(chain, lo, hi, minutes, i, j);
    }
    FirstBandFinds(bands, hi, minutes, b);
  }

  /** Outside its window a tiling table has no band, and the lookup fails. */
  lemma OutsideWindowFails(bands: seq<PenaltyBand>, lo: int, hi: int, minutes: int)
    requires Tiles(bands, lo, hi) && (minutes < lo || hi < minutes)
    ensures LayoverPenalty(minutes, bands) == Err(OutsideBands(minutes))
  {
    var chain :| Chain(chain, lo, hi) && multiset(chain) == multiset(bands);
    ChainTop(chain, bands, lo, hi);
    forall o | o in bands ensures !InBand(o, hi, minutes) {
      assert o in multiset(chain);
      var j :| 0 <= j < |chain| && chain[j] == o;
      if j > 0 { ChainRises(chain, lo, hi, 0, j); }
      if j < |chain| - 1 { ChainRises(chain, lo, hi, j, |chain| - 1); }
    }
    FirstBandMisses(bands, hi, minutes);
  }

  lemma {:induction false} FirstBandMisses(bands: seq<PenaltyBand>, top: int, minutes: int)
    requires forall o :: o in bands ==> !InBand(o, top, minutes)
    ensures FirstBand(bands, top, minutes) == None
  {
    if bands != [] { FirstBandMisses(bands[1..], top, minutes); }
  }

  /** The penalties of all layovers, added in order; the first failing lookup stops the sum. */
  function PenaltySum(layovers: seq<Layover>, bands: seq<PenaltyBand>): Result<real, ScoreError> {
    if layovers == [] then Ok(0.0)
    else match LayoverPenalty(layovers[0].duration / MINUTE, bands)
         case Err(e) => Err(e)
         case Ok(p) => match PenaltySum(layovers[1..], bands)
                       case Err(e) => Err(e)
                       case Ok(rest) => Ok(p + rest)
  }

  /** Added in order, from zero. */
  function RealSum(s: seq<real>): real {
    if s == [] then 0.0 else RealSum(s[..|s| - 1]) + s[|s| - 1]
  }

  lemma {:induction false} RealSumFront(x: real, s: seq<real>)
    ensures RealSum([x] + s) == x + RealSum(s)
  {
    if s == [] {
      assert ([x] + s)[..0] == [];
    } else {
      assert ([x] + s)[..|s|] == [x] + s[..|s| - 1];
      RealSumFront(x, s[..|s| - 1]);
    }
  }

  /** The row a layover of so many whole minutes belongs to: from its lower edge up to, but not
      including, its upper edge, which only the highest row of the table includes. */
  predicate RowFor(b: PenaltyBand, bands: seq<PenaltyBand>, minutes: int) {
    && b in bands
    && b.minMinutes <= minutes
    && (minutes < b.maxMinutes || (minutes == b.maxMinutes && forall o :: o in bands ==> o.maxMinutes <= minutes))
  }

  ghost predicate OnlyRow(b: PenaltyBand, bands: seq<PenaltyBand>, minutes: int) {
    RowFor(b, bands, minutes) && forall o :: RowFor(o, bands, minutes) ==> o == b
  }

  /** The penalty of a list of layovers is the sum over each one's own, and only, row. */
  lemma {:induction false} PenaltyIsSum(layovers: seq<Layover>, bands: seq<PenaltyBand>, lo: int, hi: int)
    returns (rows: seq<PenaltyBand>)
    requires Tiles(bands, lo, hi)
    requires forall l :: l in layovers ==> lo * MINUTE <= l.duration <= hi * MINUTE
    ensures |rows| == |layovers|
    ensures forall i :: 0 <= i < |rows| ==> OnlyRow(rows[i], bands, layovers[i].duration / MINUTE)
    ensures PenaltySum(layovers, bands) == Ok(RealSum(Map((b: PenaltyBand) => b.penaltyEur, rows)))
  {
    hide OnlyRow, RealSum;
    var price := (b: PenaltyBand) => b.penaltyEur;
    if layovers == [] {
      rows := [];
      assert RealSum([]) == 0.0 by { RealSumNone(); }
      assert Map(price, rows) == [];
    } else {
      assert layovers[0] in layovers;
      var first := OwnRow(bands, lo, hi, layovers[0].duration / MINUTE);
      var rest := PenaltyIsSum(layovers[1..], bands, lo, hi);
      rows := [first] + rest;
      assert Map(price, rows) == [first.penaltyEur] + Map(price, rest);
      RealSumFront(first.penaltyEur, Map(price, rest));
    }
  }

  lemma RealSumNone()
    ensures RealSum([]) == 0.0
  {
  }

  lemma OwnRow(bands: seq<PenaltyBand>, lo: int, hi: int, minutes: int) returns (b: PenaltyBand)
    requires Tiles(bands, lo, hi) && lo <= minutes <= hi
    ensures OnlyRow(b, bands, minutes)
    ensures LayoverPenalty(minutes, bands) == Ok(b.penaltyEur)
  {
    b := ExactlyOneBand(bands, lo, hi, minutes);
    TopIs(bands, lo, hi);
    RowRises(bands, lo, hi, b);
    forall o | RowFor(o, bands, minutes) ensures o == b {
      assert InBand(o, hi, minutes);
    }
  }

  lemma RowRises(bands: seq<PenaltyBand>, lo: int, hi: int, b: PenaltyBand)
    requires Tiles(bands, lo, hi) && b in bands
    ensures b.minMinutes < b.maxMinutes
  {
    var chain :| Chain(chain, lo, hi) && multiset(chain) == multiset(bands);
    assert b in multiset(chain);
  }

  lemma TopIs(bands: seq<PenaltyBand>, lo: int, hi: int)
    requires Tiles(bands, lo, hi)
    ensures forall b :: b in bands ==> b.maxMinutes <= hi
    ensures exists b :: b in bands && b.maxMinutes == hi
  {
    var chain :| Chain(chain, lo, hi) && multiset(chain) == multiset(bands);
    ChainTop(chain, bands, lo, hi);
  }

  // -- the whole score -----------------------------------------------------------------

  const PROPORTIONAL_RATIO := 0.20

  function Eur(m: Money): real { m.amount as real / 100.0 }

  function ElapsedComponent(totalDuration: int, settings: ScoringSettings): real {
    totalDuration as real / HOUR as real * settings.timeValueEurPerHour
  }

  function DirectBonus(stops: int, settings: ScoringSettings, stopPrice: Option<real>): Result<real, ScoreError> {
    if stops >= 1 then Ok(0.0)
    else match settings.mode
         case FixedBonus => Ok(settings.directBonusEur)
         case ProportionalBonus =>
           if stopPrice.None? then Err(MissingStopPrice) else Ok(-(PROPORTIONAL_RATIO * stopPrice.value))
  }

  function ScoreItinerary(it: NormalizedItinerary, settings: ScoringSettings, stopPrice: Option<real>)
    : Result<ScoreComponents, ScoreError>
  {
    match PenaltySum(AllLayovers(it.legs), settings.bands)
    case Err(e) => Err(e)
    case Ok(penalty) =>
      match DirectBonus(StopCount(it.legs), settings, stopPrice)
      case Err(e) => Err(e)
      case Ok(bonus) =>
        Ok(ScoreComponents(Eur(it.priceEur), ElapsedComponent(TotalDuration(it.legs), settings), penalty, bonus))
  }

  /** The other three components, without division: the fare in cents, the time in hours and parts of hours,
      and a bonus for direct itineraries only. */
  lemma ComponentsAre(it: NormalizedItinerary, settings: ScoringSettings, stopPrice: Option<real>)
    requires ScoreItinerary(it, settings, stopPrice).Ok?
    ensures var c := ScoreItinerary(it, settings, stopPrice).value;
            && c.fare * 100.0 == it.priceEur.amount as real
            && c.elapsed * 3_600_000_000.0 == TotalDuration(it.legs) as real * settings.timeValueEurPerHour
            && PenaltySum(AllLayovers(it.legs), settings.bands) == Ok(c.penalty)
            && (StopCount(it.legs) >= 1 ==> c.bonus == 0.0)
            && (StopCount(it.legs) < 1 && settings.mode == FixedBonus ==> c.bonus == settings.directBonusEur)
            && (StopCount(it.legs) < 1 && settings.mode == ProportionalBonus ==>
                  stopPrice.Some? && 5.0 * c.bonus == -stopPrice.value)
            && c.Score() == c.fare + c.elapsed + c.penalty
            && c.Adjusted() == c.fare + c.elapsed + c.penalty + c.bonus
  {
    hide PenaltySum, TotalDuration, StopCount, AllLayovers;
    TimeIs(TotalDuration(it.legs), settings);
  }

  lemma TimeIs(duration: int, settings: ScoringSettings)
    ensures ElapsedComponent(duration, settings) * 3_600_000_000.0 == duration as real * settings.timeValueEurPerHour
  {
    var hours := duration as real / 3_600_000_000.0;
    assert hours * 3_600_000_000.0 == duration as real;
    assert hours * settings.timeValueEurPerHour * 3_600_000_000.0
        == hours * 3_600_000_000.0 * settings.timeValueEurPerHour;
  }
}
