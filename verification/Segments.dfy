/** When a flight record is accepted, and why a flight built from two UTC instants may not be. */
module Segments {
  import opened Wrappers
  import opened Domain
  import opened Zones

  /** The time-zone database: the zone behind each key. */
  type ZoneDb = map<string, Zone>

  datatype SegmentError =
    | ArrivesBeforeDeparture
    | DurationMismatch
    | UnknownZone(key: string)
    | DepartureMismatch(resolved: int)
    | ArrivalMismatch(resolved: int)

  /** The checks of a segment, in the order they run. */
  function CheckSegment(db: ZoneDb, s: Segment): Option<SegmentError> {
    if s.arriveUtc <= s.departUtc then Some(ArrivesBeforeDeparture)
    else if s.duration != s.arriveUtc - s.departUtc then Some(DurationMismatch)
    else if s.originTz !in db then Some(UnknownZone(s.originTz))
    else if s.destinationTz !in db then Some(UnknownZone(s.destinationTz))
    else
      var depart := ToUtc(db[s.originTz], s.departLocal, s.departFold);
      var arrive := ToUtc(db[s.destinationTz], s.arriveLocal, s.arriveFold);
      if depart != s.departUtc then Some(DepartureMismatch(depart))
      else if arrive != s.arriveUtc then Some(ArrivalMismatch(arrive))
      else None
  }

  /** What a verdict means: the first thing wrong, in the order time, duration, zones, departure, arrival. */
  lemma SegmentVerdict(db: ZoneDb, s: Segment)
    ensures match CheckSegment(db, s)
            case Some(ArrivesBeforeDeparture) => s.arriveUtc <= s.departUtc
            case Some(DurationMismatch) => s.departUtc < s.arriveUtc && s.departUtc + s.duration != s.arriveUtc
            case Some(UnknownZone(key)) =>
              && s.departUtc < s.arriveUtc && s.departUtc + s.duration == s.arriveUtc
              && key !in db && (key == s.originTz || (key == s.destinationTz && s.originTz in db))
            case Some(DepartureMismatch(u)) =>
              && s.departUtc < s.arriveUtc && s.departUtc + s.duration == s.arriveUtc
              && s.originTz in db && s.destinationTz in db
              && u == ToUtc(db[s.originTz], s.departLocal, s.departFold) && u != s.departUtc
            case Some(ArrivalMismatch(u)) =>
              && s.departUtc < s.arriveUtc && s.departUtc + s.duration == s.arriveUtc
              && s.originTz in db && s.destinationTz in db
              && ToUtc(db[s.originTz], s.departLocal, s.departFold) == s.departUtc
              && u == ToUtc(db[s.destinationTz], s.arriveLocal, s.arriveFold) && u != s.arriveUtc
            case None =>
              && s.departUtc < s.arriveUtc && s.departUtc + s.duration == s.arriveUtc
              && s.originTz in db && s.destinationTz in db
              && ToUtc(db[s.originTz], s.departLocal, s.departFold) == s.departUtc
              && ToUtc(db[s.destinationTz], s.arriveLocal, s.arriveFold) == s.arriveUtc
  {
    hide ToUtc;
  }

  /** The computed flag: some end has a repeated or skipped wall-clock reading. */
  predicate HasUnusualReading(db: ZoneDb, s: Segment)
    requires s.originTz in db && s.destinationTz in db
  {
    ClassifyLocal(db[s.originTz], s.departLocal) != Normal
    || ClassifyLocal(db[s.destinationTz], s.arriveLocal) != Normal
  }

  /** The generator's segment: local readings taken from the instants, folds left at zero. */
  function BuildSegment(db: ZoneDb, base: Segment, originTz: string, destinationTz: string, depart: int,
                        duration: int): Segment
    requires originTz in db && destinationTz in db
  {
    base.(departUtc := depart, arriveUtc := depart + duration, duration := duration,
          departLocal := FromUtc(db[originTz], depart).wall,
          arriveLocal := FromUtc(db[destinationTz], depart + duration).wall,
          originTz := originTz, destinationTz := destinationTz,
          departFold := 0, arriveFold := 0)
  }

  /** It is accepted exactly when time passes and neither end is in the second
      pass of a repeated hour; the departure's mismatch is reported first. */
  lemma BuiltSegmentAccepted(db: ZoneDb, base: Segment, originTz: string, destinationTz: string, depart: int,
                             duration: int)
    requires originTz in db && destinationTz in db
    ensures var s := BuildSegment(db, base, originTz, destinationTz, depart, duration);
            CheckSegment(db, s).None?
            <==> duration > 0 && !SecondPass(db[originTz], depart) && !SecondPass(db[destinationTz], depart + duration)
  {
    hide ToUtc, FromUtc, SecondPass;
    FoldlessRoundTrip(db[originTz], depart);
    FoldlessRoundTrip(db[destinationTz], depart + duration);
  }

  /** Recording the fold repairs it: with the true folds every such segment is accepted. */
  lemma FoldsRepairSegment(db: ZoneDb, base: Segment, originTz: string, destinationTz: string, depart: int,
                           duration: int)
    requires originTz in db && destinationTz in db && duration > 0
    ensures var s := BuildSegment(db, base, originTz, destinationTz, depart, duration);
            CheckSegment(db, s.(departFold := FromUtc(db[originTz], depart).fold,
                                arriveFold := FromUtc(db[destinationTz], depart + duration).fold)).None?
  {
    hide ToUtc, FromUtc;
    UtcRoundTrip(db[originTz], depart);
    UtcRoundTrip(db[destinationTz], depart + duration);
  }

  /** An accepted segment's unflagged readings occur once, and name its instants alone. */
  lemma UnflaggedIsUnique(db: ZoneDb, s: Segment, u: int)
    requires CheckSegment(db, s).None? && !HasUnusualReading(db, s)
    ensures FromUtc(db[s.originTz], u).wall == s.departLocal <==> u == s.departUtc
    ensures FromUtc(db[s.destinationTz], u).wall == s.arriveLocal <==> u == s.arriveUtc
  {
    hide FromUtc, ToUtc, ClassifyLocal, Occurrences;
    OnlyOccurrence(db[s.originTz], s.departLocal, s.departFold, u);
    OnlyOccurrence(db[s.destinationTz], s.arriveLocal, s.arriveFold, u);
  }

  lemma OnlyOccurrence(z: Zone, wall: int, fold: int, u: int)
    requires ClassifyLocal(z, wall) == Normal
    ensures FromUtc(z, u).wall == wall <==> u == ToUtc(z, wall, fold)
  {
    hide Summer, SummerOf, YearOf, SecondPass;
    if z.European? {
      FromUtcRule(z.std, z.dst, u);
      OffsetRule(z.std, z.dst, wall, fold);
      OffsetRule(z.std, z.dst, wall, 0);
      OffsetRule(z.std, z.dst, wall, 1);
    }
  }

  // -- layovers ---------------------------------------------------------------------

  datatype LayoverError = DepartsBeforeArrival | LayoverDurationMismatch

  function CheckLayover(l: Layover): Option<LayoverError> {
    if l.departUtc <= l.arriveUtc then Some(DepartsBeforeArrival)
    else if l.duration != l.departUtc - l.arriveUtc then Some(LayoverDurationMismatch)
    else None
  }

  lemma LayoverVerdict(l: Layover)
    ensures match CheckLayover(l)
            case Some(DepartsBeforeArrival) => l.departUtc <= l.arriveUtc
            case Some(LayoverDurationMismatch) => l.arriveUtc < l.departUtc && l.arriveUtc + l.duration != l.departUtc
            case None => l.arriveUtc < l.departUtc && l.arriveUtc + l.duration == l.departUtc
  {
  }
}
