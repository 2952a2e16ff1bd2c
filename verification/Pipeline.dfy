/** From executor results to a status and a report: normalize, validate, finalize, rank. */
module Pipeline {
  import opened Wrappers
  import opened Seqs
  import opened Domain
  import opened Outcomes
  import opened Segments
  import opened Itineraries
  import opened Validation
  import opened Scoring
  import opened Dedup
  import opened Survivors
  import opened Ranking
  import opened Report
  import opened Executor
  import opened ExecutorTheorems
  import opened RunStatus
  import Waves
  import DirectVsStop
  import opened AnalysisOrder

  /** What the pipeline reads besides the results: digests, the zone classifier, and the fare date of a request. */
  datatype Context = Context(digests: Digests, classifier: Classifier, asOf: SearchRequest -> int)

  // -- one task's offers ------------------------------------------------------------------

  /** An offer as the record types allow it: at least one leg, every leg checked. */
  predicate Checked(offer: RawOffer) {
    offer.legs != [] && forall i :: 0 <= i < |offer.legs| ==> CheckLeg(offer.legs[i]).None?
  }

  predicate AllChecked(offers: seq<RawOffer>) {
    forall i :: 0 <= i < |offers| ==> Checked(offers[i])
  }

  function Build(x: Context, req: SearchRequest, offer: RawOffer): (r: Result<NormalizedItinerary, BuildError>)
    ensures r.Ok? && Checked(offer) ==> Wellformed(r.value)
  {
    BuildNormalized(x.digests, offer, req.adults, req.cabin, x.asOf(req))
  }

  /** The first `n` offers normalized, or the first that could not be. */
  function Normalized(x: Context, req: SearchRequest, offers: seq<RawOffer>,
                      n: nat): (r: Result<seq<NormalizedItinerary>, BuildError>)
    requires n <= |offers| && AllChecked(offers)
    ensures r.Ok? ==> |r.value| == n && forall i :: 0 <= i < n ==> Wellformed(r.value[i])
  {
    if n == 0 then Ok([])
    else match Normalized(x, req, offers, n - 1)
         case Err(e) => Err(e)
         case Ok(its) => match Build(x, req, offers[n - 1])
                         case Err(e) => Err(e)
                         case Ok(it) => Ok(its + [it])
  }

  datatype Batch = Batch(
    valid: seq<NormalizedItinerary>,
    results: seq<seq<Rejection>>,
    selfTransfers: seq<(NormalizedItinerary, Rejection)>)

  function Passes(x: Context, req: SearchRequest): NormalizedItinerary -> bool {
    (it: NormalizedItinerary) => Wellformed(it) && Validate(x.classifier, it, req) == []
  }

  function Verdicts(x: Context, req: SearchRequest, its: seq<NormalizedItinerary>): (r: seq<seq<Rejection>>)
    requires forall i :: 0 <= i < |its| ==> Wellformed(its[i])
    ensures |r| == |its| && forall i :: 0 <= i < |r| ==> r[i] == Validate(x.classifier, its[i], req)
  {
    seq(|its|, i requires 0 <= i < |its| => Validate(x.classifier, its[i], req))
  }

  predicate IsSelfTransfer(r: Rejection) { r.code == SelfTransfer }

  /** The self-transfer rejections of the first `n` itineraries, each with its itinerary. */
  function Appendix(x: Context, req: SearchRequest, its: seq<NormalizedItinerary>, n: nat): seq<(NormalizedItinerary,
                    Rejection)>
    requires n <= |its| && forall i :: 0 <= i < |its| ==> Wellformed(its[i])
  {
    if n == 0 then []
    else
      var it := its[n - 1];
      Appendix(x, req, its, n - 1)
      + Map((r: Rejection) => (it, r), Filter(IsSelfTransfer, Validate(x.classifier, it, req)))
  }

  function BatchOf(x: Context, req: SearchRequest, offers: seq<RawOffer>): Result<Batch, BuildError>
    requires AllChecked(offers)
  {
    match Normalized(x, req, offers, |offers|)
    case Err(e) => Err(e)
    case Ok(its) => Ok(Batch(Filter(Passes(x, req), its), Verdicts(x, req, its), Appendix(x, req, its, |its|)))
  }

  lemma {:induction false} NormalizedPrefix(x: Context, req: SearchRequest, offers: seq<RawOffer>, m: nat, n: nat)
    requires m <= n <= |offers| && AllChecked(offers)
    ensures Normalized(x, req, offers, m).Err? ==> Normalized(x, req, offers, n) == Normalized(x, req, offers, m)
    decreases n - m
  {
    hide Build, Checked;
    if m < n { NormalizedPrefix(x, req, offers, m, n - 1); }
  }

  /** The batch after the first `n` offers. */
  ghost predicate BatchSoFar(x: Context, req: SearchRequest, its: seq<NormalizedItinerary>, b: Batch) {
    && (forall i :: 0 <= i < |its| ==> Wellformed(its[i]))
    && b == Batch(Filter(Passes(x, req), its), Verdicts(x, req, its), Appendix(x, req, its, |its|))
  }

  lemma {:induction false} AppendixPrefix(x: Context, req: SearchRequest, its: seq<NormalizedItinerary>,
                                          it: NormalizedItinerary, n: nat)
    requires n <= |its| && Wellformed(it) && forall i :: 0 <= i < |its| ==> Wellformed(its[i])
    ensures Appendix(x, req, its + [it], n) == Appendix(x, req, its, n)
  {
    hide Validate, Wellformed;
    if n > 0 {
      AppendixPrefix(x, req, its, it, n - 1);
      assert (its + [it])[n - 1] == its[n - 1];
    }
  }

  lemma BatchNext(x: Context, req: SearchRequest, its: seq<NormalizedItinerary>, b: Batch, it: NormalizedItinerary)
    requires BatchSoFar(x, req, its, b) && Wellformed(it)
    ensures var v := Validate(x.classifier, it, req);
            BatchSoFar(x, req, its + [it],
              Batch(if v == [] then b.valid + [it] else b.valid, b.results + [v],
                    b.selfTransfers + Map((r: Rejection) => (it, r), Filter(IsSelfTransfer, v))))
  {
    hide Validate, Wellformed;
    FilterConcat(Passes(x, req), its, [it]);
    AppendixPrefix(x, req, its, it, |its|);
    assert Verdicts(x, req, its + [it]) == Verdicts(x, req, its) + [Validate(x.classifier, it, req)];
  }

  /** The self-transfer rejections of one verdict, appended one by one. */
  method NoteSelfTransfers(it: NormalizedItinerary, v: seq<Rejection>, noted: seq<(NormalizedItinerary, Rejection)>)
    returns (r: seq<(NormalizedItinerary, Rejection)>)
    ensures r == noted + Map((r: Rejection) => (it, r), Filter(IsSelfTransfer, v))
  {
    r := noted;
    var pair := (r: Rejection) => (it, r);
    assert v[..0] == [];
    for j := 0 to |v|
      invariant r == noted + Map(pair, Filter(IsSelfTransfer, v[..j]))
    {
      assert v[..j + 1] == v[..j] + [v[j]];
      FilterConcat(IsSelfTransfer, v[..j], [v[j]]);
      if v[j].code == SelfTransfer {
        assert Map(pair, Filter(IsSelfTransfer, v[..j]) + [v[j]]) == Map(pair, Filter(IsSelfTransfer, v[..j])) + [(it, v[j])];
        r := r + [(it, v[j])];
      }
    }
    assert v[..|v|] == v;
  }

  /** The loop over a task's offers: build, validate, and keep what each verdict calls for. */
  method NormalizeAndValidate(x: Context, req: SearchRequest, offers: seq<RawOffer>) returns (r: Result<Batch,
                              BuildError>)
    requires AllChecked(offers)
    ensures r == BatchOf(x, req, offers)
  {
    hide Validate, Wellformed, Build, Appendix, Verdicts;
    var b := Batch([], [], []);
    ghost var its: seq<NormalizedItinerary> := [];
    EmptyBatch(x, req);
    for n := 0 to |offers|
      invariant Normalized(x, req, offers, n) == Ok(its) && BatchSoFar(x, req, its, b)
    {
      NormalizedPrefix(x, req, offers, n + 1, |offers|);
      var built := Build(x, req, offers[n]);
      if built.Err? { return Err(built.error); }
      var it := built.value;
      var v := Validate(x.classifier, it, req);
      BatchNext(x, req, its, b, it);
      if v == [] {
        b := b.(valid := b.valid + [it], results := b.results + [v]);
      } else {
        var noted := NoteSelfTransfers(it, v, b.selfTransfers);
        b := b.(results := b.results + [v], selfTransfers := noted);
      }
      its := its + [it];
    }
    return Ok(b);
  }

  lemma EmptyBatch(x: Context, req: SearchRequest)
    ensures BatchSoFar(x, req, [], Batch([], [], []))
  {
  }

  /** The count of empty verdicts is the number of itineraries kept. */
  lemma {:induction false} KeptAreCounted(x: Context, req: SearchRequest, its: seq<NormalizedItinerary>)
    requires forall i :: 0 <= i < |its| ==> Wellformed(its[i])
    ensures |Filter(Passes(x, req), its)| == CountEmpty(Verdicts(x, req, its)) <= |its|
  {
    hide Validate, Wellformed;
    if its != [] {
      KeptAreCounted(x, req, its[1..]);
      assert Verdicts(x, req, its)[1..] == Verdicts(x, req, its[1..]);
    }
  }

  /** The appendix names exactly the itineraries with a self-transfer layover, none of which was accepted. */
  lemma {:induction false} AppendixIff(x: Context, req: SearchRequest, its: seq<NormalizedItinerary>, n: nat,
                                       it: NormalizedItinerary)
    requires n <= |its| && forall i :: 0 <= i < |its| ==> Wellformed(its[i])
    ensures (it, Rejection(SelfTransfer, "self_transfer")) in Appendix(x, req, its, n)
       <==> it in its[..n] && exists l :: l in AllLayovers(it.legs) && l.isSelfTransfer
    ensures (exists l :: l in AllLayovers(it.legs) && l.isSelfTransfer) ==> it !in Filter(Passes(x, req), its)
  {
    hide Validate, Wellformed, AllLayovers;
    var r := Rejection(SelfTransfer, "self_transfer");
    FilterMember(Passes(x, req), its, it);
    if it in its {
      SelfTransferRecordedIff(x.classifier, it, req, r);
    }
    if n > 0 {
      AppendixIff(x, req, its, n - 1, it);
      assert its[..n] == its[..n - 1] + [its[n - 1]];
      LastAppended(x, req, its[n - 1], it);
    }
  }

  lemma LastAppended(x: Context, req: SearchRequest, last: NormalizedItinerary, it: NormalizedItinerary)
    requires Wellformed(last)
    ensures var r := Rejection(SelfTransfer, "self_transfer");
            (it, r) in Map((r: Rejection) => (last, r), Filter(IsSelfTransfer, Validate(x.classifier, last, req)))
            <==> it == last && exists l :: l in AllLayovers(it.legs) && l.isSelfTransfer
  {
    hide Validate, Wellformed, AllLayovers;
    var r := Rejection(SelfTransfer, "self_transfer");
    var kept := Filter(IsSelfTransfer, Validate(x.classifier, last, req));
    FilterMember(IsSelfTransfer, Validate(x.classifier, last, req), r);
    SelfTransferRecordedIff(x.classifier, last, req, r);
    if r in kept {
      var j :| 0 <= j < |kept| && kept[j] == r;
      assert Map((r: Rejection) => (last, r), kept)[j] == (last, r);
    }
  }

  lemma {:induction false} AllNormalize(x: Context, req: SearchRequest, offers: seq<RawOffer>, n: nat, db: ZoneDb)
    requires n <= |offers| && AllChecked(offers)
    requires forall i :: 0 <= i < |offers| ==> LegsChecked(db, offers[i].legs) && offers[i].price.currency == "EUR"
    ensures Normalized(x, req, offers, n).Ok?
  {
    if n > 0 {
      AllNormalize(x, req, offers, n - 1, db);
      BuilderFailsOnlyOnCurrency(db, x.digests, offers[n - 1], req.adults, req.cabin, x.asOf(req));
    }
  }

  // -- the whole ledger -------------------------------------------------------------------

  function Codes(rejections: seq<Rejection>): set<RejectionCode> {
    set r | r in rejections :: r.code
  }

  /** The tallies of a batch: each code that occurs, with its number of rejections. */
  function Tallies(rejections: seq<Rejection>): map<RejectionCode, nat> {
    map code | code in Codes(rejections) :: CountCode(rejections, code)
  }

  lemma {:induction false} CountedIffOccurs(rejections: seq<Rejection>, code: RejectionCode)
    ensures CountCode(rejections, code) > 0 <==> code in Codes(rejections)
  {
    if rejections != [] {
      CountedIffOccurs(rejections[1..], code);
      assert rejections == [rejections[0]] + rejections[1..];
      if CountCode(rejections, code) > 0 && rejections[0].code == code { assert rejections[0] in rejections; }
    }
  }

  lemma TalliesUnique(counts: map<RejectionCode, nat>, rejections: seq<Rejection>)
    requires TalliesOf(counts, rejections)
    ensures counts == Tallies(rejections)
  {
    forall code ensures code in counts <==> code in Tallies(rejections) {
      CountedIffOccurs(rejections, code);
    }
  }

  /** The ledger, the accepted itineraries in task order, and the same itineraries by task. */
  datatype Ledger = Ledger(
    outcomes: seq<TaskOutcome>,
    combined: seq<NormalizedItinerary>,
    byTask: Waves.FoundByTask)

  predicate ResultsChecked(results: seq<TaskExecutionResult>) {
    forall i :: 0 <= i < |results| ==> AllChecked(results[i].offers)
  }

  /** One more task: only an answered one has offers to look at. */
  function Extend(x: Context, ledger: Ledger, task: SearchTask, result: TaskExecutionResult): Result<Ledger, BuildError>
    requires AllChecked(result.offers)
  {
    if result.outcome.state != Answered then Ok(ledger.(outcomes := ledger.outcomes + [result.outcome]))
    else match BatchOf(x, task.request, result.offers)
         case Err(e) => Err(e)
         case Ok(b) =>
           var final := FinalizeOutcome(result.outcome, CountEmpty(b.results), Tallies(Flat(b.results)));
           Ok(Ledger(ledger.outcomes + [final], ledger.combined + b.valid, ledger.byTask[task.taskId := b.valid]))
  }

  function LedgerTo(x: Context, tasks: seq<SearchTask>, results: seq<TaskExecutionResult>, n: nat): Result<Ledger,
                    BuildError>
    requires n <= |tasks| == |results| && ResultsChecked(results)
  {
    if n == 0 then Ok(Ledger([], [], map[]))
    else match LedgerTo(x, tasks, results, n - 1)
         case Err(e) => Err(e)
         case Ok(l) => Extend(x, l, tasks[n - 1], results[n - 1])
  }

  lemma {:induction false} LedgerErrorStays(x: Context, tasks: seq<SearchTask>, results: seq<TaskExecutionResult>,
                                            m: nat, n: nat)
    requires m <= n <= |tasks| == |results| && ResultsChecked(results)
    ensures LedgerTo(x, tasks, results, m).Err? ==> LedgerTo(x, tasks, results, n) == LedgerTo(x, tasks, results, m)
    decreases n - m
  {
    hide Extend, AllChecked;
    if m < n { LedgerErrorStays(x, tasks, results, m, n - 1); }
  }

  /** The finalization loop over tasks and their results. */
  method FinalizeRun(x: Context, tasks: seq<SearchTask>, results: seq<TaskExecutionResult>) returns (r: Result<Ledger,
                     BuildError>)
    requires |tasks| == |results| && ResultsChecked(results)
    ensures r == LedgerTo(x, tasks, results, |tasks|)
  {
    hide BatchOf, AllChecked, Tallies;
    var outcomes: seq<TaskOutcome> := [];
    var combined: seq<NormalizedItinerary> := [];
    var byTask: Waves.FoundByTask := map[];
    for n := 0 to |tasks|
      invariant LedgerTo(x, tasks, results, n) == Ok(Ledger(outcomes, combined, byTask))
    {
      LedgerErrorStays(x, tasks, results, n + 1, |tasks|);
      var outcome := results[n].outcome;
      if outcome.state != Answered {
        outcomes := outcomes + [outcome];
        continue;
      }
      var batch := NormalizeAndValidate(x, tasks[n].request, results[n].offers);
      if batch.Err? { return Err(batch.error); }
      var accepted, counts := Summarize(batch.value.results);
      TalliesUnique(counts, Flat(batch.value.results));
      outcomes := outcomes + [FinalizeOutcome(outcome, accepted, counts)];
      combined := combined + batch.value.valid;
      byTask := byTask[tasks[n].taskId := batch.value.valid];
    }
    return Ok(Ledger(outcomes, combined, byTask));
  }

  /** What the executor guarantees of each result, and finalization relies on. */
  predicate Plausible(r: TaskExecutionResult) {
    && FromExecutor(r.outcome.state)
    && r.outcome.acceptedCount == 0
    && r.outcome.offerCount == |r.offers|
    && (r.outcome.state == Answered <==> r.offers != [])
  }

  lemma ResultsArePlausible(c: Config, table: Cache.Table, sched: seq<nat>)
    requires WellFormed(c) && IsRun(c, Init(c, table), sched) && Complete(Run(c, Init(c, table), sched))
    ensures var r := Run(c, Init(c, table), sched).results;
            && |Collected(r)| == |c.tasks|
            && forall i :: 0 <= i < |c.tasks| ==> Plausible(Collected(r)[i])
  {
    InitInv(c, table);
    RunInv(c, Init(c, table), sched);
    OneResultPerTask(c, table, sched);
    var s := Run(c, Init(c, table), sched);
    forall i | 0 <= i < |c.tasks| ensures Plausible(Collected(s.results)[i]) {
      assert LocalOk(c, s, i);
    }
  }

  /** Every finalized ledger is sound: accepted counts within offer counts, every task an
      answer or a failure, and together as many accepted as itineraries were kept. */
  ghost predicate SoundLedger(l: Ledger, results: seq<TaskExecutionResult>, n: nat)
    requires n <= |results|
  {
    && |l.outcomes| == n
    && TotalAccepted(l.outcomes) == |l.combined|
    && forall i :: 0 <= i < n ==>
         && l.outcomes[i].acceptedCount <= l.outcomes[i].offerCount == |results[i].offers|
         && l.outcomes[i].taskId == results[i].outcome.taskId
         && (l.outcomes[i].state == AllRejected ==> l.outcomes[i].rejectionCounts != map[])
         && (IsError(l.outcomes[i].state) || IsAnswered(l.outcomes[i].state))
         && (l.outcomes[i].state == AllRejected <==> results[i].offers != [] && l.outcomes[i].acceptedCount == 0)
         && (l.outcomes[i].state != AllRejected ==> l.outcomes[i].state == results[i].outcome.state)
  }

  lemma TotalSnoc(outcomes: seq<TaskOutcome>, o: TaskOutcome)
    ensures TotalAccepted(outcomes + [o]) == TotalAccepted(outcomes) + o.acceptedCount
  {
    assert Map(Accepted, outcomes + [o]) == Map(Accepted, outcomes) + [o.acceptedCount];
    SumConcat(Map(Accepted, outcomes), [o.acceptedCount]);
    assert Sum([o.acceptedCount]) == o.acceptedCount;
  }

  /** If no verdict is empty, some code is counted. */
  lemma SomethingTallied(results: seq<seq<Rejection>>)
    requires results != [] && CountEmpty(results) == 0
    ensures Tallies(Flat(results)) != map[]
  {
    var r := results[0][0];
    assert Flat(results)[0] == r;
    assert r in Flat(results);
    assert r.code in Codes(Flat(results));
    assert r.code in Tallies(Flat(results));
  }

  lemma BatchCounts(x: Context, req: SearchRequest, offers: seq<RawOffer>)
    requires AllChecked(offers) && BatchOf(x, req, offers).Ok?
    ensures var b := BatchOf(x, req, offers).value;
            && |b.valid| == CountEmpty(b.results) <= |offers|
            && (offers != [] && b.valid == [] ==> Tallies(Flat(b.results)) != map[])
  {
    var b := BatchOf(x, req, offers).value;
    KeptAreCounted(x, req, Normalized(x, req, offers, |offers|).value);
    if offers != [] && b.valid == [] {
      SomethingTallied(b.results);
    }
  }

  lemma ExtendIsSound(x: Context, ledger: Ledger, task: SearchTask, results: seq<TaskExecutionResult>, n: nat)
    requires n < |results| && AllChecked(results[n].offers) && Plausible(results[n])
    requires SoundLedger(ledger, results, n) && Extend(x, ledger, task, results[n]).Ok?
    ensures SoundLedger(Extend(x, ledger, task, results[n]).value, results, n + 1)
  {
    hide BatchOf, AllChecked, Tallies, TotalAccepted;
    var after := Extend(x, ledger, task, results[n]).value;
    TotalSnoc(ledger.outcomes, after.outcomes[n]);
    if results[n].outcome.state == Answered {
      BatchCounts(x, task.request, results[n].offers);
    }
  }

  lemma {:induction false} LedgersAreSound(x: Context, tasks: seq<SearchTask>, results: seq<TaskExecutionResult>,
                                           n: nat)
    requires n <= |tasks| == |results| && ResultsChecked(results)
    requires forall i :: 0 <= i < |results| ==> Plausible(results[i])
    requires LedgerTo(x, tasks, results, n).Ok?
    ensures SoundLedger(LedgerTo(x, tasks, results, n).value, results, n)
  {
    hide BatchOf, AllChecked, Tallies, TotalAccepted, Extend, Plausible;
    if n == 0 {
      EmptyTotal();
    } else {
      LedgersAreSound(x, tasks, results, n - 1);
      ExtendIsSound(x, LedgerTo(x, tasks, results, n - 1).value, tasks[n - 1], results, n - 1);
    }
  }

  /** Entry `i` after finalization: an answered task's counts are those of its own offers, and nothing else
      about it changes. */
  ghost predicate FinalEntry(x: Context, task: SearchTask, result: TaskExecutionResult, o: TaskOutcome)
    requires AllChecked(result.offers)
  {
    var e := result.outcome;
    && o.taskId == e.taskId && o.attempts == e.attempts && o.offerCount == e.offerCount
    && o.cache == e.cache && o.error == e.error
    && (e.state != Answered ==> o == e)
    && (e.state == Answered ==>
          BatchOf(x, task.request, result.offers).Ok? &&
          var b := BatchOf(x, task.request, result.offers).value;
          && o.acceptedCount == |b.valid|
          && TalliesOf(o.rejectionCounts, Flat(b.results))
          && o.state == if b.valid == [] then AllRejected else Answered)
  }

  lemma {:induction false} EntriesAreFinal(x: Context, tasks: seq<SearchTask>, results: seq<TaskExecutionResult>,
                                           n: nat, i: nat)
    requires i < n <= |tasks| == |results| && ResultsChecked(results) && LedgerTo(x, tasks, results, n).Ok?
    ensures |LedgerTo(x, tasks, results, n).value.outcomes| == n
    ensures FinalEntry(x, tasks[i], results[i], LedgerTo(x, tasks, results, n).value.outcomes[i])
  {
    hide BatchOf, AllChecked, Tallies, FinalEntry;
    LedgerLength(x, tasks, results, n);
    LedgerLength(x, tasks, results, n - 1);
    if i < n - 1 {
      EntriesAreFinal(x, tasks, results, n - 1, i);
    } else {
      ExtendedEntry(x, LedgerTo(x, tasks, results, n - 1).value, tasks[i], results[i]);
    }
  }

  lemma {:induction false} LedgerLength(x: Context, tasks: seq<SearchTask>, results: seq<TaskExecutionResult>, n: nat)
    requires n <= |tasks| == |results| && ResultsChecked(results) && LedgerTo(x, tasks, results, n).Ok?
    ensures |LedgerTo(x, tasks, results, n).value.outcomes| == n
  {
    hide BatchOf, AllChecked, Tallies;
    if n > 0 { LedgerLength(x, tasks, results, n - 1); }
  }

  lemma ExtendedEntry(x: Context, ledger: Ledger, task: SearchTask, result: TaskExecutionResult)
    requires AllChecked(result.offers) && Extend(x, ledger, task, result).Ok?
    ensures var after := Extend(x, ledger, task, result).value.outcomes;
            |after| == |ledger.outcomes| + 1 && FinalEntry(x, task, result, after[|after| - 1])
  {
    hide BatchOf, AllChecked;
    if result.outcome.state == Answered {
      var b := BatchOf(x, task.request, result.offers).value;
      forall code ensures code in Tallies(Flat(b.results)) <==> CountCode(Flat(b.results), code) > 0 {
        CountedIffOccurs(Flat(b.results), code);
      }
      BatchCounts(x, task.request, result.offers);
    }
  }

  lemma EmptyTotal()
    ensures TotalAccepted([]) == 0
  {
  }

  // -- what was accepted ------------------------------------------------------------------

  lemma BatchMember(x: Context, req: SearchRequest, offers: seq<RawOffer>, it: NormalizedItinerary)
    requires AllChecked(offers) && BatchOf(x, req, offers).Ok?
    ensures it in BatchOf(x, req, offers).value.valid ==> Passes(x, req)(it)
  {
    FilterMember(Passes(x, req), Normalized(x, req, offers, |offers|).value, it);
  }

  lemma {:induction false} CombinedPass(x: Context, tasks: seq<SearchTask>, results: seq<TaskExecutionResult>, n: nat,
                                        it: NormalizedItinerary)
    requires n <= |tasks| == |results| && ResultsChecked(results) && LedgerTo(x, tasks, results, n).Ok?
    requires it in LedgerTo(x, tasks, results, n).value.combined
    ensures exists i :: 0 <= i < n && Passes(x, tasks[i].request)(it)
  {
    hide BatchOf, AllChecked, Tallies, Passes;
    var before := LedgerTo(x, tasks, results, n - 1).value;
    if it in before.combined {
      CombinedPass(x, tasks, results, n - 1, it);
    } else {
      BatchMember(x, tasks[n - 1].request, results[n - 1].offers, it);
    }
  }

  /** What is filed under a task passed the rules for that task's own request. */
  lemma {:induction false} FiledPass(x: Context, tasks: seq<SearchTask>, results: seq<TaskExecutionResult>, n: nat,
                                     i: nat, it: NormalizedItinerary)
    requires n <= |tasks| == |results| && ResultsChecked(results) && LedgerTo(x, tasks, results, n).Ok?
    requires i < |tasks| && forall a, b :: 0 <= a < b < |tasks| ==> tasks[a].taskId != tasks[b].taskId
    requires it in Waves.Found(LedgerTo(x, tasks, results, n).value.byTask, tasks[i])
    ensures Passes(x, tasks[i].request)(it)
  {
    hide BatchOf, AllChecked, Tallies, Passes;
    if i == n - 1 && results[i].outcome.state == Answered {
      BatchMember(x, tasks[i].request, results[i].offers, it);
    } else {
      FiledPass(x, tasks, results, n - 1, i, it);
    }
  }

  /** Offers as the providers' mappers and the record types leave them: checked legs, euro prices. */
  ghost predicate Sellable(db: ZoneDb, results: seq<TaskExecutionResult>) {
    && ResultsChecked(results)
    && forall i :: 0 <= i < |results| ==> forall j :: 0 <= j < |results[i].offers| ==>
         LegsChecked(db, results[i].offers[j].legs) && results[i].offers[j].price.currency == "EUR"
  }

  lemma {:induction false} LedgerBuilds(x: Context, db: ZoneDb, tasks: seq<SearchTask>,
                                        results: seq<TaskExecutionResult>, n: nat)
    requires n <= |tasks| == |results| && Sellable(db, results)
    ensures LedgerTo(x, tasks, results, n).Ok?
  {
    hide AllChecked, Normalized, LegsChecked, Verdicts, Appendix;
    if n > 0 {
      LedgerBuilds(x, db, tasks, results, n - 1);
      var offers := results[n - 1].offers;
      AllNormalize(x, tasks[n - 1].request, offers, |offers|, db);
    }
  }

  /** The bands tile the layover window of every request. */
  ghost predicate BandsCover(settings: ScoringSettings, tasks: seq<SearchTask>) {
    forall i :: 0 <= i < |tasks| ==> WindowTiled(settings, tasks[i].request)
  }

  lemma PassingIsScored(x: Context, req: SearchRequest, it: NormalizedItinerary, settings: ScoringSettings)
    requires Passes(x, req)(it) && WindowTiled(settings, req) && settings.mode == FixedBonus
    ensures Scored(settings)(it).Some?
  {
    AcceptedIsScorable(x.classifier, it, req, settings, None);
  }

  /** A survivor is scored like one of the itineraries of its class. */
  lemma SurvivorsAreScored(xs: seq<NormalizedItinerary>, settings: ScoringSettings)
    requires forall it :: it in xs ==> Scored(settings)(it).Some?
    ensures AllSome(Map(Scored(settings), Deduplicated(xs))).Some?
  {
    hide Collapse, ScoreItinerary, SurvivorIndex;
    var out, keys := Deduplicated(xs), ShapeKeys(xs);
    var scored := Map(Scored(settings), out);
    forall i | 0 <= i < |scored| ensures scored[i].Some? {
      var g := Class(xs, keys[i]);
      ClassMember(xs, keys[i], g[SurvivorIndex(g)]);
      CollapseFields(g);
      ScoreReads(g[SurvivorIndex(g)], Collapse(g), settings);
    }
  }

  /** The status of a finished run: finalization succeeds, the envelope accepts the
      computed status and no other, and a report is due exactly when something was accepted. */
  lemma FinishedRunHasOneStatus(x: Context, db: ZoneDb, c: Config, table: Cache.Table, sched: seq<nat>)
    requires WellFormed(c) && c.tasks != []
    requires IsRun(c, Init(c, table), sched) && Complete(Run(c, Init(c, table), sched))
    requires Sellable(db, Collected(Run(c, Init(c, table), sched).results))
    ensures var results := Collected(Run(c, Init(c, table), sched).results);
            && |results| == |c.tasks|
            && LedgerTo(x, c.tasks, results, |c.tasks|).Ok?
            && var l := LedgerTo(x, c.tasks, results, |c.tasks|).value;
               && SoundLedger(l, results, |c.tasks|)
               && Accepts(ComputeStatus(l.outcomes), l.outcomes)
               && (forall status :: Accepts(status, l.outcomes) ==> status == ComputeStatus(l.outcomes))
               && (ComputeStatus(l.outcomes) == CompleteRun || ComputeStatus(l.outcomes) == PartialRun
                   <==> l.combined != [])
  {
    hide BatchOf, AllChecked, Tallies, Accepts, ComputeStatus, Plausible;
    var results := Collected(Run(c, Init(c, table), sched).results);
    ResultsArePlausible(c, table, sched);
    LedgerBuilds(x, db, c.tasks, results, |c.tasks|);
    LedgersAreSound(x, c.tasks, results, |c.tasks|);
    ExecutorLedgersHaveStatus(LedgerTo(x, c.tasks, results, |c.tasks|).value.outcomes);
  }

  /** When a report is due it can be made: every survivor is scored, the ranking is not empty, and it is
      no longer than the number of accepted survivors it is cut from. */
  lemma DueReportIsMade(x: Context, tasks: seq<SearchTask>, results: seq<TaskExecutionResult>,
                        settings: ScoringSettings, topN: int)
    requires |tasks| == |results| && ResultsChecked(results) && LedgerTo(x, tasks, results, |tasks|).Ok?
    requires settings.mode == FixedBonus && BandsCover(settings, tasks) && topN >= 1
    ensures var combined := LedgerTo(x, tasks, results, |tasks|).value.combined;
            var items := AllSome(Map(Scored(settings), Deduplicated(combined)));
            && items.Some?
            && |Ranked(items.value, topN)| <= |items.value| <= |combined|
            && (combined != [] ==> Ranked(items.value, topN) != [])
  {
    hide Passes, FullRanking, LedgerTo, WindowTiled, Scored;
    var combined := LedgerTo(x, tasks, results, |tasks|).value.combined;
    forall it | it in combined ensures Scored(settings)(it).Some? {
      CombinedPass(x, tasks, results, |tasks|, it);
      var i :| 0 <= i < |tasks| && Passes(x, tasks[i].request)(it);
      PassingIsScored(x, tasks[i].request, it, settings);
    }
    SurvivorsAreScored(combined, settings);
    FewerSurvivors(combined);
  }

  /** Nor does the direct-against-one-stop analysis of any destination raise, in either bonus mode. */
  lemma DueAnalysisIsMade(x: Context, tasks: seq<SearchTask>, results: seq<TaskExecutionResult>,
                          settings: ScoringSettings,
                          destination: string, thresholds: DirectVsStop.Thresholds)
    requires |tasks| == |results| && ResultsChecked(results) && LedgerTo(x, tasks, results, |tasks|).Ok?
    requires BandsCover(settings, tasks) && forall a, b :: 0 <= a < b < |tasks| ==> tasks[a].taskId != tasks[b].taskId
    ensures var byTask := LedgerTo(x, tasks, results, |tasks|).value.byTask;
            DirectVsStop.AnalyzeRun(tasks, byTask, destination, thresholds, settings).Ok?
  {
    var byTask := LedgerTo(x, tasks, results, |tasks|).value.byTask;
    forall t | t in tasks
      ensures WindowTiled(settings, t.request)
      ensures forall it :: it in Waves.Found(byTask, t) ==> Passes(x, t.request)(it)
    {
      var i :| 0 <= i < |tasks| && tasks[i] == t;
      forall it | it in Waves.Found(byTask, t) ensures Passes(x, t.request)(it) {
        FiledPass(x, tasks, results, |tasks|, i, it);
      }
    }
    AcceptedByTask(x, tasks, byTask, settings);
    DirectVsStop.AnalysisNeverRaises(x.classifier, tasks, byTask, destination, thresholds, settings);
  }

  lemma AcceptedByTask(x: Context, tasks: seq<SearchTask>, byTask: Waves.FoundByTask, settings: ScoringSettings)
    requires forall t :: t in tasks ==> WindowTiled(settings, t.request)
                                        && forall it :: it in Waves.Found(byTask, t) ==> Passes(x, t.request)(it)
    ensures DirectVsStop.Accepted(x.classifier, tasks, byTask, settings)
  {
    hide Validate, Wellformed, Tiles;
  }

  // -- the order of offers --------------------------------------------------------------------

  /** A built itinerary carries its own digests over checked legs. */
  lemma BuiltIsGenuine(x: Context, db: ZoneDb, req: SearchRequest, offer: RawOffer)
    requires LegsChecked(db, offer.legs) && Build(x, req, offer).Ok?
    ensures Genuine(x.digests, Build(x, req, offer).value)
  {
    hide CheckLeg, Timed, PartsChecked, ItineraryId, ShapeKey, FirstBrokenLeg;
    forall i | 0 <= i < |offer.legs| ensures Timed(offer.legs[i]) {
      CheckedPartsAreTimed(db, offer.legs[i]);
    }
    assert Build(x, req, offer).value.shapeKey == ShapeKey(x.digests, offer.legs, req.cabin, req.adults);
  }

  lemma NormalizedItems(x: Context, req: SearchRequest, offers: seq<RawOffer>, n: nat, i: nat)
    requires i < n <= |offers| && AllChecked(offers) && Normalized(x, req, offers, n).Ok?
    ensures Build(x, req, offers[i]) == Ok(Normalized(x, req, offers, n).value[i])
  {
    hide Build, Checked;
    if i < n - 1 { NormalizedItems(x, req, offers, n - 1, i); }
  }

  lemma {:induction false} CombinedGenuine(x: Context, db: ZoneDb, tasks: seq<SearchTask>,
                                           results: seq<TaskExecutionResult>, n: nat, it: NormalizedItinerary)
    requires n <= |tasks| == |results| && Sellable(db, results) && LedgerTo(x, tasks, results, n).Ok?
    requires it in LedgerTo(x, tasks, results, n).value.combined
    ensures Genuine(x.digests, it)
  {
    hide Normalized, AllChecked, Tallies, Passes, Genuine, LegsChecked, Verdicts, Appendix, Build;
    if it in LedgerTo(x, tasks, results, n - 1).value.combined {
      CombinedGenuine(x, db, tasks, results, n - 1, it);
    } else {
      var offers, req := results[n - 1].offers, tasks[n - 1].request;
      var its := Normalized(x, req, offers, |offers|).value;
      FilterMember(Passes(x, req), its, it);
      NormalizedLength(x, req, offers);
      var i :| 0 <= i < |its| && its[i] == it;
      NormalizedItems(x, req, offers, |offers|, i);
      BuiltIsGenuine(x, db, req, offers[i]);
    }
  }

  lemma NormalizedLength(x: Context, req: SearchRequest, offers: seq<RawOffer>)
    requires AllChecked(offers) && Normalized(x, req, offers, |offers|).Ok?
    ensures |Normalized(x, req, offers, |offers|).value| == |offers|
  {
  }

  lemma {:induction false} OkBag<T>(s: seq<T>, v: T)
    ensures multiset(Map((t: T) => Result<T, BuildError>.Ok(t), s))[Ok(v)] == multiset(s)[v]
  {
    var f := (t: T) => Result<T, BuildError>.Ok(t);
    if s != [] {
      OkBag(s[1..], v);
      assert s == [s[0]] + s[1..];
      assert Map(f, s) == [f(s[0])] + Map(f, s[1..]);
    } else {
      assert Map(f, s) == [];
    }
  }

  lemma NormalizedIsMap(x: Context, req: SearchRequest, offers: seq<RawOffer>)
    requires AllChecked(offers) && Normalized(x, req, offers, |offers|).Ok?
    ensures Map((t: NormalizedItinerary) => Result<NormalizedItinerary, BuildError>.Ok(t),
                Normalized(x, req, offers, |offers|).value)
         == Map((o: RawOffer) => Build(x, req, o), offers)
  {
    hide Build, Normalized, Checked;
    NormalizedLength(x, req, offers);
    forall i | 0 <= i < |offers| ensures Build(x, req, offers[i]) == Ok(Normalized(x, req, offers, |offers|).value[i]) {
      NormalizedItems(x, req, offers, |offers|, i);
    }
  }

  lemma NormalizedBag(x: Context, req: SearchRequest, a: seq<RawOffer>, b: seq<RawOffer>)
    requires AllChecked(a) && AllChecked(b) && multiset(a) == multiset(b)
    requires Normalized(x, req, a, |a|).Ok? && Normalized(x, req, b, |b|).Ok?
    ensures multiset(Normalized(x, req, a, |a|).value) == multiset(Normalized(x, req, b, |b|).value)
  {
    hide Build, Normalized, Checked, AllChecked;
    var p, q := Normalized(x, req, a, |a|).value, Normalized(x, req, b, |b|).value;
    NormalizedIsMap(x, req, a);
    NormalizedIsMap(x, req, b);
    MapBag((o: RawOffer) => Build(x, req, o), a, b);
    forall v ensures multiset(p)[v] == multiset(q)[v] {
      OkBag(p, v);
      OkBag(q, v);
    }
  }

  lemma KeptBag(x: Context, req: SearchRequest, p: seq<NormalizedItinerary>, q: seq<NormalizedItinerary>)
    requires multiset(p) == multiset(q)
    ensures multiset(Filter(Passes(x, req), p)) == multiset(Filter(Passes(x, req), q))
  {
    hide Passes;
    forall v ensures multiset(Filter(Passes(x, req), p))[v] == multiset(Filter(Passes(x, req), q))[v] {
      FilterBag(Passes(x, req), p, v);
      FilterBag(Passes(x, req), q, v);
    }
  }

  /** The same answers, but for the order in which each provider listed its offers. */
  ghost predicate Reordered(a: seq<TaskExecutionResult>, b: seq<TaskExecutionResult>) {
    |a| == |b| && forall i :: 0 <= i < |a| ==> a[i].outcome == b[i].outcome && multiset(a[i].offers) == multiset(b[i].offers)
  }

  lemma TaskBag(x: Context, req: SearchRequest, p: seq<RawOffer>, q: seq<RawOffer>)
    requires AllChecked(p) && AllChecked(q) && multiset(p) == multiset(q)
    requires BatchOf(x, req, p).Ok? && BatchOf(x, req, q).Ok?
    ensures multiset(BatchOf(x, req, p).value.valid) == multiset(BatchOf(x, req, q).value.valid)
  {
    hide Normalized, Passes, Verdicts, Appendix, AllChecked;
    NormalizedBag(x, req, p, q);
    KeptBag(x, req, Normalized(x, req, p, |p|).value, Normalized(x, req, q, |q|).value);
  }

  lemma {:induction false} CombinedBag(x: Context, tasks: seq<SearchTask>, a: seq<TaskExecutionResult>,
                                       b: seq<TaskExecutionResult>, n: nat)
    requires n <= |tasks| == |a| && Reordered(a, b) && ResultsChecked(a) && ResultsChecked(b)
    requires LedgerTo(x, tasks, a, n).Ok? && LedgerTo(x, tasks, b, n).Ok?
    ensures multiset(LedgerTo(x, tasks, a, n).value.combined) == multiset(LedgerTo(x, tasks, b, n).value.combined)
  {
    hide BatchOf, AllChecked, Tallies;
    if n > 0 {
      CombinedBag(x, tasks, a, b, n - 1);
      if a[n - 1].outcome.state == Answered {
        TaskBag(x, tasks[n - 1].request, a[n - 1].offers, b[n - 1].offers);
      }
    }
  }

  /** End to end, from what the providers returned to the lines of the report: when the cheapest
      accepted itineraries of each shape agree on what is shown, the order of offers
      within an answer, and so their order of arrival, never shows. */
  lemma OfferOrderInvisible<T(!new)>(x: Context, db: ZoneDb, tasks: seq<SearchTask>, shown: Display<T>,
                                     a: seq<TaskExecutionResult>, b: seq<TaskExecutionResult>,
                                     settings: ScoringSettings, topN: int)
    requires CollisionFree(x.digests) && Unaided(shown)
    requires |tasks| == |a| && Reordered(a, b) && Sellable(db, a) && Sellable(db, b)
    requires LedgerTo(x, tasks, a, |tasks|).Ok? ==>
               TiesAgree(RowOrNone(shown, settings), LedgerTo(x, tasks, a, |tasks|).value.combined)
    ensures var p, q := LedgerTo(x, tasks, a, |tasks|), LedgerTo(x, tasks, b, |tasks|);
            && p.Ok? && q.Ok?
            && ReportLines(shown, p.value.combined, settings, topN) == ReportLines(shown, q.value.combined, settings, topN)
  {
    hide LedgerTo, Genuine, TiesAgree, ReportLines, CollisionFree, LegsChecked, AllChecked, Unaided;
    LedgerBuilds(x, db, tasks, a, |tasks|);
    LedgerBuilds(x, db, tasks, b, |tasks|);
    CombinedBag(x, tasks, a, b, |tasks|);
    var p, q := LedgerTo(x, tasks, a, |tasks|).value.combined, LedgerTo(x, tasks, b, |tasks|).value.combined;
    forall it | it in p ensures Genuine(x.digests, it) { CombinedGenuine(x, db, tasks, a, |tasks|, it); }
    PermutationBag(p, q);
    ArrivalOrderInvisible(x.digests, shown, p, q, settings, topN);
  }

  // -- and the analyses ------------------------------------------------------------------------

  lemma {:induction false} FiledBag(x: Context, tasks: seq<SearchTask>, a: seq<TaskExecutionResult>,
                                    b: seq<TaskExecutionResult>, n: nat, t: SearchTask)
    requires n <= |tasks| == |a| && Reordered(a, b) && ResultsChecked(a) && ResultsChecked(b)
    requires LedgerTo(x, tasks, a, n).Ok? && LedgerTo(x, tasks, b, n).Ok?
    ensures multiset(Waves.Found(LedgerTo(x, tasks, a, n).value.byTask, t))
         == multiset(Waves.Found(LedgerTo(x, tasks, b, n).value.byTask, t))
  {
    hide BatchOf, AllChecked, Tallies;
    if n > 0 {
      FiledBag(x, tasks, a, b, n - 1, t);
      if a[n - 1].outcome.state == Answered {
        TaskBag(x, tasks[n - 1].request, a[n - 1].offers, b[n - 1].offers);
      }
    }
  }

  lemma {:induction false} FiledIsCombined(x: Context, tasks: seq<SearchTask>, results: seq<TaskExecutionResult>,
                                           n: nat, t: SearchTask, it: NormalizedItinerary)
    requires n <= |tasks| == |results| && ResultsChecked(results) && LedgerTo(x, tasks, results, n).Ok?
    requires it in Waves.Found(LedgerTo(x, tasks, results, n).value.byTask, t)
    ensures it in LedgerTo(x, tasks, results, n).value.combined
  {
    hide BatchOf, AllChecked, Tallies;
    if n > 0 && it in Waves.Found(LedgerTo(x, tasks, results, n - 1).value.byTask, t) {
      FiledIsCombined(x, tasks, results, n - 1, t, it);
    }
  }

  /** End to end as well: the order of offers within the answers, and of the tasks themselves, never shows in
      the outline of a destination's analysis, if its itineraries of one shape are cut into legs alike. */
  lemma OfferOrderInvisibleToAnalysis(x: Context, db: ZoneDb, tasks: seq<SearchTask>, a: seq<TaskExecutionResult>,
                                      b: seq<TaskExecutionResult>, order: seq<SearchTask>, d: string,
                                      thresholds: DirectVsStop.Thresholds, settings: ScoringSettings)
    requires CollisionFree(x.digests) && multiset(order) == multiset(tasks)
    requires |tasks| == |a| && Reordered(a, b) && Sellable(db, a) && Sellable(db, b)
    requires LedgerTo(x, tasks, a, |tasks|).Ok? ==>
               && SplitAlike(DirectVsStop.DirectPool(tasks, LedgerTo(x, tasks, a, |tasks|).value.byTask, |tasks|, d))
               && SplitAlike(DirectVsStop.StopPool(tasks, LedgerTo(x, tasks, a, |tasks|).value.byTask, |tasks|, d))
    ensures var p, q := LedgerTo(x, tasks, a, |tasks|), LedgerTo(x, tasks, b, |tasks|);
            && p.Ok? && q.Ok?
            && OutlineOf(DirectVsStop.AnalyzeRun(tasks, p.value.byTask, d, thresholds, settings))
               == OutlineOf(DirectVsStop.AnalyzeRun(order, q.value.byTask, d, thresholds, settings))
  {
    hide LedgerTo, Genuine, SplitAlike, DirectVsStop.AnalyzeRun, OutlineOf, CollisionFree, LegsChecked, AllChecked;
    LedgerBuilds(x, db, tasks, a, |tasks|);
    LedgerBuilds(x, db, tasks, b, |tasks|);
    var p, q := LedgerTo(x, tasks, a, |tasks|).value.byTask, LedgerTo(x, tasks, b, |tasks|).value.byTask;
    forall t ensures multiset(Waves.Found(p, t)) == multiset(Waves.Found(q, t)) {
      FiledBag(x, tasks, a, b, |tasks|, t);
    }
    forall t, it | t in tasks && it in Waves.Found(p, t) ensures Genuine(x.digests, it) {
      FiledIsCombined(x, tasks, a, |tasks|, t, it);
      CombinedGenuine(x, db, tasks, a, |tasks|, it);
    }
    OutlineIgnoresExecutionOrder(x.digests, tasks, p, order, q, d, thresholds, settings);
  }
}
