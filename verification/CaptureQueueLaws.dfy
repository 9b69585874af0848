/** What a successfully built capture queue contains, and exactly when one can be built. */
module CaptureQueueLaws {
  import opened Base
  import opened Ordering
  import opened Text
  import opened CaptureQueue

  // ---------- What the observations say about one project ----------

  ghost predicate Names(o: Observation, sch: string) {
    o.kind.Target? && o.kind.sch == sch
  }

  ghost function Numbers(obs: seq<Observation>): set<string> {
    set o | o in obs && o.kind.Target? :: o.kind.sch
  }

  /** Everything said about one project, oldest first, folded into its candidate. */
  ghost function Summary(obs: seq<Observation>, sch: string): Option<Candidate> {
    if obs == [] then None
    else
      var last, before := obs[|obs| - 1], Summary(obs[..|obs| - 1], sch);
      if !Names(last, sch) then before
      else if before == None then Some(FirstSeen(last))
      else Some(SeenAgain(before.value, last))
  }

  ghost function CountKind(obs: seq<Observation>, kind: Kind): nat {
    if obs == [] then 0
    else CountKind(obs[..|obs| - 1], kind) + if obs[|obs| - 1].kind == kind then 1 else 0
  }

  /** All observations of one project claim the same county. */
  ghost predicate CountiesAgree(obs: seq<Observation>) {
    forall i, j :: 0 <= i < j < |obs| && obs[i].kind.Target? && Names(obs[j], obs[i].kind.sch) ==>
      obs[i].kind.county == obs[j].kind.county
  }

  ghost predicate ClaimsOnly(obs: seq<Observation>, sch: string, county: string) {
    forall o :: o in obs && Names(o, sch) ==> o.kind.county == county
  }

  lemma NumbersNext(obs: seq<Observation>)
    requires obs != []
    ensures var n := |obs| - 1;
      Numbers(obs) == if obs[n].kind.Target? then Numbers(obs[..n]) + {obs[n].kind.sch} else Numbers(obs[..n])
  {
    assert obs == obs[..|obs| - 1] + [obs[|obs| - 1]];
  }

  lemma {:induction false} SummaryExists(obs: seq<Observation>, sch: string)
    ensures Summary(obs, sch).Some? <==> sch in Numbers(obs)
    ensures Summary(obs, sch).Some? ==> Summary(obs, sch).value.sch == sch
  {
    if obs != [] {
      NumbersNext(obs);
      SummaryExists(obs[..|obs| - 1], sch);
    }
  }

  /** The claims about a project agree with the last of them. */
  lemma ClaimsAgree(obs: seq<Observation>, sch: string)
    requires obs != [] && CountiesAgree(obs) && Names(obs[|obs| - 1], sch)
    ensures ClaimsOnly(obs, sch, obs[|obs| - 1].kind.county)
  {
    forall o | o in obs && Names(o, sch)
      ensures o.kind.county == obs[|obs| - 1].kind.county
    {
      var i :| 0 <= i < |obs| && obs[i] == o;
    }
  }

  lemma {:induction false} SummaryHolds(obs: seq<Observation>, sch: string)
    requires CountiesAgree(obs) && Summary(obs, sch).Some?
    ensures ClaimsOnly(obs, sch, Summary(obs, sch).value.county)
  {
    var front, last := obs[..|obs| - 1], obs[|obs| - 1];
    assert obs == front + [last];
    if Summary(front, sch).Some? {
      assert forall i :: 0 <= i < |front| ==> front[i] == obs[i];
      SummaryHolds(front, sch);
      SummaryExists(front, sch);
    }
    if Names(last, sch) {
      ClaimsAgree(obs, sch);
      if Summary(front, sch).Some? {
        var o :| o in front && o.kind.Target? && o.kind.sch == sch;
        assert Names(o, sch) && o in obs;
      }
    }
  }

  ghost predicate SummariesAre(candidates: map<string, Candidate>, obs: seq<Observation>) {
    forall sch :: sch in candidates ==> Summary(obs, sch) == Some(candidates[sch])
  }

  ghost predicate KeysAre(t: Tallies, numbers: set<string>) {
    Distinct(t.order) && Elements(t.order) == t.candidates.Keys == numbers
  }

  ghost predicate ExclusionsAre(t: Tallies, obs: seq<Observation>) {
    t.unidentified == CountKind(obs, Unidentified) && t.outside == CountKind(obs, Outside)
  }

  /** The tallies are what the observations say. */
  ghost predicate Summarises(t: Tallies, obs: seq<Observation>) {
    KeysAre(t, Numbers(obs)) && SummariesAre(t.candidates, obs) && ExclusionsAre(t, obs)
  }

  lemma DistinctAppend(order: seq<string>, sch: string)
    requires Distinct(order) && sch !in Elements(order)
    ensures Distinct(order + [sch]) && Elements(order + [sch]) == Elements(order) + {sch}
  {
    forall i | 0 <= i < |order|
      ensures order[i] != sch
    {
      assert order[i] in Elements(order);
    }
    assert forall x :: x in order + [sch] <==> x in order || x == sch;
  }

  lemma NumbersGrow(obs: seq<Observation>)
    requires obs != []
    ensures var front, last := obs[..|obs| - 1], obs[|obs| - 1];
      |Numbers(obs)| == |Numbers(front)| + if last.kind.Target? && last.kind.sch !in Numbers(front) then 1 else 0
  {
    NumbersNext(obs);
    var front, last := obs[..|obs| - 1], obs[|obs| - 1];
    if last.kind.Target? && last.kind.sch in Numbers(front) {
      assert Numbers(obs) == Numbers(front);
    }
  }

  ghost predicate CandidatesStep(before: map<string, Candidate>, after: map<string, Candidate>, last: Observation) {
    if !last.kind.Target? then after == before
    else if last.kind.sch in before then after == before[last.kind.sch := SeenAgain(before[last.kind.sch], last)]
    else after == before[last.kind.sch := FirstSeen(last)]
  }

  lemma TallyOneStep(t: Tallies, last: Observation)
    requires TallyOne(t, last).Ok?
    ensures CandidatesStep(t.candidates, TallyOne(t, last).value.candidates, last)
  {
  }

  lemma SummariesNext(before: map<string, Candidate>, after: map<string, Candidate>, obs: seq<Observation>)
    requires obs != [] && SummariesAre(before, obs[..|obs| - 1]) && before.Keys == Numbers(obs[..|obs| - 1])
    requires CandidatesStep(before, after, obs[|obs| - 1])
    ensures SummariesAre(after, obs)
  {
    var front, last := obs[..|obs| - 1], obs[|obs| - 1];
    if last.kind.Target? && last.kind.sch !in before {
      SummaryExists(front, last.kind.sch);
    }
    forall sch | sch in after
      ensures Summary(obs, sch) == Some(after[sch])
    {
      if sch in before { assert Summary(front, sch) == Some(before[sch]); }
    }
  }

  lemma KeysNew(t: Tallies, sch: string, c: Candidate, numbers: set<string>)
    requires KeysAre(t, numbers) && sch !in numbers
    ensures KeysAre(t.(candidates := t.candidates[sch := c], order := t.order + [sch]), numbers + {sch})
  {
    DistinctAppend(t.order, sch);
  }

  lemma KeysAgain(t: Tallies, sch: string, c: Candidate, numbers: set<string>)
    requires KeysAre(t, numbers) && sch in numbers
    ensures KeysAre(t.(candidates := t.candidates[sch := c]), numbers + {sch})
  {
    assert numbers + {sch} == numbers;
    assert t.candidates[sch := c].Keys == t.candidates.Keys;
  }

  lemma TallyOneKeys(t: Tallies, last: Observation, numbers: set<string>)
    requires KeysAre(t, numbers) && TallyOne(t, last).Ok?
    ensures KeysAre(TallyOne(t, last).value, if last.kind.Target? then numbers + {last.kind.sch} else numbers)
  {
    if last.kind.Target? {
      if last.kind.sch in numbers {
        KeysAgain(t, last.kind.sch, SeenAgain(t.candidates[last.kind.sch], last), numbers);
      } else {
        KeysNew(t, last.kind.sch, FirstSeen(last), numbers);
      }
    }
  }

  lemma TallyOneExclusions(t: Tallies, obs: seq<Observation>)
    requires obs != [] && ExclusionsAre(t, obs[..|obs| - 1]) && TallyOne(t, obs[|obs| - 1]).Ok?
    ensures ExclusionsAre(TallyOne(t, obs[|obs| - 1]).value, obs)
  {
  }

  lemma TallyOneSummarises(t: Tallies, obs: seq<Observation>)
    requires obs != [] && Summarises(t, obs[..|obs| - 1]) && TallyOne(t, obs[|obs| - 1]).Ok?
    ensures Summarises(TallyOne(t, obs[|obs| - 1]).value, obs)
  {
    var last := obs[|obs| - 1];
    NumbersNext(obs);
    TallyOneStep(t, last);
    TallyOneKeys(t, last, Numbers(obs[..|obs| - 1]));
    TallyOneExclusions(t, obs);
    SummariesNext(t.candidates, TallyOne(t, last).value.candidates, obs);
  }

  /** The aggregation succeeds exactly when the counties agree and the candidates stay within the limit;
      it then summarises the observations. */
  lemma {:induction false} TallyIff(obs: seq<Observation>)
    ensures TallyAll(NOTHING, obs).Ok? <==> CountiesAgree(obs) && |Numbers(obs)| <= MAX_CANDIDATES
    ensures TallyAll(NOTHING, obs).Ok? ==> Summarises(TallyAll(NOTHING, obs).value, obs)
  {
    if obs == [] {
      assert Numbers(obs) == {};
    } else {
      var n := |obs| - 1;
      TallyIff(obs[..n]);
      NumbersNext(obs);
      AgreeNext(obs);
      SubsetSize(Numbers(obs[..n]), Numbers(obs));
      if TallyAll(NOTHING, obs[..n]).Ok? {
        TallyOneIff(TallyAll(NOTHING, obs[..n]).value, obs);
      }
    }
  }

  lemma AgreeNext(obs: seq<Observation>)
    requires obs != []
    ensures var n := |obs| - 1;
      CountiesAgree(obs) <==> CountiesAgree(obs[..n]) && AgreesWith(obs[..n], obs[n])
  {
    var n := |obs| - 1;
    assert forall i :: 0 <= i < n ==> obs[..n][i] == obs[i];
    if CountiesAgree(obs) {
      forall o | o in obs[..n] && o.kind.Target? && Names(obs[n], o.kind.sch)
        ensures o.kind.county == obs[n].kind.county
      {
        var i :| 0 <= i < n && obs[i] == o;
      }
    }
  }

  ghost predicate AgreesWith(obs: seq<Observation>, last: Observation) {
    forall o :: o in obs && o.kind.Target? && Names(last, o.kind.sch) ==> o.kind.county == last.kind.county
  }

  /** An earlier observation of the last one's project, when there is one. */
  lemma AgreesWithFirst(obs: seq<Observation>, last: Observation, c: Candidate)
    requires CountiesAgree(obs) && last.kind.Target? && Summary(obs, last.kind.sch) == Some(c)
    ensures AgreesWith(obs, last) <==> c.county == last.kind.county
  {
    var sch := last.kind.sch;
    SummaryExists(obs, sch);
    SummaryHolds(obs, sch);
    var o :| o in obs && o.kind.Target? && o.kind.sch == sch;
    assert Names(o, sch) && Names(last, o.kind.sch);
    forall other | other in obs && other.kind.Target? && Names(last, other.kind.sch)
      ensures other.kind.county == c.county
    {
      assert Names(other, sch);
    }
  }

  lemma TallyOneIff(t: Tallies, obs: seq<Observation>)
    requires obs != [] && Summarises(t, obs[..|obs| - 1]) && CountiesAgree(obs[..|obs| - 1])
    requires |Numbers(obs[..|obs| - 1])| <= MAX_CANDIDATES
    ensures TallyOne(t, obs[|obs| - 1]).Ok?
        <==> AgreesWith(obs[..|obs| - 1], obs[|obs| - 1]) && |Numbers(obs)| <= MAX_CANDIDATES
    ensures TallyOne(t, obs[|obs| - 1]).Ok? ==> Summarises(TallyOne(t, obs[|obs| - 1]).value, obs)
  {
    var front, last := obs[..|obs| - 1], obs[|obs| - 1];
    NumbersGrow(obs);
    assert |t.candidates| == |t.candidates.Keys| == |Numbers(front)|;
    if last.kind.Target? && last.kind.sch in t.candidates {
      AgreesWithFirst(front, last, t.candidates[last.kind.sch]);
    } else {
      assert AgreesWith(front, last);
    }
    if TallyOne(t, last).Ok? {
      TallyOneSummarises(t, obs);
    }
  }

  // ---------- What a candidate means ----------

  ghost predicate PagesOrdered(obs: seq<Observation>) {
    forall i, j :: 0 <= i <= j < |obs| ==> obs[i].page <= obs[j].page
  }

  ghost function PagesNaming(obs: seq<Observation>, sch: string): set<nat> {
    set o | o in obs && Names(o, sch) :: o.page
  }

  ghost function CountNamed(obs: seq<Observation>, sch: string): nat {
    if obs == [] then 0 else CountNamed(obs[..|obs| - 1], sch) + if Names(obs[|obs| - 1], sch) then 1 else 0
  }

  predicate Increasing(pages: seq<nat>) {
    forall i, j :: 0 <= i < j < |pages| ==> pages[i] < pages[j]
  }

  /** The candidate of a project: its first title and link, the count and the pages of its observations,
      the county they all claim, and whether any of them calls for enrichment. */
  ghost predicate Means(c: Candidate, obs: seq<Observation>, sch: string) {
    && c.sch == sch && c.count == CountNamed(obs, sch)
    && Increasing(c.pages) && Elements(c.pages) == PagesNaming(obs, sch)
    && (c.requiresEnrichment <==> exists o :: o in obs && Names(o, sch) && o.requiresEnrichment)
    && ClaimsOnly(obs, sch, c.county)
    && exists i :: 0 <= i < |obs| && IsFirst(obs, sch, i)
                   && c.title == obs[i].title && c.detailUrl == obs[i].kind.link && c.county == obs[i].kind.county
  }

  ghost predicate IsFirst(obs: seq<Observation>, sch: string, i: nat)
    requires i < |obs|
  {
    Names(obs[i], sch) && forall j :: 0 <= j < i ==> !Names(obs[j], sch)
  }

  lemma {:induction false} CountedNamed(obs: seq<Observation>, sch: string)
    ensures CountNamed(obs, sch) == if Summary(obs, sch).Some? then Summary(obs, sch).value.count else 0
  {
    if obs != [] {
      CountedNamed(obs[..|obs| - 1], sch);
    }
  }

  lemma PagesNamingNext(obs: seq<Observation>, sch: string)
    requires obs != []
    ensures var n := |obs| - 1;
      PagesNaming(obs, sch) == PagesNaming(obs[..n], sch) + if Names(obs[n], sch) then {obs[n].page} else {}
  {
    assert obs == obs[..|obs| - 1] + [obs[|obs| - 1]];
  }

  lemma PageAppended(pages: seq<nat>, page: nat)
    requires Increasing(pages) && forall x :: x in pages ==> x <= page
    ensures var after := if page in pages then pages else pages + [page];
      Increasing(after) && Elements(after) == Elements(pages) + {page}
  {
    if page !in pages {
      forall i | 0 <= i < |pages|
        ensures pages[i] < page
      {
        assert pages[i] in pages;
      }
      assert forall x :: x in pages + [page] <==> x in pages || x == page;
    }
  }

  lemma {:induction false} PagesHold(obs: seq<Observation>, sch: string)
    requires PagesOrdered(obs)
    ensures Summary(obs, sch) == None ==> PagesNaming(obs, sch) == {}
    ensures Summary(obs, sch).Some? ==>
      Increasing(Summary(obs, sch).value.pages) && Elements(Summary(obs, sch).value.pages) == PagesNaming(obs, sch)
  {
    if obs != [] {
      var n := |obs| - 1;
      var front, last := obs[..n], obs[n];
      PagesHold(front, sch);
      PagesNamingNext(obs, sch);
      if Names(last, sch) && Summary(front, sch).Some? {
        var c := Summary(front, sch).value;
        forall x | x in c.pages
          ensures x <= last.page
        {
          assert x in PagesNaming(front, sch);
          var o :| o in front && Names(o, sch) && o.page == x;
          var i :| 0 <= i < n && front[i] == o;
          assert obs[i] == o;
        }
        PageAppended(c.pages, last.page);
      }
    }
  }

  lemma NobodyNames(obs: seq<Observation>, sch: string)
    requires sch !in Numbers(obs)
    ensures forall o :: o in obs ==> !Names(o, sch)
  {
    assert forall o :: o in obs && o.kind.Target? ==> o.kind.sch in Numbers(obs);
  }

  lemma {:induction false} EnrichmentHolds(obs: seq<Observation>, sch: string)
    requires Summary(obs, sch).Some?
    ensures Summary(obs, sch).value.requiresEnrichment
        <==> exists o :: o in obs && Names(o, sch) && o.requiresEnrichment
  {
    var front, last := obs[..|obs| - 1], obs[|obs| - 1];
    assert obs == front + [last];
    if Summary(front, sch).Some? {
      EnrichmentHolds(front, sch);
    } else {
      SummaryExists(front, sch);
      NobodyNames(front, sch);
    }
  }

  lemma {:induction false} FirstHolds(obs: seq<Observation>, sch: string) returns (i: nat)
    requires Summary(obs, sch).Some?
    ensures i < |obs| && IsFirst(obs, sch, i)
    ensures var c := Summary(obs, sch).value;
      c.title == obs[i].title && c.detailUrl == obs[i].kind.link && c.county == obs[i].kind.county
  {
    var n := |obs| - 1;
    var front := obs[..n];
    if Summary(front, sch).Some? {
      i := FirstHolds(front, sch);
      assert forall j :: 0 <= j < n ==> front[j] == obs[j];
    } else {
      i := n;
      SummaryExists(front, sch);
      NobodyNames(front, sch);
      assert forall j :: 0 <= j < n ==> front[j] == obs[j] && front[j] in front;
    }
  }

  lemma SummaryMeans(obs: seq<Observation>, sch: string)
    requires PagesOrdered(obs) && CountiesAgree(obs) && Summary(obs, sch).Some?
    ensures Means(Summary(obs, sch).value, obs, sch)
  {
    SummaryExists(obs, sch);
    SummaryHolds(obs, sch);
    CountedNamed(obs, sch);
    PagesHold(obs, sch);
    EnrichmentHolds(obs, sch);
    var i := FirstHolds(obs, sch);
  }

  // ---------- Conservation ----------

  ghost function CountIn(candidates: map<string, Candidate>): string -> nat {
    sch => if sch in candidates then candidates[sch].count else 0
  }

  ghost function Total(t: Tallies): nat {
    SumBy(CountIn(t.candidates), t.order) + t.unidentified + t.outside
  }

  lemma TotalNew(candidates: map<string, Candidate>, order: seq<string>, sch: string, c: Candidate)
    requires sch !in order && c.count == 1
    ensures SumBy(CountIn(candidates[sch := c]), order + [sch]) == SumBy(CountIn(candidates), order) + 1
  {
    SumAppend(CountIn(candidates[sch := c]), order, sch);
    SumCongruent(CountIn(candidates), CountIn(candidates[sch := c]), order);
  }

  lemma TotalAgain(candidates: map<string, Candidate>, order: seq<string>, sch: string, c: Candidate)
    requires Distinct(order) && sch in order && sch in candidates && c.count == candidates[sch].count + 1
    ensures SumBy(CountIn(candidates[sch := c]), order) == SumBy(CountIn(candidates), order) + 1
  {
    SumBumped(CountIn(candidates), CountIn(candidates[sch := c]), order, sch);
  }

  /** Each observation is counted exactly once. */
  lemma TallyOneCounts(t: Tallies, last: Observation, numbers: set<string>)
    requires KeysAre(t, numbers) && TallyOne(t, last).Ok?
    ensures Total(TallyOne(t, last).value) == Total(t) + 1
  {
    if last.kind.Target? {
      var sch := last.kind.sch;
      assert sch in t.order <==> sch in Elements(t.order);
      if sch in t.candidates {
        TotalAgain(t.candidates, t.order, sch, SeenAgain(t.candidates[sch], last));
      } else {
        TotalNew(t.candidates, t.order, sch, FirstSeen(last));
      }
    }
  }

  lemma TallyKeys(obs: seq<Observation>)
    requires TallyAll(NOTHING, obs).Ok?
    ensures KeysAre(TallyAll(NOTHING, obs).value, Numbers(obs))
  {
    TallyIff(obs);
  }

  type Measure = Tallies -> nat

  ghost predicate GrowsByOne(total: Measure, obs: seq<Observation>) {
    obs != [] && TallyAll(NOTHING, obs).Ok? ==>
      && TallyAll(NOTHING, obs[..|obs| - 1]).Ok?
      && total(TallyAll(NOTHING, obs).value) == total(TallyAll(NOTHING, obs[..|obs| - 1]).value) + 1
  }

  ghost predicate AlwaysGrows(total: Measure) {
    forall obs :: GrowsByOne(total, obs)
  }

  ghost function Totals(): Measure {
    t => Total(t)
  }

  lemma TotalGrowsByOne(obs: seq<Observation>)
    ensures GrowsByOne(Totals(), obs)
  {
    if obs != [] && TallyAll(NOTHING, obs).Ok? {
      var front := obs[..|obs| - 1];
      TallyKeys(front);
      TallyOneCounts(TallyAll(NOTHING, front).value, obs[|obs| - 1], Numbers(front));
    }
  }

  lemma TotalAlwaysGrows()
    ensures AlwaysGrows(Totals()) && Totals()(NOTHING) == 0
  {
    forall obs
      ensures GrowsByOne(Totals(), obs)
    {
      TotalGrowsByOne(obs);
    }
  }

  lemma {:induction false} MeasuresLength(total: Measure, obs: seq<Observation>)
    requires total(NOTHING) == 0 && AlwaysGrows(total)
    requires TallyAll(NOTHING, obs).Ok?
    ensures total(TallyAll(NOTHING, obs).value) == |obs|
  {
    if obs != [] {
      assert GrowsByOne(total, obs);
      MeasuresLength(total, obs[..|obs| - 1]);
    }
  }

  lemma TallyCounts(obs: seq<Observation>)
    requires TallyAll(NOTHING, obs).Ok?
    ensures Total(TallyAll(NOTHING, obs).value) == |obs|
  {
    TotalAlwaysGrows();
    MeasuresLength(Totals(), obs);
  }

  lemma {:induction false} Picked(candidates: map<string, Candidate>, order: seq<string>)
    requires forall sch :: sch in order ==> sch in candidates
    ensures |Pick(candidates, order)| == |order|
    ensures forall i :: 0 <= i < |order| ==> Pick(candidates, order)[i] == candidates[order[i]]
    ensures SumBy((c: Candidate) => c.count, Pick(candidates, order)) == SumBy(CountIn(candidates), order)
  {
    if order != [] {
      Picked(candidates, order[1..]);
      assert Pick(candidates, order)[1..] == Pick(candidates, order[1..]);
    }
  }

  // ---------- The pages as one run of observations ----------

  lemma {:induction false} TallyConcat(t: Tallies, a: seq<Observation>, b: seq<Observation>)
    ensures TallyAll(t, a + b)
         == match TallyAll(t, a) { case Err(error) => Err(error) case Ok(u) => TallyAll(u, b) }
  {
    if b == [] {
      assert a + b == a;
    } else {
      assert (a + b)[..|a + b| - 1] == a + b[..|b| - 1];
      TallyConcat(t, a, b[..|b| - 1]);
    }
  }

  ghost function AllObservations(read: PageReader, pages: seq<Snapshot>): seq<Observation> {
    if pages == [] then []
    else
      AllObservations(read, pages[..|pages| - 1])
      + match read(pages[|pages| - 1], |pages|) { case Err(_) => [] case Ok(obs) => obs }
  }

  ghost predicate AllRead(read: PageReader, pages: seq<Snapshot>) {
    forall i :: 0 <= i < |pages| ==> read(pages[i], i + 1).Ok?
  }

  lemma AllReadNext(read: PageReader, pages: seq<Snapshot>)
    requires pages != []
    ensures AllRead(read, pages) <==> AllRead(read, pages[..|pages| - 1]) && read(pages[|pages| - 1], |pages|).Ok?
  {
    var n := |pages| - 1;
    assert forall i :: 0 <= i < n ==> pages[..n][i] == pages[i];
  }

  /** Scanning page by page is tallying all observations at once. */
  ghost predicate ScanAgrees(scan: Result<Scan, QueueError>, allRead: bool, obs: seq<Observation>) {
    && (scan.Ok? <==> allRead && TallyAll(NOTHING, obs).Ok?)
    && (scan.Ok? ==> scan.value.tallies == TallyAll(NOTHING, obs).value && scan.value.parsed == |obs|)
  }

  lemma ScanNext(read: PageReader, pages: seq<Snapshot>)
    requires pages != []
    requires var front := pages[..|pages| - 1];
      ScanAgrees(ScanPages(read, front), AllRead(read, front), AllObservations(read, front))
    ensures ScanAgrees(ScanPages(read, pages), AllRead(read, pages), AllObservations(read, pages))
  {
    AllReadNext(read, pages);
    var last := read(pages[|pages| - 1], |pages|);
    if last.Ok? {
      TallyConcat(NOTHING, AllObservations(read, pages[..|pages| - 1]), last.value);
    }
  }

  lemma {:induction false} ScanIff(read: PageReader, pages: seq<Snapshot>)
    ensures ScanAgrees(ScanPages(read, pages), AllRead(read, pages), AllObservations(read, pages))
  {
    if pages != [] {
      ScanIff(read, pages[..|pages| - 1]);
      ScanNext(read, pages);
    }
  }

  /** Observations carry the number of the page they come from. */
  ghost predicate Tagged(read: PageReader) {
    forall page, index: nat :: read(page, index).Ok? ==>
      forall o :: o in read(page, index).value ==> o.page == index
  }

  lemma ReaderIsTagged(p: Parsers)
    ensures Tagged(PageReaderOf(p))
  {
  }

  lemma {:induction false} ObservationsOrdered(read: PageReader, pages: seq<Snapshot>)
    requires Tagged(read) && AllRead(read, pages)
    ensures PagesOrdered(AllObservations(read, pages))
    ensures forall o :: o in AllObservations(read, pages) ==> 1 <= o.page <= |pages|
  {
    if pages != [] {
      var n := |pages| - 1;
      var before, now := AllObservations(read, pages[..n]), read(pages[n], n + 1).value;
      assert forall i :: 0 <= i < n ==> pages[..n][i] == pages[i];
      ObservationsOrdered(read, pages[..n]);
      var all := before + now;
      forall i, j | 0 <= i <= j < |all|
        ensures all[i].page <= all[j].page
      {
        if i < |before| { assert all[i] in before; } else { assert all[i] in now; }
        if j < |before| { assert all[j] in before; } else { assert all[j] in now; }
      }
    }
  }

  // ---------- The queue ----------

  /** Candidates in strictly increasing order of their numbers. */
  ghost predicate StrictlySorted(candidates: seq<Candidate>) {
    forall i, j :: 0 <= i < j < |candidates| ==>
      AtMost(TextKey(candidates[i].sch), TextKey(candidates[j].sch)) && candidates[i].sch != candidates[j].sch
  }

  /** Everything a queue says, in terms of the observations of its pages. */
  ghost predicate QueueHolds(q: Queue, obs: seq<Observation>) {
    && StrictlySorted(q.candidates)
    && (forall c :: c in q.candidates ==> c.sch in Numbers(obs) && Means(c, obs, c.sch))
    && (forall sch :: sch in Numbers(obs) ==> exists c :: c in q.candidates && c.sch == sch)
    && |q.candidates| <= MAX_CANDIDATES
    && q.recordsParsed == |obs|
    && q.unidentified == CountKind(obs, Unidentified) && q.outside == CountKind(obs, Outside)
    && SumBy((c: Candidate) => c.count, q.candidates) + q.unidentified + q.outside == q.recordsParsed
  }

  lemma SortedOrder(t: Tallies, numbers: set<string>)
    requires KeysAre(t, numbers)
    ensures var order := SortedBy(TextKey, t.order);
      && Distinct(order) && (forall sch :: sch in order <==> sch in numbers) && |order| == |t.order|
      && multiset(order) == multiset(t.order)
      && forall i, j :: 0 <= i < j < |order| ==> AtMost(TextKey(order[i]), TextKey(order[j]))
  {
    var order, self := SortedBy(TextKey, t.order), (s: string) => s;
    SortedIsPermutation(TextKey, t.order);
    SortedIsInOrder(TextKey, t.order);
    PermutationKeepsDistinctKeys(self, t.order, order);
    assert forall i, j :: 0 <= i < j < |order| ==> self(order[i]) != self(order[j]);
    forall sch
      ensures sch in order <==> sch in numbers
    {
      assert sch in order <==> sch in multiset(order);
      assert sch in t.order <==> sch in multiset(t.order);
      assert sch in t.order <==> sch in Elements(t.order);
    }
  }

  lemma CandidatesMean(candidates: map<string, Candidate>, order: seq<string>, obs: seq<Observation>)
    requires forall sch :: sch in order ==> sch in candidates
    requires SummariesAre(candidates, obs) && PagesOrdered(obs) && CountiesAgree(obs)
    ensures |Pick(candidates, order)| == |order|
    ensures forall i :: 0 <= i < |order| ==>
      Pick(candidates, order)[i].sch == order[i] && Means(Pick(candidates, order)[i], obs, order[i])
  {
    Picked(candidates, order);
    forall i | 0 <= i < |order|
      ensures Pick(candidates, order)[i].sch == order[i] && Means(Pick(candidates, order)[i], obs, order[i])
    {
      assert order[i] in order;
      SummaryMeans(obs, order[i]);
    }
  }

  /** Candidates listed in the order of their numbers. */
  ghost predicate Follows(cs: seq<Candidate>, order: seq<string>, obs: seq<Observation>) {
    && |cs| == |order|
    && forall i :: 0 <= i < |order| ==> cs[i].sch == order[i] && Means(cs[i], obs, order[i])
  }

  lemma FollowingCandidates(cs: seq<Candidate>, order: seq<string>, obs: seq<Observation>)
    requires Follows(cs, order, obs) && Distinct(order) && forall sch :: sch in order <==> sch in Numbers(obs)
    requires forall i, j :: 0 <= i < j < |order| ==> AtMost(TextKey(order[i]), TextKey(order[j]))
    ensures StrictlySorted(cs)
    ensures forall c :: c in cs ==> c.sch in Numbers(obs) && Means(c, obs, c.sch)
    ensures forall sch :: sch in Numbers(obs) ==> exists c :: c in cs && c.sch == sch
  {
    forall sch | sch in Numbers(obs)
      ensures exists c :: c in cs && c.sch == sch
    {
      var i :| 0 <= i < |order| && order[i] == sch;
      assert cs[i] in cs;
    }
    forall c | c in cs
      ensures c.sch in Numbers(obs) && Means(c, obs, c.sch)
    {
      var i :| 0 <= i < |cs| && cs[i] == c;
      assert order[i] in order;
    }
  }

  lemma QueueCandidatesHold(t: Tallies, obs: seq<Observation>)
    requires KeysAre(t, Numbers(obs)) && SummariesAre(t.candidates, obs) && PagesOrdered(obs) && CountiesAgree(obs)
    ensures var cs := Pick(t.candidates, SortedBy(TextKey, t.order));
      && StrictlySorted(cs) && |cs| == |Numbers(obs)|
      && (forall c :: c in cs ==> c.sch in Numbers(obs) && Means(c, obs, c.sch))
      && (forall sch :: sch in Numbers(obs) ==> exists c :: c in cs && c.sch == sch)
      && SumBy((c: Candidate) => c.count, cs) == SumBy(CountIn(t.candidates), t.order)
  {
    var order := SortedBy(TextKey, t.order);
    SortedOrder(t, Numbers(obs));
    DistinctSize(t.order);
    SumIgnoresOrder(CountIn(t.candidates), order, t.order);
    Picked(t.candidates, order);
    CandidatesMean(t.candidates, order, obs);
    FollowingCandidates(Pick(t.candidates, order), order, obs);
  }

  /** A queue is built exactly when the report is complete, every page reads, the counties of each project
      agree and the projects stay within the limit. */
  lemma QueueSucceedsIff(p: Parsers, listing: Listing, byteLength: nat)
    ensures QueueOf(p, listing, byteLength).Ok? <==>
      && Envelope(listing, byteLength) == None && listing.snapshots.Some?
      && AllRead(PageReaderOf(p), listing.snapshots.value)
      && CountiesAgree(AllObservations(PageReaderOf(p), listing.snapshots.value))
      && |Numbers(AllObservations(PageReaderOf(p), listing.snapshots.value))| <= MAX_CANDIDATES
  {
    if listing.snapshots.Some? {
      ScanIff(PageReaderOf(p), listing.snapshots.value);
      TallyIff(AllObservations(PageReaderOf(p), listing.snapshots.value));
    }
  }

  lemma PagesWithin(cs: seq<Candidate>, obs: seq<Observation>, pages: nat)
    requires forall c :: c in cs ==> Means(c, obs, c.sch)
    requires forall o :: o in obs ==> 1 <= o.page <= pages
    ensures forall c, page :: c in cs && page in c.pages ==> 1 <= page <= pages
  {
    forall c, page | c in cs && page in c.pages
      ensures 1 <= page <= pages
    {
      assert Means(c, obs, c.sch);
      assert page in Elements(c.pages);
      assert page in PagesNaming(obs, c.sch);
    }
  }

  /** Tallies that summarise the observations make a queue that holds. */
  lemma TalliedQueueHolds(t: Tallies, obs: seq<Observation>, pages: nat)
    requires Summarises(t, obs) && Total(t) == |obs| && |Numbers(obs)| <= MAX_CANDIDATES
    requires PagesOrdered(obs) && CountiesAgree(obs)
    ensures QueueHolds(QueueFrom(Scan(t, |obs|), pages), obs)
  {
    QueueCandidatesHold(t, obs);
  }

  /** The observations of read pages: tallied as a whole, in page order, on pages within the report. */
  lemma ReadObservations(p: Parsers, pages: seq<Snapshot>)
    requires ScanPages(PageReaderOf(p), pages).Ok?
    ensures var obs, scan := AllObservations(PageReaderOf(p), pages), ScanPages(PageReaderOf(p), pages).value;
      && TallyAll(NOTHING, obs) == Ok(scan.tallies) && scan.parsed == |obs|
      && PagesOrdered(obs) && forall o :: o in obs ==> 1 <= o.page <= |pages|
  {
    ScanIff(PageReaderOf(p), pages);
    ReaderIsTagged(p);
    ObservationsOrdered(PageReaderOf(p), pages);
  }

  /** A queue that was built: one candidate per project in strict order, each meaning what its observations
      say, on pages within the report's, and every parsed record accounted for. */
  lemma QueueIsSound(p: Parsers, listing: Listing, byteLength: nat)
    requires QueueOf(p, listing, byteLength).Ok?
    ensures var q, obs := QueueOf(p, listing, byteLength).value,
                          AllObservations(PageReaderOf(p), listing.snapshots.value);
      && QueueHolds(q, obs)
      && q.pagesReviewed == |listing.snapshots.value| <= MAX_PAGES
      && (forall c, page :: c in q.candidates && page in c.pages ==> 1 <= page <= q.pagesReviewed)
  {
    var pages := listing.snapshots.value;
    var obs, scan := AllObservations(PageReaderOf(p), pages), ScanPages(PageReaderOf(p), pages).value;
    ReadObservations(p, pages);
    TallyIff(obs);
    TallyCounts(obs);
    assert scan == Scan(scan.tallies, |obs|);
    TalliedQueueHolds(scan.tallies, obs, |pages|);
    PagesWithin(QueueFrom(scan, |pages|).candidates, obs, |pages|);
  }
}
