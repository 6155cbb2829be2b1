/** Identification: what the nets may propose, how agreeing proposals merge, and when a disc is
    filed with nobody looking.  Confidence is counted in hundredths. */
module Identify {
  import opened Text

  datatype Kind = Movie | Series

  datatype Proposal = Proposal(
    net: string, title: string, year: Option<int>, kind: Option<Kind>, season: Option<int>, discNumber: Option<int>,
    confidence: nat, provider: Option<string>, providerId: Option<string>, rejected: bool)

  const AGREEMENT_BONUS := 15
  const CEILING := 95
  const CONTESTED_GAP := 20
  const CONFIRM_AT := 70

  // ---------- the provider net ----------

  /** A search result: its title, year, id and running time in seconds. */
  datatype Match = Match(title: string, year: Option<int>, id: string, runtime: nat)

  /** The disc and the provider agree on the running time within 8 per cent. */
  predicate RuntimeAgrees(feature: nat, runtime: nat) {
    (if feature > runtime then feature - runtime else runtime - feature) * 100 <= 8 * runtime
  }

  function Scored(feature: nat, m: Match): Proposal {
    var known := feature > 0 && m.runtime > 0;
    var agrees := RuntimeAgrees(feature, m.runtime);
    Proposal("provider", m.title, m.year, Some(Movie), None, None,
             if !known then 70 else if agrees then 85 else 40, Some("tmdb"), Some(m.id), known && !agrees)
  }

  /** `p` is result `i` of the leading `n` scored, and scores higher than all before it. */
  ghost predicate IsFirst(feature: nat, results: seq<Match>, n: nat, p: Proposal, i: nat) {
    && i < n <= |results| && p == Scored(feature, results[i])
    && forall k :: 0 <= k < i ==> Scored(feature, results[k]).confidence < p.confidence
  }

  /** The first of the five leading results that scores highest, as max_by keeps it. */
  method Lookup(feature: nat, results: seq<Match>) returns (best: Option<Proposal>)
    ensures best.None? <==> results == []
    ensures best.Some? ==>
      var n := if |results| < 5 then |results| else 5;
      && (exists i :: IsFirst(feature, results, n, best.value, i))
      && (forall i :: 0 <= i < n ==> Scored(feature, results[i]).confidence <= best.value.confidence)
      && (best.value.rejected ==> forall i :: 0 <= i < n ==> Scored(feature, results[i]).rejected)
  {
    best := None;
    ghost var at := 0;
    var n := if |results| < 5 then |results| else 5;
    for i := 0 to n
      invariant best.None? <==> i == 0
      invariant best.Some? ==> IsFirst(feature, results, i, best.value, at)
      invariant best.Some? ==> forall k :: 0 <= k < i ==>
          Scored(feature, results[k]).confidence <= best.value.confidence
    {
      var p := Scored(feature, results[i]);
      if best.None? || p.confidence > best.value.confidence {
        best := Some(p);
        at := i;
      }
    }
  }

  /** What a match is worth: 85 if both running times are known and agree within 8 per cent of the
      provider's, 40 and a rejection if they are known and do not, and 70 otherwise; and it is what
      the provider said it is. */
  lemma ScoredIs(feature: nat, m: Match)
    ensures var p, off := Scored(feature, m), (feature as real) - (m.runtime as real);
      && (if feature == 0 || m.runtime == 0 then p.confidence == 70 && !p.rejected
          else if -0.08 * (m.runtime as real) <= off <= 0.08 * (m.runtime as real)
          then p.confidence == 85 && !p.rejected
          else p.confidence == 40 && p.rejected)
      && p.net == "provider" && p.title == m.title && p.year == m.year && p.kind == Some(Movie)
      && p.season.None? && p.discNumber.None? && p.provider == Some("tmdb") && p.providerId == Some(m.id)
  {
    AgreesIff(feature, m.runtime);
  }

  lemma AgreesIff(feature: nat, runtime: nat)
    ensures var off := (feature as real) - (runtime as real);
      RuntimeAgrees(feature, runtime) <==> -0.08 * (runtime as real) <= off <= 0.08 * (runtime as real)
  {
    var f, r := feature as real, runtime as real;
    if feature > runtime {
      var d := feature - runtime;
      assert d as real == f - r;
      assert (d * 100) as real == 100.0 * (f - r) && (8 * runtime) as real == 8.0 * r;
    } else {
      var d := runtime - feature;
      assert d as real == r - f;
      assert (d * 100) as real == 100.0 * (r - f) && (8 * runtime) as real == 8.0 * r;
    }
  }

  // ---------- merging ----------

  function Or<T>(a: Option<T>, b: Option<T>): Option<T> { if a.Some? then a else b }

  /** Details the leader lacks are taken from `p`. */
  function Fill(best: Proposal, p: Proposal): Proposal {
    best.(year := Or(best.year, p.year), season := Or(best.season, p.season),
          discNumber := Or(best.discNumber, p.discNumber), kind := Or(best.kind, p.kind),
          provider := Or(best.provider, p.provider), providerId := Or(best.providerId, p.providerId))
  }

  function FillAll(best: Proposal, ps: seq<Proposal>): Proposal
    decreases |ps|
  {
    if ps == [] then best else FillAll(Fill(best, ps[0]), ps[1..])
  }

  function Standing(ps: seq<Proposal>): seq<Proposal> {
    if ps == [] then []
    else if ps[0].rejected then Standing(ps[1..]) else [ps[0]] + Standing(ps[1..])
  }

  function Nets(ps: seq<Proposal>): set<string> {
    set p | p in ps :: p.net
  }

  function Min(a: nat, b: nat): nat { if a < b then a else b }

  function Raised(confidence: nat, nets: nat): nat {
    if nets > 1 then Min(confidence + AGREEMENT_BONUS * (nets - 1), CEILING) else confidence
  }

  /** A group of proposals for one title, most confident first, becomes its leader with the
      agreement of the nets that stand behind it. */
  function Merge(group: seq<Proposal>): Proposal
    requires group != []
  {
    if |group| == 1 then group[0]
    else
      FillAll(group[0].(confidence := Raised(group[0].confidence, |Nets(Standing(group))|)), Standing(group[1..]))
  }

  method MergeGroup(group: seq<Proposal>) returns (best: Proposal)
    requires group != []
    ensures best == Merge(group)
  {
    best := group[0];
    if |group| == 1 {
      return;
    }
    var corroborating, others := Standing(group), Standing(group[1..]);
    var nets := Nets(corroborating);
    if |nets| > 1 {
      best := best.(confidence := Min(best.confidence + AGREEMENT_BONUS * (|nets| - 1), CEILING));
    }
    ghost var raised := best;
    assert others[0..] == others;
    for i := 0 to |others|
      invariant FillAll(best, others[i..]) == FillAll(raised, others)
    {
      assert others[i..][0] == others[i] && others[i..][1..] == others[i + 1..];
      best := Fill(best, others[i]);
    }
  }

  lemma {:induction false} StandingMembers(ps: seq<Proposal>)
    ensures forall p :: p in Standing(ps) <==> p in ps && !p.rejected
  {
    if ps != [] {
      StandingMembers(ps[1..]);
      assert ps == [ps[0]] + ps[1..];
    }
  }

  lemma {:induction false} StandingTwice(ps: seq<Proposal>)
    ensures Standing(Standing(ps)) == Standing(ps)
  {
    if ps != [] {
      StandingTwice(ps[1..]);
    }
  }

  /** A rejected proposal adds no confidence and no field to anyone else's: leaving every
      rejected follower out of a group changes nothing in the merged proposal. */
  lemma RejectedAddsNothing(group: seq<Proposal>)
    requires group != []
    ensures Merge(group) == Merge([group[0]] + Standing(group[1..]))
  {
    var slim := [group[0]] + Standing(group[1..]);
    StandingTwice(group[1..]);
    assert slim[1..] == Standing(group[1..]);
    assert Standing(slim) == Standing(group);
    if |group| > 1 && |slim| == 1 {
      StandingMembers(group);
      var nets := Nets(Standing(group));
      assert Standing(group) == if group[0].rejected then [] else [group[0]];
      assert nets <= {group[0].net};
      SmallSet(nets, group[0].net);
    }
  }

  lemma SmallSet(s: set<string>, x: string)
    requires s <= {x}
    ensures |s| <= 1
  {
    if x in s {
      assert s == {x};
    } else {
      assert s == {};
    }
  }

  lemma {:induction false} FilledFrom(best: Proposal, ps: seq<Proposal>)
    ensures var r := FillAll(best, ps);
      && r.confidence == best.confidence && r.title == best.title && r.net == best.net && r.rejected == best.rejected
      && (r.providerId == best.providerId || exists p :: p in ps && r.providerId == p.providerId)
    decreases |ps|
  {
    if ps != [] {
      FilledFrom(Fill(best, ps[0]), ps[1..]);
      var r := FillAll(best, ps);
      if r.providerId != best.providerId && best.providerId.None? && r.providerId == Fill(best, ps[0]).providerId {
        assert ps[0] in ps;
      }
    }
  }

  /** `got` is the leader's own value, or, if it has none, that of the first of `ps` with one. */
  ghost predicate FirstOf<T(!new)>(own: Option<T>, ps: seq<Proposal>, field: Proposal -> Option<T>, got: Option<T>) {
    if own.Some? then got == own
    else
      || (got.None? && forall i :: 0 <= i < |ps| ==> field(ps[i]).None?)
      || (got.Some?
          && exists i :: 0 <= i < |ps| && field(ps[i]) == got && forall j :: 0 <= j < i ==> field(ps[j]).None?)
  }

  lemma FirstOfStep<T(!new)>(own: Option<T>, ps: seq<Proposal>, field: Proposal -> Option<T>, got: Option<T>)
    requires ps != [] && FirstOf(Or(own, field(ps[0])), ps[1..], field, got)
    ensures FirstOf(own, ps, field, got)
  {
    var rest := ps[1..];
    if own.None? && field(ps[0]).None? && got.Some? {
      var i :| 0 <= i < |rest| && field(rest[i]) == got && forall j :: 0 <= j < i ==> field(rest[j]).None?;
      assert field(ps[i + 1]) == got;
      assert forall j :: 0 < j < i + 1 ==> ps[j] == rest[j - 1];
    } else if own.None? && field(ps[0]).None? {
      assert forall i :: 0 < i < |ps| ==> ps[i] == rest[i - 1];
    }
  }

  function YearOf(p: Proposal): Option<int> { p.year }
  function SeasonOf(p: Proposal): Option<int> { p.season }
  function DiscNumberOf(p: Proposal): Option<int> { p.discNumber }
  function KindOf(p: Proposal): Option<Kind> { p.kind }
  function ProviderOf(p: Proposal): Option<string> { p.provider }
  function IdOf(p: Proposal): Option<string> { p.providerId }

  /** `r` has `best`'s details, and for each it lacks the first of `ps` that has it. */
  ghost predicate DetailsFrom(best: Proposal, ps: seq<Proposal>, r: Proposal) {
    && FirstOf(best.year, ps, YearOf, r.year) && FirstOf(best.season, ps, SeasonOf, r.season)
    && FirstOf(best.discNumber, ps, DiscNumberOf, r.discNumber) && FirstOf(best.kind, ps, KindOf, r.kind)
    && FirstOf(best.provider, ps, ProviderOf, r.provider) && FirstOf(best.providerId, ps, IdOf, r.providerId)
  }

  lemma {:induction false} FilledDetails(best: Proposal, ps: seq<Proposal>)
    ensures DetailsFrom(best, ps, FillAll(best, ps))
    decreases |ps|
  {
    if ps != [] {
      var r := FillAll(best, ps);
      FilledDetails(Fill(best, ps[0]), ps[1..]);
      FirstOfStep(best.year, ps, YearOf, r.year);
      FirstOfStep(best.season, ps, SeasonOf, r.season);
      FirstOfStep(best.discNumber, ps, DiscNumberOf, r.discNumber);
      FirstOfStep(best.kind, ps, KindOf, r.kind);
      FirstOfStep(best.provider, ps, ProviderOf, r.provider);
      FirstOfStep(best.providerId, ps, IdOf, r.providerId);
    }
  }

  /** `m` is `lead` with what `nets` nets standing behind it and the followers `ps` add: its title,
      its net and its rejection; 15 hundredths for each further net, up to 95; and for each detail
      it lacks that of the first follower that has it. */
  ghost predicate MergedFrom(lead: Proposal, nets: nat, ps: seq<Proposal>, m: Proposal) {
    && m.title == lead.title && m.net == lead.net && m.rejected == lead.rejected
    && m.confidence == (if nets > 1 then Min(95, lead.confidence + 15 * (nets - 1)) else lead.confidence)
    && DetailsFrom(lead, ps, m)
  }

  lemma RaisedDetails(lead: Proposal, nets: nat, ps: seq<Proposal>)
    ensures MergedFrom(lead, nets, ps, FillAll(lead.(confidence := Raised(lead.confidence, nets)), ps))
  {
    var raised := lead.(confidence := Raised(lead.confidence, nets));
    FilledDetails(raised, ps);
    FilledFrom(raised, ps);
  }

  /** A merged group is its leader, raised by the nets that stand behind it and filled in from the
      standing followers, most confident first. */
  lemma MergeIs(group: seq<Proposal>)
    requires group != []
    ensures MergedFrom(group[0], |Nets(Standing(group))|, Standing(group[1..]), Merge(group))
  {
    var nets, others := |Nets(Standing(group))|, Standing(group[1..]);
    RaisedDetails(group[0], nets, others);
    if |group| == 1 {
      OneStands(group);
      var same := group[0].(confidence := Raised(group[0].confidence, nets));
      assert same == group[0] && FillAll(same, []) == same;
    }
  }

  lemma OneStands(group: seq<Proposal>)
    requires |group| == 1
    ensures Standing(group[1..]) == [] && |Nets(Standing(group))| <= 1
  {
    StandingMembers(group);
    assert Nets(Standing(group)) <= {group[0].net};
    SmallSet(Nets(Standing(group)), group[0].net);
  }

  // ---------- what the nets can say ----------

  /** The confidences, names and fields the existing nets emit. */
  predicate Producible(p: Proposal) {
    || (p.net == "label" && p.title != "" && p.confidence <= 65 && !p.rejected && p.providerId.None?)
    || (p.net == "discname" && p.title != "" && p.confidence == 80 && !p.rejected && p.providerId.None?)
    || (p.net == "shape" && p.title == "" && p.confidence == 45 && p.kind.Some? && !p.rejected && p.providerId.None?)
    || (p.net == "provider" && p.title != "" && p.providerId.Some?
        && (if p.rejected then p.confidence == 40 else p.confidence == 70 || p.confidence == 85))
  }

  lemma ScoredIsProducible(feature: nat, m: Match)
    requires m.title != ""
    ensures Producible(Scored(feature, m))
    ensures Scored(feature, m).rejected <==> feature > 0 && m.runtime > 0 && !RuntimeAgrees(feature, m.runtime)
  {
  }

  // ---------- resolving ----------

  ghost predicate Sorted(ps: seq<Proposal>) {
    forall i, j :: 0 <= i < j < |ps| ==> ps[i].confidence >= ps[j].confidence
  }

  predicate NoneEmpty(groups: seq<seq<Proposal>>) {
    forall i :: 0 <= i < |groups| ==> groups[i] != []
  }

  function MergeAll(groups: seq<seq<Proposal>>): seq<Proposal>
    requires NoneEmpty(groups)
  {
    if groups == [] then [] else [Merge(groups[0])] + MergeAll(groups[1..])
  }

  /** `groups` is one way the resolver may lay out the titled proposals of `ps`: grouped by
      normalised title, each group and then the merged groups sorted by confidence, ties in
      any order. */
  ghost predicate Layout(ps: seq<Proposal>, norm: string -> string, groups: seq<seq<Proposal>>) {
    && NoneEmpty(groups)
    && (forall i :: 0 <= i < |groups| ==> Sorted(groups[i]))
    && (forall i, p :: 0 <= i < |groups| && p in groups[i] ==>
          p in ps && p.title != "" && norm(p.title) == norm(groups[i][0].title))
    && (forall p :: p in ps && p.title != "" ==> exists i :: 0 <= i < |groups| && p in groups[i])
    && (forall i, j :: 0 <= i < j < |groups| ==> norm(groups[i][0].title) != norm(groups[j][0].title))
    && Sorted(MergeAll(groups))
  }

  datatype Result = Result(best: Option<Proposal>, contested: bool)

  /** The shape net's kind informs the winner instead of competing with it. */
  function Resolve(groups: seq<seq<Proposal>>, kindOnly: seq<Proposal>): Result
    requires NoneEmpty(groups)
  {
    var merged := MergeAll(groups);
    if merged == [] then Result(if kindOnly == [] then None else Some(kindOnly[0]),
                                |kindOnly| > 1 && Close(kindOnly[0], kindOnly[1]))
    else
      var best := merged[0];
      Result(Some(best.(kind := Or(best.kind, if kindOnly == [] then None else kindOnly[0].kind))),
             |merged| > 1 && Close(merged[0], merged[1]))
  }

  predicate Close(a: Proposal, b: Proposal) { a.confidence - b.confidence < CONTESTED_GAP }

  datatype Status = Rough | NeedsReview | Confirmed | Filed

  function Decide(r: Result, current: Status): Status {
    if current != Rough then current
    else if r.best.None? || r.contested then NeedsReview
    else
      var best := r.best.value;
      if best.confidence < CONFIRM_AT then NeedsReview
      else if best.kind == Some(Series) then NeedsReview
      else if best.providerId.None? || best.providerId.value == "" then NeedsReview
      else if best.kind.None? then NeedsReview
      else Confirmed
  }

  lemma {:induction false} MergeAllAt(groups: seq<seq<Proposal>>)
    requires NoneEmpty(groups)
    ensures |MergeAll(groups)| == |groups|
    ensures forall i :: 0 <= i < |groups| ==> MergeAll(groups)[i] == Merge(groups[i])
  {
    if groups != [] {
      MergeAllAt(groups[1..]);
    }
  }

  /** A group led by a rejected match never reaches the confidence that confirms: nothing the
      nets say at or below a rejected match's confidence comes from two of them. */
  lemma RejectedLeaderStaysLow(group: seq<Proposal>)
    requires group != [] && Sorted(group) && group[0].rejected
    requires forall p :: p in group ==> Producible(p) && p.title != ""
    ensures Merge(group).confidence == group[0].confidence == 40
  {
    var standing := Standing(group);
    StandingMembers(group);
    assert group[0] in group;
    forall p | p in standing ensures p.net == "label" {
      var i :| 0 <= i < |group| && group[i] == p;
      assert i > 0 ==> group[0].confidence >= group[i].confidence;
    }
    assert Nets(standing) <= {"label"};
    SmallSet(Nets(standing), "label");
    FilledFrom(group[0].(confidence := Raised(group[0].confidence, |Nets(standing)|)), Standing(group[1..]));
  }

  /** A merged provider id was brought by a standing member of the group. */
  lemma IdComesFromStanding(group: seq<Proposal>)
    requires group != [] && !group[0].rejected && Merge(group).providerId.Some?
    requires forall p :: p in group ==> Producible(p)
    ensures Merge(group).title == group[0].title
    ensures exists p :: p in group && !p.rejected && p.net == "provider" && p.providerId == Merge(group).providerId
  {
    var rest, best := Standing(group[1..]), Merge(group);
    StandingMembers(group[1..]);
    FilledFrom(group[0].(confidence := Raised(group[0].confidence, |Nets(Standing(group))|)), rest);
    assert group[0] in group;
    if best.providerId != group[0].providerId {
      var p :| p in rest && best.providerId == p.providerId;
      assert p in group[1..];
      assert p in group;
    }
  }

  lemma ConfirmedLeads(groups: seq<seq<Proposal>>, kindOnly: seq<Proposal>)
    requires NoneEmpty(groups) && forall i :: 0 <= i < |kindOnly| ==> Producible(kindOnly[i]) && kindOnly[i].title == ""
    requires Decide(Resolve(groups, kindOnly), Rough) == Confirmed
    ensures groups != []
    ensures var best, m := Resolve(groups, kindOnly).best.value, Merge(groups[0]);
      && best.confidence == m.confidence >= CONFIRM_AT && best.title == m.title
      && best.providerId == m.providerId && m.providerId.Some? && best.kind == Some(Movie)
  {
    if groups != [] {
      MergeAllAt(groups);
      var kind := Resolve(groups, kindOnly).best.value.kind;
      match kind.value
      case Movie =>
      case Series =>
    }
  }

  /** The runner-up is close exactly when some other title is. */
  lemma ContestedIff(groups: seq<seq<Proposal>>, kindOnly: seq<Proposal>)
    requires groups != [] && NoneEmpty(groups) && Sorted(MergeAll(groups))
    ensures !Resolve(groups, kindOnly).contested <==>
      forall i :: 0 < i < |groups| ==> Merge(groups[i]).confidence + 20 <= Merge(groups[0]).confidence
  {
    var merged := MergeAll(groups);
    MergeAllAt(groups);
    assert forall i :: 1 < i < |groups| ==> merged[1].confidence >= merged[i].confidence;
    if |groups| > 1 {
      assert merged[1] == Merge(groups[1]);
    }
  }

  /** The leading title is a film, by its own kind or, failing that, by the disc's shape. */
  predicate IsFilm(lead: Proposal, kindOnly: seq<Proposal>) {
    lead.kind == Some(Movie) || (lead.kind.None? && kindOnly != [] && kindOnly[0].kind == Some(Movie))
  }

  lemma LeadIs(groups: seq<seq<Proposal>>, kindOnly: seq<Proposal>)
    requires groups != [] && NoneEmpty(groups)
    ensures var r, lead := Resolve(groups, kindOnly), Merge(groups[0]);
      && r.best.Some? && r.best.value.confidence == lead.confidence && r.best.value.providerId == lead.providerId
      && (r.best.value.kind == Some(Movie) <==> IsFilm(lead, kindOnly))
  {
    MergeAllAt(groups);
  }

  /** When a rough disc is confirmed with nobody looking, exactly: the leading title has 70 or more,
      every other title at least 20 less, it is a film, and it has a provider id.  Any other rough
      disc goes to review, and a disc that is not rough stays what it is. */
  lemma ConfirmedIff(ps: seq<Proposal>, norm: string -> string, groups: seq<seq<Proposal>>, kindOnly: seq<Proposal>,
      current: Status)
    requires Layout(ps, norm, groups) && forall p :: p in kindOnly ==> Producible(p) && p.title == ""
    ensures var status := Decide(Resolve(groups, kindOnly), current);
      if current != Rough then status == current
      else if groups == [] then status == NeedsReview
      else
        var lead := Merge(groups[0]);
        status == if
          && lead.confidence >= 70
          && (forall i :: 0 < i < |groups| ==> Merge(groups[i]).confidence + 20 <= lead.confidence)
          && IsFilm(lead, kindOnly) && lead.providerId.Some? && lead.providerId.value != ""
        then Confirmed else NeedsReview
  {
    if groups == [] {
      assert kindOnly != [] ==> kindOnly[0] in kindOnly;
    } else {
      ContestedIff(groups, kindOnly);
      LeadIs(groups, kindOnly);
      KindCases(Resolve(groups, kindOnly).best.value.kind);
    }
  }

  lemma KindCases(k: Option<Kind>)
    ensures k.None? || k == Some(Movie) || k == Some(Series)
  {
    if k.Some? {
      match k.value
      case Movie =>
      case Series =>
    }
  }

  /** Whatever the nets proposed and however ties fell: a rough disc is confirmed on its own
      only as a film, and only under a provider id that a match for a title of the same normal
      form brought and that its running time did not reject. */
  lemma AutoConfirmIsTrustworthy(ps: seq<Proposal>, norm: string -> string, groups: seq<seq<Proposal>>,
      kindOnly: seq<Proposal>)
    requires forall p :: p in ps ==> Producible(p)
    requires Layout(ps, norm, groups)
    requires forall p :: p in kindOnly ==> p in ps && p.title == ""
    requires Decide(Resolve(groups, kindOnly), Rough) == Confirmed
    ensures var best := Resolve(groups, kindOnly).best.value;
      && best.kind == Some(Movie) && best.confidence >= CONFIRM_AT && best.providerId.Some?
      && exists p :: p in ps && !p.rejected && p.net == "provider" && norm(p.title) == norm(best.title)
           && p.providerId == best.providerId
  {
    ConfirmedLeads(groups, kindOnly);
    var g := groups[0];
    if g[0].rejected {
      RejectedLeaderStaysLow(g);
    }
    IdComesFromStanding(g);
    var p :| p in g && !p.rejected && p.net == "provider" && p.providerId == Merge(g).providerId;
    assert p in groups[0];
  }

  function FromLabel(title: string): Proposal {
    Proposal("label", title, None, None, None, None, 50, None, None, false)
  }

  /** And it does happen: a provider match whose running time agrees, and a label that says the
      same title, are laid out as one group and confirm a film between them. */
  lemma AgreementConfirms(hit: Match, feature: nat, title: string, norm: string -> string)
    returns (groups: seq<seq<Proposal>>)
    requires feature > 0 && hit.runtime > 0 && RuntimeAgrees(feature, hit.runtime) && hit.id != ""
    requires title != "" && hit.title != "" && norm(title) == norm(hit.title)
    ensures Layout([FromLabel(title), Scored(feature, hit)], norm, groups)
    ensures var r := Resolve(groups, []);
      && Decide(r, Rough) == Confirmed && r.best.value.confidence == CEILING
      && r.best.value.title == hit.title && r.best.value.providerId == Some(hit.id)
  {
    var film, named := Scored(feature, hit), FromLabel(title);
    var group := [film, named];
    groups := [group];
    AgreementMerges(film, named);
    assert [group][1..] == [];
    assert MergeAll([group]) == [Merge(group)] + [];
    OneGroup(film, named, norm);
  }

  lemma AgreementMerges(film: Proposal, named: Proposal)
    requires film.net == "provider" && film.confidence == 85 && !film.rejected && film.kind == Some(Movie)
    requires named.net == "label" && named.confidence == 50 && !named.rejected && film.providerId.Some?
    ensures var m := Merge([film, named]);
      m.confidence == CEILING && m.title == film.title && m.providerId == film.providerId && m.kind == Some(Movie)
  {
    var group := [film, named];
    assert group[0] == film && group[1..] == [named] && [named][1..] == [];
    assert Standing([named]) == [named] + Standing([]);
    assert Standing(group) == [film] + Standing([named]);
    assert Standing(group) == group && Standing([named]) == [named];
    assert group[0] in group && group[1] in group;
    assert Nets(group) == {"provider", "label"};
    assert Raised(film.confidence, |Nets(group)|) == CEILING;
    var raised := film.(confidence := CEILING);
    assert Merge(group) == FillAll(raised, [named]);
    assert FillAll(raised, [named]) == FillAll(Fill(raised, named), []);
  }

  lemma OneGroup(film: Proposal, named: Proposal, norm: string -> string)
    requires film.title != "" && named.title != "" && norm(film.title) == norm(named.title)
    requires film.confidence >= named.confidence
    ensures Layout([named, film], norm, [[film, named]])
  {
    var ps, groups := [named, film], [[film, named]];
    forall p | p in ps ensures exists i :: 0 <= i < |groups| && p in groups[i] {
      assert p in groups[0];
    }
    assert MergeAll(groups) == [Merge(groups[0])] + MergeAll(groups[1..]) && groups[1..] == [];
  }

  // ---------- when two titles are one ----------

  predicate Alnum(c: char) { 'a' <= c <= 'z' || '0' <= c <= '9' }

  /** Lower case as far as ASCII letters come of it: the Kelvin sign and the dotted capital I
      are the two other characters that yield one. */
  function Lower(c: char): string {
    if 'A' <= c <= 'Z' then [((c as int) + 32) as char]
    else if c == '\U{212A}' then "k"
    else if c == '\U{0130}' then "i\U{0307}"
    else [c]
  }

  function Downcase(s: string): string { if s == "" then "" else Lower(s[0]) + Downcase(s[1..]) }

  /** Every run of other characters becomes one space; `inRun` says that one has begun. */
  function Spaced(s: string, inRun: bool): string {
    if s == "" then ""
    else if Alnum(s[0]) then [s[0]] + Spaced(s[1..], false)
    else if inRun then Spaced(s[1..], true)
    else " " + Spaced(s[1..], true)
  }

  function LeftTrimmed(s: string): string { if s != "" && s[0] == ' ' then LeftTrimmed(s[1..]) else s }

  function RightTrimmed(s: string): string {
    if s != "" && s[|s| - 1] == ' ' then RightTrimmed(s[..|s| - 1]) else s
  }

  function Normalised(title: string): string { RightTrimmed(LeftTrimmed(Spaced(Downcase(title), false))) }

  /** The words of a text, `cur` being the one already begun. */
  function Split(s: string, cur: string): seq<string> {
    if s == "" then (if cur == "" then [] else [cur])
    else if Alnum(s[0]) then Split(s[1..], cur + [s[0]])
    else if cur == "" then Split(s[1..], "")
    else [cur] + Split(s[1..], "")
  }

  /** The runs of ASCII letters and digits in a title, in lower case. */
  function Words(title: string): seq<string> { Split(Downcase(title), "") }

  function Joined(ws: seq<string>): string {
    if ws == [] then "" else if |ws| == 1 then ws[0] else ws[0] + " " + Joined(ws[1..])
  }

  ghost predicate AllWords(ws: seq<string>) { forall w :: w in ws ==> w != "" && ' ' !in w }

  lemma {:induction false} LeftTrimmedSpaced(s: string)
    ensures LeftTrimmed(Spaced(s, false)) == Spaced(s, true)
  {
    if s != "" && !Alnum(s[0]) {
      SpacedStarts(s[1..]);
      assert (" " + Spaced(s[1..], true))[1..] == Spaced(s[1..], true);
    }
  }

  lemma {:induction false} SpacedStarts(s: string)
    ensures Spaced(s, true) != "" ==> Alnum(Spaced(s, true)[0])
  {
    if s != "" && !Alnum(s[0]) {
      SpacedStarts(s[1..]);
    }
  }

  lemma {:induction false} RightTrimmedAppend(a: string, b: string)
    requires RightTrimmed(b) != "" || (a != "" && a[|a| - 1] != ' ')
    ensures RightTrimmed(a + b) == a + RightTrimmed(b)
    decreases |b|
  {
    if b == "" {
      assert a + b == a;
    } else if b[|b| - 1] == ' ' {
      assert (a + b)[..|a + b| - 1] == a + b[..|b| - 1];
      RightTrimmedAppend(a, b[..|b| - 1]);
    }
  }

  /** Trimmed and spaced text is its words with single spaces between them. */
  lemma {:induction false} SpacedIsJoined(s: string)
    ensures RightTrimmed(Spaced(s, true)) == Joined(Split(s, ""))
    decreases |s|, 0
  {
    if s != "" {
      if Alnum(s[0]) {
        WordThenSpaced(s[1..], [s[0]]);
        assert "" + [s[0]] == [s[0]];
      } else {
        SpacedIsJoined(s[1..]);
      }
    }
  }

  lemma {:induction false} WordThenSpaced(s: string, cur: string)
    requires cur != "" && cur[|cur| - 1] != ' '
    ensures RightTrimmed(cur + Spaced(s, false)) == Joined(Split(s, cur)) && Split(s, cur) != []
    decreases |s|, 1
  {
    if s == "" {
      assert cur + "" == cur;
    } else if Alnum(s[0]) {
      WordThenSpaced(s[1..], cur + [s[0]]);
      assert cur + ([s[0]] + Spaced(s[1..], false)) == (cur + [s[0]]) + Spaced(s[1..], false);
    } else {
      var rest := Spaced(s[1..], true);
      SpacedIsJoined(s[1..]);
      SplitWords(s[1..], "");
      SpaceBetween(cur, rest, Split(s[1..], ""));
    }
  }

  lemma SpaceBetween(cur: string, rest: string, ws: seq<string>)
    requires cur != "" && cur[|cur| - 1] != ' ' && RightTrimmed(rest) == Joined(ws) && AllWords(ws)
    ensures RightTrimmed(cur + (" " + rest)) == Joined([cur] + ws)
  {
    JoinedNonempty(ws);
    assert ([cur] + ws)[1..] == ws;
    if ws == [] {
      assert cur + (" " + rest) == cur + " " + rest;
      RightTrimmedOnly(" ", rest);
      RightTrimmedAppend(cur, " " + rest);
    } else {
      RightTrimmedAppend(cur + " ", rest);
      assert cur + (" " + rest) == (cur + " ") + rest;
    }
  }

  lemma {:induction false} RightTrimmedOnly(a: string, b: string)
    requires RightTrimmed(a) == "" && RightTrimmed(b) == ""
    ensures RightTrimmed(a + b) == ""
    decreases |b|
  {
    if b == "" {
      assert a + b == a;
    } else {
      assert (a + b)[..|a + b| - 1] == a + b[..|b| - 1];
      RightTrimmedOnly(a, b[..|b| - 1]);
    }
  }

  lemma {:induction false} SplitWords(s: string, cur: string)
    requires ' ' !in cur
    ensures AllWords(Split(s, cur))
    decreases |s|
  {
    if s != "" {
      if Alnum(s[0]) {
        SplitWords(s[1..], cur + [s[0]]);
      } else {
        SplitWords(s[1..], "");
      }
    }
  }

  lemma JoinedNonempty(ws: seq<string>)
    requires AllWords(ws)
    ensures Joined(ws) == "" <==> ws == []
  {
    if ws != [] {
      assert ws[0] in ws;
    }
  }

  lemma {:induction false} JoinedInjective(a: seq<string>, b: seq<string>)
    requires AllWords(a) && AllWords(b) && Joined(a) == Joined(b)
    ensures a == b
    decreases |a|
  {
    JoinedNonempty(a);
    JoinedNonempty(b);
    if a != [] && b != [] {
      FirstWord(a);
      FirstWord(b);
      assert a[0] == b[0];
      if |a| > 1 {
        assert Joined(a)[|a[0]| + 1..] == Joined(a[1..]) && Joined(b)[|b[0]| + 1..] == Joined(b[1..]);
        JoinedInjective(a[1..], b[1..]);
      }
      assert a == [a[0]] + a[1..] && b == [b[0]] + b[1..];
    }
  }

  lemma FirstWord(ws: seq<string>)
    requires ws != [] && AllWords(ws)
    ensures Before(Joined(ws), ' ') == ws[0] && (|ws| == 1 <==> ' ' !in Joined(ws))
  {
    assert ws[0] in ws;
    if |ws| == 1 {
      BeforeIsPrefix(ws[0], ' ');
    } else {
      BeforeSeparator(ws[0], ' ', Joined(ws[1..]));
      assert Joined(ws)[|ws[0]|] == ' ';
    }
  }

  /** Two titles are taken for one if and only if they have the same words, in order: only ASCII
      letters and digits count. */
  lemma SameTitleIff(a: string, b: string)
    ensures Normalised(a) == Normalised(b) <==> Words(a) == Words(b)
  {
    LeftTrimmedSpaced(Downcase(a));
    LeftTrimmedSpaced(Downcase(b));
    SpacedIsJoined(Downcase(a));
    SpacedIsJoined(Downcase(b));
    SplitWords(Downcase(a), "");
    SplitWords(Downcase(b), "");
    if Normalised(a) == Normalised(b) {
      JoinedInjective(Words(a), Words(b));
    }
  }

  /** Two titles differ in the case of ASCII letters at most. */
  ghost predicate SameButForCase(a: string, b: string) {
    |a| == |b| && forall i :: 0 <= i < |a| ==>
      a[i] == b[i] || ('A' <= a[i] <= 'Z' && b[i] as int == a[i] as int + 32)
      || ('A' <= b[i] <= 'Z' && a[i] as int == b[i] as int + 32)
  }

  lemma {:induction false} CaseDoesNotCount(a: string, b: string)
    requires SameButForCase(a, b)
    ensures Downcase(a) == Downcase(b) && Normalised(a) == Normalised(b)
  {
    if a != "" {
      CaseDoesNotCount(a[1..], b[1..]);
    }
  }

  /** The two letters outside ASCII that have one in lower case. */
  lemma TwoMoreLetters()
    ensures Words("\U{212A}") == ["k"] && Words("\U{0130}") == ["i"]
  {
    var kelvin, dotted := "\U{212A}", "\U{0130}";
    assert kelvin[1..] == "" && dotted[1..] == "";
    assert Downcase(kelvin) == "k" && Downcase(dotted) == "i\U{0307}";
    assert "k"[1..] == "" && "i\U{0307}"[1..] == "\U{0307}" && "\U{0307}"[1..] == "";
    assert "" + ['k'] == "k" && "" + ['i'] == "i";
    assert Split("k", "") == Split("", "k") && Split("i\U{0307}", "") == Split("\U{0307}", "i");
    assert ["i"] + Split("", "") == ["i"];
  }

  /** Lower-case ASCII letters and digits, in words with single spaces between them. */
  ghost predicate IsNormal(s: string) {
    && (forall i :: 0 <= i < |s| ==> 'a' <= s[i] <= 'z' || '0' <= s[i] <= '9' || s[i] == ' ')
    && (forall i :: 0 <= i < |s| && s[i] == ' ' ==> 0 < i < |s| - 1 && s[i - 1] != ' ' && s[i + 1] != ' ')
  }

  lemma {:induction false} DowncaseStays(s: string)
    requires forall i :: 0 <= i < |s| ==> 'a' <= s[i] <= 'z' || '0' <= s[i] <= '9' || s[i] == ' '
    ensures Downcase(s) == s
  {
    if s != "" {
      DowncaseStays(s[1..]);
    }
  }

  lemma {:induction false} SpacedStays(s: string, inRun: bool)
    requires forall i :: 0 <= i < |s| ==> Alnum(s[i]) || s[i] == ' '
    requires forall i :: 0 < i < |s| && s[i] == ' ' ==> s[i - 1] != ' '
    requires inRun && s != "" ==> s[0] != ' '
    ensures Spaced(s, inRun) == s
    decreases |s|
  {
    if s != "" {
      SpacedStays(s[1..], s[0] == ' ');
    }
  }

  lemma NormalStays(s: string)
    requires IsNormal(s)
    ensures Normalised(s) == s
  {
    DowncaseStays(s);
    SpacedStays(s, false);
  }

  lemma {:induction false} JoinedIsNormal(ws: seq<string>)
    requires forall w :: w in ws ==> w != "" && forall i :: 0 <= i < |w| ==> Alnum(w[i])
    ensures IsNormal(Joined(ws))
  {
    if ws != [] {
      assert ws[0] in ws;
      if |ws| > 1 {
        JoinedIsNormal(ws[1..]);
        var w, rest := ws[0], Joined(ws[1..]);
        assert ws[1] in ws && rest != "" && rest[0] != ' ' by {
          assert ws[1..][0] == ws[1];
        }
        assert w + " " + rest == Joined(ws);
      }
    }
  }

  lemma {:induction false} SplitAlnum(s: string, cur: string)
    requires forall i :: 0 <= i < |cur| ==> Alnum(cur[i])
    ensures forall w :: w in Split(s, cur) ==> w != "" && forall i :: 0 <= i < |w| ==> Alnum(w[i])
    decreases |s|
  {
    if s != "" {
      SplitAlnum(s[1..], if Alnum(s[0]) then cur + [s[0]] else "");
    }
  }

  /** A normal form is words of lower-case ASCII letters and digits with single spaces between
      them, and a title of that kind is its own. */
  lemma NormalisedIff(s: string)
    ensures IsNormal(Normalised(s))
    ensures Normalised(s) == s <==> IsNormal(s)
  {
    LeftTrimmedSpaced(Downcase(s));
    SpacedIsJoined(Downcase(s));
    SplitAlnum(Downcase(s), "");
    JoinedIsNormal(Words(s));
    if IsNormal(s) {
      NormalStays(s);
    }
  }

  /** So any two titles without an ASCII letter or digit are one: a disc labelled with one such
      title is confirmed as the film of another, once the running time agrees. */
  lemma WordlessTitlesMerge(hit: Match, feature: nat, title: string) returns (groups: seq<seq<Proposal>>)
    requires feature > 0 && hit.runtime > 0 && RuntimeAgrees(feature, hit.runtime) && hit.id != ""
    requires title != "" && hit.title != "" && Words(title) == [] && Words(hit.title) == []
    ensures Layout([FromLabel(title), Scored(feature, hit)], Normalised, groups)
    ensures var r := Resolve(groups, []);
      Decide(r, Rough) == Confirmed && r.best.value.title == hit.title && r.best.value.providerId == Some(hit.id)
  {
    SameTitleIff(title, hit.title);
    groups := AgreementConfirms(hit, feature, title, Normalised);
  }
}
