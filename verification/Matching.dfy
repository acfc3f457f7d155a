/** Who should know whom: scoring with a stated breakdown, in hundredths, and one best proposal per pair. */
module Matching {
  import opened Text
  import Identity

  type Subject = string

  // ----- what is scored -------------------------------------------------------------

  /** An `intent:` row; `attributes` are its scalar values as text. */
  datatype Intent = Intent(subject: Subject, kind: string, object_: string, attributes: seq<string>, retracted: bool)

  /** A subject and the roles it declared. */
  datatype Declared = Declared(subject: Subject, roles: seq<string>)

  datatype Graded = Graded(kind: string, target: string, grade: string)

  datatype Endorsed = Endorsed(subject: Subject, graded: seq<Graded>)

  /**
   How texts are read: content words of an intent, words significant in a
   document (in order, with repeats), lower case, what is an artefact of intake,
   and the words a subject's documents vouch for.
   */
  datatype Lexicon = Lexicon(content: string -> set<string>, significant: string -> seq<string>,
                             lower: string -> string, intake: string -> bool, vouched: Subject -> set<string>)

  datatype ReasonId =
    | ComplementaryIntent | SubjectOverlap | AttributeMatch | DocumentCorroboration
    | GradedProposal | DeclaredRoles | GradedCandidate

  /** `matched` counts what the reason rests on. */
  datatype Reason = Reason(id: ReasonId, weight: nat, matched: nat)

  /** Why a pair is not worth proposing, kept beside its score. */
  datatype Conflict = NoConflict | IntakeArtifact | NoSharedSpecifics

  datatype Scored = Scored(score: nat, reasons: seq<Reason>, conflict: Conflict)

  function Complements(seek: string): set<string> {
    match seek
    case "SEEKING" => {"OFFERING", "SELLING", "REFERRING"}
    case "HIRING" => {"SEEKING", "OFFERING", "REFERRING"}
    case "FUNDRAISING" => {"INVESTING"}
    case "BUYING" => {"SELLING", "OFFERING"}
    case "SELLING" => {"BUYING", "SEEKING"}
    case "INVESTING" => {"FUNDRAISING"}
    case "OFFERING" => {"SEEKING", "HIRING", "BUYING"}
    case "PARTNERING" => {"PARTNERING"}
    case _ => {}
  }

  /** Which kind of proposal vouches for the seeking side. */
  function Family(side: string): Option<string> {
    if side in {"seeking_employment", "SEEKING", "OFFERING"} then Some("hire_for")
    else if side in {"seeking_funding", "FUNDRAISING"} then Some("invest_in")
    else None
  }

  function Min(a: nat, b: nat): nat {
    if a <= b then a else b
  }

  function SetOf(words: seq<string>): set<string> {
    set w <- words
  }

  /** The seeker's attributes that agree with some attribute of the offerer, repeats and all. */
  function Agreeing(x: Lexicon, seek: seq<string>, offer: seq<string>): nat {
    if seek == [] then 0
    else
      Agreeing(x, seek[..|seek| - 1], offer)
      + if exists o <- offer :: x.lower(o) == x.lower(seek[|seek| - 1]) then 1 else 0
  }

  function GradeWeight(grade: string): nat {
    if grade == "exceptional" then 15 else if grade == "strong" then 10 else 5
  }

  /** The first proposal of the right family whose target touches what the counterpart wants. */
  function ProposalSupport(x: Lexicon, proposals: seq<Graded>, family: Option<string>, wanted: set<string>): Option<Reason> {
    if family.None? || proposals == [] then None
    else
      var p := proposals[0];
      var matched := wanted * SetOf(x.significant(p.target));
      if p.kind == family.value && (matched != {} || wanted == {}) then
        Some(Reason(GradedProposal, GradeWeight(p.grade), |matched|))
      else ProposalSupport(x, proposals[1..], family, wanted)
  }

  /** A reason for `n` things in common, each worth `each`, up to `most`; none for none. */
  function For(id: ReasonId, n: nat, each: nat, most: nat): seq<Reason> {
    if n == 0 then [] else [Reason(id, Min(most, each * n), n)]
  }

  function Sum(reasons: seq<Reason>): nat {
    if reasons == [] then 0 else Sum(reasons[..|reasons| - 1]) + reasons[|reasons| - 1].weight
  }

  // ----- the inferred arm -------------------------------------------------------------

  /** What two intents have in common: subject words, specifics, and words the offerer's documents back. */
  function Overlap(x: Lexicon, a: Intent, b: Intent): nat {
    |x.content(a.object_) * x.content(b.object_)|
  }

  function Backing(x: Lexicon, a: Intent, b: Intent): nat {
    |SetOf(x.significant(a.object_)) * x.vouched(b.subject)|
  }

  predicate SharesSpecifics(x: Lexicon, a: Intent, b: Intent) {
    Overlap(x, a, b) > 0 || Agreeing(x, a.attributes, b.attributes) > 0 || Backing(x, a, b) > 0
  }

  function Endorsement(x: Lexicon, a: Intent, b: Intent, proposals: seq<Graded>): seq<Reason> {
    Endorse(!SharesSpecifics(x, a, b), ProposalSupport(x, proposals, Family(a.kind), SetOf(x.significant(b.object_))))
  }

  function Reasons(x: Lexicon, a: Intent, b: Intent, proposals: seq<Graded>): seq<Reason> {
    [Reason(ComplementaryIntent, 40, 0)]
    + For(SubjectOverlap, Overlap(x, a, b), 10, 30)
    + For(AttributeMatch, Agreeing(x, a.attributes, b.attributes), 15, 30)
    + For(DocumentCorroboration, Backing(x, a, b), 7, 20)
    + Endorsement(x, a, b, proposals)
  }

  predicate Intake(x: Lexicon, a: Intent, b: Intent) {
    x.intake(a.object_) || x.intake(b.object_)
  }

  /** None where the predicates do not answer each other. */
  function ScoreOf(x: Lexicon, a: Intent, b: Intent, proposals: seq<Graded>): Option<Scored> {
    if Intake(x, a, b) then Some(Scored(0, [], IntakeArtifact))
    else if b.kind !in Complements(a.kind) then None
    else
      var reasons := Reasons(x, a, b, proposals);
      Some(Scored(Min(100, Sum(reasons)), reasons, if SharesSpecifics(x, a, b) then NoConflict else NoSharedSpecifics))
  }

  method ScorePair(x: Lexicon, a: Intent, b: Intent, proposals: seq<Graded>) returns (r: Option<Scored>)
    ensures r == ScoreOf(x, a, b, proposals)
  {
    if x.intake(a.object_) || x.intake(b.object_) { return Some(Scored(0, [], IntakeArtifact)); }
    if b.kind !in Complements(a.kind) { return None; }
    var overlap, agreeing, backing := Overlap(x, a, b), Agreeing(x, a.attributes, b.attributes), Backing(x, a, b);
    var bare := overlap == 0 && agreeing == 0 && backing == 0;
    var endorsed := Endorse(bare, ProposalSupport(x, proposals, Family(a.kind), SetOf(x.significant(b.object_))));
    var score, reasons := AddUp(For(SubjectOverlap, overlap, 10, 30), For(AttributeMatch, agreeing, 15, 30),
                                For(DocumentCorroboration, backing, 7, 20), endorsed);
    assert reasons == Reasons(x, a, b, proposals);
    return Some(Scored(Min(100, score), reasons, if bare then NoSharedSpecifics else NoConflict));
  }

  /** What vouches for the seeker counts only beside something shared. */
  function Endorse(bare: bool, support: Option<Reason>): seq<Reason> {
    if support.Some? && !bare then [support.value] else []
  }

  /** The running score beside the reasons it is made of. */
  method AddUp(subjects: seq<Reason>, attributes: seq<Reason>, documents: seq<Reason>, endorsed: seq<Reason>)
    returns (score: nat, reasons: seq<Reason>)
    requires |subjects| <= 1 && |attributes| <= 1 && |documents| <= 1 && |endorsed| <= 1
    ensures reasons == [Reason(ComplementaryIntent, 40, 0)] + subjects + attributes + documents + endorsed
    ensures score == Sum(reasons)
  {
    score, reasons := 40, [Reason(ComplementaryIntent, 40, 0)];
    assert reasons[..0] == [];
    score, reasons := Add(score, reasons, subjects);
    score, reasons := Add(score, reasons, attributes);
    score, reasons := Add(score, reasons, documents);
    score, reasons := Add(score, reasons, endorsed);
  }

  /** Each point that is scored is a reason that is listed. */
  method Add(score0: nat, reasons0: seq<Reason>, more: seq<Reason>) returns (score: nat, reasons: seq<Reason>)
    requires score0 == Sum(reasons0) && |more| <= 1
    ensures reasons == reasons0 + more && score == Sum(reasons)
  {
    score, reasons := score0, reasons0 + more;
    if more != [] {
      assert reasons[..|reasons| - 1] == reasons0;
      score := score + more[0].weight;
    } else {
      assert reasons == reasons0;
    }
  }

  lemma SumAppend(a: seq<Reason>, b: seq<Reason>)
    requires |b| <= 1
    ensures Sum(a + b) == Sum(a) + if b == [] then 0 else b[0].weight
  {
    if b == [] { assert a + b == a; } else { assert (a + b)[..|a + b| - 1] == a; }
  }

  function Weight(reasons: seq<Reason>): nat {
    if reasons == [] then 0 else reasons[0].weight
  }

  /** What the reasons add up to, arm by arm. */
  lemma ReasonsSum(x: Lexicon, a: Intent, b: Intent, proposals: seq<Graded>)
    ensures Sum(Reasons(x, a, b, proposals))
         == 40 + Min(30, 10 * Overlap(x, a, b)) + Min(30, 15 * Agreeing(x, a.attributes, b.attributes))
            + Min(20, 7 * Backing(x, a, b)) + Weight(Endorsement(x, a, b, proposals))
  {
    var r0 := [Reason(ComplementaryIntent, 40, 0)];
    var r1 := r0 + For(SubjectOverlap, Overlap(x, a, b), 10, 30);
    var r2 := r1 + For(AttributeMatch, Agreeing(x, a.attributes, b.attributes), 15, 30);
    var r3 := r2 + For(DocumentCorroboration, Backing(x, a, b), 7, 20);
    assert r0[..0] == [];
    SumAppend(r0, For(SubjectOverlap, Overlap(x, a, b), 10, 30));
    SumAppend(r1, For(AttributeMatch, Agreeing(x, a.attributes, b.attributes), 15, 30));
    SumAppend(r2, For(DocumentCorroboration, Backing(x, a, b), 7, 20));
    SumAppend(r3, Endorsement(x, a, b, proposals));
  }

  /**
   A shared shape is never enough: an inferred pair scores above the bare
   complement exactly when it shares a subject word, a specific, or a word the
   offerer's documents back, and only then is it free of conflict.
   */
  lemma AboveBareIffShared(x: Lexicon, a: Intent, b: Intent, proposals: seq<Graded>)
    requires ScoreOf(x, a, b, proposals).Some?
    ensures var s := ScoreOf(x, a, b, proposals).value;
            (s.score > 40 <==> !Intake(x, a, b) && SharesSpecifics(x, a, b)) && (s.score > 40 <==> s.conflict == NoConflict)
  {
    ReasonsSum(x, a, b, proposals);
  }

  // ----- proposals ------------------------------------------------------------------------

  datatype Proposal = Proposal(seeker: Subject, offerer: Subject, matchType: (string, string), confidence: nat, reasons: seq<Reason>)

  function Held(endorsements: seq<Endorsed>, who: Subject): seq<Graded> {
    if endorsements == [] then []
    else if endorsements[0].subject == who then endorsements[0].graded
    else Held(endorsements[1..], who)
  }

  function FlatMap<T, U>(f: T -> seq<U>, items: seq<T>): seq<U> {
    if items == [] then [] else FlatMap(f, items[..|items| - 1]) + f(items[|items| - 1])
  }

  lemma {:induction false} InFlatMap<T, U>(f: T -> seq<U>, items: seq<T>, u: U)
    ensures u in FlatMap(f, items) <==> exists t :: t in items && u in f(t)
  {
    if items != [] {
      var n := |items| - 1;
      InFlatMap(f, items[..n], u);
      assert items == items[..n] + [items[n]];
    }
  }

  method Collect<T, U>(f: T -> seq<U>, items: seq<T>) returns (out: seq<U>)
    ensures out == FlatMap(f, items)
  {
    out := [];
    for n := 0 to |items|
      invariant out == FlatMap(f, items[..n])
    {
      assert items[..n + 1][..n] == items[..n];
      out := out + f(items[n]);
    }
    assert items[..|items|] == items;
  }

  // ----- the declared arm -----------------------------------------------------------------

  predicate IsSeekingRole(role: string) {
    role == "seeking_employment" || role == "seeking_funding"
  }

  predicate RolesComplement(a: string, b: string) {
    || (a == "hiring" && b == "seeking_employment") || (a == "seeking_employment" && b == "hiring")
    || (a == "seeking_funding" && b == "funding_startups") || (a == "funding_startups" && b == "seeking_funding")
  }

  function Answering(mine: string, roles: seq<string>): Option<string> {
    if roles == [] then None
    else if RolesComplement(mine, roles[0]) then Some(roles[0])
    else Answering(mine, roles[1..])
  }

  function RoleReasons(x: Lexicon, endorsements: seq<Endorsed>, seeker: Subject, offerer: Subject, mine: string): seq<Reason> {
    [Reason(DeclaredRoles, 70, 0)]
    + For(DocumentCorroboration, |x.vouched(seeker) * x.vouched(offerer)|, 6, 30)
    + match ProposalSupport(x, Held(endorsements, seeker), Family(mine), x.vouched(offerer))
      case Some(r) => [r]
      case None => []
  }

  /** The proposal one declared role of the seeker makes with the offerer, if it makes one. */
  function RoleProposal(x: Lexicon, endorsements: seq<Endorsed>, s: Declared, o: Declared): string -> seq<Proposal> {
    (mine: string) =>
      if !IsSeekingRole(mine) then []
      else match Answering(mine, o.roles)
        case None => []
        case Some(theirs) =>
          var reasons := RoleReasons(x, endorsements, s.subject, o.subject, mine);
          [Proposal(s.subject, o.subject, (mine, theirs), Min(100, Sum(reasons)), reasons)]
  }

  function RolePair(x: Lexicon, endorsements: seq<Endorsed>, s: Declared): Declared -> seq<Proposal> {
    (o: Declared) => if s.subject == o.subject then [] else FlatMap(RoleProposal(x, endorsements, s, o), s.roles)
  }

  function FromRoles(x: Lexicon, endorsements: seq<Endorsed>, roster: seq<Declared>): Declared -> seq<Proposal> {
    (s: Declared) => FlatMap(RolePair(x, endorsements, s), roster)
  }

  method ProposeFromRoles(x: Lexicon, endorsements: seq<Endorsed>, roster: seq<Declared>) returns (out: seq<Proposal>)
    ensures out == FlatMap(FromRoles(x, endorsements, roster), roster)
  {
    out := [];
    for i := 0 to |roster|
      invariant out == FlatMap(FromRoles(x, endorsements, roster), roster[..i])
    {
      assert roster[..i + 1][..i] == roster[..i];
      var mine := Collect(RolePair(x, endorsements, roster[i]), roster);
      out := out + mine;
    }
    assert roster[..|roster|] == roster;
  }

  // ----- the arm of graded candidates --------------------------------------------------------

  function AskFamily(kind: string): Option<string> {
    if kind == "HIRING" then Some("hire_for") else if kind == "INVESTING" then Some("invest_in") else None
  }

  function GradeConfidence(grade: string): nat {
    if grade == "exceptional" then 75 else if grade == "strong" then 65 else 55
  }

  /** How many of a target's significant words are asked for, repeats and all. */
  function Hits(words: seq<string>, asked: set<string>): nat {
    if words == [] then 0 else Hits(words[..|words| - 1], asked) + if words[|words| - 1] in asked then 1 else 0
  }

  function Fit(x: Lexicon, asked: set<string>, family: string, p: Graded): Option<Reason> {
    var hits := Hits(x.significant(p.target), asked);
    if p.kind != family || hits == 0 then None
    else Some(Reason(GradedCandidate, Min(100, GradeConfidence(p.grade) + Min(10, 5 * (hits - 1))),
                     |SetOf(x.significant(p.target)) * asked|))
  }

  /** The best fitting proposal speaks for the candidate; the first, among equals. */
  function Best(x: Lexicon, asked: set<string>, family: string, graded: seq<Graded>): Option<Reason> {
    if graded == [] then None
    else
      var n := |graded| - 1;
      var before, fit := Best(x, asked, family, graded[..n]), Fit(x, asked, family, graded[n]);
      if fit.None? || (before.Some? && fit.value.weight <= before.value.weight) then before else fit
  }

  /** No fitting proposal is better than the one that speaks. */
  lemma {:induction false} BestIsBest(x: Lexicon, asked: set<string>, family: string, graded: seq<Graded>, p: Graded)
    requires p in graded && Fit(x, asked, family, p).Some?
    ensures Best(x, asked, family, graded).Some?
    ensures Fit(x, asked, family, p).value.weight <= Best(x, asked, family, graded).value.weight
    decreases |graded|
  {
    var n := |graded| - 1;
    assert graded == graded[..n] + [graded[n]];
    if p in graded[..n] { BestIsBest(x, asked, family, graded[..n], p); }
  }

  lemma {:induction false} BestIsAFit(x: Lexicon, asked: set<string>, family: string, graded: seq<Graded>)
    ensures var best := Best(x, asked, family, graded);
            best.Some? ==> exists p :: p in graded && Fit(x, asked, family, p) == best && best.value.weight <= 85
  {
    if graded != [] {
      var init, last := graded[..|graded| - 1], graded[|graded| - 1];
      BestIsAFit(x, asked, family, init);
      assert graded == init + [last];
      FitIsBounded(x, asked, family, last);
    }
  }

  lemma FitIsBounded(x: Lexicon, asked: set<string>, family: string, p: Graded)
    ensures Fit(x, asked, family, p).Some? ==> Fit(x, asked, family, p).value.weight <= 85
  {
  }

  function Answer(x: Lexicon, ask: Intent, family: string): Endorsed -> seq<Proposal> {
    (e: Endorsed) =>
      if e.subject == ask.subject then []
      else match Best(x, SetOf(x.significant(ask.object_)), family, e.graded)
        case None => []
        case Some(r) => [Proposal(ask.subject, e.subject, (ask.kind, family), r.weight, [r])]
  }

  function Answers(x: Lexicon, endorsements: seq<Endorsed>): Intent -> seq<Proposal> {
    (ask: Intent) =>
      if AskFamily(ask.kind).None? || ask.retracted || x.intake(ask.object_) || x.significant(ask.object_) == [] then []
      else FlatMap(Answer(x, ask, AskFamily(ask.kind).value), endorsements)
  }

  method ProposalAnswers(x: Lexicon, endorsements: seq<Endorsed>, intents: seq<Intent>) returns (out: seq<Proposal>)
    ensures out == FlatMap(Answers(x, endorsements), intents)
  {
    out := [];
    for i := 0 to |intents|
      invariant out == FlatMap(Answers(x, endorsements), intents[..i])
    {
      assert intents[..i + 1][..i] == intents[..i];
      var ask := intents[i];
      if AskFamily(ask.kind).Some? && !ask.retracted && !x.intake(ask.object_) && x.significant(ask.object_) != [] {
        var more := Collect(Answer(x, ask, AskFamily(ask.kind).value), endorsements);
        out := out + more;
      } else {
        assert out + [] == out;
      }
    }
    assert intents[..|intents|] == intents;
  }

  // ----- the inferred arm, and all three ---------------------------------------------------------

  function Inferred(x: Lexicon, endorsements: seq<Endorsed>, threshold: int, a: Intent): Intent -> seq<Proposal> {
    (b: Intent) =>
      if a.subject == b.subject then []
      else match ScoreOf(x, a, b, Held(endorsements, a.subject))
        case None => []
        case Some(s) =>
          if s.score < threshold then []
          else [Proposal(a.subject, b.subject, (a.kind, b.kind), s.score, s.reasons)]
  }

  function FromIntent(x: Lexicon, endorsements: seq<Endorsed>, threshold: int, intents: seq<Intent>): Intent -> seq<Proposal> {
    (a: Intent) => FlatMap(Inferred(x, endorsements, threshold, a), intents)
  }

  function FromIntents(x: Lexicon, endorsements: seq<Endorsed>, threshold: int, intents: seq<Intent>): seq<Proposal> {
    FlatMap(FromIntent(x, endorsements, threshold, intents), intents)
  }

  method PairIntents(x: Lexicon, endorsements: seq<Endorsed>, threshold: int, intents: seq<Intent>) returns (out: seq<Proposal>)
    ensures out == FromIntents(x, endorsements, threshold, intents)
  {
    out := [];
    for i := 0 to |intents|
      invariant out == FlatMap(FromIntent(x, endorsements, threshold, intents), intents[..i])
    {
      assert intents[..i + 1][..i] == intents[..i];
      var row := PairOne(x, endorsements, threshold, intents[i], intents);
      out := out + row;
    }
    assert intents[..|intents|] == intents;
  }

  method PairOne(x: Lexicon, endorsements: seq<Endorsed>, threshold: int, a: Intent, intents: seq<Intent>) returns (out: seq<Proposal>)
    ensures out == FlatMap(Inferred(x, endorsements, threshold, a), intents)
  {
    out := [];
    for j := 0 to |intents|
      invariant out == FlatMap(Inferred(x, endorsements, threshold, a), intents[..j])
    {
      assert intents[..j + 1][..j] == intents[..j];
      var b := intents[j];
      assert out + [] == out;
      if a.subject == b.subject { continue; }
      var scored := ScorePair(x, a, b, Held(endorsements, a.subject));
      if scored.None? || scored.value.score < threshold { continue; }
      out := out + [Proposal(a.subject, b.subject, (a.kind, b.kind), scored.value.score, scored.value.reasons)];
    }
    assert intents[..|intents|] == intents;
  }

  /** Every proposal of the three arms, declared roles first. */
  function Candidates(x: Lexicon, endorsements: seq<Endorsed>, roster: seq<Declared>, intents: seq<Intent>, threshold: int): seq<Proposal> {
    FlatMap(FromRoles(x, endorsements, roster), roster) + FlatMap(Answers(x, endorsements), intents)
    + FromIntents(x, endorsements, threshold, intents)
  }

  // ----- selecting ---------------------------------------------------------------------------------

  /** A stable sort, best first. */
  function Insert(p: Proposal, sorted: seq<Proposal>): seq<Proposal> {
    if sorted == [] then [p]
    else
      var n := |sorted| - 1;
      if sorted[n].confidence >= p.confidence then sorted + [p] else Insert(p, sorted[..n]) + [sorted[n]]
  }

  function Sorted(ps: seq<Proposal>): seq<Proposal> {
    if ps == [] then [] else Insert(ps[|ps| - 1], Sorted(ps[..|ps| - 1]))
  }

  predicate Descending(ps: seq<Proposal>) {
    forall i, j :: 0 <= i < j < |ps| ==> ps[i].confidence >= ps[j].confidence
  }

  lemma {:induction false} InsertPermutes(p: Proposal, sorted: seq<Proposal>)
    ensures multiset(Insert(p, sorted)) == multiset(sorted) + multiset{p}
  {
    if sorted != [] && sorted[|sorted| - 1].confidence < p.confidence {
      var n := |sorted| - 1;
      InsertPermutes(p, sorted[..n]);
      assert sorted == sorted[..n] + [sorted[n]];
    }
  }

  /** All of these are at least this good. */
  predicate AtLeast(ps: seq<Proposal>, confidence: nat) {
    forall q <- ps :: q.confidence >= confidence
  }

  lemma {:induction false} InsertKeepsFloor(p: Proposal, sorted: seq<Proposal>, floor: nat)
    requires AtLeast(sorted, floor) && p.confidence >= floor
    ensures AtLeast(Insert(p, sorted), floor)
  {
    if sorted != [] && sorted[|sorted| - 1].confidence < p.confidence {
      InsertKeepsFloor(p, sorted[..|sorted| - 1], floor);
    }
  }

  lemma {:induction false} InsertDescends(p: Proposal, sorted: seq<Proposal>)
    requires Descending(sorted)
    ensures Descending(Insert(p, sorted))
  {
    if sorted != [] && sorted[|sorted| - 1].confidence < p.confidence {
      var n := |sorted| - 1;
      InsertDescends(p, sorted[..n]);
      InsertKeepsFloor(p, sorted[..n], sorted[n].confidence);
      FloorDescends(Insert(p, sorted[..n]), sorted[n]);
    }
  }

  lemma FloorDescends(front: seq<Proposal>, last: Proposal)
    requires Descending(front) && AtLeast(front, last.confidence)
    ensures Descending(front + [last])
  {
    assert forall i :: 0 <= i < |front| ==> front[i] in front;
  }

  lemma MultisetSnoc<T>(s: seq<T>, n: nat)
    requires |s| == n + 1
    ensures multiset(s) == multiset(s[..n]) + multiset{s[n]}
  {
    assert s == s[..n] + [s[n]];
  }

  lemma {:induction false} SortedPermutes(ps: seq<Proposal>)
    ensures multiset(Sorted(ps)) == multiset(ps)
  {
    if ps != [] {
      var n := |ps| - 1;
      SortedPermutes(ps[..n]);
      InsertPermutes(ps[n], Sorted(ps[..n]));
      MultisetSnoc(ps, n);
    }
  }

  lemma {:induction false} SortedDescends(ps: seq<Proposal>)
    ensures Descending(Sorted(ps))
  {
    if ps != [] {
      SortedDescends(ps[..|ps| - 1]);
      InsertDescends(ps[|ps| - 1], Sorted(ps[..|ps| - 1]));
    }
  }

  /** `${seeker}|${offerer}` */
  function PairKey(p: Proposal): string {
    p.seeker + "|" + p.offerer
  }

  function KeysOf(ps: seq<Proposal>): set<string> {
    set p <- ps :: PairKey(p)
  }

  /** The first proposal under each key. */
  function Unique(ps: seq<Proposal>): seq<Proposal> {
    if ps == [] then []
    else
      var n := |ps| - 1;
      Unique(ps[..n]) + if PairKey(ps[n]) in KeysOf(ps[..n]) then [] else [ps[n]]
  }

  function Selected(ps: seq<Proposal>, limit: nat): seq<Proposal> {
    var unique := Unique(Sorted(ps));
    if |unique| <= limit then unique else unique[..limit]
  }

  /** The filter that keeps the first of each pair. */
  method Deduplicate(sorted: seq<Proposal>) returns (unique: seq<Proposal>)
    ensures unique == Unique(sorted)
  {
    var seen: set<string> := {};
    unique := [];
    for n := 0 to |sorted|
      invariant unique == Unique(sorted[..n]) && seen == KeysOf(sorted[..n])
    {
      var p := sorted[n];
      assert sorted[..n + 1] == sorted[..n] + [p];
      KeysSnoc(sorted[..n], p);
      UniqueSnoc(sorted[..n], p);
      if PairKey(p) !in seen { unique := unique + [p]; }
      seen := seen + {PairKey(p)};
    }
    assert sorted[..|sorted|] == sorted;
  }

  lemma UniqueSnoc(ps: seq<Proposal>, p: Proposal)
    ensures Unique(ps + [p]) == if PairKey(p) in KeysOf(ps) then Unique(ps) else Unique(ps) + [p]
  {
    assert (ps + [p])[..|ps|] == ps;
    assert Unique(ps) + [] == Unique(ps);
  }

  lemma KeysSnoc(ps: seq<Proposal>, p: Proposal)
    ensures KeysOf(ps + [p]) == KeysOf(ps) + {PairKey(p)}
  {
  }

  method ProposeIntroductions(x: Lexicon, endorsements: seq<Endorsed>, roster: seq<Declared>, intents: seq<Intent>,
                              threshold: int, limit: nat) returns (out: seq<Proposal>)
    ensures out == Selected(Candidates(x, endorsements, roster, intents, threshold), limit)
  {
    var declared := ProposeFromRoles(x, endorsements, roster);
    var answers := ProposalAnswers(x, endorsements, intents);
    var inferred := PairIntents(x, endorsements, threshold, intents);
    var unique := Deduplicate(Sorted(declared + answers + inferred));
    out := if |unique| <= limit then unique else unique[..limit];
  }

  lemma {:induction false} UniqueIsSome(ps: seq<Proposal>, u: Proposal)
    requires u in Unique(ps)
    ensures u in ps
  {
    var n := |ps| - 1;
    if u in Unique(ps[..n]) { UniqueIsSome(ps[..n], u); }
  }

  lemma {:induction false} UniqueKeepsKeys(ps: seq<Proposal>)
    ensures KeysOf(Unique(ps)) == KeysOf(ps)
  {
    if ps != [] {
      var n := |ps| - 1;
      UniqueKeepsKeys(ps[..n]);
      assert ps == ps[..n] + [ps[n]];
      KeysSnoc(ps[..n], ps[n]);
      KeysSnoc(Unique(ps[..n]), ps[n]);
    }
  }

  lemma {:induction false} UniqueIsDistinct(ps: seq<Proposal>)
    ensures forall i, j :: 0 <= i < j < |Unique(ps)| ==> PairKey(Unique(ps)[i]) != PairKey(Unique(ps)[j])
  {
    if ps != [] {
      var n := |ps| - 1;
      UniqueIsDistinct(ps[..n]);
      UniqueKeepsKeys(ps[..n]);
      var before := Unique(ps[..n]);
      forall i | 0 <= i < |before| ensures PairKey(before[i]) in KeysOf(ps[..n]) {
        assert before[i] in before;
      }
    }
  }

  lemma {:induction false} UniqueDescends(ps: seq<Proposal>)
    requires Descending(ps)
    ensures Descending(Unique(ps))
  {
    if ps != [] {
      var n := |ps| - 1;
      UniqueDescends(ps[..n]);
      var before := Unique(ps[..n]);
      forall i | 0 <= i < |before| ensures before[i].confidence >= ps[n].confidence {
        UniqueIsSome(ps[..n], before[i]);
      }
    }
  }

  lemma KeyIsIn(ps: seq<Proposal>, p: Proposal)
    ensures p in ps ==> PairKey(p) in KeysOf(ps)
  {
  }

  /** The first under a key, in descending order, is a best one. */
  lemma {:induction false} UniqueIsBest(ps: seq<Proposal>, u: Proposal, p: Proposal)
    requires Descending(ps) && u in Unique(ps) && p in ps && PairKey(u) == PairKey(p)
    ensures p.confidence <= u.confidence
  {
    var n := |ps| - 1;
    assert ps == ps[..n] + [ps[n]];
    if u in Unique(ps[..n]) {
      UniqueIsSome(ps[..n], u);
      if p in ps[..n] { UniqueIsBest(ps[..n], u, p); }
    } else {
      assert u == ps[n] && PairKey(u) !in KeysOf(ps[..n]);
      KeyIsIn(ps[..n], p);
    }
  }

  // ----- what selection promises ------------------------------------------------------------------

  lemma SelectedFrom(ps: seq<Proposal>, limit: nat)
    ensures Descending(Sorted(ps)) && Descending(Unique(Sorted(ps))) && Selected(ps, limit) <= Unique(Sorted(ps))
    ensures forall p: Proposal :: p in Sorted(ps) <==> p in ps
  {
    SortedPermutes(ps);
    SortedDescends(ps);
    UniqueDescends(Sorted(ps));
    SameMembers(Sorted(ps), ps);
  }

  lemma SameMembers(a: seq<Proposal>, b: seq<Proposal>)
    requires multiset(a) == multiset(b)
    ensures forall p: Proposal :: p in a <==> p in b
  {
    forall p: Proposal ensures p in a <==> p in b {
      assert p in a <==> p in multiset(a);
    }
  }

  /** Best first, at most `limit`, each a proposal that was made, and no pair twice. */
  lemma SelectionIsOrdered(ps: seq<Proposal>, limit: nat)
    ensures Descending(Selected(ps, limit)) && |Selected(ps, limit)| <= limit
    ensures forall p <- Selected(ps, limit) :: p in ps
    ensures forall i, j :: 0 <= i < j < |Selected(ps, limit)| ==>
              (Selected(ps, limit)[i].seeker, Selected(ps, limit)[i].offerer)
              != (Selected(ps, limit)[j].seeker, Selected(ps, limit)[j].offerer)
  {
    SelectedFrom(ps, limit);
    UniqueIsDistinct(Sorted(ps));
    forall p <- Selected(ps, limit) ensures p in ps { UniqueIsSome(Sorted(ps), p); }
    forall i, j | 0 <= i < j < |Selected(ps, limit)|
      ensures (Selected(ps, limit)[i].seeker, Selected(ps, limit)[i].offerer)
           != (Selected(ps, limit)[j].seeker, Selected(ps, limit)[j].offerer)
    {
      assert PairKey(Unique(Sorted(ps))[i]) != PairKey(Unique(Sorted(ps))[j]);
    }
  }

  /** Every proposal is represented by one at least as good under its key, or the limit is full of such. */
  lemma NothingBetterIsOmitted(ps: seq<Proposal>, limit: nat, p: Proposal)
    requires p in ps
    ensures (exists q :: q in Selected(ps, limit) && PairKey(q) == PairKey(p) && q.confidence >= p.confidence)
         || (|Selected(ps, limit)| == limit && forall q <- Selected(ps, limit) :: q.confidence >= p.confidence)
  {
    SelectedFrom(ps, limit);
    var unique := Unique(Sorted(ps));
    UniqueKeepsKeys(Sorted(ps));
    assert PairKey(p) in KeysOf(Sorted(ps));
    var q :| q in unique && PairKey(q) == PairKey(p);
    UniqueIsBest(Sorted(ps), q, p);
    if q !in Selected(ps, limit) {
      var at :| 0 <= at < |unique| && unique[at] == q;
      assert |unique| > limit && at >= limit;
    }
  }

  /** Where no id holds a '|', the key names the pair, so each pair has its own best. */
  lemma KeysNamePairs(p: Proposal, q: Proposal)
    requires '|' !in p.seeker && '|' !in q.seeker
    ensures PairKey(p) == PairKey(q) <==> p.seeker == q.seeker && p.offerer == q.offerer
  {
    if PairKey(p) == PairKey(q) { Identity.BarSplits(p.seeker, p.offerer, q.seeker, q.offerer); }
  }

  /** With a '|' in an id, one pair can crowd out another. */
  lemma CollidingPairIsDropped(p: Proposal, q: Proposal, limit: nat)
    requires p.seeker == "a" && p.offerer == "b|c" && q.seeker == "a|b" && q.offerer == "c"
    requires p.confidence >= q.confidence && limit >= 2
    ensures Selected([p, q], limit) == [p]
  {
    assert PairKey(p) == "a|b|c" && PairKey(q) == "a|b|c";
    assert [p, q][..1] == [p] && [p][..0] == [];
    assert Sorted([p]) == [p];
    assert Sorted([p, q]) == [p, q];
    assert PairKey(q) in KeysOf([p]);
    assert Unique([p]) == [p];
  }

  // ----- what every proposal promises ---------------------------------------------------------------

  /** Two different people, and a confidence that is the capped sum of the reasons listed. */
  predicate Honest(p: Proposal) {
    p.seeker != p.offerer && p.confidence == Min(100, Sum(p.reasons))
  }

  lemma DeclaredIsHonest(x: Lexicon, endorsements: seq<Endorsed>, roster: seq<Declared>, p: Proposal)
    requires p in FlatMap(FromRoles(x, endorsements, roster), roster)
    ensures Honest(p)
  {
    InFlatMap(FromRoles(x, endorsements, roster), roster, p);
    var s :| s in roster && p in FromRoles(x, endorsements, roster)(s);
    InFlatMap(RolePair(x, endorsements, s), roster, p);
    var o :| o in roster && p in RolePair(x, endorsements, s)(o);
    InFlatMap(RoleProposal(x, endorsements, s, o), s.roles, p);
  }

  lemma AnswerIsHonest(x: Lexicon, endorsements: seq<Endorsed>, intents: seq<Intent>, p: Proposal)
    requires p in FlatMap(Answers(x, endorsements), intents)
    ensures Honest(p)
  {
    InFlatMap(Answers(x, endorsements), intents, p);
    var ask :| ask in intents && p in Answers(x, endorsements)(ask);
    var family := AskFamily(ask.kind).value;
    InFlatMap(Answer(x, ask, family), endorsements, p);
    var e :| e in endorsements && p in Answer(x, ask, family)(e);
    BestIsAFit(x, SetOf(x.significant(ask.object_)), family, e.graded);
    assert p.reasons[..0] == [];
  }

  /** An inferred proposal names two intents that answer each other and clear the threshold. */
  lemma InferredNamesItsPair(x: Lexicon, endorsements: seq<Endorsed>, threshold: int, intents: seq<Intent>, p: Proposal)
    returns (a: Intent, b: Intent)
    requires p in FromIntents(x, endorsements, threshold, intents)
    ensures a in intents && b in intents && p in Inferred(x, endorsements, threshold, a)(b)
  {
    InFlatMap(FromIntent(x, endorsements, threshold, intents), intents, p);
    a :| a in intents && p in FromIntent(x, endorsements, threshold, intents)(a);
    InFlatMap(Inferred(x, endorsements, threshold, a), intents, p);
    b :| b in intents && p in Inferred(x, endorsements, threshold, a)(b);
  }

  lemma InferredIsHonest(x: Lexicon, endorsements: seq<Endorsed>, threshold: int, a: Intent, b: Intent, p: Proposal)
    requires p in Inferred(x, endorsements, threshold, a)(b)
    ensures Honest(p) && p.confidence >= threshold
    ensures threshold > 40 ==> !Intake(x, a, b) && SharesSpecifics(x, a, b) && b.kind in Complements(a.kind)
  {
    AboveBareIffShared(x, a, b, Held(endorsements, a.subject));
  }

  /** Nobody is introduced to themselves, and no confidence says more than its reasons, on any arm. */
  lemma EveryProposalIsHonest(x: Lexicon, endorsements: seq<Endorsed>, roster: seq<Declared>, intents: seq<Intent>,
                              threshold: int, limit: nat, p: Proposal)
    requires p in Selected(Candidates(x, endorsements, roster, intents, threshold), limit)
    ensures Honest(p) && p.confidence <= 100
  {
    SelectionIsOrdered(Candidates(x, endorsements, roster, intents, threshold), limit);
    if p in FlatMap(FromRoles(x, endorsements, roster), roster) {
      DeclaredIsHonest(x, endorsements, roster, p);
    } else if p in FlatMap(Answers(x, endorsements), intents) {
      AnswerIsHonest(x, endorsements, intents, p);
    } else {
      var a, b := InferredNamesItsPair(x, endorsements, threshold, intents, p);
      InferredIsHonest(x, endorsements, threshold, a, b, p);
    }
  }

  /** At the default threshold an inferred proposal always rests on something shared. */
  lemma InferredRestsOnSpecifics(x: Lexicon, endorsements: seq<Endorsed>, intents: seq<Intent>, p: Proposal)
    requires p in FromIntents(x, endorsements, 50, intents)
    ensures exists a, b :: a in intents && b in intents && p.seeker == a.subject && p.offerer == b.subject
                           && !Intake(x, a, b) && SharesSpecifics(x, a, b) && b.kind in Complements(a.kind)
  {
    var a, b := InferredNamesItsPair(x, endorsements, 50, intents, p);
    InferredIsHonest(x, endorsements, 50, a, b, p);
  }

  /** The refusal of intake artefacts is a score of zero, so only a positive threshold enforces it. */
  lemma IntakeIsProposedIff(x: Lexicon, endorsements: seq<Endorsed>, threshold: int, a: Intent, b: Intent)
    requires Intake(x, a, b) && a.subject != b.subject
    ensures Inferred(x, endorsements, threshold, a)(b) != [] <==> threshold <= 0
  {
  }

  // ----- which arm speaks louder ------------------------------------------------------------------

  /** What an inferred pairing scores beyond the bare complement. */
  function Specifics(x: Lexicon, a: Intent, b: Intent, proposals: seq<Graded>): nat {
    Min(30, 10 * Overlap(x, a, b)) + Min(30, 15 * Agreeing(x, a.attributes, b.attributes))
    + Min(20, 7 * Backing(x, a, b)) + Weight(Endorsement(x, a, b, proposals))
  }

  function Supported(x: Lexicon, endorsements: seq<Endorsed>, seeker: Subject, offerer: Subject, mine: string): seq<Reason> {
    match ProposalSupport(x, Held(endorsements, seeker), Family(mine), x.vouched(offerer))
    case Some(r) => [r]
    case None => []
  }

  /** What a declaration scores beyond itself. */
  function Backed(x: Lexicon, endorsements: seq<Endorsed>, seeker: Subject, offerer: Subject, mine: string): nat {
    Min(30, 6 * |x.vouched(seeker) * x.vouched(offerer)|) + Weight(Supported(x, endorsements, seeker, offerer, mine))
  }

  lemma RoleReasonsSum(x: Lexicon, endorsements: seq<Endorsed>, seeker: Subject, offerer: Subject, mine: string)
    ensures Sum(RoleReasons(x, endorsements, seeker, offerer, mine)) == 70 + Backed(x, endorsements, seeker, offerer, mine)
  {
    var r0 := [Reason(DeclaredRoles, 70, 0)];
    var shared := For(DocumentCorroboration, |x.vouched(seeker) * x.vouched(offerer)|, 6, 30);
    assert r0[..0] == [];
    SumAppend(r0, shared);
    SumAppend(r0 + shared, Supported(x, endorsements, seeker, offerer, mine));
    assert RoleReasons(x, endorsements, seeker, offerer, mine)
        == r0 + shared + Supported(x, endorsements, seeker, offerer, mine);
  }

  /**
   Exactly when an inferred pairing outranks a declared one, whoever they are:
   when the declaration has less than 30 behind it, and the pairing shares
   more than 30 above that.
   */
  lemma InferredOutranksIff(x: Lexicon, endorsements: seq<Endorsed>, a: Intent, b: Intent,
                            seeker: Subject, offerer: Subject, mine: string)
    requires ScoreOf(x, a, b, Held(endorsements, a.subject)).Some?
    ensures var backed := Backed(x, endorsements, seeker, offerer, mine);
            ScoreOf(x, a, b, Held(endorsements, a.subject)).value.score
            > Min(100, Sum(RoleReasons(x, endorsements, seeker, offerer, mine)))
            <==> !Intake(x, a, b) && backed < 30 && Specifics(x, a, b, Held(endorsements, a.subject)) > 30 + backed
  {
    ReasonsSum(x, a, b, Held(endorsements, a.subject));
    RoleReasonsSum(x, endorsements, seeker, offerer, mine);
  }

  /**
   A declaration does not outrank every inferred pairing: three shared words
   and two agreeing specifics score the full hundred, a bare declaration seventy.
   */
  lemma InferredCanOutrankDeclared(x: Lexicon, endorsements: seq<Endorsed>, a: Intent, b: Intent,
                                   seeker: Subject, offerer: Subject, mine: string)
    requires !Intake(x, a, b) && b.kind in Complements(a.kind)
    requires Overlap(x, a, b) >= 3 && Agreeing(x, a.attributes, b.attributes) >= 2
    requires x.vouched(offerer) == {} && Held(endorsements, seeker) == []
    ensures ScoreOf(x, a, b, Held(endorsements, a.subject)).value.score == 100
    ensures Sum(RoleReasons(x, endorsements, seeker, offerer, mine)) == 70
  {
    ReasonsSum(x, a, b, Held(endorsements, a.subject));
    var reasons := [Reason(DeclaredRoles, 70, 0)];
    assert x.vouched(seeker) * x.vouched(offerer) == {};
    assert RoleReasons(x, endorsements, seeker, offerer, mine) == reasons && reasons[..0] == [];
  }
}
