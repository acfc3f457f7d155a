/**
 The observation loop: retries, graded rounds, and a bank of claims that no
 failure may cost. What the model sends is a sequence of events; `key` gives
 the identity that makes two claims the same claim.
 */
module Provider {
  import opened Text
  import opened Schema

  datatype Entry = Entry(group: Group, claim: Claim)

  // ----- merging and reviewing ------------------------------------------------------

  function Keys(key: Entry -> string, entries: seq<Entry>): set<string> {
    set e <- entries :: key(e)
  }

  /** Duplicates dropped, the first occurrence winning. */
  function Merged(key: Entry -> string, entries: seq<Entry>): seq<Entry> {
    if entries == [] then []
    else
      var n := |entries| - 1;
      var before := Merged(key, entries[..n]);
      if key(entries[n]) in Keys(key, entries[..n]) then before else before + [entries[n]]
  }

  predicate DistinctKeys(key: Entry -> string, entries: seq<Entry>) {
    forall i, j :: 0 <= i < j < |entries| ==> key(entries[i]) != key(entries[j])
  }

  lemma KeysSnoc(key: Entry -> string, entries: seq<Entry>, e: Entry)
    ensures Keys(key, entries + [e]) == Keys(key, entries) + {key(e)}
  {
  }

  lemma KeysAppend(key: Entry -> string, a: seq<Entry>, b: seq<Entry>)
    ensures Keys(key, a + b) == Keys(key, a) + Keys(key, b)
  {
  }

  /** Merging loses no key and keeps one entry per key, each of them one that was there. */
  lemma {:induction false} MergedKeepsKeys(key: Entry -> string, entries: seq<Entry>)
    ensures Keys(key, Merged(key, entries)) == Keys(key, entries)
    ensures DistinctKeys(key, Merged(key, entries))
    ensures forall e <- Merged(key, entries) :: e in entries
    ensures |Merged(key, entries)| <= |entries|
  {
    if entries != [] {
      var n := |entries| - 1;
      var e := entries[n];
      MergedKeepsKeys(key, entries[..n]);
      assert entries == entries[..n] + [e];
      KeysSnoc(key, entries[..n], e);
      KeysSnoc(key, Merged(key, entries[..n]), e);
      if key(e) !in Keys(key, entries[..n]) { NewKeyIsDistinct(key, Merged(key, entries[..n]), e); }
    }
  }

  lemma NewKeyIsDistinct(key: Entry -> string, entries: seq<Entry>, e: Entry)
    requires DistinctKeys(key, entries) && key(e) !in Keys(key, entries)
    ensures DistinctKeys(key, entries + [e])
  {
    forall i | 0 <= i < |entries| ensures key(entries[i]) != key(e) { assert entries[i] in entries; }
  }

  /** The first to claim a key holds it, so merging more never displaces anything. */
  lemma {:induction false} MergedKeepsFirst(key: Entry -> string, a: seq<Entry>, b: seq<Entry>)
    ensures Merged(key, a) <= Merged(key, a + b)
  {
    if b == [] {
      assert a + b == a;
    } else {
      var n := |b| - 1;
      assert (a + b)[..|a + b| - 1] == a + b[..n];
      MergedKeepsFirst(key, a, b[..n]);
    }
  }

  /** Distinct entries are left as they are. */
  lemma {:induction false} MergedFixes(key: Entry -> string, entries: seq<Entry>)
    requires DistinctKeys(key, entries)
    ensures Merged(key, entries) == entries
  {
    if entries != [] {
      var n := |entries| - 1;
      MergedFixes(key, entries[..n]);
      assert entries == entries[..n] + [entries[n]];
    }
  }

  method MergeEntries(key: Entry -> string, lists: seq<seq<Entry>>) returns (entries: seq<Entry>, duplicates: nat)
    ensures entries == Merged(key, Flat(lists))
    ensures duplicates == |Flat(lists)| - |entries|
  {
    var seen: set<string> := {};
    entries, duplicates := [], 0;
    for i := 0 to |lists|
      invariant entries == Merged(key, Flat(lists[..i])) && seen == Keys(key, Flat(lists[..i]))
      invariant duplicates + |entries| == |Flat(lists[..i])|
    {
      ghost var done := Flat(lists[..i]);
      var list := lists[i];
      FlatSnoc(lists, i);
      assert done + list[..0] == done;
      for j := 0 to |list|
        invariant entries == Merged(key, done + list[..j]) && seen == Keys(key, done + list[..j])
        invariant duplicates + |entries| == |done + list[..j]|
      {
        var k := key(list[j]);
        assert done + list[..j + 1] == (done + list[..j]) + [list[j]];
        MergedSnoc(key, done + list[..j], list[j]);
        if k in seen {
          duplicates := duplicates + 1;
        } else {
          entries := entries + [list[j]];
        }
        seen := seen + {k};
      }
      assert list[..|list|] == list;
    }
    assert lists[..|lists|] == lists;
  }

  function Flat(lists: seq<seq<Entry>>): seq<Entry> {
    if lists == [] then [] else Flat(lists[..|lists| - 1]) + lists[|lists| - 1]
  }

  lemma FlatSnoc(lists: seq<seq<Entry>>, i: nat)
    requires i < |lists|
    ensures Flat(lists[..i + 1]) == Flat(lists[..i]) + lists[i]
  {
    assert lists[..i + 1][..i] == lists[..i];
  }

  lemma MergedSnoc(key: Entry -> string, entries: seq<Entry>, e: Entry)
    ensures Merged(key, entries + [e])
         == if key(e) in Keys(key, entries) then Merged(key, entries) else Merged(key, entries) + [e]
    ensures Keys(key, entries + [e]) == Keys(key, entries) + {key(e)}
  {
    assert (entries + [e])[..|entries|] == entries;
    KeysSnoc(key, entries, e);
  }

  datatype Review = Review(reject: bool, n: int)

  /** The numbers a review rejects; entries are numbered from one. */
  function Rejected(reviews: seq<Review>): set<int> {
    set r <- reviews | r.reject :: r.n
  }

  function Unrejected(banked: seq<Entry>, numbers: set<int>): seq<Entry> {
    if banked == [] then []
    else
      var n := |banked| - 1;
      Unrejected(banked[..n], numbers) + if n + 1 in numbers then [] else [banked[n]]
  }

  function ApplyReviews(banked: seq<Entry>, reviews: seq<Review>): seq<Entry> {
    Unrejected(banked, Rejected(reviews))
  }

  /** What is not rejected by its number stays; nothing is added. */
  lemma {:induction false} UnrejectedIff(banked: seq<Entry>, numbers: set<int>, e: Entry)
    ensures e in Unrejected(banked, numbers) <==> exists i :: 0 <= i < |banked| && banked[i] == e && i + 1 !in numbers
  {
    if banked != [] {
      var n := |banked| - 1;
      UnrejectedIff(banked[..n], numbers, e);
      assert forall i :: 0 <= i < n ==> banked[..n][i] == banked[i];
    }
  }

  lemma {:induction false} NothingRejected(banked: seq<Entry>, numbers: set<int>)
    requires forall m <- numbers :: !(1 <= m <= |banked|)
    ensures Unrejected(banked, numbers) == banked
  {
    if banked != [] {
      NothingRejected(banked[..|banked| - 1], numbers);
      assert banked == banked[..|banked| - 1] + [banked[|banked| - 1]];
    }
  }

  // ----- one attempt ------------------------------------------------------------------

  /**
   What a failed attempt left behind: no text, none that reads as claim lines,
   claims through both gates, or lines on which the reading itself throws.
   */
  datatype Trace = Absent | Unreadable | Lines(entries: seq<Entry>) | Broken

  datatype Event =
    /** An answer that reads: its verified claims, its verdicts, and its rejected claims as "code|line". */
    | Reply(claims: seq<Entry>, reviews: seq<Review>, rejects: seq<string>)
    /** Anything thrown on the way; `unprintable` if the note that would report it is refused. */
    | Failure(retryable: bool, loop: bool, partial: Trace, thinking: Trace, unprintable: bool)

  /** The model and its transport: what attempt n brings, given the bank. */
  type World = (nat, seq<Entry>) -> Event

  datatype Config = Config(key: Entry -> string, maxAttempts: int, maxRounds: int)

  datatype State = State(
    attempt: nat, rounds: nat, bank: seq<Entry>, seen: set<string>, feedback: seq<string>,
    woken: bool, lastPartial: Trace, lastThinking: Trace, failures: nat)

  /**
   `Throw` is the catch block's own throw at the end, `Lost` one out of the
   catch block itself, whatever is banked, and `Exhausted` the one behind the loop.
   */
  datatype Outcome =
    | Continue(next: State)
    | Answer(verified: seq<Entry>, partial: bool, attempts: nat, roundsUsed: nat)
    | Throw(attempts: nat)
    | Lost(attempts: nat)
    | Exhausted(attempts: nat)

  /** The rejects to show: those graded for the first time, once each. */
  function Graded(seen: set<string>, rejects: seq<string>): seq<string> {
    if rejects == [] then []
    else
      var n := |rejects| - 1;
      Graded(seen, rejects[..n])
      + if rejects[n] in seen || rejects[n] in rejects[..n] then [] else [rejects[n]]
  }

  function SetOf(rejects: seq<string>): set<string> {
    set r <- rejects
  }

  /** `bankThinking`: what is banked comes first. */
  function BankThinking(key: Entry -> string, bank: seq<Entry>, thinking: Trace): seq<Entry> {
    if thinking.Lines? then Merged(key, bank + thinking.entries) else bank
  }

  /** `bankPartial`: what the answer delivered comes first; a reading that throws is caught. */
  function BankPartial(key: Entry -> string, bank: seq<Entry>, partial: Trace): seq<Entry> {
    if partial.Lines? then Merged(key, partial.entries + bank) else bank
  }

  function Latest(now: Trace, before: Trace): Trace {
    if now.Absent? then before else now
  }

  function Salvaged(t: Trace): seq<Entry> {
    if t.Lines? then t.entries else []
  }

  function OnReply(c: Config, s: State, claims: seq<Entry>, reviews: seq<Review>, rejects: seq<string>): Outcome {
    var accepted := Merged(c.key, ApplyReviews(s.bank, reviews) + claims);
    var graded := if s.rounds < c.maxRounds then Graded(s.seen, rejects) else [];
    if graded != [] then
      Continue(s.(attempt := s.attempt + 1, rounds := s.rounds + 1, bank := accepted,
                  seen := s.seen + SetOf(rejects), feedback := graded))
    else Answer(accepted, false, s.attempt + 1, s.rounds)
  }

  /** The guard of the catch branch: it does not know of rounds. */
  predicate Ends(c: Config, s: State, f: Event)
    requires f.Failure?
  {
    !f.retryable || s.attempt + 1 >= c.maxAttempts
  }

  /** The bank as a failure leaves it. */
  function Rebanked(c: Config, s: State, f: Event): seq<Entry>
    requires f.Failure?
  {
    BankPartial(c.key, BankThinking(c.key, s.bank, Latest(f.thinking, s.lastThinking)), f.partial)
  }

  /** What is salvaged at the end: delivered lines first, then the bank. */
  function Salvage(c: Config, s: State, f: Event): seq<Entry>
    requires f.Failure?
  {
    Merged(c.key, Salvaged(Latest(f.partial, s.lastPartial)) + Rebanked(c, s, f))
  }

  /** Something the catch block does throws: the harvest of the thinking, the note, or the last salvage. */
  predicate Breaks(c: Config, s: State, f: Event) {
    f.Failure? &&
    (|| Latest(f.thinking, s.lastThinking).Broken? || f.unprintable
     || (Ends(c, s, f) && Latest(f.partial, s.lastPartial).Broken?))
  }

  function OnFailure(c: Config, s: State, f: Event): Outcome
    requires f.Failure?
  {
    if Latest(f.thinking, s.lastThinking).Broken? || f.unprintable then Lost(s.attempt + 1)
    else if Ends(c, s, f) then
      if Latest(f.partial, s.lastPartial).Broken? then Lost(s.attempt + 1)
      else if Salvage(c, s, f) != [] then Answer(Salvage(c, s, f), true, s.attempt + 1, s.rounds)
      else Throw(s.attempt + 1)
    else
      Continue(s.(attempt := s.attempt + 1, bank := Rebanked(c, s, f), woken := f.loop, failures := s.failures + 1,
                  lastPartial := Latest(f.partial, s.lastPartial), lastThinking := Latest(f.thinking, s.lastThinking)))
  }

  function Step(c: Config, s: State, e: Event): Outcome {
    match e
    case Reply(claims, reviews, rejects) => OnReply(c, s, claims, reviews, rejects)
    case Failure(_, _, _, _, _) => OnFailure(c, s, e)
  }

  function Start(seeds: seq<Entry>): State {
    State(0, 0, seeds, {}, [], false, Absent, Absent, 0)
  }

  predicate Within(c: Config, s: State) {
    s.rounds == 0 || s.rounds <= c.maxRounds
  }

  function Budget(c: Config): int {
    c.maxAttempts + if c.maxRounds > 0 then c.maxRounds else 0
  }

  /** The whole loop in a world. */
  function Run(c: Config, s: State, world: World): Outcome
    requires Within(c, s)
    ensures !Run(c, s, world).Continue?
    decreases if s.attempt < Budget(c) then Budget(c) - s.attempt else 0
  {
    if s.attempt >= c.maxAttempts + s.rounds then Exhausted(s.attempt)
    else match Step(c, s, world(s.attempt, s.bank))
      case Continue(next) => Run(c, next, world)
      case done => done
  }

  // ----- the loop ------------------------------------------------------------------------

  method Grade(seen: set<string>, rejects: seq<string>) returns (feedback: seq<string>, now: set<string>)
    ensures feedback == Graded(seen, rejects) && now == seen + SetOf(rejects)
  {
    feedback, now := [], seen;
    for n := 0 to |rejects|
      invariant feedback == Graded(seen, rejects[..n]) && now == seen + SetOf(rejects[..n])
    {
      assert rejects[..n + 1] == rejects[..n] + [rejects[n]] && rejects[..n + 1][..n] == rejects[..n];
      if rejects[n] !in now { feedback := feedback + [rejects[n]]; }
      now := now + {rejects[n]};
    }
    assert rejects[..|rejects|] == rejects;
  }

  /** Two lists merged, the first one winning. */
  method Union(key: Entry -> string, a: seq<Entry>, b: seq<Entry>) returns (entries: seq<Entry>)
    ensures entries == Merged(key, a + b)
  {
    FlatOfTwo(a, b);
    var duplicates;
    entries, duplicates := MergeEntries(key, [a, b]);
  }

  lemma FlatOfTwo(a: seq<Entry>, b: seq<Entry>)
    ensures Flat([a, b]) == a + b
  {
    assert [a, b][..1] == [a] && [a][..0] == [];
    assert Flat([a]) == [] + a;
  }

  /** What a failed attempt still delivered joins the bank. */
  method Rebank(key: Entry -> string, bank: seq<Entry>, thinking: Trace, partial: Trace) returns (banked: seq<Entry>)
    ensures banked == BankPartial(key, BankThinking(key, bank, thinking), partial)
  {
    banked := bank;
    if thinking.Lines? { banked := Union(key, banked, thinking.entries); }
    if partial.Lines? { banked := Union(key, partial.entries, banked); }
  }

  lemma RunSteps(c: Config, s: State, world: World, o: Outcome)
    requires Within(c, s) && s.attempt < c.maxAttempts + s.rounds && Step(c, s, world(s.attempt, s.bank)) == o
    ensures o.Continue? ==> Within(c, o.next) && Run(c, s, world) == Run(c, o.next, world)
    ensures !o.Continue? ==> Run(c, s, world) == o
  {
  }

  /** An answer: reviewed, merged, graded, and then returned or shown its results. */
  method TakeReply(c: Config, s: State, claims: seq<Entry>, reviews: seq<Review>, rejects: seq<string>) returns (o: Outcome)
    ensures o == OnReply(c, s, claims, reviews, rejects)
  {
    var accepted := Union(c.key, ApplyReviews(s.bank, reviews), claims);
    var graded, seen := [], s.seen;
    if s.rounds < c.maxRounds { graded, seen := Grade(s.seen, rejects); }
    if graded == [] { return Answer(accepted, false, s.attempt + 1, s.rounds); }
    o := Continue(s.(attempt := s.attempt + 1, rounds := s.rounds + 1, bank := accepted, seen := seen, feedback := graded));
  }

  /** The catch block. */
  method TakeFailure(c: Config, s: State, f: Event) returns (o: Outcome)
    requires f.Failure?
    ensures o == OnFailure(c, s, f)
  {
    var attempt := s.attempt + 1;
    var lastPartial := if f.partial.Absent? then s.lastPartial else f.partial;
    var lastThinking := if f.thinking.Absent? then s.lastThinking else f.thinking;
    if lastThinking.Broken? || f.unprintable { return Lost(attempt); }
    var banked := Rebank(c.key, s.bank, lastThinking, f.partial);
    if !f.retryable || attempt >= c.maxAttempts {
      if lastPartial.Broken? { return Lost(attempt); }
      var verified := Union(c.key, Salvaged(lastPartial), banked);
      return if verified != [] then Answer(verified, true, attempt, s.rounds) else Throw(attempt);
    }
    o := Continue(s.(attempt := attempt, bank := banked, woken := f.loop, failures := s.failures + 1,
                     lastPartial := lastPartial, lastThinking := lastThinking));
  }

  method Observe(c: Config, world: World, seeds: seq<Entry>) returns (r: Outcome)
    ensures r == Run(c, Start(seeds), world)
  {
    var s := Start(seeds);
    while s.attempt < c.maxAttempts + s.rounds
      invariant Within(c, s) && Run(c, s, world) == Run(c, Start(seeds), world)
      decreases Budget(c) - s.attempt
    {
      var event := world(s.attempt, s.bank);
      var o;
      match event {
        case Reply(claims, reviews, rejects) => o := TakeReply(c, s, claims, reviews, rejects);
        case Failure(_, _, _, _, _) => o := TakeFailure(c, s, event);
      }
      RunSteps(c, s, world, o);
      if !o.Continue? { return o; }
      StepLeavesBudget(c, s, event);
      s := o.next;
    }
    r := Exhausted(s.attempt);
  }

  // ----- what no run can do -----------------------------------------------------------------

  function Calls(o: Outcome): nat {
    match o
    case Continue(next) => next.attempt
    case Answer(_, _, attempts, _) => attempts
    case Throw(attempts) => attempts
    case Lost(attempts) => attempts
    case Exhausted(attempts) => attempts
  }

  /** No run makes more than maxAttempts + maxRounds calls, nor uses more than maxRounds rounds. */
  lemma {:induction false} CallsAreBounded(c: Config, s: State, world: World)
    requires Within(c, s) && s.attempt <= Budget(c)
    ensures Calls(Run(c, s, world)) <= Budget(c)
    ensures Run(c, s, world).Answer? ==>
              Run(c, s, world).roundsUsed <= (if c.maxRounds > 0 then c.maxRounds else 0)
    decreases Budget(c) - s.attempt
  {
    if s.attempt < c.maxAttempts + s.rounds {
      match Step(c, s, world(s.attempt, s.bank))
      case Continue(next) => CallsAreBounded(c, next, world);
      case _ =>
    }
  }

  lemma StepLeavesBudget(c: Config, s: State, e: Event)
    requires s.attempt < c.maxAttempts + s.rounds
    ensures Step(c, s, e).Continue? ==>
              var next := Step(c, s, e).next;
              next.attempt < c.maxAttempts + next.rounds && next.attempt == s.attempt + 1
              && (Within(c, s) ==> Within(c, next))
  {
  }

  /** The run from s comes to t, in the loop and with an attempt left. */
  ghost predicate Reached(c: Config, s: State, world: World, t: State)
    requires Within(c, s)
    decreases if s.attempt < Budget(c) then Budget(c) - s.attempt else 0
  {
    s.attempt < c.maxAttempts + s.rounds &&
    (t == s || (var o := Step(c, s, world(s.attempt, s.bank)); o.Continue? && Reached(c, o.next, world, t)))
  }

  /** A run that has an attempt left ends in a step from a state it reaches: never behind the loop. */
  lemma {:induction false} LastStep(c: Config, s: State, world: World) returns (last: State)
    requires Within(c, s) && s.attempt < c.maxAttempts + s.rounds
    ensures Reached(c, s, world, last) && Step(c, last, world(last.attempt, last.bank)) == Run(c, s, world)
    decreases Budget(c) - s.attempt
  {
    match Step(c, s, world(s.attempt, s.bank))
    case Continue(next) =>
      StepLeavesBudget(c, s, world(s.attempt, s.bank));
      last := LastStep(c, next, world);
    case _ => last := s;
  }

  /** The throw behind the loop is reached only when no attempt is configured, and then at once. */
  lemma ExhaustedIffNoAttempts(c: Config, seeds: seq<Entry>, world: World)
    ensures Run(c, Start(seeds), world).Exhausted? <==> c.maxAttempts <= 0
    ensures Calls(Run(c, Start(seeds), world)) == 0 <==> c.maxAttempts <= 0
  {
    if c.maxAttempts > 0 { var last := LastStep(c, Start(seeds), world); }
  }

  // ----- no work is lost, and when it is ----------------------------------------------------------

  /** A reply loses the keys of the entries its reviews reject by number, and no others. */
  lemma ReplyKeepsUnrejected(c: Config, s: State, claims: seq<Entry>, reviews: seq<Review>, rejects: seq<string>, i: nat)
    requires i < |s.bank| && i + 1 !in Rejected(reviews)
    ensures var o := OnReply(c, s, claims, reviews, rejects);
            c.key(s.bank[i]) in Keys(c.key, if o.Continue? then o.next.bank else o.verified)
  {
    UnrejectedIff(s.bank, Rejected(reviews), s.bank[i]);
    var kept := ApplyReviews(s.bank, reviews);
    assert s.bank[i] in kept;
    KeysAppend(c.key, kept, claims);
    MergedKeepsKeys(c.key, kept + claims);
  }

  lemma BankingKeeps(key: Entry -> string, bank: seq<Entry>, thinking: Trace, partial: Trace)
    ensures Keys(key, bank) + Keys(key, Salvaged(thinking)) + Keys(key, Salvaged(partial))
         == Keys(key, BankPartial(key, BankThinking(key, bank, thinking), partial))
  {
    var once := BankThinking(key, bank, thinking);
    KeysAppend(key, bank, Salvaged(thinking));
    KeysAppend(key, Salvaged(partial), once);
    MergedKeepsKeys(key, bank + Salvaged(thinking));
    MergedKeepsKeys(key, Salvaged(partial) + once);
  }

  lemma NoKeysNoEntries(key: Entry -> string, entries: seq<Entry>)
    ensures entries == [] <==> Keys(key, entries) == {}
  {
    if entries != [] { assert key(entries[0]) in Keys(key, entries); }
  }

  /** Everything a failure has at hand: the bank, the thinking, and what was delivered. */
  function AtHand(c: Config, s: State, f: Event): set<string>
    requires f.Failure?
  {
    Keys(c.key, s.bank) + Keys(c.key, Salvaged(Latest(f.thinking, s.lastThinking))) + Keys(c.key, Salvaged(f.partial))
  }

  /**
   A failure keeps every key it has at hand, in the bank or in the answer the
   run ends with, unless something in the catch block throws; then all is lost.
   */
  lemma FailureKeepsBank(c: Config, s: State, f: Event)
    requires f.Failure?
    ensures OnFailure(c, s, f).Lost? <==> Breaks(c, s, f)
    ensures match OnFailure(c, s, f)
            case Continue(next) => AtHand(c, s, f) == Keys(c.key, next.bank)
            case Answer(verified, _, _, _) =>
              Keys(c.key, verified) == AtHand(c, s, f) + Keys(c.key, Salvaged(Latest(f.partial, s.lastPartial)))
            case Throw(_) => AtHand(c, s, f) == {} && s.bank == [] && Salvaged(Latest(f.partial, s.lastPartial)) == []
            case Lost(_) => true
  {
    var content := Salvaged(Latest(f.partial, s.lastPartial));
    BankingKeeps(c.key, s.bank, Latest(f.thinking, s.lastThinking), f.partial);
    KeysAppend(c.key, content, Rebanked(c, s, f));
    MergedKeepsKeys(c.key, content + Rebanked(c, s, f));
    NoKeysNoEntries(c.key, Salvage(c, s, f));
    NoKeysNoEntries(c.key, s.bank);
    NoKeysNoEntries(c.key, content);
  }

  /** An event that rejects none of the entries banked under this key. */
  ghost predicate Spares(key: Entry -> string, s: State, e: Event, k: string) {
    e.Reply? ==> forall i :: 0 <= i < |s.bank| && key(s.bank[i]) == k ==> i + 1 !in Rejected(e.reviews)
  }

  /** A key survives any event that neither rejects it by number nor breaks the catch block. */
  lemma StepKeepsKey(c: Config, s: State, e: Event, k: string)
    requires k in Keys(c.key, s.bank) && Spares(c.key, s, e, k)
    ensures match Step(c, s, e)
            case Continue(next) => k in Keys(c.key, next.bank)
            case Answer(verified, _, _, _) => k in Keys(c.key, verified)
            case Throw(_) => false
            case Lost(_) => Breaks(c, s, e)
    ensures Step(c, s, e).Lost? <==> Breaks(c, s, e)
  {
    match e
    case Reply(claims, reviews, rejects) =>
      var i := IndexOfKey(c.key, s.bank, k);
      ReplyKeepsUnrejected(c, s, claims, reviews, rejects, i);
    case Failure(_, _, _, _, _) => FailureKeepsBank(c, s, e);
  }

  lemma IndexOfKey(key: Entry -> string, entries: seq<Entry>, k: string) returns (i: nat)
    requires k in Keys(key, entries)
    ensures i < |entries| && key(entries[i]) == k
  {
    var e :| e in entries && key(e) == k;
    i :| i < |entries| && entries[i] == e;
  }

  /** No event of this run rejects an entry under this key. */
  ghost predicate NeverRejected(c: Config, s: State, world: World, k: string)
    requires Within(c, s)
    decreases if s.attempt < Budget(c) then Budget(c) - s.attempt else 0
  {
    s.attempt < c.maxAttempts + s.rounds ==>
      var e := world(s.attempt, s.bank);
      Spares(c.key, s, e, k) && (Step(c, s, e).Continue? ==> NeverRejected(c, Step(c, s, e).next, world, k))
  }

  /** No event of this run makes the catch block throw. */
  ghost predicate NeverBreaks(c: Config, s: State, world: World)
    requires Within(c, s)
    decreases if s.attempt < Budget(c) then Budget(c) - s.attempt else 0
  {
    s.attempt < c.maxAttempts + s.rounds ==>
      var e := world(s.attempt, s.bank);
      !Breaks(c, s, e) && (Step(c, s, e).Continue? ==> NeverBreaks(c, Step(c, s, e).next, world))
  }

  /**
   Exactly when work is kept: a key once banked, and never rejected by its
   number, is in the answer the run ends with if and only if no failure of the
   run breaks the catch block. Otherwise the run throws and the bank is lost.
   */
  lemma {:induction false} BankedIsAnswered(c: Config, s: State, world: World, k: string)
    requires Within(c, s) && s.attempt < c.maxAttempts + s.rounds
    requires k in Keys(c.key, s.bank) && NeverRejected(c, s, world, k)
    ensures Run(c, s, world).Answer? || Run(c, s, world).Lost?
    ensures Run(c, s, world).Answer? <==> NeverBreaks(c, s, world)
    ensures Run(c, s, world).Answer? ==> k in Keys(c.key, Run(c, s, world).verified)
    decreases Budget(c) - s.attempt
  {
    var e := world(s.attempt, s.bank);
    StepKeepsKey(c, s, e, k);
    match Step(c, s, e)
    case Continue(next) =>
      StepLeavesBudget(c, s, e);
      BankedIsAnswered(c, next, world, k);
    case _ =>
  }

  /**
   A throw that no breakage explains comes from a state of the run that leaves
   nothing behind: no claim banked, none thought, none delivered.
   */
  lemma ThrowsEmptyHanded(c: Config, s: State, world: World) returns (last: State)
    requires Within(c, s) && Run(c, s, world).Throw?
    ensures Reached(c, s, world, last)
    ensures var f := world(last.attempt, last.bank);
            f.Failure? && OnFailure(c, last, f) == Run(c, s, world) && !Breaks(c, last, f) && last.bank == []
            && AtHand(c, last, f) == {} && Salvaged(Latest(f.partial, last.lastPartial)) == []
  {
    last := LastStep(c, s, world);
    FailureKeepsBank(c, last, world(last.attempt, last.bank));
  }

  // ----- only what passed the gates -----------------------------------------------------------

  predicate All(ok: Entry -> bool, entries: seq<Entry>) {
    forall e <- entries :: ok(e)
  }

  predicate SoundEvent(ok: Entry -> bool, e: Event) {
    match e
    case Reply(claims, _, _) => All(ok, claims)
    case Failure(_, _, partial, thinking, _) => All(ok, Salvaged(partial)) && All(ok, Salvaged(thinking))
  }

  predicate SoundState(ok: Entry -> bool, s: State) {
    All(ok, s.bank) && All(ok, Salvaged(s.lastPartial)) && All(ok, Salvaged(s.lastThinking))
  }

  lemma MergedKeepsSound(key: Entry -> string, ok: Entry -> bool, a: seq<Entry>, b: seq<Entry>)
    requires All(ok, a) && All(ok, b)
    ensures All(ok, Merged(key, a + b))
  {
    MergedKeepsKeys(key, a + b);
  }

  lemma StepKeepsSound(c: Config, ok: Entry -> bool, s: State, e: Event)
    requires SoundState(ok, s) && SoundEvent(ok, e)
    ensures match Step(c, s, e)
            case Continue(next) => SoundState(ok, next)
            case Answer(verified, _, _, _) => All(ok, verified)
            case _ => true
  {
    match e
    case Reply(claims, reviews, rejects) =>
      var kept := ApplyReviews(s.bank, reviews);
      forall x <- kept ensures ok(x) { UnrejectedIff(s.bank, Rejected(reviews), x); }
      MergedKeepsSound(c.key, ok, kept, claims);
    case Failure(_, _, partial, thinking, _) =>
      var thought := Salvaged(Latest(thinking, s.lastThinking));
      MergedKeepsSound(c.key, ok, s.bank, thought);
      var once := BankThinking(c.key, s.bank, Latest(thinking, s.lastThinking));
      MergedKeepsSound(c.key, ok, Salvaged(partial), once);
      MergedKeepsSound(c.key, ok, Salvaged(Latest(partial, s.lastPartial)), Rebanked(c, s, e));
  }

  /** Every returned claim is as good as the seeds and everything the world brings. */
  lemma {:induction false} AnswersAreSound(c: Config, ok: Entry -> bool, s: State, world: World)
    requires Within(c, s) && SoundState(ok, s) && forall n, bank :: SoundEvent(ok, world(n, bank))
    ensures Run(c, s, world).Answer? ==> All(ok, Run(c, s, world).verified)
    decreases if s.attempt < Budget(c) then Budget(c) - s.attempt else 0
  {
    if s.attempt < c.maxAttempts + s.rounds {
      StepKeepsSound(c, ok, s, world(s.attempt, s.bank));
      match Step(c, s, world(s.attempt, s.bank))
      case Continue(next) => AnswersAreSound(c, ok, next, world);
      case _ =>
    }
  }

  // ----- what the comments promise and the code does ------------------------------------------

  /** Every call so far was a graded round or a failure that was survived. */
  predicate Tallied(s: State) {
    s.attempt == s.rounds + s.failures
  }

  lemma {:induction false} ReachedIsTallied(c: Config, s: State, world: World, t: State)
    requires Within(c, s) && Tallied(s) && Reached(c, s, world, t)
    ensures Tallied(t) && Within(c, t) && t.attempt < c.maxAttempts + t.rounds
    decreases if s.attempt < Budget(c) then Budget(c) - s.attempt else 0
  {
    if t != s {
      StepLeavesBudget(c, s, world(s.attempt, s.bank));
      ReachedIsTallied(c, Step(c, s, world(s.attempt, s.bank)).next, world, t);
    }
  }

  /**
   Each graded round costs a retry. In every state of every run the calls made
   are its rounds and its survived failures together, and a retryable failure
   ends the run there exactly when the two of them and itself use up the
   attempts, though every round was to extend them.
   */
  lemma RoundsSpendRetries(c: Config, seeds: seq<Entry>, world: World, t: State)
    requires Reached(c, Start(seeds), world, t)
    ensures t.attempt == t.rounds + t.failures
    ensures var f := world(t.attempt, t.bank);
            f.Failure? && f.retryable && !Breaks(c, t, f) ==>
              (!Step(c, t, f).Continue? <==> t.rounds + t.failures + 1 >= c.maxAttempts)
  {
    ReachedIsTallied(c, Start(seeds), world, t);
  }

  /** If failures alone were counted, a retry would be left. */
  predicate RetryDue(c: Config, t: State) {
    t.failures + 1 < c.maxAttempts
  }

  /** So a failure is denied a retry it was due exactly when the rounds before it make up the difference. */
  lemma RetryIsDeniedIff(c: Config, seeds: seq<Entry>, world: World, t: State)
    requires Reached(c, Start(seeds), world, t)
    requires var f := world(t.attempt, t.bank); f.Failure? && f.retryable && !Breaks(c, t, f)
    ensures var f := world(t.attempt, t.bank);
            && (Step(c, t, f).Continue? ==> RetryDue(c, t))
            && (RetryDue(c, t) && !Step(c, t, f).Continue? <==> 0 < c.maxAttempts - (t.failures + 1) <= t.rounds)
  {
    RoundsSpendRetries(c, seeds, world, t);
  }

  /**
   The smallest case of it. Two attempts and a round make three calls, but a
   first answer that is graded leaves no retry for the failure after it, where
   that failure alone would have had one.
   */
  lemma RoundCostsARetry(c: Config, seeds: seq<Entry>, world: World)
    requires c.maxAttempts == 2 && c.maxRounds >= 1
    requires forall bank :: world(0, bank).Reply? && world(0, bank).rejects != []
    requires forall bank :: world(1, bank).Failure? && world(1, bank).retryable
    requires !Breaks(c, Start(seeds), world(1, seeds))
    ensures Calls(Run(c, Start(seeds), world)) == 2 < Budget(c)
    ensures Step(c, Start(seeds), world(1, seeds)).Continue?
  {
    var e := world(0, seeds);
    FirstIsGraded({}, e.rejects);
    var o := OnReply(c, Start(seeds), e.claims, e.reviews, e.rejects);
    assert o.Continue? && o.next.attempt == 1 && o.next.rounds == 1;
    RunSteps(c, Start(seeds), world, o);
    RunSteps(c, o.next, world, Step(c, o.next, world(1, o.next.bank)));
  }

  /** A line is shown the first time it is graded, never again, and once in its round. */
  lemma {:induction false} GradedOnce(seen: set<string>, rejects: seq<string>, line: string)
    ensures line in Graded(seen, rejects) <==> line in rejects && line !in seen
    ensures forall i, j :: 0 <= i < j < |Graded(seen, rejects)| ==> Graded(seen, rejects)[i] != Graded(seen, rejects)[j]
  {
    if rejects != [] {
      var n := |rejects| - 1;
      GradedOnce(seen, rejects[..n], line);
      GradedOnce(seen, rejects[..n], rejects[n]);
      assert rejects == rejects[..n] + [rejects[n]];
    }
  }

  lemma FirstIsGraded(seen: set<string>, rejects: seq<string>)
    requires rejects != [] && rejects[0] !in seen
    ensures Graded(seen, rejects) != []
  {
    GradedOnce(seen, rejects, rejects[0]);
    assert rejects[0] in Graded(seen, rejects);
  }

  /** What a failed attempt once thought is banked again at every later failure, rejected or not. */
  lemma ThinkingComesBack(c: Config, s: State, f: Event, k: string)
    requires f.Failure? && f.thinking.Absent? && k in Keys(c.key, Salvaged(s.lastThinking))
    ensures match OnFailure(c, s, f)
            case Continue(next) => k in Keys(c.key, next.bank)
            case Answer(verified, _, _, _) => k in Keys(c.key, verified)
            case Throw(_) => false
            case Lost(_) => Breaks(c, s, f)
  {
    FailureKeepsBank(c, s, f);
  }

  /** So a claim the model rejected in a graded round returns with the next failure. */
  lemma RejectedComesBack(c: Config, s: State, claims: seq<Entry>, reviews: seq<Review>, rejects: seq<string>, f: Event, k: string)
    requires k in Keys(c.key, Salvaged(s.lastThinking)) && OnReply(c, s, claims, reviews, rejects).Continue?
    requires k !in Keys(c.key, OnReply(c, s, claims, reviews, rejects).next.bank)
    requires f.Failure? && f.thinking.Absent? && !Breaks(c, OnReply(c, s, claims, reviews, rejects).next, f)
    ensures match OnFailure(c, OnReply(c, s, claims, reviews, rejects).next, f)
            case Continue(next) => k in Keys(c.key, next.bank)
            case Answer(verified, _, _, _) => k in Keys(c.key, verified)
            case _ => false
  {
    ThinkingComesBack(c, OnReply(c, s, claims, reviews, rejects).next, f, k);
  }

  // ----- what the next attempt is shown -----------------------------------------------------------

  datatype Prompt = WakeUp(shown: seq<Entry>) | Results(shown: seq<Entry>, rejected: seq<string>) | Opening

  function PromptOf(s: State): Prompt {
    if s.woken then WakeUp(s.bank)
    else if s.feedback != [] then Results(s.bank, s.feedback)
    else if s.bank != [] then Results(s.bank, [])
    else Opening
  }

  /** The numbered lines of a prompt, the first being line one. */
  function Printed(wire: Entry -> string, p: Prompt): seq<string> {
    match p
    case WakeUp(shown) => seq(|shown|, i requires 0 <= i < |shown| => wire(shown[i]))
    case Results(shown, _) => seq(|shown|, i requires 0 <= i < |shown| => wire(shown[i]))
    case Opening => []
  }

  lemma StepKeepsDistinct(c: Config, s: State, e: Event)
    requires DistinctKeys(c.key, s.bank) && Step(c, s, e).Continue?
    ensures DistinctKeys(c.key, Step(c, s, e).next.bank)
  {
    match e
    case Reply(claims, reviews, _) => MergedKeepsKeys(c.key, ApplyReviews(s.bank, reviews) + claims);
    case Failure(_, _, partial, thinking, _) =>
      var once := BankThinking(c.key, s.bank, Latest(thinking, s.lastThinking));
      MergedKeepsKeys(c.key, s.bank + Salvaged(Latest(thinking, s.lastThinking)));
      MergedKeepsKeys(c.key, Salvaged(partial) + once);
  }

  lemma KeptIffUnrejected(key: Entry -> string, bank: seq<Entry>, numbers: set<int>, i: nat)
    requires DistinctKeys(key, bank) && i < |bank|
    ensures key(bank[i]) in Keys(key, Unrejected(bank, numbers)) <==> i + 1 !in numbers
  {
    var kept := Unrejected(bank, numbers);
    UnrejectedIff(bank, numbers, bank[i]);
    if key(bank[i]) in Keys(key, kept) {
      var e :| e in kept && key(e) == key(bank[i]);
      UnrejectedIff(bank, numbers, e);
      var j :| 0 <= j < |bank| && bank[j] == e && j + 1 !in numbers;
      assert j == i;
    }
  }

  /**
   A review means what its reader saw: whatever the previous step was, line n
   of the prompt it led to prints the n-th banked entry, and a review of that
   prompt takes exactly the entries off whose lines it rejects.
   */
  lemma ReviewsNameWhatWasPrinted(c: Config, wire: Entry -> string, before: State, e: Event, reviews: seq<Review>, n: nat)
    requires DistinctKeys(c.key, before.bank) && Step(c, before, e).Continue?
    requires 1 <= n <= |Step(c, before, e).next.bank|
    ensures var s := Step(c, before, e).next;
            var lines := Printed(wire, PromptOf(s));
            && |lines| == |s.bank| && lines[n - 1] == wire(s.bank[n - 1])
            && (c.key(s.bank[n - 1]) in Keys(c.key, ApplyReviews(s.bank, reviews)) <==> n !in Rejected(reviews))
  {
    var s := Step(c, before, e).next;
    StepKeepsDistinct(c, before, e);
    KeptIffUnrejected(c.key, s.bank, Rejected(reviews), n - 1);
  }

  /** A round graded after a loop is not shown its results: the prompt is still the wake-up. */
  lemma LoopHidesResults(c: Config, s: State, f: Event, claims: seq<Entry>, reviews: seq<Review>, rejects: seq<string>)
    requires f.Failure? && f.loop && OnFailure(c, s, f).Continue?
    requires OnReply(c, OnFailure(c, s, f).next, claims, reviews, rejects).Continue?
    ensures var next := OnReply(c, OnFailure(c, s, f).next, claims, reviews, rejects).next;
            PromptOf(next).WakeUp? && next.feedback != []
  {
  }
}
