/**
 From what a model sends to the events of the observation loop: claim lines,
 source ids, and both gates. JavaScript's own conversions can throw, and so can
 a line whose kind is a name that every object inherits.
 */
module Harvest {
  import opened Text
  import opened Schema
  import opened Provider
  import Spans
  import Blocks
  import Manifest

  /** What an attempt is judged by; `alias` resolves the ids a model was shown. */
  datatype Gates = Gates(
    js: Script, alphabet: Spans.Alphabet, sources: map<string, string>, provided: set<string>,
    alias: string -> Option<string>, bare: string -> Option<Review>, parse: string -> Option<Json>,
    show: Json -> string, wire: (Group, Claim) -> string, name: Code -> string)

  // ----- one claim per line ------------------------------------------------------------------------

  datatype LineCode = InvalidJsonLine | BadLine | BadReview | UnknownClaimKind

  /** What one line is: blank, the empty object, a verdict, a claim of a group, a casualty, or one that throws. */
  datatype Reading =
    | Blank | Nothing | Verdict(review: Review) | ClaimLine(group: Group, rest: Json) | Casualty(code: LineCode) | Fatal

  function LineGroup(kind: string): Option<Group> {
    if kind == "entity" then Some(Entities)
    else if kind == "intent" then Some(Intents)
    else if kind == "relationship" then Some(Relationships)
    else if kind == "disclosure" then Some(Disclosures)
    else if kind == "proposal" then Some(Proposals)
    else None
  }

  /** The lower-case names a plain object inherits: looked up, they name something that is no group. */
  predicate Inherited(kind: string) {
    kind == "constructor" || kind == "__proto__"
  }

  function WholeNumber(n: Numeric): Option<int> {
    if n.Finite? && n.n == n.n.Floor as real then Some(n.n.Floor) else None
  }

  function ReadReview(js: Script, kind: string, n: Json): Reading {
    if js.toNumber(n).Throws? then Fatal
    else
      var whole := WholeNumber(js.toNumber(n));
      if whole.Some? && whole.value > 0 then Verdict(Review(kind == "reject", whole.value)) else Casualty(BadReview)
  }

  function ReadClaim(js: Script, claim: Json): Reading
    requires claim.Obj?
  {
    match TextOf(js, Field(claim, "claim"))
    case Err(_) => Fatal
    case Ok(text) =>
      var kind := js.lower(text);
      if kind == "approve" || kind == "reject" then ReadReview(js, kind, Field(claim, "n"))
      else match LineGroup(kind)
        case Some(g) => ClaimLine(g, Obj(claim.fields - {"claim"}))
        case None => if Inherited(kind) then Fatal else Casualty(UnknownClaimKind)
  }

  /** `bare` reads "APPROVE 12" and "REJECT 12"; `parse` is JSON's own. */
  function ReadLine(G: Gates, line: string): Reading {
    var trimmed := G.js.trim(line);
    if trimmed == "" then Blank
    else if G.bare(trimmed).Some? then Verdict(G.bare(trimmed).value)
    else match G.parse(trimmed)
      case None => Casualty(InvalidJsonLine)
      case Some(claim) =>
        if !claim.Obj? then Casualty(BadLine)
        else if claim.fields == map[] then Nothing
        else ReadClaim(G.js, claim)
  }

  function Reader(G: Gates): string -> Reading {
    line => ReadLine(G, line)
  }

  function ClaimsOf(readings: seq<Reading>, g: Group): seq<Json> {
    if readings == [] then []
    else
      var n := |readings| - 1;
      ClaimsOf(readings[..n], g)
      + if readings[n].ClaimLine? && readings[n].group == g then [readings[n].rest] else []
  }

  function VerdictsOf(readings: seq<Reading>): seq<Review> {
    if readings == [] then []
    else
      var n := |readings| - 1;
      VerdictsOf(readings[..n]) + if readings[n].Verdict? then [readings[n].review] else []
  }

  function CasualtiesOf(readings: seq<Reading>): seq<(nat, LineCode)> {
    if readings == [] then []
    else
      var n := |readings| - 1;
      CasualtiesOf(readings[..n]) + if readings[n].Casualty? then [(n, readings[n].code)] else []
  }

  /** Lines that say nothing: blank ones, and empty objects. */
  function Idles(readings: seq<Reading>): nat {
    if readings == [] then 0
    else
      var last := readings[|readings| - 1];
      Idles(readings[..|readings| - 1]) + if last.Blank? || last.Nothing? then 1 else 0
  }

  /** Whether any line was read at all. */
  predicate ParsedAny(readings: seq<Reading>) {
    readings != [] &&
    var last := readings[|readings| - 1];
    ParsedAny(readings[..|readings| - 1]) || last.Nothing? || last.Verdict? || last.ClaimLine?
  }

  predicate AnyFatal(readings: seq<Reading>) {
    exists r <- readings :: r.Fatal?
  }

  function Readings(read: string -> Reading, lines: seq<string>): (r: seq<Reading>)
    ensures |r| == |lines| && forall i :: 0 <= i < |lines| ==> r[i] == read(lines[i])
  {
    seq(|lines|, i requires 0 <= i < |lines| => read(lines[i]))
  }

  datatype Harvested = Harvested(raw: map<Group, seq<Json>>, malformed: seq<(nat, LineCode)>, reviews: seq<Review>, parsedAny: bool)

  /** What lines that do not throw are read as. */
  ghost predicate Reads(h: Harvested, readings: seq<Reading>) {
    && (forall g :: g in h.raw && h.raw[g] == ClaimsOf(readings, g))
    && h.malformed == CasualtiesOf(readings) && h.reviews == VerdictsOf(readings) && h.parsedAny == ParsedAny(readings)
  }

  /** What line n, read as r, adds. */
  function Grown(h: Harvested, n: nat, r: Reading): Harvested
    requires forall g :: g in h.raw
  {
    match r
    case Nothing => h.(parsedAny := true)
    case Verdict(review) => h.(reviews := h.reviews + [review], parsedAny := true)
    case ClaimLine(g, rest) => h.(raw := h.raw[g := h.raw[g] + [rest]], parsedAny := true)
    case Casualty(code) => h.(malformed := h.malformed + [(n, code)])
    case _ => h
  }

  lemma ReadsOneMore(h: Harvested, readings: seq<Reading>, r: Reading)
    requires Reads(h, readings)
    ensures Reads(Grown(h, |readings|, r), readings + [r])
  {
    assert (readings + [r])[..|readings|] == readings;
  }

  const NoClaim: map<Group, seq<Json>> := map[Entities := [], Intents := [], Relationships := [], Disclosures := [], Proposals := []]

  lemma ReadsNothing()
    ensures Reads(Harvested(NoClaim, [], [], false), [])
  {
    forall g ensures g in NoClaim && NoClaim[g] == [] { EveryGroup(g); }
  }

  lemma FatalAt(readings: seq<Reading>, n: nat)
    requires n < |readings| && readings[n].Fatal?
    ensures AnyFatal(readings)
  {
  }

  /** The loop over lines; `read` is `Reader`. The first line that throws takes everything with it. */
  method EnvelopeFromLines(read: string -> Reading, lines: seq<string>) returns (r: Option<Harvested>)
    ensures r.None? <==> AnyFatal(Readings(read, lines))
    ensures r.Some? ==> Reads(r.value, Readings(read, lines))
  {
    ghost var all := Readings(read, lines);
    var h := Harvested(NoClaim, [], [], false);
    ReadsNothing();
    for n := 0 to |lines|
      invariant Reads(h, all[..n]) && forall i :: 0 <= i < n ==> !all[i].Fatal?
    {
      var line := read(lines[n]);
      if line.Fatal? {
        FatalAt(all, n);
        return None;
      }
      assert all[..n + 1] == all[..n] + [line];
      ReadsOneMore(h, all[..n], line);
      h := Grown(h, n, line);
    }
    assert all[..|lines|] == all;
    r := Some(h);
  }

  /** Where no line throws, every line is accounted for once. */
  lemma {:induction false} LinesAccount(readings: seq<Reading>)
    requires !AnyFatal(readings)
    ensures |readings| == Idles(readings) + |VerdictsOf(readings)| + |CasualtiesOf(readings)|
                          + |ClaimsOf(readings, Entities)| + |ClaimsOf(readings, Intents)|
                          + |ClaimsOf(readings, Relationships)| + |ClaimsOf(readings, Disclosures)|
                          + |ClaimsOf(readings, Proposals)|
  {
    if readings != [] {
      assert readings[|readings| - 1] in readings;
      LinesAccount(readings[..|readings| - 1]);
    }
  }

  lemma {:induction false} ClaimsAppend(a: seq<Reading>, b: seq<Reading>, g: Group)
    ensures ClaimsOf(a + b, g) == ClaimsOf(a, g) + ClaimsOf(b, g)
    ensures VerdictsOf(a + b) == VerdictsOf(a) + VerdictsOf(b)
  {
    if b == [] {
      assert a + b == a;
    } else {
      assert (a + b)[..|a + b| - 1] == a + b[..|b| - 1];
      ClaimsAppend(a, b[..|b| - 1], g);
    }
  }

  /** A line costs only itself exactly when it does not throw; a failed one then changes nothing else. */
  lemma LineCostsItself(before: seq<Reading>, line: Reading, after: seq<Reading>, g: Group)
    ensures AnyFatal(before + [line] + after) <==> line.Fatal? || AnyFatal(before + after)
    ensures line.Casualty? ==> ClaimsOf(before + [line] + after, g) == ClaimsOf(before + after, g)
    ensures line.Casualty? ==> VerdictsOf(before + [line] + after) == VerdictsOf(before + after)
  {
    ClaimsAppend(before + [line], after, g);
    ClaimsAppend(before, [line], g);
    ClaimsAppend(before, after, g);
    assert [line][..0] == [];
    var all := before + [line] + after;
    assert line in [line];
    assert forall r :: r in all <==> r == line || r in before + after;
  }

  // ----- source ids ----------------------------------------------------------------------------------

  /** Where a claim names its source. */
  function SourceField(claim: Json): Option<string> {
    if !claim.Obj? then None
    else if "source_id" in claim.fields then Some("source_id")
    else if "sourceId" in claim.fields then Some("sourceId")
    else None
  }

  /** A source id that `String` cannot convert. */
  predicate IdThrows(js: Script, claim: Json) {
    SourceField(claim).Some? && js.toText(Field(claim, SourceField(claim).value)).None?
  }

  function Resolved(G: Gates, id: Json): Json {
    match G.js.toText(id)
    case None => id
    case Some(text) => if G.alias(text).Some? then Str(G.alias(text).value) else id
  }

  function CanonicalClaim(G: Gates, claim: Json): Json {
    match SourceField(claim)
    case None => claim
    case Some(field) => Obj(claim.fields[field := Resolved(G, claim.fields[field])])
  }

  function Each(f: Json -> Json, items: seq<Json>): seq<Json> {
    seq(|items|, i requires 0 <= i < |items| => f(items[i]))
  }

  function CanonicalField(G: Gates, name: string, value: Json): Json {
    if !value.Arr? then value
    else if name == "evidence_refs" then Arr(Each(id => Resolved(G, id), value.items))
    else if exists g <- GROUPS :: name == GroupName(g) then Arr(Each(claim => CanonicalClaim(G, claim), value.items))
    else value
  }

  /** `canonicalizeSourceIds`, where nothing throws. */
  function Canonical(G: Gates, raw: Json): Json {
    if raw.Obj? then Obj(map name | name in raw.fields :: CanonicalField(G, name, raw.fields[name])) else raw
  }

  /** Where it throws: on a claim's source id, or on an evidence ref. */
  predicate IdsThrow(js: Script, raw: Json) {
    raw.Obj? && ((exists g <- GROUPS, claim <- RawOf(raw, g) :: IdThrows(js, claim)) || !RefsConvert(js, raw))
  }

  // ----- through both gates ------------------------------------------------------------------------------

  /** What is left of a group after the shape check, the reference check and the grounding check. */
  function Verified(G: Gates, raw: Json, provided: set<string>): Group -> seq<Claim> {
    g => Kept(Grounding(G.alphabet, Spans.Norm(G.alphabet), G.sources, g), Survivors(G.js, raw, provided, g))
  }

  function Flattened(groups: seq<Group>, claims: Group -> seq<Claim>): seq<Entry> {
    if groups == [] then []
    else
      var n := |groups| - 1;
      Flattened(groups[..n], claims) + Entries(groups[n], claims(groups[n]))
  }

  function Entries(g: Group, claims: seq<Claim>): (r: seq<Entry>)
    ensures |r| == |claims| && forall i :: 0 <= i < |claims| ==> r[i] == Entry(g, claims[i])
  {
    seq(|claims|, i requires 0 <= i < |claims| => Entry(g, claims[i]))
  }

  function Accepted(G: Gates, raw: Json, provided: set<string>): seq<Entry> {
    Flattened(GROUPS, Verified(G, raw, provided))
  }

  /** The refs of the entities held in the bank: a reply may speak of them. */
  function BankRefs(bank: seq<Entry>): set<string> {
    set e <- bank | e.group == Entities && e.claim.Entity? :: e.claim.ref
  }

  /** How a rejection of the shape check is graded: the raw claim is looked up by the index it carries. */
  function ShapeShown(G: Gates, raw: Json, r: Rejection): seq<string> {
    var items := RawOf(raw, r.group);
    if r.index < |items| && (items[r.index].Obj? || items[r.index].Arr?)
    then [G.name(r.code) + "|" + G.show(items[r.index])] else []
  }

  function GroundShown(G: Gates, claims: Group -> seq<Claim>, r: Rejection): seq<string> {
    if r.index < |claims(r.group)| then [G.name(r.code) + "|" + G.wire(r.group, claims(r.group)[r.index])] else []
  }

  function FlatMap<T>(f: T -> seq<string>, items: seq<T>): seq<string> {
    if items == [] then [] else FlatMap(f, items[..|items| - 1]) + f(items[|items| - 1])
  }

  function Grounder(G: Gates): Group -> Claim -> Checked<Claim> {
    g => Grounding(G.alphabet, Spans.Norm(G.alphabet), G.sources, g)
  }

  function Survivor(G: Gates, raw: Json, provided: set<string>): Group -> seq<Claim> {
    g => Survivors(G.js, raw, provided, g)
  }

  function Shown(G: Gates, raw: Json, provided: set<string>): seq<string> {
    var survivors := Survivor(G, raw, provided);
    FlatMap(r => ShapeShown(G, raw, r), FirstLost(G.js, raw, provided))
    + FlatMap(r => GroundShown(G, survivors, r), Tally(GROUPS, LostBy(Grounder(G), survivors)))
  }

  // ----- what an attempt brings ------------------------------------------------------------------------------

  /** Text of a failed attempt: none, none with claim lines in it, or these lines. */
  datatype Delivered = NoText | NoClaims | Content(lines: seq<string>)

  /**
   What comes back: an answer some reader made JSON of, or an error.
   `complaint` is what a protocol or schema error says.
   */
  datatype Message =
    | Answered(raw: Json, reviews: seq<Review>)
    | Failed(retryable: bool, loop: bool, partial: Delivered, thinking: Delivered, complaint: Option<string>)

  function Envelope(readings: seq<Reading>): Json {
    Obj(map["entities" := Arr(ClaimsOf(readings, Entities)), "intents" := Arr(ClaimsOf(readings, Intents)),
            "relationships" := Arr(ClaimsOf(readings, Relationships)),
            "disclosures" := Arr(ClaimsOf(readings, Disclosures)), "proposals" := Arr(ClaimsOf(readings, Proposals))])
  }

  /** An envelope made of lines, through both gates. */
  function Gated(G: Gates, raw: Json): Trace {
    if IdsThrow(G.js, raw) then Broken else Lines(Accepted(G, Canonical(G, raw), G.provided))
  }

  function HarvestOf(G: Gates, d: Delivered): Trace {
    match d
    case NoText => Absent
    case NoClaims => Unreadable
    case Content(lines) =>
      var readings := Readings(Reader(G), lines);
      if AnyFatal(readings) then Broken
      else if !ParsedAny(readings) then Unreadable
      else Gated(G, Envelope(readings))
  }

  /** The text without its sentinel brackets, in one pass from the left. */
  function Stripped(s: string): string {
    if s == "" then ""
    else if "<<<" <= s || ">>>" <= s then Stripped(s[3..])
    else [s[0]] + Stripped(s[1..])
  }

  /** What the note to the next attempt quotes; the fixed text around it holds no bracket. */
  function Said(complaint: string): string {
    var said := Stripped(complaint);
    if |said| <= 400 then said else said[..400]
  }

  /** The note is refused for a sentinel token in what it quotes. */
  predicate Unprintable(complaint: Option<string>) {
    complaint.Some? && Blocks.HasToken(Said(complaint.value))
  }

  predicate Shapely(raw: Json) {
    raw.Obj? && forall g <- GROUPS :: ShapedAt(raw, g)
  }

  /** What the loop makes of a message, given the bank. */
  function EventOf(G: Gates, m: Message, bank: seq<Entry>): Event {
    match m
    case Answered(raw, reviews) =>
      if IdsThrow(G.js, raw) then Failure(false, false, Absent, Absent, false)
      else
        var canonical := Canonical(G, raw);
        if !Shapely(canonical) then Failure(true, false, Absent, Absent, false)
        else
          var provided := G.provided + BankRefs(bank);
          Reply(Accepted(G, canonical, provided), reviews, Shown(G, canonical, provided))
    case Failed(retryable, loop, partial, thinking, complaint) =>
      Failure(retryable, loop, HarvestOf(G, partial), HarvestOf(G, thinking), Unprintable(complaint))
  }

  /** The world in which attempt n brings the n-th message. */
  function WorldOf(G: Gates, messages: nat -> Message): World {
    (n: nat, bank: seq<Entry>) => EventOf(G, messages(n), bank)
  }

  // ----- exactly which lines break a harvest -----------------------------------------------------------------

  /** A line on which reading throws, or whose source id cannot be made a text. */
  predicate Breaking(G: Gates, line: string) {
    var r := ReadLine(G, line);
    r.Fatal? || (r.ClaimLine? && IdThrows(G.js, r.rest))
  }

  lemma {:induction false} InClaimsOf(readings: seq<Reading>, g: Group, rest: Json)
    ensures rest in ClaimsOf(readings, g) <==> ClaimLine(g, rest) in readings
    ensures ClaimLine(g, rest) in readings ==> ParsedAny(readings)
  {
    if readings != [] {
      var n := |readings| - 1;
      InClaimsOf(readings[..n], g, rest);
      assert readings == readings[..n] + [readings[n]];
    }
  }

  /** An object with these members under the names of the groups. */
  lemma GroupFields(a: Json, b: Json, c: Json, d: Json, e: Json)
    ensures var m := map["entities" := a, "intents" := b, "relationships" := c, "disclosures" := d, "proposals" := e];
            && m["entities"] == a && m["intents"] == b && m["relationships"] == c && m["disclosures"] == d
            && m["proposals"] == e && "evidence_refs" !in m
  {
    assert |"entities"| == 8 && |"intents"| == 7 && |"relationships"| == 13 && |"disclosures"| == 11;
    assert |"proposals"| == 9 && |"evidence_refs"| == 13 && "evidence_refs"[0] != "relationships"[0];
  }

  lemma EnvelopeHolds(js: Script, readings: seq<Reading>, g: Group)
    ensures RawOf(Envelope(readings), g) == ClaimsOf(readings, g) && RefsConvert(js, Envelope(readings))
  {
    GroupFields(Arr(ClaimsOf(readings, Entities)), Arr(ClaimsOf(readings, Intents)),
                Arr(ClaimsOf(readings, Relationships)), Arr(ClaimsOf(readings, Disclosures)),
                Arr(ClaimsOf(readings, Proposals)));
    match g case _ =>
  }

  lemma InReadings(G: Gates, lines: seq<string>, r: Reading)
    ensures r in Readings(Reader(G), lines) <==> exists line <- lines :: ReadLine(G, line) == r
  {
    var readings := Readings(Reader(G), lines);
    if r in readings {
      var i :| 0 <= i < |readings| && readings[i] == r;
      assert lines[i] in lines;
    }
    if line :| line in lines && ReadLine(G, line) == r {
      var i :| 0 <= i < |lines| && lines[i] == line;
      assert readings[i] == r;
    }
  }

  lemma IdsThrowIff(G: Gates, lines: seq<string>)
    ensures var readings := Readings(Reader(G), lines);
            IdsThrow(G.js, Envelope(readings))
            <==> exists line <- lines :: ReadLine(G, line).ClaimLine? && IdThrows(G.js, ReadLine(G, line).rest)
  {
    var readings := Readings(Reader(G), lines);
    forall g ensures RawOf(Envelope(readings), g) == ClaimsOf(readings, g) { EnvelopeHolds(G.js, readings, g); }
    if IdsThrow(G.js, Envelope(readings)) {
      EnvelopeHolds(G.js, readings, Entities);
      var g, rest :| g in GROUPS && rest in RawOf(Envelope(readings), g) && IdThrows(G.js, rest);
      InClaimsOf(readings, g, rest);
      InReadings(G, lines, ClaimLine(g, rest));
    }
    if line :| line in lines && ReadLine(G, line).ClaimLine? && IdThrows(G.js, ReadLine(G, line).rest) {
      var r := ReadLine(G, line);
      InReadings(G, lines, r);
      InClaimsOf(readings, r.group, r.rest);
      EveryGroup(r.group);
      assert r.rest in RawOf(Envelope(readings), r.group);
    }
  }

  /** A harvest throws exactly when one of its lines breaks it. */
  lemma HarvestBreaksIff(G: Gates, d: Delivered)
    ensures HarvestOf(G, d).Broken? <==> d.Content? && exists line <- d.lines :: Breaking(G, line)
  {
    if d.Content? {
      LinesBreakIff(G, d.lines);
    }
  }

  lemma LinesBreakIff(G: Gates, lines: seq<string>)
    ensures var readings := Readings(Reader(G), lines);
            (exists line <- lines :: Breaking(G, line))
            <==> AnyFatal(readings) || (ParsedAny(readings) && IdsThrow(G.js, Envelope(readings)))
  {
    var readings := Readings(Reader(G), lines);
    IdsThrowIff(G, lines);
    InReadings(G, lines, Fatal);
    if line :| line in lines && ReadLine(G, line).ClaimLine? {
      var r := ReadLine(G, line);
      InReadings(G, lines, r);
      InClaimsOf(readings, r.group, r.rest);
    }
  }

  /** The last text delivered, this one or the one before, has a line that breaks. */
  ghost predicate Harmful(G: Gates, d: Delivered, before: Trace) {
    if d.NoText? then before.Broken? else d.Content? && exists line <- d.lines :: Breaking(G, line)
  }

  /**
   Exactly when a failure loses the bank: when a line of the latest thinking
   breaks its harvest, when the note is refused, or, if the run ends here, when
   a line of the latest delivered text breaks the salvage.
   */
  lemma FailureLosesBankIff(G: Gates, c: Config, s: State, m: Message)
    requires m.Failed?
    ensures var f := EventOf(G, m, s.bank);
            Step(c, s, f).Lost? <==>
              Harmful(G, m.thinking, s.lastThinking) || Unprintable(m.complaint)
              || (Ends(c, s, f) && Harmful(G, m.partial, s.lastPartial))
  {
    HarmfulIff(G, m.thinking, s.lastThinking);
    HarmfulIff(G, m.partial, s.lastPartial);
    FailureKeepsBank(c, s, EventOf(G, m, s.bank));
  }

  lemma HarmfulIff(G: Gates, d: Delivered, before: Trace)
    ensures Latest(HarvestOf(G, d), before).Broken? <==> Harmful(G, d, before)
  {
    HarvestBreaksIff(G, d);
  }

  /** `{"claim":"constructor"}`, or any other name an object inherits, is a line that breaks. */
  lemma InheritedNameBreaks(G: Gates, line: string, kind: string)
    requires G.js.trim(line) != "" && G.bare(G.js.trim(line)).None? && G.js.toText(Str(kind)) == Some(kind)
    requires G.parse(G.js.trim(line)) == Some(Obj(map["claim" := Str(kind)]))
    requires Inherited(kind) && G.js.lower(kind) == kind
    ensures Breaking(G, line)
  {
    assert "claim" in map["claim" := Str(kind)];
    if kind == "constructor" { assert |kind| == 11; } else { assert |kind| == 9; }
    assert LineGroup(kind) == None;
  }

  /** One such line in a reasoning trace and the whole bank is lost, on an error that was to be retried. */
  lemma OneLineLosesTheBank(G: Gates, c: Config, s: State, lines: seq<string>, line: string)
    requires line in lines && Breaking(G, line)
    ensures Step(c, s, EventOf(G, Failed(true, false, NoText, Content(lines), None), s.bank)).Lost?
  {
    HarvestBreaksIff(G, Content(lines));
  }

  /** Stripping the brackets of an error message can put a token together, and then the note is refused. */
  lemma StrippingMakesAToken()
    ensures Stripped("<<>>><END><<<>>") == "<<<END>>>" && Unprintable(Some("<<>>><END><<<>>"))
  {
    StripsToCloser();
    Blocks.CloserInside("", "");
    assert "" + (Blocks.Closer + "") == "<<<END>>>";
  }

  predicate BracketAt(s: string, i: nat) {
    i + 2 < |s| && s[i] == s[i + 1] == s[i + 2] && (s[i] == '<' || s[i] == '>')
  }

  /** Where no bracket begins, the text comes through as it is. */
  lemma {:induction false} Passes(p: string, rest: string)
    requires forall i: nat :: i < |p| ==> !BracketAt(p + rest, i)
    ensures Stripped(p + rest) == p + Stripped(rest)
  {
    if p == "" {
      assert p + rest == rest;
    } else {
      assert (p + rest)[1..] == p[1..] + rest && !BracketAt(p + rest, 0);
      forall i: nat | i < |p[1..]| ensures !BracketAt(p[1..] + rest, i) { assert !BracketAt(p + rest, i + 1); }
      Passes(p[1..], rest);
      assert p == [p[0]] + p[1..];
      Assoc([p[0]], p[1..], Stripped(rest));
    }
  }

  lemma Drops(bracket: string, rest: string)
    requires bracket == "<<<" || bracket == ">>>"
    ensures Stripped(bracket + rest) == Stripped(rest)
  {
    assert (bracket + rest)[..3] == bracket && (bracket + rest)[3..] == rest;
  }

  lemma StripsToCloser()
    ensures Stripped("<<>>><END><<<>>") == "<<<END>>>"
  {
    assert "<<>>><END><<<>>" == "<<" + (">>>" + ("<END>" + ("<<<" + ">>")));
    assert ">>" + "" == ">>";
    StripsMiddle(">>");
    Passes(">>", "");
    assert "<<" + ("<END>" + ">>") == "<<<END>>>";
  }

  lemma StripsMiddle(rest: string)
    requires rest == ">>"
    ensures Stripped("<<" + (">>>" + ("<END>" + ("<<<" + rest)))) == "<<" + ("<END>" + Stripped(rest))
  {
    Drops("<<<", rest);
    Passes("<END>", "<<<" + rest);
    Drops(">>>", "<END>" + ("<<<" + rest));
    Passes("<<", ">>>" + ("<END>" + ("<<<" + rest)));
  }

  // ----- every answer is grounded ---------------------------------------------------------------------------------

  /** The claim fits its group's vocabulary, and its quote stands in the source it cites, both normalised. */
  ghost predicate Grounded(G: Gates, e: Entry) {
    && Admissible(e.group, e.claim) && e.claim.ev.sourceId in G.sources
    && Occurs(Spans.Normalise(G.alphabet, G.sources[e.claim.ev.sourceId]), Spans.Normalise(G.alphabet, e.claim.ev.quote))
  }

  lemma {:induction false} InFlattened(groups: seq<Group>, claims: Group -> seq<Claim>, e: Entry)
    ensures e in Flattened(groups, claims) <==> e.group in groups && e.claim in claims(e.group)
  {
    if groups != [] {
      var n := |groups| - 1;
      InFlattened(groups[..n], claims, e);
      InEntries(groups[n], claims(groups[n]), e);
      assert groups == groups[..n] + [groups[n]];
    }
  }

  lemma InEntries(g: Group, claims: seq<Claim>, e: Entry)
    ensures e in Entries(g, claims) <==> e.group == g && e.claim in claims
  {
    if e.group == g && e.claim in claims {
      var i :| 0 <= i < |claims| && claims[i] == e.claim;
      assert Entries(g, claims)[i] == e;
    }
  }

  lemma SurvivorIsAdmissible(js: Script, raw: Json, provided: set<string>, g: Group, claim: Claim)
    requires claim in Survivors(js, raw, provided, g)
    ensures Admissible(g, claim)
  {
    KeptIffPasses(Normalizer(js, g), RawOf(raw, g), claim);
    if g != Entities { SurvivesIff(js, raw, provided, g, claim); }
    var item :| item in RawOf(raw, g) && Normalizer(js, g)(item) == Ok(claim);
    NormalizedIsAdmissible(js, g, item);
  }

  lemma AcceptedIsGrounded(G: Gates, raw: Json, provided: set<string>, e: Entry)
    requires e in Accepted(G, raw, provided)
    ensures Grounded(G, e)
  {
    InFlattened(GROUPS, Verified(G, raw, provided), e);
    var norm := Spans.Norm(G.alphabet);
    VerifiedIsGrounded(G.alphabet, norm, G.sources, e.group, Survivors(G.js, raw, provided, e.group), e.claim);
    SurvivorIsAdmissible(G.js, raw, provided, e.group, e.claim);
  }

  lemma AllGrounded(G: Gates, raw: Json, provided: set<string>)
    ensures All(e => Grounded(G, e), Accepted(G, raw, provided))
  {
    forall e | e in Accepted(G, raw, provided) ensures Grounded(G, e) { AcceptedIsGrounded(G, raw, provided, e); }
  }

  lemma GatedIsGrounded(G: Gates, raw: Json)
    ensures All(e => Grounded(G, e), Salvaged(Gated(G, raw)))
  {
    AllGrounded(G, Canonical(G, raw), G.provided);
  }

  lemma HarvestIsGrounded(G: Gates, d: Delivered)
    ensures All(e => Grounded(G, e), Salvaged(HarvestOf(G, d)))
  {
    if d.Content? { GatedIsGrounded(G, Envelope(Readings(Reader(G), d.lines))); }
  }

  lemma EventIsGrounded(G: Gates, m: Message, bank: seq<Entry>)
    ensures SoundEvent(e => Grounded(G, e), EventOf(G, m, bank))
  {
    match m
    case Answered(raw, reviews) => AllGrounded(G, Canonical(G, raw), G.provided + BankRefs(bank));
    case Failed(retryable, loop, partial, thinking, complaint) =>
      HarvestIsGrounded(G, partial);
      HarvestIsGrounded(G, thinking);
  }

  /**
   Every returned claim is grounded: whatever the model and its transport send,
   if the seeds were, each claim of the answer fits its vocabulary and quotes
   the source it cites.
   */
  lemma AnswersAreGrounded(G: Gates, c: Config, seeds: seq<Entry>, messages: nat -> Message)
    requires forall e <- seeds :: Grounded(G, e)
    ensures var r := Run(c, Start(seeds), WorldOf(G, messages));
            r.Answer? ==> forall e <- r.verified :: Grounded(G, e)
  {
    var ok := e => Grounded(G, e);
    forall n: nat, bank: seq<Entry> ensures SoundEvent(ok, WorldOf(G, messages)(n, bank)) {
      EventIsGrounded(G, messages(n), bank);
    }
    AnswersAreSound(c, ok, Start(seeds), WorldOf(G, messages));
  }

  // ----- what a graded round shows ------------------------------------------------------------------------------

  lemma {:induction false} InFlatMap<T>(f: T -> seq<string>, items: seq<T>, x: T, line: string)
    requires x in items && line in f(x)
    ensures line in FlatMap(f, items)
  {
    var n := |items| - 1;
    if items[n] != x {
      assert items == items[..n] + [items[n]];
      InFlatMap(f, items[..n], x, line);
    }
  }

  lemma {:induction false} InTally(groups: seq<Group>, lost: Group -> seq<(nat, Code)>, g: Group, at: nat, code: Code)
    requires g in groups && (at, code) in lost(g)
    ensures Rejection(g, at, code) in Tally(groups, lost)
  {
    var n := |groups| - 1;
    assert groups == groups[..n] + [groups[n]];
    if groups[n] == g {
      var k :| 0 <= k < |lost(g)| && lost(g)[k] == (at, code);
      assert Marked(g, lost(g))[k] == Rejection(g, at, code);
    } else {
      InTally(groups[..n], lost, g, at, code);
    }
  }

  lemma DanglingIsRejected(js: Script, raw: Json, provided: set<string>, g: Group, i: nat)
    requires Dangles(js, raw, provided, g, i)
    ensures var at := Standing(js, raw, g, i);
            0 <= at <= i && Rejection(g, at, DanglingRef) in FirstLost(js, raw, provided)
  {
    var at := DanglingIndex(js, raw, provided, g, i);
    RefusedIsRejected(js, raw, provided, g, at, DanglingRef);
  }

  lemma RefusedIsRejected(js: Script, raw: Json, provided: set<string>, g: Group, at: nat, code: Code)
    requires g != Entities
    requires (at, code) in RefLost(ShapedBy(js, raw), Declared(Shaped(js, raw, Entities), provided))(g)
    ensures Rejection(g, at, code) in FirstLost(js, raw, provided)
  {
    EveryGroup(g);
    InTally(REFERRING, RefLost(ShapedBy(js, raw), Declared(Shaped(js, raw, Entities), provided)), g, at, code);
  }

  /**
   The index on a dangling reference counts only claims that normalised, but
   the round looks it up among the raw ones: the claim at i is refused, and
   the one at i less the claims rejected before it is shown.
   */
  lemma DanglingShowsAnother(G: Gates, raw: Json, provided: set<string>, g: Group, i: nat)
    requires Dangles(G.js, raw, provided, g, i)
    ensures var at := Standing(G.js, raw, g, i);
            && 0 <= at <= i
            && (RawOf(raw, g)[at].Obj? ==> G.name(DanglingRef) + "|" + G.show(RawOf(raw, g)[at]) in Shown(G, raw, provided))
  {
    DanglingIsRejected(G.js, raw, provided, g, i);
    var at := Standing(G.js, raw, g, i);
    if RawOf(raw, g)[at].Obj? { ShownAt(G, raw, provided, Rejection(g, at, DanglingRef)); }
  }

  /** A relationship between two people nobody declared. */
  function Stranger(): Json {
    Obj(map["predicate" := Str("knows"), "subject_ref" := Str("a"), "object_ref" := Str("b"),
            "source_id" := Str("m"), "evidence" := Str("q")])
  }

  lemma StrangerFields()
    ensures Field(Stranger(), "predicate") == Str("knows") && Field(Stranger(), "subject_ref") == Str("a")
    ensures Field(Stranger(), "object_ref") == Str("b") && Field(Stranger(), "source_id") == Str("m")
    ensures Field(Stranger(), "evidence") == Str("q") && Field(Stranger(), "confidence") == Null
  {
    assert |"predicate"| == 9 && |"subject_ref"| == 11 && |"object_ref"| == 10 && |"source_id"| == 9;
    assert |"evidence"| == 8 && |"confidence"| == 10;
    assert "source_id"[0] != "predicate"[0] && "confidence"[0] != "object_ref"[0];
  }

  /** Conversions that leave these texts as they are. */
  predicate Leaves(js: Script, text: string) {
    js.toText(Str(text)) == Some(text) && js.trim(text) == text && js.lower(text) == text && js.squeeze(text) == text
  }

  predicate LeavesThese(js: Script) {
    Leaves(js, "knows") && Leaves(js, "a") && Leaves(js, "b") && Leaves(js, "m") && Leaves(js, "q") && Leaves(js, "")
  }

  lemma StrangerNormalizes(js: Script)
    requires LeavesThese(js)
    ensures NormalizeRelationship(js, Stranger()).Ok?
    ensures RefsOf(NormalizeRelationship(js, Stranger()).value) == ["a", "b"]
  {
    StrangerFields();
    StrangerEvidence(js);
    assert "knows" in PREDICATES;
  }

  lemma StrangerEvidence(js: Script)
    requires LeavesThese(js)
    ensures EvidenceOf(js, Stranger()).Ok?
  {
    StrangerFields();
  }

  lemma EmptyIsRefused(js: Script)
    requires LeavesThese(js)
    ensures NormalizeRelationship(js, Obj(map[])).Err?
  {
    assert Field(Obj(map[]), "predicate") == Null;
    assert "" !in PREDICATES;
  }

  /** One concrete reply: an empty claim and a stranger. The stranger is refused, and the empty claim shown for it. */
  lemma AnotherClaimIsShown(G: Gates, raw: Json)
    requires LeavesThese(G.js) && raw == Obj(map["relationships" := Arr([Obj(map[]), Stranger()])])
    ensures Dangles(G.js, raw, {}, Relationships, 1)
    ensures G.name(DanglingRef) + "|" + G.show(Obj(map[])) in Shown(G, raw, {})
  {
    var items := [Obj(map[]), Stranger()];
    var normal := Normalizer(G.js, Relationships);
    assert RawOf(raw, Relationships) == items;
    NobodyDeclared(G.js, raw);
    StrangerNormalizes(G.js);
    assert "a" in RefsOf(normal(items[1]).value);
    assert Dangles(G.js, raw, {}, Relationships, 1);
    EmptyIsRefused(G.js);
    OneIsLost(normal, items);
    DanglingShowsAnother(G, raw, {}, Relationships, 1);
  }

  lemma NobodyDeclared(js: Script, raw: Json)
    requires raw.Obj? && raw.fields.Keys == {"relationships"}
    ensures Declared(Shaped(js, raw, Entities), {}) == {}
  {
    assert |"entities"| == 8 && |"relationships"| == 13;
    assert RawOf(raw, Entities) == [];
    assert Shaped(js, raw, Entities) == [];
  }

  lemma OneIsLost(normal: Json -> Checked<Claim>, items: seq<Json>)
    requires |items| == 2 && normal(items[0]).Err?
    ensures |Schema.Lost(normal, items[..1])| == 1
  {
    assert items[..1][..0] == [];
  }

  lemma ShownAt(G: Gates, raw: Json, provided: set<string>, r: Rejection)
    requires r in FirstLost(G.js, raw, provided) && r.index < |RawOf(raw, r.group)| && RawOf(raw, r.group)[r.index].Obj?
    ensures G.name(r.code) + "|" + G.show(RawOf(raw, r.group)[r.index]) in Shown(G, raw, provided)
  {
    InFlatMap(r => ShapeShown(G, raw, r), FirstLost(G.js, raw, provided), r,
              G.name(r.code) + "|" + G.show(RawOf(raw, r.group)[r.index]));
  }

  // ----- two answers that are read for more than they say ---------------------------------------------------------------

  ghost predicate NoGroups(raw: Json) {
    raw.Obj? && "evidence_refs" !in raw.fields && forall g :: GroupName(g) !in raw.fields
  }

  lemma {:induction false} EmptyTally(groups: seq<Group>, lost: Group -> seq<(nat, Code)>)
    requires forall g <- groups :: lost(g) == []
    ensures Tally(groups, lost) == []
  {
    if groups != [] {
      assert groups[|groups| - 1] in groups;
      EmptyTally(groups[..|groups| - 1], lost);
    }
  }

  lemma {:induction false} EmptyFlattened(groups: seq<Group>, claims: Group -> seq<Claim>)
    requires forall g <- groups :: claims(g) == []
    ensures Flattened(groups, claims) == []
  {
    if groups != [] {
      assert groups[|groups| - 1] in groups;
      EmptyFlattened(groups[..|groups| - 1], claims);
    }
  }

  lemma NothingSurvives(js: Script, raw: Json, provided: set<string>, g: Group)
    requires NoGroups(raw)
    ensures RawOf(raw, g) == [] && Survivors(js, raw, provided, g) == []
    ensures ShapeLost(js, raw)(g) == []
    ensures RefLost(ShapedBy(js, raw), Declared(Shaped(js, raw, Entities), provided))(g) == []
  {
    assert Raws(raw)(g) == [];
    assert Shaped(js, raw, g) == [];
    assert ShapedBy(js, raw)(g) == [];
  }

  lemma NothingLost(js: Script, raw: Json, provided: set<string>)
    requires NoGroups(raw)
    ensures FirstLost(js, raw, provided) == []
  {
    forall g ensures ShapeLost(js, raw)(g) == []
                  && RefLost(ShapedBy(js, raw), Declared(Shaped(js, raw, Entities), provided))(g) == []
    {
      NothingSurvives(js, raw, provided, g);
    }
    EmptyTally(GROUPS, ShapeLost(js, raw));
    EmptyTally(REFERRING, RefLost(ShapedBy(js, raw), Declared(Shaped(js, raw, Entities), provided)));
  }

  lemma NothingAccepted(G: Gates, raw: Json, provided: set<string>)
    requires NoGroups(raw)
    ensures Accepted(G, raw, provided) == []
  {
    forall g ensures Verified(G, raw, provided)(g) == [] { NothingSurvives(G.js, raw, provided, g); }
    EmptyFlattened(GROUPS, Verified(G, raw, provided));
  }

  lemma NothingShown(G: Gates, raw: Json, provided: set<string>)
    requires NoGroups(raw)
    ensures Shown(G, raw, provided) == []
  {
    NothingLost(G.js, raw, provided);
    var lost := LostBy(Grounder(G), Survivor(G, raw, provided));
    forall g ensures lost(g) == [] {
      NothingSurvives(G.js, raw, provided, g);
      assert Survivor(G, raw, provided)(g) == [];
    }
    EmptyTally(GROUPS, lost);
  }

  /** An object with no claim group in it is a complete answer, and an empty one. */
  lemma NoGroupsIsAnEmptyAnswer(G: Gates, raw: Json, bank: seq<Entry>)
    requires NoGroups(raw)
    ensures EventOf(G, Answered(raw, []), bank) == Reply([], [], [])
  {
    var provided := G.provided + BankRefs(bank);
    forall g ensures RawOf(raw, g) == [] { NothingSurvives(G.js, raw, provided, g); }
    assert !IdsThrow(G.js, raw);
    var canonical := Canonical(G, raw);
    assert canonical.fields.Keys == raw.fields.Keys;
    assert NoGroups(canonical) && Shapely(canonical);
    NothingAccepted(G, canonical, provided);
    NothingShown(G, canonical, provided);
  }

  /**
   A reply cut off after its manifest, before any closing brace behind it, ends
   the run as a complete answer with nothing in it but the bank.
   */
  lemma CutManifestEndsTheRun(G: Gates, c: Config, s: State, bs: seq<Manifest.Block>, trailer: string,
                              number: string -> Option<int>, groups: seq<string>, n: nat,
                              head: string, core: string, tail: string,
                              observations: string -> Option<Json>, fence: string -> Option<string>)
    requires Manifest.Answers(bs, trailer, number, groups) && n <= |Manifest.Answer(bs, trailer)| && Manifest.Done(bs, n) <= 1
    requires Manifest.OBSERVATIONS !in groups && Manifest.Answer(bs, trailer)[..n] == head + (core + tail)
    requires Manifest.Braced(core) && '{' !in head && G.parse(core).Some? && Manifest.PrefixFree(G.parse)
    requires var text := Manifest.Answer(bs, trailer)[..n];
             && (Manifest.FrameOf(text, Manifest.OBSERVATIONS).None? ==> observations(text).None?)
             && (fence(text).Some? ==> G.parse(fence(text).value).None?)
    requires NoGroups(G.parse(core).value)
    ensures var read := Manifest.Fallback(Manifest.Answer(bs, trailer)[..n], observations, fence, G.parse);
            && (read.None? <==> '}' in tail)
            && (read.Some? ==>
                 Step(c, s, EventOf(G, Answered(read.value, []), s.bank))
                 == Answer(Merged(c.key, s.bank), false, s.attempt + 1, s.rounds))
  {
    Manifest.CutManifestIsAnAnswerIff(bs, trailer, number, groups, n, head, core, tail, observations, fence, G.parse);
    NoGroupsIsAnEmptyAnswer(G, G.parse(core).value, s.bank);
    EmptyReplyEnds(c, s);
  }

  lemma EmptyReplyEnds(c: Config, s: State)
    ensures Step(c, s, Reply([], [], [])) == Answer(Merged(c.key, s.bank), false, s.attempt + 1, s.rounds)
  {
    NothingRejected(s.bank, Rejected([]));
    assert s.bank + [] == s.bank;
  }

  // ----- a reply of claim lines -----------------------------------------------------------------------------------

  /** `split("\n")`. */
  function LinesOf(content: string): (r: seq<string>)
    ensures r != []
  {
    if content == "" then [""]
    else
      var rest := LinesOf(content[1..]);
      if content[0] == '\n' then [""] + rest else [[content[0]] + rest[0]] + rest[1..]
  }

  /** An object that is one claim, and no envelope. */
  predicate LooksLikeClaim(value: Json) {
    value.Obj? && Field(value, "claim").Str? && forall g <- GROUPS :: !Field(value, GroupName(g)).Arr?
  }

  /** The content of a block where it is one JSON text, and no claim. */
  function WholeOf(G: Gates, content: string): Option<Json> {
    match G.parse(content)
    case Some(value) => if LooksLikeClaim(value) then None else Some(value)
    case None => None
  }

  /** What the readers behind the OBSERVATIONS reader find in the text. */
  function Behind(G: Gates, text: string, fence: string -> Option<string>): Option<Json> {
    Manifest.Fallback(text, (t: string) => None, fence, G.parse)
  }

  /**
   A reply whose text holds one OBSERVATIONS block with this content: the whole
   content, its lines, or what the readers behind find. A throw that is no
   protocol error is not retryable.
   */
  function ReadReply(G: Gates, text: string, content: string, fence: string -> Option<string>): Message {
    var readings := Readings(Reader(G), LinesOf(content));
    if WholeOf(G, content).Some? then Answered(WholeOf(G, content).value, [])
    else if !AnyFatal(readings) && ParsedAny(readings) then Answered(Envelope(readings), VerdictsOf(readings))
    else if Behind(G, text, fence).Some? then Answered(Behind(G, text, fence).value, [])
    else Failed(!AnyFatal(readings), false, NoText, NoText, None)
  }

  /** The first object of a text, where no fence holds JSON, is what the readers behind find, if no brace closes behind it. */
  lemma BehindIs(G: Gates, text: string, fence: string -> Option<string>, head: string, core: string, tail: string)
    requires text == head + (core + tail) && Manifest.Braced(core) && '{' !in head
    requires G.parse(core).Some? && Manifest.PrefixFree(G.parse)
    requires fence(text).Some? ==> G.parse(fence(text).value).None?
    ensures Behind(G, text, fence) == if '}' in tail then None else G.parse(core)
  {
    Manifest.BareSpanIff(head, core, tail, text);
    var span := Manifest.BareSpan(text).value;
    if G.parse(span).Some? { assert span == core; }
  }

  /**
   A line that throws costs the reply every line of it, and the run its
   retries. Only if nothing closes a brace behind the first object of the text
   is the reply read all the same: that object is then the answer, and a claim
   has no group in it, so the run ends with the bank as a complete answer.
   */
  lemma FatalLineEndsTheRun(G: Gates, c: Config, s: State, text: string, content: string, fence: string -> Option<string>,
                            line: string, head: string, core: string, tail: string)
    requires line in LinesOf(content) && ReadLine(G, line).Fatal? && WholeOf(G, content).None?
    requires text == head + (core + tail) && Manifest.Braced(core) && '{' !in head
    requires G.parse(core).Some? && NoGroups(G.parse(core).value) && Manifest.PrefixFree(G.parse)
    requires fence(text).Some? ==> G.parse(fence(text).value).None?
    ensures var o := Step(c, s, EventOf(G, ReadReply(G, text, content, fence), s.bank));
            && !o.Continue?
            && o == if '}' in tail then OnFailure(c, s, Failure(false, false, Absent, Absent, false))
                    else Answer(Merged(c.key, s.bank), false, s.attempt + 1, s.rounds)
  {
    BehindIs(G, text, fence, head, core, tail);
    FatalLineReads(G, text, content, fence, line);
    FinalFailure(G, s.bank);
    if '}' !in tail {
      NoGroupsIsAnEmptyAnswer(G, G.parse(core).value, s.bank);
      EmptyReplyEnds(c, s);
    }
  }

  lemma FatalLineReads(G: Gates, text: string, content: string, fence: string -> Option<string>, line: string)
    requires line in LinesOf(content) && ReadLine(G, line).Fatal? && WholeOf(G, content).None?
    ensures ReadReply(G, text, content, fence)
         == match Behind(G, text, fence)
            case Some(value) => Answered(value, [])
            case None => Failed(false, false, NoText, NoText, None)
  {
    InReadings(G, LinesOf(content), Fatal);
    assert AnyFatal(Readings(Reader(G), LinesOf(content)));
  }

  lemma FinalFailure(G: Gates, bank: seq<Entry>)
    ensures EventOf(G, Failed(false, false, NoText, NoText, None), bank) == Failure(false, false, Absent, Absent, false)
  {
  }

  lemma {:induction false} OneLine(content: string)
    requires '\n' !in content
    ensures LinesOf(content) == [content]
  {
    if content != "" {
      OneLine(content[1..]);
      assert content == [content[0]] + content[1..];
    }
  }

  /** A reply that is one such line, in its block: the answer is complete, and nothing but the bank. */
  lemma LoneFatalLineIsAnAnswer(G: Gates, c: Config, s: State, line: string, head: string, tail: string,
                                fence: string -> Option<string>)
    requires ReadLine(G, line).Fatal? && '\n' !in line
    requires G.parse(line).Some? && NoGroups(G.parse(line).value) && Manifest.PrefixFree(G.parse)
    requires Manifest.Braced(line) && '{' !in head && '}' !in tail
    requires var text := head + (line + tail); fence(text).Some? ==> G.parse(fence(text).value).None?
    ensures Step(c, s, EventOf(G, ReadReply(G, head + (line + tail), line, fence), s.bank))
         == Answer(Merged(c.key, s.bank), false, s.attempt + 1, s.rounds)
  {
    if WholeOf(G, line).Some? {
      NoGroupsIsAnEmptyAnswer(G, G.parse(line).value, s.bank);
      EmptyReplyEnds(c, s);
    } else {
      OneLine(line);
      FatalLineEndsTheRun(G, c, s, head + (line + tail), line, fence, line, head, line, tail);
    }
  }

  /** Where no line throws and one is read, the reply is its lines: every claim of every group, and every verdict. */
  lemma LinesAreAnswered(G: Gates, text: string, content: string, fence: string -> Option<string>, g: Group)
    requires WholeOf(G, content).None? && forall line <- LinesOf(content) :: !ReadLine(G, line).Fatal?
    requires ParsedAny(Readings(Reader(G), LinesOf(content)))
    ensures var m := ReadReply(G, text, content, fence);
            m.Answered? && m.reviews == VerdictsOf(Readings(Reader(G), LinesOf(content)))
            && RawOf(m.raw, g) == ClaimsOf(Readings(Reader(G), LinesOf(content)), g)
  {
    InReadings(G, LinesOf(content), Fatal);
    EnvelopeHolds(G.js, Readings(Reader(G), LinesOf(content)), g);
  }
}
