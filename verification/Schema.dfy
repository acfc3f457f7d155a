/**
 The two gates a model's claims pass: is each the right shape, and does its
 quote stand in the source it cites? Both gates are sieves, and so is the check
 of references between them.
 */
module Schema {
  import opened Text
  import Order
  import Spans

  datatype Code =
    | BadEnvelope | BadClaim | FieldMissing | FieldTooLong | BadConfidence
    | UnknownEntityKind | UnknownPredicate | UnknownDisclosureField | UnknownProposalKind | UnknownProposalGrade
    | DanglingRef | Ungrounded(why: Spans.Code)
    /** A conversion of JavaScript's own that throws: no error of the schema's. */
    | TypeError

  type Checked<+T> = Result<T, Code>

  // ----- sieves ---------------------------------------------------------------

  /** What a check makes of the items it accepts, in order. */
  function Kept<T, U>(check: T -> Checked<U>, items: seq<T>): seq<U> {
    if items == [] then []
    else
      var n := |items| - 1;
      Kept(check, items[..n]) + match check(items[n]) case Ok(u) => [u] case Err(_) => []
  }

  /** Where and why it rejects the others, in order. */
  function Lost<T, U>(check: T -> Checked<U>, items: seq<T>): seq<(nat, Code)> {
    if items == [] then []
    else
      var n := |items| - 1;
      Lost(check, items[..n]) + match check(items[n]) case Ok(_) => [] case Err(code) => [(n, code)]
  }

  method Sift<T, U>(check: T -> Checked<U>, items: seq<T>) returns (kept: seq<U>, lost: seq<(nat, Code)>)
    ensures kept == Kept(check, items) && lost == Lost(check, items)
  {
    kept, lost := [], [];
    for n := 0 to |items|
      invariant kept == Kept(check, items[..n]) && lost == Lost(check, items[..n])
    {
      assert items[..n + 1][..n] == items[..n];
      match check(items[n])
      case Ok(u) => kept := kept + [u];
      case Err(code) => lost := lost + [(n, code)];
    }
    assert items[..|items|] == items;
  }

  /** Nothing goes through a sieve unaccounted for. */
  lemma {:induction false} SieveAccounts<T, U>(check: T -> Checked<U>, items: seq<T>)
    ensures |Kept(check, items)| + |Lost(check, items)| == |items|
  {
    if items != [] { SieveAccounts(check, items[..|items| - 1]); }
  }

  /** Exactly the items that fail are rejected, each under its own index and for its own reason. */
  lemma {:induction false} LostIffFails<T, U>(check: T -> Checked<U>, items: seq<T>, i: nat, code: Code)
    ensures (i, code) in Lost(check, items) <==> i < |items| && check(items[i]) == Err(code)
  {
    if items != [] {
      var n := |items| - 1;
      LostIffFails(check, items[..n], i, code);
    }
  }

  lemma {:induction false} KeptIffPasses<T, U>(check: T -> Checked<U>, items: seq<T>, u: U)
    ensures u in Kept(check, items) <==> exists t :: t in items && check(t) == Ok(u)
  {
    if items != [] {
      var n := |items| - 1;
      KeptIffPasses(check, items[..n], u);
      assert items == items[..n] + [items[n]];
    }
  }

  /** Where a kept item ends up: as far forward as items before it were rejected. */
  lemma {:induction false} KeptStands<T, U>(check: T -> Checked<U>, items: seq<T>, i: nat)
    requires i < |items| && check(items[i]).Ok?
    ensures var at := i - |Lost(check, items[..i])|;
            0 <= at < |Kept(check, items)| && Kept(check, items)[at] == check(items[i]).value
    decreases |items|
  {
    var n := |items| - 1;
    if i < n {
      assert items[..n][..i] == items[..i];
      KeptStands(check, items[..n], i);
    } else {
      SieveAccounts(check, items[..n]);
    }
  }

  /** A second sieve reports where an item stands among those the first one kept. */
  lemma SecondSieveReports<T, U>(first: T -> Checked<U>, second: U -> Checked<U>, items: seq<T>, i: nat, code: Code)
    requires i < |items| && first(items[i]).Ok? && second(first(items[i]).value) == Err(code)
    ensures var at := i - |Lost(first, items[..i])|;
            at >= 0 && (at, code) in Lost(second, Kept(first, items))
  {
    KeptStands(first, items, i);
    LostIffFails(second, Kept(first, items), i - |Lost(first, items[..i])|, code);
  }

  // ----- what a claim may hold ----------------------------------------------------

  /** Parsed JSON; a member that is absent reads as Null, which the source treats alike. */
  datatype Json = Null | Bool(b: bool) | Num(n: real) | Str(s: string) | Arr(items: seq<Json>) | Obj(fields: map<string, Json>)

  datatype Numeric = Finite(n: real) | NotFinite | Throws

  /**
   JavaScript's conversions and string operations, by name: `squeeze` turns each
   run of whitespace and hyphens into one underscore; `toText` is None where
   `String` throws.
   */
  datatype Script = Script(trim: string -> string, lower: string -> string, upper: string -> string,
                           squeeze: string -> string, toText: Json -> Option<string>, toNumber: Json -> Numeric)

  datatype Group = Entities | Intents | Relationships | Disclosures | Proposals

  const GROUPS: seq<Group> := [Entities, Intents, Relationships, Disclosures, Proposals]

  datatype Evidence = Evidence(sourceId: string, quote: string, explicit: bool, confidence: real)

  datatype Claim =
    | Entity(ref: string, kind: string, name: string, email: Option<string>, title: Option<string>, ev: Evidence)
    | Intent(actor: string, intent: string, rawType: Option<string>, object_: string, attributes: map<string, Json>, ev: Evidence)
    | Relationship(subject: string, predicate_: string, target: string, ev: Evidence)
    | Disclosure(subject: string, field: string, value: string, ev: Evidence)
    | Proposal(subject: string, purpose: string, aim: string, grade: string, ev: Evidence)

  const ENTITY_KINDS: set<string> := {"PERSON", "ORGANIZATION"}
  const INTENT_TYPES: set<string> := {
    "SEEKING", "OFFERING", "DISCUSSING", "CONSIDERING", "INTRODUCING", "HIRING",
    "SELLING", "BUYING", "INVESTING", "FUNDRAISING", "PARTNERING", "REFERRING" }
  const PREDICATES: set<string> := {"works_at", "knows", "communicated_with", "introduced"}
  const DISCLOSURE_FIELDS: set<string> := {
    "role", "capability", "industry", "employer", "geography", "seniority",
    "credential", "availability", "stage", "budget", "contact" }
  const PROPOSAL_KINDS: set<string> := {"hire_for", "invest_in"}
  const PROPOSAL_GRADES: set<string> := {"good", "strong", "exceptional"}

  function Field(raw: Json, name: string): Json {
    if raw.Obj? && name in raw.fields then raw.fields[name] else Null
  }

  /** `raw.a ?? raw.b` */
  function Either(raw: Json, a: string, b: string): Json {
    if Field(raw, a) == Null then Field(raw, b) else Field(raw, a)
  }

  /** `String(value ?? "")` */
  function TextOf(js: Script, value: Json): Checked<string> {
    if value == Null then Ok("")
    else match js.toText(value)
      case Some(s) => Ok(s)
      case None => Err(BadClaim)
  }

  function RequireString(js: Script, value: Json, max: nat): (r: Checked<string>)
    ensures r.Ok? ==> value.Str? && |value.s| <= max && r.value == js.trim(value.s) != ""
  {
    if !value.Str? || js.trim(value.s) == "" then Err(FieldMissing)
    else if |value.s| > max then Err(FieldTooLong)
    else Ok(js.trim(value.s))
  }

  function Clamp(n: real): (r: real)
    ensures 0.0 <= r <= 1.0 && (0.0 <= n <= 1.0 ==> r == n)
  {
    if n < 0.0 then 0.0 else if n > 1.0 then 1.0 else n
  }

  /** An unstated confidence is one half, never certainty. */
  function Confidence(js: Script, value: Json): (r: Checked<real>)
    ensures r.Ok? ==> 0.0 <= r.value <= 1.0
  {
    if value == Null then Ok(0.5)
    else match js.toNumber(value)
      case Finite(n) => Ok(Clamp(n))
      case NotFinite => Err(BadConfidence)
      case Throws => Err(BadClaim)
  }

  function EvidenceOf(js: Script, raw: Json): Checked<Evidence> {
    var sourceId :- RequireString(js, Either(raw, "source_id", "sourceId"), 256);
    var quote :- RequireString(js, Field(raw, "evidence"), 4000);
    var confidence :- Confidence(js, Field(raw, "confidence"));
    Ok(Evidence(sourceId, quote, Field(raw, "explicit") == Bool(true), confidence))
  }

  function NormalizeEntity(js: Script, raw: Json): Checked<Claim> {
    if !raw.Obj? then Err(BadClaim)
    else
      var text :- TextOf(js, Field(raw, "kind"));
      var kind := js.upper(js.trim(text));
      if kind !in ENTITY_KINDS then Err(UnknownEntityKind)
      else
        var ref :- RequireString(js, Field(raw, "ref"), 128);
        var name :- RequireString(js, Field(raw, "name"), 512);
        var ev :- EvidenceOf(js, raw);
        var email, title := Field(raw, "email_address"), Field(raw, "title");
        Ok(Entity(ref, kind, name,
                  if email.Str? && '@' in email.s then Some(js.lower(js.trim(email.s))) else None,
                  if title.Str? && js.trim(title.s) != "" then Some(js.trim(title.s)) else None, ev))
  }

  /** The one open vocabulary: an unknown type is kept under UNKNOWN, with what was said. */
  function NormalizeIntent(js: Script, raw: Json): Checked<Claim> {
    if !raw.Obj? then Err(BadClaim)
    else
      var text :- TextOf(js, Field(raw, "type"));
      var intent := js.squeeze(js.upper(js.trim(text)));
      var known := intent in INTENT_TYPES;
      var actor :- RequireString(js, Either(raw, "actor_ref", "actorRef"), 128);
      var object_ :- RequireString(js, Field(raw, "object"), 512);
      var ev :- EvidenceOf(js, raw);
      var attributes := Field(raw, "attributes");
      Ok(Intent(actor, if known then intent else "UNKNOWN", if known then None else Some(text), object_,
                if attributes.Obj? then attributes.fields else map[], ev))
  }

  function NormalizeRelationship(js: Script, raw: Json): Checked<Claim> {
    if !raw.Obj? then Err(BadClaim)
    else
      var text :- TextOf(js, Field(raw, "predicate"));
      var predicate_ := js.squeeze(js.lower(js.trim(text)));
      if predicate_ !in PREDICATES then Err(UnknownPredicate)
      else
        var subject :- RequireString(js, Either(raw, "subject_ref", "subjectRef"), 128);
        var target :- RequireString(js, Either(raw, "object_ref", "objectRef"), 128);
        var ev :- EvidenceOf(js, raw);
        Ok(Relationship(subject, predicate_, target, ev))
  }

  function NormalizeDisclosure(js: Script, raw: Json): Checked<Claim> {
    if !raw.Obj? then Err(BadClaim)
    else
      var text :- TextOf(js, Field(raw, "field"));
      var field := js.squeeze(js.lower(js.trim(text)));
      if field !in DISCLOSURE_FIELDS then Err(UnknownDisclosureField)
      else
        var subject :- RequireString(js, Either(raw, "subject_ref", "subjectRef"), 128);
        var value :- RequireString(js, Field(raw, "value"), 512);
        var ev :- EvidenceOf(js, raw);
        Ok(Disclosure(subject, field, value, ev))
  }

  function NormalizeProposal(js: Script, raw: Json): Checked<Claim> {
    if !raw.Obj? then Err(BadClaim)
    else
      var text :- TextOf(js, Field(raw, "kind"));
      var purpose := js.squeeze(js.lower(js.trim(text)));
      if purpose !in PROPOSAL_KINDS then Err(UnknownProposalKind)
      else
        var said :- TextOf(js, Field(raw, "grade"));
        var grade := js.lower(js.trim(said));
        if grade !in PROPOSAL_GRADES then Err(UnknownProposalGrade)
        else
          var subject :- RequireString(js, Either(raw, "subject_ref", "subjectRef"), 128);
          var aim :- RequireString(js, Field(raw, "target"), 512);
          var ev :- EvidenceOf(js, raw);
          Ok(Proposal(subject, purpose, aim, grade, ev))
  }

  function Normalizer(js: Script, g: Group): Json -> Checked<Claim> {
    match g
    case Entities => raw => NormalizeEntity(js, raw)
    case Intents => raw => NormalizeIntent(js, raw)
    case Relationships => raw => NormalizeRelationship(js, raw)
    case Disclosures => raw => NormalizeDisclosure(js, raw)
    case Proposals => raw => NormalizeProposal(js, raw)
  }

  /** What a claim of this group is once it has passed the first gate. */
  predicate Admissible(g: Group, c: Claim) {
    && c.ev.sourceId != "" && c.ev.quote != "" && 0.0 <= c.ev.confidence <= 1.0
    && match g
       case Entities => c.Entity? && c.kind in ENTITY_KINDS && c.ref != "" && c.name != "" && c.title != Some("")
       case Intents => c.Intent? && c.actor != "" && c.object_ != "" && (c.intent in INTENT_TYPES <==> c.rawType.None?)
       case Relationships => c.Relationship? && c.predicate_ in PREDICATES && c.subject != "" && c.target != ""
       case Disclosures => c.Disclosure? && c.field in DISCLOSURE_FIELDS && c.subject != "" && c.value != ""
       case Proposals => c.Proposal? && c.purpose in PROPOSAL_KINDS && c.grade in PROPOSAL_GRADES && c.subject != "" && c.aim != ""
  }

  lemma EvidenceIsAdmissible(js: Script, raw: Json)
    ensures var r := EvidenceOf(js, raw);
            r.Ok? ==> r.value.sourceId != "" && r.value.quote != "" && 0.0 <= r.value.confidence <= 1.0
  {
  }

  lemma UnknownIsNoType()
    ensures "UNKNOWN" !in INTENT_TYPES
  {
  }

  /** Whatever JSON a model sends, a claim that passes is one the vocabularies allow. */
  lemma NormalizedIsAdmissible(js: Script, g: Group, raw: Json)
    requires Normalizer(js, g)(raw).Ok?
    ensures Admissible(g, Normalizer(js, g)(raw).value)
  {
    match g
    case Entities => EntityIsAdmissible(js, raw);
    case Intents => IntentIsAdmissible(js, raw);
    case Relationships => EvidenceIsAdmissible(js, raw);
    case Disclosures => EvidenceIsAdmissible(js, raw);
    case Proposals => EvidenceIsAdmissible(js, raw);
  }

  lemma EntityIsAdmissible(js: Script, raw: Json)
    ensures NormalizeEntity(js, raw).Ok? ==> Admissible(Entities, NormalizeEntity(js, raw).value)
  {
    EvidenceIsAdmissible(js, raw);
  }

  lemma IntentIsAdmissible(js: Script, raw: Json)
    ensures NormalizeIntent(js, raw).Ok? ==> Admissible(Intents, NormalizeIntent(js, raw).value)
  {
    EvidenceIsAdmissible(js, raw);
    UnknownIsNoType();
  }

  // ----- the first gate -------------------------------------------------------------

  function RefsOf(c: Claim): seq<string> {
    match c
    case Entity(_, _, _, _, _, _) => []
    case Intent(actor, _, _, _, _, _) => [actor]
    case Relationship(subject, _, target, _) => [subject, target]
    case Disclosure(subject, _, _, _) => [subject]
    case Proposal(subject, _, _, _, _) => [subject]
  }

  /** A claim may only speak of entities that are declared. */
  function Referring(refs: set<string>): Claim -> Checked<Claim> {
    (c: Claim) => if forall ref <- RefsOf(c) :: ref in refs then Ok(c) else Err(DanglingRef)
  }

  function GroupName(g: Group): string {
    match g
    case Entities => "entities"
    case Intents => "intents"
    case Relationships => "relationships"
    case Disclosures => "disclosures"
    case Proposals => "proposals"
  }

  predicate ShapedAt(raw: Json, g: Group) {
    Field(raw, GroupName(g)).Null? || Field(raw, GroupName(g)).Arr?
  }

  ghost predicate WellShaped(raw: Json) {
    raw.Obj? && forall g :: ShapedAt(raw, g)
  }

  /** Every source id the envelope claims to rest on can be made a text. */
  predicate RefsConvert(js: Script, raw: Json) {
    Field(raw, "evidence_refs").Arr? ==> forall id <- Field(raw, "evidence_refs").items :: js.toText(id).Some?
  }

  function RawOf(raw: Json, g: Group): seq<Json> {
    if Field(raw, GroupName(g)).Arr? then Field(raw, GroupName(g)).items else []
  }

  function Shaped(js: Script, raw: Json, g: Group): seq<Claim> {
    Kept(Normalizer(js, g), RawOf(raw, g))
  }

  /** The refs the surviving entities declare, and those the caller vouches for. */
  function Declared(entities: seq<Claim>, provided: set<string>): set<string> {
    (set c <- entities | c.Entity? :: c.ref) + provided
  }

  /** What is left of a group after both checks of the first gate. */
  function Survivors(js: Script, raw: Json, provided: set<string>, g: Group): seq<Claim> {
    if g == Entities then Shaped(js, raw, g)
    else Kept(Referring(Declared(Shaped(js, raw, Entities), provided)), Shaped(js, raw, g))
  }

  datatype Rejection = Rejection(group: Group, index: nat, code: Code)

  function Marked(g: Group, lost: seq<(nat, Code)>): (r: seq<Rejection>)
    ensures |r| == |lost| && forall i :: 0 <= i < |lost| ==> r[i] == Rejection(g, lost[i].0, lost[i].1)
  {
    seq(|lost|, i requires 0 <= i < |lost| => Rejection(g, lost[i].0, lost[i].1))
  }

  /** The rejections of these groups, one group after the other. */
  function Tally(groups: seq<Group>, lost: Group -> seq<(nat, Code)>): seq<Rejection> {
    if groups == [] then []
    else
      var n := |groups| - 1;
      Tally(groups[..n], lost) + Marked(groups[n], lost(groups[n]))
  }

  /** What the two checks reject in a group. */
  function LostBy<T>(checks: Group -> T -> Checked<Claim>, items: Group -> seq<T>): Group -> seq<(nat, Code)> {
    g => Lost(checks(g), items(g))
  }

  function Normalizers(js: Script): Group -> Json -> Checked<Claim> {
    g => Normalizer(js, g)
  }

  function Raws(raw: Json): Group -> seq<Json> {
    g => RawOf(raw, g)
  }

  function ShapeLost(js: Script, raw: Json): Group -> seq<(nat, Code)> {
    LostBy(Normalizers(js), Raws(raw))
  }

  function RefLost(shaped: Group -> seq<Claim>, refs: set<string>): Group -> seq<(nat, Code)> {
    g => Lost(Referring(refs), shaped(g))
  }

  function ShapedBy(js: Script, raw: Json): Group -> seq<Claim> {
    g => Shaped(js, raw, g)
  }

  /** Everything the first gate rejects. */
  function FirstLost(js: Script, raw: Json, provided: set<string>): seq<Rejection> {
    Tally(GROUPS, ShapeLost(js, raw))
    + Tally(REFERRING, RefLost(ShapedBy(js, raw), Declared(Shaped(js, raw, Entities), provided)))
  }

  /** The groups whose claims refer to entities. */
  const REFERRING: seq<Group> := [Intents, Relationships, Disclosures, Proposals]

  datatype Validated = Validated(envelope: map<Group, seq<Claim>>, rejected: seq<Rejection>, evidenceRefs: seq<string>)

  lemma TallyGrows(groups: seq<Group>, n: nat, lost: Group -> seq<(nat, Code)>)
    requires n < |groups|
    ensures Tally(groups[..n + 1], lost) == Tally(groups[..n], lost) + Marked(groups[n], lost(groups[n]))
  {
    assert groups[..n + 1][..n] == groups[..n];
  }

  /** Every one of these groups holds what its check keeps of its items. */
  ghost predicate HoldsKept<T>(held: map<Group, seq<Claim>>, groups: seq<Group>, checks: Group -> T -> Checked<Claim>,
                               items: Group -> seq<T>)
  {
    forall g <- groups :: g in held && held[g] == Kept(checks(g), items(g))
  }

  lemma HoldsOneMore<T>(held: map<Group, seq<Claim>>, groups: seq<Group>, g: Group, checks: Group -> T -> Checked<Claim>,
                        items: Group -> seq<T>)
    requires HoldsKept(held, groups, checks, items)
    ensures HoldsKept(held[g := Kept(checks(g), items(g))], groups + [g], checks, items)
  {
  }

  /** A gate over these groups, one after the other: what each keeps, and every rejection. */
  method SiftGroups<T>(checks: Group -> T -> Checked<Claim>, items: Group -> seq<T>, groups: seq<Group>)
    returns (held: map<Group, seq<Claim>>, rejected: seq<Rejection>)
    ensures HoldsKept(held, groups, checks, items) && rejected == Tally(groups, LostBy(checks, items))
  {
    held, rejected := map[], [];
    for n := 0 to |groups|
      invariant HoldsKept(held, groups[..n], checks, items) && rejected == Tally(groups[..n], LostBy(checks, items))
    {
      var g := groups[n];
      var kept, lost := Sift(checks(g), items(g));
      TallyGrows(groups, n, LostBy(checks, items));
      HoldsOneMore(held, groups[..n], g, checks, items);
      assert groups[..n + 1] == groups[..n] + [g];
      held, rejected := held[g := kept], rejected + Marked(g, lost);
    }
    assert groups[..|groups|] == groups;
  }

  /** The loop that shapes each group stops at the first that is no array. */
  method ShapeGroups(fine: Group -> bool, raws: Group -> seq<Json>, checks: Group -> Json -> Checked<Claim>, groups: seq<Group>)
    returns (shaped: map<Group, seq<Claim>>, rejected: seq<Rejection>, ok: bool)
    ensures ok <==> forall g <- groups :: fine(g)
    ensures ok ==> HoldsKept(shaped, groups, checks, raws) && rejected == Tally(groups, LostBy(checks, raws))
  {
    shaped, rejected := map[], [];
    for n := 0 to |groups|
      invariant forall m :: 0 <= m < n ==> fine(groups[m])
    {
      if !fine(groups[n]) { return shaped, rejected, false; }
    }
    shaped, rejected := SiftGroups(checks, raws, groups);
    ok := true;
  }

  predicate Distinct(groups: seq<Group>) {
    forall i, j :: 0 <= i < j < |groups| ==> groups[i] != groups[j]
  }

  /** The groups of an envelope, as a function. */
  function In(envelope: map<Group, seq<Claim>>): Group -> seq<Claim> {
    g => if g in envelope then envelope[g] else []
  }

  /** Of these groups the claims about nobody are dropped, and of no others. */
  ghost predicate CheckedIn(checked: map<Group, seq<Claim>>, shaped: map<Group, seq<Claim>>, groups: seq<Group>, refs: set<string>)
    requires forall g :: g in shaped
  {
    forall g :: g in checked && checked[g] == if g in groups then Kept(Referring(refs), shaped[g]) else shaped[g]
  }

  lemma CheckedOneMore(checked: map<Group, seq<Claim>>, shaped: map<Group, seq<Claim>>, groups: seq<Group>, g: Group,
                       refs: set<string>)
    requires (forall h :: h in shaped) && CheckedIn(checked, shaped, groups, refs)
    ensures CheckedIn(checked[g := Kept(Referring(refs), shaped[g])], shaped, groups + [g], refs)
  {
  }

  lemma NotYet(groups: seq<Group>, n: nat)
    requires Distinct(groups) && n < |groups|
    ensures groups[n] !in groups[..n] && groups[..n + 1] == groups[..n] + [groups[n]]
  {
  }

  /** The loop that drops claims about nobody. */
  method CheckRefs(groups: seq<Group>, shaped: map<Group, seq<Claim>>, refs: set<string>)
    returns (checked: map<Group, seq<Claim>>, rejected: seq<Rejection>)
    requires Distinct(groups) && forall g :: g in shaped
    ensures CheckedIn(checked, shaped, groups, refs) && rejected == Tally(groups, RefLost(In(shaped), refs))
  {
    checked, rejected := shaped, [];
    ghost var lost := RefLost(In(shaped), refs);
    for n := 0 to |groups|
      invariant CheckedIn(checked, shaped, groups[..n], refs) && rejected == Tally(groups[..n], lost)
    {
      var g := groups[n];
      NotYet(groups, n);
      var kept, dangling := Sift(Referring(refs), checked[g]);
      assert dangling == lost(g);
      TallyGrows(groups, n, lost);
      CheckedOneMore(checked, shaped, groups[..n], g, refs);
      checked := checked[g := kept];
      rejected := rejected + Marked(g, dangling);
    }
    assert groups[..|groups|] == groups;
  }

  lemma EveryGroup(g: Group)
    ensures g in GROUPS && (g in REFERRING <==> g != Entities)
  {
    assert GROUPS[0] == Entities && GROUPS[1] == Intents && GROUPS[2] == Relationships
           && GROUPS[3] == Disclosures && GROUPS[4] == Proposals;
    assert REFERRING[0] == Intents && REFERRING[1] == Relationships && REFERRING[2] == Disclosures
           && REFERRING[3] == Proposals;
  }

  lemma {:induction false} TallySame(groups: seq<Group>, a: Group -> seq<(nat, Code)>, b: Group -> seq<(nat, Code)>)
    requires forall g <- groups :: a(g) == b(g)
    ensures Tally(groups, a) == Tally(groups, b)
  {
    if groups != [] { TallySame(groups[..|groups| - 1], a, b); }
  }

  /** The source ids that surviving claims quote. */
  function Cited(envelope: map<Group, seq<Claim>>): set<string> {
    set g, c | g in envelope && c in envelope[g] :: c.ev.sourceId
  }

  lemma ShapedTally(groups: seq<Group>, js: Script, raw: Json, shaped: map<Group, seq<Claim>>, refs: set<string>)
    requires forall g :: g in shaped && shaped[g] == Shaped(js, raw, g)
    ensures Tally(groups, RefLost(In(shaped), refs)) == Tally(groups, RefLost(ShapedBy(js, raw), refs))
  {
    TallySame(groups, RefLost(In(shaped), refs), RefLost(ShapedBy(js, raw), refs));
  }

  function Fine(raw: Json): Group -> bool {
    g => ShapedAt(raw, g)
  }

  lemma FineEverywhere(raw: Json)
    ensures (forall g <- GROUPS :: Fine(raw)(g)) <==> forall g :: ShapedAt(raw, g)
  {
    if forall g <- GROUPS :: Fine(raw)(g) {
      forall g ensures ShapedAt(raw, g) {
        EveryGroup(g);
        assert Fine(raw)(g);
      }
    }
  }

  lemma ShapedEverywhere(js: Script, raw: Json, shaped: map<Group, seq<Claim>>)
    requires forall g <- GROUPS :: g in shaped && shaped[g] == Kept(Normalizers(js)(g), Raws(raw)(g))
    ensures forall g :: g in shaped && shaped[g] == Shaped(js, raw, g)
  {
    forall g ensures g in shaped && shaped[g] == Shaped(js, raw, g) {
      EveryGroup(g);
      assert g in shaped && shaped[g] == Kept(Normalizers(js)(g), Raws(raw)(g));
    }
  }

  /** Checking the references of what was shaped leaves the survivors. */
  lemma CheckedSurvive(js: Script, raw: Json, provided: set<string>, shaped: map<Group, seq<Claim>>, checked: map<Group, seq<Claim>>)
    requires forall g :: g in shaped && shaped[g] == Shaped(js, raw, g)
    requires forall g :: g in checked && g !in REFERRING ==> checked[g] == shaped[g]
    requires forall g <- REFERRING ::
               g in checked && checked[g] == Kept(Referring(Declared(shaped[Entities], provided)), shaped[g])
    ensures forall g :: g in checked ==> checked[g] == Survivors(js, raw, provided, g)
  {
    forall g | g in checked ensures checked[g] == Survivors(js, raw, provided, g) { EveryGroup(g); }
  }

  method ValidateEnvelope(js: Script, raw: Json, provided: set<string>) returns (r: Checked<Validated>)
    ensures r.Ok? <==> WellShaped(raw) && RefsConvert(js, raw)
    ensures r.Err? ==> r.error == if WellShaped(raw) then TypeError else BadEnvelope
    ensures r.Ok? ==> forall g :: g in r.value.envelope && r.value.envelope[g] == Survivors(js, raw, provided, g)
    ensures r.Ok? ==> r.value.rejected == FirstLost(js, raw, provided)
    ensures r.Ok? ==> Order.Ascending(r.value.evidenceRefs)
    ensures r.Ok? ==> forall s :: s in r.value.evidenceRefs <==> s in Cited(r.value.envelope)
  {
    if !raw.Obj? { return Err(BadEnvelope); }
    FineEverywhere(raw);
    var shaped, malformed, ok := ShapeGroups(Fine(raw), Raws(raw), Normalizers(js), GROUPS);
    if !ok { return Err(BadEnvelope); }
    ShapedEverywhere(js, raw, shaped);
    if !RefsConvert(js, raw) { return Err(TypeError); }
    var checked := CheckAndCite(js, raw, provided, shaped, malformed);
    r := Ok(checked);
  }

  /** The rest of `validateEnvelope`, once every group is shaped. */
  method CheckAndCite(js: Script, raw: Json, provided: set<string>, shaped: map<Group, seq<Claim>>, malformed: seq<Rejection>)
    returns (r: Validated)
    requires forall g :: g in shaped && shaped[g] == Shaped(js, raw, g)
    requires malformed == Tally(GROUPS, ShapeLost(js, raw))
    ensures r.rejected == FirstLost(js, raw, provided)
    ensures forall g :: g in r.envelope && r.envelope[g] == Survivors(js, raw, provided, g)
    ensures Order.Ascending(r.evidenceRefs)
    ensures forall s :: s in r.evidenceRefs <==> s in Cited(r.envelope)
  {
    var refs := Declared(shaped[Entities], provided);
    ReferringIsDistinct();
    var checked, dangling := CheckRefs(REFERRING, shaped, refs);
    CheckedSurvive(js, raw, provided, shaped, checked);
    ShapedTally(REFERRING, js, raw, shaped, refs);
    var evidenceRefs := Order.Sorted(Cited(checked));
    r := Validated(checked, malformed + dangling, evidenceRefs);
  }

  lemma ReferringIsDistinct()
    ensures Distinct(REFERRING) && Distinct(GROUPS)
  {
  }

  // ----- the second gate ---------------------------------------------------------------

  /** The one field that carries a claim's substance. */
  function ClaimValue(c: Claim): string {
    match c
    case Entity(_, _, name, _, _, _) => name
    case Intent(_, _, _, object_, _, _) => object_
    case Relationship(_, predicate_, _, _) => predicate_
    case Disclosure(_, _, value, _) => value
    case Proposal(_, _, aim, _, _) => aim
  }

  function FactOf(g: Group, c: Claim): Spans.Fact {
    Spans.Fact(Some(GroupName(g)), Some(ClaimValue(c)), Some(c.ev.sourceId), Some(c.ev.quote), false, None)
  }

  /** An exact entity name may be short; everything else needs the ordinary floor. */
  function Floor(g: Group): nat {
    if g == Entities then 4 else Spans.MinEvidence
  }

  function Grounding(a: Spans.Alphabet, norm: string -> string, sources: map<string, string>, g: Group): Claim -> Checked<Claim> {
    (c: Claim) =>
      match Spans.VerifyFact(a, norm, FactOf(g, c), sources, Floor(g))
      case Held(_, _, _, _, _, _, _) => Ok(c)
      case Refused(why) => Err(Ungrounded(why))
  }

  method VerifyEnvelope(checks: Group -> Claim -> Checked<Claim>, envelope: map<Group, seq<Claim>>)
    returns (verified: map<Group, seq<Claim>>, rejected: seq<Rejection>)
    requires forall g :: g in envelope
    ensures forall g :: g in verified && verified[g] == Kept(checks(g), envelope[g])
    ensures rejected == Tally(GROUPS, LostBy(checks, In(envelope)))
  {
    verified, rejected := SiftGroups(checks, In(envelope), GROUPS);
    forall g ensures g in verified && verified[g] == Kept(checks(g), envelope[g]) { EveryGroup(g); }
  }

  // ----- what the gates keep -----------------------------------------------------------

  /** How many rejections name this group. */
  function CountIn(rejected: seq<Rejection>, g: Group): nat {
    if rejected == [] then 0
    else CountIn(rejected[..|rejected| - 1], g) + (if rejected[|rejected| - 1].group == g then 1 else 0)
  }

  lemma {:induction false} CountInAppend(a: seq<Rejection>, b: seq<Rejection>, g: Group)
    ensures CountIn(a + b, g) == CountIn(a, g) + CountIn(b, g)
  {
    if b == [] {
      assert a + b == a;
    } else {
      assert (a + b)[..|a + b| - 1] == a + b[..|b| - 1];
      CountInAppend(a, b[..|b| - 1], g);
    }
  }

  lemma {:induction false} CountMarked(marked: seq<Rejection>, h: Group, g: Group)
    requires forall m <- marked :: m.group == h
    ensures CountIn(marked, g) == if g == h then |marked| else 0
  {
    if marked != [] { CountMarked(marked[..|marked| - 1], h, g); }
  }

  lemma {:induction false} CountTally(groups: seq<Group>, lost: Group -> seq<(nat, Code)>, g: Group)
    requires Distinct(groups)
    ensures CountIn(Tally(groups, lost), g) == if g in groups then |lost(g)| else 0
  {
    if groups != [] {
      var n := |groups| - 1;
      var h := groups[n];
      CountTally(groups[..n], lost, g);
      CountInAppend(Tally(groups[..n], lost), Marked(h, lost(h)), g);
      CountMarked(Marked(h, lost(h)), h, g);
      assert groups == groups[..n] + [h];
    }
  }

  lemma CountTallies(groups: seq<Group>, a: Group -> seq<(nat, Code)>, others: seq<Group>, b: Group -> seq<(nat, Code)>, g: Group)
    requires Distinct(groups) && Distinct(others)
    ensures CountIn(Tally(groups, a) + Tally(others, b), g)
         == (if g in groups then |a(g)| else 0) + (if g in others then |b(g)| else 0)
  {
    CountInAppend(Tally(groups, a), Tally(others, b), g);
    CountTally(groups, a, g);
    CountTally(others, b, g);
  }

  /** Through the first gate every raw claim is accounted for once: it survives or it is rejected. */
  lemma FirstGateAccounts(js: Script, raw: Json, provided: set<string>, g: Group)
    ensures |RawOf(raw, g)| == |Survivors(js, raw, provided, g)| + CountIn(FirstLost(js, raw, provided), g)
  {
    var refs := Declared(Shaped(js, raw, Entities), provided);
    EveryGroup(g);
    ReferringIsDistinct();
    CountTallies(GROUPS, ShapeLost(js, raw), REFERRING, RefLost(ShapedBy(js, raw), refs), g);
    SieveAccounts(Normalizer(js, g), RawOf(raw, g));
    SieveAccounts(Referring(refs), Shaped(js, raw, g));
  }

  /** And so it is through the second. */
  lemma SecondGateAccounts(check: Claim -> Checked<Claim>, lost: Group -> seq<(nat, Code)>, claims: seq<Claim>, g: Group)
    requires lost(g) == Lost(check, claims)
    ensures |claims| == |Kept(check, claims)| + CountIn(Tally(GROUPS, lost), g)
  {
    EveryGroup(g);
    CountTally(GROUPS, lost, g);
    SieveAccounts(check, claims);
  }

  /** Every ref in the validated envelope is declared by an entity in it, or provided. */
  lemma SurvivorsReferToDeclared(js: Script, raw: Json, provided: set<string>, g: Group, c: Claim, ref: string)
    requires c in Survivors(js, raw, provided, g) && ref in RefsOf(c)
    ensures ref in provided || exists e :: e in Survivors(js, raw, provided, Entities) && e.Entity? && e.ref == ref
  {
    if g == Entities {
      EntitiesReferToNobody(js, raw, c);
    } else {
      ReferringKeeps(Declared(Shaped(js, raw, Entities), provided), Shaped(js, raw, g), c, ref);
      DeclaredBy(Survivors(js, raw, provided, Entities), provided, ref);
    }
  }

  lemma EntitiesReferToNobody(js: Script, raw: Json, c: Claim)
    requires c in Shaped(js, raw, Entities)
    ensures RefsOf(c) == []
  {
    KeptIffPasses(Normalizer(js, Entities), RawOf(raw, Entities), c);
    var item :| item in RawOf(raw, Entities) && Normalizer(js, Entities)(item) == Ok(c);
    NormalizedIsAdmissible(js, Entities, item);
  }

  lemma ReferringKeeps(refs: set<string>, claims: seq<Claim>, c: Claim, ref: string)
    requires c in Kept(Referring(refs), claims) && ref in RefsOf(c)
    ensures ref in refs
  {
    KeptIffPasses(Referring(refs), claims, c);
  }

  lemma DeclaredBy(entities: seq<Claim>, provided: set<string>, ref: string)
    requires ref in Declared(entities, provided)
    ensures ref in provided || exists e :: e in entities && e.Entity? && e.ref == ref
  {
  }

  /** A claim of well-shaped JSON survives exactly when it normalises and every ref is declared or provided. */
  lemma SurvivesIff(js: Script, raw: Json, provided: set<string>, g: Group, c: Claim)
    requires g != Entities
    ensures c in Survivors(js, raw, provided, g)
        <==> (exists item :: item in RawOf(raw, g) && Normalizer(js, g)(item) == Ok(c))
             && forall ref <- RefsOf(c) :: ref in Declared(Shaped(js, raw, Entities), provided)
  {
    KeptIffPasses(Normalizer(js, g), RawOf(raw, g), c);
    KeptIffPasses(Referring(Declared(Shaped(js, raw, Entities), provided)), Shaped(js, raw, g), c);
  }

  /** A claim that normalises and speaks of nobody. */
  ghost predicate Dangles(js: Script, raw: Json, provided: set<string>, g: Group, i: nat) {
    && g != Entities && i < |RawOf(raw, g)| && Normalizer(js, g)(RawOf(raw, g)[i]).Ok?
    && exists ref <- RefsOf(Normalizer(js, g)(RawOf(raw, g)[i]).value) :: ref !in Declared(Shaped(js, raw, Entities), provided)
  }

  /** Where a claim stands among those that normalise. */
  function Standing(js: Script, raw: Json, g: Group, i: nat): int
    requires i <= |RawOf(raw, g)|
  {
    i - |Lost(Normalizer(js, g), RawOf(raw, g)[..i])|
  }

  /**
   The index on a dangling reference counts only the claims that normalised.
   The raw claim at i is reported at i less the claims rejected before it, which
   is i itself exactly when none were.
   */
  lemma DanglingIndex(js: Script, raw: Json, provided: set<string>, g: Group, i: nat) returns (at: nat)
    requires Dangles(js, raw, provided, g, i)
    ensures at == Standing(js, raw, g, i) && (at == i <==> Lost(Normalizer(js, g), RawOf(raw, g)[..i]) == [])
    ensures (at, DanglingRef) in RefLost(ShapedBy(js, raw), Declared(Shaped(js, raw, Entities), provided))(g)
  {
    var refs := Declared(Shaped(js, raw, Entities), provided);
    at := DanglingAt(Normalizer(js, g), RawOf(raw, g), refs, i);
    InRefLost(ShapedBy(js, raw), refs, g, Kept(Normalizer(js, g), RawOf(raw, g)), at);
  }

  lemma DanglingAt(normal: Json -> Checked<Claim>, items: seq<Json>, refs: set<string>, i: nat) returns (at: nat)
    requires i < |items| && normal(items[i]).Ok? && exists ref <- RefsOf(normal(items[i]).value) :: ref !in refs
    ensures at == i - |Lost(normal, items[..i])| && (at, DanglingRef) in Lost(Referring(refs), Kept(normal, items))
  {
    assert Referring(refs)(normal(items[i]).value) == Err(DanglingRef);
    SecondSieveReports(normal, Referring(refs), items, i, DanglingRef);
    at := i - |Lost(normal, items[..i])|;
  }

  lemma InRefLost(shaped: Group -> seq<Claim>, refs: set<string>, g: Group, kept: seq<Claim>, at: nat)
    requires shaped(g) == kept && (at, DanglingRef) in Lost(Referring(refs), kept)
    ensures (at, DanglingRef) in RefLost(shaped, refs)(g)
  {
  }

  /** A claim through both gates quotes its source: the quote, normalised, stands in it, normalised. */
  lemma VerifiedIsGrounded(a: Spans.Alphabet, norm: string -> string, sources: map<string, string>, g: Group,
                           claims: seq<Claim>, c: Claim)
    requires c in Kept(Grounding(a, norm, sources, g), claims)
    ensures c in claims && c.ev.sourceId in sources
    ensures Occurs(norm(sources[c.ev.sourceId]), norm(c.ev.quote))
  {
    KeptIffPasses(Grounding(a, norm, sources, g), claims, c);
    var t :| t in claims && Grounding(a, norm, sources, g)(t) == Ok(c);
    assert t == c;
    Spans.HeldIffGrounded(a, norm, FactOf(g, c), sources, Floor(g));
  }
}
