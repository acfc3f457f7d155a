/** From verified claims to graph rows: who each row is about, and which claims become none. */
module Observations {
  import opened Text
  import opened Schema

  type Subject = string

  datatype Authority = MODEL_VERIFIED | DETERMINISTIC

  datatype Row = Row(subject: Subject, predicate_: string, object_: string, attributes: map<string, Json>,
                     evidenceId: string, quote: string, authority: Authority, confidence: real)

  /** What the caller knows from transport; empty strings are no subject. */
  datatype Context = Context(evidenceId: string, subjectHint: Subject, senderSubject: Subject)

  /** `normalAddress`, lowering, trimming and the intake lexicon, by name. */
  datatype Words = Words(normalAddress: string -> string, lower: string -> string, trim: string -> string,
                         intake: string -> bool)

  const SENDER: string := "sender"

  /** Yente is the desk, never a member; the name counts only where no address contradicts it. */
  predicate IsYente(w: Words, e: Claim)
    requires e.Entity?
  {
    var address := if e.email.Some? then w.lower(w.trim(e.email.value)) else "";
    if address != "" then address == "yente@ccme.network" else w.lower(w.trim(e.name)) == "yente"
  }

  /** People without an address, other than the sender. */
  function Anchors(entities: seq<Claim>): seq<Claim> {
    if entities == [] then []
    else
      var n := |entities| - 1;
      var e := entities[n];
      Anchors(entities[..n])
      + if e.Entity? && e.kind == "PERSON" && e.ref != SENDER && Absent(e.email) then [e] else []
  }

  predicate Absent(s: Option<string>) {
    s.None? || s.value == ""
  }

  /** The one person a document is plainly about, when its owner is known. */
  function AnchoredRef(c: Context, entities: seq<Claim>): Option<string> {
    var anchors := Anchors(entities);
    if c.subjectHint != "" && |anchors| == 1 && anchors[0].Entity? then Some(anchors[0].ref) else None
  }

  function NaturalSubject(w: Words, e: Claim): Subject
    requires e.Entity?
  {
    if !Absent(e.email) then "person:" + w.normalAddress(e.email.value)
    else (if e.kind == "ORGANIZATION" then "org" else "person") + ":name:" + w.lower(e.name)
  }

  function SubjectOf(w: Words, c: Context, anchored: Option<string>, e: Claim): Subject
    requires e.Entity?
  {
    if e.ref == SENDER && c.senderSubject != "" then c.senderSubject
    else if Some(e.ref) == anchored then c.subjectHint
    else NaturalSubject(w, e)
  }

  function EntityRow(c: Context, e: Claim, subject: Subject): Row
    requires e.Entity?
  {
    Row(subject, if e.kind == "ORGANIZATION" then "is_organization" else "is_person", e.name,
        if e.title.Some? then map["title" := Str(e.title.value)] else map[],
        e.ev.sourceId, e.ev.quote, MODEL_VERIFIED, e.ev.confidence)
  }

  function AliasRow(c: Context, e: Claim, natural: Subject, subject: Subject): Row {
    Row(natural, "same_as", subject, map["reason" := Str("covering_message_sender")],
        c.evidenceId, e.ev.quote, DETERMINISTIC, 1.0)
  }

  /** The rows one entity adds. */
  function EntityRows(w: Words, c: Context, anchored: Option<string>, e: Claim): seq<Row>
    requires e.Entity?
  {
    var subject, natural := SubjectOf(w, c, anchored, e), NaturalSubject(w, e);
    [EntityRow(c, e, subject)]
    + if Some(e.ref) == anchored && natural != subject then [AliasRow(c, e, natural, subject)] else []
  }

  predicate AllEntities(entities: seq<Claim>) {
    forall e <- entities :: e.Entity?
  }

  /** How entities are read: who is passed over, what rows each adds, whom its ref means, and what is known before. */
  datatype Reading = Reading(skip: Claim -> bool, rows: Claim -> seq<Row>, who: Claim -> Subject,
                             start: map<string, Subject>)

  function ReadingOf(w: Words, c: Context, anchored: Option<string>): Reading {
    Reading((e: Claim) => !e.Entity? || IsYente(w, e),
            (e: Claim) => if e.Entity? then EntityRows(w, c, anchored, e) else [],
            (e: Claim) => if e.Entity? then SubjectOf(w, c, anchored, e) else "",
            if c.senderSubject != "" then map[SENDER := c.senderSubject] else map[])
  }

  function RefOf(e: Claim): string {
    if e.Entity? then e.ref else ""
  }

  /** Which ref means whom, once these entities are read; a later entity overwrites an earlier one. */
  function Subjects(how: Reading, entities: seq<Claim>): map<string, Subject> {
    if entities == [] then how.start
    else
      var n := |entities| - 1;
      var before := Subjects(how, entities[..n]);
      if how.skip(entities[n]) then before else before[RefOf(entities[n]) := how.who(entities[n])]
  }

  function IdentityRows(how: Reading, entities: seq<Claim>): seq<Row> {
    if entities == [] then []
    else
      var n := |entities| - 1;
      IdentityRows(how, entities[..n]) + if how.skip(entities[n]) then [] else how.rows(entities[n])
  }

  /** `subjectOf.get`, with "" for a ref nobody declared. */
  function Get(subjects: map<string, Subject>, ref: string): Subject {
    if ref in subjects then subjects[ref] else ""
  }

  function Attached(c: Claim, subject: Subject, predicate_: string, object_: string, attributes: map<string, Json>): Row {
    Row(subject, predicate_, object_, attributes, c.ev.sourceId, c.ev.quote, MODEL_VERIFIED, c.ev.confidence)
  }

  function WithRawType(attributes: map<string, Json>, rawType: Option<string>): map<string, Json> {
    if Absent(rawType) then attributes else attributes["rawType" := Str(rawType.value)]
  }

  /** The row a claim becomes, or None where the mapper refuses it or nobody is its subject. */
  function RowOf(w: Words, subjects: map<string, Subject>, c: Claim): Option<Row> {
    var row := match c
      case Entity(_, _, _, _, _, _) => None
      case Intent(actor, intent, rawType, object_, attributes, _) =>
        Some(Attached(c, Get(subjects, actor), "intent:" + intent, object_, WithRawType(attributes, rawType)))
      case Relationship(subject, predicate_, target, _) =>
        if Get(subjects, target) == "" then None
        else Some(Attached(c, Get(subjects, subject), predicate_, Get(subjects, target), map[]))
      case Disclosure(subject, field, value, _) =>
        if w.intake(value) then None else Some(Attached(c, Get(subjects, subject), field, value, map[]))
      case Proposal(subject, purpose, aim, grade, _) =>
        if w.intake(aim) then None
        else Some(Attached(c, Get(subjects, subject), "proposal:" + purpose, aim, map["grade" := Str(grade)]));
    if row.Some? && row.value.subject == "" then None else row
  }

  function RowsOf(row: Claim -> Option<Row>, claims: seq<Claim>): seq<Row> {
    if claims == [] then []
    else
      var n := |claims| - 1;
      RowsOf(row, claims[..n]) + match row(claims[n]) case Some(r) => [r] case None => []
  }

  function Rower(w: Words, subjects: map<string, Subject>): Claim -> Option<Row> {
    c => RowOf(w, subjects, c)
  }

  /** The rows of these groups, one group after the other. */
  function GroupRows(row: Claim -> Option<Row>, groups: seq<Group>, verified: map<Group, seq<Claim>>): seq<Row>
    requires forall g :: g in verified
  {
    if groups == [] then []
    else
      var n := |groups| - 1;
      GroupRows(row, groups[..n], verified) + RowsOf(row, verified[groups[n]])
  }

  method Attach(row: Claim -> Option<Row>, claims: seq<Claim>) returns (out: seq<Row>)
    ensures out == RowsOf(row, claims)
  {
    out := [];
    for n := 0 to |claims|
      invariant out == RowsOf(row, claims[..n])
    {
      assert claims[..n + 1][..n] == claims[..n];
      var mapped := row(claims[n]);
      if mapped.Some? { out := out + [mapped.value]; }
    }
    assert claims[..|claims|] == claims;
  }

  /** The loop over entities: rows for each, and what each ref means from here on. */
  method Introduce(how: Reading, entities: seq<Claim>) returns (out: seq<Row>, subjects: map<string, Subject>)
    ensures out == IdentityRows(how, entities) && subjects == Subjects(how, entities)
  {
    out, subjects := [], how.start;
    for n := 0 to |entities|
      invariant out == IdentityRows(how, entities[..n]) && subjects == Subjects(how, entities[..n])
    {
      assert entities[..n + 1][..n] == entities[..n];
      var e := entities[n];
      if how.skip(e) { continue; }
      subjects := subjects[RefOf(e) := how.who(e)];
      out := out + how.rows(e);
    }
    assert entities[..|entities|] == entities;
  }

  function Rows(w: Words, c: Context, verified: map<Group, seq<Claim>>): seq<Row>
    requires forall g :: g in verified
  {
    var how := ReadingOf(w, c, AnchoredRef(c, verified[Entities]));
    IdentityRows(how, verified[Entities])
    + GroupRows(Rower(w, Subjects(how, verified[Entities])), REFERRING, verified)
  }

  method ObservationsFrom(w: Words, c: Context, verified: map<Group, seq<Claim>>) returns (out: seq<Row>)
    requires (forall g :: g in verified) && AllEntities(verified[Entities])
    ensures out == Rows(w, c, verified)
  {
    var anchored := AnchoredRef(c, verified[Entities]);
    var identity, subjects := Introduce(ReadingOf(w, c, anchored), verified[Entities]);
    var attached: seq<Row> := [];
    ghost var row := Rower(w, subjects);
    for n := 0 to |REFERRING|
      invariant attached == GroupRows(row, REFERRING[..n], verified)
    {
      assert REFERRING[..n + 1][..n] == REFERRING[..n];
      var rows := Attach(Rower(w, subjects), verified[REFERRING[n]]);
      attached := attached + rows;
    }
    assert REFERRING[..|REFERRING|] == REFERRING;
    out := identity + attached;
  }

  // ----- who a row may be about -----------------------------------------------------

  /** The entities a ref may mean. */
  ghost predicate Declares(w: Words, entities: seq<Claim>, ref: string)
    requires AllEntities(entities)
  {
    exists e <- entities :: !IsYente(w, e) && e.ref == ref
  }

  lemma {:induction false} InSubjects(how: Reading, entities: seq<Claim>, ref: string)
    ensures ref in Subjects(how, entities)
        <==> ref in how.start || exists e <- entities :: !how.skip(e) && RefOf(e) == ref
  {
    if entities != [] {
      var n := |entities| - 1;
      InSubjects(how, entities[..n], ref);
      assert entities == entities[..n] + [entities[n]];
    }
  }

  lemma {:induction false} SubjectsAreSomebody(how: Reading, entities: seq<Claim>, ref: string)
    requires ref in how.start ==> how.start[ref] != ""
    requires forall e <- entities :: how.skip(e) || how.who(e) != ""
    requires ref in Subjects(how, entities)
    ensures Subjects(how, entities)[ref] != ""
  {
    if entities != [] {
      var n := |entities| - 1;
      var e := entities[n];
      if how.skip(e) || RefOf(e) != ref { SubjectsAreSomebody(how, entities[..n], ref); }
    }
  }

  /** A ref means somebody exactly when a verified entity other than Yente declares it, or it is the sender's. */
  lemma KnownIffDeclared(w: Words, c: Context, anchored: Option<string>, entities: seq<Claim>, ref: string)
    requires AllEntities(entities) && (anchored.Some? ==> c.subjectHint != "")
    ensures Get(Subjects(ReadingOf(w, c, anchored), entities), ref) != ""
        <==> Declares(w, entities, ref) || (ref == SENDER && c.senderSubject != "")
  {
    var how := ReadingOf(w, c, anchored);
    InSubjects(how, entities, ref);
    forall e <- entities ensures how.skip(e) || how.who(e) != "" { SubjectIsSomebody(w, c, anchored, e); }
    if ref in Subjects(how, entities) { SubjectsAreSomebody(how, entities, ref); }
  }

  lemma SubjectIsSomebody(w: Words, c: Context, anchored: Option<string>, e: Claim)
    requires e.Entity? && (anchored.Some? ==> c.subjectHint != "")
    ensures SubjectOf(w, c, anchored, e) != "" && NaturalSubject(w, e) != ""
  {
    assert |NaturalSubject(w, e)| >= 4;
  }

  predicate IntakeArtifact(w: Words, c: Claim) {
    (c.Disclosure? && w.intake(c.value)) || (c.Proposal? && w.intake(c.aim))
  }

  /** A claim becomes a row exactly when every ref in it means somebody and it is no artefact of intake. */
  lemma BecomesARowIff(w: Words, subjects: map<string, Subject>, c: Claim)
    requires !c.Entity?
    ensures RowOf(w, subjects, c).Some?
        <==> (forall ref <- RefsOf(c) :: Get(subjects, ref) != "") && !IntakeArtifact(w, c)
    ensures RowOf(w, subjects, c).Some? ==>
              var row := RowOf(w, subjects, c).value;
              && row.subject == Get(subjects, RefsOf(c)[0]) != "" && row.evidenceId == c.ev.sourceId
              && row.quote == c.ev.quote && row.authority == MODEL_VERIFIED
              && (c.Relationship? ==> row.object_ == Get(subjects, c.target) != "")
  {
    var refs := RefsOf(c);
    assert refs[0] in refs && (c.Relationship? ==> refs[1] in refs);
    assert forall ref <- refs :: ref == refs[0] || (c.Relationship? && ref == refs[1]);
  }

  lemma {:induction false} RowsComeFromClaims(row: Claim -> Option<Row>, claims: seq<Claim>, r: Row)
    ensures r in RowsOf(row, claims) <==> exists c :: c in claims && row(c) == Some(r)
  {
    if claims != [] {
      var n := |claims| - 1;
      RowsComeFromClaims(row, claims[..n], r);
      assert claims == claims[..n] + [claims[n]];
    }
  }

  lemma EntityRowsAreAboutSomebody(w: Words, c: Context, anchored: Option<string>, e: Claim, r: Row)
    requires e.Entity? && (anchored.Some? ==> c.subjectHint != "") && r in EntityRows(w, c, anchored, e)
    ensures r.subject != ""
    ensures r.predicate_ == "same_as" ==> r.subject != r.object_ && r.authority == DETERMINISTIC
    ensures r.predicate_ != "same_as" ==> r.object_ == e.name
  {
    SubjectIsSomebody(w, c, anchored, e);
    assert "is_organization" != "same_as" && "is_person" != "same_as";
  }

  lemma {:induction false} IdentityRowsComeFromEntities(w: Words, c: Context, anchored: Option<string>, entities: seq<Claim>, r: Row)
    returns (e: Claim)
    requires AllEntities(entities) && r in IdentityRows(ReadingOf(w, c, anchored), entities)
    ensures e in entities && !IsYente(w, e) && r in EntityRows(w, c, anchored, e)
  {
    var n := |entities| - 1;
    if r in IdentityRows(ReadingOf(w, c, anchored), entities[..n]) {
      e := IdentityRowsComeFromEntities(w, c, anchored, entities[..n], r);
    } else {
      e := entities[n];
    }
  }

  /** Identity rows have a subject too, and an alias names two different ones. */
  lemma IdentityRowsAreAboutSomebody(w: Words, c: Context, anchored: Option<string>, entities: seq<Claim>, r: Row)
    requires AllEntities(entities) && (anchored.Some? ==> c.subjectHint != "")
    requires r in IdentityRows(ReadingOf(w, c, anchored), entities)
    ensures exists e <- entities :: !IsYente(w, e) && r in EntityRows(w, c, anchored, e)
    ensures r.subject != "" && (r.predicate_ == "same_as" ==> r.subject != r.object_ && r.authority == DETERMINISTIC)
  {
    var e := IdentityRowsComeFromEntities(w, c, anchored, entities, r);
    EntityRowsAreAboutSomebody(w, c, anchored, e, r);
  }

  // ----- every row the mapper returns ---------------------------------------------------

  lemma {:induction false} InGroupRows(row: Claim -> Option<Row>, groups: seq<Group>, verified: map<Group, seq<Claim>>, r: Row)
    requires forall g :: g in verified
    ensures r in GroupRows(row, groups, verified) <==> exists g <- groups, claim <- verified[g] :: row(claim) == Some(r)
  {
    if groups != [] {
      var n := |groups| - 1;
      InGroupRows(row, groups[..n], verified, r);
      RowsComeFromClaims(row, verified[groups[n]], r);
      assert groups == groups[..n] + [groups[n]];
    }
  }

  /** What these verified claims make a ref mean. */
  ghost predicate Means(w: Words, c: Context, verified: map<Group, seq<Claim>>, ref: string)
    requires (forall g :: g in verified) && AllEntities(verified[Entities])
  {
    Declares(w, verified[Entities], ref) || (ref == SENDER && c.senderSubject != "")
  }

  /** A claim that may become a row: it refers, every ref in it means somebody, and it is no intake artefact. */
  ghost predicate Speaks(w: Words, c: Context, verified: map<Group, seq<Claim>>, claim: Claim)
    requires (forall g :: g in verified) && AllEntities(verified[Entities])
  {
    !claim.Entity? && (forall ref <- RefsOf(claim) :: Means(w, c, verified, ref)) && !IntakeArtifact(w, claim)
  }

  function SubjectsOf(w: Words, c: Context, verified: map<Group, seq<Claim>>): map<string, Subject>
    requires forall g :: g in verified
  {
    Subjects(ReadingOf(w, c, AnchoredRef(c, verified[Entities])), verified[Entities])
  }

  /** A claim becomes a row of the result exactly when it speaks, whatever the order of the entities. */
  lemma SpeaksIff(w: Words, c: Context, verified: map<Group, seq<Claim>>, claim: Claim)
    requires (forall g :: g in verified) && AllEntities(verified[Entities])
    ensures RowOf(w, SubjectsOf(w, c, verified), claim).Some? <==> Speaks(w, c, verified, claim)
  {
    if claim.Entity? { return; }
    var subjects := SubjectsOf(w, c, verified);
    BecomesARowIff(w, subjects, claim);
    forall ref <- RefsOf(claim) ensures Get(subjects, ref) != "" <==> Means(w, c, verified, ref) {
      KnownIffDeclared(w, c, AnchoredRef(c, verified[Entities]), verified[Entities], ref);
    }
  }

  lemma {:induction false} SubjectStandsFor(how: Reading, entities: seq<Claim>, ref: string)
    requires ref in Subjects(how, entities)
    ensures var subject := Subjects(how, entities)[ref];
            (exists e <- entities :: !how.skip(e) && RefOf(e) == ref && how.who(e) == subject)
            || (ref in how.start && how.start[ref] == subject)
  {
    if entities != [] {
      var n := |entities| - 1;
      var e := entities[n];
      if how.skip(e) || RefOf(e) != ref { SubjectStandsFor(how, entities[..n], ref); }
    }
  }

  /** This subject is somebody this ref names: a verified entity other than Yente, or the sender. */
  ghost predicate Names(w: Words, c: Context, verified: map<Group, seq<Claim>>, ref: string, subject: Subject)
    requires (forall g :: g in verified) && AllEntities(verified[Entities])
  {
    subject != "" &&
    ((exists e <- verified[Entities] ::
        !IsYente(w, e) && e.ref == ref && SubjectOf(w, c, AnchoredRef(c, verified[Entities]), e) == subject)
     || (ref == SENDER && subject == c.senderSubject))
  }

  lemma GetNames(w: Words, c: Context, verified: map<Group, seq<Claim>>, ref: string)
    requires (forall g :: g in verified) && AllEntities(verified[Entities])
    requires Get(SubjectsOf(w, c, verified), ref) != ""
    ensures Names(w, c, verified, ref, Get(SubjectsOf(w, c, verified), ref))
  {
    SubjectStandsFor(ReadingOf(w, c, AnchoredRef(c, verified[Entities])), verified[Entities], ref);
  }

  /** The row of a claim: the row that is made of it, about whom its refs name, at both ends if it links two. */
  ghost predicate RowFor(w: Words, c: Context, verified: map<Group, seq<Claim>>, claim: Claim, r: Row)
    requires (forall g :: g in verified) && AllEntities(verified[Entities])
  {
    && Speaks(w, c, verified, claim) && RowOf(w, SubjectsOf(w, c, verified), claim) == Some(r)
    && Names(w, c, verified, RefsOf(claim)[0], r.subject)
    && (claim.Relationship? ==> r.predicate_ == claim.predicate_ && Names(w, c, verified, claim.target, r.object_))
  }

  lemma RowIsFor(w: Words, c: Context, verified: map<Group, seq<Claim>>, claim: Claim, r: Row)
    requires (forall g :: g in verified) && AllEntities(verified[Entities])
    requires RowOf(w, SubjectsOf(w, c, verified), claim) == Some(r)
    ensures RowFor(w, c, verified, claim, r)
  {
    SpeaksIff(w, c, verified, claim);
    BecomesARowIff(w, SubjectsOf(w, c, verified), claim);
    GetNames(w, c, verified, RefsOf(claim)[0]);
    if claim.Relationship? { GetNames(w, c, verified, claim.target); }
  }

  /**
   Every row returned is the identity row of an entity other than Yente, or the
   row of a claim all of whose refs name somebody: what grounding took the
   entity from adds no row, and no relationship comes out with one end.
   */
  lemma NoRowAboutNobody(w: Words, c: Context, verified: map<Group, seq<Claim>>, r: Row)
    requires (forall g :: g in verified) && AllEntities(verified[Entities])
    requires r in Rows(w, c, verified)
    ensures r.subject != ""
    ensures (exists e <- verified[Entities] :: !IsYente(w, e) && r in EntityRows(w, c, AnchoredRef(c, verified[Entities]), e))
            || exists g <- REFERRING, claim <- verified[g] :: RowFor(w, c, verified, claim, r)
  {
    var anchored := AnchoredRef(c, verified[Entities]);
    if r in IdentityRows(ReadingOf(w, c, anchored), verified[Entities]) {
      IdentityRowsAreAboutSomebody(w, c, anchored, verified[Entities], r);
    } else {
      var subjects := SubjectsOf(w, c, verified);
      InGroupRows(Rower(w, subjects), REFERRING, verified, r);
      var g, claim :| g in REFERRING && claim in verified[g] && Rower(w, subjects)(claim) == Some(r);
      RowIsFor(w, c, verified, claim, r);
    }
  }

  /** And none is missing: every claim that speaks has its row in the result. */
  lemma SpeakersAreHeard(w: Words, c: Context, verified: map<Group, seq<Claim>>, g: Group, claim: Claim)
    requires (forall h :: h in verified) && AllEntities(verified[Entities])
    requires g in REFERRING && claim in verified[g] && Speaks(w, c, verified, claim)
    ensures exists r <- Rows(w, c, verified) :: RowFor(w, c, verified, claim, r)
  {
    var subjects := SubjectsOf(w, c, verified);
    SpeaksIff(w, c, verified, claim);
    var r := RowOf(w, subjects, claim).value;
    assert Rower(w, subjects)(claim) == Some(r);
    InGroupRows(Rower(w, subjects), REFERRING, verified, r);
    RowIsFor(w, c, verified, claim, r);
    assert r in Rows(w, c, verified);
  }

  /** A relationship claim has its row exactly when both its refs mean somebody. */
  lemma LinksBothEnds(w: Words, c: Context, verified: map<Group, seq<Claim>>, g: Group, claim: Claim)
    requires (forall h :: h in verified) && AllEntities(verified[Entities])
    requires g in REFERRING && claim in verified[g] && claim.Relationship?
    ensures (exists r <- Rows(w, c, verified) :: RowFor(w, c, verified, claim, r))
        <==> Means(w, c, verified, claim.subject) && Means(w, c, verified, claim.target)
  {
    assert RefsOf(claim) == [claim.subject, claim.target];
    if Means(w, c, verified, claim.subject) && Means(w, c, verified, claim.target) {
      SpeakersAreHeard(w, c, verified, g, claim);
    }
    if r :| r in Rows(w, c, verified) && RowFor(w, c, verified, claim, r) {
      assert claim.subject in RefsOf(claim) && claim.target in RefsOf(claim);
    }
  }
}
