/**
 The manifest protocol: a reply that says first how many blocks it will hold,
 so that a reader knows when it is complete and notices when it is cut short.
 */
module Manifest {
  import opened Text

  const Open: string := "<<<"
  const Shut: string := ">>>"
  const MANIFEST: string := "MANIFEST"
  const END: string := "END"

  /**
   The tags of the claim groups, in the order the reader looks for them. All
   that matters of them is `Grouping`; below, `groups` stands for this list.
   */
  const GROUPS: seq<string> := ["ENTITIES", "INTENTS", "RELATIONSHIPS", "DISCLOSURES", "PROPOSALS"]

  function Mark(name: string): string {
    Open + (name + Shut)
  }

  // ----- what the code computes --------------------------------------------

  function CountClosings(text: string): nat
    decreases |text|
  {
    match Find(text, Mark(END), 0)
    case None => 0
    case Some(i) => 1 + CountClosings(text[i + |Mark(END)|..])
  }

  function Slice(text: string, from: nat, to: nat): string {
    if from <= to <= |text| then text[from..to] else ""
  }

  /** The text from `from` to the closer found at `closing`. */
  function UpTo(text: string, from: nat, closing: Option<nat>): Option<string> {
    match closing
    case None => None
    case Some(j) => Some(Slice(text, from, j))
  }

  /** The text between the first `opener` and the closer behind it. */
  function Framed(text: string, opener: string, closer: string): Option<string> {
    match Find(text, opener, 0)
    case None => None
    case Some(i) => UpTo(text, i + |opener|, Find(text, closer, i + |opener|))
  }

  /** The body of the first closed block with this tag. */
  function FrameOf(text: string, tag: string): Option<string> {
    Framed(text, Mark(tag), Mark(END))
  }

  /**
   The count a manifest declares. `number` gives the integer that the JSON of
   a body, its ends trimmed, declares, if it declares one.
   */
  function Declared(manifest: Option<string>, number: string -> Option<int>, most: nat): Option<nat> {
    match manifest
    case None => None
    case Some(body) =>
      match number(body)
      case None => None
      case Some(n) => if 0 <= n <= most then Some(n) else None
  }

  function DeclaredBlocks(text: string, number: string -> Option<int>, groups: seq<string>): Option<nat> {
    Declared(FrameOf(text, MANIFEST), number, |groups|)
  }

  function ManifestStop(text: string, number: string -> Option<int>, groups: seq<string>): bool {
    var closings := CountClosings(text);
    match DeclaredBlocks(text, number, groups)
    case None => closings >= 1 && FrameOf(text, MANIFEST) == None
    case Some(n) => closings >= n + 1
  }

  /** What JSON makes of a block's body, its ends trimmed. */
  datatype Parsed = Items(claims: seq<string>) | NotAnArray | Unparseable

  datatype Read = Read(raw: map<string, seq<string>>, declared: Option<nat>, found: seq<string>,
                       malformed: seq<string>, missing: nat)

  datatype Answered = Usable(value: Read) | MalformedArtifact

  datatype Verdict = Absent | Found(claims: seq<string>) | Malformed

  /** What the reader makes of one group's frame. */
  function Look(frame: Option<string>, declared: bool, parse: string -> Parsed): Verdict {
    match frame
    case None => Absent
    case Some(body) =>
      match parse(body)
      case Items(claims) => Found(claims)
      case NotAnArray => if declared then Malformed else Absent
      case Unparseable => Malformed
  }

  /** The groups with this kind of verdict, in the reader's order. */
  function Which(look: string -> Verdict, tags: seq<string>, found: bool): seq<string> {
    if tags == [] then []
    else
      var last := tags[|tags| - 1];
      Which(look, tags[..|tags| - 1], found)
      + if (if found then look(last).Found? else look(last).Malformed?) then [last] else []
  }

  /** What the reader makes of each group of this text. */
  function Looker(text: string, declared: bool, parse: string -> Parsed): string -> Verdict {
    tag => Look(FrameOf(text, tag), declared, parse)
  }

  /** The reader's loop over the groups. */
  method Survey(look: string -> Verdict, tags: seq<string>)
    returns (raw: map<string, seq<string>>, found: seq<string>, malformed: seq<string>)
    ensures found == Which(look, tags, true) && malformed == Which(look, tags, false) && Holds(raw, look, found)
  {
    raw, found, malformed := map[], [], [];
    for n := 0 to |tags|
      invariant found == Which(look, tags[..n], true) && malformed == Which(look, tags[..n], false)
      invariant Holds(raw, look, found)
    {
      assert tags[..n + 1][..n] == tags[..n];
      match look(tags[n])
      case Absent =>
      case Found(claims) => raw, found := raw[tags[n] := claims], found + [tags[n]];
      case Malformed => malformed := malformed + [tags[n]];
    }
    assert tags[..|tags|] == tags;
  }

  method ReadManifestBlocks(text: string, number: string -> Option<int>, parse: string -> Parsed,
                            groups: seq<string>)
    returns (r: Answered)
    ensures var declared := DeclaredBlocks(text, number, groups);
            var look := Looker(text, declared.Some?, parse);
            var found, malformed := Which(look, groups, true), Which(look, groups, false);
            if found == [] && malformed == [] then r == MalformedArtifact
            else
              && r.Usable? && r.value.declared == declared
              && r.value.found == found && r.value.malformed == malformed
              && r.value.missing == Missing(declared, |found| + |malformed|)
              && Holds(r.value.raw, look, found)
  {
    var declared := DeclaredBlocks(text, number, groups);
    var raw, found, malformed := Survey(Looker(text, declared.Some?, parse), groups);
    if found == [] && malformed == [] { return MalformedArtifact; }
    return Usable(Read(raw, declared, found, malformed, Missing(declared, |found| + |malformed|)));
  }

  /** `raw` holds the claims of exactly the groups found. */
  predicate Holds(raw: map<string, seq<string>>, look: string -> Verdict, found: seq<string>) {
    raw.Keys == (set tag | tag in found) && forall tag <- found :: look(tag) == Found(raw[tag])
  }

  function Missing(declared: Option<nat>, seen: nat): nat {
    match declared
    case None => 0
    case Some(n) => if n > seen then n - seen else 0
  }

  // ----- a well-formed answer ------------------------------------------------

  datatype Block = Block(lead: string, tag: string, body: string)

  /** Text in which no mark begins, not even together with what follows. */
  ghost predicate Quiet(s: string) {
    (forall k: nat :: !At(s, Open, k)) && (s == "" || s[|s| - 1] != '<')
  }

  predicate Name(tag: string) {
    tag != "" && forall i :: 0 <= i < |tag| ==> tag[i] != '<' && tag[i] != '>'
  }

  ghost predicate WellFormed(b: Block) {
    Quiet(b.lead) && Name(b.tag) && b.tag != END && Quiet(b.body)
  }

  function Printed(b: Block): string {
    b.lead + (Mark(b.tag) + (b.body + Mark(END)))
  }

  /** Where a printed block's closing stands. */
  function EndOf(b: Block): (n: nat)
    ensures n + |Mark(END)| == |Printed(b)|
  {
    |b.lead| + |Mark(b.tag)| + |b.body|
  }

  function Answer(bs: seq<Block>, trailer: string): string {
    if bs == [] then trailer else Printed(bs[0]) + Answer(bs[1..], trailer)
  }

  /** How many blocks are complete in the first `n` characters. */
  function Done(bs: seq<Block>, n: nat): (d: nat)
    ensures d <= |bs|
  {
    if bs == [] || n < |Printed(bs[0])| then 0 else 1 + Done(bs[1..], n - |Printed(bs[0])|)
  }

  // ----- where marks stand -----------------------------------------------------

  lemma OpenChars(s: string, k: nat)
    ensures At(s, Open, k) <==> k + 3 <= |s| && s[k] == '<' && s[k + 1] == '<' && s[k + 2] == '<'
  {
    AtChars(s, Open, k);
    assert Open[0] == '<' && Open[1] == '<' && Open[2] == '<';
  }

  lemma MarkOpens(s: string, tag: string, k: nat)
    requires At(s, Mark(tag), k)
    ensures At(s, Open, k)
  {
    assert s[k..k + |Mark(tag)|][..3] == Open;
    assert s[k..k + 3] == s[k..k + |Mark(tag)|][..3];
  }

  lemma NotBeforeMark(q: string, tag: string, rest: string, k: nat)
    requires Quiet(q) && k < |q|
    ensures !At(q + (Mark(tag) + rest), Open, k)
  {
    var s := q + (Mark(tag) + rest);
    OpenChars(s, k);
    OpenChars(q, k);
    assert s[|q| - 1] == q[|q| - 1];
  }

  lemma NotInsideMark(q: string, tag: string, rest: string, j: nat)
    requires Name(tag) && 0 < j < |Mark(tag)|
    ensures !At(q + (Mark(tag) + rest), Open, |q| + j)
  {
    var s := q + (Mark(tag) + rest);
    OpenChars(s, |q| + j);
    MarkChars(tag, j);
    assert s[|q| + j] == Mark(tag)[j] && s[|q| + 3] == Mark(tag)[3];
  }

  /** Behind quiet text the first place a mark can stand is where one is printed. */
  lemma OnlyMark(q: string, tag: string, rest: string, k: nat)
    requires Quiet(q) && Name(tag) && k < |q| + |Mark(tag)| && At(q + (Mark(tag) + rest), Open, k)
    ensures k == |q|
  {
    if k < |q| {
      NotBeforeMark(q, tag, rest, k);
    } else if k > |q| {
      NotInsideMark(q, tag, rest, k - |q|);
    }
  }

  lemma MarkChars(tag: string, j: nat)
    requires Name(tag) && j < |Mark(tag)|
    ensures |Mark(tag)| > 6 && (j >= 3 ==> Mark(tag)[j] != '<') && Mark(tag)[3] != '<'
  {
    assert Mark(tag)[3] == tag[0];
    if j >= 3 { assert Mark(tag)[j] == (tag + Shut)[j - 3]; }
  }

  /** The only marks that stand in a printed block are its own two. */
  lemma OnlyOwnMarks(b: Block, rest: string, k: nat)
    requires WellFormed(b) && k < |Printed(b)| && At(Printed(b) + rest, Open, k)
    ensures k == |b.lead| || k == EndOf(b)
  {
    Regroup(b, rest);
    var head := |b.lead| + |Mark(b.tag)|;
    var back := b.body + (Mark(END) + rest);
    if k < head {
      OnlyMark(b.lead, b.tag, back, k);
    } else {
      assert (Printed(b) + rest)[head..] == back;
      OpenChars(Printed(b) + rest, k);
      OpenChars(back, k - head);
      OnlyMark(b.body, END, rest, k - head);
    }
  }

  lemma Regroup(b: Block, rest: string)
    ensures Printed(b) + rest == b.lead + (Mark(b.tag) + (b.body + (Mark(END) + rest)))
  {
    Assoc(b.lead, Mark(b.tag) + (b.body + Mark(END)), rest);
    Assoc(Mark(b.tag), b.body + Mark(END), rest);
    Assoc(b.body, Mark(END), rest);
  }

  /** Where one name is marked, no other is. */
  lemma OneMarkAtATime(s: string, k: nat, a: string, b: string)
    requires Name(a) && Name(b) && At(s, Mark(a), k) && At(s, Mark(b), k)
    ensures a == b
  {
    AtChars(s, Mark(a), k);
    AtChars(s, Mark(b), k);
    if |a| < |b| {
      NameEnds(a, b);
    } else if |b| < |a| {
      NameEnds(b, a);
    } else {
      forall i | 0 <= i < |a| ensures a[i] == b[i] {
        assert Mark(a)[3 + i] == a[i] && Mark(b)[3 + i] == b[i];
      }
    }
  }

  lemma NameEnds(a: string, b: string)
    requires Name(b) && |a| < |b|
    ensures |Mark(b)| > 3 + |a| && |Mark(a)| > 3 + |a| && Mark(a)[3 + |a|] != Mark(b)[3 + |a|]
  {
    assert Mark(a)[3 + |a|] == '>' && Mark(b)[3 + |a|] == b[|a|];
  }

  lemma MarkStands(q: string, tag: string, rest: string)
    ensures At(q + (Mark(tag) + rest), Mark(tag), |q|)
  {
  }

  /** A block's own marks are where it was printed. */
  lemma OwnMarks(b: Block, rest: string)
    ensures At(Printed(b) + rest, Mark(b.tag), |b.lead|)
    ensures At(Printed(b) + rest, Mark(END), EndOf(b))
  {
    Regroup(b, rest);
    MarkStands(b.lead, b.tag, b.body + (Mark(END) + rest));
    var front := b.lead + (Mark(b.tag) + b.body);
    assert Printed(b) == front + Mark(END);
    Assoc(front, Mark(END), rest);
    MarkStands(front, END, rest);
  }

  lemma EndIsAName()
    ensures Name(END)
  {
  }

  lemma NoClosingBefore(b: Block, rest: string, k: nat)
    requires WellFormed(b) && k < EndOf(b)
    ensures !At(Printed(b) + rest, Mark(END), k)
  {
    var s := Printed(b) + rest;
    OwnMarks(b, rest);
    EndIsAName();
    if At(s, Mark(END), k) {
      MarkOpens(s, END, k);
      OnlyOwnMarks(b, rest, k);
      OneMarkAtATime(s, k, END, b.tag);
    }
  }

  /** The first closing in a block is its own. */
  lemma FirstClosing(b: Block, rest: string, from: nat)
    requires WellFormed(b) && from <= EndOf(b)
    ensures Find(Printed(b) + rest, Mark(END), from) == Some(EndOf(b))
  {
    var own: nat := EndOf(b);
    OwnMarks(b, rest);
    forall k: nat | k < own ensures !At(Printed(b) + rest, Mark(END), k) { NoClosingBefore(b, rest, k); }
    FindIs(Printed(b) + rest, Mark(END), from, own);
  }

  lemma OwnOpener(b: Block, rest: string)
    requires WellFormed(b)
    ensures Find(Printed(b) + rest, Mark(b.tag), 0) == Some(|b.lead|)
  {
    var s := Printed(b) + rest;
    OwnMarks(b, rest);
    forall k: nat | k < |b.lead| ensures !At(s, Mark(b.tag), k) {
      if At(s, Mark(b.tag), k) {
        MarkOpens(s, b.tag, k);
        OnlyOwnMarks(b, rest, k);
      }
    }
    FindIs(s, Mark(b.tag), 0, |b.lead|);
  }

  lemma ForeignMark(b: Block, rest: string, tag: string, k: nat)
    requires WellFormed(b) && Name(tag) && tag != b.tag && tag != END && k < |Printed(b)|
    ensures !At(Printed(b) + rest, Mark(tag), k)
  {
    var s := Printed(b) + rest;
    OwnMarks(b, rest);
    EndIsAName();
    if At(s, Mark(tag), k) {
      MarkOpens(s, tag, k);
      OnlyOwnMarks(b, rest, k);
      if k == |b.lead| { OneMarkAtATime(s, k, tag, b.tag); } else { OneMarkAtATime(s, k, tag, END); }
    }
  }

  // ----- searching on behind a block --------------------------------------------

  lemma Shifted(w: string, rest: string, pat: string, k: nat)
    ensures At(w + rest, pat, |w| + k) <==> At(rest, pat, k)
  {
    if k + |pat| <= |rest| {
      assert (w + rest)[|w| + k..|w| + k + |pat|] == rest[k..k + |pat|];
    }
  }

  function Moved(n: nat, found: Option<nat>): Option<nat> {
    match found case None => None case Some(i) => Some(n + i)
  }

  lemma {:induction false} FindShifts(w: string, rest: string, pat: string, from: nat)
    ensures Find(w + rest, pat, |w| + from) == Moved(|w|, Find(rest, pat, from))
    decreases if from <= |rest| then |rest| + 1 - from else 0
  {
    Shifted(w, rest, pat, from);
    if from <= |rest| && !At(rest, pat, from) { FindShifts(w, rest, pat, from + 1); }
  }

  lemma {:induction false} FindSkips(s: string, pat: string, from: nat, to: nat)
    requires from <= to && forall k: nat :: from <= k < to ==> !At(s, pat, k)
    ensures Find(s, pat, from) == Find(s, pat, to)
    decreases if from <= to then to - from else 0
  {
    if from < to && from <= |s| { FindSkips(s, pat, from + 1, to); }
  }

  lemma SliceShifts(w: string, rest: string, from: nat, to: nat)
    ensures Slice(w + rest, |w| + from, |w| + to) == Slice(rest, from, to)
  {
    if from <= to <= |rest| { assert (w + rest)[|w| + from..|w| + to] == rest[from..to]; }
  }

  lemma UpToShifts(w: string, rest: string, from: nat, closing: Option<nat>)
    ensures UpTo(w + rest, |w| + from, Moved(|w|, closing)) == UpTo(rest, from, closing)
  {
    if closing.Some? { SliceShifts(w, rest, from, closing.value); }
  }

  lemma FindBehind(w: string, rest: string, pat: string)
    requires forall k: nat :: k < |w| ==> !At(w + rest, pat, k)
    ensures Find(w + rest, pat, 0) == Moved(|w|, Find(rest, pat, 0))
  {
    FindSkips(w + rest, pat, 0, |w|);
    FindShifts(w, rest, pat, 0);
  }

  lemma FramedIs(text: string, opener: string, closer: string, i: nat, from: nat, closing: Option<nat>)
    requires Find(text, opener, 0) == Some(i) && from == i + |opener| && Find(text, closer, from) == closing
    ensures Framed(text, opener, closer) == UpTo(text, from, closing)
  {
  }

  lemma FramedMoves(w: string, rest: string, opener: string, closer: string, i: nat)
    requires Find(rest, opener, 0) == Some(i) && Find(w + rest, opener, 0) == Some(|w| + i)
    ensures Framed(w + rest, opener, closer) == Framed(rest, opener, closer)
  {
    var from: nat := i + |opener|;
    var closing: Option<nat> := Find(rest, closer, from);
    FindShifts(w, rest, closer, from);
    FramedIs(rest, opener, closer, i, from, closing);
    FramedIs(w + rest, opener, closer, |w| + i, |w| + from, Moved(|w|, closing));
    UpToShifts(w, rest, from, closing);
  }

  lemma FramedBehind(w: string, rest: string, opener: string, closer: string)
    requires forall k: nat :: k < |w| ==> !At(w + rest, opener, k)
    ensures Framed(w + rest, opener, closer) == Framed(rest, opener, closer)
  {
    FindBehind(w, rest, opener);
    var first: Option<nat> := Find(rest, opener, 0);
    if first.Some? { FramedMoves(w, rest, opener, closer, first.value); }
  }

  lemma FrameBehind(b: Block, rest: string, tag: string)
    requires WellFormed(b) && Name(tag) && tag != b.tag && tag != END
    ensures FrameOf(Printed(b) + rest, tag) == FrameOf(rest, tag)
  {
    var w := Printed(b);
    forall k: nat | k < |w| ensures !At(w + rest, Mark(tag), k) { ForeignMark(b, rest, tag, k); }
    FramedBehind(w, rest, Mark(tag), Mark(END));
  }

  /** What stands between a first opener and the closer behind it. */
  lemma FramedBody(text: string, opener: string, closer: string, i: nat, body: string)
    requires Find(text, opener, 0) == Some(i)
    requires Find(text, closer, i + |opener|) == Some(i + |opener| + |body|)
    requires Slice(text, i + |opener|, i + |opener| + |body|) == body
    ensures Framed(text, opener, closer) == Some(body)
  {
    FramedIs(text, opener, closer, i, i + |opener|, Some(i + |opener| + |body|));
  }

  lemma BodyStands(lead: string, opener: string, body: string, closer: string, rest: string)
    ensures var text := lead + (opener + (body + closer)) + rest;
            var from := |lead| + |opener|;
            Slice(text, from, from + |body|) == body
  {
    var text := lead + (opener + (body + closer)) + rest;
    assert text == lead + opener + body + (closer + rest);
  }

  lemma OwnBody(b: Block, rest: string)
    ensures var from := |b.lead| + |Mark(b.tag)|;
            Slice(Printed(b) + rest, from, from + |b.body|) == b.body
  {
    BodyStands(b.lead, Mark(b.tag), b.body, Mark(END), rest);
  }

  lemma OwnFinds(b: Block, rest: string)
    requires WellFormed(b)
    ensures Find(Printed(b) + rest, Mark(b.tag), 0) == Some(|b.lead|)
    ensures Find(Printed(b) + rest, Mark(END), |b.lead| + |Mark(b.tag)|) == Some(|b.lead| + |Mark(b.tag)| + |b.body|)
  {
    OwnOpener(b, rest);
    FirstClosing(b, rest, |b.lead| + |Mark(b.tag)|);
  }

  /** Where the block's own marks stand in a text that begins with it. */
  ghost predicate Begins(text: string, b: Block, opener: string, closer: string) {
    && Find(text, opener, 0) == Some(|b.lead|)
    && Find(text, closer, |b.lead| + |opener|) == Some(|b.lead| + |opener| + |b.body|)
    && Slice(text, |b.lead| + |opener|, |b.lead| + |opener| + |b.body|) == b.body
  }

  lemma OwnBegins(b: Block, rest: string)
    requires WellFormed(b)
    ensures Begins(Printed(b) + rest, b, Mark(b.tag), Mark(END))
  {
    OwnFinds(b, rest);
    OwnBody(b, rest);
  }

  lemma BeginsFramed(text: string, b: Block, tag: string)
    requires Begins(text, b, Mark(tag), Mark(END))
    ensures FrameOf(text, tag) == Some(b.body)
  {
    FramedBody(text, Mark(tag), Mark(END), |b.lead|, b.body);
  }

  lemma FrameFirst(b: Block, rest: string)
    requires WellFormed(b)
    ensures FrameOf(Printed(b) + rest, b.tag) == Some(b.body)
  {
    OwnBegins(b, rest);
    BeginsFramed(Printed(b) + rest, b, b.tag);
  }

  lemma ClosingsBehind(b: Block, rest: string)
    requires WellFormed(b)
    ensures CountClosings(Printed(b) + rest) == 1 + CountClosings(rest)
  {
    FirstClosing(b, rest, 0);
    assert (Printed(b) + rest)[|Printed(b)|..] == rest;
  }

  // ----- an answer cut anywhere ----------------------------------------------------

  /** A block cut short holds no closing. */
  lemma CutBlockIsOpen(b: Block, n: nat, k: nat)
    requires WellFormed(b) && n < |Printed(b)|
    ensures !At(Printed(b)[..n], Mark(END), k)
  {
    var w := Printed(b);
    assert w + "" == w;
    FirstClosing(b, "", 0);
    FindSpec(w, Mark(END), 0);
    if At(w[..n], Mark(END), k) {
      assert w[k..k + |Mark(END)|] == w[..n][k..k + |Mark(END)|];
      assert At(w, Mark(END), k);
    }
  }

  lemma QuietHasNoMark(s: string, tag: string, n: nat, k: nat)
    requires Quiet(s) && n <= |s|
    ensures !At(s[..n], Mark(tag), k)
  {
    if At(s[..n], Mark(tag), k) {
      MarkOpens(s[..n], tag, k);
      assert s[k..k + 3] == s[..n][k..k + 3];
      assert At(s, Open, k);
    }
  }

  lemma NoClosingNoFrame(s: string, tag: string)
    requires forall k: nat :: !At(s, Mark(END), k)
    ensures FrameOf(s, tag) == None && CountClosings(s) == 0
  {
    FindSpec(s, Mark(END), 0);
    var first: Option<nat> := Find(s, Mark(tag), 0);
    if first.Some? { FindSpec(s, Mark(END), first.value + |Mark(tag)|); }
  }

  ghost predicate AllWellFormed(bs: seq<Block>) {
    forall i :: 0 <= i < |bs| ==> WellFormed(bs[i])
  }

  predicate DistinctTags(bs: seq<Block>) {
    forall i, j :: 0 <= i < j < |bs| ==> bs[i].tag != bs[j].tag
  }

  /** Cutting an answer cuts its first block, or what follows it. */
  lemma CutAnswer(bs: seq<Block>, trailer: string, n: nat)
    requires bs != [] && n <= |Answer(bs, trailer)|
    ensures var w := Printed(bs[0]);
            Answer(bs, trailer)[..n] == if n < |w| then w[..n] else w + Answer(bs[1..], trailer)[..n - |w|]
  {
  }

  lemma CutBlockHasNoFrame(b: Block, n: nat, tag: string)
    requires WellFormed(b) && n < |Printed(b)|
    ensures FrameOf(Printed(b)[..n], tag) == None && CountClosings(Printed(b)[..n]) == 0
  {
    forall k: nat ensures !At(Printed(b)[..n], Mark(END), k) { CutBlockIsOpen(b, n, k); }
    NoClosingNoFrame(Printed(b)[..n], tag);
  }

  lemma QuietHasNoFrame(s: string, n: nat, tag: string)
    requires Quiet(s) && n <= |s|
    ensures FrameOf(s[..n], tag) == None && CountClosings(s[..n]) == 0
  {
    forall k: nat ensures !At(s[..n], Mark(END), k) { QuietHasNoMark(s, END, n, k); }
    NoClosingNoFrame(s[..n], tag);
  }

  /** The closings in any prefix of an answer are those of its complete blocks. */
  lemma {:induction false} ClosingsAreDone(bs: seq<Block>, trailer: string, n: nat)
    requires AllWellFormed(bs) && Quiet(trailer) && n <= |Answer(bs, trailer)|
    ensures CountClosings(Answer(bs, trailer)[..n]) == Done(bs, n)
  {
    if bs == [] {
      QuietHasNoFrame(trailer, n, END);
    } else if n < |Printed(bs[0])| {
      CutAnswer(bs, trailer, n);
      CutBlockHasNoFrame(bs[0], n, END);
    } else {
      CutAnswer(bs, trailer, n);
      var m := n - |Printed(bs[0])|;
      ClosingsAreDone(bs[1..], trailer, m);
      ClosingsBehind(bs[0], Answer(bs[1..], trailer)[..m]);
    }
  }

  /** The body a prefix of an answer holds for a tag. */
  function BodyOf(bs: seq<Block>, tag: string): Option<string> {
    if bs == [] then None else if bs[0].tag == tag then Some(bs[0].body) else BodyOf(bs[1..], tag)
  }

  lemma DoneCons(bs: seq<Block>, n: nat)
    requires bs != [] && n >= |Printed(bs[0])|
    ensures bs[..Done(bs, n)] == [bs[0]] + bs[1..][..Done(bs[1..], n - |Printed(bs[0])|)]
  {
  }

  lemma BodyOfCons(b: Block, bs: seq<Block>, tag: string)
    ensures BodyOf([b] + bs, tag) == if b.tag == tag then Some(b.body) else BodyOf(bs, tag)
  {
    assert ([b] + bs)[1..] == bs;
  }

  /** A prefix of an answer holds the frames of its complete blocks, and no others. */
  lemma {:induction false} FramesAreDone(bs: seq<Block>, trailer: string, n: nat, tag: string)
    requires AllWellFormed(bs) && Quiet(trailer) && n <= |Answer(bs, trailer)| && Name(tag) && tag != END
    ensures FrameOf(Answer(bs, trailer)[..n], tag) == BodyOf(bs[..Done(bs, n)], tag)
  {
    if bs == [] {
      QuietHasNoFrame(trailer, n, tag);
    } else if n < |Printed(bs[0])| {
      CutAnswer(bs, trailer, n);
      CutBlockHasNoFrame(bs[0], n, tag);
    } else {
      CutAnswer(bs, trailer, n);
      var m := n - |Printed(bs[0])|;
      FramesAreDone(bs[1..], trailer, m, tag);
      DoneCons(bs, n);
      BodyOfCons(bs[0], bs[1..][..Done(bs[1..], m)], tag);
      var rest := Answer(bs[1..], trailer)[..m];
      if bs[0].tag == tag { FrameFirst(bs[0], rest); } else { FrameBehind(bs[0], rest, tag); }
    }
  }

  // ----- counting the groups ---------------------------------------------------------

  /** Number of these tags for which `p` holds. */
  function Count(p: string -> bool, tags: seq<string>): nat {
    if tags == [] then 0 else Count(p, tags[..|tags| - 1]) + (if p(tags[|tags| - 1]) then 1 else 0)
  }

  predicate NoRepeats(tags: seq<string>) {
    forall i, j :: 0 <= i < j < |tags| ==> tags[i] != tags[j]
  }

  lemma {:induction false} WhichCounts(look: string -> Verdict, tags: seq<string>)
    ensures |Which(look, tags, true)| + |Which(look, tags, false)| == Count(tag => !look(tag).Absent?, tags)
  {
    if tags != [] { WhichCounts(look, tags[..|tags| - 1]); }
  }

  function Shared(tags: seq<string>, S: set<string>): set<string> {
    set tag <- tags | tag in S
  }

  lemma SharedSnoc(tags: seq<string>, last: string, S: set<string>)
    ensures Shared(tags + [last], S) == if last in S then Shared(tags, S) + {last} else Shared(tags, S)
  {
  }

  /** Counting a distinct list against a set is the size of what they share. */
  lemma {:induction false} CountIsSize(p: string -> bool, tags: seq<string>, S: set<string>)
    requires NoRepeats(tags) && forall tag :: p(tag) <==> tag in S
    ensures Count(p, tags) == |Shared(tags, S)|
  {
    if tags == [] {
      assert Shared(tags, S) == {};
    } else {
      var n := |tags| - 1;
      CountIsSize(p, tags[..n], S);
      assert tags == tags[..n] + [tags[n]];
      SharedSnoc(tags[..n], tags[n], S);
    }
  }

  function Tags(bs: seq<Block>): set<string> {
    set b <- bs :: b.tag
  }

  lemma TagsSnoc(bs: seq<Block>, b: Block)
    ensures Tags(bs + [b]) == Tags(bs) + {b.tag}
  {
  }

  lemma {:induction false} TagsAreAsMany(bs: seq<Block>)
    requires DistinctTags(bs)
    ensures |Tags(bs)| == |bs|
  {
    if bs == [] {
      assert Tags(bs) == {};
    } else {
      var n := |bs| - 1;
      TagsAreAsMany(bs[..n]);
      assert bs == bs[..n] + [bs[n]];
      TagsSnoc(bs[..n], bs[n]);
    }
  }

  // ----- stopping and noticing ---------------------------------------------------------

  /** A manifest that declares as many blocks as follow, each of another group. */
  ghost predicate Answers(bs: seq<Block>, trailer: string, number: string -> Option<int>, groups: seq<string>) {
    && Grouping(groups) && |bs| >= 2 && AllWellFormed(bs) && DistinctTags(bs) && Quiet(trailer)
    && bs[0].tag == MANIFEST && number(bs[0].body) == Some(|bs| - 1)
    && forall i :: 1 <= i < |bs| ==> bs[i].tag in groups
  }

  /** Group tags are distinct, and none is the manifest's or the closing's. */
  predicate Grouping(groups: seq<string>) {
    NoRepeats(groups) && MANIFEST !in groups && END !in groups && forall tag <- groups :: Name(tag)
  }

  lemma GroupsAreNames()
    ensures forall tag <- GROUPS :: Name(tag)
  {
    assert forall tag <- GROUPS :: tag == GROUPS[0] || tag == GROUPS[1] || tag == GROUPS[2] || tag == GROUPS[3] || tag == GROUPS[4];
  }

  lemma GroupsAreAGrouping()
    ensures Grouping(GROUPS)
  {
    GroupsAreNames();
    assert |GROUPS[0]| == 8 && |GROUPS[1]| == 7 && |GROUPS[2]| == 13 && |GROUPS[3]| == 11 && |GROUPS[4]| == 9;
    assert MANIFEST[0] == 'M' && GROUPS[0][0] == 'E' && |END| == 3;
  }

  lemma ManifestIsAName()
    ensures Name(MANIFEST) && MANIFEST != END
  {
    assert |END| == 3;
  }

  lemma {:induction false} BodyIffTag(bs: seq<Block>, tag: string)
    ensures BodyOf(bs, tag).Some? <==> tag in Tags(bs)
    ensures forall i :: 0 <= i < |bs| && DistinctTags(bs) && bs[i].tag == tag ==> BodyOf(bs, tag) == Some(bs[i].body)
  {
    if bs != [] {
      BodyIffTag(bs[1..], tag);
      assert bs == [bs[0]] + bs[1..];
      assert Tags(bs) == {bs[0].tag} + Tags(bs[1..]);
    }
  }

  lemma CompleteTags(bs: seq<Block>, groups: seq<string>, d: nat)
    requires 1 <= d <= |bs| && DistinctTags(bs) && bs[0].tag == MANIFEST && MANIFEST !in groups
    requires forall i :: 1 <= i < |bs| ==> bs[i].tag in groups
    ensures |Shared(groups, Tags(bs[..d]))| == d - 1
  {
    var seen := bs[1..d];
    assert bs[..d] == [bs[0]] + seen;
    TagsAreAsMany(seen);
    SharedBehind(bs[0], seen, groups);
  }

  lemma SharedBehind(first: Block, seen: seq<Block>, groups: seq<string>)
    requires first.tag !in groups && forall i :: 0 <= i < |seen| ==> seen[i].tag in groups
    ensures Shared(groups, Tags([first] + seen)) == Tags(seen)
  {
    assert Tags([first] + seen) == {first.tag} + Tags(seen);
  }

  /** What a prefix with `d` complete blocks declares. */
  lemma DeclaredIs(bs: seq<Block>, trailer: string, number: string -> Option<int>, groups: seq<string>, n: nat)
    requires Answers(bs, trailer, number, groups) && n <= |Answer(bs, trailer)|
    ensures Done(bs, n) == 0 ==> DeclaredBlocks(Answer(bs, trailer)[..n], number, groups) == None
    ensures Done(bs, n) > 0 ==> DeclaredBlocks(Answer(bs, trailer)[..n], number, groups) == Some(|bs| - 1)
  {
    ManifestIsAName();
    FramesAreDone(bs, trailer, n, MANIFEST);
    var d := Done(bs, n);
    if d > 0 {
      assert bs[..d][0] == bs[0];
      CompleteTags(bs, groups, |bs|);
      assert bs[..|bs|] == bs;
      SharedIsNoMore(groups, Tags(bs));
    }
  }

  lemma {:induction false} SharedIsNoMore(tags: seq<string>, S: set<string>)
    ensures |Shared(tags, S)| <= |tags|
  {
    if tags != [] {
      var n := |tags| - 1;
      SharedIsNoMore(tags[..n], S);
      assert tags == tags[..n] + [tags[n]];
      SharedSnoc(tags[..n], tags[n], S);
    } else {
      assert Shared(tags, S) == {};
    }
  }

  lemma SeenAreShared(look: string -> Verdict, groups: seq<string>, T: set<string>)
    requires NoRepeats(groups) && forall tag <- groups :: !look(tag).Absent? <==> tag in T
    ensures |Which(look, groups, true)| + |Which(look, groups, false)| == |Shared(groups, T)|
  {
    WhichCounts(look, groups);
    CountSame(tag => !look(tag).Absent?, tag => tag in T, groups);
    CountIsSize(tag => tag in T, groups, T);
  }

  /** `look` is what the reader makes of each group of this text. */
  ghost predicate Looks(look: string -> Verdict, text: string, declared: bool, parse: string -> Parsed, groups: seq<string>) {
    forall tag <- groups :: look(tag) == Look(FrameOf(text, tag), declared, parse)
  }

  lemma SeenIffDone(bs: seq<Block>, trailer: string, parse: string -> Parsed, n: nat, tag: string)
    requires AllWellFormed(bs) && Quiet(trailer) && n <= |Answer(bs, trailer)| && Name(tag) && tag != END
    ensures !Look(FrameOf(Answer(bs, trailer)[..n], tag), true, parse).Absent? <==> tag in Tags(bs[..Done(bs, n)])
  {
    FramesAreDone(bs, trailer, n, tag);
    BodyIffTag(bs[..Done(bs, n)], tag);
  }

  /** How many groups the reader sees, found or malformed. */
  function Seen(look: string -> Verdict, groups: seq<string>): nat {
    |Which(look, groups, true)| + |Which(look, groups, false)|
  }

  /** The groups a prefix shows, found or malformed, are its complete blocks. */
  lemma SeenAreDone(bs: seq<Block>, trailer: string, number: string -> Option<int>, parse: string -> Parsed,
                    groups: seq<string>, n: nat, look: string -> Verdict)
    requires Answers(bs, trailer, number, groups) && n <= |Answer(bs, trailer)| && Done(bs, n) >= 1
    requires Looks(look, Answer(bs, trailer)[..n], true, parse, groups)
    ensures Seen(look, groups) == Done(bs, n) - 1
  {
    var T := Tags(bs[..Done(bs, n)]);
    forall tag <- groups ensures !look(tag).Absent? <==> tag in T { SeenIffDone(bs, trailer, parse, n, tag); }
    SeenAreShared(look, groups, T);
    CompleteTags(bs, groups, Done(bs, n));
  }

  lemma {:induction false} CountSame(p: string -> bool, q: string -> bool, tags: seq<string>)
    requires forall tag <- tags :: p(tag) <==> q(tag)
    ensures Count(p, tags) == Count(q, tags)
  {
    if tags != [] { CountSame(p, q, tags[..|tags| - 1]); }
  }

  lemma StopFollows(text: string, number: string -> Option<int>, groups: seq<string>, declared: nat, seen: nat)
    requires DeclaredBlocks(text, number, groups) == Some(declared) && CountClosings(text) == seen + 1 <= declared + 1
    ensures var missing := Missing(DeclaredBlocks(text, number, groups), seen);
            missing == declared - seen && (ManifestStop(text, number, groups) <==> missing == 0)
  {
  }

  /**
   On every prefix with a complete group block the stream is told to stop
   exactly when the reader misses nothing, and what it misses is exactly the
   number of unfinished blocks.
   */
  lemma StopIffNothingMissing(bs: seq<Block>, trailer: string, number: string -> Option<int>,
                              parse: string -> Parsed, groups: seq<string>, n: nat, look: string -> Verdict)
    requires Answers(bs, trailer, number, groups) && n <= |Answer(bs, trailer)| && Done(bs, n) >= 2
    requires Looks(look, Answer(bs, trailer)[..n], true, parse, groups)
    ensures var text := Answer(bs, trailer)[..n];
            var missing := Missing(DeclaredBlocks(text, number, groups), Seen(look, groups));
            && DeclaredBlocks(text, number, groups) == Some(|bs| - 1) && Seen(look, groups) >= 1
            && missing == |bs| - Done(bs, n)
            && (ManifestStop(text, number, groups) <==> missing == 0)
  {
    CutCounts(bs, trailer, number, parse, groups, n, look);
    StopFollows(Answer(bs, trailer)[..n], number, groups, |bs| - 1, Done(bs, n) - 1);
  }

  /** What a prefix with a complete block declares, shows and closes. */
  lemma CutCounts(bs: seq<Block>, trailer: string, number: string -> Option<int>,
                  parse: string -> Parsed, groups: seq<string>, n: nat, look: string -> Verdict)
    requires Answers(bs, trailer, number, groups) && n <= |Answer(bs, trailer)| && Done(bs, n) >= 1
    requires Looks(look, Answer(bs, trailer)[..n], true, parse, groups)
    ensures DeclaredBlocks(Answer(bs, trailer)[..n], number, groups) == Some(|bs| - 1)
    ensures Seen(look, groups) == Done(bs, n) - 1 && CountClosings(Answer(bs, trailer)[..n]) == Done(bs, n)
  {
    DeclaredIs(bs, trailer, number, groups, n);
    SeenAreDone(bs, trailer, number, parse, groups, n, look);
    ClosingsAreDone(bs, trailer, n);
  }

  /** The same of the reader itself: it misses nothing exactly when the stream was told to stop. */
  lemma ReaderAgreesWithStop(bs: seq<Block>, trailer: string, number: string -> Option<int>,
                             parse: string -> Parsed, groups: seq<string>, n: nat)
    requires Answers(bs, trailer, number, groups) && n <= |Answer(bs, trailer)| && Done(bs, n) >= 2
    ensures var text := Answer(bs, trailer)[..n];
            var declared := DeclaredBlocks(text, number, groups);
            var missing := Missing(declared, Seen(Looker(text, declared.Some?, parse), groups));
            missing == |bs| - Done(bs, n) && (ManifestStop(text, number, groups) <==> missing == 0)
  {
    DeclaredIs(bs, trailer, number, groups, n);
    StopIffNothingMissing(bs, trailer, number, parse, groups, n, Looker(Answer(bs, trailer)[..n], true, parse));
  }

  lemma NotToldToStop(bs: seq<Block>, trailer: string, number: string -> Option<int>, groups: seq<string>, n: nat)
    requires Answers(bs, trailer, number, groups) && n <= |Answer(bs, trailer)| && Done(bs, n) <= 1
    ensures !ManifestStop(Answer(bs, trailer)[..n], number, groups)
  {
    DeclaredIs(bs, trailer, number, groups, n);
    ClosingsAreDone(bs, trailer, n);
  }

  /**
   A reply cut off before its first group block is complete is not told to
   stop, and is not reported as truncated either: the reader finds nothing,
   even when the manifest is there and says how many blocks to expect.
   */
  lemma CutAfterManifestFindsNothing(bs: seq<Block>, trailer: string, number: string -> Option<int>,
                                     parse: string -> Parsed, groups: seq<string>, n: nat, look: string -> Verdict)
    requires Answers(bs, trailer, number, groups) && n <= |Answer(bs, trailer)| && Done(bs, n) <= 1
    requires Looks(look, Answer(bs, trailer)[..n], Done(bs, n) == 1, parse, groups)
    ensures var text := Answer(bs, trailer)[..n];
            && !ManifestStop(text, number, groups) && Seen(look, groups) == 0
            && (DeclaredBlocks(text, number, groups) == if Done(bs, n) == 1 then Some(|bs| - 1) else None)
  {
    DeclaredIs(bs, trailer, number, groups, n);
    NotToldToStop(bs, trailer, number, groups, n);
    if Done(bs, n) == 1 {
      SeenAreDone(bs, trailer, number, parse, groups, n, look);
    } else {
      forall tag <- groups ensures look(tag).Absent? { FramesAreDone(bs, trailer, n, tag); }
      NothingThere(look, groups);
    }
  }

  lemma {:induction false} NothingThere(look: string -> Verdict, tags: seq<string>)
    requires forall tag <- tags :: look(tag).Absent?
    ensures Which(look, tags, true) == [] && Which(look, tags, false) == []
  {
    if tags != [] { NothingThere(look, tags[..|tags| - 1]); }
  }

  /** Each complete block is read as what its own body says, whatever the others hold. */
  lemma BlocksAreReadAlone(bs: seq<Block>, trailer: string, number: string -> Option<int>,
                           parse: string -> Parsed, groups: seq<string>, n: nat, i: nat)
    requires Answers(bs, trailer, number, groups) && n <= |Answer(bs, trailer)| && 1 <= i < |bs|
    ensures Look(FrameOf(Answer(bs, trailer)[..n], bs[i].tag), true, parse)
         == if i >= Done(bs, n) then Absent
            else match parse(bs[i].body)
              case Items(claims) => Found(claims)
              case _ => Malformed
  {
    var d, tag := Done(bs, n), bs[i].tag;
    FramesAreDone(bs, trailer, n, tag);
    BodyIffTag(bs[..d], tag);
    if i < d { assert bs[..d][i] == bs[i]; }
  }

  // ----- read for more than it says ---------------------------------------------------------

  const OBSERVATIONS: string := "OBSERVATIONS"

  function LastIndex(s: string, c: char): Option<nat> {
    if s == "" then None
    else if s[|s| - 1] == c then Some(|s| - 1)
    else LastIndex(s[..|s| - 1], c)
  }

  function FirstIndex(s: string, c: char): Option<nat> {
    if s == "" then None
    else match FirstIndex(s[..|s| - 1], c)
      case Some(i) => Some(i)
      case None => if s[|s| - 1] == c then Some(|s| - 1) else None
  }

  /** The bare object of a text: from its first brace to its last. */
  function BareSpan(text: string): Option<string> {
    Between(text, FirstIndex(text, '{'), LastIndex(text, '}'))
  }

  function Between(text: string, first: Option<nat>, last: Option<nat>): Option<string> {
    if first.Some? && last.Some? && first.value < last.value then Some(Slice(text, first.value, last.value + 1)) else None
  }

  /**
   The readers behind the manifest's: one OBSERVATIONS block, then the content
   of a code fence, then the bare object. The first that finds JSON answers.
   */
  function Fallback<J>(text: string, observations: string -> Option<J>, fence: string -> Option<string>,
                       json: string -> Option<J>): Option<J>
  {
    if observations(text).Some? then observations(text)
    else if fence(text).Some? && json(fence(text).value).Some? then json(fence(text).value)
    else if BareSpan(text).Some? then json(BareSpan(text).value)
    else None
  }

  lemma {:induction false} FirstIndexSpec(s: string, c: char)
    ensures match FirstIndex(s, c)
            case None => c !in s
            case Some(i) => i < |s| && s[i] == c && c !in s[..i]
  {
    if s != "" {
      var init := s[..|s| - 1];
      FirstIndexSpec(init, c);
      assert s == init + [s[|s| - 1]];
      if FirstIndex(init, c).Some? { assert init[..FirstIndex(init, c).value] == s[..FirstIndex(init, c).value]; }
    }
  }

  lemma {:induction false} LastIndexSpec(s: string, c: char)
    ensures match LastIndex(s, c)
            case None => c !in s
            case Some(i) => i < |s| && s[i] == c && c !in s[i + 1..]
  {
    if s != "" && s[|s| - 1] != c {
      var init := s[..|s| - 1];
      LastIndexSpec(init, c);
      assert s == init + [s[|s| - 1]];
      if LastIndex(init, c).Some? {
        var i := LastIndex(init, c).value;
        assert s[i + 1..] == init[i + 1..] + [s[|s| - 1]];
      }
    }
  }

  /** The first c of a text that holds one behind `head`. */
  lemma FirstBehind(head: string, rest: string, c: char)
    requires rest != "" && rest[0] == c
    ensures FirstIndex(head + rest, c).Some? && FirstIndex(head + rest, c).value <= |head|
    ensures FirstIndex(head + rest, c).value == |head| <==> c !in head
  {
    var s := head + rest;
    FirstIndexSpec(s, c);
    assert s[|head|] == c;
    var i := FirstIndex(s, c).value;
    if i == |head| { assert s[..i] == head; } else { assert head[i] == c; }
  }

  /** And the last c of one that holds one before `tail`. */
  lemma LastBefore(front: string, tail: string, c: char)
    requires front != "" && front[|front| - 1] == c
    ensures LastIndex(front + tail, c).Some? && LastIndex(front + tail, c).value >= |front| - 1
    ensures LastIndex(front + tail, c).value == |front| - 1 <==> c !in tail
  {
    var s := front + tail;
    LastIndexSpec(s, c);
    assert s[|front| - 1] == c;
    var i := LastIndex(s, c).value;
    if i == |front| - 1 { assert s[i + 1..] == tail; } else { assert tail[i - |front|] == c; }
  }

  predicate Braced(core: string) {
    |core| >= 2 && core[0] == '{' && core[|core| - 1] == '}'
  }

  lemma Within(head: string, core: string, tail: string)
    ensures var s := head + (core + tail);
            |head| + |core| <= |s| && s[|head|..|head| + |core|] == core && head + core + tail == s
  {
  }

  /** Where the braces of a text with this object in it are. */
  lemma BracesAround(head: string, core: string, tail: string, s: string) returns (first: nat, last: nat)
    requires Braced(core) && s == head + (core + tail)
    ensures FirstIndex(s, '{') == Some(first) && first <= |head| && (first == |head| <==> '{' !in head)
    ensures LastIndex(s, '}') == Some(last) && |head| + |core| - 1 <= last < |s| && s[last] == '}'
    ensures last == |head| + |core| - 1 <==> '}' !in tail
  {
    Within(head, core, tail);
    FirstBehind(head, core + tail, '{');
    LastBefore(head + core, tail, '}');
    LastIndexSpec(s, '}');
    first, last := FirstIndex(s, '{').value, LastIndex(s, '}').value;
  }

  /** An object is the bare object of the text around it exactly when no brace opens before it and none closes behind. */
  lemma BareSpanIff(head: string, core: string, tail: string, s: string)
    requires Braced(core) && s == head + (core + tail)
    ensures BareSpan(s) == Some(core) <==> '{' !in head && '}' !in tail
    ensures '{' !in head ==> BareSpan(s).Some? && core <= BareSpan(s).value && Braced(BareSpan(s).value)
  {
    var first, last := BracesAround(head, core, tail, s);
    Within(head, core, tail);
    BetweenIff(s, first, last, |head|, core);
  }

  lemma BetweenIff(s: string, first: nat, last: nat, i: nat, core: string)
    requires Braced(core) && i + |core| <= |s| && s[i..i + |core|] == core
    requires first <= i && i + |core| - 1 <= last < |s| && s[last] == '}'
    ensures var span := Between(s, Some(first), Some(last));
            && span.Some? && (span.value == core <==> first == i && last == i + |core| - 1)
            && (first == i ==> core <= span.value && Braced(span.value))
  {
    SliceIs(s, first, last, i, i + |core| - 1);
  }

  /** A slice that holds another is that one exactly when it begins and ends with it. */
  lemma SliceIs(s: string, first: nat, last: nat, i: nat, j: nat)
    requires first <= i < j <= last < |s|
    ensures var span := Slice(s, first, last + 1);
            && (span == s[i..j + 1] <==> first == i && last == j)
            && (first == i ==> s[i..j + 1] <= span && span[0] == s[i] && span[|span| - 1] == s[last])
  {
    var span := Slice(s, first, last + 1);
    assert |span| == last + 1 - first && |s[i..j + 1]| == j + 1 - i;
    if first == i { assert span[..j + 1 - i] == s[i..j + 1]; }
  }

  /** An object's JSON is never the beginning of another's. */
  ghost predicate PrefixFree<J>(json: string -> Option<J>) {
    forall x, y :: Braced(x) && Braced(y) && x <= y && json(x).Some? && json(y).Some? ==> x == y
  }

  /**
   So a reply cut off after its manifest can be accepted: the bare object of
   the text is the manifest's own JSON. With no brace before it, that happens
   exactly as long as no closing brace has arrived behind it.
   */
  lemma CutManifestIsAnAnswerIff<J>(bs: seq<Block>, trailer: string, number: string -> Option<int>, groups: seq<string>,
                                    n: nat, head: string, core: string, tail: string,
                                    observations: string -> Option<J>, fence: string -> Option<string>, json: string -> Option<J>)
    requires Answers(bs, trailer, number, groups) && n <= |Answer(bs, trailer)| && Done(bs, n) <= 1
    requires OBSERVATIONS !in groups && Answer(bs, trailer)[..n] == head + (core + tail)
    requires Braced(core) && '{' !in head && json(core).Some? && PrefixFree(json)
    requires var text := Answer(bs, trailer)[..n];
             && (FrameOf(text, OBSERVATIONS).None? ==> observations(text).None?)
             && (fence(text).Some? ==> json(fence(text).value).None?)
    ensures Fallback(Answer(bs, trailer)[..n], observations, fence, json) == if '}' in tail then None else json(core)
  {
    var text := Answer(bs, trailer)[..n];
    NoObservations(bs, trailer, number, groups, n);
    BareSpanIff(head, core, tail, text);
    var span := BareSpan(text).value;
    if json(span).Some? { assert span == core; }
  }

  lemma NoObservations(bs: seq<Block>, trailer: string, number: string -> Option<int>, groups: seq<string>, n: nat)
    requires Answers(bs, trailer, number, groups) && n <= |Answer(bs, trailer)| && OBSERVATIONS !in groups
    ensures FrameOf(Answer(bs, trailer)[..n], OBSERVATIONS).None?
  {
    assert |OBSERVATIONS| == 12 && |MANIFEST| == 8 && |END| == 3;
    FramesAreDone(bs, trailer, n, OBSERVATIONS);
    var done := bs[..Done(bs, n)];
    BodyIffTag(done, OBSERVATIONS);
    assert OBSERVATIONS !in Tags(bs);
  }
}
