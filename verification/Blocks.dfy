/**
 Sentinel Blocks: printing, scanning and the line pass that closes open blocks.
 Texts are scanned by suffix: "at the cursor" is the text from the cursor on.
 */
module Blocks {
  import opened Text

  type Checked<+T> = Result<T, Code>

  datatype Code =
    | UnknownTag | EmptyContent | NestedSentinel | EmptyArtifact | OutsideBlockText
    | NonCanonicalTag | InvalidArgument | MalformedArtifact | NoBlocks | BlockCardinality | MissingArgument

  // ----- the frame grammar ------------------------------------------------

  predicate Letter(c: char) { 'A' <= c <= 'Z' || 'a' <= c <= 'z' }

  predicate Digit(c: char) { '0' <= c <= '9' }

  predicate NameChar(c: char) { Letter(c) || Digit(c) || c == '_' }

  predicate RunChar(c: char) { c != '>' && c != '\r' && c != '\n' }

  predicate Gap(c: char) { c == ' ' || c == '\t' }

  /** Length of the longest prefix whose characters all satisfy `p`. */
  function Run(p: char -> bool, s: string): (n: nat)
    ensures n <= |s| && (n < |s| ==> !p(s[n])) && forall i :: 0 <= i < n ==> p(s[i])
  {
    if s != [] && p(s[0]) then 1 + Run(p, s[1..]) else 0
  }

  lemma {:induction false} RunIs(p: char -> bool, x: string, y: string)
    requires (forall i :: 0 <= i < |x| ==> p(x[i])) && (y == [] || !p(y[0]))
    ensures Run(p, x + y) == |x|
  {
    if x == [] {
      assert x + y == y;
    } else {
      assert (x + y)[1..] == x[1..] + y;
      RunIs(p, x[1..], y);
    }
  }

  /** What follows `prefix` in `s`. */
  function After(s: string, prefix: string): (r: Option<string>)
    ensures r.Some? <==> |prefix| <= |s| && s[..|prefix|] == prefix
    ensures r.Some? ==> s == prefix + r.value
  {
    if |prefix| <= |s| && s[..|prefix|] == prefix then Some(s[|prefix|..]) else None
  }

  lemma AfterPrefix(prefix: string, rest: string)
    ensures After(prefix + rest, prefix) == Some(rest)
  {
  }

  const Open: string := "<<<"
  const Shut: string := ">>>"
  const Closer: string := "<<<END>>>"

  /** "<<<NAME", the text up to ">>>", and what follows it. */
  datatype Header = Header(name: string, filler: string, rest: string)

  predicate Shaped(name: string, filler: string) {
    && name != [] && Letter(name[0]) && (forall i :: 0 <= i < |name| ==> NameChar(name[i]))
    && (filler == [] || Gap(filler[0])) && (forall i :: 0 <= i < |filler| ==> RunChar(filler[i]))
  }

  /** The text up to ">>>" after a name, and what follows. */
  function FillerHere(u: string): (r: Option<(string, string)>)
    ensures r.Some? ==> u == r.value.0 + (Shut + r.value.1)
    ensures r.Some? ==> (r.value.0 == [] || Gap(r.value.0[0])) && forall i :: 0 <= i < |r.value.0| ==> RunChar(r.value.0[i])
  {
    var k := Run(RunChar, u);
    if k > 0 && !Gap(u[0]) then None
    else match After(u[k..], Shut)
      case None => None
      case Some(rest) => assert u == u[..k] + (Shut + rest); Some((u[..k], rest))
  }

  /** The name at the head of `t`, and what follows. */
  function NameHere(t: string): (r: Option<(string, string)>)
    ensures r.Some? ==> t == r.value.0 + r.value.1
    ensures r.Some? ==> r.value.0 != [] && Letter(r.value.0[0]) && forall i :: 0 <= i < |r.value.0| ==> NameChar(r.value.0[i])
  {
    var n := Run(NameChar, t);
    if n == 0 || !Letter(t[0]) then None else Some((t[..n], t[n..]))
  }

  function HeaderHere(s: string): (r: Option<Header>)
    ensures r.Some? ==> s == Open + (r.value.name + (r.value.filler + (Shut + r.value.rest)))
    ensures r.Some? ==> Shaped(r.value.name, r.value.filler)
  {
    match After(s, Open)
    case None => None
    case Some(t) =>
      match NameHere(t)
      case None => None
      case Some((name, u)) =>
        match FillerHere(u)
        case None => None
        case Some((filler, rest)) => Some(Header(name, filler, rest))
  }

  lemma FillerIs(filler: string, rest: string)
    requires filler == [] || Gap(filler[0])
    requires forall i :: 0 <= i < |filler| ==> RunChar(filler[i])
    ensures FillerHere(filler + (Shut + rest)) == Some((filler, rest))
  {
    var u := filler + (Shut + rest);
    assert (Shut + rest)[0] == '>';
    RunIs(RunChar, filler, Shut + rest);
    assert u[|filler|..] == Shut + rest && u[..|filler|] == filler;
    AfterPrefix(Shut, rest);
  }

  lemma HeaderIs(name: string, filler: string, rest: string)
    requires Shaped(name, filler)
    ensures HeaderHere(Open + (name + (filler + (Shut + rest)))) == Some(Header(name, filler, rest))
  {
    var u := filler + (Shut + rest);
    assert u[0] == if filler == [] then '>' else filler[0];
    AfterPrefix(Open, name + u);
    NameIs(name, u);
    FillerIs(filler, rest);
  }

  lemma NameIs(name: string, u: string)
    requires name != [] && Letter(name[0]) && forall i :: 0 <= i < |name| ==> NameChar(name[i])
    requires u == [] || !NameChar(u[0])
    ensures NameHere(name + u) == Some((name, u))
  {
    RunIs(NameChar, name, u);
    assert (name + u)[|name|..] == u && (name + u)[..|name|] == name && (name + u)[0] == name[0];
  }

  /** A sentinel token stands at the head of `s`. */
  predicate TokenHere(s: string) {
    HeaderHere(s).Some?
  }

  /** Some suffix of `s` satisfies `p`. */
  predicate Anywhere(p: string -> bool, s: string) {
    exists i :: 0 <= i <= |s| && p(s[i..])
  }

  predicate HasToken(s: string) {
    Anywhere(TokenHere, s)
  }

  function Newline(s: string): Option<string> {
    match After(s, "\n")
    case Some(r) => Some(r)
    case None => After(s, "\r\n")
  }

  /** A newline and the closer at the head of `s`. */
  predicate ClosesHere(s: string) {
    Newline(s).Some? && After(Newline(s).value, Closer).Some?
  }

  /** Least i such that the text from i on satisfies `p`. */
  function FirstAt(p: string -> bool, s: string): (r: Option<nat>)
    ensures r.Some? ==> r.value <= |s| && p(s[r.value..])
    decreases |s|
  {
    if p(s) then Some(0)
    else if s == [] then None
    else match FirstAt(p, s[1..])
      case None => None
      case Some(k) => assert s[1..][k..] == s[k + 1..]; Some(k + 1)
  }

  lemma {:induction false} FirstAtIs(p: string -> bool, s: string, k: nat)
    requires k <= |s| && p(s[k..]) && forall j :: 0 <= j < k ==> !p(s[j..])
    ensures FirstAt(p, s) == Some(k)
    decreases |s|
  {
    assert s[0..] == s;
    if k > 0 {
      assert s[1..][k - 1..] == s[k..];
      forall j | 0 <= j < k - 1 ensures !p(s[1..][j..]) {
        assert s[1..][j..] == s[j + 1..];
      }
      FirstAtIs(p, s[1..], k - 1);
    }
  }

  /** Where the block closes. */
  function CloseAt(s: string): (r: Option<nat>)
    ensures r.Some? ==> r.value <= |s| && ClosesHere(s[r.value..])
  {
    FirstAt(ClosesHere, s)
  }

  /** What follows the closer at k. */
  function BehindClose(body: string, k: nat): (r: string)
    requires k <= |body| && ClosesHere(body[k..])
    ensures |r| <= |body|
  {
    After(Newline(body[k..]).value, Closer).value
  }

  datatype Match = Match(tag: string, argument: string, content: string, rest: string)

  /** The frame pattern at the head of `s`; a header filler must hold more than one space. */
  function MatchHere(s: string): (r: Option<Match>)
    ensures r.Some? ==> |r.value.rest| < |s|
  {
    match HeaderHere(s)
    case None => None
    case Some(h) =>
      if |h.filler| == 1 then None
      else match Newline(h.rest)
        case None => None
        case Some(body) =>
          match CloseAt(body)
          case None => None
          case Some(k) => Some(Match(h.name, Trim(h.filler), body[..k], BehindClose(body, k)))
  }

  predicate Matches(s: string) {
    MatchHere(s).Some?
  }

  /** Where a frame starts first: what a global pattern search finds. */
  function FirstMatch(s: string): (r: Option<nat>)
    ensures r.Some? ==> r.value <= |s| && Matches(s[r.value..])
  {
    FirstAt(Matches, s)
  }

  // ----- scanning -----------------------------------------------------------

  datatype Frame = Frame(tag: string, argument: string, content: string)

  predicate Upper(tag: string) {
    forall i :: 0 <= i < |tag| ==> !('a' <= tag[i] <= 'z')
  }

  predicate SafeChar(c: char) {
    Letter(c) || Digit(c) || c == '.' || c == '_' || c == ':' || c == '-'
  }

  predicate SafeArgument(arg: string) {
    1 <= |arg| <= 128 && (Letter(arg[0]) || Digit(arg[0])) && forall i :: 0 <= i < |arg| ==> SafeChar(arg[i])
  }

  /** What the scan refuses about one match, in the order it looks. */
  function Fault(gap: string, m: Match): Option<Code> {
    if !AllSpace(gap) then Some(OutsideBlockText)
    else if !Upper(m.tag) then Some(NonCanonicalTag)
    else if m.argument != "" && !SafeArgument(m.argument) then Some(InvalidArgument)
    else if HasToken(m.content) then Some(NestedSentinel)
    else None
  }

  /** What the scan meets next. */
  datatype Taken = Tail | Stray(code: Code) | More(frame: Frame, rest: string)

  function Take(s: string): (r: Taken)
    ensures r.More? ==> |r.rest| < |s|
  {
    match FirstMatch(s)
    case None => if AllSpace(s) then Tail else Stray(OutsideBlockText)
    case Some(i) =>
      var m := MatchHere(s[i..]).value;
      match Fault(s[..i], m)
      case Some(code) => Stray(code)
      case None => More(Frame(m.tag, m.argument, m.content), m.rest)
  }

  /** The frames from the cursor on. */
  function Rest(s: string): Checked<seq<Frame>>
    decreases |s|
  {
    match Take(s)
    case Tail => Ok([])
    case Stray(code) => Err(code)
    case More(frame, rest) => Prepend([frame], Rest(rest))
  }

  function Prepend(frames: seq<Frame>, r: Checked<seq<Frame>>): Checked<seq<Frame>> {
    match r
    case Ok(fs) => Ok(frames + fs)
    case Err(code) => Err(code)
  }

  function Scan(artifact: string): Checked<seq<Frame>> {
    if AllSpace(artifact) then Err(EmptyArtifact)
    else if FirstMatch(artifact) == None then Err(MalformedArtifact)
    else Rest(artifact)
  }

  /** The outcome when `frames` are read and `next` is what comes. */
  function Settled(frames: seq<Frame>, next: Taken): Checked<seq<Frame>> {
    match next
    case Tail => Ok(frames)
    case Stray(code) => Err(code)
    case More(frame, rest) => Prepend(frames + [frame], Rest(rest))
  }

  lemma RestSettles(frames: seq<Frame>, s: string)
    ensures Prepend(frames, Rest(s)) == Settled(frames, Take(s))
  {
    match Take(s)
    case More(frame, rest) =>
      if Rest(rest).Ok? { Assoc(frames, [frame], Rest(rest).value); }
    case Tail => assert frames + [] == frames;
    case Stray(_) =>
  }

  lemma ScanSettles(s: string)
    requires !AllSpace(s) && FirstMatch(s) != None
    ensures Scan(s) == Settled([], Take(s))
  {
    RestSettles([], s);
    var r := Rest(s);
    assert r.Ok? ==> [] + r.value == r.value;
  }

  method ScanBlockFrames(artifact: string) returns (r: Checked<seq<Frame>>)
    ensures r == Scan(artifact)
  {
    if AllSpace(artifact) { return Err(EmptyArtifact); }
    if FirstMatch(artifact) == None { return Err(MalformedArtifact); }
    ghost var outcome := Scan(artifact);
    var frames, next := [], Take(artifact);
    ScanSettles(artifact);
    while next.More?
      invariant outcome == Settled(frames, next)
      decreases if next.More? then |next.rest| + 1 else 0
    {
      RestSettles(frames + [next.frame], next.rest);
      frames := frames + [next.frame];
      next := Take(next.rest);
    }
    return if next.Stray? then Err(next.code) else Ok(frames);
  }

  // ----- printing -------------------------------------------------------------

  predicate PromptTag(t: string) {
    || t == "TASK" || t == "SOURCE" || t == "CONTROLLED_VOCABULARY" || t == "PROFILE" || t == "PROFILE_FACTS"
    || t == "OBSERVATIONS" || t == "MANIFEST" || t == "ENTITIES"
  }

  predicate GroupTag(t: string) {
    || t == "INTENTS" || t == "RELATIONSHIPS" || t == "OPPORTUNITIES" || t == "DISCLOSURES" || t == "PROPOSALS"
    || t == "WAKE_UP" || t == "PREVIOUS_THOUGHTS" || t == "EXTRACTED_CLAIMS"
  }

  predicate ReplyTag(t: string) {
    || t == "RESULTS" || t == "REJECTED_CLAIMS" || t == "CONSENT" || t == "MISSING_FIELDS" || t == "INTERVIEW_PLAN"
    || t == "MATCH" || t == "POLICY" || t == "META"
  }

  predicate MailTag(t: string) {
    t == "REPAIR" || t == "SUBJECT" || t == "EMAIL_TEXT" || t == "OUTPUT_CONTRACT"
  }

  /** The closed tag registry. */
  predicate Known(tag: string) {
    PromptTag(tag) || GroupTag(tag) || ReplyTag(tag) || MailTag(tag)
  }

  predicate TagChar(c: char) { 'A' <= c <= 'Z' || c == '_' }

  predicate Canonical(tag: string) {
    tag != [] && tag[0] != '_' && forall i :: 0 <= i < |tag| ==> TagChar(tag[i])
  }

  lemma PromptTags(t: string)
    requires PromptTag(t)
    ensures Canonical(t)
  {
  }

  lemma GroupTags(t: string)
    requires GroupTag(t)
    ensures Canonical(t)
  {
  }

  lemma ReplyTags(t: string)
    requires ReplyTag(t)
    ensures Canonical(t)
  {
  }

  lemma MailTags(t: string)
    requires MailTag(t)
    ensures Canonical(t)
  {
  }

  lemma KnownIsCanonical(tag: string)
    requires Known(tag)
    ensures Canonical(tag)
  {
    if PromptTag(tag) { PromptTags(tag); }
    else if GroupTag(tag) { GroupTags(tag); }
    else if ReplyTag(tag) { ReplyTags(tag); }
    else { MailTags(tag); }
  }

  function RequireText(value: string): (r: Checked<string>)
    ensures r.Ok? <==> !AllSpace(value) && !HasToken(value)
    ensures r.Ok? ==> r.value == value
  {
    if AllSpace(value) then Err(EmptyContent)
    else if HasToken(value) then Err(NestedSentinel)
    else Ok(value)
  }

  datatype Entry = Entry(tag: string, argument: Option<string>, content: string)

  function Filler(e: Entry): string {
    if e.argument.Some? then " " + e.argument.value else ""
  }

  /** The printed form of one block. */
  function Wrapped(e: Entry): string {
    Open + e.tag + Filler(e) + Shut + "\n" + e.content + "\n" + Closer
  }

  predicate Printable(e: Entry) {
    && Known(e.tag) && (e.argument.Some? ==> SafeArgument(e.argument.value))
    && !AllSpace(e.content) && !HasToken(e.content)
  }

  function Render(e: Entry): (r: Checked<string>)
    ensures r.Ok? <==> Printable(e)
    ensures r.Ok? ==> r.value == Wrapped(e)
  {
    if !Known(e.tag) then Err(UnknownTag)
    else if e.argument.Some? && !SafeArgument(e.argument.value) then Err(InvalidArgument)
    else match RequireText(e.content)
      case Err(code) => Err(code)
      case Ok(_) => Ok(Wrapped(e))
  }

  // ----- reading back what was printed ------------------------------------------

  /** A content comes back whole, save one carriage return at its very end. */
  function Returned(content: string): (r: string)
    ensures r <= content
  {
    if content != [] && content[|content| - 1] == '\r' then content[..|content| - 1] else content
  }

  lemma ReturnedTrims(content: string)
    ensures Trim(Returned(content)) == Trim(content)
  {
    var r := Returned(content);
    if r != content {
      assert content == [] + r + "\r" && IsSpace('\r');
      TrimPadded([], r, "\r");
    }
  }

  lemma CloserSplits(z: string)
    ensures Closer + z == Open + ("END" + ("" + (Shut + z)))
  {
  }

  lemma CloserIsToken(z: string)
    ensures TokenHere(Closer + z)
  {
    CloserSplits(z);
    HeaderIs("END", "", z);
  }

  lemma Shift(a: string, b: string, c: string, d: string, e: string, y: string)
    ensures (a + (b + (c + (d + e)))) + y == a + (b + (c + (d + (e + y))))
  {
    Assoc(a, b + (c + (d + e)), y);
    Assoc(b, c + (d + e), y);
    Assoc(c, d + e, y);
    Assoc(d, e, y);
  }

  lemma TokenExtends(x: string, y: string)
    requires TokenHere(x)
    ensures TokenHere(x + y)
  {
    var h := HeaderHere(x).value;
    Shift(Open, h.name, h.filler, Shut, h.rest, y);
    HeaderIs(h.name, h.filler, h.rest + y);
  }

  lemma AnywhereInside(p: string -> bool, x: string, y: string)
    requires Anywhere(p, x) && forall s :: p(s) ==> p(s + y)
    ensures Anywhere(p, x + y)
  {
    var i :| 0 <= i <= |x| && p(x[i..]);
    assert (x + y)[i..] == x[i..] + y;
  }

  lemma TokenInside(x: string, y: string)
    requires HasToken(x)
    ensures HasToken(x + y)
  {
    forall s | TokenHere(s) ensures TokenHere(s + y) { TokenExtends(s, y); }
    AnywhereInside(TokenHere, x, y);
  }

  lemma AnywhereAfter(p: string -> bool, x: string, y: string)
    requires p(y)
    ensures Anywhere(p, x + y)
  {
    assert (x + y)[|x|..] == y;
  }

  lemma CloserInside(x: string, z: string)
    ensures HasToken(x + (Closer + z))
  {
    CloserIsToken(z);
    AnywhereAfter(TokenHere, x, Closer + z);
  }

  /** Where a prefix fits before the end of x, it lies in x. */
  lemma PrefixSplits(x: string, y: string, prefix: string)
    requires After(x + y, prefix).Some? && |prefix| <= |x|
    ensures x == prefix + x[|prefix|..] && (x + y)[|prefix|..] == x[|prefix|..] + y
  {
    assert x[..|prefix|] == (x + y)[..|prefix|];
  }

  lemma NoCloserWithin(x: string, n: nat, tail: string)
    requires n <= |x| && |x| - n >= |Closer| && !HasToken(x)
    ensures !After(x[n..] + tail, Closer).Some?
  {
    var y := x[n..];
    assert x == x[..n] + y;
    CloserInside(x[..n], y[|Closer|..]);
    if After(y + tail, Closer).Some? {
      PrefixSplits(y, tail, Closer);
    }
  }

  lemma CloserSpells(w: string, i: nat)
    requires i < |Closer| && i < |w|
    ensures After(w, Closer).Some? ==> w[i] != '\n'
  {
    assert Closer[i] != '\n';
    assert |Closer| <= |w| ==> w[..|Closer|][i] == w[i];
  }

  lemma NoCloserStraddles(y: string, tail: string)
    requires |y| < |Closer| && tail != [] && tail[0] == '\n'
    ensures !After(y + tail, Closer).Some?
  {
    assert (y + tail)[|y|] == '\n';
    CloserSpells(y + tail, |y|);
  }

  lemma NoCloserAcross(x: string, n: nat, z: string)
    requires n <= |x| && !HasToken(x)
    ensures !After((x + ("\n" + Closer + z))[n..], Closer).Some?
  {
    var tail := "\n" + Closer + z;
    assert (x + tail)[n..] == x[n..] + tail;
    if |x| - n >= |Closer| {
      NoCloserWithin(x, n, tail);
    } else {
      NoCloserStraddles(x[n..], tail);
    }
  }

  /** No text without a token closes its block early, but for a last carriage return. */
  lemma NoEarlyClose(x: string, z: string)
    requires x != [] && !HasToken(x) && ClosesHere(x + ("\n" + Closer + z))
    ensures x == "\r"
  {
    var w := x + ("\n" + Closer + z);
    assert w[0] == x[0];
    assert "\r\n"[0] == '\r' && "\n"[0] == '\n';
    if w[0] == '\n' {
      assert Newline(w).value == w[1..];
      NoCloserAcross(x, 1, z);
    } else if |x| >= 2 {
      assert Newline(w).value == w[2..];
      NoCloserAcross(x, 2, z);
    }
  }

  /** The text after a header's newline, for a content c and what follows its block. */
  function Body(c: string, z: string): string {
    c + ("\n" + Closer + z)
  }

  lemma BodyCloses(c: string, z: string)
    requires c == "" || c == "\r"
    ensures ClosesHere(Body(c, z)) && After(Newline(Body(c, z)).value, Closer) == Some(z)
  {
    AfterPrefix(Closer, z);
    var tail := Closer + z;
    assert Body("", z) == "\n" + tail && Body("\r", z) == "\r\n" + tail;
    AfterPrefix("\n", tail);
    AfterPrefix("\r\n", tail);
    assert Body("\r", z)[0] == '\r';
  }

  lemma BodySuffix(c: string, j: nat, z: string)
    requires j <= |c|
    ensures Body(c, z)[j..] == Body(c[j..], z)
  {
  }

  lemma StillOpen(c: string, j: nat, z: string)
    requires !HasToken(c) && j < |Returned(c)|
    ensures !ClosesHere(Body(c, z)[j..])
  {
    BodySuffix(c, j, z);
    SuffixHasNoToken(c, j);
    assert c[j..][|c| - j - 1] == c[|c| - 1];
    if ClosesHere(Body(c[j..], z)) { NoEarlyClose(c[j..], z); }
  }

  /** A block closes where its content ends. */
  lemma BlockCloses(c: string, z: string)
    requires !HasToken(c)
    ensures CloseAt(Body(c, z)) == Some(|Returned(c)|)
    ensures After(Newline(Body(c, z)[|Returned(c)|..]).value, Closer) == Some(z)
    ensures Body(c, z)[..|Returned(c)|] == Returned(c)
  {
    var k := |Returned(c)|;
    assert Body(c, z)[..k] == c[..k];
    BodySuffix(c, k, z);
    BodyCloses(c[k..], z);
    forall j | 0 <= j < k ensures !ClosesHere(Body(c, z)[j..]) { StillOpen(c, j, z); }
    FirstAtIs(ClosesHere, Body(c, z), k);
  }

  lemma SuffixHasNoToken(c: string, j: nat)
    requires j <= |c| && !HasToken(c)
    ensures !HasToken(c[j..])
  {
    forall i | 0 <= i <= |c[j..]| ensures !TokenHere(c[j..][i..]) {
      assert c[j..][i..] == c[i + j..];
    }
  }

  lemma CanonicalIsShaped(e: Entry)
    requires Printable(e)
    ensures Shaped(e.tag, Filler(e)) && |Filler(e)| != 1 && Upper(e.tag)
  {
    KnownIsCanonical(e.tag);
    forall i | 0 <= i < |e.tag| ensures NameChar(e.tag[i]) && !('a' <= e.tag[i] <= 'z') {
      assert TagChar(e.tag[i]);
    }
    assert TagChar(e.tag[0]);
    if e.argument.Some? {
      var arg := e.argument.value;
      forall i | 0 <= i < |Filler(e)| ensures RunChar(Filler(e)[i]) {
        if i > 0 { assert SafeChar(arg[i - 1]); }
      }
    }
  }

  /** The argument a frame reports; a block without one reports the empty text. */
  function Argument(e: Entry): string {
    if e.argument.Some? then e.argument.value else ""
  }

  lemma SpaceBefore(x: string)
    requires Trimmed(x)
    ensures Trim(" " + x) == x
  {
    assert IsSpace(' ') && " " + x == " " + x + [];
    TrimPadded(" ", x, []);
    TrimFixes(x);
  }

  lemma SafeIsTrimmed(arg: string)
    requires SafeArgument(arg)
    ensures Trimmed(arg)
  {
    assert SafeChar(arg[|arg| - 1]) && SafeChar(arg[0]);
  }

  lemma ArgumentReturns(e: Entry)
    requires Printable(e)
    ensures Trim(Filler(e)) == Argument(e)
  {
    if e.argument.Some? {
      SafeIsTrimmed(e.argument.value);
      SpaceBefore(e.argument.value);
    } else {
      TrimFixes("");
    }
  }

  lemma WrappedShape(e: Entry, z: string)
    ensures Wrapped(e) + z == Open + (e.tag + (Filler(e) + (Shut + ("\n" + Body(e.content, z)))))
  {
  }

  lemma MatchIs(s: string, h: Header, body: string, k: nat, z: string)
    requires HeaderHere(s) == Some(h) && |h.filler| != 1 && Newline(h.rest) == Some(body)
    requires CloseAt(body) == Some(k) && After(Newline(body[k..]).value, Closer) == Some(z)
    ensures MatchHere(s) == Some(Match(h.name, Trim(h.filler), body[..k], z))
  {
  }

  lemma HeaderMatches(name: string, filler: string, c: string, z: string)
    requires Shaped(name, filler) && |filler| != 1 && !HasToken(c)
    ensures MatchHere(Open + (name + (filler + (Shut + ("\n" + Body(c, z))))))
         == Some(Match(name, Trim(filler), Returned(c), z))
  {
    var body, k := Body(c, z), |Returned(c)|;
    HeaderIs(name, filler, "\n" + body);
    AfterPrefix("\n", body);
    BlockCloses(c, z);
    MatchIs(Open + (name + (filler + (Shut + ("\n" + body)))), Header(name, filler, "\n" + body), body, k, z);
  }

  /** A printed block is matched where it stands, as itself. */
  lemma PrintedMatches(e: Entry, z: string)
    requires Printable(e)
    ensures MatchHere(Wrapped(e) + z) == Some(Match(e.tag, Argument(e), Returned(e.content), z))
  {
    WrappedShape(e, z);
    CanonicalIsShaped(e);
    ArgumentReturns(e);
    HeaderMatches(e.tag, Filler(e), e.content, z);
  }

  /** The frame a printed block is read back as. */
  function FrameOf(e: Entry): Frame {
    Frame(e.tag, Argument(e), Returned(e.content))
  }

  predicate Blank(gap: string) {
    forall i :: 0 <= i < |gap| ==> gap[i] == '\n'
  }

  lemma NoMatchAtNewline(s: string)
    requires s == [] || s[0] == '\n'
    ensures MatchHere(s) == None
  {
    assert Open[0] == '<';
    assert s != [] ==> s[..1][0] == '\n';
  }

  lemma FirstMatchAfterGap(gap: string, s: string)
    requires Blank(gap) && Matches(s)
    ensures FirstMatch(gap + s) == Some(|gap|)
  {
    var all := gap + s;
    assert all[|gap|..] == s;
    forall j | 0 <= j < |gap| ensures !Matches(all[j..]) {
      NoMatchAtNewline(all[j..]);
    }
    FirstAtIs(Matches, all, |gap|);
  }

  lemma ReturnedHasNoToken(c: string)
    requires !HasToken(c)
    ensures !HasToken(Returned(c))
  {
    var r := Returned(c);
    assert c == r + c[|r|..];
    if HasToken(r) { TokenInside(r, c[|r|..]); }
  }

  lemma NoFault(gap: string, e: Entry, z: string)
    requires Blank(gap) && Printable(e)
    ensures Fault(gap, Match(e.tag, Argument(e), Returned(e.content), z)) == None
  {
    assert IsSpace('\n');
    CanonicalIsShaped(e);
    ReturnedHasNoToken(e.content);
  }

  lemma TakeIs(gap: string, s: string, m: Match)
    requires FirstMatch(gap + s) == Some(|gap|) && MatchHere(s) == Some(m) && Fault(gap, m) == None
    ensures Take(gap + s) == More(Frame(m.tag, m.argument, m.content), m.rest)
  {
    assert (gap + s)[|gap|..] == s && (gap + s)[..|gap|] == gap;
  }

  lemma PrintedIsTaken(gap: string, e: Entry, z: string)
    requires Blank(gap) && Printable(e)
    ensures Take(gap + (Wrapped(e) + z)) == More(FrameOf(e), z)
  {
    PrintedMatches(e, z);
    FirstMatchAfterGap(gap, Wrapped(e) + z);
    NoFault(gap, e, z);
    TakeIs(gap, Wrapped(e) + z, Match(e.tag, Argument(e), Returned(e.content), z));
  }

  // ----- whole artifacts --------------------------------------------------------

  function Frames(es: seq<Entry>): (r: seq<Frame>)
    ensures |r| == |es| && forall i :: 0 <= i < |es| ==> r[i] == FrameOf(es[i])
  {
    seq(|es|, i requires 0 <= i < |es| => FrameOf(es[i]))
  }

  predicate AllPrintable(es: seq<Entry>) {
    forall i :: 0 <= i < |es| ==> Printable(es[i])
  }

  /** The blocks of an artifact, blank lines between them. */
  function Joined(blocks: seq<string>): string {
    if blocks == [] then ""
    else if |blocks| == 1 then blocks[0]
    else blocks[0] + "\n\n" + Joined(blocks[1..])
  }

  function Compose(blocks: seq<string>): Checked<string> {
    if blocks == [] then Err(NoBlocks)
    else
      var artifact := Joined(blocks) + "\n";
      match Scan(artifact)
      case Err(code) => Err(code)
      case Ok(_) => Ok(artifact)
  }

  /** The printed blocks, or the first refusal. */
  function RenderAll(es: seq<Entry>): Checked<seq<string>> {
    if es == [] then Ok([])
    else match Render(es[0])
      case Err(code) => Err(code)
      case Ok(block) =>
        match RenderAll(es[1..])
        case Err(code) => Err(code)
        case Ok(blocks) => Ok([block] + blocks)
  }

  function CreatePromptArtifact(es: seq<Entry>): Checked<string> {
    match RenderAll(es)
    case Err(code) => Err(code)
    case Ok(blocks) => Compose(blocks)
  }

  /** What follows the block before `es`: each further block behind a blank line, then the end. */
  function Tailed(es: seq<Entry>): string {
    if es == [] then "\n" else "\n\n" + (Wrapped(es[0]) + Tailed(es[1..]))
  }

  lemma TailReads()
    ensures Rest("\n") == Ok([])
  {
    assert IsSpace('\n') && "\n"[1..] == "";
    NoMatchAtNewline("\n");
    NoMatchAtNewline("");
    assert FirstMatch("") == None;
    assert FirstMatch("\n") == None;
  }

  lemma ReadsOn(s: string, es: seq<Entry>, z: string)
    requires es != [] && Take(s) == More(FrameOf(es[0]), z) && Rest(z) == Ok(Frames(es[1..]))
    ensures Rest(s) == Ok(Frames(es))
  {
    FramesCons(es);
  }

  lemma FramesCons(es: seq<Entry>)
    requires es != []
    ensures Frames(es) == [FrameOf(es[0])] + Frames(es[1..])
  {
  }

  lemma TailedTaken(es: seq<Entry>)
    requires es != [] && Printable(es[0])
    ensures Take(Tailed(es)) == More(FrameOf(es[0]), Tailed(es[1..]))
  {
    PrintedIsTaken("\n\n", es[0], Tailed(es[1..]));
  }

  lemma {:induction false} TailedReads(es: seq<Entry>)
    requires AllPrintable(es)
    ensures Rest(Tailed(es)) == Ok(Frames(es))
  {
    if es == [] {
      TailReads();
    } else {
      TailedReads(es[1..]);
      TailedTaken(es);
      ReadsOn(Tailed(es), es, Tailed(es[1..]));
    }
  }

  lemma JoinsOn(w: string, rest: seq<string>, es: seq<Entry>)
    requires rest != [] && es != [] && Joined(rest) + "\n" == Wrapped(es[0]) + Tailed(es[1..])
    ensures Joined([w] + rest) + "\n" == w + Tailed(es)
  {
    assert ([w] + rest)[1..] == rest;
    assert (w + "\n\n" + Joined(rest)) + "\n" == w + ("\n\n" + (Joined(rest) + "\n"));
  }

  lemma {:induction false} RenderedJoins(es: seq<Entry>)
    requires es != []
    ensures RenderAll(es).Ok? <==> AllPrintable(es)
    ensures RenderAll(es).Ok? ==>
              RenderAll(es).value != []
              && Joined(RenderAll(es).value) + "\n" == Wrapped(es[0]) + Tailed(es[1..])
  {
    if |es| == 1 {
      assert RenderAll(es[1..]) == Ok([]);
    } else {
      RenderedJoins(es[1..]);
      assert AllPrintable(es) <==> Printable(es[0]) && AllPrintable(es[1..]) by { assert es == [es[0]] + es[1..]; }
      if RenderAll(es).Ok? { JoinsOn(Wrapped(es[0]), RenderAll(es[1..]).value, es[1..]); }
    }
  }

  /**
   Framing cannot be forged. Whatever the contents, an artifact is composed
   exactly when every block is printable on its own, the self-check never
   refuses one that is, and scanning returns the same tags and arguments in
   the same order, each content whole but for a last carriage return.
   */
  lemma ComposedScansBack(es: seq<Entry>)
    requires es != []
    ensures CreatePromptArtifact(es).Ok? <==> AllPrintable(es)
    ensures AllPrintable(es) ==> Scan(CreatePromptArtifact(es).value) == Ok(Frames(es))
  {
    RenderedJoins(es);
    if AllPrintable(es) { PrintedScans(es); }
  }

  lemma PrintedScans(es: seq<Entry>)
    requires es != [] && AllPrintable(es)
    ensures Scan(Wrapped(es[0]) + Tailed(es[1..])) == Ok(Frames(es))
  {
    var artifact := Wrapped(es[0]) + Tailed(es[1..]);
    PrintedIsTaken("", es[0], Tailed(es[1..]));
    assert "" + artifact == artifact;
    TailedReads(es[1..]);
    ReadsOn(artifact, es, Tailed(es[1..]));
    TakenIsNotBlank(artifact);
    assert artifact[0] == '<';
    assert !AllSpace(artifact);
  }

  lemma TakenIsNotBlank(s: string)
    requires Take(s).More?
    ensures FirstMatch(s) != None
  {
  }

  // ----- what an accepted artifact is ---------------------------------------------

  ghost predicate Spells(raw: string, f: Frame, filler: string, n1: string, n2: string) {
    && raw == Open + (f.tag + (filler + (Shut + (n1 + (f.content + (n2 + Closer))))))
    && (n1 == "\n" || n1 == "\r\n") && (n2 == "\n" || n2 == "\r\n") && Trim(filler) == f.argument
  }

  predicate Canonized(f: Frame) {
    Upper(f.tag) && (f.argument == "" || SafeArgument(f.argument)) && !HasToken(f.content)
  }

  /** How a text begins: whitespace, a block spelled out, and what follows. */
  datatype Start = Start(gap: string, raw: string, rest: string, filler: string, n1: string, n2: string)

  ghost predicate Begins(s: string, f: Frame, p: Start) {
    && s == p.gap + (p.raw + p.rest) && AllSpace(p.gap) && Canonized(f)
    && Spells(p.raw, f, p.filler, p.n1, p.n2)
  }

  /** `s` is these blocks, each spelled out, with nothing but whitespace around them. */
  ghost predicate Accounts(s: string, fs: seq<Frame>)
    decreases |fs|
  {
    if fs == [] then AllSpace(s) else exists p :: Begins(s, fs[0], p) && Accounts(p.rest, fs[1..])
  }

  lemma MatchParts(s: string, m: Match) returns (h: Header, body: string, k: nat, tail: string)
    requires MatchHere(s) == Some(m)
    ensures HeaderHere(s) == Some(h) && Newline(h.rest) == Some(body) && k <= |body|
    ensures Newline(body[k..]) == Some(tail) && After(tail, Closer) == Some(m.rest)
    ensures m == Match(h.name, Trim(h.filler), body[..k], m.rest)
  {
    h := HeaderHere(s).value;
    body := Newline(h.rest).value;
    k := CloseAt(body).value;
    tail := Newline(body[k..]).value;
  }

  lemma NewlineText(s: string, t: string) returns (n: string)
    requires Newline(s) == Some(t)
    ensures s == n + t && (n == "\n" || n == "\r\n")
  {
    n := if After(s, "\n").Some? then "\n" else "\r\n";
  }

  /** A match is a spelled-out block at the head of the text. */
  lemma MatchBegins(gap: string, s: string, m: Match) returns (p: Start)
    requires MatchHere(s) == Some(m) && AllSpace(gap) && Canonized(Frame(m.tag, m.argument, m.content))
    ensures Begins(gap + s, Frame(m.tag, m.argument, m.content), p) && p.rest == m.rest
  {
    var h, body, k, tail := MatchParts(s, m);
    var n1 := NewlineText(h.rest, body);
    var n2 := NewlineText(body[k..], tail);
    SpelledOut(s, h.name, h.filler, n1, h.rest, body, k, n2, tail, m.rest);
    var raw := Open + (h.name + (h.filler + (Shut + (n1 + (m.content + (n2 + Closer))))));
    p := Start(gap, raw, m.rest, h.filler, n1, n2);
  }

  lemma SpelledOut(s: string, name: string, filler: string, n1: string, hrest: string, body: string, k: nat,
                   n2: string, tail: string, rest: string)
    requires k <= |body| && s == Open + (name + (filler + (Shut + hrest))) && hrest == n1 + body
    requires body[k..] == n2 + tail && tail == Closer + rest
    ensures s == Open + (name + (filler + (Shut + (n1 + (body[..k] + (n2 + Closer)))))) + rest
  {
    assert body == body[..k] + (n2 + (Closer + rest));
    Assoc(n2, Closer, rest);
    Assoc(body[..k], n2 + Closer, rest);
    Assoc(n1, body[..k] + (n2 + Closer), rest);
    Shift(Open, name, filler, Shut, n1 + (body[..k] + (n2 + Closer)), rest);
  }

  lemma Halves(s: string, i: nat)
    requires i <= |s|
    ensures s == s[..i] + s[i..]
  {
  }

  lemma TakeIsMatch(s: string) returns (i: nat, m: Match)
    requires Take(s).More?
    ensures i <= |s| && MatchHere(s[i..]) == Some(m) && AllSpace(s[..i])
    ensures Take(s) == More(Frame(m.tag, m.argument, m.content), m.rest) && Canonized(Take(s).frame)
  {
    i := FirstMatch(s).value;
    m := MatchHere(s[i..]).value;
  }

  lemma TakeBegins(s: string) returns (p: Start)
    requires Take(s).More?
    ensures Begins(s, Take(s).frame, p) && p.rest == Take(s).rest
  {
    var i, m := TakeIsMatch(s);
    p := MatchBegins(s[..i], s[i..], m);
    Halves(s, i);
  }

  lemma AccountsCons(s: string, p: Start, f: Frame, fs: seq<Frame>)
    requires Begins(s, f, p) && Accounts(p.rest, fs)
    ensures Accounts(s, [f] + fs)
  {
    assert ([f] + fs)[0] == f && ([f] + fs)[1..] == fs;
  }

  /** An accepted artifact is exactly its frames: nothing is skipped, nothing hides in a content. */
  lemma {:induction false} ReadFramesAccount(s: string)
    requires Rest(s).Ok?
    ensures Accounts(s, Rest(s).value)
    decreases |s|
  {
    var t := Take(s);
    if t.More? {
      ReadFramesAccount(t.rest);
      var p := TakeBegins(s);
      AccountsCons(s, p, t.frame, Rest(t.rest).value);
    }
  }

  lemma ScanAccounts(artifact: string)
    requires Scan(artifact).Ok?
    ensures Scan(artifact).value != [] && Accounts(artifact, Scan(artifact).value)
  {
    ReadFramesAccount(artifact);
  }

  // ----- reading one tag -------------------------------------------------------------

  function Tagged(fs: seq<Frame>, tag: string): seq<Frame> {
    if fs == [] then [] else (if fs[0].tag == tag then [fs[0]] else []) + Tagged(fs[1..], tag)
  }

  function OfTag(es: seq<Entry>, tag: string): seq<Entry> {
    if es == [] then [] else (if es[0].tag == tag then [es[0]] else []) + OfTag(es[1..], tag)
  }

  lemma {:induction false} TaggedFrames(es: seq<Entry>, tag: string)
    ensures Tagged(Frames(es), tag) == Frames(OfTag(es, tag))
  {
    if es != [] {
      FramesCons(es);
      TaggedFrames(es[1..], tag);
      var rest := OfTag(es[1..], tag);
      FramesCons([es[0]] + rest);
      assert ([es[0]] + rest)[1..] == rest && Frames(es)[1..] == Frames(es[1..]);
      assert [] + rest == rest && [] + Frames(rest) == Frames(rest);
    }
  }

  lemma {:induction false} OfTagPrintable(es: seq<Entry>, tag: string)
    requires AllPrintable(es)
    ensures AllPrintable(OfTag(es, tag))
  {
    if es != [] { OfTagPrintable(es[1..], tag); }
  }

  function RequireSingleBlock(artifact: string, tag: string): Checked<string> {
    if !Known(tag) then Err(UnknownTag)
    else match Scan(artifact)
      case Err(code) => Err(code)
      case Ok(frames) =>
        var blocks := Tagged(frames, tag);
        if |blocks| != 1 then Err(BlockCardinality)
        else match RequireText(blocks[0].content)
          case Err(code) => Err(code)
          case Ok(text) => Ok(Trim(text))
  }

  /** Each argument with its trimmed text, or the first refusal. */
  function NamedTexts(fs: seq<Frame>): Checked<seq<(string, string)>> {
    if fs == [] then Ok([])
    else match RequireText(fs[0].content)
      case Err(code) => Err(code)
      case Ok(text) =>
        match NamedTexts(fs[1..])
        case Err(code) => Err(code)
        case Ok(rest) => Ok([(fs[0].argument, Trim(text))] + rest)
  }

  function ParseNamedTextBlocks(artifact: string, tag: string): Checked<seq<(string, string)>> {
    if !Known(tag) then Err(UnknownTag)
    else match Scan(artifact)
      case Err(code) => Err(code)
      case Ok(frames) =>
        var blocks := Tagged(frames, tag);
        if exists i :: 0 <= i < |blocks| && blocks[i].argument == "" then Err(MissingArgument)
        else NamedTexts(blocks)
  }

  lemma ReturnedIsText(c: string)
    requires !AllSpace(c) && !HasToken(c)
    ensures RequireText(Returned(c)) == Ok(Returned(c)) && Trim(Returned(c)) == Trim(c)
  {
    ReturnedTrims(c);
    TrimTrims(c);
    TrimTrims(Returned(c));
    ReturnedHasNoToken(c);
  }

  /** A single block gives its text back, trimmed; any other number is refused. */
  lemma SingleBlockReturns(es: seq<Entry>, artifact: string, tag: string)
    requires es != [] && CreatePromptArtifact(es) == Ok(artifact) && Known(tag)
    ensures var got := RequireSingleBlock(artifact, tag);
            var mine := OfTag(es, tag);
            if |mine| == 1 then got == Ok(Trim(mine[0].content)) else got == Err(BlockCardinality)
  {
    ComposedScansBack(es);
    TaggedFrames(es, tag);
    OfTagPrintable(es, tag);
    var mine := OfTag(es, tag);
    if |mine| == 1 { ReturnedIsText(mine[0].content); }
  }

  function NamedText(e: Entry): (string, string) {
    (Argument(e), Trim(e.content))
  }

  /** What named blocks of these entries are expected to give back. */
  function Named(es: seq<Entry>): (r: seq<(string, string)>)
    ensures |r| == |es| && forall i :: 0 <= i < |es| ==> r[i] == NamedText(es[i])
  {
    seq(|es|, i requires 0 <= i < |es| => NamedText(es[i]))
  }

  lemma NamedCons(es: seq<Entry>)
    requires es != []
    ensures Named(es) == [NamedText(es[0])] + Named(es[1..])
  {
  }

  lemma NamedTextsCons(f: Frame, text: string, fs: seq<Frame>, rest: seq<(string, string)>)
    requires RequireText(f.content) == Ok(f.content) && Trim(f.content) == text && NamedTexts(fs) == Ok(rest)
    ensures NamedTexts([f] + fs) == Ok([(f.argument, text)] + rest)
  {
    assert ([f] + fs)[1..] == fs;
  }

  lemma {:induction false} NamedTextsReturn(es: seq<Entry>)
    requires AllPrintable(es)
    ensures NamedTexts(Frames(es)) == Ok(Named(es))
  {
    if es != [] {
      FramesCons(es);
      NamedCons(es);
      NamedTextsReturn(es[1..]);
      assert Printable(es[0]);
      ReturnedIsText(es[0].content);
      NamedTextsCons(FrameOf(es[0]), Trim(es[0].content), Frames(es[1..]), Named(es[1..]));
    }
  }

  lemma NamedBlocksReturn(es: seq<Entry>, artifact: string, tag: string)
    requires es != [] && CreatePromptArtifact(es) == Ok(artifact) && Known(tag)
    ensures var got := ParseNamedTextBlocks(artifact, tag);
            var mine := OfTag(es, tag);
            if exists i :: 0 <= i < |mine| && mine[i].argument.None? then got == Err(MissingArgument)
            else got == Ok(Named(mine))
  {
    ComposedScansBack(es);
    TaggedFrames(es, tag);
    OfTagPrintable(es, tag);
    var mine := OfTag(es, tag);
    NamedTextsReturn(mine);
    forall i | 0 <= i < |mine| ensures Frames(mine)[i].argument == "" <==> mine[i].argument.None? {
      assert Printable(mine[i]);
    }
  }

  // ----- closing open blocks ----------------------------------------------------------

  datatype Kind = Opener | CloserLine | Other

  /** Whether a block is open after a line of this kind. */
  function Next(k: Kind, open: bool): bool {
    k == Opener || (k == Other && open)
  }

  /** No opener while a block is open, and none open at the end. */
  predicate Balanced(kind: string -> Kind, open: bool, lines: seq<string>)
    decreases |lines|
  {
    if lines == [] then !open
    else !(open && kind(lines[0]) == Opener) && Balanced(kind, Next(kind(lines[0]), open), lines[1..])
  }

  function Missing(needed: bool): seq<string> {
    if needed then [Closer] else []
  }

  /** The lines with an END before each opener that follows an unclosed one, and at the tail. */
  function Closed(kind: string -> Kind, open: bool, lines: seq<string>): seq<string>
    decreases |lines|
  {
    if lines == [] then Missing(open)
    else
      Missing(open && kind(lines[0]) == Opener)
      + ([lines[0]] + Closed(kind, Next(kind(lines[0]), open), lines[1..]))
  }

  lemma ClosedStep(kind: string -> Kind, open: bool, lines: seq<string>, out: seq<string>)
    requires lines != []
    ensures out + Closed(kind, open, lines)
         == out + Missing(open && kind(lines[0]) == Opener) + [lines[0]]
            + Closed(kind, Next(kind(lines[0]), open), lines[1..])
  {
    var end, line := Missing(open && kind(lines[0]) == Opener), [lines[0]];
    var rest := Closed(kind, Next(kind(lines[0]), open), lines[1..]);
    Assoc(out, end, line + rest);
    Assoc(out + end, line, rest);
  }

  method CloseBlocks(kind: string -> Kind, lines: seq<string>) returns (out: seq<string>)
    ensures out == Closed(kind, false, lines)
  {
    out := [];
    var open := false;
    assert lines[0..] == lines;
    for n := 0 to |lines|
      invariant out + Closed(kind, open, lines[n..]) == Closed(kind, false, lines)
    {
      ClosedStep(kind, open, lines[n..], out);
      assert lines[n..][1..] == lines[n + 1..];
      var k := kind(lines[n]);
      if open && k == Opener { out := out + [Closer]; } else { assert out + [] == out; }
      out := out + [lines[n]];
      open := Next(k, open);
    }
    if open { out := out + [Closer]; }
  }

  lemma ClosedHead(kind: string -> Kind, open: bool, lines: seq<string>)
    requires lines != [] && kind(Closer) == CloserLine
    requires var k := kind(lines[0]);
             Balanced(kind, Next(k, open), Closed(kind, Next(k, open), lines[1..]))
    ensures Balanced(kind, open, Closed(kind, open, lines))
  {
    var k := kind(lines[0]);
    var line := [lines[0]] + Closed(kind, Next(k, open), lines[1..]);
    assert line[1..] == Closed(kind, Next(k, open), lines[1..]);
    if open && k == Opener {
      assert Balanced(kind, false, line);
      assert ([Closer] + line)[1..] == line;
    } else {
      assert [] + line == line;
    }
  }

  /** The pass leaves every block closed before the next one opens. */
  lemma {:induction false} ClosedIsBalanced(kind: string -> Kind, open: bool, lines: seq<string>)
    requires kind(Closer) == CloserLine
    ensures Balanced(kind, open, Closed(kind, open, lines))
    decreases |lines|
  {
    if lines == [] {
      if open { assert [Closer][1..] == []; }
    } else {
      ClosedIsBalanced(kind, Next(kind(lines[0]), open), lines[1..]);
      ClosedHead(kind, open, lines);
    }
  }

  /** `all` is `lines` with closers put in between. */
  predicate Inserted(lines: seq<string>, all: seq<string>)
    decreases |all|
  {
    if all == [] then lines == []
    else || (lines != [] && lines[0] == all[0] && Inserted(lines[1..], all[1..]))
         || (all[0] == Closer && Inserted(lines, all[1..]))
  }

  /** Only frames move: the pass inserts closers and keeps every line in place. */
  lemma {:induction false} ClosedInserts(kind: string -> Kind, open: bool, lines: seq<string>)
    ensures Inserted(lines, Closed(kind, open, lines))
    decreases |lines|
  {
    if lines == [] {
      if open { assert [Closer][1..] == [] && Inserted([], []); }
    } else {
      var rest := Closed(kind, Next(kind(lines[0]), open), lines[1..]);
      ClosedInserts(kind, Next(kind(lines[0]), open), lines[1..]);
      var line := [lines[0]] + rest;
      assert line[1..] == rest && Inserted(lines, line);
      assert ([Closer] + line)[1..] == line && [] + line == line;
    }
  }

  lemma {:induction false} ClosedGrows(kind: string -> Kind, open: bool, lines: seq<string>)
    ensures |Closed(kind, open, lines)| >= |lines|
    ensures Closed(kind, open, lines) == lines <==> Balanced(kind, open, lines)
    decreases |lines|
  {
    if lines != [] {
      var still := Next(kind(lines[0]), open);
      ClosedGrows(kind, still, lines[1..]);
      var line := [lines[0]] + Closed(kind, still, lines[1..]);
      assert line[1..] == Closed(kind, still, lines[1..]) && [] + line == line;
      assert lines == [lines[0]] + lines[1..];
    }
  }

  /** It changes exactly what is not well closed, so a second pass changes nothing. */
  lemma ClosingSettles(kind: string -> Kind, lines: seq<string>)
    requires kind(Closer) == CloserLine
    ensures Closed(kind, false, lines) == lines <==> Balanced(kind, false, lines)
    ensures Closed(kind, false, Closed(kind, false, lines)) == Closed(kind, false, lines)
  {
    ClosedGrows(kind, false, lines);
    ClosedIsBalanced(kind, false, lines);
    ClosedGrows(kind, false, Closed(kind, false, lines));
  }
}
