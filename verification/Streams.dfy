/** Reading a model's stream: event decoding and the reasoning-loop detector. */
module Streams {
  import opened Text

  function Concat(chunks: seq<string>): string {
    if chunks == [] then "" else chunks[0] + Concat(chunks[1..])
  }

  lemma {:induction false} ConcatSnoc(chunks: seq<string>, c: string)
    ensures Concat(chunks + [c]) == Concat(chunks) + c
  {
    if chunks != [] {
      assert (chunks + [c])[1..] == chunks[1..] + [c];
      ConcatSnoc(chunks[1..], c);
    } else {
      assert chunks + [c] == [c] && Concat([c]) == c + Concat([]);
    }
  }

  // ----- server-sent events -----------------------------------------------

  const LFLF := "\n\n"
  const CRLFCRLF := "\r\n\r\n"

  lemma BoundaryChars(s: string, i: nat)
    ensures At(s, LFLF, i) <==> i + 2 <= |s| && s[i] == '\n' && s[i + 1] == '\n'
    ensures At(s, CRLFCRLF, i)
            <==> i + 4 <= |s| && s[i] == '\r' && s[i + 1] == '\n' && s[i + 2] == '\r' && s[i + 3] == '\n'
  {
    AtChars(s, LFLF, i);
    AtChars(s, CRLFCRLF, i);
    assert LFLF[0] == '\n' && LFLF[1] == '\n';
    assert CRLFCRLF[0] == '\r' && CRLFCRLF[1] == '\n' && CRLFCRLF[2] == '\r' && CRLFCRLF[3] == '\n';
  }

  datatype Boundary = Boundary(index: nat, length: nat)

  function FindEventBoundary(buffer: string): (r: Option<Boundary>)
    ensures r.Some? ==> r.value.length > 0 && r.value.index + r.value.length <= |buffer|
  {
    match (Find(buffer, LFLF, 0), Find(buffer, CRLFCRLF, 0))
    case (None, None) => None
    case (Some(lf), None) => Some(Boundary(lf, 2))
    case (None, Some(crlf)) => Some(Boundary(crlf, 4))
    case (Some(lf), Some(crlf)) => Some(if crlf < lf then Boundary(crlf, 4) else Boundary(lf, 2))
  }

  lemma BoundarySpec(s: string)
    ensures match FindEventBoundary(s)
            case None => forall k: nat :: !At(s, LFLF, k) && !At(s, CRLFCRLF, k)
            case Some(b) =>
              && (b.length == 2 || b.length == 4) && At(s, if b.length == 2 then LFLF else CRLFCRLF, b.index)
              && forall k: nat :: k < b.index ==> !At(s, LFLF, k) && !At(s, CRLFCRLF, k)
  {
    FindSpec(s, LFLF, 0);
    FindSpec(s, CRLFCRLF, 0);
  }

  /** `split(/\r?\n/)`. */
  function SplitLines(s: string): (r: seq<string>)
    ensures r != []
  {
    if s == [] then [""]
    else if s[0] == '\n' then [""] + SplitLines(s[1..])
    else if |s| > 1 && s[0] == '\r' && s[1] == '\n' then [""] + SplitLines(s[2..])
    else
      var r := SplitLines(s[1..]);
      Prepend(s[0], r)
  }

  function Prepend(c: char, r: seq<string>): (q: seq<string>)
    requires r != []
    ensures q != []
  {
    [[c] + r[0]] + r[1..]
  }

  /** What each `data:` line carries. */
  function DataLines(lines: seq<string>): seq<string> {
    if lines == [] then []
    else (if "data:" <= lines[0] then [TrimStart(lines[0][5..])] else []) + DataLines(lines[1..])
  }

  function JoinLines(lines: seq<string>): string {
    if lines == [] then "" else if |lines| == 1 then lines[0] else lines[0] + "\n" + JoinLines(lines[1..])
  }

  function Yield(data: seq<string>): seq<string> {
    if JoinLines(data) == "" then [] else [JoinLines(data)]
  }

  function PayloadOf(rawEvent: string): seq<string> {
    Yield(DataLines(SplitLines(rawEvent)))
  }

  /** Take every complete event out of a buffer; what is left stays buffered. */
  function Drain(buffer: string): (r: (seq<string>, string))
    decreases |buffer|
  {
    match FindEventBoundary(buffer)
    case None => ([], buffer)
    case Some(b) =>
      var (events, rest) := Drain(buffer[b.index + b.length..]);
      (PayloadOf(buffer[..b.index]) + events, rest)
  }

  function Payloads(text: string): seq<string> {
    Drain(text).0 + PayloadOf(Drain(text).1)
  }

  lemma AtInFront(buffer: string, more: string, pat: string, i: nat)
    requires i + |pat| <= |buffer|
    ensures At(buffer + more, pat, i) <==> At(buffer, pat, i)
  {
    assert (buffer + more)[i..i + |pat|] == buffer[i..i + |pat|];
  }

  function Separator(b: Boundary): string {
    if b.length == 2 then LFLF else CRLFCRLF
  }

  /** A boundary with none before it is the one that is found. */
  lemma BoundaryIs(s: string, b: Boundary)
    requires (b.length == 2 || b.length == 4) && At(s, Separator(b), b.index)
    requires forall k: nat :: k < b.index ==> !At(s, LFLF, k) && !At(s, CRLFCRLF, k)
    ensures FindEventBoundary(s) == Some(b)
  {
    SameStart(s, b.index);
    FindIs(s, Separator(b), 0, b.index);
    FindSpec(s, if b.length == 2 then CRLFCRLF else LFLF, 0);
  }

  lemma NoneBefore(buffer: string, more: string, b: Boundary, i: nat)
    requires FindEventBoundary(buffer) == Some(b) && i < b.index
    ensures !At(buffer + more, LFLF, i) && !At(buffer + more, CRLFCRLF, i)
  {
    var s := buffer + more;
    BoundarySpec(buffer);
    AtInFront(buffer, more, Separator(b), b.index);
    forall k: nat | k < b.index && k + 2 <= b.index + b.length ensures !At(s, LFLF, k) {
      AtInFront(buffer, more, LFLF, k);
    }
    forall k: nat | k < b.index && k + 4 <= b.index + b.length ensures !At(s, CRLFCRLF, k) {
      AtInFront(buffer, more, CRLFCRLF, k);
    }
    NoEarlierBoundary(s, b, i);
  }

  /** Text that arrives later never completes an earlier boundary. */
  lemma BoundaryIsStable(buffer: string, more: string)
    requires FindEventBoundary(buffer).Some?
    ensures FindEventBoundary(buffer + more) == FindEventBoundary(buffer)
  {
    var b := FindEventBoundary(buffer).value;
    BoundarySpec(buffer);
    AtInFront(buffer, more, Separator(b), b.index);
    forall k: nat | k < b.index ensures !At(buffer + more, LFLF, k) && !At(buffer + more, CRLFCRLF, k) {
      NoneBefore(buffer, more, b, k);
    }
    BoundaryIs(buffer + more, b);
  }

  lemma SameStart(s: string, i: nat)
    ensures !(At(s, LFLF, i) && At(s, CRLFCRLF, i))
  {
    BoundaryChars(s, i);
  }

  /** A boundary before the one taken would have to fit in front of it entirely. */
  lemma NoEarlierBoundary(s: string, b: Boundary, i: nat)
    requires At(s, Separator(b), b.index) && i < b.index
    requires b.length == 2 || b.length == 4
    requires forall k: nat :: k < b.index && k + 2 <= b.index + b.length ==> !At(s, LFLF, k)
    requires forall k: nat :: k < b.index && k + 4 <= b.index + b.length ==> !At(s, CRLFCRLF, k)
    ensures !At(s, LFLF, i) && !At(s, CRLFCRLF, i)
  {
    BoundaryChars(s, i);
    BoundaryChars(s, b.index);
  }

  /** Draining as text arrives takes the same events as draining it all at once. */
  lemma {:induction false} DrainIsIncremental(buffer: string, more: string)
    ensures var (first, rest) := Drain(buffer);
            var (then_, left) := Drain(rest + more);
            Drain(buffer + more) == (first + then_, left)
    decreases |buffer|
  {
    match FindEventBoundary(buffer)
    case None =>
      assert [] + Drain(buffer + more).0 == Drain(buffer + more).0;
    case Some(b) =>
      BoundaryIsStable(buffer, more);
      var cut := b.index + b.length;
      assert (buffer + more)[cut..] == buffer[cut..] + more;
      assert (buffer + more)[..b.index] == buffer[..b.index];
      DrainIsIncremental(buffer[cut..], more);
      Assoc(PayloadOf(buffer[..b.index]), Drain(buffer[cut..]).0, Drain(Drain(buffer[cut..]).1 + more).0);
  }

  /** What is taken so far, and what the buffer still drains to, make up the whole. */
  predicate Drained(payloads: seq<string>, buffer: string, whole: (seq<string>, string)) {
    payloads + Drain(buffer).0 == whole.0 && Drain(buffer).1 == whole.1
  }

  lemma DrainTakes(payloads: seq<string>, buffer: string, b: Boundary, whole: (seq<string>, string))
    requires FindEventBoundary(buffer) == Some(b) && Drained(payloads, buffer, whole)
    ensures Drained(payloads + PayloadOf(buffer[..b.index]), buffer[b.index + b.length..], whole)
  {
    Assoc(payloads, PayloadOf(buffer[..b.index]), Drain(buffer[b.index + b.length..]).0);
  }

  lemma DrainEnds(payloads: seq<string>, buffer: string, whole: (seq<string>, string))
    requires FindEventBoundary(buffer).None? && Drained(payloads, buffer, whole)
    ensures (payloads, buffer) == whole
  {
    assert payloads + [] == payloads;
  }

  lemma DrainBegins(buffer: string)
    ensures Drained([], buffer, Drain(buffer))
  {
    assert [] + Drain(buffer).0 == Drain(buffer).0;
  }

  /** The inner loop: every event the buffer already holds. */
  method TakeEvents(held: string) returns (payloads: seq<string>, buffer: string)
    ensures (payloads, buffer) == Drain(held)
  {
    payloads, buffer := [], held;
    ghost var whole := Drain(held);
    DrainBegins(held);
    var separator := FindEventBoundary(buffer);
    while separator.Some?
      invariant separator == FindEventBoundary(buffer) && Drained(payloads, buffer, whole)
      decreases |buffer|
    {
      var b := separator.value;
      DrainTakes(payloads, buffer, b, whole);
      payloads, buffer := payloads + PayloadOf(buffer[..b.index]), buffer[b.index + b.length..];
      separator := FindEventBoundary(buffer);
    }
    DrainEnds(payloads, buffer, whole);
  }

  /** The payloads depend on the text alone, not on how it was cut into chunks. */
  method ReadServerSentEvents(body: seq<string>) returns (payloads: seq<string>)
    ensures payloads == Payloads(Concat(body))
  {
    payloads := [];
    var buffer := "";
    for i := 0 to |body|
      invariant (payloads, buffer) == Drain(Concat(body[..i]))
    {
      DrainIsIncremental(Concat(body[..i]), body[i]);
      ConcatSnoc(body[..i], body[i]);
      assert body[..i + 1] == body[..i] + [body[i]];
      var events;
      events, buffer := TakeEvents(buffer + body[i]);
      payloads := payloads + events;
    }
    assert body[..|body|] == body;
    payloads := payloads + PayloadOf(buffer);
  }

  // ----- against a line-by-line reading -----------------------------------

  /** Events read a line at a time: a blank line ends one, and so does the end. */
  function ByLines(lines: seq<string>, data: seq<string>): seq<string> {
    if lines == [] then Yield(data)
    else if lines[0] == "" then Yield(data) + ByLines(lines[1..], [])
    else ByLines(lines[1..], data + DataLines(lines[..1]))
  }

  /** At `i` a blank line ends in another way than the line before it. */
  predicate MixedBlank(t: string, i: nat) {
    && i + 3 <= |t|
    && ((t[i] == '\r' && t[i + 1] == '\n' && t[i + 2] == '\n')
        || (t[i] == '\n' && t[i + 1] == '\r' && t[i + 2] == '\n' && (i == 0 || t[i - 1] != '\r')))
  }

  /** Every blank line ends the way the line before it does. */
  ghost predicate Uniform(t: string) {
    forall i: nat :: !MixedBlank(t, i)
  }

  lemma {:induction false} DataLinesAppend(a: seq<string>, b: seq<string>)
    ensures DataLines(a + b) == DataLines(a) + DataLines(b)
  {
    if a == [] {
      assert a + b == b;
    } else {
      assert (a + b)[1..] == a[1..] + b;
      DataLinesAppend(a[1..], b);
    }
  }

  /** Lines none of which is blank only accumulate. */
  lemma {:induction false} ByLinesAccumulates(lines: seq<string>, rest: seq<string>, data: seq<string>)
    requires "" !in lines
    ensures ByLines(lines + rest, data) == ByLines(rest, data + DataLines(lines))
  {
    if lines == [] {
      assert lines + rest == rest && data + [] == data;
    } else {
      assert (lines + rest)[1..] == lines[1..] + rest && (lines + rest)[..1] == lines[..1];
      ByLinesAccumulates(lines[1..], rest, data + DataLines(lines[..1]));
      assert lines == lines[..1] + lines[1..];
      DataLinesAppend(lines[..1], lines[1..]);
      assert data + (DataLines(lines[..1]) + DataLines(lines[1..]))
          == data + DataLines(lines[..1]) + DataLines(lines[1..]);
    }
  }

  /** At `i` a line ends and a blank one follows. */
  predicate BlankAt(t: string, i: nat) {
    && i + 2 <= |t| && t[i] == '\n'
    && (t[i + 1] == '\n' || (i + 3 <= |t| && t[i + 1] == '\r' && t[i + 2] == '\n'))
  }

  ghost predicate NoBlank(t: string) {
    forall i: nat :: !BlankAt(t, i)
  }

  lemma {:induction false} SplitAtLineEnd(a: string, eol: string, rest: string)
    requires eol == "\r\n" || (eol == "\n" && (a == "" || a[|a| - 1] != '\r'))
    ensures SplitLines(a + eol + rest) == SplitLines(a) + SplitLines(rest)
  {
    var s := a + eol + rest;
    if a == "" {
      assert s == eol + rest && s[|eol|..] == rest;
    } else {
      var ends := a[0] == '\n' || (|a| > 1 && a[0] == '\r' && a[1] == '\n');
      var step := if a[0] == '\n' || !ends then 1 else 2;
      SplitAtLineEnd(a[step..], eol, rest);
      assert s[0] == a[0] && (|a| > 1 ==> s[1] == a[1]) && (|a| == 1 ==> s[1] == eol[0]);
      assert s[step..] == a[step..] + eol + rest;
      FirstLine(s, ends, step);
      FirstLine(a, ends, step);
      if ends {
        Assoc([""], SplitLines(a[step..]), SplitLines(rest));
      } else {
        PrependAppend(a[0], SplitLines(a[step..]), SplitLines(rest));
      }
    }
  }

  lemma FirstLine(s: string, ends: bool, step: nat)
    requires s != ""
    requires ends <==> s[0] == '\n' || (|s| > 1 && s[0] == '\r' && s[1] == '\n')
    requires step == if s[0] == '\n' || !ends then 1 else 2
    ensures SplitLines(s) == if ends then [""] + SplitLines(s[step..]) else Prepend(s[0], SplitLines(s[step..]))
  {
  }

  lemma PrependAppend(c: char, r: seq<string>, q: seq<string>)
    requires r != []
    ensures Prepend(c, r + q) == Prepend(c, r) + q
  {
    assert (r + q)[1..] == r[1..] + q;
  }

  /** Where no blank line follows a line end, only the outer lines can be blank. */
  lemma {:induction false} InnerLinesAreFull(t: string)
    requires NoBlank(t)
    ensures forall j :: 1 <= j < |SplitLines(t)| - 1 ==> SplitLines(t)[j] != ""
  {
    if t != "" {
      var step := if t[0] != '\n' && |t| > 1 && t[0] == '\r' && t[1] == '\n' then 2 else 1;
      var rest := t[step..];
      assert NoBlank(rest) by {
        forall i: nat ensures !BlankAt(rest, i) { assert !BlankAt(t, i + step); }
      }
      InnerLinesAreFull(rest);
      assert t[step - 1] == '\n' ==> !BlankAt(t, step - 1);
      FirstLineBlank(rest);
    }
  }

  lemma FirstLineBlank(t: string)
    ensures SplitLines(t)[0] == "" && |SplitLines(t)| > 1
            ==> t != "" && (t[0] == '\n' || (|t| > 1 && t[0] == '\r' && t[1] == '\n'))
  {
  }

  lemma LastLineFull(t: string)
    requires t != "" && t[|t| - 1] != '\n'
    ensures SplitLines(t)[|SplitLines(t)| - 1] != ""
  {
    if |t| > 1 {
      var step := if t[0] != '\n' && t[0] == '\r' && t[1] == '\n' then 2 else 1;
      assert t[step..][|t| - step - 1] == t[|t| - 1];
      LastLineFull(t[step..]);
    }
  }

  /** The first line opens an event whether or not it is blank. */
  lemma AnyFirstLine(lines: seq<string>, rest: seq<string>)
    requires lines != []
    ensures ByLines(lines + rest, []) == ByLines(lines[1..] + rest, DataLines(lines[..1]))
  {
    var all := lines + rest;
    assert all[1..] == lines[1..] + rest && all[..1] == lines[..1];
    var data := DataLines(lines[..1]);
    if lines[0] == "" {
      assert data == [] && Yield([]) == [];
    } else {
      assert [] + data == data;
    }
  }

  /** A stretch of lines with no blank one inside reads as one event. */
  lemma OneEvent(lines: seq<string>, rest: seq<string>)
    requires lines != [] && "" !in lines[1..]
    requires rest == [] || rest[0] == ""
    ensures ByLines(lines + rest, [])
         == Yield(DataLines(lines)) + (if rest == [] then [] else ByLines(rest[1..], []))
  {
    assert lines == lines[..1] + lines[1..];
    DataLinesAppend(lines[..1], lines[1..]);
    AnyFirstLine(lines, rest);
    ByLinesAccumulates(lines[1..], rest, DataLines(lines[..1]));
  }

  /** Text before a boundary, or without one, has no blank line inside. */
  lemma NoBoundaryNoBlank(t: string, n: nat)
    requires Uniform(t) && n <= |t|
    requires forall i: nat :: i < n ==> !At(t, LFLF, i) || i + 2 > n
    requires forall i: nat :: i < n ==> !At(t, CRLFCRLF, i) || i + 4 > n
    ensures NoBlank(t[..n])
  {
    var a := t[..n];
    forall i: nat ensures !BlankAt(a, i) {
      BoundaryChars(t, i);
      assert !MixedBlank(t, i);
      if i > 0 { BoundaryChars(t, i - 1); }
    }
  }

  lemma UniformRest(t: string, b: Boundary)
    requires Uniform(t) && FindEventBoundary(t) == Some(b)
    ensures Uniform(t[b.index + b.length..])
  {
    var cut := b.index + b.length;
    BoundarySpec(t);
    BoundaryChars(t, b.index);
    forall i: nat ensures !MixedBlank(t[cut..], i) { assert !MixedBlank(t, cut + i); }
  }

  /** The lines of a text, cut at its first boundary. */
  lemma LinesAroundBoundary(t: string, b: Boundary)
    requires Uniform(t) && FindEventBoundary(t) == Some(b)
    ensures SplitLines(t) == SplitLines(t[..b.index]) + ([""] + SplitLines(t[b.index + b.length..]))
  {
    var a, rest := t[..b.index], t[b.index + b.length..];
    var eol := if b.length == 2 then "\n" else "\r\n";
    BoundarySpec(t);
    BoundaryChars(t, b.index);
    assert t == a + eol + (eol + rest);
    if b.index > 0 { assert !MixedBlank(t, b.index - 1); }
    SplitAtLineEnd(a, eol, eol + rest);
    SplitAtLineEnd("", eol, rest);
    assert "" + eol + rest == eol + rest;
  }

  lemma BeforeBoundaryIsOneEvent(t: string, b: Boundary)
    requires Uniform(t) && FindEventBoundary(t) == Some(b)
    ensures "" !in SplitLines(t[..b.index])[1..]
  {
    var a := t[..b.index];
    BoundarySpec(t);
    BoundaryChars(t, b.index);
    if b.index > 0 {
      assert !MixedBlank(t, b.index - 1);
      BoundaryChars(t, b.index - 1);
      if b.index > 1 { BoundaryChars(t, b.index - 2); }
      LastLineFull(a);
    }
    NoBoundaryNoBlank(t, b.index);
    InnerLinesAreFull(a);
    FullTail(SplitLines(a));
  }

  lemma FullTail(lines: seq<string>)
    requires lines != [] && forall j :: 1 <= j < |lines| - 1 ==> lines[j] != ""
    requires |lines| > 1 ==> lines[|lines| - 1] != ""
    ensures "" !in lines[1..]
  {
  }

  lemma PayloadsAtBoundary(t: string, b: Boundary)
    requires FindEventBoundary(t) == Some(b)
    ensures Payloads(t) == PayloadOf(t[..b.index]) + Payloads(t[b.index + b.length..])
  {
    DrainBegins(t);
    DrainTakes([], t, b, Drain(t));
    var first, rest := PayloadOf(t[..b.index]), Drain(t[b.index + b.length..]);
    assert [] + Drain(t).0 == Drain(t).0 && [] + first == first;
    Assoc(first, rest.0, PayloadOf(rest.1));
  }

  /**
   When every blank line ends the way the line before it does, splitting at
   boundaries reads the same events as going line by line.
   */
  lemma {:induction false} PayloadsReadLineByLine(t: string)
    requires Uniform(t)
    ensures Payloads(t) == ByLines(SplitLines(t), [])
    decreases |t|
  {
    match FindEventBoundary(t)
    case None =>
      assert t[..|t|] == t;
      BoundarySpec(t);
      NoBoundaryNoBlank(t, |t|);
      InnerLinesAreFull(t);
      LastLineMayBeBlank(SplitLines(t));
      assert Payloads(t) == [] + PayloadOf(t);
    case Some(b) =>
      var a, rest := t[..b.index], t[b.index + b.length..];
      LinesAroundBoundary(t, b);
      BeforeBoundaryIsOneEvent(t, b);
      UniformRest(t, b);
      PayloadsReadLineByLine(rest);
      OneEvent(SplitLines(a), [""] + SplitLines(rest));
      PayloadsAtBoundary(t, b);
  }

  lemma LastLineMayBeBlank(lines: seq<string>)
    requires lines != [] && forall j :: 1 <= j < |lines| - 1 ==> lines[j] != ""
    ensures ByLines(lines, []) == Yield(DataLines(lines))
  {
    var n := |lines| - 1;
    if n > 0 && lines[n] == "" {
      var most := lines[..n];
      FullTailBut(lines);
      OneEvent(most, [""]);
      DataLinesAppend(most, [""]);
      assert DataLines(most) + [] == DataLines(most);
      assert Yield(DataLines(most)) + [] == Yield(DataLines(most));
    } else {
      FullTail(lines);
      OneEvent(lines, []);
      assert lines + [] == lines;
    }
  }

  lemma FullTailBut(lines: seq<string>)
    requires |lines| > 1 && forall j :: 1 <= j < |lines| - 1 ==> lines[j] != ""
    requires lines[|lines| - 1] == ""
    ensures lines == lines[..|lines| - 1] + [""] && "" !in lines[..|lines| - 1][1..]
    ensures ByLines([""][1..], []) == [] && DataLines([""]) == []
  {
    var most := lines[..|lines| - 1];
    assert forall j :: 0 <= j < |most[1..]| ==> most[1..][j] == lines[j + 1];
  }

  lemma {:induction false} SingleLine(x: string)
    requires '\n' !in x
    ensures SplitLines(x) == [x]
  {
    if x != "" {
      SingleLine(x[1..]);
      assert x == [x[0]] + x[1..];
    }
  }

  lemma MixedSplits(x: string, y: string)
    requires '\n' !in x && '\n' !in y && (x == "" || x[|x| - 1] != '\r')
    ensures SplitLines(x + "\n" + "\r\n" + y) == [x, "", y]
  {
    SingleLine(x);
    SingleLine(y);
    SplitAtLineEnd(x, "\n", "\r\n" + y);
    assert x + "\n" + "\r\n" + y == x + "\n" + ("\r\n" + y);
    SplitAtLineEnd("", "\r\n", y);
    assert "" + "\r\n" + y == "\r\n" + y;
    assert [x] + ([""] + [y]) == [x, "", y];
  }

  lemma MixedHasNoBoundary(x: string, y: string)
    requires '\n' !in x && '\n' !in y && (x == "" || x[|x| - 1] != '\r')
    ensures FindEventBoundary(x + "\n" + "\r\n" + y) == None
  {
    var t := x + "\n" + "\r\n" + y;
    forall i: nat ensures !At(t, LFLF, i) && !At(t, CRLFCRLF, i) { BoundaryChars(t, i); }
    BoundarySpec(t);
  }

  // ----- exactly when the two readings agree -----------------------------

  /** How many of the events among these lines bear data, `data` already read. */
  function Bearing(lines: seq<string>, data: seq<string>): nat {
    if lines == [] then (if data == [] then 0 else 1)
    else if lines[0] == "" then (if data == [] then 0 else 1) + Bearing(lines[1..], [])
    else Bearing(lines[1..], data + DataLines(lines[..1]))
  }

  /** Characters, and one for each string. */
  function Size(strings: seq<string>): nat {
    if strings == [] then 0 else |strings[0]| + 1 + Size(strings[1..])
  }

  lemma {:induction false} SizeAppend(a: seq<string>, b: seq<string>)
    ensures Size(a + b) == Size(a) + Size(b)
  {
    if a == [] {
      assert a + b == b;
    } else {
      assert (a + b)[1..] == a[1..] + b;
      SizeAppend(a[1..], b);
    }
  }

  lemma {:induction false} JoinedSize(data: seq<string>)
    ensures data != [] ==> |JoinLines(data)| + 1 == Size(data)
  {
    if |data| > 1 { JoinedSize(data[1..]); } else if |data| == 1 { assert data[1..] == []; }
  }

  lemma SizeCounts(data: seq<string>)
    ensures Size(data) >= |data|
  {
    if data != [] { SizeCounts(data[1..]); }
  }

  /** An event keeps all its data says, except that one empty line says nothing. */
  lemma YieldSize(data: seq<string>)
    ensures Size(Yield(data)) == if data == [""] then 0 else Size(data)
    ensures |Yield(data)| == if data == [] || data == [""] then 0 else 1
  {
    JoinedSize(data);
    SizeCounts(data);
    if data != [] && JoinLines(data) != "" {
      assert [JoinLines(data)][1..] == [];
    } else if data != [] {
      assert |data| == 1;
    }
  }

  /** Line by line no more is said than the data hold; if no less, each event that bears any is read. */
  lemma {:induction false} ByLinesSize(lines: seq<string>, data: seq<string>)
    ensures Size(ByLines(lines, data)) <= Size(data + DataLines(lines))
    ensures Size(ByLines(lines, data)) == Size(data + DataLines(lines)) ==> |ByLines(lines, data)| == Bearing(lines, data)
    ensures Bearing(lines, data) <= |data + DataLines(lines)|
    decreases |lines|
  {
    YieldSize(data);
    if lines == [] {
      assert data + [] == data;
    } else {
      assert lines == lines[..1] + lines[1..];
      DataLinesAppend(lines[..1], lines[1..]);
      Assoc(data, DataLines(lines[..1]), DataLines(lines[1..]));
      if lines[0] == "" {
        ByLinesSize(lines[1..], []);
        SizeAppend(Yield(data), ByLines(lines[1..], []));
        SizeAppend(data, DataLines(lines[1..]));
        BlankBearsNothing(lines, data);
      } else {
        ByLinesSize(lines[1..], data + DataLines(lines[..1]));
      }
    }
  }

  lemma BlankBearsNothing(lines: seq<string>, data: seq<string>)
    requires lines != [] && lines[0] == ""
    ensures data + DataLines(lines) == data + DataLines(lines[1..])
    ensures [] + DataLines(lines[1..]) == DataLines(lines[1..])
  {
    assert [] + DataLines(lines[1..]) == DataLines(lines[1..]);
  }

  /** Where at most one event bears data, splitting at its blank lines changes nothing. */
  lemma {:induction false} OneBearerReadsTheSame(lines: seq<string>, data: seq<string>)
    requires Bearing(lines, data) <= 1
    ensures ByLines(lines, data) == Yield(data + DataLines(lines))
    ensures Bearing(lines, data) == 0 ==> data + DataLines(lines) == []
    decreases |lines|
  {
    if lines == [] {
      assert data + [] == data;
    } else if lines[0] == "" {
      OneBearerReadsTheSame(lines[1..], []);
      BlankBearsNothing(lines, data);
      if data == [] {
        assert Yield([]) == [] && [] + ByLines(lines[1..], []) == ByLines(lines[1..], []);
      } else {
        assert DataLines(lines[1..]) == [] && data + [] == data;
        assert Yield(data) + Yield([]) == Yield(data);
      }
    } else {
      OneBearerReadsTheSame(lines[1..], data + DataLines(lines[..1]));
      assert lines == lines[..1] + lines[1..];
      DataLinesAppend(lines[..1], lines[1..]);
      Assoc(data, DataLines(lines[..1]), DataLines(lines[1..]));
    }
  }

  /** One reading says no more than the other, and if no less, in no fewer events. */
  predicate Behind(fine: seq<string>, coarse: seq<string>) {
    Size(fine) <= Size(coarse) && (Size(fine) == Size(coarse) ==> |coarse| <= |fine|)
  }

  lemma ChunkReadings(lines: seq<string>)
    ensures Behind(ByLines(lines, []), Yield(DataLines(lines)))
    ensures ByLines(lines, []) == Yield(DataLines(lines)) <==> Bearing(lines, []) <= 1
  {
    var data := DataLines(lines);
    assert [] + data == data;
    ByLinesSize(lines, []);
    YieldSize(data);
    if Bearing(lines, []) <= 1 { OneBearerReadsTheSame(lines, []); }
  }

  /** The event before a boundary ends in a carriage return that belongs to its last line's end. */
  predicate Torn(t: string, b: Boundary) {
    b.length == 2 && 0 < b.index <= |t| && t[b.index - 1] == '\r'
  }

  /** The lines before a boundary, as the text has them. */
  function LinesBefore(t: string, b: Boundary): seq<string>
    requires b.index <= |t|
  {
    SplitLines(if Torn(t, b) then t[..b.index - 1] else t[..b.index])
  }

  /** The last of these lines carries data that a carriage return would change. */
  predicate LastCarries(lines: seq<string>)
    requires lines != []
  {
    var last := lines[|lines| - 1];
    "data:" <= last && !AllSpace(last[5..])
  }

  /** Between boundaries at most one event bears data, and no line that carries data is torn. */
  predicate AllAgree(t: string)
    decreases |t|
  {
    match FindEventBoundary(t)
    case None => Bearing(SplitLines(t), []) <= 1
    case Some(b) =>
      && Bearing(LinesBefore(t, b), []) <= 1 && !(Torn(t, b) && LastCarries(LinesBefore(t, b)))
      && AllAgree(t[b.index + b.length..])
  }

  /** The characters of a first boundary. */
  lemma BoundaryAt(t: string, b: Boundary)
    requires FindEventBoundary(t) == Some(b)
    ensures b.length == 2 || b.length == 4
    ensures b.length == 2 ==> t[b.index] == '\n' && t[b.index + 1] == '\n'
    ensures b.length == 4 ==>
              t[b.index] == '\r' && t[b.index + 1] == '\n' && t[b.index + 2] == '\r' && t[b.index + 3] == '\n'
  {
    BoundarySpec(t);
    BoundaryChars(t, b.index);
  }

  lemma CutsAt(t: string, i: nat, eol: string, blank: string, k: nat)
    requires i + |eol| + |blank| == k <= |t|
    requires t[i..i + |eol|] == eol && t[i + |eol|..k] == blank
    ensures t == t[..i] + eol + (blank + t[k..])
  {
  }

  /** Two characters, as a slice. */
  lemma Pair(t: string, i: nat, pair: string)
    requires |pair| == 2 && i + 2 <= |t| && t[i] == pair[0] && t[i + 1] == pair[1]
    ensures t[i..i + 2] == pair
  {
  }

  lemma CutsAtShort(t: string, i: nat, torn: bool)
    requires i + 2 <= |t| && t[i] == '\n' && t[i + 1] == '\n' && (torn ==> i > 0 && t[i - 1] == '\r')
    ensures if torn then t == t[..i - 1] + "\r\n" + ("\n" + t[i + 2..]) else t == t[..i] + "\n" + ("\n" + t[i + 2..])
  {
    if torn {
      Pair(t, i - 1, "\r\n");
      CutsAt(t, i - 1, "\r\n", "\n", i + 2);
    } else {
      CutsAt(t, i, "\n", "\n", i + 2);
    }
  }

  lemma CutsAtLong(t: string, i: nat)
    requires i + 4 <= |t| && t[i] == '\r' && t[i + 1] == '\n' && t[i + 2] == '\r' && t[i + 3] == '\n'
    ensures t == t[..i] + "\r\n" + ("\r\n" + t[i + 4..])
  {
    Pair(t, i, "\r\n");
    Pair(t, i + 2, "\r\n");
    CutsAt(t, i, "\r\n", "\r\n", i + 4);
  }

  /** Where the text is cut at its first boundary: the event, its line's end, a blank line's end, the rest. */
  lemma BoundaryCuts(t: string, b: Boundary) returns (a: string, eol: string, blank: string)
    requires FindEventBoundary(t) == Some(b)
    ensures t == a + eol + (blank + t[b.index + b.length..]) && SplitLines(a) == LinesBefore(t, b)
    ensures eol == "\r\n" || (eol == "\n" && (a == "" || a[|a| - 1] != '\r'))
    ensures blank == "\n" || blank == "\r\n"
  {
    BoundaryAt(t, b);
    if b.length == 2 {
      CutsAtShort(t, b.index, Torn(t, b));
    } else {
      CutsAtLong(t, b.index);
    }
    blank := if b.length == 2 then "\n" else "\r\n";
    eol := if Torn(t, b) then "\r\n" else blank;
    a := if Torn(t, b) then t[..b.index - 1] else t[..b.index];
  }

  lemma LinesAtBoundary(t: string, b: Boundary)
    requires FindEventBoundary(t) == Some(b)
    ensures SplitLines(t) == LinesBefore(t, b) + ([""] + SplitLines(t[b.index + b.length..]))
  {
    var a, eol, blank := BoundaryCuts(t, b);
    var rest := t[b.index + b.length..];
    SplitAtLineEnd(a, eol, blank + rest);
    assert "" + blank + rest == blank + rest;
    SplitAtLineEnd("", blank, rest);
  }

  /** A blank line ends an event, whatever follows. */
  lemma {:induction false} ByLinesFlushes(lines: seq<string>, rest: seq<string>, data: seq<string>)
    ensures ByLines(lines + ([""] + rest), data) == ByLines(lines, data) + ByLines(rest, [])
    decreases |lines|
  {
    var all := lines + ([""] + rest);
    if lines == [] {
      assert all == [""] + rest && all[1..] == rest;
    } else {
      assert all[1..] == lines[1..] + ([""] + rest) && all[..1] == lines[..1];
      if lines[0] == "" {
        ByLinesFlushes(lines[1..], rest, []);
        Assoc(Yield(data), ByLines(lines[1..], []), ByLines(rest, []));
      } else {
        ByLinesFlushes(lines[1..], rest, data + DataLines(lines[..1]));
      }
    }
  }

  /** These lines with a carriage return after the last. */
  function Tear(lines: seq<string>): seq<string>
    requires lines != []
  {
    lines[..|lines| - 1] + [lines[|lines| - 1] + "\r"]
  }

  lemma TearBehind(first: string, rest: seq<string>)
    requires rest != []
    ensures Tear([first] + rest) == [first] + Tear(rest)
  {
  }

  lemma TearInside(c: char, rest: seq<string>)
    requires rest != []
    ensures Tear(Prepend(c, rest)) == Prepend(c, Tear(rest))
  {
    if |rest| == 1 { assert [c] + (rest[0] + "\r") == [c] + rest[0] + "\r"; }
  }

  lemma {:induction false} TornLines(a: string)
    ensures SplitLines(a + "\r") == Tear(SplitLines(a))
  {
    var s := a + "\r";
    if a == "" {
      assert s == "\r" && "\r"[1..] == "";
      assert SplitLines(a) == [""] && SplitLines(s) == Prepend('\r', [""]);
      assert Prepend('\r', [""]) == ["\r"] by { assert ['\r'] + "" == "\r"; }
      assert Tear([""]) == ["\r"] by { assert "" + "\r" == "\r"; }
    } else {
      var ends := a[0] == '\n' || (|a| > 1 && a[0] == '\r' && a[1] == '\n');
      var step := if a[0] == '\n' || !ends then 1 else 2;
      TornLines(a[step..]);
      assert s[step..] == a[step..] + "\r";
      assert s[0] == a[0] && (|a| > 1 ==> s[1] == a[1]) && (|a| == 1 ==> s[1] == '\r');
      FirstLine(s, ends, step);
      FirstLine(a, ends, step);
      if ends { TearBehind("", SplitLines(a[step..])); } else { TearInside(a[0], SplitLines(a[step..])); }
    }
  }

  lemma DataOfTorn(last: string)
    ensures DataLines([last + "\r"])
         == if LastCarries([last]) then [TrimStart(last[5..]) + "\r"] else DataLines([last])
    ensures LastCarries([last]) ==> DataLines([last]) == [TrimStart(last[5..])]
  {
    var torn := last + "\r";
    var none: seq<string> := [];
    assert [torn][1..] == none && [last][1..] == none;
    assert "data:" <= torn <==> "data:" <= last by {
      assert "data:"[4] == ':' && torn[|last|] == '\r';
      if |last| >= 5 { assert torn[..5] == last[..5]; }
    }
    if "data:" <= last {
      assert torn[5..] == last[5..] + "\r";
      TrimTorn(last[5..]);
    }
  }

  lemma TrimTorn(x: string)
    ensures TrimStart(x + "\r") == if AllSpace(x) then TrimStart(x) else TrimStart(x) + "\r"
  {
    if AllSpace(x) {
      assert IsSpace('\r') && "\r"[1..] == "" && x + "" == x;
      TrimStartPadded(x, "\r");
      TrimStartPadded(x, "");
    } else {
      TrimStartStops(x, "\r");
    }
  }

  /** A torn event differs from the lines it came from exactly when its last line carries data. */
  lemma TornReadings(lines: seq<string>)
    requires lines != []
    ensures Behind(ByLines(lines, []), Yield(DataLines(Tear(lines))))
    ensures ByLines(lines, []) == Yield(DataLines(Tear(lines))) <==> Bearing(lines, []) <= 1 && !LastCarries(lines)
  {
    var n := |lines| - 1;
    var last := lines[n];
    assert lines == lines[..n] + [last];
    DataLinesAppend(lines[..n], [last]);
    DataLinesAppend(lines[..n], [last + "\r"]);
    DataOfTorn(last);
    ChunkReadings(lines);
    if LastCarries(lines) {
      var front, value := DataLines(lines[..n]), TrimStart(last[5..]);
      SizeAppend(front, [value]);
      SizeAppend(front, [value + "\r"]);
      assert [value][1..] == [] && [value + "\r"][1..] == [];
      YieldSize(front + [value]);
      YieldSize(front + [value + "\r"]);
      assert front + [value + "\r"] != [""] by { if front == [] { assert (front + [value + "\r"])[0] != ""; } }
    }
  }

  lemma BehindAppend(a: seq<string>, b: seq<string>, c: seq<string>, d: seq<string>)
    requires Behind(a, b) && Behind(c, d)
    ensures Behind(a + c, b + d)
    ensures a + c == b + d <==> a == b && c == d
  {
    SizeAppend(a, c);
    SizeAppend(b, d);
    if a + c == b + d {
      assert |a| == |b|;
      assert a == (a + c)[..|a|] && b == (b + d)[..|b|] && c == (a + c)[|a|..] && d == (b + d)[|b|..];
    }
  }

  /** What is read before a boundary, both ways. */
  lemma BoundaryReadings(t: string, b: Boundary)
    requires FindEventBoundary(t) == Some(b)
    ensures Behind(ByLines(LinesBefore(t, b), []), PayloadOf(t[..b.index]))
    ensures ByLines(LinesBefore(t, b), []) == PayloadOf(t[..b.index])
       <==> Bearing(LinesBefore(t, b), []) <= 1 && !(Torn(t, b) && LastCarries(LinesBefore(t, b)))
  {
    if Torn(t, b) {
      assert t[..b.index] == t[..b.index - 1] + "\r";
      TornLines(t[..b.index - 1]);
      TornReadings(LinesBefore(t, b));
    } else {
      ChunkReadings(LinesBefore(t, b));
    }
  }

  /**
   For every text: splitting at boundaries reads the same events as going line
   by line exactly when, between boundaries, at most one event bears data and
   no line that carries data is torn.
   */
  lemma {:induction false} ReadingsAgreeIff(t: string)
    ensures Payloads(t) == ByLines(SplitLines(t), []) <==> AllAgree(t)
    ensures Behind(ByLines(SplitLines(t), []), Payloads(t))
    decreases |t|
  {
    match FindEventBoundary(t)
    case None =>
      ChunkReadings(SplitLines(t));
      assert Payloads(t) == [] + PayloadOf(t) == PayloadOf(t);
    case Some(b) =>
      var rest := t[b.index + b.length..];
      ReadingsAgreeIff(rest);
      LinesAtBoundary(t, b);
      ByLinesFlushes(LinesBefore(t, b), SplitLines(rest), []);
      PayloadsAtBoundary(t, b);
      BoundaryReadings(t, b);
      BehindAppend(ByLines(LinesBefore(t, b), []), PayloadOf(t[..b.index]), ByLines(SplitLines(rest), []), Payloads(rest));
  }

  /**
   A blank line that ends differently can run the events around it together:
   "x LF CRLF y" is one event, and that is another reading than line by line
   exactly when both x and y are data lines.
   */
  lemma MixedBlankLinesMerge(x: string, y: string)
    requires '\n' !in x && '\n' !in y && (x == "" || x[|x| - 1] != '\r')
    ensures var t := x + "\n" + "\r\n" + y;
            && SplitLines(t) == [x, "", y] && Payloads(t) == Yield(DataLines([x, "", y]))
            && (Payloads(t) != ByLines(SplitLines(t), []) <==> "data:" <= x && "data:" <= y)
  {
    MixedSplits(x, y);
    MixedHasNoBoundary(x, y);
    var t := x + "\n" + "\r\n" + y;
    assert Payloads(t) == [] + PayloadOf(t) == PayloadOf(t);
    ReadingsAgreeIff(t);
    TwoBearers(x, y);
  }

  lemma OneBearer(x: string)
    ensures DataLines([x]) != [] <==> "data:" <= x
    ensures Bearing([x], []) == if "data:" <= x then 1 else 0
  {
    var none: seq<string> := [];
    assert [x][1..] == none && [x][..1] == [x] && !("data:" <= "");
    assert [] + DataLines([x]) == DataLines([x]);
  }

  lemma TwoBearers(x: string, y: string)
    ensures Bearing([x, "", y], []) <= 1 <==> !("data:" <= x && "data:" <= y)
  {
    OneBearer(x);
    OneBearer(y);
    assert [x, "", y][1..] == ["", y] && ["", y][1..] == [y] && [x, "", y][..1] == [x];
    assert [] + DataLines([x]) == DataLines([x]);
    assert Bearing(["", y], DataLines([x])) == (if DataLines([x]) == [] then 0 else 1) + Bearing([y], []);
    assert !("data:" <= "");
  }

  // ----- the reasoning-loop detector --------------------------------------

  const MIN_COUNTED := 12

  /** The phrases worth counting among the lines `text` has completed. */
  function Counted(text: string, norm: string -> string): seq<string>
    decreases |text|
  {
    match Find(text, "\n", 0)
    case None => []
    case Some(cut) =>
      var line := norm(text[..cut]);
      (if |line| >= MIN_COUNTED then [line] else []) + Counted(text[cut + 1..], norm)
  }

  /** What follows the last completed line. */
  function Partial(text: string): string
    decreases |text|
  {
    match Find(text, "\n", 0)
    case None => text
    case Some(cut) => Partial(text[cut + 1..])
  }

  function CountIn(s: seq<string>, x: string): nat {
    if s == [] then 0 else (if s[0] == x then 1 else 0) + CountIn(s[1..], x)
  }

  /** The last `window` phrases before index `k`. */
  function Recent(phrases: seq<string>, k: nat, window: nat): seq<string>
    requires k <= |phrases|
  {
    phrases[if k < window then 0 else k - window..k]
  }

  predicate TripsAt(phrases: seq<string>, k: nat, repeats: int, window: nat) {
    k < |phrases| && CountIn(Recent(phrases, k, window), phrases[k]) >= repeats - 1
  }

  /** The verdict on a list of phrases: the first that came back too often. */
  ghost predicate FirstTrip(phrases: seq<string>, repeats: int, window: nat, k: nat) {
    TripsAt(phrases, k, repeats, window) && forall j: nat :: j < k ==> !TripsAt(phrases, j, repeats, window)
  }

  lemma {:induction false} CountedIncremental(text: string, more: string, norm: string -> string)
    ensures Counted(text + more, norm) == Counted(text, norm) + Counted(Partial(text) + more, norm)
    ensures Partial(text + more) == Partial(Partial(text) + more)
    decreases |text|
  {
    match Find(text, "\n", 0)
    case None =>
      assert [] + Counted(text + more, norm) == Counted(text + more, norm);
    case Some(cut) =>
      var rest := text[cut + 1..];
      NewlineIsStable(text, more, cut);
      assert (text + more)[..cut] == text[..cut] && (text + more)[cut + 1..] == rest + more;
      CountedIncremental(rest, more, norm);
      var line := norm(text[..cut]);
      Assoc(if |line| >= MIN_COUNTED then [line] else [], Counted(rest, norm),
            Counted(Partial(rest) + more, norm));
  }

  lemma CountedStep(phrases: seq<string>, s: string, cut: nat, norm: string -> string)
    requires Find(s, "\n", 0) == Some(cut)
    ensures cut + 1 <= |s| && Partial(s) == Partial(s[cut + 1..])
    ensures var line := norm(s[..cut]);
            phrases + Counted(s, norm)
            == (if |line| >= MIN_COUNTED then phrases + [line] else phrases) + Counted(s[cut + 1..], norm)
  {
    var line := norm(s[..cut]);
    Assoc(phrases, if |line| >= MIN_COUNTED then [line] else [], Counted(s[cut + 1..], norm));
    assert phrases + [] == phrases;
  }

  lemma NothingComplete(phrases: seq<string>, s: string, norm: string -> string)
    requires Find(s, "\n", 0) == None
    ensures phrases + Counted(s, norm) == phrases && Partial(s) == s
  {
    assert phrases + [] == phrases;
  }

  lemma NewlineIsStable(text: string, more: string, cut: nat)
    requires Find(text, "\n", 0) == Some(cut)
    ensures Find(text + more, "\n", 0) == Some(cut)
  {
    var s := text + more;
    FindSpec(text, "\n", 0);
    assert s[cut..cut + 1] == text[cut..cut + 1];
    forall k: nat | k < cut ensures !At(s, "\n", k) {
      assert s[k..k + 1] == text[k..k + 1];
      assert !At(text, "\n", k);
    }
    FindIs(s, "\n", 0, cut);
  }

  ghost predicate Injective(sha: string -> string) {
    forall a, b :: sha(a) == sha(b) ==> a == b
  }

  ghost predicate Untripped(phrases: seq<string>, repeats: int, window: nat) {
    forall j: nat :: !TripsAt(phrases, j, repeats, window)
  }

  lemma {:induction false} CountMapped(s: seq<string>, x: string, sha: string -> string)
    requires Injective(sha)
    ensures CountIn(Mapped(s, sha), sha(x)) == CountIn(s, x)
  {
    if s != [] {
      assert Mapped(s, sha)[1..] == Mapped(s[1..], sha);
      CountMapped(s[1..], x, sha);
    }
  }

  function Mapped(s: seq<string>, f: string -> string): (r: seq<string>)
    ensures |r| == |s|
  {
    seq(|s|, i requires 0 <= i < |s| => f(s[i]))
  }

  class LoopDetector {
    const norm: string -> string
    const sha: string -> string
    const maxRepeats: int
    const loopWindow: nat
    var reasoningLine: string
    var recentHashes: seq<string>
    /** Everything streamed so far, and the phrases it completed. */
    ghost var text: string
    ghost var phrases: seq<string>

    /** Nothing has tripped, and the window holds the hashes of the latest phrases. */
    ghost predicate Listening()
      reads this
    {
      && Injective(sha) && Untripped(phrases, maxRepeats, loopWindow)
      && recentHashes == Mapped(Recent(phrases, |phrases|, loopWindow), sha)
    }

    ghost predicate InStep()
      reads this
    {
      phrases == Counted(text, norm) && reasoningLine == Partial(text)
    }

    constructor (norm: string -> string, sha: string -> string, maxRepeats: int, loopWindow: nat)
      requires Injective(sha)
      ensures Listening() && InStep() && text == "" && this.norm == norm
      ensures this.maxRepeats == maxRepeats && this.loopWindow == loopWindow
    {
      this.norm, this.sha, this.maxRepeats, this.loopWindow := norm, sha, maxRepeats, loopWindow;
      reasoningLine, recentHashes, text, phrases := "", [], "", [];
    }

    /** The window after one more phrase holds that phrase and the latest ones before it. */
    static lemma WindowMoves(before: seq<string>, line: string, window: nat, sha: string -> string)
      ensures var held := Mapped(Recent(before, |before|, window), sha) + [sha(line)];
              Mapped(Recent(before + [line], |before| + 1, window), sha)
              == if |held| > window then held[1..] else held
    {
    }

    /** A phrase that does not trip leaves the verdict on the earlier ones as it was. */
    static lemma VerdictMoves(before: seq<string>, line: string, repeats: int, window: nat)
      requires Untripped(before, repeats, window)
      ensures var now := before + [line];
              if CountIn(Recent(before, |before|, window), line) >= repeats - 1
              then FirstTrip(now, repeats, window, |before|)
              else Untripped(now, repeats, window)
    {
      var now := before + [line];
      assert Recent(now, |before|, window) == Recent(before, |before|, window);
      forall j: nat | j != |before| ensures !TripsAt(now, j, repeats, window) {
        assert !TripsAt(before, j, repeats, window);
        if j < |before| { assert Recent(now, j, window) == Recent(before, j, window); }
      }
    }

    /** The latest phrase is the first to come back too often. */
    ghost predicate TrippedOn(line: string)
      reads this
    {
      && phrases != [] && phrases[|phrases| - 1] == line
      && FirstTrip(phrases, maxRepeats, loopWindow, |phrases| - 1)
    }

    /** One completed, counted line. */
    method Count(line: string) returns (tripped: bool)
      requires Listening()
      modifies this`recentHashes, this`phrases
      ensures phrases == old(phrases) + [line]
      ensures !tripped ==> Listening()
      ensures tripped ==> TrippedOn(line)
    {
      var hash := sha(line);
      var seen := CountIn(recentHashes, hash) + 1;
      ghost var before := phrases;
      CountMapped(Recent(before, |before|, loopWindow), line, sha);
      VerdictMoves(before, line, maxRepeats, loopWindow);
      WindowMoves(before, line, loopWindow, sha);
      phrases := phrases + [line];
      tripped := seen >= maxRepeats;
      if tripped { return; }
      recentHashes := recentHashes + [hash];
      if |recentHashes| > loopWindow { recentHashes := recentHashes[1..]; }
    }

    /** `whole` is what the phrases so far and the line being assembled make up. */
    ghost predicate Reads(whole: string)
      reads this
    {
      && Counted(whole, norm) == phrases + Counted(reasoningLine, norm)
      && Partial(whole) == Partial(reasoningLine)
    }

    /** The line up to `cut` is complete: count it if it is long enough. */
    method CompleteLine(cut: nat, ghost whole: string) returns (loopedLine: Option<string>)
      requires Listening() && Reads(whole) && Find(reasoningLine, "\n", 0) == Some(cut)
      modifies this`reasoningLine, this`recentHashes, this`phrases
      ensures reasoningLine == old(reasoningLine)[cut + 1..] && Reads(whole)
      ensures loopedLine.None? ==> Listening()
      ensures loopedLine.Some? ==> TrippedOn(loopedLine.value)
    {
      var line := norm(reasoningLine[..cut]);
      CountedStep(phrases, reasoningLine, cut, norm);
      reasoningLine := reasoningLine[cut + 1..];
      if |line| >= MIN_COUNTED {
        var tripped := Count(line);
        if tripped { return Some(line); }
      }
      loopedLine := None;
    }

    /** Every line completed so far, until one trips. */
    method CompleteLines(ghost whole: string) returns (loopedLine: Option<string>)
      requires Listening() && Reads(whole)
      modifies this`reasoningLine, this`recentHashes, this`phrases
      ensures Reads(whole)
      ensures loopedLine.None? ==> Listening() && Find(reasoningLine, "\n", 0) == None
      ensures loopedLine.Some? ==> TrippedOn(loopedLine.value)
    {
      var cut := Find(reasoningLine, "\n", 0);
      while cut.Some?
        invariant cut == Find(reasoningLine, "\n", 0) && Listening() && Reads(whole)
        decreases |reasoningLine|
      {
        loopedLine := CompleteLine(cut.value, whole);
        if loopedLine.Some? { return; }
        cut := Find(reasoningLine, "\n", 0);
      }
      loopedLine := None;
    }

    /**
     One reasoning delta. However the text was cut into deltas, a trip is the
     first among the phrases the whole text has completed.
     */
    method Feed(delta: string) returns (loopedLine: Option<string>)
      requires Listening() && InStep()
      modifies this
      ensures text == old(text) + delta
      ensures loopedLine.None? ==> Listening() && InStep()
      ensures loopedLine.Some? ==> TrippedOn(loopedLine.value) && phrases <= Counted(text, norm)
    {
      Take(delta);
      loopedLine := CompleteLines(text);
      if loopedLine.None? { NothingComplete(phrases, reasoningLine, norm); }
    }

    /** One more delta joins the line being assembled. */
    method Take(delta: string)
      requires Listening() && InStep()
      modifies this`text, this`reasoningLine
      ensures text == old(text) + delta && Listening() && Reads(text)
    {
      DeltaReads(text, delta, phrases, reasoningLine, norm);
      text := text + delta;
      reasoningLine := reasoningLine + delta;
    }

    static lemma DeltaReads(text: string, delta: string, phrases: seq<string>, line: string, norm: string -> string)
      requires phrases == Counted(text, norm) && line == Partial(text)
      ensures Counted(text + delta, norm) == phrases + Counted(line + delta, norm)
      ensures Partial(text + delta) == Partial(line + delta)
    {
      CountedIncremental(text, delta, norm);
    }
  }

  lemma TripInLonger(phrases: seq<string>, all: seq<string>, repeats: int, window: nat, k: nat)
    requires phrases <= all && FirstTrip(phrases, repeats, window, k)
    ensures FirstTrip(all, repeats, window, k)
  {
    forall j: nat | j < |phrases|
      ensures TripsAt(all, j, repeats, window) <==> TripsAt(phrases, j, repeats, window)
    {
      assert Recent(all, j, window) == Recent(phrases, j, window);
    }
  }

  /**
   Watching a whole stream: the verdict is that of the concatenated text,
   whichever way it was cut into deltas.
   */
  method Watch(deltas: seq<string>, norm: string -> string, sha: string -> string,
               maxRepeats: int, loopWindow: nat) returns (loopedLine: Option<string>)
    requires Injective(sha)
    ensures var all := Counted(Concat(deltas), norm);
            match loopedLine
            case None => Untripped(all, maxRepeats, loopWindow)
            case Some(line) => exists k: nat :: FirstTrip(all, maxRepeats, loopWindow, k) && all[k] == line
  {
    var detector := new LoopDetector(norm, sha, maxRepeats, loopWindow);
    for i := 0 to |deltas|
      invariant fresh(detector) && detector.Listening() && detector.InStep()
      invariant detector.text == Concat(deltas[..i])
    {
      assert deltas[..i + 1] == deltas[..i] + [deltas[i]];
      ConcatSnoc(deltas[..i], deltas[i]);
      loopedLine := detector.Feed(deltas[i]);
      if loopedLine.Some? {
        ghost var k := |detector.phrases| - 1;
        ConcatSplit(deltas, i + 1);
        CountedIncremental(Concat(deltas[..i + 1]), Concat(deltas[i + 1..]), norm);
        TripInLonger(detector.phrases, Counted(Concat(deltas), norm), maxRepeats, loopWindow, k);
        assert Counted(Concat(deltas), norm)[k] == loopedLine.value;
        return;
      }
    }
    assert deltas[..|deltas|] == deltas;
    loopedLine := None;
  }

  lemma {:induction false} ConcatSplit(chunks: seq<string>, i: nat)
    requires i <= |chunks|
    ensures Concat(chunks) == Concat(chunks[..i]) + Concat(chunks[i..])
  {
    if i == 0 {
      assert chunks[0..] == chunks;
    } else {
      assert chunks[..i][1..] == chunks[1..][..i - 1] && chunks[1..][i - 1..] == chunks[i..];
      ConcatSplit(chunks[1..], i - 1);
    }
  }

  // ----- the in-flight gate -----------------------------------------------

  class InflightGate {
    const maxInflight: int
    var inflight: int
    var waiters: seq<nat>
    /** Requests now running, and all requests in the order they were let in. */
    ghost var running: set<nat>
    ghost var admitted: seq<nat>
    ghost var asked: seq<nat>

    ghost predicate Valid()
      reads this
    {
      && inflight == |running|
      && (maxInflight >= 0 ==> inflight <= maxInflight) && (maxInflight < 0 ==> inflight == 0)
      && (waiters != [] ==> inflight >= maxInflight)
      && (forall r :: r in running ==> r in admitted)
      && admitted + waiters == asked
      && (forall i, j :: 0 <= i < j < |asked| ==> asked[i] != asked[j])
    }

    constructor (maxInflight: int)
      ensures Valid() && this.maxInflight == maxInflight && asked == []
    {
      this.maxInflight := maxInflight;
      inflight, waiters, running, admitted, asked := 0, [], {}, [], [];
    }

    method Acquire(request: nat)
      requires Valid() && request !in asked
      modifies this
      ensures Valid() && asked == old(asked) + [request]
      ensures if old(inflight) < maxInflight then running == old(running) + {request}
              else running == old(running) && waiters == old(waiters) + [request]
    {
      asked := asked + [request];
      if inflight < maxInflight {
        assert waiters == [];
        inflight := inflight + 1;
        running := running + {request};
        admitted := admitted + [request];
      } else {
        waiters := waiters + [request];
      }
    }

    /** The slot goes straight to whoever has waited longest. */
    method Release(request: nat)
      requires Valid() && request in running
      modifies this
      ensures Valid() && asked == old(asked)
      ensures running == old(running) - {request}
                + (if old(waiters) == [] then {} else {old(waiters)[0]})
    {
      running := running - {request};
      if waiters != [] {
        assert asked == admitted + [waiters[0]] + waiters[1..];
        assert asked[|admitted|] == waiters[0];
        assert forall i :: 0 <= i < |admitted| ==> admitted[i] == asked[i];
        assert waiters[0] !in running;
        running := running + {waiters[0]};
        admitted := admitted + [waiters[0]];
        waiters := waiters[1..];
      } else {
        inflight := inflight - 1;
      }
    }
  }
}
