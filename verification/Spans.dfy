/**
 Grounding: does a quoted span occur in its source, up to typography?
 Which characters are letters, how they are lowered and what NFKC does to a
 text are parameters; `Sane` names what is assumed of them.
 */
module Spans {
  import opened Text

  datatype Alphabet = Alphabet(letter: char -> bool, digit: char -> bool, lower: char -> char,
                               nfkc: string -> string)

  /** Letters are neither space nor hyphen, and lowering changes letter case only. */
  predicate Plain(a: Alphabet, c: char) {
    var l := a.lower(c);
    && (a.letter(c) ==> !IsSpace(c) && c != '-')
    && (IsSpace(c) || c == '-' || IsSpace(l) || l == '-' ==> l == c)
    && a.lower(l) == l && a.letter(l) == a.letter(c)
    && (Punct(c) == c ==> Punct(l) == l)
  }

  ghost predicate Sane(a: Alphabet) {
    forall c :: Plain(a, c)
  }

  /** Dashes, quotation marks and the fixed spaces, each to its ASCII form. */
  function Punct(c: char): char {
    var n := c as int;
    if 0x2010 <= n <= 0x2015 || n == 0x2212 then '-'
    else if n == 0x2018 || n == 0x2019 || n == 0x201B || n == 0x2BC then '\''
    else if n == 0x201C || n == 0x201D || n == 0x201F then '"'
    else if n == 0xA0 || n == 0x2007 || n == 0x202F then ' '
    else c
  }

  function Mapped(s: string, f: char -> char): (r: string)
    ensures |r| == |s| && forall i :: 0 <= i < |s| ==> r[i] == f(s[i])
  {
    seq(|s|, i requires 0 <= i < |s| => f(s[i]))
  }

  /** The first character after any whitespace is a letter. */
  predicate HeadLetter(a: Alphabet, s: string) {
    s != [] && if IsSpace(s[0]) then HeadLetter(a, s[1..]) else a.letter(s[0])
  }

  /** Drop each hyphen, and the whitespace after it, that stands between two letters. */
  function Fold(a: Alphabet, afterLetter: bool, s: string): (r: string)
    ensures |r| <= |s|
    decreases |s|
  {
    if s == [] then []
    else if afterLetter && s[0] == '-' && HeadLetter(a, s[1..]) then Fold(a, false, TrimStart(s[1..]))
    else [s[0]] + Fold(a, a.letter(s[0]), s[1..])
  }

  /** Every run of whitespace becomes one space. */
  function Collapse(afterSpace: bool, s: string): string
    decreases |s|
  {
    if s == [] then []
    else if IsSpace(s[0]) then (if afterSpace then [] else [' ']) + Collapse(true, s[1..])
    else [s[0]] + Collapse(false, s[1..])
  }

  function Normalise(a: Alphabet, value: string): string {
    Mapped(Trim(Collapse(false, Fold(a, false, Mapped(a.nfkc(value), Punct)))), a.lower)
  }

  // ----- honest quotes ----------------------------------------------------

  /** `s` ends in a letter, a hyphen and perhaps whitespace. */
  ghost predicate EndsOpen(a: Alphabet, s: string) {
    exists k :: 0 < k < |s| && a.letter(s[k - 1]) && s[k] == '-' && AllSpace(s[k + 1..])
  }

  lemma {:induction false} HeadLetterSkips(a: Alphabet, x: string, v: string)
    ensures HeadLetter(a, x + v) == if AllSpace(x) then HeadLetter(a, v) else HeadLetter(a, x)
  {
    if x == [] {
      assert x + v == v;
    } else {
      assert (x + v)[1..] == x[1..] + v;
      HeadLetterSkips(a, x[1..], v);
      assert AllSpace(x) <==> IsSpace(x[0]) && AllSpace(x[1..]) by { assert x == [x[0]] + x[1..]; }
    }
  }

  /** A hyphen at the head of `s` folds, given what stands before it. */
  predicate Folds(a: Alphabet, afterLetter: bool, s: string) {
    s != [] && afterLetter && s[0] == '-' && HeadLetter(a, s[1..])
  }

  // ----- folding a part in its place ----------------------------------------

  /** What folding leaves of `q` when `v` follows it. */
  function FoldIn(a: Alphabet, afterLetter: bool, q: string, v: string): string
    decreases |q|
  {
    if q == [] then []
    else if Folds(a, afterLetter, q + v) then FoldIn(a, false, TrimStart(q[1..]), v)
    else [q[0]] + FoldIn(a, a.letter(q[0]), q[1..], v)
  }

  /** A fold that starts in `q` reaches into `v`. */
  predicate Hangs(a: Alphabet, afterLetter: bool, q: string, v: string)
    decreases |q|
  {
    q != [] &&
    if Folds(a, afterLetter, q + v) then AllSpace(q[1..]) || Hangs(a, false, TrimStart(q[1..]), v)
    else Hangs(a, a.letter(q[0]), q[1..], v)
  }

  function LastLetter(a: Alphabet, afterLetter: bool, q: string): bool {
    if q == [] then afterLetter else a.letter(q[|q| - 1])
  }

  /** What folding makes of the text behind `q`. */
  function FoldBehind(a: Alphabet, afterLetter: bool, q: string, v: string): string {
    if Hangs(a, afterLetter, q, v) then Fold(a, false, TrimStart(v)) else Fold(a, LastLetter(a, afterLetter, q), v)
  }

  lemma FoldTail(a: Alphabet, q: string, v: string)
    requires q != []
    ensures (q + v)[0] == q[0] && (q + v)[1..] == q[1..] + v
    ensures TrimStart((q + v)[1..]) == if AllSpace(q[1..]) then TrimStart(v) else TrimStart(q[1..]) + v
  {
    if AllSpace(q[1..]) { TrimStartPadded(q[1..], v); } else { TrimStartStops(q[1..], v); }
  }

  lemma LastOfTail(a: Alphabet, q: string)
    requires q != []
    ensures LastLetter(a, a.letter(q[0]), q[1..]) == a.letter(q[|q| - 1])
    ensures !AllSpace(q[1..]) ==> LastLetter(a, false, TrimStart(q[1..])) == a.letter(q[|q| - 1])
  {
    var y := TrimStart(q[1..]);
    TrimStartSpec(q[1..]);
    if !AllSpace(q[1..]) { assert y[|y| - 1] == q[1..][|q| - 2]; }
  }

  /** Folding a text is folding its parts, each in its place. */
  lemma {:induction false} FoldParts(a: Alphabet, afterLetter: bool, q: string, v: string)
    ensures Fold(a, afterLetter, q + v) == FoldIn(a, afterLetter, q, v) + FoldBehind(a, afterLetter, q, v)
    decreases |q|
  {
    if q == [] {
      assert q + v == v;
    } else if Folds(a, afterLetter, q + v) {
      TrimStartSpec(q[1..]);
      if !AllSpace(q[1..]) { FoldParts(a, false, TrimStart(q[1..]), v); }
      FoldedParts(a, afterLetter, q, v);
    } else {
      FoldParts(a, a.letter(q[0]), q[1..], v);
      PlainParts(a, afterLetter, q, v);
    }
  }

  predicate FoldsAsParts(a: Alphabet, afterLetter: bool, q: string, v: string) {
    Fold(a, afterLetter, q + v) == FoldIn(a, afterLetter, q, v) + FoldBehind(a, afterLetter, q, v)
  }

  lemma FoldedParts(a: Alphabet, afterLetter: bool, q: string, v: string)
    requires q != [] && Folds(a, afterLetter, q + v)
    requires AllSpace(q[1..]) || FoldsAsParts(a, false, TrimStart(q[1..]), v)
    ensures FoldsAsParts(a, afterLetter, q, v)
  {
    FoldTail(a, q, v);
    LastOfTail(a, q);
    TrimStartSpec(q[1..]);
  }

  lemma PlainParts(a: Alphabet, afterLetter: bool, q: string, v: string)
    requires q != [] && !Folds(a, afterLetter, q + v) && FoldsAsParts(a, a.letter(q[0]), q[1..], v)
    ensures FoldsAsParts(a, afterLetter, q, v)
  {
    FoldTail(a, q, v);
    LastOfTail(a, q);
    Assoc([q[0]], FoldIn(a, a.letter(q[0]), q[1..], v), FoldBehind(a, a.letter(q[0]), q[1..], v));
  }

  /** And what folding leaves of a part is what it leaves of its parts. */
  lemma {:induction false} FoldInParts(a: Alphabet, afterLetter: bool, q: string, r: string, v: string)
    ensures FoldsInParts(a, afterLetter, q, r, v)
    decreases |q|
  {
    if q == [] {
      assert q + r == r;
    } else if Folds(a, afterLetter, q + (r + v)) {
      TrimStartSpec(q[1..]);
      if !AllSpace(q[1..]) { FoldInParts(a, false, TrimStart(q[1..]), r, v); }
      FoldedInParts(a, afterLetter, q, r, v);
    } else {
      FoldInParts(a, a.letter(q[0]), q[1..], r, v);
      PlainInParts(a, afterLetter, q, r, v);
    }
  }

  predicate FoldsInParts(a: Alphabet, afterLetter: bool, q: string, r: string, v: string) {
    FoldIn(a, afterLetter, q + r, v) == FoldIn(a, afterLetter, q, r + v)
      + if Hangs(a, afterLetter, q, r + v) then FoldIn(a, false, TrimStart(r), v)
        else FoldIn(a, LastLetter(a, afterLetter, q), r, v)
  }

  /** The step over a hyphen that folds. */
  lemma FoldedInParts(a: Alphabet, afterLetter: bool, q: string, r: string, v: string)
    requires q != [] && Folds(a, afterLetter, q + (r + v))
    requires AllSpace(q[1..]) || FoldsInParts(a, false, TrimStart(q[1..]), r, v)
    ensures FoldsInParts(a, afterLetter, q, r, v)
  {
    Assoc(q, r, v);
    FoldTail(a, q, r);
    LastOfTail(a, q);
    TrimStartSpec(q[1..]);
  }

  /** The step over any other character. */
  lemma PlainInParts(a: Alphabet, afterLetter: bool, q: string, r: string, v: string)
    requires q != [] && !Folds(a, afterLetter, q + (r + v)) && FoldsInParts(a, a.letter(q[0]), q[1..], r, v)
    ensures FoldsInParts(a, afterLetter, q, r, v)
  {
    Assoc(q, r, v);
    FoldTail(a, q, r);
    LastOfTail(a, q);
    var k := a.letter(q[0]);
    Assoc([q[0]], FoldIn(a, k, q[1..], r + v),
          if Hangs(a, k, q[1..], r + v) then FoldIn(a, false, TrimStart(r), v) else FoldIn(a, LastLetter(a, k, q[1..]), r, v));
  }

  /** Where no fold reaches across the end, a part is folded as if it stood alone. */
  lemma {:induction false} FoldsAlone(a: Alphabet, afterLetter: bool, q: string, v: string)
    requires !Hangs(a, afterLetter, q, v)
    ensures FoldIn(a, afterLetter, q, v) == Fold(a, afterLetter, q)
    decreases |q|
  {
    if q != [] {
      FoldTail(a, q, v);
      HeadLetterSkips(a, q[1..], v);
      HeadLetterSkips(a, q[1..], []);
      assert q[1..] + [] == q[1..];
      if Folds(a, afterLetter, q + v) {
        FoldsAlone(a, false, TrimStart(q[1..]), v);
      } else {
        FoldsAlone(a, a.letter(q[0]), q[1..], v);
      }
    }
  }

  /** A part ends in a hyphen that folds: its letter comes with what follows. */
  ghost predicate EndsInFold(a: Alphabet, afterLetter: bool, q: string) {
    EndsOpen(a, q) || (q != [] && afterLetter && q[0] == '-' && AllSpace(q[1..]))
  }

  lemma EndsOpenSuffix(a: Alphabet, q: string, n: nat)
    requires n < |q| && EndsOpen(a, q[n..])
    ensures EndsOpen(a, q)
  {
    var w := q[n..];
    var k :| 0 < k < |w| && a.letter(w[k - 1]) && w[k] == '-' && AllSpace(w[k + 1..]);
    assert w[k + 1..] == q[n + k + 1..];
    assert a.letter(q[n + k - 1]) && q[n + k] == '-';
  }

  lemma EndsOpenRest(a: Alphabet, q: string)
    requires q != []
    ensures EndsOpen(a, q) <==> EndsInFold(a, a.letter(q[0]), q[1..])
  {
    var r := q[1..];
    if EndsOpen(a, q) {
      var k :| 0 < k < |q| && a.letter(q[k - 1]) && q[k] == '-' && AllSpace(q[k + 1..]);
      assert q[k + 1..] == r[k..] && r[k - 1] == q[k];
      if k > 1 { assert a.letter(r[k - 2]); }
    }
    if EndsOpen(a, r) { EndsOpenSuffix(a, q, 1); }
    if r != [] && a.letter(q[0]) && r[0] == '-' && AllSpace(r[1..]) { assert q[2..] == r[1..] && q[1] == r[0]; }
  }

  lemma OpenEndLiesBehind(a: Alphabet, q: string, n: nat, k: nat)
    requires Sane(a) && 0 < n <= |q| && q[0] == '-' && (forall i :: 1 <= i < n ==> IsSpace(q[i]))
    requires 0 < k < |q| && a.letter(q[k - 1]) && q[k] == '-' && AllSpace(q[k + 1..])
    ensures n < |q| && EndsOpen(a, q[n..])
  {
    assert Plain(a, q[k - 1]) && !IsSpace('-');
    assert k > n;
    var y, j := q[n..], k - n;
    assert y[j - 1] == q[k - 1] && y[j] == q[k] && y[j + 1..] == q[k + 1..];
  }

  /** What trimming takes off behind the first character. */
  lemma SpaceBehindFirst(q: string)
    requires q != []
    ensures var n := |q| - |TrimStart(q[1..])|;
            1 <= n && TrimStart(q[1..]) == q[n..] && forall i :: 1 <= i < n ==> IsSpace(q[i])
  {
    var n := |q| - |TrimStart(q[1..])|;
    TrimStartSpec(q[1..]);
    forall i | 1 <= i < n ensures IsSpace(q[i]) { assert q[i] == q[1..][..n - 1][i - 1]; }
  }

  /** Behind a hyphen and whitespace nothing changes how a text ends. */
  lemma EndsOpenTrimmed(a: Alphabet, q: string)
    requires Sane(a) && q != [] && q[0] == '-' && TrimStart(q[1..]) != []
    ensures EndsOpen(a, q) <==> EndsOpen(a, TrimStart(q[1..]))
  {
    var n := |q| - |TrimStart(q[1..])|;
    SpaceBehindFirst(q);
    if EndsOpen(a, q[n..]) { EndsOpenSuffix(a, q, n); }
    if EndsOpen(a, q) {
      var k :| 0 < k < |q| && a.letter(q[k - 1]) && q[k] == '-' && AllSpace(q[k + 1..]);
      OpenEndLiesBehind(a, q, n, k);
    }
  }

  lemma {:induction false} HangsIff(a: Alphabet, afterLetter: bool, q: string, v: string)
    requires Sane(a)
    ensures Hangs(a, afterLetter, q, v) <==> HeadLetter(a, v) && EndsInFold(a, afterLetter, q)
    decreases |q|
  {
    if q != [] {
      FoldTail(a, q, v);
      HeadLetterSkips(a, q[1..], v);
      if Folds(a, afterLetter, q + v) {
        if !AllSpace(q[1..]) {
          TrimStartSpec(q[1..]);
          HangsIff(a, false, TrimStart(q[1..]), v);
          EndsOpenTrimmed(a, q);
        }
      } else {
        HangsIff(a, a.letter(q[0]), q[1..], v);
        EndsOpenRest(a, q);
      }
    }
  }

  // ----- a quote in its source -------------------------------------------------

  /**
   A quote of the middle of u + q + v is harmed when it starts with a hyphen
   that folds there, or ends in one, its letter left out.
   */
  ghost predicate Harmed(a: Alphabet, u: string, q: string, v: string) {
    || (q != [] && Folds(a, LastLetter(a, false, u), q + v))
    || (EndsOpen(a, q) && HeadLetter(a, v))
  }

  /** What folding the whole leaves of what stands before q, of q, and of what stands behind it. */
  function Before(a: Alphabet, u: string, q: string, v: string): string {
    FoldIn(a, false, u, q + v)
  }

  function Image(a: Alphabet, u: string, q: string, v: string): string {
    if Hangs(a, false, u, q + v) then FoldIn(a, false, TrimStart(q), v) else FoldIn(a, LastLetter(a, false, u), q, v)
  }

  function Behind(a: Alphabet, u: string, q: string, v: string): string {
    if !Hangs(a, false, u, q + v) then FoldBehind(a, LastLetter(a, false, u), q, v)
    else if AllSpace(q) then Fold(a, false, TrimStart(v))
    else FoldBehind(a, false, TrimStart(q), v)
  }

  lemma SourceParts(a: Alphabet, u: string, q: string, v: string)
    ensures Fold(a, false, u + (q + v)) == Before(a, u, q, v) + (Image(a, u, q, v) + Behind(a, u, q, v))
  {
    FoldParts(a, false, u, q + v);
    if !Hangs(a, false, u, q + v) {
      FoldParts(a, LastLetter(a, false, u), q, v);
    } else if AllSpace(q) {
      TrimStartPadded(q, v);
      TrimStartSpec(q);
    } else {
      TrimStartStops(q, v);
      FoldParts(a, false, TrimStart(q), v);
    }
  }

  lemma UnharmedFoldsAlone(a: Alphabet, afterLetter: bool, q: string, v: string)
    requires Sane(a) && !(q != [] && Folds(a, afterLetter, q + v)) && !(EndsOpen(a, q) && HeadLetter(a, v))
    ensures FoldIn(a, afterLetter, q, v) == Fold(a, false, q)
  {
    HangsIff(a, afterLetter, q, v);
    if q != [] {
      FoldTail(a, q, v);
      HeadLetterSkips(a, q[1..], v);
      HeadLetterSkips(a, q[1..], []);
      assert q[1..] + [] == q[1..];
    }
    FoldsAlone(a, afterLetter, q, v);
  }

  /** An unharmed quote is folded in its source as it is on its own. */
  lemma UnharmedImage(a: Alphabet, u: string, q: string, v: string)
    requires Sane(a) && !Harmed(a, u, q, v)
    ensures Image(a, u, q, v) == Fold(a, false, if Hangs(a, false, u, q + v) then TrimStart(q) else q)
  {
    if Hangs(a, false, u, q + v) {
      var y := TrimStart(q);
      TrimStartSpec(q);
      if y != [] && EndsOpen(a, y) { EndsOpenSuffix(a, q, |q| - |y|); }
      UnharmedFoldsAlone(a, false, y, v);
    } else {
      UnharmedFoldsAlone(a, LastLetter(a, false, u), q, v);
    }
  }

  lemma {:induction false} FoldPad(a: Alphabet, pad: string, r: string)
    requires Sane(a) && AllSpace(pad)
    ensures Fold(a, false, pad + r) == pad + Fold(a, false, r)
  {
    if pad == [] {
      assert pad + r == r;
    } else {
      assert (pad + r)[1..] == pad[1..] + r && IsSpace(pad[0]) && Plain(a, pad[0]);
      FoldPad(a, pad[1..], r);
      assert pad == [pad[0]] + pad[1..];
      Assoc([pad[0]], pad[1..], Fold(a, false, r));
    }
  }

  lemma TrimStartKeepsLast(x: string)
    requires x != [] && !IsSpace(x[|x| - 1])
    ensures var y := TrimStart(x); y != [] && y[|y| - 1] == x[|x| - 1] && !AllSpace(x)
  {
    TrimStartSpec(x);
    var y := TrimStart(x);
    assert !AllSpace(x);
    assert y[|y| - 1] == x[|x| - |y|..][|y| - 1];
  }

  /** The letter a part ends in survives folding. */
  lemma {:induction false} LastLetterStays(a: Alphabet, afterLetter: bool, q: string, v: string)
    requires Sane(a) && q != [] && a.letter(q[|q| - 1])
    ensures FoldIn(a, afterLetter, q, v) != []
    ensures var f := FoldIn(a, afterLetter, q, v); f[|f| - 1] == q[|q| - 1]
    decreases |q|
  {
    assert Plain(a, q[|q| - 1]);
    if |q| > 1 {
      var x := q[1..];
      TrimStartKeepsLast(x);
      if Folds(a, afterLetter, q + v) {
        LastLetterStays(a, false, TrimStart(x), v);
      } else {
        LastLetterStays(a, a.letter(q[0]), x, v);
      }
    }
  }

  predicate SpaceLast(afterSpace: bool, x: string) {
    if x == [] then afterSpace else IsSpace(x[|x| - 1])
  }

  lemma {:induction false} CollapseAppend(afterSpace: bool, x: string, y: string)
    ensures Collapse(afterSpace, x + y) == Collapse(afterSpace, x) + Collapse(SpaceLast(afterSpace, x), y)
    decreases |x|
  {
    if x == [] {
      assert x + y == y;
    } else {
      assert (x + y)[1..] == x[1..] + y;
      CollapseAppend(IsSpace(x[0]), x[1..], y);
      Assoc(if !IsSpace(x[0]) then [x[0]] else if afterSpace then [] else [' '],
            Collapse(IsSpace(x[0]), x[1..]), Collapse(SpaceLast(afterSpace, x), y));
    }
  }

  lemma {:induction false} CollapseOfSpace(afterSpace: bool, s: string)
    requires AllSpace(s)
    ensures AllSpace(Collapse(afterSpace, s))
    decreases |s|
  {
    if s != [] {
      assert IsSpace(s[0]);
      CollapseOfSpace(true, s[1..]);
    }
  }

  lemma {:induction false} CollapseKeepsEnds(afterSpace: bool, s: string)
    requires s != [] && !IsSpace(s[|s| - 1])
    ensures var c := Collapse(afterSpace, s); c != [] && c[|c| - 1] == s[|s| - 1]
    ensures !IsSpace(s[0]) ==> Collapse(afterSpace, s)[0] == s[0]
    decreases |s|
  {
    if |s| > 1 { CollapseKeepsEnds(IsSpace(s[0]), s[1..]); }
  }

  lemma {:induction false} TrimStartBefore(x: string, s: string)
    requires s != [] && !IsSpace(s[0])
    ensures TrimStart(x + s) == TrimStart(x) + s
  {
    if x == [] {
      assert x + s == s && TrimStart(x) + s == s;
    } else {
      assert (x + s)[1..] == x[1..] + s;
      TrimStartBefore(x[1..], s);
    }
  }

  lemma {:induction false} TrimEndAfter(s: string, y: string)
    requires s != [] && !IsSpace(s[|s| - 1])
    ensures TrimEnd(s + y) == s + TrimEnd(y)
  {
    if y == [] {
      assert s + y == s && s + TrimEnd(y) == s;
    } else {
      assert (s + y)[..|s + y| - 1] == s + y[..|y| - 1];
      TrimEndAfter(s, y[..|y| - 1]);
    }
  }

  /** A trimmed middle stays in the middle of what trimming leaves. */
  lemma TrimKeepsMiddle(x: string, core: string, y: string)
    requires core != [] && Trimmed(core)
    ensures Trim(x + core + y) == TrimStart(x) + core + TrimEnd(y)
  {
    Assoc(x, core, y);
    TrimStartBefore(x, core + y);
    Assoc(TrimStart(x), core, y);
    TrimEndAfter(TrimStart(x) + core, y);
  }

  /** The middle of a text collapses to the middle of its collapsed form. */
  lemma CollapseKeepsMiddle(x: string, core: string, y: string)
    requires core != [] && Trimmed(core)
    ensures Collapse(false, x + core + y)
         == Collapse(false, x) + Collapse(false, core) + Collapse(false, y)
    ensures Collapse(false, core) != [] && Trimmed(Collapse(false, core))
  {
    CollapseAppend(false, x + core, y);
    CollapseAppend(false, x, core);
    CollapseKeepsEnds(false, core);
  }

  lemma SplitAtSpace(s: string) returns (left: string, right: string)
    ensures s == left + Trim(s) + right && AllSpace(left) && AllSpace(right)
  {
    left := TrimStartSplits(s);
    right := TrimEndSplits(TrimStart(s));
    Assoc(left, Trim(s), right);
  }

  /** Whitespace collapsed and the ends trimmed. */
  function Tidy(x: string): string {
    Trim(Collapse(false, x))
  }

  /** The whitespace a text starts with. */
  function Lead(x: string): string {
    x[..|x| - |TrimStart(x)|]
  }

  lemma TidyOfSpace(m: string)
    requires AllSpace(m)
    ensures Tidy(m) == []
  {
    CollapseOfSpace(false, m);
    TrimTrims(Collapse(false, m));
  }

  /** A core after whitespace, with more of it behind, is tidied to itself collapsed. */
  lemma TidyOfParts(left: string, core: string, right: string)
    requires AllSpace(left) && AllSpace(right) && core != [] && Trimmed(core)
    ensures Tidy(left + core + right) == Collapse(false, core)
  {
    CollapseKeepsMiddle(left, core, right);
    CollapseOfSpace(false, left);
    CollapseOfSpace(false, right);
    TrimPadded(Collapse(false, left), Collapse(false, core), Collapse(false, right));
    TrimFixes(Collapse(false, core));
  }

  lemma TidyOfCore(m: string)
    requires !AllSpace(m)
    ensures Trim(m) != [] && Trimmed(Trim(m)) && Tidy(m) == Collapse(false, Trim(m))
  {
    var left, right := SplitAtSpace(m);
    TrimTrims(m);
    TidyOfParts(left, Trim(m), right);
  }

  lemma TidyPadded(pad: string, m: string)
    requires AllSpace(pad)
    ensures Tidy(pad + m) == Tidy(m)
  {
    if AllSpace(m) {
      TidyOfSpace(m);
      TidyOfSpace(pad + m);
    } else {
      assert pad + m == pad + m + [];
      TrimPadded(pad, m, []);
      TidyOfCore(m);
      TrimTrims(pad + m);
      TidyOfCore(pad + m);
    }
  }

  /** A trimmed middle is tidied where it stands. */
  lemma TidyKeepsCore(x: string, core: string, y: string)
    requires core != [] && Trimmed(core)
    ensures Tidy(x + core + y) == TrimStart(Collapse(false, x)) + Collapse(false, core) + TrimEnd(Collapse(false, y))
  {
    CollapseKeepsMiddle(x, core, y);
    TrimKeepsMiddle(Collapse(false, x), Collapse(false, core), Collapse(false, y));
  }

  lemma Regroup(x: string, left: string, m: string, right: string, y: string)
    ensures x + ((left + m + right) + y) == (x + left) + m + (right + y)
  {
  }

  lemma TrimIsInTrimStart(m: string, right: string)
    requires TrimStart(m) == Trim(m) + right
    ensures m == Lead(m) + Trim(m) + right
  {
    assert m == Lead(m) + TrimStart(m);
    Assoc(Lead(m), Trim(m), right);
  }

  /** Any text that is not blank is tidied where it stands, whatever surrounds it. */
  lemma TidyKeepsMiddle(x: string, m: string, y: string) returns (right: string)
    requires !AllSpace(m)
    ensures AllSpace(right) && TrimStart(m) == Trim(m) + right
    ensures Tidy(x + (m + y))
         == TrimStart(Collapse(false, x + Lead(m))) + Tidy(m) + TrimEnd(Collapse(false, right + y))
  {
    TidyOfCore(m);
    right := TrimEndSplits(TrimStart(m));
    TrimIsInTrimStart(m, right);
    Regroup(x, Lead(m), Trim(m), right, y);
    TidyKeepsCore(x + Lead(m), Trim(m), right + y);
  }

  lemma TidyTrimmedFold(a: Alphabet, q: string)
    requires Sane(a)
    ensures Tidy(Fold(a, false, TrimStart(q))) == Tidy(Fold(a, false, q))
  {
    var pad := TrimStartSplits(q);
    FoldPad(a, pad, TrimStart(q));
    TidyPadded(pad, Fold(a, false, TrimStart(q)));
  }

  // ----- where a quote stands -----------------------------------------------------

  /** The normal form of a text NFKC and the punctuation map have been through. */
  function Normal(a: Alphabet, x: string): string {
    Mapped(Tidy(Fold(a, false, x)), a.lower)
  }

  /** Where, in the normal form of u + q + v, what is left of q begins. */
  function Place(a: Alphabet, u: string, q: string, v: string): nat {
    var n := |TrimStart(Collapse(false, Before(a, u, q, v) + Lead(Image(a, u, q, v))))|;
    if n <= |Normal(a, u + (q + v))| then n else |Normal(a, u + (q + v))|
  }

  lemma MappedParts(p: string, core: string, t: string, f: char -> char)
    ensures Mapped(p + core + t, f) == Mapped(p, f) + Mapped(core, f) + Mapped(t, f)
  {
  }

  lemma StandsAt(p: string, core: string, t: string)
    ensures At(p + core + t, core, |p|)
  {
  }

  lemma UnharmedStands(a: Alphabet, u: string, q: string, v: string)
    requires Sane(a) && !Harmed(a, u, q, v)
    ensures At(Normal(a, u + (q + v)), Normal(a, q), Place(a, u, q, v))
  {
    var x, m, y := Before(a, u, q, v), Image(a, u, q, v), Behind(a, u, q, v);
    SourceParts(a, u, q, v);
    UnharmedImage(a, u, q, v);
    TidyTrimmedFold(a, q);
    assert Tidy(m) == Tidy(Fold(a, false, q));
    if AllSpace(m) {
      TidyOfSpace(m);
    } else {
      var right := TidyKeepsMiddle(x, m, y);
      var p, t := TrimStart(Collapse(false, x + Lead(m))), TrimEnd(Collapse(false, right + y));
      MappedParts(p, Tidy(m), t, a.lower);
      StandsAt(Mapped(p, a.lower), Normal(a, q), Mapped(t, a.lower));
    }
  }

  lemma LetterIsPlain(a: Alphabet, c: char)
    requires Sane(a) && a.letter(c)
    ensures !IsSpace(c) && c != '-' && a.lower(c) != '-' && a.lower('-') == '-' && !IsSpace('-')
  {
    assert Plain(a, c) && Plain(a, '-');
  }

  /** A text that starts with a hyphen has a normal form that does. */
  lemma HyphenStarts(a: Alphabet, q: string)
    requires Sane(a) && q != [] && q[0] == '-'
    ensures Normal(a, q) != [] && Normal(a, q)[0] == '-'
  {
    assert Plain(a, '-') && !IsSpace('-');
    var f := Fold(a, false, q);
    assert f == [] + ['-'] + f[1..];
    TidyKeepsCore([], ['-'], f[1..]);
    assert ['-'][1..] == [] && Collapse(false, ['-']) == ['-'];
  }

  /** What is left behind a part that folds from its first hyphen on starts with a letter. */
  lemma FoldedHead(a: Alphabet, q: string, v: string)
    requires q != [] && Folds(a, true, q + v)
    ensures var z := FoldIn(a, true, q, v) + FoldBehind(a, true, q, v); z != [] && a.letter(z[0])
  {
    FoldParts(a, true, q, v);
    HeadIsLetter(a, (q + v)[1..]);
    var y := TrimStart((q + v)[1..]);
    assert Fold(a, true, q + v) == Fold(a, false, y) && Fold(a, false, y)[0] == y[0];
  }

  /** Behind any text, a letter stands where the tidied text before it ends. */
  lemma LetterStands(a: Alphabet, x: string, z: string)
    requires Sane(a) && z != [] && a.letter(z[0])
    ensures var n := |TrimStart(Collapse(false, x))|;
            n < |Tidy(x + z)| && Tidy(x + z)[n] == z[0]
  {
    LetterIsPlain(a, z[0]);
    assert x + z == x + [z[0]] + z[1..];
    TidyKeepsCore(x, [z[0]], z[1..]);
    assert [z[0]][1..] == [] && Collapse(false, [z[0]]) == [z[0]];
  }

  /** A quote harmed at its start meets a letter where its hyphen should be. */
  lemma HarmedStart(a: Alphabet, u: string, q: string, v: string)
    requires Sane(a) && q != [] && Folds(a, LastLetter(a, false, u), q + v)
    ensures !At(Normal(a, u + (q + v)), Normal(a, q), Place(a, u, q, v))
  {
    var x, m, y := Before(a, u, q, v), Image(a, u, q, v), Behind(a, u, q, v);
    assert Plain(a, '-') && (q + v)[0] == q[0];
    HangsIff(a, false, u, q + v);
    SourceParts(a, u, q, v);
    FoldedHead(a, q, v);
    LetterStands(a, x, m + y);
    LetterIsPlain(a, (m + y)[0]);
    assert Lead(m) == [] by { if m != [] { assert m[0] == (m + y)[0]; } }
    assert x + [] == x;
    HyphenStarts(a, q);
    AtChars(Normal(a, u + (q + v)), Normal(a, q), Place(a, u, q, v));
    assert Normal(a, u + (q + v))[Place(a, u, q, v)] == a.lower((m + y)[0]);
  }

  // A quote q + r harmed at its end: r is the hyphen and the whitespace behind it.

  predicate Dangles(a: Alphabet, q: string, r: string, v: string) {
    q != [] && a.letter(q[|q| - 1]) && r != [] && r[0] == '-' && AllSpace(r[1..]) && HeadLetter(a, v)
  }

  lemma DanglingHeads(a: Alphabet, q: string, r: string, v: string)
    requires Sane(a) && Dangles(a, q, r, v)
    ensures (r + v)[0] == '-' && (r + v)[1..] == r[1..] + v && HeadLetter(a, (r + v)[1..]) && !HeadLetter(a, r[1..])
    ensures !HeadLetter(a, r + v) && !HeadLetter(a, r) && !AllSpace(q)
    ensures TrimStart(r[1..]) == [] && TrimStart((r + v)[1..]) == TrimStart(v)
  {
    LetterIsPlain(a, q[|q| - 1]);
    assert Plain(a, '-') && !IsSpace('-');
    HeadLetterSkips(a, r[1..], v);
    HeadLetterSkips(a, r[1..], []);
    assert r[1..] + [] == r[1..] && !HeadLetter(a, []);
    TrimStartSpec(r[1..]);
    TrimStartPadded(r[1..], v);
  }

  /** The hyphen and its whitespace leave nothing in the source. */
  lemma DanglingImage(a: Alphabet, u: string, q: string, r: string, v: string)
    requires Sane(a) && Dangles(a, q, r, v)
    ensures Image(a, u, q + r, v) == Image(a, u, q, r + v) && Before(a, u, q + r, v) == Before(a, u, q, r + v)
  {
    Assoc(q, r, v);
    DanglingHeads(a, q, r, v);
    TrimStartStops(q, r);
    var first := if Hangs(a, false, u, q + (r + v)) then false else LastLetter(a, false, u);
    var part := if Hangs(a, false, u, q + (r + v)) then TrimStart(q) else q;
    TrimStartSpec(q);
    assert part != [] && part[|part| - 1] == q[|q| - 1] by { assert q[|q| - |TrimStart(q)|..] == TrimStart(q); }
    FoldInParts(a, first, part, r, v);
    HangsIff(a, first, part, r + v);
    assert FoldIn(a, true, r, v) == [];
    assert FoldIn(a, first, part, r + v) + [] == FoldIn(a, first, part, r + v);
  }

  /** On its own such a quote keeps them. */
  lemma DanglingFold(a: Alphabet, q: string, r: string, v: string)
    requires Sane(a) && Dangles(a, q, r, v)
    ensures Fold(a, false, q + r) == Fold(a, false, q) + r
  {
    DanglingHeads(a, q, r, v);
    FoldParts(a, false, q, r);
    HangsIff(a, false, q, r);
    FoldsAlone(a, false, q, r);
    assert r[1..] + [] == r[1..] && r == [r[0]] + r[1..];
    assert Plain(a, '-');
    FoldPad(a, r[1..], []);
  }

  /** A hyphen behind a letter is tidied in its place. */
  lemma TidyHyphen(a: Alphabet, m: string, r: string)
    requires Sane(a) && m != [] && a.letter(m[|m| - 1]) && r != [] && r[0] == '-' && AllSpace(r[1..])
    ensures Tidy(m + r) == Tidy(m) + ['-'] && !AllSpace(m)
  {
    LetterIsPlain(a, m[|m| - 1]);
    var core := TrimStart(m);
    var left := Lead(m);
    TrimStartSpec(m);
    assert core[|core| - 1] == m[|m| - |core|..][|core| - 1] == m[|m| - 1];
    assert m == left + core + [] && r == ['-'] + r[1..];
    assert m + r == left + (core + ['-']) + r[1..];
    TidyOfParts(left, core, []);
    TidyOfParts(left, core + ['-'], r[1..]);
    CollapseAppend(false, core, ['-']);
    assert ['-'][1..] == [] && Collapse(false, ['-']) == ['-'];
  }

  /** The quote's part, as it is folded in its place. */
  lemma PartIsFolded(a: Alphabet, u: string, q: string, w: string) returns (first: bool, part: string)
    requires q != [] && a.letter(q[|q| - 1]) && !AllSpace(q)
    ensures Image(a, u, q, w) == FoldIn(a, first, part, w) && Behind(a, u, q, w) == FoldBehind(a, first, part, w)
    ensures part != [] && a.letter(part[|part| - 1])
  {
    first := if Hangs(a, false, u, q + w) then false else LastLetter(a, false, u);
    part := if Hangs(a, false, u, q + w) then TrimStart(q) else q;
    TrimStartSpec(q);
    assert q[|q| - |TrimStart(q)|..] == TrimStart(q);
  }

  /** In the source a letter follows. */
  lemma DanglingBehind(a: Alphabet, u: string, q: string, r: string, v: string)
    requires Sane(a) && Dangles(a, q, r, v)
    ensures Behind(a, u, q, r + v) != [] && a.letter(Behind(a, u, q, r + v)[0])
    ensures var m := Image(a, u, q, r + v); m != [] && a.letter(m[|m| - 1])
  {
    DanglingHeads(a, q, r, v);
    var first, part := PartIsFolded(a, u, q, r + v);
    HangsIff(a, first, part, r + v);
    LastLetterStays(a, first, part, r + v);
    HeadIsLetter(a, v);
    assert Fold(a, true, r + v) == Fold(a, false, TrimStart(v));
    assert Fold(a, false, TrimStart(v))[0] == TrimStart(v)[0];
  }

  lemma LetterAfter(a: Alphabet, y: string)
    requires Sane(a) && y != [] && a.letter(y[0])
    ensures TrimEnd(Collapse(false, y)) != [] && TrimEnd(Collapse(false, y))[0] == y[0]
  {
    LetterIsPlain(a, y[0]);
    var w := Collapse(false, y);
    assert w[0] == y[0];
    TrimEndSpec(w);
  }

  lemma NothingTrimmed(m: string, right: string)
    requires m != [] && !IsSpace(m[|m| - 1]) && AllSpace(right) && TrimStart(m) == Trim(m) + right
    ensures right == []
  {
    var y := TrimStart(m);
    TrimStartSpec(m);
    if y != [] { assert y[|y| - 1] == m[|m| - |y|..][|y| - 1] == m[|m| - 1]; }
    assert TrimEnd(y) == y;
  }

  lemma MissesHyphen(p: string, n: string, t: string)
    requires t != [] && t[0] != '-'
    ensures !At(p + n + t, n + ['-'], |p|)
  {
    AtChars(p + n + t, n + ['-'], |p|);
    assert (n + ['-'])[|n|] == '-' && (p + n + t)[|p| + |n|] == t[0];
  }

  /** The normal form around a quote that ends in a letter and has a letter behind it. */
  lemma EndsBeforeLetter(a: Alphabet, x: string, m: string, y: string) returns (t: string)
    requires Sane(a) && m != [] && a.letter(m[|m| - 1]) && y != [] && a.letter(y[0])
    ensures Tidy(x + (m + y)) == TrimStart(Collapse(false, x + Lead(m))) + Tidy(m) + t
    ensures t != [] && a.letter(t[0])
  {
    LetterIsPlain(a, m[|m| - 1]);
    var right := TidyKeepsMiddle(x, m, y);
    NothingTrimmed(m, right);
    assert [] + y == y;
    LetterAfter(a, y);
    t := TrimEnd(Collapse(false, y));
  }

  lemma DanglingForm(a: Alphabet, u: string, q: string, r: string, v: string)
    requires Sane(a) && Dangles(a, q, r, v) && !Harmed(a, u, q, r + v)
    ensures Tidy(Fold(a, false, q + r)) == Tidy(Image(a, u, q, r + v)) + ['-']
  {
    DanglingFold(a, q, r, v);
    UnharmedImage(a, u, q, r + v);
    TidyTrimmedFold(a, q);
    HangsIff(a, false, q, []);
    FoldsAlone(a, false, q, []);
    LastLetterStays(a, false, q, []);
    TidyHyphen(a, Fold(a, false, q), r);
  }

  /** A quote harmed at its end meets a letter where its hyphen should be. */
  lemma HarmedEnd(a: Alphabet, u: string, q: string, r: string, v: string)
    requires Sane(a) && Dangles(a, q, r, v) && !Harmed(a, u, q, r + v)
    ensures !At(Normal(a, u + (q + r + v)), Normal(a, q + r), Place(a, u, q + r, v))
  {
    Assoc(q, r, v);
    var x, m, y := Before(a, u, q, r + v), Image(a, u, q, r + v), Behind(a, u, q, r + v);
    SourceParts(a, u, q, r + v);
    DanglingImage(a, u, q, r, v);
    DanglingBehind(a, u, q, r, v);
    DanglingForm(a, u, q, r, v);
    var t := EndsBeforeLetter(a, x, m, y);
    var p := TrimStart(Collapse(false, x + Lead(m)));
    LetterIsPlain(a, t[0]);
    MappedParts(p, Tidy(m), t, a.lower);
    assert Mapped(Tidy(m) + ['-'], a.lower) == Mapped(Tidy(m), a.lower) + ['-'];
    MissesHyphen(Mapped(p, a.lower), Mapped(Tidy(m), a.lower), Mapped(t, a.lower));
  }

  lemma DanglingQuote(a: Alphabet, u: string, q: string, v: string) returns (front: string, r: string)
    requires Sane(a) && EndsOpen(a, q) && HeadLetter(a, v) && !(q != [] && Folds(a, LastLetter(a, false, u), q + v))
    ensures q == front + r && Dangles(a, front, r, v) && !Harmed(a, u, front, r + v)
  {
    var k :| 0 < k < |q| && a.letter(q[k - 1]) && q[k] == '-' && AllSpace(q[k + 1..]);
    front, r := q[..k], q[k..];
    assert r[1..] == q[k + 1..] && q == front + r;
    DanglingHeads(a, front, r, v);
    Assoc(front, r, v);
    assert (front + (r + v))[0] == front[0] == q[0];
  }

  /**
   Exactly where a quote is refused for how it was cut: for every source
   u + q + v, the normal form of q matches where q stands unless q starts with
   a hyphen that folds there or ends in one.
   */
  lemma StandsIff(a: Alphabet, u: string, q: string, v: string)
    requires Sane(a)
    ensures At(Normal(a, u + (q + v)), Normal(a, q), Place(a, u, q, v)) <==> !Harmed(a, u, q, v)
  {
    if !Harmed(a, u, q, v) {
      UnharmedStands(a, u, q, v);
    } else if q != [] && Folds(a, LastLetter(a, false, u), q + v) {
      HarmedStart(a, u, q, v);
    } else {
      var front, r := DanglingQuote(a, u, q, v);
      HarmedEnd(a, u, front, r, v);
    }
  }

  /** A quote in its source, as NFKC leaves both: what stands before it, the quote, what stands behind. */
  ghost predicate QuotedFrom(a: Alphabet, source: string, quote: string, u: string, v: string) {
    a.nfkc(source) == u + (a.nfkc(quote) + v)
  }

  ghost predicate HarmedIn(a: Alphabet, quote: string, u: string, v: string) {
    Harmed(a, Mapped(u, Punct), Mapped(a.nfkc(quote), Punct), Mapped(v, Punct))
  }

  function PlaceIn(a: Alphabet, quote: string, u: string, v: string): nat {
    Place(a, Mapped(u, Punct), Mapped(a.nfkc(quote), Punct), Mapped(v, Punct))
  }

  /** The same of the texts themselves. */
  lemma QuoteStandsIff(a: Alphabet, source: string, quote: string, u: string, v: string)
    requires Sane(a) && QuotedFrom(a, source, quote, u, v)
    ensures At(Normalise(a, source), Normalise(a, quote), PlaceIn(a, quote, u, v)) <==> !HarmedIn(a, quote, u, v)
  {
    NormalParts(a, source, quote, u, v);
    StandsIff(a, Mapped(u, Punct), Mapped(a.nfkc(quote), Punct), Mapped(v, Punct));
  }

  lemma NormalParts(a: Alphabet, source: string, quote: string, u: string, v: string)
    requires QuotedFrom(a, source, quote, u, v)
    ensures Normalise(a, source) == Normal(a, Mapped(u, Punct) + (Mapped(a.nfkc(quote), Punct) + Mapped(v, Punct)))
    ensures Normalise(a, quote) == Normal(a, Mapped(a.nfkc(quote), Punct))
  {
    assert Mapped(u + (a.nfkc(quote) + v), Punct) == Mapped(u, Punct) + (Mapped(a.nfkc(quote), Punct) + Mapped(v, Punct));
  }

  /** An honest quote is never refused for its formatting, unless a hyphen at its own end folds away. */
  lemma HonestQuoteIsFound(a: Alphabet, source: string, quote: string, u: string, v: string)
    requires Sane(a) && QuotedFrom(a, source, quote, u, v) && !HarmedIn(a, quote, u, v)
    ensures Occurs(Normalise(a, source), Normalise(a, quote))
  {
    QuoteStandsIff(a, source, quote, u, v);
  }

  // ----- a hyphen put between two letters ---------------------------------

  /** A line broken inside a word, with a hyphen and whitespace, is that word, whatever NFKC does elsewhere. */
  lemma HyphenationChangesNothing(a: Alphabet, broken: string, whole: string, u: string, c: char, gap: string, d: char, v: string)
    requires Sane(a) && a.letter(c) && a.letter(d) && Punct(c) == c && Punct(d) == d
    requires gap != [] && Punct(gap[0]) == '-' && AllSpace(Mapped(gap[1..], Punct))
    requires a.nfkc(broken) == u + [c] + gap + [d] + v && a.nfkc(whole) == u + [c] + [d] + v
    ensures Normalise(a, broken) == Normalise(a, whole)
  {
    var U, G, V := Mapped(u, Punct), Mapped(gap, Punct), Mapped(v, Punct);
    MappedJoins(u, c, gap, d, v);
    MappedJoins(u, c, [], d, v);
    assert G[1..] == Mapped(gap[1..], Punct);
    assert u + [c] + [] + [d] + v == u + [c] + [d] + v && [c] + Mapped([], Punct) + [d] + V == [c] + [d] + V;
    assert Plain(a, c) && Plain(a, d);
    TailFolds(a, c, G, d, V);
    FoldCongruent(a, false, U, [c] + G + [d] + V, [c] + [d] + V);
  }

  lemma MappedJoins(u: string, c: char, gap: string, d: char, v: string)
    requires Punct(c) == c && Punct(d) == d
    ensures Mapped(u + [c] + gap + [d] + v, Punct)
         == Mapped(u, Punct) + ([c] + Mapped(gap, Punct) + [d] + Mapped(v, Punct))
  {
  }

  /** Tails that start with the same letter and fold alike stay alike behind any text. */
  lemma {:induction false} FoldCongruent(a: Alphabet, afterLetter: bool, u: string, v: string, w: string)
    requires v != [] && w != [] && a.letter(v[0]) && a.letter(w[0])
    requires !IsSpace(v[0]) && !IsSpace(w[0]) && v[0] != '-' && w[0] != '-'
    requires Fold(a, false, v) == Fold(a, false, w)
    ensures Fold(a, afterLetter, u + v) == Fold(a, afterLetter, u + w)
    decreases |u|
  {
    if u == [] {
      assert u + v == v && u + w == w;
    } else {
      var x := u[1..];
      assert (u + v)[1..] == x + v && (u + w)[1..] == x + w;
      HeadLetterSkips(a, x, v);
      HeadLetterSkips(a, x, w);
      if Folds(a, afterLetter, u + v) {
        if AllSpace(x) {
          TrimStartPadded(x, v);
          TrimStartPadded(x, w);
        } else {
          TrimStartStops(x, v);
          TrimStartStops(x, w);
          FoldCongruent(a, false, TrimStart(x), v, w);
        }
      } else {
        FoldCongruent(a, a.letter(u[0]), x, v, w);
      }
    }
  }

  lemma TailFolds(a: Alphabet, c: char, G: string, d: char, V: string)
    requires a.letter(c) && !IsSpace(c) && c != '-' && a.letter(d) && !IsSpace(d) && d != '-'
    requires G != [] && G[0] == '-' && AllSpace(G[1..])
    ensures Fold(a, false, [c] + G + [d] + V) == Fold(a, false, [c] + [d] + V)
  {
    var tail := [d] + V;
    assert ([c] + G + [d] + V)[1..] == G + tail && ([c] + [d] + V)[1..] == tail;
    assert (G + tail)[1..] == G[1..] + tail;
    HeadLetterSkips(a, G[1..], tail);
    TrimStartPadded(G[1..], tail);
    assert TrimStart(tail) == tail;
    assert Fold(a, true, G + tail) == Fold(a, false, tail);
    assert Fold(a, true, tail) == Fold(a, false, tail);
  }

  // ----- normalising twice ------------------------------------------------

  /** Punctuation is plain and nothing is left to fold. */
  predicate Folded(a: Alphabet, afterLetter: bool, s: string)
    decreases |s|
  {
    s == [] || (Punct(s[0]) == s[0] && !Folds(a, afterLetter, s) && Folded(a, a.letter(s[0]), s[1..]))
  }

  /** Folded, and every run of whitespace is one space. */
  predicate Clean(a: Alphabet, afterLetter: bool, afterSpace: bool, s: string)
    decreases |s|
  {
    s == [] ||
    (&& Punct(s[0]) == s[0] && (IsSpace(s[0]) ==> s[0] == ' ' && !afterSpace)
     && !Folds(a, afterLetter, s) && Clean(a, a.letter(s[0]), IsSpace(s[0]), s[1..]))
  }

  lemma {:induction false} CleanIsFixed(a: Alphabet, afterLetter: bool, afterSpace: bool, s: string)
    requires Clean(a, afterLetter, afterSpace, s)
    ensures Mapped(s, Punct) == s && Fold(a, afterLetter, s) == s && Collapse(afterSpace, s) == s
    decreases |s|
  {
    if s != [] {
      CleanIsFixed(a, a.letter(s[0]), IsSpace(s[0]), s[1..]);
      assert s == [s[0]] + s[1..] && Mapped(s, Punct) == [Punct(s[0])] + Mapped(s[1..], Punct);
    }
  }

  /** What a hyphen in front would see first is not changed by folding what follows. */
  lemma {:induction false} FoldKeepsHead(a: Alphabet, s: string)
    requires Sane(a)
    ensures HeadLetter(a, Fold(a, false, s)) == HeadLetter(a, s)
  {
    if s != [] && IsSpace(s[0]) {
      FoldKeepsHead(a, s[1..]);
      assert Plain(a, s[0]);
    }
  }

  lemma {:induction false} HeadIsLetter(a: Alphabet, s: string)
    requires HeadLetter(a, s)
    ensures TrimStart(s) != [] && a.letter(TrimStart(s)[0])
  {
    if IsSpace(s[0]) { HeadIsLetter(a, s[1..]); }
  }

  predicate AllPunct(s: string) {
    forall i :: 0 <= i < |s| ==> Punct(s[i]) == s[i]
  }

  lemma SuffixKeepsPunct(s: string, n: nat)
    requires AllPunct(s) && n <= |s|
    ensures AllPunct(s[n..])
  {
  }

  lemma TrimStartKeepsPunct(s: string)
    requires AllPunct(s)
    ensures AllPunct(TrimStart(s))
  {
    SuffixKeepsPunct(s, |s| - |TrimStart(s)|);
  }

  /** A step that keeps its character leaves nothing to fold at that character. */
  lemma KeptStaysFolded(a: Alphabet, afterLetter: bool, c: char, s: string)
    requires Sane(a) && Punct(c) == c && !Folds(a, afterLetter, [c] + s)
    requires Folded(a, a.letter(c), Fold(a, a.letter(c), s))
    ensures Folded(a, afterLetter, [c] + Fold(a, a.letter(c), s))
  {
    var r := Fold(a, a.letter(c), s);
    assert ([c] + r)[1..] == r && ([c] + s)[1..] == s;
    if c == '-' {
      assert Plain(a, c);
      FoldKeepsHead(a, s);
    }
  }

  lemma {:induction false} FoldIsFolded(a: Alphabet, afterLetter: bool, s: string)
    requires Sane(a) && AllPunct(s)
    ensures Folded(a, afterLetter, Fold(a, afterLetter, s))
    decreases |s|
  {
    if s != [] {
      if Folds(a, afterLetter, s) {
        TrimStartKeepsPunct(s[1..]);
        FoldIsFolded(a, false, TrimStart(s[1..]));
        LetterFirst(a, s[1..]);
      } else {
        FoldIsFolded(a, a.letter(s[0]), s[1..]);
        assert [s[0]] + s[1..] == s;
        KeptStaysFolded(a, afterLetter, s[0], s[1..]);
      }
    }
  }

  /** What follows a fold starts with a letter, so it does not matter what stood before. */
  lemma LetterFirst(a: Alphabet, s: string)
    requires Sane(a) && HeadLetter(a, s) && Folded(a, false, Fold(a, false, TrimStart(s)))
    ensures Folded(a, true, Fold(a, false, TrimStart(s)))
  {
    var t := TrimStart(s);
    HeadIsLetter(a, s);
    assert Plain(a, t[0]);
    assert Fold(a, false, t)[0] == t[0];
  }

  lemma {:induction false} CollapseKeepsHead(a: Alphabet, afterSpace: bool, s: string)
    ensures HeadLetter(a, Collapse(afterSpace, s)) == HeadLetter(a, s)
    decreases |s|
  {
    if s != [] {
      CollapseKeepsHead(a, IsSpace(s[0]), s[1..]);
      var r := Collapse(IsSpace(s[0]), s[1..]);
      assert ([' '] + r)[1..] == r && [] + r == r;
    }
  }

  lemma {:induction false} CollapseIsClean(a: Alphabet, afterLetter: bool, afterSpace: bool, s: string)
    requires Sane(a) && Folded(a, afterLetter, s) && (afterSpace ==> !afterLetter)
    ensures Clean(a, afterLetter, afterSpace, Collapse(afterSpace, s))
    decreases |s|
  {
    if s != [] {
      var r := Collapse(IsSpace(s[0]), s[1..]);
      assert Plain(a, s[0]) && Plain(a, ' ');
      CollapseIsClean(a, a.letter(s[0]), IsSpace(s[0]), s[1..]);
      CollapseKeepsHead(a, IsSpace(s[0]), s[1..]);
      assert ([' '] + r)[1..] == r && ([s[0]] + r)[1..] == r && [] + r == r;
    }
  }

  lemma {:induction false} TrimStartIsClean(a: Alphabet, afterLetter: bool, afterSpace: bool, s: string)
    requires Sane(a) && Clean(a, afterLetter, afterSpace, s)
    ensures Clean(a, false, false, TrimStart(s))
    decreases |s|
  {
    if s != [] && IsSpace(s[0]) { TrimStartIsClean(a, a.letter(s[0]), true, s[1..]); }
  }

  lemma {:induction false} PrefixIsClean(a: Alphabet, afterLetter: bool, afterSpace: bool, s: string, gap: string)
    requires Clean(a, afterLetter, afterSpace, s + gap) && AllSpace(gap)
    ensures Clean(a, afterLetter, afterSpace, s)
    decreases |s|
  {
    if s != [] {
      assert (s + gap)[1..] == s[1..] + gap;
      PrefixIsClean(a, a.letter(s[0]), IsSpace(s[0]), s[1..], gap);
      HeadLetterSkips(a, s[1..], gap);
      HeadLetterSkips(a, gap, []);
      assert gap + [] == gap;
      HeadLetterSkips(a, s[1..], []);
      assert s[1..] + [] == s[1..];
    }
  }

  lemma {:induction false} LowerKeepsHead(a: Alphabet, s: string)
    requires Sane(a)
    ensures HeadLetter(a, Mapped(s, a.lower)) == HeadLetter(a, s)
  {
    if s != [] {
      LowerKeepsHead(a, s[1..]);
      assert Mapped(s, a.lower)[1..] == Mapped(s[1..], a.lower);
      assert Plain(a, s[0]);
    }
  }

  lemma {:induction false} LowerIsClean(a: Alphabet, afterLetter: bool, afterSpace: bool, s: string)
    requires Sane(a) && Clean(a, afterLetter, afterSpace, s)
    ensures Clean(a, afterLetter, afterSpace, Mapped(s, a.lower))
    decreases |s|
  {
    if s != [] {
      LowerIsClean(a, a.letter(s[0]), IsSpace(s[0]), s[1..]);
      assert Mapped(s, a.lower)[1..] == Mapped(s[1..], a.lower);
      LowerKeepsHead(a, s[1..]);
      assert Plain(a, s[0]) && Plain(a, ' ');
    }
  }

  lemma TrimIsClean(a: Alphabet, c: string)
    requires Sane(a) && Clean(a, false, false, c)
    ensures Clean(a, false, false, Trim(c))
  {
    TrimStartIsClean(a, false, false, c);
    var gap := TrimEndSplits(TrimStart(c));
    PrefixIsClean(a, false, false, Trim(c), gap);
  }

  lemma NormaliseIsClean(a: Alphabet, value: string)
    requires Sane(a)
    ensures Clean(a, false, false, Normalise(a, value))
  {
    var f := Fold(a, false, Mapped(a.nfkc(value), Punct));
    FoldIsFolded(a, false, Mapped(a.nfkc(value), Punct)) by { PunctIsPunct(a.nfkc(value)); }
    CollapseIsClean(a, false, false, f);
    TrimIsClean(a, Collapse(false, f));
    LowerIsClean(a, false, false, Trim(Collapse(false, f)));
  }

  lemma PunctIsPunct(s: string)
    ensures AllPunct(Mapped(s, Punct))
  {
  }

  /** Normalising twice equals normalising once, on text NFKC leaves alone. */
  lemma NormaliseIsIdempotent(a: Alphabet, value: string)
    requires Sane(a) && a.nfkc(Normalise(a, value)) == Normalise(a, value)
    ensures Normalise(a, Normalise(a, value)) == Normalise(a, value)
  {
    var n := Normalise(a, value);
    NormaliseIsClean(a, value);
    CleanIsFixed(a, false, false, n);
    var t := Trim(Collapse(false, Fold(a, false, Mapped(a.nfkc(value), Punct))));
    TrimTrims(Collapse(false, Fold(a, false, Mapped(a.nfkc(value), Punct))));
    LowerIsFixed(a, t);
    TrimFixes(n);
  }

  lemma LowerIsFixed(a: Alphabet, s: string)
    requires Sane(a)
    ensures Mapped(Mapped(s, a.lower), a.lower) == Mapped(s, a.lower)
    ensures s != [] ==> (Trimmed(s) ==> Trimmed(Mapped(s, a.lower)))
  {
    forall i | 0 <= i < |s| ensures a.lower(a.lower(s[i])) == a.lower(s[i]) {
      assert Plain(a, s[i]);
    }
    if s != [] { assert Plain(a, s[0]) && Plain(a, s[|s| - 1]); }
  }

  /** The texts that normalising leaves alone. */
  lemma CleanNormalises(a: Alphabet, s: string)
    requires Clean(a, false, false, s) && Trimmed(s) && a.nfkc(s) == s && Mapped(s, a.lower) == s
    ensures Normalise(a, s) == s
  {
    CleanIsFixed(a, false, false, s);
    TrimFixes(s);
  }

  lemma PairIsClean(a: Alphabet, c: char, d: char)
    requires Sane(a) && a.letter(c) && Punct(c) == c && a.lower(c) == c
    requires !IsSpace(d) && Punct(d) == d && a.lower(d) == d && a.nfkc([c, d]) == [c, d]
    ensures Normalise(a, [c, d]) == [c, d]
  {
    assert Plain(a, c);
    assert [c, d][1..] == [d] && [d][1..] == [];
    assert Clean(a, true, false, [d]);
    assert Mapped([c, d], a.lower) == [c, d];
    CleanNormalises(a, [c, d]);
  }

  lemma ShortFold(a: Alphabet, c: char, d: char)
    requires Sane(a) && a.letter(c) && Punct(c) == c && a.lower(c) == c
    requires a.letter(d) && Punct(d) == d && a.lower(d) == d
    requires a.nfkc([c, '-', d]) == [c, '-', d] && a.nfkc([c, d]) == [c, d]
    ensures Normalise(a, [c, '-', d]) == [c, d]
  {
    assert Plain(a, d);
    PairIsClean(a, c, d);
    assert [] + [c] + ['-'] + [d] + [] == [c, '-', d] && [] + [c] + [d] + [] == [c, d];
    HyphenationChangesNothing(a, [c, '-', d], [c, d], [], c, ['-'], d, []);
  }

  lemma NotInPair(c: char, d: char)
    requires d != '-'
    ensures !Occurs([c, d], [c, '-'])
  {
    var pat := [c, '-'];
    assert pat[1] == '-' && [c, d][1] == d;
    forall i: nat ensures !At([c, d], pat, i) {
      AtChars([c, d], pat, i);
    }
  }

  /** A quote that does cut a fold is refused although it is in the source, word for word. */
  lemma CutQuoteIsLost(a: Alphabet, c: char, d: char)
    requires Sane(a) && a.letter(c) && Punct(c) == c && a.lower(c) == c
    requires a.letter(d) && Punct(d) == d && a.lower(d) == d
    requires a.nfkc([c, '-', d]) == [c, '-', d] && a.nfkc([c, d]) == [c, d] && a.nfkc([c, '-']) == [c, '-']
    ensures At([c, '-', d], [c, '-'], 0)
    ensures !Occurs(Normalise(a, [c, '-', d]), Normalise(a, [c, '-']))
  {
    assert Plain(a, d) && Plain(a, '-') && !IsSpace('-');
    ShortFold(a, c, d);
    PairIsClean(a, c, '-');
    NotInPair(c, d);
  }

  // ----- where a quote stops matching --------------------------------------

  /** Fewer normalised characters than this are no evidence by themselves. */
  const MinEvidence: nat := 12

  datatype Divergence =
    | NoFoothold(matched: nat)
    | Fork(matched: nat, agreed: string, quoteContinues: string, sourceContinues: string)

  function Slice(s: string, from: nat, to: nat): (r: string)
    ensures |r| <= |s| && (from <= to <= |s| ==> r == s[from..to])
  {
    var hi := if to <= |s| then to else |s|;
    if from <= hi then s[from..hi] else []
  }

  /** A prefix of something that occurs, occurs. */
  lemma OccurrenceIsMonotone(s: string, needle: string, n: nat, m: nat)
    requires n <= m <= |needle| && Occurs(s, needle[..m])
    ensures Occurs(s, needle[..n])
  {
    var i: nat :| At(s, needle[..m], i);
    assert s[i..i + n] == s[i..i + m][..n];
    assert needle[..m][..n] == needle[..n];
    assert At(s, needle[..n], i);
  }

  /** `n` is the length of the longest prefix of the quote found anywhere in the source. */
  ghost predicate Longest(s: string, needle: string, n: nat) {
    n <= |needle| && Occurs(s, needle[..n]) && NoneLonger(s, needle, n)
  }

  ghost predicate NoneLonger(s: string, needle: string, n: nat) {
    forall m :: n < m <= |needle| ==> !Occurs(s, needle[..m])
  }

  lemma PrefixGrows(s: string, needle: string, n: nat, i: nat)
    requires n < |needle| && At(s, needle[..n], i) && i + n < |s| && s[i + n] == needle[n]
    ensures Occurs(s, needle[..n + 1])
  {
    assert s[i..i + (n + 1)] == s[i..i + n] + [s[i + n]];
    assert needle[..n + 1] == needle[..n] + [needle[n]];
    assert At(s, needle[..n + 1], i);
  }

  /** At every place the longest prefix occurs, the quote and the source part company there. */
  lemma LongestForksEverywhere(s: string, needle: string, n: nat, i: nat)
    requires Longest(s, needle, n) && n < |needle| && At(s, needle[..n], i)
    ensures i + n == |s| || s[i + n] != needle[n]
  {
    if i + n < |s| && s[i + n] == needle[n] { PrefixGrows(s, needle, n, i); }
  }

  lemma ShrinkLongest(s: string, needle: string, mid: nat, hi: nat)
    requires 0 < mid <= hi <= |needle| && !Occurs(s, needle[..mid])
    requires NoneLonger(s, needle, hi)
    ensures NoneLonger(s, needle, mid - 1)
  {
    forall m | mid - 1 < m <= |needle| ensures !Occurs(s, needle[..m]) {
      if Occurs(s, needle[..m]) { OccurrenceIsMonotone(s, needle, mid, m); }
    }
  }

  ghost predicate First(s: string, pat: string, at: nat) {
    At(s, pat, at) && forall k: nat :: k < at ==> !At(s, pat, k)
  }

  /** The report on a prefix of length `n` found first at `at`. */
  function ForkAt(s: string, needle: string, n: nat, at: nat): Divergence {
    Fork(n, Slice(needle, if n < 30 then 0 else n - 30, n), Slice(needle, n, n + 30), Slice(s, at + n, at + n + 30))
  }

  method DivergenceOf(haystack: string, needle: string) returns (r: Divergence)
    ensures Longest(haystack, needle, r.matched)
    ensures r.NoFoothold? <==> r.matched < MinEvidence
    ensures r.Fork? ==> exists at :: First(haystack, needle[..r.matched], at) && r == ForkAt(haystack, needle, r.matched, at)
  {
    var lo, hi := 0, |needle|;
    assert At(haystack, needle[..0], 0);
    while lo < hi
      invariant lo <= hi <= |needle| && Occurs(haystack, needle[..lo])
      invariant NoneLonger(haystack, needle, hi)
    {
      var mid := (lo + hi + 1) / 2;
      FindSpec(haystack, needle[..mid], 0);
      if Find(haystack, needle[..mid], 0).Some? {
        lo := mid;
      } else {
        ShrinkLongest(haystack, needle, mid, hi);
        hi := mid - 1;
      }
    }
    if lo < MinEvidence { return NoFoothold(lo); }
    FindSpec(haystack, needle[..lo], 0);
    var at := Find(haystack, needle[..lo], 0).value;
    assert First(haystack, needle[..lo], at);
    r := ForkAt(haystack, needle, lo, at);
  }

  // ----- verifying a fact ---------------------------------------------------

  datatype Fact = Fact(field: Option<string>, value: Option<string>, sourceId: Option<string>,
                       evidence: Option<string>, explicit: bool, confidence: Option<string>)

  datatype Code = IncompleteFact | UnknownSource | EvidenceTooShort | SpanNotFound

  datatype Verdict =
    | Held(field: string, value: string, sourceId: string, evidence: string, offset: nat,
           explicit: bool, confidence: string)
    | Refused(code: Code)

  predicate Given(v: Option<string>) {
    v.Some? && v.value != ""
  }

  predicate Complete(f: Fact) {
    Given(f.field) && Given(f.value) && Given(f.sourceId) && Given(f.evidence)
  }

  predicate WordChar(a: Alphabet, c: char) {
    a.letter(c) || a.digit(c)
  }

  /** `word` stands at `i` with no letter or digit on either side. */
  predicate WordAt(a: Alphabet, s: string, word: string, i: nat) {
    && At(s, word, i)
    && (i > 0 ==> !WordChar(a, s[i - 1]))
    && (i + |word| < |s| ==> !WordChar(a, s[i + |word|]))
  }

  function FindWord(a: Alphabet, s: string, word: string, from: nat): (r: Option<nat>)
    ensures r.Some? ==> from <= r.value && WordAt(a, s, word, r.value)
    ensures r.Some? ==> forall k: nat :: from <= k < r.value ==> !WordAt(a, s, word, k)
    ensures r.None? ==> forall k: nat :: from <= k ==> !WordAt(a, s, word, k)
    decreases |s| - from
  {
    if from > |s| then None
    else if WordAt(a, s, word, from) then Some(from)
    else FindWord(a, s, word, from + 1)
  }

  function HeldAt(f: Fact, offset: nat): Verdict
    requires Complete(f)
  {
    Held(f.field.value, f.value.value, f.sourceId.value, f.evidence.value, offset, f.explicit,
         if f.confidence.Some? then f.confidence.value else "unstated")
  }

  /** A long quote may stand anywhere; a short one must stand alone. */
  function Locate(a: Alphabet, haystack: string, needle: string, min: nat): Option<nat> {
    if |needle| < min then FindWord(a, haystack, needle, 0) else Find(haystack, needle, 0)
  }

  /** Every text is compared in its normal form. */
  function Norm(a: Alphabet): string -> string {
    s => Normalise(a, s)
  }

  /** `min` is the claim's own evidence floor, `MinEvidence` unless a caller says otherwise. */
  function VerifyFact(a: Alphabet, norm: string -> string, f: Fact, sources: map<string, string>, min: nat): Verdict {
    if !Complete(f) then Refused(IncompleteFact)
    else if f.sourceId.value !in sources then Refused(UnknownSource)
    else
      var needle := norm(f.evidence.value);
      if |needle| < min && needle != norm(f.value.value) then Refused(EvidenceTooShort)
      else match Locate(a, norm(sources[f.sourceId.value]), needle, min)
        case None => Refused(SpanNotFound)
        case Some(i) => HeldAt(f, i)
  }

  ghost predicate Supports(a: Alphabet, haystack: string, needle: string, min: nat) {
    if |needle| >= min then Occurs(haystack, needle)
    else exists i: nat :: WordAt(a, haystack, needle, i)
  }

  lemma LocateFindsSupport(a: Alphabet, haystack: string, needle: string, min: nat)
    ensures Locate(a, haystack, needle, min).Some? <==> Supports(a, haystack, needle, min)
    ensures Locate(a, haystack, needle, min).Some? ==> At(haystack, needle, Locate(a, haystack, needle, min).value)
  {
    if |needle| >= min {
      FindSpec(haystack, needle, 0);
    } else {
      var r := FindWord(a, haystack, needle, 0);
    }
  }

  /** A fact is held exactly when the source it cites, normalised, supports its normalised quote. */
  lemma HeldIffGrounded(a: Alphabet, norm: string -> string, f: Fact, sources: map<string, string>, min: nat)
    requires Complete(f) && f.sourceId.value in sources
    ensures var needle := norm(f.evidence.value);
            VerifyFact(a, norm, f, sources, min).Held?
            <==> Supports(a, norm(sources[f.sourceId.value]), needle, min)
                 && (|needle| >= min || needle == norm(f.value.value))
    ensures var v := VerifyFact(a, norm, f, sources, min);
            v.Held? ==> At(norm(sources[v.sourceId]), norm(v.evidence), v.offset)
  {
    LocateFindsSupport(a, norm(sources[f.sourceId.value]), norm(f.evidence.value), min);
  }

  /** Verification never refuses an honest quote that is long enough, whatever its formatting. */
  lemma HonestQuoteIsHeld(a: Alphabet, f: Fact, sources: map<string, string>, min: nat, u: string, v: string)
    requires Sane(a) && Complete(f) && f.sourceId.value in sources && |Normalise(a, f.evidence.value)| >= min
    requires QuotedFrom(a, sources[f.sourceId.value], f.evidence.value, u, v) && !HarmedIn(a, f.evidence.value, u, v)
    ensures VerifyFact(a, Norm(a), f, sources, min).Held?
  {
    HonestQuoteIsFound(a, sources[f.sourceId.value], f.evidence.value, u, v);
    HeldIffGrounded(a, Norm(a), f, sources, min);
  }

  /** A blank quote of a blank value is held wherever the source does not start with a word. */
  lemma BlankQuoteIsHeld(a: Alphabet, norm: string -> string, f: Fact, sources: map<string, string>, min: nat)
    requires min > 0 && Complete(f) && f.sourceId.value in sources && norm(f.evidence.value) == []
    requires var s := norm(sources[f.sourceId.value]); s == [] || !WordChar(a, s[0])
    ensures VerifyFact(a, norm, f, sources, min).Held? <==> norm(f.value.value) == []
  {
    HeldIffGrounded(a, norm, f, sources, min);
    var s := norm(sources[f.sourceId.value]);
    assert At(s, [], 0);
    assert WordAt(a, s, [], 0);
  }

  // ----- a whole payload ----------------------------------------------------

  function Checker(a: Alphabet, sources: map<string, string>): Fact -> Verdict {
    f => VerifyFact(a, Norm(a), f, sources, MinEvidence)
  }

  /** The facts whose verdict is as asked, in order. */
  function Kept(check: Fact -> Verdict, facts: seq<Fact>, held: bool): seq<Fact> {
    if facts == [] then []
    else
      var n := |facts| - 1;
      Kept(check, facts[..n], held) + if check(facts[n]).Held? == held then [facts[n]] else []
  }

  /** Each fact is either verified or rejected, once. */
  lemma {:induction false} KeptSplits(check: Fact -> Verdict, facts: seq<Fact>)
    ensures multiset(facts) == multiset(Kept(check, facts, true)) + multiset(Kept(check, facts, false))
  {
    if facts != [] {
      var init, f := facts[..|facts| - 1], facts[|facts| - 1];
      KeptSplits(check, init);
      assert facts == init + [f];
      var held := check(f).Held?;
      KeptSnoc(check, init, f);
      MultisetSnoc(init, f);
      MultisetSnoc(Kept(check, init, held), f);
    }
  }

  lemma KeptSnoc(check: Fact -> Verdict, init: seq<Fact>, f: Fact)
    ensures Kept(check, init + [f], check(f).Held?) == Kept(check, init, check(f).Held?) + [f]
    ensures Kept(check, init + [f], !check(f).Held?) == Kept(check, init, !check(f).Held?)
  {
    assert (init + [f])[..|init + [f]| - 1] == init;
  }

  lemma MultisetSnoc<T>(s: seq<T>, t: T)
    ensures multiset(s + [t]) == multiset(s) + multiset{t}
  {
  }

  /** Which it is depends on the fact and its source alone, not on its neighbours. */
  lemma {:induction false} KeptOnMerit(check: Fact -> Verdict, facts: seq<Fact>, held: bool, f: Fact)
    ensures f in Kept(check, facts, held) <==> f in facts && check(f).Held? == held
  {
    if facts != [] {
      var n := |facts| - 1;
      KeptOnMerit(check, facts[..n], held, f);
      assert facts == facts[..n] + [facts[n]];
    }
  }

  /** The verdicts of these facts, in order. */
  predicate Verdicts(check: Fact -> Verdict, facts: seq<Fact>, verdicts: seq<Verdict>) {
    |verdicts| == |facts| && forall i :: 0 <= i < |facts| ==> verdicts[i] == check(facts[i])
  }

  /** These facts, each with its verdict, in order. */
  predicate Paired(check: Fact -> Verdict, facts: seq<Fact>, pairs: seq<(Fact, Verdict)>) {
    |pairs| == |facts| && forall i :: 0 <= i < |facts| ==> pairs[i] == (facts[i], check(facts[i]))
  }

  /** The loop of `verifyFacts`; `check` is `Checker` of the alphabet and the sources. */
  method VerifyFacts(check: Fact -> Verdict, facts: seq<Fact>)
    returns (verified: seq<Verdict>, rejected: seq<(Fact, Verdict)>)
    ensures Verdicts(check, Kept(check, facts, true), verified)
    ensures Paired(check, Kept(check, facts, false), rejected)
  {
    verified, rejected := [], [];
    for n := 0 to |facts|
      invariant Verdicts(check, Kept(check, facts[..n], true), verified)
      invariant Paired(check, Kept(check, facts[..n], false), rejected)
    {
      assert facts[..n + 1][..n] == facts[..n];
      var verdict := check(facts[n]);
      if verdict.Held? {
        verified := verified + [verdict];
      } else {
        rejected := rejected + [(facts[n], verdict)];
      }
    }
    assert facts[..|facts|] == facts;
  }
}
