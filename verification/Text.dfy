/** Strings as the source sees them: whitespace, trimming and searching. */
module Text {
  datatype Option<+T> = None | Some(value: T)

  datatype Result<+T, +E> = Ok(value: T) | Err(error: E) {
    predicate IsFailure() { Err? }

    function PropagateFailure<U>(): Result<U, E>
      requires Err?
    {
      Err(error)
    }

    function Extract(): T
      requires Ok?
    {
      value
    }
  }

  /** The characters JavaScript's `trim` and `\s` treat as whitespace. */
  predicate IsSpace(c: char) {
    var n := c as int;
    || 9 <= n <= 13 || n == 32 || n == 0xA0 || n == 0x1680 || 0x2000 <= n <= 0x200A
    || n == 0x2028 || n == 0x2029 || n == 0x202F || n == 0x205F || n == 0x3000 || n == 0xFEFF
  }

  predicate AllSpace(s: string) {
    forall i :: 0 <= i < |s| ==> IsSpace(s[i])
  }

  function TrimStart(s: string): (r: string)
    ensures |r| <= |s|
  {
    if s != [] && IsSpace(s[0]) then TrimStart(s[1..]) else s
  }

  function TrimEnd(s: string): (r: string)
    ensures |r| <= |s|
  {
    if s != [] && IsSpace(s[|s| - 1]) then TrimEnd(s[..|s| - 1]) else s
  }

  /** What is dropped is whitespace, and what is kept does not start with any. */
  lemma {:induction false} TrimStartSpec(s: string)
    ensures var r := TrimStart(s);
            && s[|s| - |r|..] == r && AllSpace(s[..|s| - |r|]) && (r == [] || !IsSpace(r[0]))
            && (r == [] <==> AllSpace(s))
  {
    if s != [] && IsSpace(s[0]) {
      TrimStartSpec(s[1..]);
      assert s == [s[0]] + s[1..];
      assert s[..|s| - |TrimStart(s)|] == [s[0]] + s[1..][..|s| - 1 - |TrimStart(s)|];
    }
  }

  lemma {:induction false} TrimEndSpec(s: string)
    ensures var r := TrimEnd(s);
            && s[..|r|] == r && AllSpace(s[|r|..]) && (r == [] || !IsSpace(r[|r| - 1]))
            && (r == [] <==> AllSpace(s))
  {
    if s != [] && IsSpace(s[|s| - 1]) {
      var n := |s| - 1;
      TrimEndSpec(s[..n]);
      assert s == s[..n] + [s[n]];
      assert s[|TrimEnd(s)|..] == s[..n][|TrimEnd(s)|..] + [s[n]];
    }
  }

  function Trim(s: string): string {
    TrimEnd(TrimStart(s))
  }

  /** A string whose ends are not whitespace is left alone by `Trim`. */
  predicate Trimmed(s: string) {
    s == [] || (!IsSpace(s[0]) && !IsSpace(s[|s| - 1]))
  }

  lemma TrimFixes(s: string)
    requires Trimmed(s)
    ensures Trim(s) == s
  {
  }

  lemma TrimTrims(s: string)
    ensures Trimmed(Trim(s))
    ensures Trim(s) == [] <==> AllSpace(s)
  {
    var a := TrimStart(s);
    TrimStartSpec(s);
    TrimEndSpec(a);
    if TrimEnd(a) != [] { assert a[0] == TrimEnd(a)[0]; }
  }

  lemma {:induction false} TrimStartPadded(left: string, rest: string)
    requires AllSpace(left)
    ensures TrimStart(left + rest) == TrimStart(rest)
  {
    if left == [] {
      assert left + rest == rest;
    } else {
      assert IsSpace(left[0]);
      assert (left + rest)[1..] == left[1..] + rest;
      TrimStartPadded(left[1..], rest);
    }
  }

  lemma {:induction false} TrimStartStops(x: string, v: string)
    requires !AllSpace(x)
    ensures TrimStart(x + v) == TrimStart(x) + v
  {
    if IsSpace(x[0]) {
      assert (x + v)[1..] == x[1..] + v;
      assert !AllSpace(x[1..]) by { assert x == [x[0]] + x[1..]; }
      TrimStartStops(x[1..], v);
    }
  }

  lemma {:induction false} TrimEndPadded(rest: string, right: string)
    requires AllSpace(right)
    ensures TrimEnd(rest + right) == TrimEnd(rest)
  {
    if right == [] {
      assert rest + right == rest;
    } else {
      var n := |right| - 1;
      assert IsSpace(right[n]);
      assert (rest + right)[..|rest + right| - 1] == rest + right[..n];
      TrimEndPadded(rest, right[..n]);
    }
  }

  /** What `TrimStart` drops and what it keeps. */
  lemma TrimStartSplits(s: string) returns (pad: string)
    ensures s == pad + TrimStart(s) && AllSpace(pad)
  {
    TrimStartSpec(s);
    pad := s[..|s| - |TrimStart(s)|];
  }

  /** What `TrimEnd` keeps and what it drops. */
  lemma TrimEndSplits(s: string) returns (pad: string)
    ensures s == TrimEnd(s) + pad && AllSpace(pad)
  {
    TrimEndSpec(s);
    pad := s[|TrimEnd(s)|..];
  }

  lemma TrimStartAcross(left: string, core: string, right: string)
    requires AllSpace(left)
    ensures TrimStart(left + (core + right)) == TrimStart(TrimStart(core) + right)
  {
    TrimStartPadded(left, core + right);
    var pad := TrimStartSplits(core);
    Assoc(pad, TrimStart(core), right);
    TrimStartPadded(pad, TrimStart(core) + right);
  }

  /** Surrounding whitespace never matters to `Trim`. */
  lemma TrimPadded(left: string, core: string, right: string)
    requires AllSpace(left) && AllSpace(right)
    ensures Trim(left + core + right) == Trim(core)
  {
    Assoc(left, core, right);
    TrimStartAcross(left, core, right);
    var r := TrimStart(core);
    TrimStartSpec(core);
    if r == [] {
      assert r + right == right && right + [] == right;
      TrimStartPadded(right, []);
    } else {
      assert (r + right)[0] == r[0];
      TrimEndPadded(r, right);
    }
  }

  lemma Assoc<T>(a: seq<T>, b: seq<T>, c: seq<T>)
    ensures a + (b + c) == a + b + c
  {
  }

  /** `pat` occurs in `s` at position `i`. */
  predicate At(s: string, pat: string, i: nat) {
    i + |pat| <= |s| && s[i..i + |pat|] == pat
  }

  lemma AtChars(s: string, pat: string, i: nat)
    ensures At(s, pat, i) <==> i + |pat| <= |s| && forall k :: 0 <= k < |pat| ==> s[i + k] == pat[k]
  {
    if i + |pat| <= |s| {
      var w := s[i..i + |pat|];
      assert forall k :: 0 <= k < |pat| ==> w[k] == s[i + k];
    }
  }

  ghost predicate Occurs(s: string, pat: string) {
    exists i: nat :: At(s, pat, i)
  }

  /** First occurrence at or after `from`: `indexOf`, and what `includes` decides. */
  function Find(s: string, pat: string, from: nat): (r: Option<nat>)
    ensures r.Some? ==> from <= r.value && r.value + |pat| <= |s|
    decreases if from <= |s| then |s| + 1 - from else 0
  {
    if from > |s| then None
    else if At(s, pat, from) then Some(from)
    else Find(s, pat, from + 1)
  }

  lemma {:induction false} FindSpec(s: string, pat: string, from: nat)
    ensures var r := Find(s, pat, from);
            match r
            case None => forall k: nat :: from <= k ==> !At(s, pat, k)
            case Some(i) => At(s, pat, i) && forall k: nat :: from <= k < i ==> !At(s, pat, k)
    decreases if from <= |s| then |s| + 1 - from else 0
  {
    if from <= |s| && !At(s, pat, from) { FindSpec(s, pat, from + 1); }
  }

  lemma FindIs(s: string, pat: string, from: nat, i: nat)
    requires from <= i && At(s, pat, i)
    requires forall k: nat :: from <= k < i ==> !At(s, pat, k)
    ensures Find(s, pat, from) == Some(i)
  {
    FindSpec(s, pat, from);
  }

  function LowerChar(c: char): char {
    if 'A' <= c <= 'Z' then (c as int + 32) as char else c
  }

  function Lower(s: string): (r: string)
    ensures |r| == |s|
    ensures forall i :: 0 <= i < |s| ==> r[i] == LowerChar(s[i])
  {
    seq(|s|, i requires 0 <= i < |s| => LowerChar(s[i]))
  }
}
