/** The order JavaScript's default `sort` puts on strings. */
module Order {
  predicate Less(a: string, b: string) {
    b != [] && (a == [] || a[0] < b[0] || (a[0] == b[0] && Less(a[1..], b[1..])))
  }

  lemma {:induction false} LessIrreflexive(a: string)
    ensures !Less(a, a)
  {
    if a != [] { LessIrreflexive(a[1..]); }
  }

  lemma {:induction false} LessTransitive(a: string, b: string, c: string)
    requires Less(a, b) && Less(b, c)
    ensures Less(a, c)
  {
    if a != [] && a[0] == b[0] == c[0] {
      LessTransitive(a[1..], b[1..], c[1..]);
    }
  }

  lemma {:induction false} LessTotal(a: string, b: string)
    ensures a == b || Less(a, b) || Less(b, a)
  {
    if a != [] && b != [] && a[0] == b[0] {
      LessTotal(a[1..], b[1..]);
      assert a == [a[0]] + a[1..] && b == [b[0]] + b[1..];
    }
  }

  lemma LessAsymmetric(a: string, b: string)
    requires Less(a, b)
    ensures !Less(b, a)
  {
    if Less(b, a) {
      LessTransitive(a, b, a);
      LessIrreflexive(a);
    }
  }

  /** The members of `keys` below `x`: what a walk towards smaller ids uses up. */
  ghost function Below(keys: set<string>, x: string): set<string> {
    set k | k in keys && Less(k, x)
  }

  lemma BelowShrinks(keys: set<string>, x: string, y: string)
    requires y in keys && Less(y, x)
    ensures Below(keys, y) < Below(keys, x)
  {
    forall k | k in Below(keys, y) ensures k in Below(keys, x) {
      LessTransitive(k, y, x);
    }
    LessIrreflexive(y);
    assert y in Below(keys, x) && y !in Below(keys, y);
  }

  predicate Ascending(s: seq<string>) {
    forall i, j :: 0 <= i < j < |s| ==> Less(s[i], s[j])
  }

  function Insert(x: string, s: seq<string>): seq<string> {
    if s == [] || Less(x, s[0]) then [x] + s else [s[0]] + Insert(x, s[1..])
  }

  lemma {:induction false} InsertKeepsAscending(x: string, s: seq<string>)
    requires Ascending(s) && x !in s
    ensures Ascending(Insert(x, s))
    ensures forall y :: y in Insert(x, s) <==> y == x || y in s
  {
    if s == [] {
    } else if Less(x, s[0]) {
      forall i | 0 <= i < |s| ensures Less(x, s[i]) {
        if i > 0 { LessTransitive(x, s[0], s[i]); }
      }
    } else {
      assert s == [s[0]] + s[1..];
      InsertKeepsAscending(x, s[1..]);
      LessTotal(x, s[0]);
      assert forall y :: y in Insert(x, s[1..]) ==> y == x || y in s[1..];
      forall i | 0 <= i < |Insert(x, s[1..])| ensures Less(s[0], Insert(x, s[1..])[i]) {
        assert Insert(x, s[1..])[i] in Insert(x, s[1..]);
      }
    }
  }

  /** `[...ids].sort()` for a set of distinct strings. */
  method Sorted(ids: set<string>) returns (s: seq<string>)
    ensures Ascending(s)
    ensures forall y :: y in s <==> y in ids
  {
    s := [];
    var rest := ids;
    while rest != {}
      invariant rest <= ids
      invariant Ascending(s)
      invariant forall y :: y in s <==> y in ids - rest
    {
      var x :| x in rest;
      InsertKeepsAscending(x, s);
      s := Insert(x, s);
      rest := rest - {x};
    }
  }
}
