/**
 Identity resolution: a union-find with path halving over a log of `same_as`
 and `not_same_as` claims, proved against plain graph connectivity.
 */
module Identity {
  import opened Text
  import opened Order

  type Id = string
  type Edge = (Id, Id)

  /** One claim. An absent object is the empty string, which the source treats alike. */
  datatype Row = Row(subject: Id, predicate_: string, object_: Id, originalSubject: Option<Id>)

  // ----- addresses -------------------------------------------------------

  /** Position of the last '@', or -1. */
  function LastAt(s: string): (r: int)
    ensures -1 <= r < |s|
    ensures r >= 0 ==> s[r] == '@'
    ensures forall k :: r < k < |s| ==> s[k] != '@'
  {
    if s == [] then -1
    else if s[|s| - 1] == '@' then |s| - 1
    else LastAt(s[..|s| - 1])
  }

  function WithoutDots(s: string): (r: string)
    ensures |r| <= |s|
    ensures forall c :: c in r ==> c in s && c != '.'
  {
    if s == [] then [] else (if s[0] == '.' then [] else [s[0]]) + WithoutDots(s[1..])
  }

  predicate IsGmail(domain: string) {
    domain == "gmail.com" || domain == "googlemail.com"
  }

  function CutPlus(local: string): string {
    match Find(local, "+", 0)
    case Some(p) => if p > 0 then local[..p] else local
    case None => local
  }

  function NormalizeAddress(address: string): string {
    var raw := Lower(Trim(address));
    var at := LastAt(raw);
    if at == -1 then raw
    else
      var local, domain := raw[..at], raw[at + 1..];
      CutPlus(Bare(local, domain)) + "@" + domain
  }

  const PERSON := "person:"

  function CanonicalizeSubject(s: Id): Id {
    if PERSON <= s then PERSON + NormalizeAddress(s[|PERSON|..]) else s
  }

  /** A gmail local part in which the dots hide leading whitespace. */
  predicate DotsHideSpace(address: string) {
    var raw := Lower(Trim(address));
    var at := LastAt(raw);
    && at >= 0
    && IsGmail(raw[at + 1..])
    && var bare := WithoutDots(raw[..at]); bare != [] && IsSpace(bare[0])
  }

  lemma {:induction false} LastAtSplits(local: string, domain: string)
    requires '@' !in domain
    ensures LastAt(local + "@" + domain) == |local|
  {
    var s := local + "@" + domain;
    assert s[|local|] == '@';
    assert forall k :: |local| < k < |s| ==> s[k] == domain[k - |local| - 1];
  }

  lemma {:induction false} WithoutDotsFixes(s: string)
    requires '.' !in s
    ensures WithoutDots(s) == s
  {
    if s != [] {
      WithoutDotsFixes(s[1..]);
      assert s == [s[0]] + s[1..];
    }
  }

  lemma CutPlusFixes(local: string)
    ensures CutPlus(CutPlus(local)) == CutPlus(local)
    ensures CutPlus(local) <= local
    ensures local != [] ==> CutPlus(local) != []
  {
    FindSpec(local, "+", 0);
    match Find(local, "+", 0)
    case None =>
    case Some(p) =>
      if p > 0 {
        var c := local[..p];
        FindSpec(c, "+", 0);
        forall k: nat ensures !At(c, "+", k) {
          if k < p { assert c[k..k + 1] == local[k..k + 1]; assert !At(local, "+", k); }
        }
      }
  }

  lemma LowerFixes(s: string)
    ensures Lower(Lower(s)) == Lower(s)
    ensures Trimmed(Lower(s)) == Trimmed(s)
  {
  }

  predicate IsLower(s: string) {
    forall i :: 0 <= i < |s| ==> LowerChar(s[i]) == s[i]
  }

  lemma LowerIsLower(s: string)
    requires IsLower(s)
    ensures Lower(s) == s
  {
  }

  lemma NormalizeNeverGrows(address: string)
    ensures |NormalizeAddress(address)| <= |Trim(address)|
  {
    var raw := Lower(Trim(address));
    var at := LastAt(raw);
    if at >= 0 {
      CutPlusFixes(Bare(raw[..at], raw[at + 1..]));
    }
  }

  lemma TrimDropsLeadingSpace(s: string)
    requires s != [] && IsSpace(s[0])
    ensures |Trim(s)| < |s|
  {
    assert TrimStart(s) == TrimStart(s[1..]);
  }

  function Bare(local: string, domain: string): string {
    if IsGmail(domain) then WithoutDots(local) else local
  }

  /** `bare` and `domain` as a lower-case, trimmed address leaves them behind. */
  predicate Clean(bare: string, domain: string) {
    && '@' !in domain && IsLower(bare) && IsLower(domain)
    && (IsGmail(domain) ==> '.' !in bare)
    && (domain != [] ==> !IsSpace(domain[|domain| - 1]))
  }

  lemma RawIsClean(address: string)
    ensures Trimmed(Lower(Trim(address))) && IsLower(Lower(Trim(address)))
  {
    TrimTrims(address);
    LowerFixes(Trim(address));
    var raw := Lower(Trim(address));
    assert forall i :: 0 <= i < |raw| ==> Lower(raw)[i] == LowerChar(raw[i]);
  }

  lemma BareIsLower(local: string, domain: string)
    requires IsLower(local)
    ensures IsLower(Bare(local, domain)) && (IsGmail(domain) ==> '.' !in Bare(local, domain))
  {
    var bare := Bare(local, domain);
    forall i | 0 <= i < |bare| ensures LowerChar(bare[i]) == bare[i] {
      assert bare[i] in local;
    }
  }

  lemma PartsAreClean(raw: string, at: nat)
    requires Trimmed(raw) && IsLower(raw) && LastAt(raw) == at
    ensures Clean(Bare(raw[..at], raw[at + 1..]), raw[at + 1..])
    ensures !IsGmail(raw[at + 1..]) && at > 0 ==> !IsSpace(raw[..at][0])
  {
    var local, domain := raw[..at], raw[at + 1..];
    PartsAreLower(raw, at);
    BareIsLower(local, domain);
    if domain != [] { assert domain[|domain| - 1] == raw[|raw| - 1]; }
    if at > 0 { assert local[0] == raw[0]; }
  }

  lemma PartsAreLower(raw: string, at: nat)
    requires IsLower(raw) && LastAt(raw) == at
    ensures at < |raw| && IsLower(raw[..at]) && IsLower(raw[at + 1..]) && '@' !in raw[at + 1..]
  {
  }

  lemma CleanIsLowerAndTrimmed(bare: string, domain: string)
    requires Clean(bare, domain) && (bare != [] ==> !IsSpace(bare[0]))
    ensures IsLower(CutPlus(bare) + "@" + domain)
    ensures Trimmed(CutPlus(bare) + "@" + domain)
  {
    CutPlusFixes(bare);
    var cut := CutPlus(bare);
    var once := cut + "@" + domain;
    assert cut != [] ==> cut[0] == bare[0];
    assert once[|once| - 1] == if domain == [] then '@' else domain[|domain| - 1];
    forall i | 0 <= i < |once| ensures LowerChar(once[i]) == once[i] {
      if i < |cut| { assert once[i] == bare[i]; }
      if i > |cut| { assert once[i] == domain[i - |cut| - 1]; }
    }
  }

  /** Normalising an address already lowered and trimmed, with these parts. */
  lemma NormalizeParts(local: string, domain: string)
    requires '@' !in domain && IsLower(local + "@" + domain) && Trimmed(local + "@" + domain)
    ensures NormalizeAddress(local + "@" + domain) == CutPlus(Bare(local, domain)) + "@" + domain
  {
    var raw := local + "@" + domain;
    LastAtSplits(local, domain);
    assert raw[..|local|] == local && raw[|local| + 1..] == domain;
    LowerIsLower(raw);
    TrimFixes(raw);
  }

  lemma CleanIsFixed(bare: string, domain: string)
    requires Clean(bare, domain) && (bare != [] ==> !IsSpace(bare[0]))
    ensures NormalizeAddress(CutPlus(bare) + "@" + domain) == CutPlus(bare) + "@" + domain
  {
    var cut := CutPlus(bare);
    CleanIsLowerAndTrimmed(bare, domain);
    NormalizeParts(cut, domain);
    CutPlusFixes(bare);
    if IsGmail(domain) {
      assert '.' !in cut;
      WithoutDotsFixes(cut);
    }
  }

  lemma HiddenSpaceIsTrimmedNext(address: string)
    requires DotsHideSpace(address)
    ensures NormalizeAddress(NormalizeAddress(address)) != NormalizeAddress(address)
  {
    var raw := Lower(Trim(address));
    var bare := WithoutDots(raw[..LastAt(raw)]);
    var once := NormalizeAddress(address);
    CutPlusFixes(bare);
    assert once[0] == bare[0];
    TrimDropsLeadingSpace(once);
    NormalizeNeverGrows(once);
  }

  lemma NoHiddenSpaceFixes(raw: string, at: nat)
    requires Trimmed(raw) && IsLower(raw) && LastAt(raw) == at
    requires var bare := WithoutDots(raw[..at]);
             !(IsGmail(raw[at + 1..]) && bare != [] && IsSpace(bare[0]))
    ensures var once := CutPlus(Bare(raw[..at], raw[at + 1..])) + "@" + raw[at + 1..];
            NormalizeAddress(once) == once
  {
    PartsAreClean(raw, at);
    CleanIsFixed(Bare(raw[..at], raw[at + 1..]), raw[at + 1..]);
  }

  /**
   Normalising an address twice equals normalising it once exactly when the
   dots of a gmail local part do not hide whitespace at its front.
   */
  lemma NormalizeIsIdempotentIff(address: string)
    ensures NormalizeAddress(NormalizeAddress(address)) == NormalizeAddress(address)
            <==> !DotsHideSpace(address)
  {
    if DotsHideSpace(address) { HiddenSpaceIsTrimmedNext(address); } else { OtherwiseSettled(address); }
  }

  lemma OtherwiseSettled(address: string)
    requires !DotsHideSpace(address)
    ensures NormalizeAddress(NormalizeAddress(address)) == NormalizeAddress(address)
  {
    var raw := Lower(Trim(address));
    RawIsClean(address);
    if LastAt(raw) == -1 {
      LowerIsLower(raw);
      TrimFixes(raw);
    } else {
      NoHiddenSpaceFixes(raw, LastAt(raw));
    }
  }

  // ----- the graph the log describes ------------------------------------

  function PairKey(a: Id, b: Id): string {
    if Less(b, a) then b + "|" + a else a + "|" + b
  }

  ghost predicate Refuses(log: seq<Row>, key: string) {
    exists r :: r in log && r.predicate_ == "not_same_as" && r.object_ != ""
      && PairKey(CanonicalizeSubject(r.subject), CanonicalizeSubject(r.object_)) == key
  }

  function EdgeOf(r: Row): Edge {
    (CanonicalizeSubject(r.subject), CanonicalizeSubject(r.object_))
  }

  ghost predicate Asserts(log: seq<Row>, r: Row) {
    && r.predicate_ == "same_as" && r.object_ != ""
    && !Refuses(log, PairKey(EdgeOf(r).0, EdgeOf(r).1))
  }

  /** The `same_as` edges no `not_same_as` row blocks. */
  ghost function Edges(log: seq<Row>): set<Edge> {
    set r | r in log && Asserts(log, r) :: EdgeOf(r)
  }

  ghost predicate Walk(E: set<Edge>, p: seq<Id>) {
    && p != []
    && forall i :: 0 <= i < |p| - 1 ==> (p[i], p[i + 1]) in E || (p[i + 1], p[i]) in E
  }

  ghost predicate Connected(E: set<Edge>, x: Id, y: Id) {
    exists p :: Walk(E, p) && p[0] == x && p[|p| - 1] == y
  }

  /** `r` is the smallest id in the connected component of `x`. */
  ghost predicate IsLeast(E: set<Edge>, x: Id, r: Id) {
    Connected(E, x, r) && forall t :: Connected(E, x, t) ==> !Less(t, r)
  }

  lemma Reflexive(E: set<Edge>, x: Id)
    ensures Connected(E, x, x)
  {
    assert Walk(E, [x]);
  }

  lemma Adjacent(E: set<Edge>, x: Id, y: Id)
    requires (x, y) in E
    ensures Connected(E, x, y)
  {
    assert Walk(E, [x, y]);
  }

  lemma Transitive(E: set<Edge>, x: Id, y: Id, z: Id)
    requires Connected(E, x, y) && Connected(E, y, z)
    ensures Connected(E, x, z)
  {
    var p :| Walk(E, p) && p[0] == x && p[|p| - 1] == y;
    var q :| Walk(E, q) && q[0] == y && q[|q| - 1] == z;
    var w := p + q[1..];
    forall i | 0 <= i < |w| - 1 ensures (w[i], w[i + 1]) in E || (w[i + 1], w[i]) in E {
      if i < |p| - 1 {
        assert w[i] == p[i] && w[i + 1] == p[i + 1];
      } else {
        assert w[i] == q[i - |p| + 1] && w[i + 1] == q[i - |p| + 2];
      }
    }
    assert Walk(E, w) && w[0] == x && w[|w| - 1] == z;
  }

  lemma Symmetric(E: set<Edge>, x: Id, y: Id)
    requires Connected(E, x, y)
    ensures Connected(E, y, x)
  {
    var p :| Walk(E, p) && p[0] == x && p[|p| - 1] == y;
    var w := seq(|p|, i requires 0 <= i < |p| => p[|p| - 1 - i]);
    forall i | 0 <= i < |w| - 1 ensures (w[i], w[i + 1]) in E || (w[i + 1], w[i]) in E {
      var j := |p| - 2 - i;
      assert (p[j], p[j + 1]) in E || (p[j + 1], p[j]) in E;
    }
    assert Walk(E, w) && w[0] == y && w[|w| - 1] == x;
  }

  lemma LeastIsUnique(E: set<Edge>, x: Id, y: Id, r: Id, s: Id)
    requires Connected(E, x, y) && IsLeast(E, x, r) && IsLeast(E, y, s)
    ensures r == s
  {
    Symmetric(E, x, y);
    Transitive(E, x, y, s);
    Transitive(E, y, x, r);
    LessTotal(r, s);
  }

  // ----- the forest -------------------------------------------------------

  /** Every parent is present, and every parent but a root's own is strictly smaller. */
  ghost predicate Forest(p: map<Id, Id>) {
    forall x :: Sinks(p, x)
  }

  ghost predicate Sinks(p: map<Id, Id>, x: Id) {
    x in p ==> p[x] in p && (p[x] == x || Less(p[x], x))
  }

  ghost function Root(p: map<Id, Id>, x: Id): (r: Id)
    requires Forest(p)
    ensures x in p ==> r in p
    ensures r in p ==> p[r] == r
    ensures r == x || Less(r, x)
    decreases Below(p.Keys, x)
  {
    assert Sinks(p, x);
    if x !in p || p[x] == x then x
    else
      BelowShrinks(p.Keys, x, p[x]);
      var r := Root(p, p[x]);
      assert r == x || Less(r, x) by { if r != p[x] { LessTransitive(r, p[x], x); } }
      r
  }

  ghost predicate SameRoots(p: map<Id, Id>, q: map<Id, Id>)
    requires Forest(p) && Forest(q)
  {
    forall x :: Root(p, x) == Root(q, x)
  }

  lemma InsertRoot(p: map<Id, Id>, x: Id)
    requires Forest(p) && x !in p
    ensures Forest(p[x := x]) && SameRoots(p, p[x := x])
  {
    var q := p[x := x];
    forall y ensures Sinks(q, y) { assert Sinks(p, y); }
    forall y ensures Root(p, y) == Root(q, y) { InsertRootAt(p, x, y); }
  }

  lemma {:induction false} InsertRootAt(p: map<Id, Id>, x: Id, y: Id)
    requires Forest(p) && x !in p && Forest(p[x := x])
    ensures Root(p, y) == Root(p[x := x], y)
    decreases Below(p.Keys, y)
  {
    if y in p && p[y] != y {
      assert Sinks(p, y);
      BelowShrinks(p.Keys, y, p[y]);
      InsertRootAt(p, x, p[y]);
    }
  }

  /** One step of path halving: `x` now points at its grandparent. */
  function Halved(p: map<Id, Id>, x: Id): map<Id, Id>
    requires x in p && p[x] in p
  {
    p[x := p[p[x]]]
  }

  /** Pointing an id at its grandparent changes no root. */
  lemma Halve(p: map<Id, Id>, x: Id)
    requires Forest(p) && Sinks(p, x) && x in p
    ensures Forest(Halved(p, x)) && SameRoots(p, Halved(p, x))
  {
    var q := Halved(p, x);
    assert Sinks(p, x) && Sinks(p, p[x]);
    if p[p[x]] != p[x] && p[x] != x { LessTransitive(p[p[x]], p[x], x); }
    forall y ensures Sinks(q, y) { assert Sinks(p, y); }
    forall y ensures Root(p, y) == Root(q, y) { HalveAt(p, x, y); }
  }

  lemma {:induction false} HalveAt(p: map<Id, Id>, x: Id, y: Id)
    requires Forest(p) && Sinks(p, x) && x in p && Forest(Halved(p, x))
    ensures Root(p, y) == Root(Halved(p, x), y)
    decreases Below(p.Keys, y)
  {
    var q := Halved(p, x);
    if y in p && p[y] != y {
      assert Sinks(p, y);
      BelowShrinks(p.Keys, y, p[y]);
      if y != x {
        HalveAt(p, x, p[y]);
      } else {
        assert Sinks(p, p[x]);
        if p[p[x]] != p[x] { BelowShrinks(p.Keys, p[x], p[p[x]]); }
        HalveAt(p, x, p[p[x]]);
      }
    }
  }

  /** Hanging one root under a smaller one moves exactly the ids below it. */
  lemma Join(p: map<Id, Id>, keep: Id, drop: Id)
    requires Forest(p) && keep in p && drop in p
    requires p[keep] == keep && p[drop] == drop && Less(keep, drop)
    ensures Forest(p[drop := keep])
    ensures forall y :: Root(p[drop := keep], y) == if Root(p, y) == drop then keep else Root(p, y)
  {
    var q := p[drop := keep];
    forall y ensures Sinks(q, y) { assert Sinks(p, y); }
    LessIrreflexive(drop);
    forall y ensures Root(q, y) == if Root(p, y) == drop then keep else Root(p, y) {
      JoinAt(p, keep, drop, y);
    }
  }

  lemma {:induction false} JoinAt(p: map<Id, Id>, keep: Id, drop: Id, y: Id)
    requires Forest(p) && keep in p && drop in p && keep != drop
    requires p[keep] == keep && p[drop] == drop && Forest(p[drop := keep])
    ensures Root(p[drop := keep], y) == if Root(p, y) == drop then keep else Root(p, y)
    decreases Below(p.Keys, y)
  {
    if y in p && p[y] != y {
      assert Sinks(p, y);
      BelowShrinks(p.Keys, y, p[y]);
      JoinAt(p, keep, drop, p[y]);
    }
  }

  /** The forest represents the graph: edges join roots, links follow edges. */
  ghost predicate Represents(p: map<Id, Id>, E: set<Edge>) {
    && Forest(p)
    && (forall e :: e in E ==> e.0 in p && e.1 in p && Root(p, e.0) == Root(p, e.1))
    && (forall x :: LinkFollows(p, E, x))
  }

  ghost predicate LinkFollows(p: map<Id, Id>, E: set<Edge>, x: Id) {
    x in p ==> Connected(E, x, p[x])
  }

  lemma {:induction false} ReachesRoot(p: map<Id, Id>, E: set<Edge>, x: Id)
    requires Represents(p, E)
    ensures Connected(E, x, Root(p, x))
    decreases Below(p.Keys, x)
  {
    Reflexive(E, x);
    if x in p && p[x] != x {
      assert Sinks(p, x) && LinkFollows(p, E, x);
      BelowShrinks(p.Keys, x, p[x]);
      ReachesRoot(p, E, p[x]);
      Transitive(E, x, p[x], Root(p, x));
    }
  }

  lemma {:induction false} WalkKeepsRoot(p: map<Id, Id>, E: set<Edge>, w: seq<Id>)
    requires Represents(p, E) && Walk(E, w)
    ensures Root(p, w[0]) == Root(p, w[|w| - 1])
    ensures |w| > 1 ==> w[0] in p && w[|w| - 1] in p
  {
    if |w| > 1 {
      assert Walk(E, w[1..]) by {
        forall i | 0 <= i < |w[1..]| - 1
          ensures (w[1..][i], w[1..][i + 1]) in E || (w[1..][i + 1], w[1..][i]) in E
        {
          assert w[1..][i] == w[i + 1] && w[1..][i + 1] == w[i + 2];
        }
      }
      WalkKeepsRoot(p, E, w[1..]);
      assert (w[0], w[1]) in E || (w[1], w[0]) in E;
    }
  }

  /** Two ids share a root exactly when the graph connects them. */
  lemma SameRootIffConnected(p: map<Id, Id>, E: set<Edge>, x: Id, y: Id)
    requires Represents(p, E)
    ensures Root(p, x) == Root(p, y) <==> Connected(E, x, y)
    ensures Connected(E, x, y) && x != y ==> x in p && y in p
  {
    if Root(p, x) == Root(p, y) {
      ReachesRoot(p, E, x);
      ReachesRoot(p, E, y);
      Symmetric(E, y, Root(p, y));
      Transitive(E, x, Root(p, x), y);
    }
    if Connected(E, x, y) {
      var w :| Walk(E, w) && w[0] == x && w[|w| - 1] == y;
      WalkKeepsRoot(p, E, w);
    }
  }

  /** The root of an id is the smallest id in its component. */
  lemma RootIsLeast(p: map<Id, Id>, E: set<Edge>, x: Id)
    requires Represents(p, E)
    ensures IsLeast(E, x, Root(p, x))
  {
    ReachesRoot(p, E, x);
    forall t | Connected(E, x, t) ensures !Less(t, Root(p, x)) {
      SameRootIffConnected(p, E, x, t);
      if Less(t, Root(p, x)) {
        LessAsymmetric(t, Root(p, t));
        LessIrreflexive(t);
      }
    }
  }

  lemma MoreEdges(E: set<Edge>, F: set<Edge>, x: Id, y: Id)
    requires E <= F && Connected(E, x, y)
    ensures Connected(F, x, y)
  {
    var w :| Walk(E, w) && w[0] == x && w[|w| - 1] == y;
    assert Walk(F, w);
  }

  lemma HalveRepresents(p: map<Id, Id>, E: set<Edge>, x: Id)
    requires Represents(p, E) && Sinks(p, x) && x in p
    ensures Represents(Halved(p, x), E) && SameRoots(p, Halved(p, x))
  {
    Halve(p, x);
    assert Sinks(p, x) && LinkFollows(p, E, x) && LinkFollows(p, E, p[x]);
    Transitive(E, x, p[x], p[p[x]]);
    var q := Halved(p, x);
    forall y ensures LinkFollows(q, E, y) { assert LinkFollows(p, E, y); }
  }

  lemma InsertRepresents(p: map<Id, Id>, E: set<Edge>, x: Id)
    requires Represents(p, E) && x !in p
    ensures Represents(p[x := x], E) && SameRoots(p, p[x := x])
  {
    InsertRoot(p, x);
    Reflexive(E, x);
    var q := p[x := x];
    forall y ensures LinkFollows(q, E, y) { assert LinkFollows(p, E, y); }
  }

  /** With the new edge, the two roots are connected, either way round. */
  lemma RootsMeet(p: map<Id, Id>, E: set<Edge>, e: Edge)
    requires Represents(p, E)
    ensures Connected(E + {e}, Root(p, e.0), Root(p, e.1)) && Connected(E + {e}, Root(p, e.1), Root(p, e.0))
  {
    var F := E + {e};
    ReachesRoot(p, E, e.0);
    ReachesRoot(p, E, e.1);
    MoreEdges(E, F, e.0, Root(p, e.0));
    MoreEdges(E, F, e.1, Root(p, e.1));
    Adjacent(F, e.0, e.1);
    Symmetric(F, e.0, Root(p, e.0));
    Transitive(F, Root(p, e.0), e.0, e.1);
    Transitive(F, Root(p, e.0), e.1, Root(p, e.1));
    Symmetric(F, Root(p, e.0), Root(p, e.1));
  }

  /** One union: the two ends of a new edge get one root. */
  lemma JoinRepresents(p: map<Id, Id>, E: set<Edge>, e: Edge, keep: Id, drop: Id)
    requires Represents(p, E) && e.0 in p && e.1 in p && Less(keep, drop)
    requires {Root(p, e.0), Root(p, e.1)} == {keep, drop}
    ensures Represents(p[drop := keep], E + {e})
  {
    Join(p, keep, drop);
    JoinFollows(p, p[drop := keep], E, E + {e}, e, keep, drop);
  }

  lemma JoinFollows(p: map<Id, Id>, q: map<Id, Id>, E: set<Edge>, F: set<Edge>, e: Edge, keep: Id, drop: Id)
    requires Represents(p, E) && e.0 in p && e.1 in p && {Root(p, e.0), Root(p, e.1)} == {keep, drop}
    requires q == p[drop := keep] && F == E + {e}
    ensures forall x :: LinkFollows(q, F, x)
  {
    RootsMeet(p, E, e);
    forall x ensures LinkFollows(q, F, x) {
      assert LinkFollows(p, E, x);
      if x in p && x != drop { MoreEdges(E, F, x, p[x]); }
    }
  }

  lemma AlreadyJoined(p: map<Id, Id>, E: set<Edge>, e: Edge)
    requires Represents(p, E) && e.0 in p && e.1 in p && Root(p, e.0) == Root(p, e.1)
    ensures Represents(p, E + {e})
  {
    forall x ensures LinkFollows(p, E + {e}, x) {
      assert LinkFollows(p, E, x);
      if x in p { MoreEdges(E, E + {e}, x, p[x]); }
    }
  }

  // ----- the index --------------------------------------------------------

  class IdentityIndex {
    var parent: map<Id, Id>
    var blockedPairs: set<string>
    ghost const log: seq<Row>

    ghost predicate Valid()
      reads this
    {
      && Represents(parent, Edges(log))
      && forall key :: key in blockedPairs <==> Refuses(log, key)
    }

    /** `find`: walk to the root, halving the path on the way. */
    method FindRoot(x0: Id, ghost E: set<Edge>) returns (r: Id)
      requires Represents(parent, E)
      modifies this`parent
      ensures Represents(parent, E) && SameRoots(old(parent), parent)
      ensures parent.Keys == old(parent.Keys) + {x0}
      ensures r == Root(old(parent), x0) && parent[r] == r && IsLeast(E, x0, r)
    {
      RootIsLeast(parent, E, x0);
      var x := x0;
      if x !in parent {
        InsertRepresents(parent, E, x);
        parent := parent[x := x];
      }
      while parent[x] != x
        invariant x in parent && parent.Keys == old(parent.Keys) + {x0}
        invariant Represents(parent, E) && SameRoots(old(parent), parent)
        invariant Root(parent, x) == Root(old(parent), x0)
        decreases Below(parent.Keys, x)
      {
        assert Sinks(parent, x) && Sinks(parent, parent[x]);
        HalveRepresents(parent, E, x);
        BelowShrinks(parent.Keys, x, parent[x]);
        if parent[parent[x]] != parent[x] {
          BelowShrinks(parent.Keys, parent[x], parent[parent[x]]);
        }
        parent := parent[x := parent[parent[x]]];
        x := parent[x];
      }
      r := x;
    }

    /** The first pass of `buildIdentityIndex`: the pairs some row refuses. */
    static method BlockedPairs(observations: seq<Row>) returns (blocked: set<string>)
      ensures forall key :: key in blocked <==> Refuses(observations, key)
    {
      blocked := {};
      for i := 0 to |observations|
        invariant forall key :: key in blocked <==> Refuses(observations[..i], key)
      {
        var row := observations[i];
        assert observations[..i + 1] == observations[..i] + [row];
        if row.predicate_ == "not_same_as" && row.object_ != "" {
          var key := PairKey(CanonicalizeSubject(row.subject), CanonicalizeSubject(row.object_));
          blocked := blocked + {key};
          RefusesMore(observations[..i], row, key);
        } else {
          RefusesSame(observations[..i], row);
        }
      }
      assert observations[..|observations|] == observations;
    }

    /** The second pass: the edges left to join, in log order. */
    static method Unblocked(observations: seq<Row>, blocked: set<string>) returns (unions: seq<Edge>)
      requires forall key :: key in blocked <==> Refuses(observations, key)
      ensures forall e :: e in unions <==> Contributes(observations, observations, e)
    {
      unions := [];
      for i := 0 to |observations|
        invariant forall e :: e in unions <==> Contributes(observations, observations[..i], e)
      {
        var row := observations[i];
        assert observations[..i + 1] == observations[..i] + [row];
        ContributesMore(observations, observations[..i], row);
        if row.predicate_ == "same_as" && row.object_ != "" {
          var a := CanonicalizeSubject(row.subject);
          var b := CanonicalizeSubject(row.object_);
          if PairKey(a, b) !in blocked {
            unions := unions + [(a, b)];
          }
        }
      }
      assert observations[..|observations|] == observations;
    }

    /** `buildIdentityIndex`. */
    constructor (observations: seq<Row>)
      ensures Valid() && log == observations
    {
      log := observations;
      parent := map[];
      new;
      blockedPairs := BlockedPairs(observations);
      var unions := Unblocked(observations, blockedPairs);
      assert forall e :: e in Edges(observations) <==> Contributes(observations, observations, e);
      assert (set e | e in unions) == Edges(observations);
      JoinAll(unions);
    }

    /** The last loop of `buildIdentityIndex`: join the two roots of every edge. */
    method JoinAll(unions: seq<Edge>)
      requires parent == map[]
      modifies this`parent
      ensures Represents(parent, set e | e in unions)
    {
      ghost var done: set<Edge> := {};
      for i := 0 to |unions|
        invariant done == set e | e in unions[..i]
        invariant Represents(parent, done)
      {
        assert unions[..i + 1] == unions[..i] + [unions[i]];
        var a, b := unions[i].0, unions[i].1;
        var rootA := FindRoot(a, done);
        var rootB := FindRoot(b, done);
        assert rootA == Root(parent, a) && rootB == Root(parent, b);
        if rootA != rootB {
          LessTotal(rootA, rootB);
          var keep, drop := rootA, rootB;
          if Less(rootB, rootA) { keep, drop := rootB, rootA; }
          JoinRepresents(parent, done, (a, b), keep, drop);
          parent := parent[drop := keep];
        } else {
          AlreadyJoined(parent, done, (a, b));
        }
        done := done + {(a, b)};
      }
      assert unions[..|unions|] == unions;
    }

    /** Whatever was asked before, the answer is the component's least id. */
    method Canonical(subject: Id) returns (r: Id)
      requires Valid()
      modifies this`parent
      ensures Valid() && SameRoots(old(parent), parent)
      ensures r == CanonicalOf(log, subject)
    {
      r := FindRoot(CanonicalizeSubject(subject), Edges(log));
      Reflexive(Edges(log), CanonicalizeSubject(subject));
      LeastIsUnique(Edges(log), CanonicalizeSubject(subject), CanonicalizeSubject(subject),
                    r, CanonicalOf(log, subject));
    }

    /** Exactly the component, each id once, in ascending order. */
    method AliasesOf(subject: Id) returns (aliases: seq<Id>)
      requires Valid()
      modifies this`parent
      ensures Valid() && SameRoots(old(parent), parent)
      ensures Ascending(aliases)
      ensures forall t :: t in aliases <==> Connected(Edges(log), CanonicalizeSubject(subject), t)
    {
      ghost var E, x := Edges(log), CanonicalizeSubject(subject);
      var root := FindRoot(CanonicalizeSubject(subject), E);
      var out := {root};
      var keys := parent.Keys;
      var rest := keys;
      while rest != {}
        invariant rest <= keys && parent.Keys == keys && x in keys
        invariant Valid() && SameRoots(old(parent), parent)
        invariant forall t :: t in out <==> t == root || (t in keys - rest && Root(parent, t) == root)
      {
        var key :| key in rest;
        var r := FindRoot(key, E);
        if r == root { out := out + {key}; }
        rest := rest - {key};
      }
      forall t ensures t in out <==> Connected(E, x, t) {
        SameRootIffConnected(parent, E, x, t);
        ReachesRoot(parent, E, x);
      }
      aliases := Sorted(out);
    }
  }

  lemma RefusesMore(log: seq<Row>, row: Row, key: string)
    requires row.predicate_ == "not_same_as" && row.object_ != ""
    requires PairKey(EdgeOf(row).0, EdgeOf(row).1) == key
    ensures forall k :: Refuses(log + [row], k) <==> Refuses(log, k) || k == key
  {
    assert row in log + [row];
    assert forall r :: r in log + [row] <==> r in log || r == row;
  }

  lemma RefusesSame(log: seq<Row>, row: Row)
    requires !(row.predicate_ == "not_same_as" && row.object_ != "")
    ensures forall k :: Refuses(log + [row], k) <==> Refuses(log, k)
  {
    assert forall r :: r in log + [row] <==> r in log || r == row;
  }

  ghost predicate Contributes(log: seq<Row>, rows: seq<Row>, e: Edge) {
    exists r :: r in rows && Asserts(log, r) && EdgeOf(r) == e
  }

  lemma ContributesMore(log: seq<Row>, rows: seq<Row>, row: Row)
    ensures forall e :: Contributes(log, rows + [row], e)
              <==> Contributes(log, rows, e) || (Asserts(log, row) && e == EdgeOf(row))
  {
    assert row in rows + [row];
    assert forall r :: r in rows + [row] <==> r in rows || r == row;
  }

  // ----- what the index means ---------------------------------------------

  ghost function Near(E: set<Edge>, x: Id): set<Id> {
    set t | t in Ends(E) + {x} && Connected(E, x, t)
  }

  lemma LeastExists(E: set<Edge>, x: Id)
    ensures exists r :: IsLeast(E, x, r)
  {
    Reflexive(E, x);
    assert x in Near(E, x);
    var r := LeastMember(Near(E, x));
    forall t | Connected(E, x, t) ensures !Less(t, r) {
      ConnectedIsAnEnd(E, x, t);
      assert t in Near(E, x);
    }
    assert IsLeast(E, x, r);
  }

  lemma ConnectedIsAnEnd(E: set<Edge>, x: Id, t: Id)
    requires Connected(E, x, t)
    ensures t == x || t in Ends(E)
  {
    var w :| Walk(E, w) && w[0] == x && w[|w| - 1] == t;
    if |w| > 1 {
      var i := |w| - 2;
      assert (w[i], w[i + 1]) in E || (w[i + 1], w[i]) in E;
    }
  }

  ghost function Ends(E: set<Edge>): set<Id> {
    (set e | e in E :: e.0) + (set e | e in E :: e.1)
  }

  lemma {:induction false} LeastMember(ids: set<Id>) returns (r: Id)
    requires ids != {}
    ensures r in ids && forall t :: t in ids ==> !Less(t, r)
  {
    r :| r in ids;
    if ids == {r} {
      LessIrreflexive(r);
    } else {
      var s := LeastMember(ids - {r});
      LessTotal(r, s);
      LessIrreflexive(r);
      if Less(r, s) {
        forall t | t in ids ensures !Less(t, r) {
          if t != r && Less(t, r) { LessTransitive(t, r, s); }
        }
      } else {
        assert forall t :: t in ids ==> t == r || t in ids - {r};
        r := s;
      }
    }
  }

  ghost function CanonicalOf(log: seq<Row>, subject: Id): (r: Id)
    ensures IsLeast(Edges(log), CanonicalizeSubject(subject), r)
  {
    LeastExists(Edges(log), CanonicalizeSubject(subject));
    var r :| IsLeast(Edges(log), CanonicalizeSubject(subject), r);
    r
  }

  /** Two subjects share a canonical id exactly when the graph connects them. */
  lemma SameCanonicalIffConnected(log: seq<Row>, s: Id, t: Id)
    ensures CanonicalOf(log, s) == CanonicalOf(log, t)
            <==> Connected(Edges(log), CanonicalizeSubject(s), CanonicalizeSubject(t))
  {
    var E, x, y := Edges(log), CanonicalizeSubject(s), CanonicalizeSubject(t);
    if Connected(E, x, y) {
      LeastIsUnique(E, x, y, CanonicalOf(log, s), CanonicalOf(log, t));
    } else if CanonicalOf(log, s) == CanonicalOf(log, t) {
      Symmetric(E, y, CanonicalOf(log, t));
      Transitive(E, x, CanonicalOf(log, s), y);
    }
  }

  /** Neither the order of the log nor repeated rows can change any answer. */
  lemma OrderAndDuplicatesAreIrrelevant(log: seq<Row>, other: seq<Row>, subject: Id)
    requires forall r :: r in log <==> r in other
    ensures CanonicalOf(log, subject) == CanonicalOf(other, subject)
  {
    assert forall k :: Refuses(log, k) <==> Refuses(other, k);
    assert forall r :: Asserts(log, r) <==> Asserts(other, r);
    assert Edges(log) == Edges(other);
    var E, x := Edges(log), CanonicalizeSubject(subject);
    Reflexive(E, x);
    LeastIsUnique(E, x, x, CanonicalOf(log, subject), CanonicalOf(other, subject));
  }

  /**
   A `not_same_as` claim blocks only the direct edge: two ids it separates
   still merge through any third id asserted to be the same as both.
   */
  lemma BlockedPairMergesThroughThird(log: seq<Row>, r: Row, s: Row)
    requires r in log && Asserts(log, r) && s in log && Asserts(log, s)
    requires EdgeOf(r).1 == EdgeOf(s).0
    ensures CanonicalOf(log, r.subject) == CanonicalOf(log, s.object_)
  {
    var E := Edges(log);
    assert EdgeOf(r) in E && EdgeOf(s) in E;
    Adjacent(E, EdgeOf(r).0, EdgeOf(r).1);
    Adjacent(E, EdgeOf(s).0, EdgeOf(s).1);
    Transitive(E, EdgeOf(r).0, EdgeOf(r).1, EdgeOf(s).1);
    SameCanonicalIffConnected(log, r.subject, s.object_);
  }

  const MERGED_ANYWAY := [Row("a", "not_same_as", "z", None), Row("a", "same_as", "m", None), Row("m", "same_as", "z", None)]

  /** A log that refuses a pair outright and merges it all the same. */
  lemma RefusedPairIsMerged()
    ensures Refuses(MERGED_ANYWAY, PairKey("a", "z"))
    ensures CanonicalOf(MERGED_ANYWAY, "a") == CanonicalOf(MERGED_ANYWAY, "z")
  {
    var log := MERGED_ANYWAY;
    PlainIds();
    assert log[0] in log && log[1] in log && log[2] in log;
    assert forall r :: r in log ==> r == log[0] || r == log[1] || r == log[2];
    assert EdgeOf(log[0]) == ("a", "z") && EdgeOf(log[1]) == ("a", "m") && EdgeOf(log[2]) == ("m", "z");
    AssertsIff(log, log[1], "a|m");
    AssertsIff(log, log[2], "m|z");
    BlockedPairMergesThroughThird(log, log[1], log[2]);
  }

  /** Without a '|' inside an id, a pair key names its unordered pair. */
  lemma PairKeyNamesThePair(a: Id, b: Id, c: Id, d: Id)
    requires '|' !in a && '|' !in b && '|' !in c && '|' !in d
    ensures PairKey(a, b) == PairKey(c, d) <==> (a == c && b == d) || (a == d && b == c)
  {
    LessTotal(a, b);
    if Less(a, b) { LessAsymmetric(a, b); }
    if PairKey(a, b) == PairKey(c, d) {
      var (x, y) := if Less(b, a) then (b, a) else (a, b);
      var (u, v) := if Less(d, c) then (d, c) else (c, d);
      BarSplits(x, y, u, v);
    }
  }

  lemma {:induction false} BarSplits(x: Id, y: Id, u: Id, v: Id)
    requires '|' !in x && '|' !in u && x + "|" + y == u + "|" + v
    ensures x == u && y == v
  {
    var s, t := x + "|" + y, u + "|" + v;
    assert s[0] == t[0];
    assert s[1..] == if x == [] then y else x[1..] + "|" + y;
    assert t[1..] == if u == [] then v else u[1..] + "|" + v;
    if x != [] && u != [] {
      BarSplits(x[1..], y, u[1..], v);
      assert x == [x[0]] + x[1..] && u == [u[0]] + u[1..];
    }
  }

  /** One id is another with a '|' and more behind it, and the rest makes up for it. */
  ghost predicate Overlaps(x: Id, y: Id, u: Id, v: Id) {
    exists w :: u == x + "|" + w && y == w + "|" + v
  }

  lemma ShorterOverlaps(x: Id, y: Id, u: Id, v: Id)
    requires x + "|" + y == u + "|" + v && |x| < |u|
    ensures Overlaps(x, y, u, v)
  {
    var key := x + "|" + y;
    assert key == u + ("|" + v);
    var w := u[|x| + 1..];
    assert key[..|x|] == x && key[|x|] == '|' && u == key[..|u|];
    assert u == x + "|" + w;
    assert y == key[|x| + 1..];
    assert y == w + "|" + v;
  }

  /** Exactly when two joined pairs read the same. */
  lemma JoinedAlikeIff(x: Id, y: Id, u: Id, v: Id)
    ensures x + "|" + y == u + "|" + v <==> (x == u && y == v) || Overlaps(x, y, u, v) || Overlaps(u, v, x, y)
  {
    var s, t := x + "|" + y, u + "|" + v;
    if s == t {
      if |x| < |u| {
        ShorterOverlaps(x, y, u, v);
      } else if |u| < |x| {
        ShorterOverlaps(u, v, x, y);
      } else {
        assert x == s[..|x|] && u == t[..|u|] && y == s[|x| + 1..] && v == t[|u| + 1..];
      }
    }
    if Overlaps(x, y, u, v) { OverlapJoins(x, y, u, v); }
    if Overlaps(u, v, x, y) { OverlapJoins(u, v, x, y); }
  }

  lemma OverlapJoins(x: Id, y: Id, u: Id, v: Id)
    requires Overlaps(x, y, u, v)
    ensures x + "|" + y == u + "|" + v
  {
    var w :| u == x + "|" + w && y == w + "|" + v;
    assert x + "|" + (w + "|" + v) == x + "|" + w + "|" + v;
  }

  /** Two pairs, each in order, share a key exactly when they are one pair or overlap at a '|' inside an id. */
  lemma PairKeysCollideIff(x: Id, y: Id, u: Id, v: Id)
    requires !Less(y, x) && !Less(v, u)
    ensures PairKey(x, y) == PairKey(u, v) <==> (x == u && y == v) || Overlaps(x, y, u, v) || Overlaps(u, v, x, y)
  {
    JoinedAlikeIff(x, y, u, v);
  }

  const CROSSED := [Row("a|b", "not_same_as", "c", None), Row("a", "same_as", "b|c", None)]

  lemma CrossedKeys()
    ensures PairKey("a|b", "c") == "a|b|c" && PairKey("a", "b|c") == "a|b|c"
    ensures CanonicalizeSubject("a|b") == "a|b" && CanonicalizeSubject("c") == "c"
    ensures CanonicalizeSubject("a") == "a" && CanonicalizeSubject("b|c") == "b|c"
  {
  }

  lemma CrossedHasNoEdge()
    ensures Edges(CROSSED) == {}
  {
    CrossedKeys();
    var refusal := CROSSED[0];
    assert refusal in CROSSED && Refuses(CROSSED, "a|b|c");
    assert EdgeOf(CROSSED[1]) == ("a", "b|c");
    forall r | r in CROSSED ensures !Asserts(CROSSED, r) { assert r == CROSSED[0] || r == CROSSED[1]; }
  }

  /** So a refusal of one pair can keep another apart, which a `same_as` row asserts and no row refuses. */
  lemma RefusalBlocksAnotherPair()
    ensures CanonicalOf(CROSSED, "a") != CanonicalOf(CROSSED, "b|c")
    ensures CROSSED[1].predicate_ == "same_as" && CROSSED[1].subject == "a" && CROSSED[1].object_ == "b|c"
    ensures forall r :: r in CROSSED && r.predicate_ == "not_same_as" ==> r.subject == "a|b" && r.object_ == "c"
  {
    CrossedHasNoEdge();
    CrossedKeys();
    OnlyItself({}, "a", CanonicalOf(CROSSED, "a"));
    OnlyItself({}, "b|c", CanonicalOf(CROSSED, "b|c"));
    assert "not_same_as" != "same_as" && |"not_same_as"| == 11 && |"same_as"| == 7;
  }

  // ----- resolving a log --------------------------------------------------

  ghost function ResolvedRow(log: seq<Row>, row: Row): Row {
    var c := CanonicalOf(log, row.subject);
    if c == row.subject then row else row.(subject := c, originalSubject := Some(row.subject))
  }

  ghost function Resolved(log: seq<Row>): seq<Row> {
    seq(|log|, i requires 0 <= i < |log| => ResolvedRow(log, log[i]))
  }

  lemma RowResolves(log: seq<Row>, row: Row, canonical: Id)
    requires canonical == CanonicalOf(log, row.subject)
    ensures ResolvedRow(log, row)
         == if canonical == row.subject then row else row.(subject := canonical, originalSubject := Some(row.subject))
  {
  }

  lemma Grows<T>(all: seq<T>, i: nat, next: T)
    requires i < |all| && all[i] == next
    ensures all[..i] + [next] == all[..i + 1]
  {
  }

  lemma ResolvedGrows(log: seq<Row>, i: nat, next: Row)
    requires i < |log| && next == ResolvedRow(log, log[i])
    ensures Resolved(log)[..i] + [next] == Resolved(log)[..i + 1]
  {
    Grows(Resolved(log), i, next);
  }

  /** `resolveObservations`. */
  method ResolveObservations(observations: seq<Row>) returns (out: seq<Row>)
    ensures out == Resolved(observations)
  {
    var index := new IdentityIndex(observations);
    out := [];
    ghost var all := Resolved(observations);
    for i := 0 to |observations|
      invariant index.Valid() && fresh(index) && index.log == observations
      invariant out == all[..i]
    {
      var row := observations[i];
      var canonical := index.Canonical(row.subject);
      RowResolves(observations, row, canonical);
      var next := if canonical == row.subject then row
                  else row.(subject := canonical, originalSubject := Some(row.subject));
      ResolvedGrows(observations, i, next);
      out := out + [next];
    }
  }

  /** Canonicalising this id again would leave it as it is. */
  predicate Settled(s: Id) {
    PERSON <= s ==> !DotsHideSpace(s[|PERSON|..])
  }

  lemma CanonicalizeIsIdempotentIff(s: Id)
    ensures CanonicalizeSubject(CanonicalizeSubject(s)) == CanonicalizeSubject(s) <==> Settled(s)
  {
    if PERSON <= s {
      var rest := s[|PERSON|..];
      NormalizeIsIdempotentIff(rest);
      var once := PERSON + NormalizeAddress(rest);
      assert once[|PERSON|..] == NormalizeAddress(rest);
      var twice := PERSON + NormalizeAddress(once[|PERSON|..]);
      assert twice[|PERSON|..] == NormalizeAddress(once[|PERSON|..]);
    }
  }

  /** Rewriting subjects brings no blocked `same_as` row back to life. */
  ghost predicate KeepsRefusals(log: seq<Row>) {
    forall r :: r in log && Asserts(Resolved(log), ResolvedRow(log, r)) ==> Asserts(log, r)
  }

  lemma {:induction false} WalkWithin(E: set<Edge>, F: set<Edge>, w: seq<Id>)
    requires Walk(F, w) && forall e :: e in F ==> Connected(E, e.0, e.1)
    ensures Connected(E, w[0], w[|w| - 1])
  {
    Reflexive(E, w[0]);
    if |w| > 1 {
      var v := w[..|w| - 1];
      assert Walk(F, v) by {
        forall i | 0 <= i < |v| - 1 ensures (v[i], v[i + 1]) in F || (v[i + 1], v[i]) in F {
          assert v[i] == w[i] && v[i + 1] == w[i + 1];
        }
      }
      WalkWithin(E, F, v);
      var a, b := w[|w| - 2], w[|w| - 1];
      var i := |w| - 2;
      assert (w[i], w[i + 1]) in F || (w[i + 1], w[i]) in F;
      if (a, b) in F {
        assert Connected(E, (a, b).0, (a, b).1);
      } else {
        assert Connected(E, (b, a).0, (b, a).1);
        Symmetric(E, b, a);
      }
      Transitive(E, w[0], a, b);
    }
  }

  lemma CanonicalIsSettled(log: seq<Row>, row: Row)
    requires row in log && forall r :: r in log ==> Settled(r.subject) && Settled(r.object_)
    ensures CanonicalizeSubject(CanonicalOf(log, row.subject)) == CanonicalOf(log, row.subject)
  {
    var E, x := Edges(log), CanonicalizeSubject(row.subject);
    var c := CanonicalOf(log, row.subject);
    ConnectedIsAnEnd(E, x, c);
    CanonicalizeIsIdempotentIff(row.subject);
    if c != x {
      var e :| e in E && (c == e.0 || c == e.1);
      var r :| r in log && Asserts(log, r) && EdgeOf(r) == e;
      CanonicalizeIsIdempotentIff(r.subject);
      CanonicalizeIsIdempotentIff(r.object_);
    }
  }

  /** Every edge of the resolved graph stays inside a component of the first. */
  lemma ResolvedEdgesStayInside(log: seq<Row>, e: Edge)
    requires KeepsRefusals(log) && e in Edges(Resolved(log))
    requires forall r :: r in log ==> Settled(r.subject) && Settled(r.object_)
    ensures Connected(Edges(log), e.0, e.1)
  {
    var r := ResolvedOrigin(log, e);
    CanonicalIsSettled(log, r);
    LiveRowConnects(log, r);
  }

  lemma ResolvedOrigin(log: seq<Row>, e: Edge) returns (r: Row)
    requires e in Edges(Resolved(log))
    ensures r in log && Asserts(Resolved(log), ResolvedRow(log, r))
    ensures EdgeOf(ResolvedRow(log, r)) == e
  {
    var r' :| r' in Resolved(log) && Asserts(Resolved(log), r') && EdgeOf(r') == e;
    r := RowBehind(log, r');
  }

  lemma RowBehind(log: seq<Row>, r': Row) returns (r: Row)
    requires r' in Resolved(log)
    ensures r in log && r' == ResolvedRow(log, r)
  {
    var all := Resolved(log);
    var i :| 0 <= i < |all| && all[i] == r';
    r := log[i];
  }

  lemma LiveRowConnects(log: seq<Row>, r: Row)
    requires r in log && Asserts(log, r)
    ensures Connected(Edges(log), CanonicalOf(log, r.subject), CanonicalizeSubject(r.object_))
  {
    var E := Edges(log);
    var (x, y) := EdgeOf(r);
    assert EdgeOf(r) in E;
    Adjacent(E, x, y);
    Symmetric(E, x, CanonicalOf(log, r.subject));
    Transitive(E, CanonicalOf(log, r.subject), x, y);
  }

  /**
   Resolving twice equals resolving once whenever rewriting subjects brings no
   blocked row back to life; a log without `not_same_as` rows always qualifies.
   */
  lemma ResolveIsIdempotent(log: seq<Row>)
    requires KeepsRefusals(log)
    requires forall r :: r in log ==> Settled(r.subject) && Settled(r.object_)
    ensures Resolved(Resolved(log)) == Resolved(log)
  {
    var E, F := Edges(log), Edges(Resolved(log));
    forall i | 0 <= i < |log| ensures Resolved(Resolved(log))[i] == Resolved(log)[i] {
      var c := CanonicalOf(log, log[i].subject);
      CanonicalIsSettled(log, log[i]);
      forall e | e in F ensures Connected(E, e.0, e.1) { ResolvedEdgesStayInside(log, e); }
      Reflexive(F, c);
      forall t | Connected(F, c, t) ensures !Less(t, c) {
        var w :| Walk(F, w) && w[0] == c && w[|w| - 1] == t;
        WalkWithin(E, F, w);
        Transitive(E, CanonicalizeSubject(log[i].subject), c, t);
      }
      LeastIsUnique(F, c, c, c, CanonicalOf(Resolved(log), c));
    }
  }

  lemma LogsWithoutRefusalsQualify(log: seq<Row>)
    requires forall r :: r in log ==> r.predicate_ != "not_same_as" || r.object_ == ""
    ensures KeepsRefusals(log)
  {
  }

  /** A log without `not_same_as` rows is resolved once and for all. */
  lemma LogsWithoutRefusalsSettle(log: seq<Row>)
    requires forall r :: r in log ==> r.predicate_ != "not_same_as" || r.object_ == ""
    requires forall r :: r in log ==> Settled(r.subject) && Settled(r.object_)
    ensures Resolved(Resolved(log)) == Resolved(log)
  {
    LogsWithoutRefusalsQualify(log);
    ResolveIsIdempotent(log);
  }

  // ----- exactly when resolving changes nothing ------------------------------

  function Subjects(log: seq<Row>): set<Id> {
    set r <- log :: r.subject
  }

  /**
   Every component with a subject in it is a star about that subject: no edge
   leads to a smaller id, none leads to another subject, and no two subjects
   share an end.
   */
  predicate Stars(E: set<Edge>, subjects: set<Id>) {
    && (forall e <- E :: !Less(e.1, e.0))
    && (forall e <- E :: e.1 in subjects ==> e.1 == e.0)
    && (forall e <- E, f <- E :: e.1 == f.1 ==> e.0 == f.0)
  }

  /** In a star a walk from its centre never leaves it. */
  lemma {:induction false} StarHoldsWalk(E: set<Edge>, subjects: set<Id>, w: seq<Id>)
    requires Stars(E, subjects) && Walk(E, w) && w[0] in subjects && forall e <- E :: e.0 in subjects
    ensures w[|w| - 1] == w[0] || (w[0], w[|w| - 1]) in E
  {
    if |w| > 1 {
      var v := w[..|w| - 1];
      assert Walk(E, v) by {
        forall i | 0 <= i < |v| - 1 ensures (v[i], v[i + 1]) in E || (v[i + 1], v[i]) in E {
          assert v[i] == w[i] && v[i + 1] == w[i + 1];
        }
      }
      StarHoldsWalk(E, subjects, v);
      LastStep(E, w);
    }
  }

  lemma LastStep(E: set<Edge>, w: seq<Id>)
    requires Walk(E, w) && |w| > 1
    ensures (w[|w| - 2], w[|w| - 1]) in E || (w[|w| - 1], w[|w| - 2]) in E
  {
    var i := |w| - 2;
    assert (w[i], w[i + 1]) in E || (w[i + 1], w[i]) in E;
  }

  lemma CentreIsLeast(E: set<Edge>, subjects: set<Id>, s: Id)
    requires Stars(E, subjects) && s in subjects && forall e <- E :: e.0 in subjects
    ensures IsLeast(E, s, s)
  {
    Reflexive(E, s);
    LessIrreflexive(s);
    forall t | Connected(E, s, t) ensures !Less(t, s) {
      var w :| Walk(E, w) && w[0] == s && w[|w| - 1] == t;
      StarHoldsWalk(E, subjects, w);
      if t != s { assert (s, t) in E; }
    }
  }

  /** Two subjects that are both least cannot be connected. */
  lemma LeastAreApart(E: set<Edge>, s: Id, t: Id)
    requires IsLeast(E, s, s) && IsLeast(E, t, t) && Connected(E, s, t)
    ensures s == t
  {
    Symmetric(E, s, t);
    LessTotal(s, t);
  }

  lemma LeastMakeStars(E: set<Edge>, subjects: set<Id>)
    requires (forall e <- E :: e.0 in subjects) && forall s <- subjects :: IsLeast(E, s, s)
    ensures Stars(E, subjects)
  {
    forall e <- E ensures Connected(E, e.0, e.1) { Adjacent(E, e.0, e.1); }
    forall e <- E | e.1 in subjects ensures e.1 == e.0 { LeastAreApart(E, e.0, e.1); }
    forall e <- E, f <- E | e.1 == f.1 ensures e.0 == f.0 {
      Symmetric(E, f.0, f.1);
      Transitive(E, e.0, e.1, f.0);
      LeastAreApart(E, e.0, f.0);
    }
  }

  lemma KeepsSubjectIff(log: seq<Row>, s: Id)
    requires CanonicalizeSubject(s) == s
    ensures CanonicalOf(log, s) == s <==> IsLeast(Edges(log), s, s)
  {
    Reflexive(Edges(log), s);
    if IsLeast(Edges(log), s, s) { LeastIsUnique(Edges(log), s, s, s, CanonicalOf(log, s)); }
  }

  lemma ResolvesToItselfIff(log: seq<Row>)
    ensures Resolved(log) == log <==> forall r :: r in log ==> CanonicalOf(log, r.subject) == r.subject
  {
    if forall r :: r in log ==> CanonicalOf(log, r.subject) == r.subject {
      forall i | 0 <= i < |log| ensures Resolved(log)[i] == log[i] { RowResolves(log, log[i], log[i].subject); }
    } else {
      var r :| r in log && CanonicalOf(log, r.subject) != r.subject;
      var i :| 0 <= i < |log| && log[i] == r;
      RowResolves(log, r, CanonicalOf(log, r.subject));
      assert Resolved(log)[i].subject != log[i].subject;
    }
  }

  /** A log whose subjects are normal is left alone by resolving exactly when its components are stars. */
  lemma StarsAreLeftAlone(log: seq<Row>)
    requires forall r :: r in log ==> CanonicalizeSubject(r.subject) == r.subject
    ensures Resolved(log) == log <==> Stars(Edges(log), Subjects(log))
  {
    var E, subjects := Edges(log), Subjects(log);
    ResolvesToItselfIff(log);
    forall s <- subjects ensures CanonicalOf(log, s) == s <==> IsLeast(E, s, s) { KeepsSubjectIff(log, s); }
    forall e <- E ensures e.0 in subjects {
      var r :| r in log && Asserts(log, r) && EdgeOf(r) == e;
      assert e.0 == r.subject;
    }
    if Stars(E, subjects) {
      forall s <- subjects ensures IsLeast(E, s, s) { CentreIsLeast(E, subjects, s); }
    }
    if forall s <- subjects :: IsLeast(E, s, s) { LeastMakeStars(E, subjects); }
    assert (forall r :: r in log ==> CanonicalOf(log, r.subject) == r.subject)
      <==> forall s <- subjects :: CanonicalOf(log, s) == s;
  }

  /** Resolving twice equals resolving once exactly when the resolved log is made of stars. */
  lemma ResolveIsIdempotentIff(log: seq<Row>)
    requires forall r :: r in log ==> Settled(r.subject) && Settled(r.object_)
    ensures Resolved(Resolved(log)) == Resolved(log)
       <==> Stars(Edges(Resolved(log)), Subjects(Resolved(log)))
  {
    var once := Resolved(log);
    forall r | r in once ensures CanonicalizeSubject(r.subject) == r.subject {
      var row := RowBehind(log, r);
      CanonicalIsSettled(log, row);
      RowResolves(log, row, CanonicalOf(log, row.subject));
    }
    StarsAreLeftAlone(once);
  }

  const KEPT_APART := [Row("m", "same_as", "a", None), Row("m", "not_same_as", "z", None),
                       Row("z", "same_as", "m", None)]
  const ONCE := [Row("a", "same_as", "a", Some("m")), Row("a", "not_same_as", "z", Some("m")),
                 Row("z", "same_as", "m", None)]

  lemma PlainIds()
    ensures CanonicalizeSubject("m") == "m" && CanonicalizeSubject("a") == "a" && CanonicalizeSubject("z") == "z"
    ensures PairKey("m", "a") == "a|m" == PairKey("a", "m") && PairKey("a", "z") == "a|z"
    ensures PairKey("m", "z") == "m|z" == PairKey("z", "m")
  {
  }

  lemma KeptApartEdges()
    ensures EdgeOf(KEPT_APART[0]) == ("m", "a") && EdgeOf(KEPT_APART[2]) == ("z", "m")
    ensures Refuses(KEPT_APART, "m|z") && !Refuses(KEPT_APART, "a|m")
  {
    var log := KEPT_APART;
    PlainIds();
    assert log[1] in log;
    assert forall r :: r in log ==> r == log[0] || r == log[1] || r == log[2];
    assert EdgeOf(log[0]) == ("m", "a") && EdgeOf(log[1]) == ("m", "z") && EdgeOf(log[2]) == ("z", "m");
  }

  lemma AssertsIff(log: seq<Row>, r: Row, key: string)
    requires r.predicate_ == "same_as" && r.object_ != "" && PairKey(EdgeOf(r).0, EdgeOf(r).1) == key
    ensures Asserts(log, r) <==> !Refuses(log, key)
  {
  }

  lemma KeptApartAsserts()
    ensures Asserts(KEPT_APART, KEPT_APART[0]) && !Asserts(KEPT_APART, KEPT_APART[2])
  {
    KeptApartEdges();
    PlainIds();
    AssertsIff(KEPT_APART, KEPT_APART[0], "a|m");
    AssertsIff(KEPT_APART, KEPT_APART[2], "m|z");
  }

  lemma KeptApartGraph()
    ensures Edges(KEPT_APART) == {("m", "a")}
  {
    var log := KEPT_APART;
    KeptApartEdges();
    KeptApartAsserts();
    OneRowAsserts(log, log[0], log[1], log[2]);
  }

  lemma OnlyFirst(log: seq<Row>, r: Row, s: Row, t: Row, q: Row)
    requires log == [r, s, t] && q in log && Asserts(log, q) && s.predicate_ != "same_as" && !Asserts(log, t)
    ensures q == r
  {
  }

  lemma OneRowAsserts(log: seq<Row>, r: Row, s: Row, t: Row)
    requires log == [r, s, t] && Asserts(log, r) && s.predicate_ != "same_as" && !Asserts(log, t)
    ensures Edges(log) == {EdgeOf(r)}
  {
    assert log[0] == r;
    forall e | e in Edges(log) ensures e == EdgeOf(r) {
      var q :| q in log && Asserts(log, q) && EdgeOf(q) == e;
      OnlyFirst(log, r, s, t, q);
    }
  }

  lemma KeptApartOnce()
    ensures Resolved(KEPT_APART)[0] == ONCE[0]
    ensures Resolved(KEPT_APART)[1] == ONCE[1]
    ensures Resolved(KEPT_APART)[2] == ONCE[2]
  {
    MeetsItsAlias();
    KeepsToItself();
  }

  lemma MeetsItsAlias()
    ensures CanonicalOf(KEPT_APART, "m") == "a"
  {
    KeptApartGraph();
    PlainIds();
    assert Less("a", "m");
    OneEdge({("m", "a")}, "m", "a", CanonicalOf(KEPT_APART, "m"));
  }

  lemma KeepsToItself()
    ensures CanonicalOf(KEPT_APART, "z") == "z"
  {
    KeptApartGraph();
    PlainIds();
    OnlyItself({("m", "a")}, "z", CanonicalOf(KEPT_APART, "z"));
  }

  lemma OneEdge(E: set<Edge>, x: Id, y: Id, r: Id)
    requires E == {(x, y)} && Less(y, x) && IsLeast(E, x, r)
    ensures r == y
  {
    Adjacent(E, x, y);
    ConnectedIsAnEnd(E, x, r);
  }

  lemma OnceGraph()
    ensures ("z", "m") in Edges(ONCE)
  {
    var row := ONCE[2];
    assert row in ONCE;
    assert EdgeOf(row) == ("z", "m") && EdgeOf(ONCE[1]) == ("a", "z");
    assert forall r :: r in ONCE ==> r == ONCE[0] || r == ONCE[1] || r == ONCE[2];
    assert PairKey("a", "z") == "a|z" && PairKey("z", "m") == "m|z";
    assert !Refuses(ONCE, "m|z");
  }

  lemma OnceMovesOn()
    ensures CanonicalOf(ONCE, "z") != "z"
  {
    OnceGraph();
    PlainIds();
    Adjacent(Edges(ONCE), "z", "m");
    assert Less("m", "z");
  }

  /** With a `not_same_as` row the second resolve can merge what was kept apart. */
  lemma ResolveIsNotAlwaysIdempotent()
    ensures Resolved(Resolved(KEPT_APART)) != Resolved(KEPT_APART)
  {
    OnceIsResolved();
    OnceResolvesOn();
  }

  lemma OnceIsResolved()
    ensures Resolved(KEPT_APART) == ONCE
  {
    KeptApartOnce();
    SameThree(Resolved(KEPT_APART), ONCE);
  }

  lemma SameThree(a: seq<Row>, b: seq<Row>)
    requires |a| == |b| == 3 && a[0] == b[0] && a[1] == b[1] && a[2] == b[2]
    ensures a == b
  {
  }

  lemma OnceResolvesOn()
    ensures Resolved(ONCE) != ONCE
  {
    OnceMovesOn();
    ResolvesOn(ONCE, 2, "z");
  }

  lemma ResolvesOn(log: seq<Row>, i: nat, subject: Id)
    requires i < |log| && log[i].subject == subject && CanonicalOf(log, subject) != subject
    ensures Resolved(log) != log
  {
    assert Resolved(log)[i] == ResolvedRow(log, log[i]);
  }

  lemma OnlyItself(E: set<Edge>, x: Id, t: Id)
    requires Connected(E, x, t) && forall e :: e in E ==> e.0 != x && e.1 != x
    ensures t == x
  {
    var w :| Walk(E, w) && w[0] == x && w[|w| - 1] == t;
    if |w| > 1 { FirstStep(E, w); }
  }

  lemma FirstStep(E: set<Edge>, w: seq<Id>)
    requires Walk(E, w) && |w| > 1
    ensures (w[0], w[1]) in E || (w[1], w[0]) in E
  {
    var i := 0;
    assert (w[i], w[i + 1]) in E || (w[i + 1], w[i]) in E;
  }
}
