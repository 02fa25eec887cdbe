/** The scope algebra of the policy engine: path-prefix intersection, intersection with a "*" top,
    and destination patterns.

    The path operations take the normaliser as an argument, so what is proved of them holds for every
    normaliser; the engine runs them with `Paths.Normalize`. */
module PolicyScope {
  import opened Wrappers
  import opened Text
  import opened Paths

  const ANY := "*"

  type Normaliser = string -> Result<string>

  // ----- path prefixes

  function PathWithin(norm: Normaliser, path: string, prefix: string): Result<bool> {
    var p :- norm(path);
    var q :- norm(prefix);
    Ok(Within(p, q))
  }

  /** `any(_path_within(target, prefix) for prefix in prefixes)`: stops at the first hit, and refuses
      when a normalisation it reaches refuses. */
  function AnyWithin(norm: Normaliser, target: string, prefixes: seq<string>): Result<bool> {
    if prefixes == [] then Ok(false)
    else
      var hit :- PathWithin(norm, target, prefixes[0]);
      if hit then Ok(true) else AnyWithin(norm, target, prefixes[1..])
  }

  /** The normalised path `t` lies under one of the prefixes. */
  predicate Admits(norm: Normaliser, t: string, prefixes: seq<string>) {
    exists p :: p in prefixes && norm(p).Ok? && Within(t, norm(p).value)
  }

  predicate AllNormalize(norm: Normaliser, prefixes: seq<string>) {
    forall p :: p in prefixes ==> norm(p).Ok?
  }

  function NormalOf(norm: Normaliser, p: string): string {
    match norm(p)
    case Ok(v) => v
    case Refused => ""
  }

  /** Prefixes whose normal forms are their own normal forms. */
  predicate Settled(norm: Normaliser, prefixes: seq<string>) {
    forall p :: p in prefixes ==> norm(p).Ok? && norm(NormalOf(norm, p)) == Ok(NormalOf(norm, p))
  }

  /** The path is the normal form of a listed prefix. */
  ghost predicate FormIn(norm: Normaliser, p: string, prefixes: seq<string>) {
    exists l :: l in prefixes && NormalOf(norm, l) == p
  }

  /** What one pair contributes. */
  function MeetPair(norm: Normaliser, l: string, r: string): set<string> {
    if Within(NormalOf(norm, l), NormalOf(norm, r)) then {NormalOf(norm, l)}
    else if Within(NormalOf(norm, r), NormalOf(norm, l)) then {NormalOf(norm, r)}
    else {}
  }

  function MeetPaths(norm: Normaliser, current: seq<string>, constraint: seq<string>): set<string> {
    set l, r, x | l in current && r in constraint && x in MeetPair(norm, l, r) :: x
  }

  function PathMeet(norm: Normaliser, current: seq<string>, constraint: seq<string>): Result<seq<string>> {
    if current == [] || constraint == [] then Ok([])
    else if AllNormalize(norm, current) && AllNormalize(norm, constraint)
    then Ok(SortedSet(MeetPaths(norm, current, constraint)))
    else Refused
  }

  lemma MeetPathsSplit(norm: Normaliser, a: seq<string>, l: string, b: seq<string>)
    ensures MeetPaths(norm, a + [l], b) == MeetPaths(norm, a, b) + MeetPaths(norm, [l], b)
  {
  }

  lemma MeetPathsExtend(norm: Normaliser, l: string, b: seq<string>, r: string)
    ensures MeetPaths(norm, [l], b + [r]) == MeetPaths(norm, [l], b) + MeetPair(norm, l, r)
  {
  }

  lemma NothingMeets(norm: Normaliser, prefixes: seq<string>)
    ensures MeetPaths(norm, [], prefixes) == {} && MeetPaths(norm, prefixes, []) == {}
  {
  }

  lemma PairTests(norm: Normaliser, l: string, r: string)
    ensures PathWithin(norm, l, r).Ok? <==> norm(l).Ok? && norm(r).Ok?
    ensures PathWithin(norm, l, r).Ok? ==>
              var inside, outside := PathWithin(norm, l, r).value, PathWithin(norm, r, l);
              outside.Ok? && MeetPair(norm, l, r) ==
                if inside then {NormalOf(norm, l)} else if outside.value then {NormalOf(norm, r)} else {}
  {
  }

  lemma OneMoreNormalizes(norm: Normaliser, prefixes: seq<string>, i: nat)
    requires i < |prefixes|
    ensures prefixes[..i + 1] == prefixes[..i] + [prefixes[i]]
    ensures AllNormalize(norm, prefixes[..i + 1]) <==> AllNormalize(norm, prefixes[..i]) && norm(prefixes[i]).Ok?
  {
    assert forall p :: p in prefixes[..i + 1] <==> p in prefixes[..i] || p == prefixes[i];
  }

  lemma RefusedPair(norm: Normaliser, current: seq<string>, constraint: seq<string>, i: nat, j: nat)
    requires i < |current| && j < |constraint| && PathWithin(norm, current[i], constraint[j]).Refused?
    ensures PathMeet(norm, current, constraint) == Refused
  {
    assert current[i] in current && constraint[j] in constraint;
  }

  /** `_path_intersection`: both loops and the accumulated set. */
  method PathIntersection(norm: Normaliser, current: seq<string>, constraint: seq<string>)
      returns (result: Result<seq<string>>)
    ensures result == PathMeet(norm, current, constraint)
  {
    hide *;
    var found: set<string> := {};
    NothingMeets(norm, constraint);
    NoneNormalize(norm);
    for i := 0 to |current|
      invariant found == MeetPaths(norm, current[..i], constraint)
      invariant constraint != [] ==> AllNormalize(norm, current[..i])
      invariant i > 0 ==> AllNormalize(norm, constraint)
    {
      var left := current[i];
      ghost var before := found;
      NothingMeets(norm, [left]);
      for j := 0 to |constraint|
        invariant found == before + MeetPaths(norm, [left], constraint[..j])
        invariant j > 0 ==> norm(left).Ok?
        invariant AllNormalize(norm, constraint[..j])
      {
        var right := constraint[j];
        OneMoreNormalizes(norm, constraint, j);
        MeetPathsExtend(norm, left, constraint[..j], right);
        PairTests(norm, left, right);
        var inside := PathWithin(norm, left, right);
        if inside.Refused? {
          RefusedPair(norm, current, constraint, i, j);
          return Refused;
        }
        var outside := PathWithin(norm, right, left);
        if inside.value {
          found := found + {NormalOf(norm, left)};
        } else if outside.Ok? && outside.value {
          found := found + {NormalOf(norm, right)};
        }
      }
      assert constraint[..|constraint|] == constraint;
      OneMoreNormalizes(norm, current, i);
      MeetPathsSplit(norm, current[..i], left, constraint);
    }
    assert current[..|current|] == current;
    MeetConcludes(norm, current, constraint);
    result := Ok(SortedSet(found));
  }

  lemma MeetConcludes(norm: Normaliser, current: seq<string>, constraint: seq<string>)
    requires constraint != [] ==> AllNormalize(norm, current)
    requires current != [] ==> AllNormalize(norm, constraint)
    ensures PathMeet(norm, current, constraint) == Ok(SortedSet(MeetPaths(norm, current, constraint)))
  {
    if current == [] || constraint == [] {
      assert MeetPaths(norm, current, constraint) == {};
    }
  }

  lemma NoneNormalize(norm: Normaliser)
    ensures AllNormalize(norm, [])
  {
  }

  /** Intersecting settled prefix lists is exact: the result holds its own normal forms, admits a path
      iff both lists do, and consists of the normal forms of either list that the other list admits. */
  lemma PathMeetExact(norm: Normaliser, a: seq<string>, b: seq<string>)
    requires Settled(norm, a) && Settled(norm, b)
    ensures PathMeet(norm, a, b).Ok?
    ensures var m := PathMeet(norm, a, b).value;
            && Settled(norm, m) && (forall p :: p in m ==> norm(p) == Ok(p))
            && (forall t :: Admits(norm, t, m) <==> Admits(norm, t, a) && Admits(norm, t, b))
            && (forall p :: p in m <==>
                  (FormIn(norm, p, a) && Admits(norm, p, b)) || (FormIn(norm, p, b) && Admits(norm, p, a)))
  {
    var m := PathMeet(norm, a, b).value;
    forall p
      ensures p in m <==> (FormIn(norm, p, a) && Admits(norm, p, b)) || (FormIn(norm, p, b) && Admits(norm, p, a))
    {
      MeetMembers(norm, a, b, p);
    }
    forall p | p in m ensures norm(p) == Ok(p) {
      FormsAreFixed(norm, a, p);
      FormsAreFixed(norm, b, p);
    }
    forall t ensures Admits(norm, t, m) <==> Admits(norm, t, a) && Admits(norm, t, b) {
      MeetAdmits(norm, a, b, m, t);
    }
  }

  lemma FormsAreFixed(norm: Normaliser, prefixes: seq<string>, p: string)
    requires Settled(norm, prefixes)
    ensures FormIn(norm, p, prefixes) ==> norm(p) == Ok(p) && Admits(norm, p, prefixes)
  {
  }

  lemma MeetMembers(norm: Normaliser, a: seq<string>, b: seq<string>, p: string)
    requires AllNormalize(norm, a) && AllNormalize(norm, b)
    ensures PathMeet(norm, a, b).Ok?
    ensures p in PathMeet(norm, a, b).value <==>
            (FormIn(norm, p, a) && Admits(norm, p, b)) || (FormIn(norm, p, b) && Admits(norm, p, a))
  {
    if a != [] && b != [] {
      hide AllNormalize, MeetPaths, FormIn, Admits;
      assert p in PathMeet(norm, a, b).value <==> p in MeetPaths(norm, a, b);
      MetForms(norm, a, b, p);
      FormsMeet(norm, a, b, p);
    }
  }

  lemma MetForms(norm: Normaliser, a: seq<string>, b: seq<string>, p: string)
    requires AllNormalize(norm, a) && AllNormalize(norm, b)
    ensures p in MeetPaths(norm, a, b) ==>
            (FormIn(norm, p, a) && Admits(norm, p, b)) || (FormIn(norm, p, b) && Admits(norm, p, a))
  {
    if p in MeetPaths(norm, a, b) {
      hide Within;
      var l, r :| l in a && r in b && p in MeetPair(norm, l, r);
    }
  }

  lemma FormsMeet(norm: Normaliser, a: seq<string>, b: seq<string>, p: string)
    ensures FormIn(norm, p, a) && Admits(norm, p, b) ==> p in MeetPaths(norm, a, b)
    ensures FormIn(norm, p, b) && Admits(norm, p, a) ==> p in MeetPaths(norm, a, b)
  {
    if FormIn(norm, p, a) && Admits(norm, p, b) {
      hide Within;
      var l, r :| l in a && NormalOf(norm, l) == p && r in b && Within(p, NormalOf(norm, r));
      assert p in MeetPair(norm, l, r);
    }
    if FormIn(norm, p, b) && Admits(norm, p, a) {
      hide Within;
      var r, l :| r in b && NormalOf(norm, r) == p && l in a && Within(p, NormalOf(norm, l));
      if Within(NormalOf(norm, l), p) {
        WithinAntisymmetric(p, NormalOf(norm, l));
      }
      assert p in MeetPair(norm, l, r);
    }
  }

  lemma MeetAdmits(norm: Normaliser, a: seq<string>, b: seq<string>, m: seq<string>, t: string)
    requires AllNormalize(norm, a) && AllNormalize(norm, b) && (forall p :: p in m ==> norm(p) == Ok(p))
    requires forall p ::
               p in m <==> (FormIn(norm, p, a) && Admits(norm, p, b)) || (FormIn(norm, p, b) && Admits(norm, p, a))
    ensures Admits(norm, t, m) <==> Admits(norm, t, a) && Admits(norm, t, b)
  {
    if Admits(norm, t, m) {
      var p :| p in m && Within(t, p);
      FormAdmits(norm, p, t, a);
      FormAdmits(norm, p, t, b);
      AdmitsInherited(norm, t, p, a);
      AdmitsInherited(norm, t, p, b);
    }
    if Admits(norm, t, a) && Admits(norm, t, b) {
      var l :| l in a && norm(l).Ok? && Within(t, norm(l).value);
      var r :| r in b && norm(r).Ok? && Within(t, norm(r).value);
      var lf, rf := NormalOf(norm, l), NormalOf(norm, r);
      WithinComparable(t, lf, rf);
      assert FormIn(norm, lf, a) && FormIn(norm, rf, b);
      assert lf in m || rf in m;
    }
  }

  lemma FormAdmits(norm: Normaliser, p: string, t: string, prefixes: seq<string>)
    requires AllNormalize(norm, prefixes) && Within(t, p)
    ensures FormIn(norm, p, prefixes) ==> Admits(norm, t, prefixes)
  {
  }

  lemma AdmitsInherited(norm: Normaliser, t: string, p: string, prefixes: seq<string>)
    requires Within(t, p)
    ensures Admits(norm, p, prefixes) ==> Admits(norm, t, prefixes)
  {
    if Admits(norm, p, prefixes) {
      var q :| q in prefixes && norm(q).Ok? && Within(p, norm(q).value);
      WithinTransitive(t, p, norm(q).value);
    }
  }

  /** What the engine's test of a target against a prefix list computes. */
  lemma {:induction false} AnyWithinMeaning(norm: Normaliser, target: string, prefixes: seq<string>)
    requires AllNormalize(norm, prefixes)
    ensures AnyWithin(norm, target, prefixes) ==
            if prefixes == [] then Ok(false)
            else match norm(target)
              case Refused => Refused
              case Ok(t) => Ok(Admits(norm, t, prefixes))
  {
    if prefixes != [] {
      assert prefixes[0] in prefixes;
      AnyWithinMeaning(norm, target, prefixes[1..]);
      assert forall p :: p in prefixes <==> p == prefixes[0] || p in prefixes[1..];
    }
  }

  /** Folding a one-prefix list with itself changes what it admits unless the prefix normalises
      to something settled: the exact condition, on one prefix, for the intersection to be a meet. */
  lemma SelfMeetExactIff(norm: Normaliser, p: string)
    requires norm(p).Ok?
    ensures PathMeet(norm, [p], [p]) == Ok([NormalOf(norm, p)])
    ensures (forall t :: Admits(norm, t, [NormalOf(norm, p)]) <==> Admits(norm, t, [p])) <==>
            norm(NormalOf(norm, p)) == Ok(NormalOf(norm, p))
  {
    var q := NormalOf(norm, p);
    assert MeetPair(norm, p, p) == {q};
    assert MeetPaths(norm, [p], [p]) == {q};
    var m := SortedSet({q});
    assert m == [q] by {
      assert Ascending(m);
      assert SortedSet({q} - {q}) == [];
    }
    assert forall t :: Admits(norm, t, [p]) <==> Within(t, q) by {
      forall t ensures Admits(norm, t, [p]) <==> Within(t, q) {
        assert p in [p];
      }
    }
    forall t ensures Admits(norm, t, [q]) <==> norm(q).Ok? && Within(t, NormalOf(norm, q)) {
      assert q in [q];
    }
    if norm(q) != Ok(q) {
      assert Within(q, q);
      if norm(q).Ok? {
        var r := NormalOf(norm, q);
        if Admits(norm, r, [p]) && Admits(norm, q, [q]) {
          WithinAntisymmetric(r, q);
        }
        assert Within(r, r);
      }
    }
  }

  // ----- the intersection with a "*" top

  /** `_intersection`. */
  function Meet(current: seq<string>, constraint: seq<string>): seq<string> {
    if constraint == [] then []
    else if ANY in current then SortedSet(Elements(constraint))
    else if ANY in constraint then SortedSet(Elements(current))
    else SortedSet(Elements(current) * Elements(constraint))
  }

  /** The list names `x` or everything. */
  predicate Holds(x: string, items: seq<string>) {
    ANY in items || x in items
  }

  /** The intersection is the meet of what the two lists name, with "*" as the top. */
  lemma MeetIsMeet(x: string, a: seq<string>, b: seq<string>)
    ensures Holds(x, Meet(a, b)) <==> Holds(x, a) && Holds(x, b)
    ensures ANY in Meet(a, b) <==> ANY in a && ANY in b
    ensures ANY !in a ==> (x in Meet(a, b) <==> x in a && Holds(x, b))
  {
  }

  // ----- leases: the test takes "*" literally

  function MaxLength(items: seq<string>): (n: nat)
    ensures forall x :: x in items ==> |x| <= n
  {
    if items == [] then 0
    else
      var m := MaxLength(items[1..]);
      if |items[0]| > m then |items[0]| else m
  }

  /** No constraint adds a lease to the base list exactly when the base list does not hold the literal
      "*": then intersection only removes, otherwise some constraint smuggles in an unlisted lease. */
  lemma LeaseCeilingIff(base: seq<string>)
    ensures (forall constraint, x :: x in Meet(base, constraint) ==> x in base) <==> ANY !in base
  {
    if ANY in base {
      var n := MaxLength(base) + 1;
      var unlisted := seq(n, _ => 'x');
      assert unlisted !in base;
      assert unlisted in Meet(base, [unlisted]) by {
        assert unlisted in Elements([unlisted]);
      }
    }
  }

  // ----- destinations

  /** `strip().lower().rstrip(".")` of a host or a pattern. */
  function HostForm(host: string): string {
    RStripChar(Lower(Strip(host)), '.')
  }

  predicate MatchesForm(value: string, pattern: string) {
    || pattern == ANY
    || ("*." <= pattern && (value == pattern[2..] || EndsWith(value, pattern[1..])))
    || value == pattern
  }

  /** `_destination_allowed`. */
  predicate DestinationAllowed(host: string, allowed: seq<string>) {
    exists item :: item in allowed && MatchesForm(HostForm(host), HostForm(item))
  }

  /** A list that names less admits fewer hosts. */
  lemma FewerNamesFewerHosts(host: string, fewer: seq<string>, more: seq<string>)
    requires forall x :: Holds(x, fewer) ==> Holds(x, more)
    requires DestinationAllowed(host, fewer)
    ensures DestinationAllowed(host, more)
  {
    var item :| item in fewer && MatchesForm(HostForm(host), HostForm(item));
    assert Holds(item, fewer);
    if item !in more {
      assert ANY in more;
      AnyForm();
      assert MatchesForm(HostForm(host), HostForm(ANY));
    }
  }

  lemma AnyForm()
    ensures HostForm(ANY) == ANY
  {
    assert StripLeft("*") == "*";
    assert Lower("*") == "*";
  }

  /** Intersecting destination lists never admits a host that either list refuses. */
  lemma MeetNarrowsHosts(host: string, a: seq<string>, b: seq<string>)
    requires DestinationAllowed(host, Meet(a, b))
    ensures DestinationAllowed(host, a) && DestinationAllowed(host, b)
  {
    forall x ensures Holds(x, Meet(a, b)) ==> Holds(x, a) && Holds(x, b) {
      MeetIsMeet(x, a, b);
    }
    FewerNamesFewerHosts(host, Meet(a, b), a);
    FewerNamesFewerHosts(host, Meet(a, b), b);
  }

  /** A wildcard pattern whose remainder is again a wildcard, such as "*.*" or "*.*.example". */
  predicate NestedWildcard(pattern: string) {
    "*." <= pattern && (pattern[2..] == ANY || "*." <= pattern[2..])
  }

  // ----- when the intersection of pattern lists is exact on hosts

  lemma DottedTail(v: string, s: string)
    requires s != "" && s[0] == '.' && (v == s[1..] || EndsWith(v, s))
    ensures EndsWith("." + v, s)
  {
    var w := "." + v;
    if v == s[1..] {
      assert w == s && w[|w| - |s|..] == s;
    } else {
      assert w[|w| - |s|..] == v[|v| - |s|..];
    }
  }

  lemma TailsNest(w: string, s: string, t: string)
    requires EndsWith(w, s) && EndsWith(w, t) && |s| >= |t|
    ensures EndsWith("*" + s, t)
  {
    assert s[|s| - |t|..] == w[|w| - |s|..][|s| - |t|..] == w[|w| - |t|..];
    assert ("*" + s)[|s| + 1 - |t|..] == s[|s| - |t|..];
  }

  /** Of two patterns that match one value one, read as a value, is matched by the other. */
  lemma FormsComparable(v: string, p: string, q: string)
    requires MatchesForm(v, p) && MatchesForm(v, q)
    ensures MatchesForm(p, q) || MatchesForm(q, p)
  {
    if "*." <= p && "*." <= q && p != ANY && q != ANY && v != p && v != q {
      var s, t := p[1..], q[1..];
      assert p == "*" + s && q == "*" + t && s[1..] == p[2..] && t[1..] == q[2..];
      DottedTail(v, s);
      DottedTail(v, t);
      hide EndsWith;
      if |s| >= |t| {
        TailsNest("." + v, s, t);
      } else {
        TailsNest("." + v, t, s);
      }
    }
  }

  /** Every pattern, read as a host, is admitted by the lists that hold it. */
  lemma AdmitsItself(p: string, items: seq<string>)
    ensures p in items ==> DestinationAllowed(p, items)
  {
    hide HostForm;
  }

  /** Each listed pattern, read as a host, that the other list admits is admitted by the intersection. */
  ghost predicate KeepsAdmitted(a: seq<string>, b: seq<string>) {
    && (forall p :: p in a && DestinationAllowed(p, b) ==> DestinationAllowed(p, Meet(a, b)))
    && (forall p :: p in b && DestinationAllowed(p, a) ==> DestinationAllowed(p, Meet(a, b)))
  }

  ghost predicate ExactOnHosts(a: seq<string>, b: seq<string>) {
    forall h :: DestinationAllowed(h, Meet(a, b)) <==> DestinationAllowed(h, a) && DestinationAllowed(h, b)
  }

  /** Intersecting pattern lists without nested wildcards admits exactly the hosts both lists admit if and
      only if it keeps what the lists admit of each other. */
  lemma MeetExactOnHostsIff(a: seq<string>, b: seq<string>)
    requires forall p :: p in a || p in b ==> !NestedWildcard(HostForm(p))
    ensures ExactOnHosts(a, b) <==> KeepsAdmitted(a, b)
  {
    hide DestinationAllowed, HostForm, NestedWildcard, Meet;
    if ExactOnHosts(a, b) {
      forall p ensures (p in a ==> DestinationAllowed(p, a)) && (p in b ==> DestinationAllowed(p, b)) {
        AdmitsItself(p, a);
        AdmitsItself(p, b);
      }
    }
    if KeepsAdmitted(a, b) {
      forall h ensures DestinationAllowed(h, Meet(a, b)) <==> DestinationAllowed(h, a) && DestinationAllowed(h, b) {
        if DestinationAllowed(h, Meet(a, b)) {
          MeetNarrowsHosts(h, a, b);
        } else {
          BothAdmit(h, a, b);
        }
      }
    }
  }

  lemma BothAdmit(h: string, a: seq<string>, b: seq<string>)
    requires forall p :: p in a || p in b ==> !NestedWildcard(HostForm(p))
    requires KeepsAdmitted(a, b)
    ensures DestinationAllowed(h, a) && DestinationAllowed(h, b) ==> DestinationAllowed(h, Meet(a, b))
  {
    hide HostForm, MatchesForm, NestedWildcard, Meet;
    if DestinationAllowed(h, a) && DestinationAllowed(h, b) {
      var p :| p in a && MatchesForm(HostForm(h), HostForm(p));
      var q :| q in b && MatchesForm(HostForm(h), HostForm(q));
      FormsComparable(HostForm(h), HostForm(p), HostForm(q));
      var narrow := if MatchesForm(HostForm(p), HostForm(q)) then p else q;
      assert DestinationAllowed(narrow, Meet(a, b));
      var z :| z in Meet(a, b) && MatchesForm(HostForm(narrow), HostForm(z));
      MeetListed(z, a, b);
      RestoredFormStaysUnder(HostForm(narrow), HostForm(z), HostForm(h));
    }
  }

  lemma MeetListed(z: string, a: seq<string>, b: seq<string>)
    ensures z in Meet(a, b) ==> z in a || z in b
  {
  }

  /** Everything the admitted value `v`, read as a pattern, matches is matched by `pattern` already. */
  lemma RestoredFormStaysUnder(v: string, pattern: string, h: string)
    requires !NestedWildcard(pattern) && MatchesForm(v, pattern) && MatchesForm(h, v)
    ensures MatchesForm(h, pattern)
  {
    if pattern != ANY && "*." <= pattern && EndsWith(v, pattern[1..]) {
      var dotted := pattern[1..];
      assert dotted[0] == '.';
      if v == ANY {
        assert v[|v| - |dotted|..][0] == '.';
      } else if "*." <= v && h != v {
        assert |v| > |dotted|;
        assert EndsWith(v[1..], dotted) by {
          assert v[1..][|v| - 1 - |dotted|..] == v[|v| - |dotted|..];
        }
        if h == v[2..] {
          if |v| - 1 == |dotted| {
            assert v[1..] == dotted;
            assert pattern[2..] == v[2..];
          } else {
            assert v[2..][|v| - 2 - |dotted|..] == v[|v| - |dotted|..];
          }
        } else {
          EndsWithTransitive(h, v[1..], dotted);
        }
      }
    }
  }

  lemma EndsWithTransitive(a: string, b: string, c: string)
    requires EndsWith(a, b) && EndsWith(b, c)
    ensures EndsWith(a, c)
  {
    assert a[|a| - |c|..] == a[|a| - |b|..][|b| - |c|..];
  }

  lemma LowerStrip(s: string)
    ensures Strip(Lower(s)) == Lower(Strip(s))
  {
    LowerStripLeft(s);
    LowerStripRight(StripLeft(s));
  }

  lemma LowerKeepsSpace(c: char)
    ensures IsSpace(LowerChar(c)) <==> IsSpace(c)
  {
  }

  lemma {:induction false} LowerStripLeft(s: string)
    ensures StripLeft(Lower(s)) == Lower(StripLeft(s))
  {
    hide IsSpace;
    if s != "" {
      LowerKeepsSpace(s[0]);
      LowerStripLeft(s[1..]);
      assert Lower(s)[1..] == Lower(s[1..]);
    }
  }

  lemma {:induction false} LowerStripRight(s: string)
    ensures StripRight(Lower(s)) == Lower(StripRight(s))
  {
    hide IsSpace;
    if s != "" {
      LowerKeepsSpace(s[|s| - 1]);
      LowerStripRight(s[..|s| - 1]);
      assert Lower(s)[..|s| - 1] == Lower(s[..|s| - 1]);
    }
  }

  /** A widening stores `host.lower()`; as a pattern that has the form the host had. */
  lemma StoredForm(host: string)
    ensures HostForm(Lower(host)) == HostForm(host)
  {
    LowerStrip(host);
    LowerIdempotent(Strip(host));
  }

  /** A restored host, read as the pattern it is stored as, admits nothing the base refuses. */
  lemma RestoredHostStaysUnder(restored: string, base: seq<string>, host: string)
    requires forall item :: item in base ==> !NestedWildcard(HostForm(item))
    requires DestinationAllowed(restored, base) && DestinationAllowed(host, [Lower(restored)])
    ensures DestinationAllowed(host, base)
  {
    hide HostForm, MatchesForm, NestedWildcard;
    StoredForm(restored);
    var item :| item in base && MatchesForm(HostForm(restored), HostForm(item));
    RestoredFormStaysUnder(HostForm(restored), HostForm(item), HostForm(host));
  }

  lemma FormOfDotted(v: string)
    requires v != "" && !IsSpace(v[0]) && Lower(v) == v && v[|v| - 1] != '.'
    ensures HostForm(v + ".") == v && Strip(v + ".") == v + "."
  {
    var s := v + ".";
    assert Trimmed(s);
    StripFixed(s);
    assert Lower(s) == s;
    var r := RStripChar(s, '.');
    assert s[|v| - 1] == v[|v| - 1];
    assert s[|v|] == '.';
  }

  lemma FormShape(item: string)
    ensures Lower(HostForm(item)) == HostForm(item)
    ensures HostForm(item) != "" ==> HostForm(item)[|HostForm(item)| - 1] != '.'
  {
    LowerIdempotent(Strip(item));
  }

  /** Some text that a wildcard pattern with this remainder admits and the pattern before it does not. */
  function EscapedForm(l: string): string
    requires l != ""
  {
    if l == ANY then "a" else "a" + l[1..]
  }

  lemma EscapedForms(p: string)
    requires NestedWildcard(p) && Lower(p) == p && p[|p| - 1] != '.'
    ensures var l := p[2..]; var h := EscapedForm(l);
            && Lower(l) == l && l != "" && l[0] == '*' && l[|l| - 1] != '.' && MatchesForm(l, p)
            && Lower(h) == h && h != "" && h[0] == 'a' && h[|h| - 1] != '.' && MatchesForm(h, l) && !MatchesForm(h, p)
  {
    var l := p[2..];
    var h := EscapedForm(l);
    assert l[|l| - 1] == p[|p| - 1];
    assert l != ANY ==> h[|h| - 1] == l[|l| - 1] && h[|h| - |l[1..]|..] == l[1..];
    assert h[0] == 'a' && l[0] == '*' && p[0] == '*';
  }

  /** A nested wildcard lets a widening climb above the base: restoring what it admits admits more. */
  lemma NestedWildcardEscapes(item: string) returns (restored: string, host: string)
    requires NestedWildcard(HostForm(item))
    ensures Strip(restored) == restored && restored != "" && DestinationAllowed(restored, [item])
    ensures DestinationAllowed(host, [Lower(restored)]) && !DestinationAllowed(host, [item])
  {
    hide HostForm, MatchesForm, NestedWildcard, DestinationAllowed, Strip, Lower, IsSpace, EscapedForm;
    var p := HostForm(item);
    FormShape(item);
    NestedStart(p);
    EscapedForms(p);
    var l, h := p[2..], EscapedForm(p[2..]);
    NoSpaces();
    FormOfDotted(l);
    FormOfDotted(h);
    restored, host := l + ".", h + ".";
    StoredForm(restored);
    OnePattern(restored, item);
    OnePattern(host, item);
    OnePattern(host, Lower(restored));
  }

  lemma NoSpaces()
    ensures !IsSpace('*') && !IsSpace('a')
  {
  }

  lemma OnePattern(host: string, item: string)
    ensures DestinationAllowed(host, [item]) <==> MatchesForm(HostForm(host), HostForm(item))
  {
    hide MatchesForm, HostForm;
    assert item in [item];
  }

  lemma NestedStart(p: string)
    requires NestedWildcard(p)
    ensures |p| > 2
  {
  }

  /** For one base pattern, widening stays under it for every restored host exactly when the pattern
      is not a nested wildcard. */
  lemma HostCeilingIff(item: string)
    ensures (forall restored, host ::
               DestinationAllowed(restored, [item]) && DestinationAllowed(host, [Lower(restored)]) ==>
                 DestinationAllowed(host, [item]))
       <==> !NestedWildcard(HostForm(item))
  {
    hide HostForm, DestinationAllowed, NestedWildcard;
    if NestedWildcard(HostForm(item)) {
      var restored, host := NestedWildcardEscapes(item);
    } else {
      forall restored, host | DestinationAllowed(restored, [item]) && DestinationAllowed(host, [Lower(restored)])
        ensures DestinationAllowed(host, [item])
      {
        RestoredHostStaysUnder(restored, [item], host);
      }
    }
  }
}
