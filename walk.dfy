/**
 * The three outer foreach loops of AssemblyPostProcessor.ProcessAssembly:
 * modules, then their top-level types, then each type's methods, woven one
 * after another. An exception thrown while weaving one method leaves the
 * loops at once; the methods visited before it stay woven.
 *
 * The walk is specified by a sequential reference semantics over the list of
 * visited methods (`VisitOutcome`, `VisitStates`), and the lemmas below say
 * what that semantics means pointwise.
 */
module Walk {
  import opened Cecil
  import opened Weaver

  // ---------------------------------------------------------------------------
  // The reference semantics of visiting a list of sites.

  /** Weaving `site` in state `s` throws. */
  predicate FailsAt(site: Site, s: MethodState)
  {
    Fails(site.methodDefinition.hasBody, s)
  }

  /** Running one visit after another: a throw ends the run, otherwise the flags are or-ed. */
  function Then(first: Outcome, second: Outcome): Outcome
  {
    match first
    case Threw(_) => first
    case Returned(x) =>
      match second
      case Threw(_) => second
      case Returned(y) => Returned(x || y)
  }

  /** The outcome of visiting `sites`, whose methods start in states `s0`, one after another. */
  function VisitOutcome(sites: seq<Site>, s0: seq<MethodState>): Outcome
    requires |s0| == |sites|
  {
    if sites == [] then Returned(false)
    else if FailsAt(sites[0], s0[0]) then Threw(ExceptionFor(sites[0].methodDefinition.hasBody))
    else Then(Returned(Marked(s0[0])), VisitOutcome(sites[1..], s0[1..]))
  }

  /**
   * Visiting `sites` takes states `s0` to states `s1`: each site is woven in
   * turn, and the first one that throws is left as it is, along with every site
   * after it.
   */
  predicate VisitStates(sites: seq<Site>, s0: seq<MethodState>, s1: seq<MethodState>)
    requires |s0| == |sites| && |s1| == |sites|
  {
    if sites == [] then true
    else if FailsAt(sites[0], s0[0]) then s1 == s0
    else Woven(sites[0], s0[0], s1[0]) && VisitStates(sites[1..], s0[1..], s1[1..])
  }

  /** Visiting `sites` takes states `s0` to `s1` and ends in `outcome`. */
  predicate Effect(sites: seq<Site>, s0: seq<MethodState>, s1: seq<MethodState>, outcome: Outcome)
  {
    && |s0| == |sites| && |s1| == |sites|
    && outcome == VisitOutcome(sites, s0)
    && VisitStates(sites, s0, s1)
  }

  /** Some method among states `s` carries a marker. */
  predicate AnyMarked(s: seq<MethodState>)
  {
    exists k | 0 <= k < |s| :: Marked(s[k])
  }

  lemma ThenAssociative(p: Outcome, q: Outcome, r: Outcome)
    ensures Then(Then(p, q), r) == Then(p, Then(q, r))
  {
  }

  lemma {:induction false} VisitOutcomeAppend(a: seq<Site>, b: seq<Site>, a0: seq<MethodState>, b0: seq<MethodState>)
    requires |a0| == |a| && |b0| == |b|
    ensures VisitOutcome(a + b, a0 + b0) == Then(VisitOutcome(a, a0), VisitOutcome(b, b0))
  {
    if a == [] {
      assert a + b == b && a0 + b0 == b0;
    } else {
      ConsAppend(a, b);
      ConsAppend(a0, b0);
      VisitOutcomeAppend(a[1..], b, a0[1..], b0);
      ThenAssociative(Returned(Marked(a0[0])), VisitOutcome(a[1..], a0[1..]), VisitOutcome(b, b0));
    }
  }

  /** The head and tail of a concatenation whose first part is not empty. */
  lemma ConsAppend<T>(a: seq<T>, b: seq<T>)
    requires a != []
    ensures (a + b)[0] == a[0] && (a + b)[1..] == a[1..] + b
  {
  }

  lemma {:induction false} VisitStatesAppend(a: seq<Site>, b: seq<Site>, a0: seq<MethodState>, b0: seq<MethodState>,
                                             a1: seq<MethodState>, b1: seq<MethodState>)
    requires |a0| == |a| && |a1| == |a| && |b0| == |b| && |b1| == |b|
    requires VisitStates(a, a0, a1) && VisitOutcome(a, a0).Returned?
    requires VisitStates(b, b0, b1)
    ensures VisitStates(a + b, a0 + b0, a1 + b1)
  {
    if a == [] {
      assert a + b == b && a0 + b0 == b0 && a1 + b1 == b1;
    } else {
      ConsAppend(a, b);
      ConsAppend(a0, b0);
      ConsAppend(a1, b1);
      VisitStatesAppend(a[1..], b, a0[1..], b0, a1[1..], b1);
    }
  }

  lemma {:induction false} VisitStatesStop(a: seq<Site>, b: seq<Site>, a0: seq<MethodState>, b0: seq<MethodState>,
                                           a1: seq<MethodState>)
    requires |a0| == |a| && |a1| == |a| && |b0| == |b|
    requires VisitStates(a, a0, a1) && VisitOutcome(a, a0).Threw?
    ensures VisitStates(a + b, a0 + b0, a1 + b0)
  {
    ConsAppend(a, b);
    ConsAppend(a0, b0);
    ConsAppend(a1, b0);
    if !FailsAt(a[0], a0[0]) {
      VisitStatesStop(a[1..], b, a0[1..], b0, a1[1..]);
    }
  }

  /** Visiting `a` and then `b` has the effect of visiting `a + b`. */
  lemma EffectAppend(a: seq<Site>, b: seq<Site>, a0: seq<MethodState>, b0: seq<MethodState>,
                     a1: seq<MethodState>, b1: seq<MethodState>, oa: Outcome, ob: Outcome)
    requires Effect(a, a0, a1, oa) && oa.Returned?
    requires Effect(b, b0, b1, ob)
    ensures Effect(a + b, a0 + b0, a1 + b1, Then(oa, ob))
  {
    VisitOutcomeAppend(a, b, a0, b0);
    VisitStatesAppend(a, b, a0, b0, a1, b1);
  }

  /** A visit that throws leaves every later site untouched. */
  lemma EffectStop(a: seq<Site>, b: seq<Site>, a0: seq<MethodState>, b0: seq<MethodState>,
                   a1: seq<MethodState>, oa: Outcome)
    requires Effect(a, a0, a1, oa) && oa.Threw?
    requires |b0| == |b|
    ensures Effect(a + b, a0 + b0, a1 + b0, oa)
  {
    VisitOutcomeAppend(a, b, a0, b0);
    VisitStatesStop(a, b, a0, b0, a1);
  }

  /**
   * One step of a walk: the part done so far returned, and the next block was
   * visited. Together they are the visit of `done + block`; and if the block
   * threw, the walk ends there, with the rest untouched.
   */
  lemma Step(done: seq<Site>, block: seq<Site>, rest: seq<Site>,
             d0: seq<MethodState>, b0: seq<MethodState>, r0: seq<MethodState>,
             d1: seq<MethodState>, b1: seq<MethodState>, wasProcessed: bool, ob: Outcome)
    requires Effect(done, d0, d1, Returned(wasProcessed))
    requires Effect(block, b0, b1, ob)
    requires |r0| == |rest|
    ensures ob.Returned? ==> Effect(done + block, d0 + b0, d1 + b1, Returned(wasProcessed || ob.wasProcessed))
    ensures ob.Threw? ==> Effect(done + (block + rest), d0 + (b0 + r0), d1 + (b1 + r0), ob)
  {
    if ob.Returned? {
      EffectAppend(done, block, d0, b0, d1, b1, Returned(wasProcessed), ob);
    } else {
      EffectStop(block, rest, b0, r0, b1, ob);
      EffectAppend(done, block + rest, d0, b0 + r0, d1, b1 + r0, Returned(wasProcessed), ob);
    }
  }

  /** The contract of ProcessMethod is the effect of visiting its one site. */
  lemma EffectOfMethod(site: Site, s0: MethodState, s1: MethodState, outcome: Outcome)
    requires outcome.Threw? <==> FailsAt(site, s0)
    requires outcome.Threw? ==> s1 == s0 && outcome.exception == ExceptionFor(site.methodDefinition.hasBody)
    requires outcome.Returned? ==> outcome.wasProcessed == Marked(s0) && Woven(site, s0, s1)
    ensures Effect([site], [s0], [s1], outcome)
  {
    assert [site][1..] == [] && [s0][1..] == [] && [s1][1..] == [];
  }

  /**
   * The visit stopped at site `f`, which threw: the sites before it did not
   * throw and were woven; it and every site after it are untouched.
   */
  predicate StoppedAt(sites: seq<Site>, s0: seq<MethodState>, s1: seq<MethodState>, f: nat)
    requires |s0| == |sites| && |s1| == |sites|
  {
    && f < |sites| && FailsAt(sites[f], s0[f])
    && (forall k | 0 <= k < f :: !FailsAt(sites[k], s0[k]) && Woven(sites[k], s0[k], s1[k]))
    && (forall k | f <= k < |sites| :: s1[k] == s0[k])
  }

  /**
   * A visit throws exactly when weaving one of its sites throws; when it
   * returns, the result says whether any of its methods carried a marker.
   */
  lemma {:induction false} VisitOutcomeMeaning(sites: seq<Site>, s0: seq<MethodState>)
    requires |s0| == |sites|
    ensures VisitOutcome(sites, s0).Threw? <==> exists k | 0 <= k < |sites| :: FailsAt(sites[k], s0[k])
    ensures VisitOutcome(sites, s0).Returned? ==> (VisitOutcome(sites, s0).wasProcessed <==> AnyMarked(s0))
  {
    if sites != [] && !FailsAt(sites[0], s0[0]) {
      VisitOutcomeMeaning(sites[1..], s0[1..]);
      if exists k | 0 <= k < |sites| :: FailsAt(sites[k], s0[k]) {
        var k :| 0 <= k < |sites| && FailsAt(sites[k], s0[k]);
        assert FailsAt(sites[1..][k - 1], s0[1..][k - 1]);
      }
      if AnyMarked(s0) && !Marked(s0[0]) {
        var k :| 0 <= k < |s0| && Marked(s0[k]);
        assert Marked(s0[1..][k - 1]);
      }
    }
  }

  /**
   * What a visit does to the states: when it returns, every site was woven;
   * when it throws, it stopped at the first site that throws, and that site
   * decides the exception.
   */
  lemma {:induction false} VisitStatesMeaning(sites: seq<Site>, s0: seq<MethodState>, s1: seq<MethodState>)
    requires |s0| == |sites| && |s1| == |sites|
    requires VisitStates(sites, s0, s1)
    ensures VisitOutcome(sites, s0).Returned? ==> forall k | 0 <= k < |sites| :: Woven(sites[k], s0[k], s1[k])
    ensures VisitOutcome(sites, s0).Threw? ==>
      exists f: nat | StoppedAt(sites, s0, s1, f) ::
        VisitOutcome(sites, s0).exception == ExceptionFor(sites[f].methodDefinition.hasBody)
  {
    if sites == [] {
    } else if FailsAt(sites[0], s0[0]) {
      assert StoppedAt(sites, s0, s1, 0);
    } else {
      VisitStatesMeaning(sites[1..], s0[1..], s1[1..]);
      if VisitOutcome(sites, s0).Threw? {
        var f: nat :| StoppedAt(sites[1..], s0[1..], s1[1..], f)
          && VisitOutcome(sites[1..], s0[1..]).exception == ExceptionFor(sites[1..][f].methodDefinition.hasBody);
        assert StoppedAt(sites, s0, s1, f + 1);
      }
    }
  }

  /** A visit of methods none of which is marked returns false, and it changes nothing. */
  lemma {:induction false} UnmarkedVisit(sites: seq<Site>, s: seq<MethodState>, s2: seq<MethodState>)
    requires |s| == |sites| && |s2| == |sites|
    requires forall k | 0 <= k < |s| :: !Marked(s[k])
    ensures VisitOutcome(sites, s) == Returned(false)
    ensures VisitStates(sites, s, s2) <==> s2 == s
  {
    if sites != [] {
      assert !Marked(s[0]);
      assert forall k | 0 <= k < |s| - 1 :: s[1..][k] == s[k + 1];
      UnmarkedVisit(sites[1..], s[1..], s2[1..]);
      assert s == [s[0]] + s[1..] && s2 == [s2[0]] + s2[1..];
    }
  }

  /**
   * Running the weaver again on its own output, when no method carried more
   * than one marker: the second run returns false and changes nothing.
   */
  lemma RerunIsNoOp(sites: seq<Site>, s0: seq<MethodState>, s1: seq<MethodState>, wasProcessed: bool,
                    s2: seq<MethodState>, outcome: Outcome)
    requires Effect(sites, s0, s1, Returned(wasProcessed))
    requires forall k | 0 <= k < |s0| :: LogAttributeCount(s0[k].customAttributes) <= 1
    ensures Effect(sites, s1, s2, outcome) <==> s2 == s1 && outcome == Returned(false)
  {
    VisitStatesMeaning(sites, s0, s1);
    forall k | 0 <= k < |s1|
      ensures !Marked(s1[k])
    {
      WovenCount(sites[k], s0[k], s1[k]);
    }
    if |s2| == |sites| {
      UnmarkedVisit(sites, s1, s2);
    }
  }

  // ---------------------------------------------------------------------------
  // The walk over an assembly: modules, their top-level types, their methods.

  /** The sites of the methods `methods` of the type named `typeFullName`, in order. */
  function MethodSites(methods: seq<MethodDefinition>, typeFullName: string, log: MethodReference): (r: seq<Site>)
    ensures |r| == |methods|
  {
    if methods == [] then [] else [Site(methods[0], typeFullName, log)] + MethodSites(methods[1..], typeFullName, log)
  }

  lemma {:induction false} MethodSitesAt(methods: seq<MethodDefinition>, typeFullName: string, log: MethodReference, k: nat)
    requires k < |methods|
    ensures MethodSites(methods, typeFullName, log)[k] == Site(methods[k], typeFullName, log)
  {
    if k > 0 {
      MethodSitesAt(methods[1..], typeFullName, log, k - 1);
    }
  }

  function TypeSites(md: ModuleDefinition, t: TypeDefinition): seq<Site>
  {
    MethodSites(t.methods, t.fullName, ImportLogMethod(md))
  }

  /** The sites of the listed types of module `md`, type after type; nested types are not visited. */
  function TypesSites(md: ModuleDefinition, types: seq<TypeDefinition>): seq<Site>
  {
    if types == [] then [] else TypeSites(md, types[0]) + TypesSites(md, types[1..])
  }

  function ModuleSites(md: ModuleDefinition): seq<Site>
  {
    TypesSites(md, md.types)
  }

  function ModulesSites(modules: seq<ModuleDefinition>): seq<Site>
  {
    if modules == [] then [] else ModuleSites(modules[0]) + ModulesSites(modules[1..])
  }

  /** Every method of every top-level type of every module of `a`, in the order the weaver visits them. */
  function AssemblySites(a: AssemblyDefinition): seq<Site>
  {
    ModulesSites(a.modules)
  }

  lemma {:induction false} TypesSitesAppend(md: ModuleDefinition, x: seq<TypeDefinition>, y: seq<TypeDefinition>)
    ensures TypesSites(md, x + y) == TypesSites(md, x) + TypesSites(md, y)
  {
    if x == [] {
      assert x + y == y;
    } else {
      assert (x + y)[1..] == x[1..] + y;
      TypesSitesAppend(md, x[1..], y);
    }
  }

  /** One step of the walk over types: the type at `j` moves from the rest to the part done. */
  lemma TypesSitesStep(md: ModuleDefinition, types: seq<TypeDefinition>, j: nat)
    requires j < |types|
    ensures TypesSites(md, types[..j + 1]) == TypesSites(md, types[..j]) + TypeSites(md, types[j])
    ensures TypesSites(md, types[j..]) == TypeSites(md, types[j]) + TypesSites(md, types[j + 1..])
  {
    assert types[..j + 1] == types[..j] + [types[j]];
    TypesSitesAppend(md, types[..j], [types[j]]);
    assert TypesSites(md, [types[j]]) == TypeSites(md, types[j]) + TypesSites(md, []);
    assert types[j..][1..] == types[j + 1..];
  }

  lemma {:induction false} ModulesSitesAppend(x: seq<ModuleDefinition>, y: seq<ModuleDefinition>)
    ensures ModulesSites(x + y) == ModulesSites(x) + ModulesSites(y)
  {
    if x == [] {
      assert x + y == y;
    } else {
      assert (x + y)[1..] == x[1..] + y;
      ModulesSitesAppend(x[1..], y);
    }
  }

  lemma ModulesSitesStep(modules: seq<ModuleDefinition>, i: nat)
    requires i < |modules|
    ensures ModulesSites(modules[..i + 1]) == ModulesSites(modules[..i]) + ModuleSites(modules[i])
    ensures ModulesSites(modules[i..]) == ModuleSites(modules[i]) + ModulesSites(modules[i + 1..])
  {
    assert modules[..i + 1] == modules[..i] + [modules[i]];
    ModulesSitesAppend(modules[..i], [modules[i]]);
    assert ModulesSites([modules[i]]) == ModuleSites(modules[i]) + ModulesSites([]);
    assert modules[i..][1..] == modules[i + 1..];
  }

  ghost function MethodsOf(sites: seq<Site>): set<MethodDefinition>
  {
    set site | site in sites :: site.methodDefinition
  }

  /** No method is visited twice: Cecil lists each method once, under one type of one module. */
  ghost predicate Distinct(sites: seq<Site>)
  {
    forall i, j | 0 <= i < j < |sites| :: sites[i].methodDefinition != sites[j].methodDefinition
  }

  /** The states of the sites' methods in the current heap. */
  ghost function StatesOf(sites: seq<Site>): (r: seq<MethodState>)
    reads MethodsOf(sites)
    ensures |r| == |sites|
  {
    if sites == [] then [] else [sites[0].methodDefinition.State()] + StatesOf(sites[1..])
  }

  lemma SplitAt<T>(s: seq<T>, k: nat)
    requires k < |s|
    ensures s == s[..k] + ([s[k]] + s[k + 1..])
    ensures s[..k + 1] == s[..k] + [s[k]]
  {
  }

  lemma Reassociate<T>(a: seq<T>, b: seq<T>, c: seq<T>)
    ensures a + b + c == a + (b + c)
  {
  }

  /** The method at `k` of a type whose sites are distinct: its site, its frame, and no other site holds it. */
  lemma TypeSiteAt(md: ModuleDefinition, t: TypeDefinition, k: nat)
    requires Distinct(TypeSites(md, t)) && k < |t.methods|
    ensures TypeSites(md, t)[k] == Site(t.methods[k], t.fullName, ImportLogMethod(md))
    ensures t.methods[k] in MethodsOf(TypeSites(md, t))
    ensures forall i | 0 <= i < |t.methods| && i != k :: TypeSites(md, t)[i].methodDefinition != t.methods[k]
  {
    var sites := TypeSites(md, t);
    MethodSitesAt(t.methods, t.fullName, ImportLogMethod(md), k);
    assert sites[k] in sites;
  }

  /** StatesOf reads each site's method. */
  lemma {:induction false} StatesOfAll(sites: seq<Site>)
    ensures forall i | 0 <= i < |sites| :: StatesOf(sites)[i] == sites[i].methodDefinition.State()
  {
    if sites != [] {
      StatesOfAll(sites[1..]);
      assert forall i | 1 <= i < |sites| :: sites[1..][i - 1] == sites[i];
    }
  }

  /** When all methods but the one of site `k` are in their states among `before`, StatesOf differs from `before` at `k` only. */
  lemma StatesOfExcept(sites: seq<Site>, k: nat, before: seq<MethodState>)
    requires |before| == |sites| && k < |sites|
    requires forall i | 0 <= i < |sites| && i != k :: sites[i].methodDefinition.State() == before[i]
    ensures StatesOf(sites) == before[k := sites[k].methodDefinition.State()]
  {
    StatesOfAll(sites);
  }

  /** Replacing the state at `k` in a walk's states: the prefix done, the new state, the rest untouched. */
  lemma ReplaceAt(s1: seq<MethodState>, s0: seq<MethodState>, k: nat, x: MethodState)
    requires |s1| == k < |s0|
    ensures (s1 + s0[k..])[k := x] == s1 + [x] + s0[k + 1..]
    ensures (s1 + s0[k..])[k] == s0[k]
  {
  }

  /** One step of a walk over single sites, in terms of the whole list. */
  lemma SiteStep(sites: seq<Site>, s0: seq<MethodState>, k: nat, s1: seq<MethodState>, after: MethodState,
                 wasProcessed: bool, r: Outcome)
    requires k < |sites| && |s0| == |sites|
    requires Effect(sites[..k], s0[..k], s1, Returned(wasProcessed))
    requires Effect([sites[k]], [s0[k]], [after], r)
    ensures r.Returned? ==> Effect(sites[..k + 1], s0[..k + 1], s1 + [after], Returned(wasProcessed || r.wasProcessed))
    ensures r.Threw? ==> Effect(sites, s0, s1 + [after] + s0[k + 1..], r)
  {
    SplitAt(sites, k);
    SplitAt(s0, k);
    Reassociate(s1, [after], s0[k + 1..]);
    Step(sites[..k], [sites[k]], sites[k + 1..], s0[..k], [s0[k]], s0[k + 1..], s1, [after], wasProcessed, r);
  }

  /**
   * The body of the foreach over the methods of `t`, for its method at `k`:
   * ProcessMethod, as one step of the visit of the type's sites.
   */
  method VisitMethodAt(md: ModuleDefinition, t: TypeDefinition, k: nat) returns (outcome: Outcome)
    requires Distinct(TypeSites(md, t)) && k < |t.methods|
    modifies t.methods[k]
    ensures StatesOf(TypeSites(md, t)) == old(StatesOf(TypeSites(md, t)))[k := t.methods[k].State()]
    ensures Effect([TypeSites(md, t)[k]], [old(StatesOf(TypeSites(md, t)))[k]], [t.methods[k].State()], outcome)
  {
    var m := t.methods[k];
    TypeSiteAt(md, t, k);
    ghost var before := StatesOf(TypeSites(md, t));
    StatesOfAll(TypeSites(md, t));
    outcome := ProcessMethod(md, t.fullName, m);
    EffectOfMethod(TypeSites(md, t)[k], old(m.State()), m.State(), outcome);
    StatesOfExcept(TypeSites(md, t), k, before);
  }

  /**
   * The middle foreach of ProcessAssembly for one type: each method in turn;
   * the first throw ends the walk.
   */
  method ProcessType(md: ModuleDefinition, t: TypeDefinition) returns (outcome: Outcome)
    requires Distinct(TypeSites(md, t))
    modifies MethodsOf(TypeSites(md, t))
    ensures Effect(TypeSites(md, t), old(StatesOf(TypeSites(md, t))), StatesOf(TypeSites(md, t)), outcome)
  {
    ghost var sites := TypeSites(md, t);
    ghost var s0 := StatesOf(sites);
    ghost var s1: seq<MethodState> := [];
    var wasProcessed := false;
    var k := 0;
    while k < |t.methods|
      invariant 0 <= k <= |t.methods| && |s1| == k
      invariant StatesOf(sites) == s1 + s0[k..]
      invariant Effect(sites[..k], s0[..k], s1, Returned(wasProcessed))
    {
      TypeSiteAt(md, t, k);
      var r := VisitMethodAt(md, t, k);
      ReplaceAt(s1, s0, k, t.methods[k].State());
      SiteStep(sites, s0, k, s1, t.methods[k].State(), wasProcessed, r);
      s1 := s1 + [t.methods[k].State()];
      if r.Threw? {
        return r;
      }
      wasProcessed := wasProcessed || r.wasProcessed;
      k := k + 1;
    }
    assert sites[..k] == sites && s0[..k] == s0 && s1 + s0[k..] == s1;
    outcome := Returned(wasProcessed);
  }

  // ---------------------------------------------------------------------------
  // Blocks: the sites of one type inside a module, of one module inside an assembly.

  /** A list cut into the part before `lo`, the block `lo..hi` and the part from `hi`. */
  lemma Carve<T>(s: seq<T>, lo: nat, hi: nat)
    requires lo <= hi <= |s|
    ensures s[..hi] == s[..lo] + s[lo..hi]
    ensures s == s[..lo] + (s[lo..hi] + s[hi..])
  {
  }

  /** The block `lo..hi` of distinct sites is distinct, and holds no method of a site outside it. */
  lemma DistinctBlock(sites: seq<Site>, lo: nat, hi: nat)
    requires Distinct(sites) && lo <= hi <= |sites|
    ensures Distinct(sites[lo..hi])
    ensures MethodsOf(sites[lo..hi]) <= MethodsOf(sites)
    ensures forall i | 0 <= i < |sites| && !(lo <= i < hi) :: sites[i].methodDefinition !in MethodsOf(sites[lo..hi])
  {
    var block := sites[lo..hi];
    forall i | 0 <= i < |sites| && !(lo <= i < hi)
      ensures sites[i].methodDefinition !in MethodsOf(block)
    {
      forall site | site in block
        ensures site.methodDefinition != sites[i].methodDefinition
      {
        var h :| 0 <= h < |block| && block[h] == site;
        assert sites[lo + h] == site;
      }
    }
    forall site | site in block
      ensures site in sites
    {
      var h :| 0 <= h < |block| && block[h] == site;
      assert sites[lo + h] == site;
    }
  }

  /** The states of a block are the block of the states. */
  lemma StatesOfSlice(sites: seq<Site>, lo: nat, hi: nat)
    requires lo <= hi <= |sites|
    ensures StatesOf(sites[lo..hi]) == StatesOf(sites)[lo..hi]
  {
    StatesOfAll(sites);
    StatesOfAll(sites[lo..hi]);
  }

  /** When every method outside the block `lo..hi` is in its state among `before`, only the block's states differ from `before`. */
  lemma StatesOfBlock(sites: seq<Site>, lo: nat, hi: nat, before: seq<MethodState>)
    requires lo <= hi <= |sites| == |before|
    requires forall i | 0 <= i < |sites| && !(lo <= i < hi) :: sites[i].methodDefinition.State() == before[i]
    ensures StatesOf(sites) == before[..lo] + StatesOf(sites)[lo..hi] + before[hi..]
  {
    StatesOfAll(sites);
  }

  /** Replacing the block `lo..hi` of a walk's states: the part done, the new block, the rest untouched. */
  lemma Advance(s1: seq<MethodState>, s0: seq<MethodState>, lo: nat, hi: nat, after: seq<MethodState>)
    requires |s1| == lo <= hi <= |s0| == |after|
    requires after == (s1 + s0[lo..])[..lo] + after[lo..hi] + (s1 + s0[lo..])[hi..]
    ensures after == s1 + after[lo..hi] + s0[hi..]
    ensures (s1 + s0[lo..])[lo..hi] == s0[lo..hi]
  {
    var s := s1 + s0[lo..];
    assert s[..lo] == s1;
    assert s[hi..] == s0[hi..];
  }

  /** One step of a walk over blocks, in terms of the whole list. */
  lemma BlockStep(sites: seq<Site>, s0: seq<MethodState>, lo: nat, hi: nat, s1: seq<MethodState>, b1: seq<MethodState>,
                  wasProcessed: bool, r: Outcome)
    requires lo <= hi <= |sites| == |s0|
    requires Effect(sites[..lo], s0[..lo], s1, Returned(wasProcessed))
    requires Effect(sites[lo..hi], s0[lo..hi], b1, r)
    ensures r.Returned? ==> Effect(sites[..hi], s0[..hi], s1 + b1, Returned(wasProcessed || r.wasProcessed))
    ensures r.Threw? ==> Effect(sites, s0, s1 + b1 + s0[hi..], r)
  {
    Carve(sites, lo, hi);
    Carve(s0, lo, hi);
    Reassociate(s1, b1, s0[hi..]);
    Step(sites[..lo], sites[lo..hi], sites[hi..], s0[..lo], s0[lo..hi], s0[hi..], s1, b1, wasProcessed, r);
  }

  /**
   * One step of a walk over blocks, in the terms of its loop: the states
   * `after` differ from the states before the step only in the block `lo..hi`.
   */
  lemma BlockAdvance(sites: seq<Site>, s0: seq<MethodState>, s1: seq<MethodState>, lo: nat, hi: nat,
                     after: seq<MethodState>, wasProcessed: bool, r: Outcome)
    requires lo <= hi <= |sites| == |s0| == |after| && |s1| == lo
    requires Effect(sites[..lo], s0[..lo], s1, Returned(wasProcessed))
    requires after == (s1 + s0[lo..])[..lo] + after[lo..hi] + (s1 + s0[lo..])[hi..]
    requires Effect(sites[lo..hi], (s1 + s0[lo..])[lo..hi], after[lo..hi], r)
    ensures r.Returned? ==>
      && after == after[..hi] + s0[hi..]
      && Effect(sites[..hi], s0[..hi], after[..hi], Returned(wasProcessed || r.wasProcessed))
    ensures r.Threw? ==> Effect(sites, s0, after, r)
  {
    Advance(s1, s0, lo, hi, after);
    BlockStep(sites, s0, lo, hi, s1, after[lo..hi], wasProcessed, r);
    assert after[..hi] == s1 + after[lo..hi];
  }

  /** Where the sites of the type at `j` of `md` begin among the module's sites. */
  function TypeOffset(md: ModuleDefinition, j: nat): nat
    requires j <= |md.types|
  {
    |TypesSites(md, md.types[..j])|
  }

  /** The sites of the type at `j` are the block of the module's sites between its offset and the next. */
  lemma ModuleBlock(md: ModuleDefinition, j: nat)
    requires j < |md.types|
    ensures TypeOffset(md, j) <= TypeOffset(md, j + 1) <= |ModuleSites(md)|
    ensures ModuleSites(md)[TypeOffset(md, j)..TypeOffset(md, j + 1)] == TypeSites(md, md.types[j])
  {
    var types := md.types;
    TypesSitesStep(md, types, j);
    assert types == types[..j + 1] + types[j + 1..];
    TypesSitesAppend(md, types[..j + 1], types[j + 1..]);
  }

  lemma ModuleEnd(md: ModuleDefinition)
    ensures TypeOffset(md, 0) == 0
    ensures TypeOffset(md, |md.types|) == |ModuleSites(md)|
  {
    assert md.types[..0] == [];
    assert md.types[..|md.types|] == md.types;
  }

  /**
   * The body of the foreach over the types of `md`, for its type at `j`:
   * ProcessType, as one block of the visit of the module's sites.
   */
  method VisitTypeAt(md: ModuleDefinition, j: nat, ghost s0: seq<MethodState>, ghost s1: seq<MethodState>,
                     ghost wasProcessed: bool) returns (outcome: Outcome, ghost hi: nat)
    requires Distinct(ModuleSites(md)) && j < |md.types| && |s0| == |ModuleSites(md)|
    requires |s1| == TypeOffset(md, j) <= |s0|
    requires StatesOf(ModuleSites(md)) == s1 + s0[|s1|..]
    requires Effect(ModuleSites(md)[..|s1|], s0[..|s1|], s1, Returned(wasProcessed))
    modifies MethodsOf(ModuleSites(md))
    ensures hi == TypeOffset(md, j + 1) && |s1| <= hi <= |s0|
    ensures outcome.Returned? ==>
      && StatesOf(ModuleSites(md)) == StatesOf(ModuleSites(md))[..hi] + s0[hi..]
      && Effect(ModuleSites(md)[..hi], s0[..hi], StatesOf(ModuleSites(md))[..hi], Returned(wasProcessed || outcome.wasProcessed))
    ensures outcome.Threw? ==> Effect(ModuleSites(md), s0, StatesOf(ModuleSites(md)), outcome)
  {
    ghost var sites := ModuleSites(md);
    ghost var lo := |s1|;
    hi := TypeOffset(md, j + 1);
    ModuleBlock(md, j);
    DistinctBlock(sites, lo, hi);
    ghost var before := StatesOf(sites);
    StatesOfAll(sites);
    StatesOfSlice(sites, lo, hi);
    outcome := ProcessType(md, md.types[j]);
    StatesOfSlice(sites, lo, hi);
    StatesOfBlock(sites, lo, hi, before);
    BlockAdvance(sites, s0, s1, lo, hi, StatesOf(sites), wasProcessed, outcome);
  }

  /**
   * The middle foreach of ProcessAssembly for one module: each top-level type
   * in turn; the first throw ends the walk.
   */
  method ProcessModule(md: ModuleDefinition) returns (outcome: Outcome)
    requires Distinct(ModuleSites(md))
    modifies MethodsOf(ModuleSites(md))
    ensures Effect(ModuleSites(md), old(StatesOf(ModuleSites(md))), StatesOf(ModuleSites(md)), outcome)
  {
    ghost var sites := ModuleSites(md);
    ghost var s0 := StatesOf(sites);
    ghost var s1: seq<MethodState> := [];
    ghost var off: nat := 0;
    ModuleEnd(md);
    var wasProcessed := false;
    var j := 0;
    while j < |md.types|
      invariant 0 <= j <= |md.types| && off == TypeOffset(md, j) && |s1| == off <= |sites|
      invariant StatesOf(sites) == s1 + s0[off..]
      invariant Effect(sites[..off], s0[..off], s1, Returned(wasProcessed))
    {
      ghost var hi;
      var r;
      r, hi := VisitTypeAt(md, j, s0, s1, wasProcessed);
      s1, off := StatesOf(sites)[..hi], hi;
      if r.Threw? {
        return r;
      }
      wasProcessed := wasProcessed || r.wasProcessed;
      j := j + 1;
    }
    assert sites[..off] == sites && s0[..off] == s0 && s1 + s0[off..] == s1;
    outcome := Returned(wasProcessed);
  }

  /** Where the sites of the module at `i` of `a` begin among the assembly's sites. */
  function ModuleOffset(a: AssemblyDefinition, i: nat): nat
    requires i <= |a.modules|
  {
    |ModulesSites(a.modules[..i])|
  }

  /** The sites of the module at `i` are the block of the assembly's sites between its offset and the next. */
  lemma AssemblyBlock(a: AssemblyDefinition, i: nat)
    requires i < |a.modules|
    ensures ModuleOffset(a, i) <= ModuleOffset(a, i + 1) <= |AssemblySites(a)|
    ensures AssemblySites(a)[ModuleOffset(a, i)..ModuleOffset(a, i + 1)] == ModuleSites(a.modules[i])
  {
    var modules := a.modules;
    ModulesSitesStep(modules, i);
    assert modules == modules[..i + 1] + modules[i + 1..];
    ModulesSitesAppend(modules[..i + 1], modules[i + 1..]);
  }

  lemma AssemblyEnd(a: AssemblyDefinition)
    ensures ModuleOffset(a, 0) == 0
    ensures ModuleOffset(a, |a.modules|) == |AssemblySites(a)|
  {
    assert a.modules[..0] == [];
    assert a.modules[..|a.modules|] == a.modules;
  }

  /**
   * The body of the foreach over the modules of `a`, for its module at `i`:
   * ProcessModule, as one step of the visit of the assembly's sites.
   */
  method VisitModuleAt(a: AssemblyDefinition, i: nat, ghost s0: seq<MethodState>, ghost s1: seq<MethodState>,
                       ghost wasProcessed: bool) returns (outcome: Outcome, ghost hi: nat)
    requires Distinct(AssemblySites(a)) && i < |a.modules| && |s0| == |AssemblySites(a)|
    requires |s1| == ModuleOffset(a, i) <= |s0|
    requires StatesOf(AssemblySites(a)) == s1 + s0[|s1|..]
    requires Effect(AssemblySites(a)[..|s1|], s0[..|s1|], s1, Returned(wasProcessed))
    modifies MethodsOf(AssemblySites(a))
    ensures hi == ModuleOffset(a, i + 1) && |s1| <= hi <= |s0|
    ensures outcome.Returned? ==>
      && StatesOf(AssemblySites(a)) == StatesOf(AssemblySites(a))[..hi] + s0[hi..]
      && Effect(AssemblySites(a)[..hi], s0[..hi], StatesOf(AssemblySites(a))[..hi], Returned(wasProcessed || outcome.wasProcessed))
    ensures outcome.Threw? ==> Effect(AssemblySites(a), s0, StatesOf(AssemblySites(a)), outcome)
  {
    ghost var sites := AssemblySites(a);
    ghost var lo := |s1|;
    hi := ModuleOffset(a, i + 1);
    AssemblyBlock(a, i);
    DistinctBlock(sites, lo, hi);
    ghost var before := StatesOf(sites);
    StatesOfAll(sites);
    StatesOfSlice(sites, lo, hi);
    outcome := ProcessModule(a.modules[i]);
    StatesOfSlice(sites, lo, hi);
    StatesOfBlock(sites, lo, hi, before);
    BlockAdvance(sites, s0, s1, lo, hi, StatesOf(sites), wasProcessed, outcome);
  }

  /**
   * ProcessAssembly: every method of every top-level type of every module, in
   * order; the first throw ends the walk and propagates. The result is the
   * visit of the assembly's sites.
   */
  method ProcessAssembly(a: AssemblyDefinition) returns (outcome: Outcome)
    requires Distinct(AssemblySites(a))
    modifies MethodsOf(AssemblySites(a))
    ensures Effect(AssemblySites(a), old(StatesOf(AssemblySites(a))), StatesOf(AssemblySites(a)), outcome)
  {
    ghost var sites := AssemblySites(a);
    ghost var s0 := StatesOf(sites);
    ghost var s1: seq<MethodState> := [];
    ghost var off: nat := 0;
    AssemblyEnd(a);
    var wasProcessed := false;
    var i := 0;
    while i < |a.modules|
      invariant 0 <= i <= |a.modules| && off == ModuleOffset(a, i) && |s1| == off <= |sites|
      invariant StatesOf(sites) == s1 + s0[off..]
      invariant Effect(sites[..off], s0[..off], s1, Returned(wasProcessed))
    {
      ghost var hi;
      var r;
      r, hi := VisitModuleAt(a, i, s0, s1, wasProcessed);
      s1, off := StatesOf(sites)[..hi], hi;
      if r.Threw? {
        return r;
      }
      wasProcessed := wasProcessed || r.wasProcessed;
      i := i + 1;
    }
    assert sites[..off] == sites && s0[..off] == s0 && s1 + s0[off..] == s1;
    outcome := Returned(wasProcessed);
  }
}
