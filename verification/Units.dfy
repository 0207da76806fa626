/**
 The base-unit hierarchy (internal/models/unit.go): the conversion walk with its cycle check, the two
 recursive functions to the root, and the level that makes them terminate. Units are cells of a store
 that point to their loaded base unit; factors are exact.
 */
module Units {
  import opened Basics

  type Ref = nat

  /** baseID is the recorded base, base the loaded one. */
  datatype Unit = Unit(id: nat, factor: real, level: int, baseID: Option<nat>, base: Option<Ref>)

  type Graph = map<Ref, Unit>

  ghost predicate Closed(g: Graph) {
    forall p :: p in g && g[p].base.Some? ==> g[p].base.value in g
  }

  /** Where the walk goes next. */
  function Next(g: Graph, p: Ref): Option<Ref>
    requires p in g
  {
    if g[p].baseID.Some? then g[p].base else None
  }

  ghost predicate IsPath(g: Graph, path: seq<Ref>) {
    && path != [] && (forall p :: p in path ==> p in g)
    && (forall i {:trigger Next(g, path[i])} :: 0 <= i < |path| - 1 ==> Next(g, path[i]) == Some(path[i + 1]))
  }

  /** The product of the factors along the references. */
  ghost function Product(g: Graph, s: seq<Ref>): real
    requires forall p :: p in s ==> p in g
  {
    if s == [] then 1.0 else Product(g, s[..|s| - 1]) * g[s[|s| - 1]].factor
  }

  function Front(path: seq<Ref>): seq<Ref>
    requires path != []
  {
    path[..|path| - 1]
  }

  function Last(path: seq<Ref>): Ref
    requires path != []
  {
    path[|path| - 1]
  }

  /** No unit before the end has the id. */
  ghost predicate Avoids(g: Graph, path: seq<Ref>, id: nat)
    requires IsPath(g, path)
  {
    forall i :: 0 <= i < |path| - 1 ==> g[path[i]].id != id
  }

  /** No two units before the end have the same id. */
  ghost predicate Simple(g: Graph, path: seq<Ref>)
    requires IsPath(g, path)
  {
    forall i, j :: 0 <= i < j < |path| - 1 ==> g[path[i]].id != g[path[j]].id
  }

  /** The path from u that first meets the target at its end, with no id twice before. */
  ghost predicate Route(g: Graph, u: Ref, target: nat, path: seq<Ref>) {
    && IsPath(g, path) && path[0] == u && g[Last(path)].id == target
    && Avoids(g, path, target) && Simple(g, path)
  }

  /** The chain above a unit is determined: of two paths from it, each is a prefix of the other. */
  lemma {:induction false} SameSteps(g: Graph, a: seq<Ref>, b: seq<Ref>, i: nat)
    requires IsPath(g, a) && IsPath(g, b) && a[0] == b[0] && i < |a| && i < |b|
    ensures a[i] == b[i]
  {
    if i > 0 {
      SameSteps(g, a, b, i - 1);
      assert Next(g, a[i - 1]) == Some(a[i]) && Next(g, b[i - 1]) == Some(b[i]);
    }
  }

  lemma {:induction false} OneRoute(g: Graph, u: Ref, target: nat, a: seq<Ref>, b: seq<Ref>)
    requires Route(g, u, target, a) && Route(g, u, target, b)
    ensures a == b
  {
    SameSteps(g, a, b, if |a| < |b| then |a| - 1 else |b| - 1);
    forall i | 0 <= i < |a| && i < |b|
      ensures a[i] == b[i]
    {
      SameSteps(g, a, b, i);
    }
  }

  /** The conversion factor: the product along the route, or 0 when there is none. */
  ghost function Conversion(g: Graph, u: Ref, target: nat): real {
    if path :| Route(g, u, target, path) then Product(g, Front(path)) else 0.0
  }

  lemma {:induction false} ConversionIs(g: Graph, u: Ref, target: nat, path: seq<Ref>)
    requires Route(g, u, target, path)
    ensures Conversion(g, u, target) == Product(g, Front(path))
  {
    var other :| Route(g, u, target, other) && Conversion(g, u, target) == Product(g, Front(other));
    OneRoute(g, u, target, path, other);
  }

  // ----- the walk -----

  /** Where the walk is: at the end of a path whose earlier units are the visited ones. */
  ghost predicate Walked(g: Graph, u: Ref, target: nat, path: seq<Ref>, visited: set<nat>) {
    && IsPath(g, path) && path[0] == u && Avoids(g, path, target) && Simple(g, path)
    && (forall id :: id in visited <==> exists i :: 0 <= i < |path| - 1 && g[path[i]].id == id)
  }

  /** A route from here has to go beyond the walk's end. */
  lemma {:induction false} RouteGoesOn(
    g: Graph, u: Ref, target: nat, path: seq<Ref>, visited: set<nat>, route: seq<Ref>)
    requires Walked(g, u, target, path, visited) && g[Last(path)].id != target && Route(g, u, target, route)
    ensures |route| > |path| && route[|path| - 1] == Last(path) && route[..|path|] == path
  {
    if |route| <= |path| {
      SameSteps(g, path, route, |route| - 1);
      assert false;
    }
    forall i | 0 <= i < |path|
      ensures route[i] == path[i]
    {
      SameSteps(g, path, route, i);
    }
  }

  lemma {:induction false} RouteBeyond(
    g: Graph, u: Ref, target: nat, path: seq<Ref>, visited: set<nat>, route: seq<Ref>)
    requires Walked(g, u, target, path, visited) && g[Last(path)].id != target && Route(g, u, target, route)
    ensures Next(g, Last(path)).Some? && g[Last(path)].id !in visited
  {
    RouteGoesOn(g, u, target, path, visited, route);
    var n := |path| - 1;
    assert Next(g, route[n]) == Some(route[n + 1]);
    forall i | 0 <= i < n
      ensures g[path[i]].id != g[Last(path)].id
    {
      assert path[i] == route[..|path|][i];
    }
  }

  lemma {:induction false} NoRoute(g: Graph, u: Ref, target: nat, path: seq<Ref>, visited: set<nat>)
    requires Walked(g, u, target, path, visited) && g[Last(path)].id != target
    requires g[Last(path)].id in visited || Next(g, Last(path)) == None
    ensures Conversion(g, u, target) == 0.0
  {
    forall route
      ensures !Route(g, u, target, route)
    {
      if Route(g, u, target, route) {
        RouteBeyond(g, u, target, path, visited, route);
        assert false;
      }
    }
  }

  lemma {:induction false} WalkStep(g: Graph, u: Ref, target: nat, path: seq<Ref>, visited: set<nat>)
    requires Closed(g) && Walked(g, u, target, path, visited) && g[Last(path)].id != target
    requires g[Last(path)].id !in visited && Next(g, Last(path)).Some?
    ensures Walked(g, u, target, path + [Next(g, Last(path)).value], visited + {g[Last(path)].id})
    ensures Product(g, Front(path + [Next(g, Last(path)).value])) == Product(g, Front(path)) * g[Last(path)].factor
  {
    var after := path + [Next(g, Last(path)).value];
    assert Front(after) == path;
    forall i, j | 0 <= i < j < |after| - 1
      ensures g[after[i]].id != g[after[j]].id
    {
      if j == |path| - 1 {
        assert g[path[i]].id in visited;
      }
    }
  }

  function Ids(g: Graph): set<nat> {
    set p | p in g :: g[p].id
  }

  /** The conversion factor from u to the target, or 0 when the walk does not get there. It stops on every graph. */
  method CalculateConversionFactorToCurrent(g: Graph, u: Ref, target: nat) returns (r: real)
    requires Closed(g) && u in g
    ensures r == Conversion(g, u, target)
  {
    ghost var path := [u];
    if g[u].id == target {
      ConversionIs(g, u, target, path);
      return 1.0;
    }
    var current, visited: set<nat>, factor := u, {}, 1.0;
    while g[current].id != target
      invariant Walked(g, u, target, path, visited) && current == Last(path) && visited <= Ids(g)
      invariant factor == Product(g, Front(path))
      decreases Ids(g) - visited
    {
      if g[current].id in visited {
        NoRoute(g, u, target, path, visited);
        return 0.0;
      }
      if g[current].baseID == None || g[current].base == None {
        NoRoute(g, u, target, path, visited);
        return 0.0;
      }
      WalkStep(g, u, target, path, visited);
      path := path + [Next(g, current).value];
      visited := visited + {g[current].id};
      factor := factor * g[current].factor;
      current := g[current].base.value;
    }
    ConversionIs(g, u, target, path);
    return factor;
  }

  // ----- what the factor means -----

  /** A loaded base is the recorded one. */
  ghost predicate Consistent(g: Graph) {
    Closed(g) && forall p :: p in g && g[p].base.Some? ==> g[p].baseID == Some(g[g[p].base.value].id)
  }

  /** Copies of one unit, loaded or not, record one base. */
  ghost predicate SameBases(g: Graph) {
    forall p, q {:trigger g[p].id, g[q].id} :: p in g && q in g && g[p].id == g[q].id ==> g[p].baseID == g[q].baseID
  }

  /** Copies of one unit have one level. */
  ghost predicate SameLevels(g: Graph) {
    forall p, q {:trigger g[p].id, g[q].id} :: p in g && q in g && g[p].id == g[q].id ==> g[p].level == g[q].level
  }

  ghost predicate PositiveFactors(g: Graph) {
    forall p :: p in g ==> g[p].factor > 0.0
  }

  /** The path leads from u to a unit with the target id. */
  ghost predicate Leads(g: Graph, u: Ref, target: nat, path: seq<Ref>) {
    IsPath(g, path) && path[0] == u && g[Last(path)].id == target
  }

  ghost predicate OnChain(g: Graph, u: Ref, target: nat) {
    exists path :: Leads(g, u, target, path)
  }

  /** From two copies of one unit the ids run in step. */
  lemma {:induction false} InStep(g: Graph, path: seq<Ref>, i: nat, j: nat, n: nat)
    requires Consistent(g) && SameBases(g) && IsPath(g, path) && i < j && j + n < |path|
    requires g[path[i]].id == g[path[j]].id
    ensures g[path[i + n]].id == g[path[j + n]].id
  {
    if n > 0 {
      InStep(g, path, i, j, n - 1);
      assert Next(g, path[i + n - 1]) == Some(path[i + n]);
      assert Next(g, path[j + n - 1]) == Some(path[j + n]);
    }
  }

  /** A path that first meets the target at its end has no id twice before: the loop would have met it already. */
  lemma {:induction false} AvoidsIsSimple(g: Graph, u: Ref, target: nat, path: seq<Ref>)
    requires Consistent(g) && SameBases(g) && Leads(g, u, target, path) && Avoids(g, path, target)
    ensures Simple(g, path)
  {
    var n := |path| - 1;
    forall i, j | 0 <= i < j < n
      ensures g[path[i]].id != g[path[j]].id
    {
      if g[path[i]].id == g[path[j]].id {
        InStep(g, path, i, j, n - j);
        assert false;
      }
    }
  }

  /** Any path to the target can be shortened to the route. */
  lemma {:induction false} Shorten(g: Graph, u: Ref, target: nat, path: seq<Ref>) returns (route: seq<Ref>)
    requires Consistent(g) && SameBases(g) && Leads(g, u, target, path)
    ensures Route(g, u, target, route)
    decreases |path|
  {
    if Avoids(g, path, target) {
      AvoidsIsSimple(g, u, target, path);
      route := path;
    } else {
      var i :| 0 <= i < |path| - 1 && g[path[i]].id == target;
      PathPrefix(g, path, i);
      route := Shorten(g, u, target, path[..i + 1]);
    }
  }

  lemma {:induction false} PathPrefix(g: Graph, path: seq<Ref>, k: nat)
    requires IsPath(g, path) && k < |path|
    ensures IsPath(g, path[..k + 1])
  {
    forall i {:trigger Next(g, path[..k + 1][i])} | 0 <= i < k
      ensures Next(g, path[..k + 1][i]) == Some(path[..k + 1][i + 1])
    {
      assert Next(g, path[i]) == Some(path[i + 1]);
    }
  }

  lemma {:induction false} ProductPositive(g: Graph, s: seq<Ref>)
    requires PositiveFactors(g) && forall p :: p in s ==> p in g
    ensures Product(g, s) > 0.0
  {
    if s != [] {
      ProductPositive(g, s[..|s| - 1]);
    }
  }

  /** With positive factors the result is 0 exactly when the target is not on the loaded chain, cycles or not. */
  lemma {:induction false} ZeroExactlyWhenUnreachable(g: Graph, u: Ref, target: nat)
    requires Consistent(g) && SameBases(g) && PositiveFactors(g)
    ensures Conversion(g, u, target) >= 0.0
    ensures Conversion(g, u, target) == 0.0 <==> !OnChain(g, u, target)
  {
    if path :| Leads(g, u, target, path) {
      var route := Shorten(g, u, target, path);
      ConversionIs(g, u, target, route);
      ProductPositive(g, Front(route));
    } else {
      forall route | Route(g, u, target, route)
        ensures Leads(g, u, target, route)
      {
      }
    }
  }

  lemma {:induction false} JoinPaths(g: Graph, a: seq<Ref>, b: seq<Ref>)
    requires IsPath(g, a) && IsPath(g, b) && b[0] == Last(a)
    ensures IsPath(g, Front(a) + b)
  {
    var joined := Front(a) + b;
    forall k {:trigger Next(g, joined[k])} | 0 <= k < |joined| - 1
      ensures Next(g, joined[k]) == Some(joined[k + 1])
    {
      if k < |a| - 1 {
        assert Next(g, a[k]) == Some(a[k + 1]);
      } else {
        assert Next(g, b[k - (|a| - 1)]) == Some(b[k - (|a| - 1) + 1]);
      }
    }
  }

  lemma {:induction false} Associates(x: real, y: real, z: real)
    ensures (x * y) * z == x * (y * z)
  {
  }

  lemma {:induction false} ProductConcat(g: Graph, s: seq<Ref>, t: seq<Ref>)
    requires (forall p :: p in s ==> p in g) && (forall p :: p in t ==> p in g)
    ensures Product(g, s + t) == Product(g, s) * Product(g, t)
  {
    ProductIsFold(g, s);
    ProductIsFold(g, t);
    ProductIsFold(g, s + t);
    assert Factors(g, s + t) == Factors(g, s) + Factors(g, t);
    FoldConcat(Factors(g, s), Factors(g, t));
  }

  lemma {:induction false} FoldConcat(s: seq<real>, t: seq<real>)
    ensures Fold(s + t) == Fold(s) * Fold(t)
  {
    if s == [] {
      assert s + t == t;
    } else {
      assert (s + t)[1..] == s[1..] + t;
      FoldConcat(s[1..], t);
      Associates(s[0], Fold(s[1..]), Fold(t));
    }
  }

  /** Of two paths from u, one that meets the target only at its end is no longer than one that meets it at its end. */
  lemma {:induction false} FirstMeeting(g: Graph, u: Ref, target: nat, path: seq<Ref>, route: seq<Ref>)
    requires Leads(g, u, target, path) && Avoids(g, path, target) && Route(g, u, target, route)
    ensures path == route
  {
    SameSteps(g, path, route, if |path| < |route| then |path| - 1 else |route| - 1);
    forall i | 0 <= i < |path| && i < |route|
      ensures path[i] == route[i]
    {
      SameSteps(g, path, route, i);
    }
  }

  /** Factors multiply along the chain: through any unit that comes no later than the target. */
  lemma {:induction false} ConversionMultiplies(g: Graph, u: Ref, mid: nat, target: nat, a: seq<Ref>, b: seq<Ref>)
    requires Consistent(g) && SameBases(g) && Route(g, u, mid, a) && Route(g, Last(a), target, b) &&
             Avoids(g, a, target)
    ensures Conversion(g, u, target) == Conversion(g, u, mid) * Conversion(g, Last(a), target)
  {
    JoinedRoute(g, u, mid, target, a, b);
    ConversionSplits(g, u, mid, target, a, b);
  }

  lemma {:induction false} ConversionSplits(g: Graph, u: Ref, mid: nat, target: nat, a: seq<Ref>, b: seq<Ref>)
    requires Route(g, u, mid, a) && Route(g, Last(a), target, b) && Route(g, u, target, Front(a) + b)
    ensures Conversion(g, u, target) == Conversion(g, u, mid) * Conversion(g, Last(a), target)
  {
    ConversionIs(g, u, mid, a);
    ConversionIs(g, Last(a), target, b);
    ConversionIs(g, u, target, Front(a) + b);
    ProductJoined(g, a, b);
  }

  lemma {:induction false} JoinedRoute(g: Graph, u: Ref, mid: nat, target: nat, a: seq<Ref>, b: seq<Ref>)
    requires Consistent(g) && SameBases(g) && Route(g, u, mid, a) && Route(g, Last(a), target, b) &&
             Avoids(g, a, target)
    ensures Route(g, u, target, Front(a) + b)
  {
    JoinedLeads(g, u, mid, target, a, b);
    var route := Shorten(g, u, target, Front(a) + b);
    FirstMeeting(g, u, target, Front(a) + b, route);
  }

  lemma {:induction false} ProductJoined(g: Graph, a: seq<Ref>, b: seq<Ref>)
    requires IsPath(g, a) && IsPath(g, b)
    ensures Product(g, Front(Front(a) + b)) == Product(g, Front(a)) * Product(g, Front(b))
  {
    assert Front(Front(a) + b) == Front(a) + Front(b);
    ProductConcat(g, Front(a), Front(b));
  }

  lemma {:induction false} JoinedLeads(g: Graph, u: Ref, mid: nat, target: nat, a: seq<Ref>, b: seq<Ref>)
    requires Route(g, u, mid, a) && Route(g, Last(a), target, b) && Avoids(g, a, target)
    ensures var joined := Front(a) + b; Leads(g, u, target, joined) && Avoids(g, joined, target)
  {
    var joined := Front(a) + b;
    JoinPaths(g, a, b);
    assert joined[0] == u;
    assert forall i :: |a| - 1 <= i < |joined| - 1 ==> joined[i] == b[i - (|a| - 1)];
  }

  lemma {:induction false} RoutePrefix(g: Graph, u: Ref, mid: nat, a: seq<Ref>, k: nat)
    requires Route(g, u, mid, a) && k < |a| - 1
    ensures Route(g, u, g[a[k]].id, a[..k + 1])
  {
    PathPrefix(g, a, k);
  }

  /**
   Through a unit that comes after the target, on a cycle, the product goes around once too often: the
   law holds there exactly when the factors around the cycle multiply to one.
   */
  lemma {:induction false} ConversionAround(g: Graph, u: Ref, mid: nat, target: nat, a: seq<Ref>, b: seq<Ref>, k: nat)
    requires Route(g, u, mid, a) && Route(g, Last(a), target, b) && PositiveFactors(g)
    requires k < |a| - 1 && g[a[k]].id == target
    ensures var around := a[k..|a| - 1] + Front(b);
            Conversion(g, u, target) == Conversion(g, u, mid) * Conversion(g, Last(a), target) <==>
              Product(g, around) == 1.0
  {
    var around := a[k..|a| - 1] + Front(b);
    RoutePrefix(g, u, mid, a, k);
    AroundSplits(g, a, b, k);
    assert Front(a[..k + 1]) == a[..k];
    GoingAround(g, u, mid, target, a, b, a[..k + 1], around);
    OnlyOneKeeps(Conversion(g, u, target), Product(g, around), Conversion(g, u, mid) * Conversion(g, Last(a), target));
  }

  lemma {:induction false} GoingAround(
    g: Graph, u: Ref, mid: nat, target: nat, a: seq<Ref>, b: seq<Ref>, direct: seq<Ref>, around: seq<Ref>)
    requires Route(g, u, mid, a) && Route(g, Last(a), target, b) && Route(g, u, target, direct) && PositiveFactors(g)
    requires Front(a) + Front(b) == Front(direct) + around && forall p :: p in around ==> p in g
    ensures Conversion(g, u, mid) * Conversion(g, Last(a), target) == Conversion(g, u, target) * Product(g, around)
    ensures Conversion(g, u, target) > 0.0
  {
    ConversionIs(g, u, target, direct);
    ConversionIs(g, u, mid, a);
    ConversionIs(g, Last(a), target, b);
    ProductPositive(g, Front(direct));
    TwoSplits(g, Front(a), Front(b), Front(direct), around);
  }

  lemma {:induction false} AroundSplits(g: Graph, a: seq<Ref>, b: seq<Ref>, k: nat)
    requires IsPath(g, a) && IsPath(g, b) && k < |a| - 1
    ensures Front(a) + Front(b) == a[..k] + (a[k..|a| - 1] + Front(b))
    ensures (forall p :: p in Front(a) ==> p in g) && (forall p :: p in Front(b) ==> p in g)
    ensures (forall p :: p in a[..k] ==> p in g) && (forall p :: p in a[k..|a| - 1] + Front(b) ==> p in g)
  {
  }

  lemma {:induction false} TwoSplits(g: Graph, s: seq<Ref>, t: seq<Ref>, x: seq<Ref>, y: seq<Ref>)
    requires (forall p :: p in s ==> p in g) && (forall p :: p in t ==> p in g)
    requires (forall p :: p in x ==> p in g) && (forall p :: p in y ==> p in g) && s + t == x + y
    ensures Product(g, s) * Product(g, t) == Product(g, x) * Product(g, y)
  {
    ProductConcat(g, s, t);
    ProductConcat(g, x, y);
  }

  // ----- to the root -----

  predicate IsRootBaseUnit(u: Unit) {
    u.level == 1 && u.baseID == None
  }

  /** Levels fall from a unit to its loaded base, so chains end. */
  ghost predicate LevelsFall(g: Graph) {
    Closed(g) && forall p :: p in g && g[p].base.Some? ==> 0 <= g[g[p].base.value].level < g[p].level
  }

  function GetRootBaseUnitID(g: Graph, p: Ref): nat
    requires LevelsFall(g) && p in g
    decreases g[p].level
  {
    if IsRootBaseUnit(g[p]) then g[p].id
    else if g[p].base.Some? then GetRootBaseUnitID(g, g[p].base.value)
    else g[p].id
  }

  function GetTotalConversionFactorToRoot(g: Graph, p: Ref): real
    requires LevelsFall(g) && p in g
    decreases g[p].level
  {
    if IsRootBaseUnit(g[p]) then 1.0
    else if g[p].base.Some? then g[p].factor * GetTotalConversionFactorToRoot(g, g[p].base.value)
    else g[p].factor
  }

  function GetExpectedLevel(g: Graph, p: Ref): int
    requires Closed(g) && p in g
  {
    if g[p].baseID == None then 1
    else if g[p].base.Some? then g[g[p].base.value].level + 1
    else g[p].level
  }

  /** Every unit has its expected level, and no level is below 1. */
  ghost predicate WellLevelled(g: Graph) {
    Consistent(g) && forall p :: p in g ==> g[p].level == GetExpectedLevel(g, p) >= 1
  }

  /** Every recorded base is loaded. */
  ghost predicate Loaded(g: Graph) {
    forall p :: p in g && g[p].baseID.Some? ==> g[p].base.Some?
  }

  /** The expected level is a termination measure: it falls along every chain. */
  lemma {:induction false} WellLevelledFalls(g: Graph)
    requires WellLevelled(g)
    ensures LevelsFall(g)
  {
    forall p | p in g && g[p].base.Some?
      ensures 0 <= g[g[p].base.value].level < g[p].level
    {
      assert g[p].level == GetExpectedLevel(g, p);
      assert g[g[p].base.value].level == GetExpectedLevel(g, g[p].base.value);
    }
  }

  /** The loaded chain from p upwards. */
  ghost function Chain(g: Graph, p: Ref): (r: seq<Ref>)
    requires LevelsFall(g) && p in g
    ensures r != [] && r[0] == p && forall q :: q in r ==> q in g
    decreases g[p].level
  {
    if g[p].base.Some? then [p] + Chain(g, g[p].base.value) else [p]
  }

  lemma {:induction false} ChainIsPath(g: Graph, p: Ref)
    requires Consistent(g) && LevelsFall(g) && p in g
    ensures IsPath(g, Chain(g, p)) && Next(g, Last(Chain(g, p))) == None && g[Last(Chain(g, p))].base == None
    decreases g[p].level
  {
    if g[p].base.Some? {
      var rest := Chain(g, g[p].base.value);
      ChainIsPath(g, g[p].base.value);
      forall i {:trigger Next(g, Chain(g, p)[i])} | 0 <= i < |rest|
        ensures Next(g, Chain(g, p)[i]) == Some(Chain(g, p)[i + 1])
      {
        if i > 0 {
          assert Next(g, rest[i - 1]) == Some(rest[i]);
        }
      }
    }
  }

  lemma {:induction false} LevelsAlong(g: Graph, path: seq<Ref>, i: nat, j: nat)
    requires LevelsFall(g) && IsPath(g, path) && i < j < |path|
    ensures g[path[i]].level > g[path[j]].level
  {
    assert Next(g, path[j - 1]) == Some(path[j]);
    if i < j - 1 {
      LevelsAlong(g, path, i, j - 1);
    }
  }

  /** The loaded chain is the route to its top. */
  lemma {:induction false} ChainIsRoute(g: Graph, p: Ref)
    requires Consistent(g) && LevelsFall(g) && SameLevels(g) && p in g
    ensures Route(g, p, g[Last(Chain(g, p))].id, Chain(g, p))
  {
    var path := Chain(g, p);
    ChainIsPath(g, p);
    forall i, j | 0 <= i < j < |path|
      ensures g[path[i]].id != g[path[j]].id
    {
      LevelsAlong(g, path, i, j);
    }
  }

  lemma {:induction false} RootIsTop(g: Graph, p: Ref)
    requires Consistent(g) && LevelsFall(g) && p in g
    ensures GetRootBaseUnitID(g, p) == g[Last(Chain(g, p))].id
    decreases g[p].level
  {
    if g[p].base.Some? {
      RootIsTop(g, g[p].base.value);
    }
  }

  /** What a unit at the top of a loaded chain puts into the total. */
  function OwnFactor(u: Unit): real {
    if IsRootBaseUnit(u) then 1.0 else u.factor
  }

  /** The product of a sequence of factors. */
  function Fold(s: seq<real>): real {
    if s == [] then 1.0 else s[0] * Fold(s[1..])
  }

  /** The factors the recursion to the root multiplies. */
  ghost function TotalFactors(g: Graph, p: Ref): seq<real>
    requires LevelsFall(g) && p in g
    decreases g[p].level
  {
    if IsRootBaseUnit(g[p]) then []
    else if g[p].base.Some? then [g[p].factor] + TotalFactors(g, g[p].base.value)
    else [g[p].factor]
  }

  lemma {:induction false} FoldCons(x: real, s: seq<real>)
    ensures Fold([x] + s) == x * Fold(s)
  {
    assert ([x] + s)[1..] == s;
  }

  lemma {:induction false} FoldSnoc(s: seq<real>, x: real)
    ensures Fold(s + [x]) == Fold(s) * x
  {
    if s == [] {
      assert s + [x] == [x];
    } else {
      assert (s + [x])[1..] == s[1..] + [x];
      FoldSnoc(s[1..], x);
      Associates(s[0], Fold(s[1..]), x);
    }
  }

  lemma {:induction false} TotalIsFold(g: Graph, p: Ref)
    requires LevelsFall(g) && p in g
    ensures GetTotalConversionFactorToRoot(g, p) == Fold(TotalFactors(g, p))
    decreases g[p].level
  {
    if IsRootBaseUnit(g[p]) {
    } else if g[p].base.Some? {
      TotalIsFold(g, g[p].base.value);
      FoldCons(g[p].factor, TotalFactors(g, g[p].base.value));
    } else {
      FoldCons(g[p].factor, []);
    }
  }

  ghost function Factors(g: Graph, s: seq<Ref>): (r: seq<real>)
    requires forall p :: p in s ==> p in g
    ensures |r| == |s|
  {
    seq(|s|, i requires 0 <= i < |s| => g[s[i]].factor)
  }

  lemma {:induction false} ProductIsFold(g: Graph, s: seq<Ref>)
    requires forall p :: p in s ==> p in g
    ensures Product(g, s) == Fold(Factors(g, s))
  {
    if s != [] {
      var front, last := s[..|s| - 1], s[|s| - 1];
      ProductIsFold(g, front);
      assert Factors(g, s) == Factors(g, front) + [g[last].factor];
      FoldSnoc(Factors(g, front), g[last].factor);
    }
  }

  /** The recursion multiplies the factors below the top, and the top's own unless that is a root. */
  lemma {:induction false} TotalFactorsAre(g: Graph, p: Ref)
    requires Consistent(g) && LevelsFall(g) && p in g
    ensures TotalFactors(g, p) == Factors(g, Front(Chain(g, p))) + OwnFactors(g[Last(Chain(g, p))])
    decreases g[p].level
  {
    if g[p].base.Some? {
      var rest := Chain(g, g[p].base.value);
      TotalFactorsAre(g, g[p].base.value);
      FactorsCons(g, p, rest);
      var below, own := Factors(g, Front(rest)), OwnFactors(g[Last(rest)]);
      assert [g[p].factor] + (below + own) == [g[p].factor] + below + own;
    } else {
      assert Factors(g, Front([p])) == [];
    }
  }

  function OwnFactors(u: Unit): seq<real> {
    if IsRootBaseUnit(u) then [] else [u.factor]
  }

  lemma {:induction false} FactorsCons(g: Graph, p: Ref, rest: seq<Ref>)
    requires p in g && rest != [] && forall q :: q in rest ==> q in g
    ensures Factors(g, Front([p] + rest)) == [g[p].factor] + Factors(g, Front(rest)) && Last([p] + rest) == Last(rest)
  {
    assert Front([p] + rest) == [p] + Front(rest);
  }

  /**
   The recursive total is the walk's factor to the root it names, times the factor of a top that is not
   a root: so the two agree exactly when the chain ends in a root or in a unit with factor 1.
   */
  lemma {:induction false} TotalAgainstWalk(g: Graph, p: Ref)
    requires Consistent(g) && LevelsFall(g) && SameLevels(g) && PositiveFactors(g) && p in g
    ensures var top := g[Last(Chain(g, p))];
            && GetRootBaseUnitID(g, p) == top.id
            && TotalsCompare(GetTotalConversionFactorToRoot(g, p), Conversion(g, p, top.id), top)
  {
    RootIsTop(g, p);
    WalkedToTop(g, p);
  }

  /** The total is the walked factor times the top's own, and equal to it only for a root or a factor of 1. */
  predicate TotalsCompare(total: real, walked: real, top: Unit) {
    total == walked * OwnFactor(top) && (total == walked <==> IsRootBaseUnit(top) || top.factor == 1.0)
  }

  lemma {:induction false} Compare(total: real, walked: real, top: Unit)
    requires walked > 0.0 && total == walked * OwnFactor(top)
    ensures TotalsCompare(total, walked, top)
  {
    OnlyOneKeeps(walked, OwnFactor(top), total);
    assert OwnFactor(top) == 1.0 <==> IsRootBaseUnit(top) || top.factor == 1.0;
  }

  /** The walk's factor to the top is the product of the factors below it. */
  lemma {:induction false} ConversionIsFold(g: Graph, p: Ref)
    requires Consistent(g) && LevelsFall(g) && SameLevels(g) && PositiveFactors(g) && p in g
    ensures Conversion(g, p, g[Last(Chain(g, p))].id) == Fold(Factors(g, Front(Chain(g, p)))) > 0.0
  {
    ChainIsRoute(g, p);
    ConversionIs(g, p, g[Last(Chain(g, p))].id, Chain(g, p));
    ProductPositive(g, Front(Chain(g, p)));
    ProductIsFold(g, Front(Chain(g, p)));
  }

  lemma {:induction false} WalkedToTop(g: Graph, p: Ref)
    requires Consistent(g) && LevelsFall(g) && SameLevels(g) && PositiveFactors(g) && p in g
    ensures TotalsCompare(GetTotalConversionFactorToRoot(g, p), Conversion(g, p, g[Last(Chain(g, p))].id),
            g[Last(Chain(g, p))])
  {
    var below, top := Factors(g, Front(Chain(g, p))), g[Last(Chain(g, p))];
    TotalIsFold(g, p);
    TotalFactorsAre(g, p);
    ConversionIsFold(g, p);
    FoldOwn(below, top);
    Compare(Fold(below + OwnFactors(top)), Fold(below), top);
  }

  lemma {:induction false} FoldOwn(below: seq<real>, top: Unit)
    ensures Fold(below + OwnFactors(top)) == Fold(below) * OwnFactor(top)
  {
    if IsRootBaseUnit(top) {
      assert below + [] == below;
    } else {
      FoldSnoc(below, top.factor);
    }
  }

  lemma {:induction false} WalkedIsPositive(g: Graph, p: Ref)
    requires Consistent(g) && LevelsFall(g) && SameLevels(g) && PositiveFactors(g) && p in g
    ensures Conversion(g, p, g[Last(Chain(g, p))].id) > 0.0
  {
    ConversionIsFold(g, p);
  }

  lemma {:induction false} OnlyOneKeeps(x: real, y: real, z: real)
    requires x > 0.0 && z == x * y
    ensures z == x <==> y == 1.0
  {
    if z == x {
      assert x * (y - 1.0) == 0.0;
    }
  }

  /** Well levelled and fully loaded, the chain ends in a root after level - 1 links, and the two factors agree. */
  lemma {:induction false} LoadedTotalIsWalk(g: Graph, p: Ref)
    requires WellLevelled(g) && Loaded(g) && SameLevels(g) && PositiveFactors(g) && p in g
    ensures LevelsFall(g)
    ensures IsRootBaseUnit(g[Last(Chain(g, p))]) && |Chain(g, p)| == g[p].level
    ensures GetTotalConversionFactorToRoot(g, p) == Conversion(g, p, GetRootBaseUnitID(g, p)) > 0.0
  {
    WellLevelledFalls(g);
    TopIsRoot(g, p);
    TotalAgainstWalk(g, p);
    RootIsTop(g, p);
    WalkedIsPositive(g, p);
  }

  /** A unit of twelve whose base is recorded and not loaded: the total is 12, the walked factor 1. */
  lemma {:induction false} UnloadedBaseSplitsFactors() returns (g: Graph, p: Ref)
    ensures Consistent(g) && LevelsFall(g) && p in g && g[p].baseID.Some? && g[p].base == None
    ensures GetTotalConversionFactorToRoot(g, p) == 12.0 && Conversion(g, p, GetRootBaseUnitID(g, p)) == 1.0
  {
    g, p := map[0 := Unit(2, 12.0, 2, Some(1), None)], 0;
    TotalAgainstWalk(g, p);
    assert Route(g, p, 2, [p]);
    ConversionIs(g, p, 2, [p]);
    assert Front([p]) == [];
  }

  lemma {:induction false} TopIsRoot(g: Graph, p: Ref)
    requires WellLevelled(g) && Loaded(g) && LevelsFall(g) && p in g
    ensures IsRootBaseUnit(g[Last(Chain(g, p))]) && |Chain(g, p)| == g[p].level
    decreases g[p].level
  {
    assert g[p].level == GetExpectedLevel(g, p);
    if g[p].base.Some? {
      TopIsRoot(g, g[p].base.value);
    }
  }
}
