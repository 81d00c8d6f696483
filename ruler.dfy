/** The ruler's difficult-terrain movement cost: the cost function used for every step
    of a measured path, with its per-cell and per-behavior caches, the lazily built
    ignore predicates, and the roll options read as if the token stood in the regions it
    passes through. */
module Ruler {
  import opened Wrappers
  import opened Strings
  import P = Predication

  datatype Terrain = Standard | Greater

  /** The centre of a grid space, in whole canvas units. */
  datatype Point = Point(x: int, y: int)

  /** An environment behavior of a scene region. */
  datatype Behavior = Behavior(id: string, region: string, groundOnly: bool, difficultTerrain: Terrain)

  /** A region behavior of the scene, of whatever type. */
  datatype SceneBehavior = SceneBehavior(isEnvironment: bool, behavior: Behavior)

  /** An entry of the per-cell cache. */
  datatype CacheEntry = CacheEntry(cost: int, difficulty: Option<string>)

  /** The measured token's actor: whether it is a creature, and its `ignore` and
      `ignoreGreater` difficult-terrain statements. */
  datatype Actor = Actor(isCreature: bool, ignore: seq<P.Predicate>, ignoreGreater: seq<P.Predicate>)

  /** What the ruler remembers from one step of a measurement to the next. */
  datatype Memo = Memo(
    behaviorCosts: map<string, int>,
    coordinates: map<string, CacheEntry>,
    difficulty: Option<string>,
    ignore: Option<P.Predicate>,
    ignoreGreater: Option<P.Predicate>)

  /** The memo at the start and at the end of a measurement. */
  const Fresh: Memo := Memo(map[], map[], None, None, None)

  /** What a step reads besides the memo. `regions` is the measured token's region set
      (none without a token or a scene), and `rollOptions` stands for the actor's roll
      options while the token is in the given regions. */
  datatype Scene = Scene(
    behaviors: seq<Behavior>,
    elevation: int,
    actor: Option<Actor>,
    regions: Option<set<string>>,
    rollOptions: set<string> -> seq<string>,
    standardLabel: string,
    greaterLabel: string)

  // ---------------------------------------------------------------------------
  // Cache keys

  /** The first position of `c` in `s`, or `|s|`. */
  function IndexOfChar(s: string, c: char): (r: nat)
    ensures r <= |s| && (r < |s| ==> s[r] == c) && forall i | 0 <= i < r :: s[i] != c
  {
    if s == [] then 0 else if s[0] == c then 0 else IndexOfChar(s[1..], c) + 1
  }

  lemma {:induction false} IndexOfCharAfter(u: string, c: char, v: string)
    requires c !in u
    ensures IndexOfChar(u + [c] + v, c) == |u|
  {
    if u != [] {
      assert (u + [c] + v)[1..] == u[1..] + [c] + v;
      IndexOfCharAfter(u[1..], c, v);
    }
  }

  /** The cache key `${x}.${y}`. */
  function CoordsKey(p: Point): string {
    IntToString(p.x) + "." + IntToString(p.y)
  }

  /** Distinct points have distinct keys. */
  lemma CoordsKeyInjective(p: Point, q: Point)
    ensures CoordsKey(p) == CoordsKey(q) <==> p == q
  {
    if CoordsKey(p) == CoordsKey(q) {
      var s := CoordsKey(p);
      IntToStringNoColon(p.x);
      IntToStringNoColon(q.x);
      IndexOfCharAfter(IntToString(p.x), '.', IntToString(p.y));
      IndexOfCharAfter(IntToString(q.x), '.', IntToString(q.y));
      var n := |IntToString(p.x)|;
      assert s[..n] == IntToString(p.x) && s[..n] == IntToString(q.x);
      assert s[n + 1..] == IntToString(p.y) && s[n + 1..] == IntToString(q.y);
      IntToStringInjective(p.x, q.x);
      IntToStringInjective(p.y, q.y);
    }
  }

  // ---------------------------------------------------------------------------
  // Which behaviors count

  /** `_startMeasurement`: the environment behaviors of every region, in order. */
  function EnvironmentBehaviors(regions: seq<seq<SceneBehavior>>): (r: seq<Behavior>)
    ensures forall b :: b in r <==> exists i, j | 0 <= i < |regions| && 0 <= j < |regions[i]| ::
      regions[i][j].isEnvironment && regions[i][j].behavior == b
  {
    if regions == [] then []
    else
      var rest := EnvironmentBehaviors(regions[1..]);
      assert forall i | 1 <= i < |regions| :: regions[1..][i - 1] == regions[i];
      Environmental(regions[0]) + rest
  }

  function Environmental(s: seq<SceneBehavior>): (r: seq<Behavior>)
    ensures forall b :: b in r <==> exists j | 0 <= j < |s| :: s[j].isEnvironment && s[j].behavior == b
  {
    if s == [] then []
    else
      assert forall j | 1 <= j < |s| :: s[1..][j - 1] == s[j];
      (if s[0].isEnvironment then [s[0].behavior] else []) + Environmental(s[1..])
  }

  /** Whether a behavior counts for a step: its region contains the point (`inside`
      stands for that test at the step's point), and a ground-only behavior counts only
      at elevation 0. */
  predicate Counts(b: Behavior, inside: Behavior -> bool, elevation: int) {
    inside(b) && (b.groundOnly ==> elevation == 0)
  }

  /** The behaviors that count for a step, in order. */
  function Matched(behaviors: seq<Behavior>, inside: Behavior -> bool, elevation: int): (r: seq<Behavior>)
    ensures |r| <= |behaviors|
    ensures forall b :: b in r <==> b in behaviors && Counts(b, inside, elevation)
  {
    if behaviors == [] then []
    else
      var rest := Matched(behaviors[1..], inside, elevation);
      assert forall b | b in behaviors :: b == behaviors[0] || b in behaviors[1..];
      (if Counts(behaviors[0], inside, elevation) then [behaviors[0]] else []) + rest
  }

  predicate IsGreater(matched: seq<Behavior>) {
    exists i | 0 <= i < |matched| :: matched[i].difficultTerrain == Greater
  }

  /** The cached cost of the first behavior that has one. */
  function FirstCached(matched: seq<Behavior>, costs: map<string, int>): (r: Option<int>)
    ensures r.None? <==> forall i | 0 <= i < |matched| :: matched[i].id !in costs
    ensures r.Some? ==> exists i | 0 <= i < |matched| :: matched[i].id in costs && r.value == costs[matched[i].id]
  {
    if matched == [] then None
    else if matched[0].id in costs then Some(costs[matched[0].id])
    else
      var rest := FirstCached(matched[1..], costs);
      assert forall i | 1 <= i < |matched| :: matched[1..][i - 1] == matched[i];
      rest
  }

  /** The cached cost found is that of the first behavior with one. */
  lemma {:induction false} FirstCachedAt(matched: seq<Behavior>, costs: map<string, int>, i: int)
    requires 0 <= i < |matched| && matched[i].id in costs
    requires forall j | 0 <= j < i :: matched[j].id !in costs
    ensures FirstCached(matched, costs) == Some(costs[matched[i].id])
  {
    if i > 0 {
      assert matched[1..][i - 1] == matched[i];
      FirstCachedAt(matched[1..], costs, i - 1);
    }
  }

  /** `costs` with every matched behavior's id mapped to `cost`. */
  function SetAll(costs: map<string, int>, matched: seq<Behavior>, cost: int): (r: map<string, int>)
    ensures forall k :: k in r <==> k in costs || exists i | 0 <= i < |matched| :: matched[i].id == k
    ensures forall i | 0 <= i < |matched| :: r[matched[i].id] == cost
    ensures forall k | k in costs && (forall i | 0 <= i < |matched| :: matched[i].id != k) :: r[k] == costs[k]
    decreases |matched|
  {
    if matched == [] then costs
    else
      var r := SetAll(costs[matched[0].id := cost], matched[1..], cost);
      assert forall i | 1 <= i < |matched| :: matched[1..][i - 1] == matched[i];
      r
  }

  /** The regions of the matched behaviors. */
  function RegionsOf(matched: seq<Behavior>): (r: set<string>)
    ensures forall g :: g in r <==> exists i | 0 <= i < |matched| :: matched[i].region == g
  {
    set i | 0 <= i < |matched| :: matched[i].region
  }

  /** `#getRollOptionsForBehaviors`: the actor's roll options with the token in the
      matched regions as well as its own; none without a region set. */
  function RollOptionsFor(regions: Option<set<string>>, matched: seq<Behavior>, rollOptions: set<string> -> seq<string>)
    : seq<string>
  {
    if regions.None? then [] else rollOptions(regions.value + RegionsOf(matched))
  }

  // ---------------------------------------------------------------------------
  // The terrain rule

  /** `createPredicate`: several statements are joined with `or`, a single one is used
      as it is. */
  function CreatePredicate(statements: seq<P.Predicate>): (r: P.Predicate)
    requires |statements| > 0
  {
    if |statements| > 1 then P.Or(statements) else statements[0]
  }

  /** Either way the predicate holds when one of the statements does. */
  lemma CreatePredicateMeaning(statements: seq<P.Predicate>, tags: set<string>)
    requires |statements| > 0
    ensures P.Test(CreatePredicate(statements), tags) <==> exists i | 0 <= i < |statements| :: P.Test(statements[i], tags)
  {
    if |statements| == 1 {
      assert forall i | 0 <= i < |statements| :: statements[i] == statements[0];
    }
  }

  /** A predicate built once per measurement and then reused. */
  function Lazy(built: Option<P.Predicate>, statements: seq<P.Predicate>): P.Predicate
    requires |statements| > 0
  {
    if built.Some? then built.value else CreatePredicate(statements)
  }

  /** The roll options as the set a predicate is tested against. */
  function Tags(options: seq<string>): (r: set<string>)
    ensures forall o :: o in r <==> o in options
  {
    set o | o in options
  }

  /** The extra cost of difficult terrain over the step's distance, and the memo with the
      predicates the decision built: none when greater terrain is ignored outright, 5 for
      ignored greater terrain, 0 for ignored standard terrain, otherwise 10 for greater
      and 5 for standard terrain. */
  function Surcharge(m: Memo, a: Actor, isGreater: bool, options: seq<string>): (r: (int, Memo))
    ensures var tags := Tags(options);
      var greaterIgnored := isGreater && |a.ignoreGreater| > 0 && P.Test(Lazy(m.ignoreGreater, a.ignoreGreater), tags);
      && r.0 == SurchargeOf(isGreater, greaterIgnored, |a.ignore| > 0 && P.Test(Lazy(m.ignore, a.ignore), tags))
      && r.1.ignoreGreater == (if isGreater && |a.ignoreGreater| > 0 then Some(Lazy(m.ignoreGreater, a.ignoreGreater)) else m.ignoreGreater)
      && r.1.ignore == (if |a.ignore| > 0 && !greaterIgnored then Some(Lazy(m.ignore, a.ignore)) else m.ignore)
    ensures r.1.behaviorCosts == m.behaviorCosts && r.1.coordinates == m.coordinates && r.1.difficulty == m.difficulty
  {
    var tags := Tags(options);
    if isGreater && |a.ignoreGreater| > 0 && P.Test(Lazy(m.ignoreGreater, a.ignoreGreater), tags) then
      (0, m.(ignoreGreater := Some(Lazy(m.ignoreGreater, a.ignoreGreater))))
    else
      var m1 := if isGreater && |a.ignoreGreater| > 0 then m.(ignoreGreater := Some(Lazy(m.ignoreGreater, a.ignoreGreater))) else m;
      if |a.ignore| > 0 then
        var m2 := m1.(ignore := Some(Lazy(m.ignore, a.ignore)));
        if P.Test(Lazy(m.ignore, a.ignore), tags) then (if isGreater then 5 else 0, m2)
        else (if isGreater then 10 else 5, m2)
      else (if isGreater then 10 else 5, m1)
  }

  /** An actor with no ignore statements reads no roll options. */
  lemma SurchargeWithoutStatements(m: Memo, a: Actor, isGreater: bool, o1: seq<string>, o2: seq<string>)
    requires |a.ignore| == 0 && |a.ignoreGreater| == 0
    ensures Surcharge(m, a, isGreater, o1) == Surcharge(m, a, isGreater, o2)
  {
  }

  /** The surcharge as a rule over what the predicates say. */
  function SurchargeOf(isGreater: bool, greaterIgnored: bool, ignored: bool): int {
    if isGreater && greaterIgnored then 0
    else if ignored then (if isGreater then 5 else 0)
    else if isGreater then 10 else 5
  }

  /** The rule's shape: the surcharge is 0, 5 or 10; greater terrain never costs less
      than standard terrain; ignoring never costs more; and ignored greater terrain costs
      what plain standard terrain does. */
  lemma SurchargeRule(greaterIgnored: bool, ignored: bool)
    ensures forall g: bool :: SurchargeOf(g, greaterIgnored, ignored) in {0, 5, 10}
    ensures SurchargeOf(false, greaterIgnored, ignored) <= SurchargeOf(true, false, ignored)
    ensures SurchargeOf(true, greaterIgnored, ignored) <= SurchargeOf(true, false, false)
    ensures SurchargeOf(false, greaterIgnored, ignored) <= SurchargeOf(false, false, false)
    ensures SurchargeOf(true, false, true) == SurchargeOf(false, false, false)
    ensures SurchargeOf(false, greaterIgnored, ignored) == (if ignored then 0 else 5)
  {
  }

  // ---------------------------------------------------------------------------
  // A step of a measurement

  /** `#calculateCost` as written: the cached cost of a matched behavior wins; an actor
      that is no creature pays the distance and nothing is cached; otherwise the cost is
      the distance plus the surcharge, and it is cached for every matched behavior. */
  function CalculateAsWritten(m: Memo, matched: seq<Behavior>, distance: int, isGreater: bool,
                              actor: Option<Actor>, options: seq<string>): (r: (int, Memo))
  {
    var cached := FirstCached(matched, m.behaviorCosts);
    if cached.Some? then (cached.value, m)
    else if actor.None? || !actor.value.isCreature then (distance, m)
    else
      var s := Surcharge(m, actor.value, isGreater, options);
      (distance + s.0, s.1.(behaviorCosts := SetAll(m.behaviorCosts, matched, distance + s.0)))
  }

  /** The cost function of `_getCostFunction` as written: a cached cell returns its
      cost and difficulty label without testing any region; a cell with matched
      behaviors gets the label of the worst terrain and the computed cost; any other cell
      costs the distance and has no label. The cell's cost and label are cached. */
  function StepAsWritten(m: Memo, sc: Scene, point: Point, distance: int, inside: Behavior -> bool): (r: (int, Memo))
  {
    var key := CoordsKey(point);
    if key in m.coordinates then (m.coordinates[key].cost, m.(difficulty := m.coordinates[key].difficulty))
    else
      var matched := Matched(sc.behaviors, inside, sc.elevation);
      if |matched| > 0 then
        var lbl := LabelOf(sc, matched);
        var options := RollOptionsFor(sc.regions, matched, sc.rollOptions);
        var c := CalculateAsWritten(m.(difficulty := lbl), matched, distance, IsGreater(matched), sc.actor, options);
        (c.0, c.1.(coordinates := c.1.coordinates[key := CacheEntry(c.0, lbl)]))
      else (distance, m.(difficulty := None, coordinates := m.coordinates[key := CacheEntry(distance, None)]))
  }

  /** `#calculateCost` with the caches holding the surcharge rather than the cost, so a
      cached decision is added to the distance of the step at hand. */
  function Calculate(m: Memo, matched: seq<Behavior>, distance: int, isGreater: bool,
                     actor: Option<Actor>, options: seq<string>): (r: (int, Memo))
  {
    var cached := FirstCached(matched, m.behaviorCosts);
    if cached.Some? then (distance + cached.value, m)
    else if actor.None? || !actor.value.isCreature then (distance, m)
    else
      var s := Surcharge(m, actor.value, isGreater, options);
      (distance + s.0, s.1.(behaviorCosts := SetAll(m.behaviorCosts, matched, s.0)))
  }

  /** The cost function with surcharges cached instead of costs. */
  function Step(m: Memo, sc: Scene, point: Point, distance: int, inside: Behavior -> bool): (r: (int, Memo))
  {
    var key := CoordsKey(point);
    if key in m.coordinates then (distance + m.coordinates[key].cost, m.(difficulty := m.coordinates[key].difficulty))
    else
      var matched := Matched(sc.behaviors, inside, sc.elevation);
      if |matched| > 0 then
        var lbl := LabelOf(sc, matched);
        var options := RollOptionsFor(sc.regions, matched, sc.rollOptions);
        var c := Calculate(m.(difficulty := lbl), matched, distance, IsGreater(matched), sc.actor, options);
        (c.0, c.1.(coordinates := c.1.coordinates[key := CacheEntry(c.0 - distance, lbl)]))
      else (distance, m.(difficulty := None, coordinates := m.coordinates[key := CacheEntry(0, None)]))
  }

  /** Every surcharge a memo holds is one the terrain rule can give. */
  predicate Sound(m: Memo) {
    && (forall k | k in m.behaviorCosts :: m.behaviorCosts[k] in {0, 5, 10})
    && (forall k | k in m.coordinates :: m.coordinates[k].cost in {0, 5, 10})
  }

  lemma SurchargeRange(m: Memo, a: Actor, isGreater: bool, options: seq<string>)
    ensures Surcharge(m, a, isGreater, options).0 in {0, 5, 10}
  {
  }

  /** A step costs its distance plus 0, 5 or 10 and keeps the memo sound; a cell no
      behavior counts for costs exactly its distance and is remembered without a label. */
  lemma StepBounds(m: Memo, sc: Scene, point: Point, distance: int, inside: Behavior -> bool)
    requires Sound(m)
    ensures var r := Step(m, sc, point, distance, inside);
      && r.0 - distance in {0, 5, 10}
      && Sound(r.1)
      && CoordsKey(point) in r.1.coordinates
      && r.1.coordinates[CoordsKey(point)] == CacheEntry(r.0 - distance, r.1.difficulty)
    ensures CoordsKey(point) !in m.coordinates && Matched(sc.behaviors, inside, sc.elevation) == [] ==>
      Step(m, sc, point, distance, inside) == (distance, m.(difficulty := None, coordinates := m.coordinates[CoordsKey(point) := CacheEntry(0, None)]))
  {
    var key := CoordsKey(point);
    if key in m.coordinates {
      assert Step(m, sc, point, distance, inside) == (distance + m.coordinates[key].cost, m.(difficulty := m.coordinates[key].difficulty));
    } else {
      var matched := Matched(sc.behaviors, inside, sc.elevation);
      if |matched| > 0 {
        var lbl := LabelOf(sc, matched);
        var options := RollOptionsFor(sc.regions, matched, sc.rollOptions);
        StepUncached(m, sc, point, distance, inside);
        CalculateBounds(m.(difficulty := lbl), matched, distance, IsGreater(matched), sc.actor, options);
      } else {
        assert Step(m, sc, point, distance, inside) == (distance, m.(difficulty := None, coordinates := m.coordinates[key := CacheEntry(0, None)]));
      }
    }
  }

  /** The step into an uncached cell that some behavior counts for, spelled out. */
  lemma StepUncached(m: Memo, sc: Scene, point: Point, distance: int, inside: Behavior -> bool)
    requires CoordsKey(point) !in m.coordinates
    requires |Matched(sc.behaviors, inside, sc.elevation)| > 0
    ensures var matched := Matched(sc.behaviors, inside, sc.elevation);
      var lbl := LabelOf(sc, matched);
      var c := Calculate(m.(difficulty := lbl), matched, distance, IsGreater(matched), sc.actor,
                         RollOptionsFor(sc.regions, matched, sc.rollOptions));
      Step(m, sc, point, distance, inside) == (c.0, c.1.(coordinates := c.1.coordinates[CoordsKey(point) := CacheEntry(c.0 - distance, lbl)]))
  {
  }

  /** A computed cost is the distance plus 0, 5 or 10, the behavior cache stays sound,
      and the cell cache and the label are not touched. */
  lemma CalculateBounds(m: Memo, matched: seq<Behavior>, distance: int, isGreater: bool,
                        actor: Option<Actor>, options: seq<string>)
    requires Sound(m)
    ensures var r := Calculate(m, matched, distance, isGreater, actor, options);
      && r.0 - distance in {0, 5, 10}
      && (forall k | k in r.1.behaviorCosts :: r.1.behaviorCosts[k] in {0, 5, 10})
      && r.1.coordinates == m.coordinates && r.1.difficulty == m.difficulty
  {
    var cached := FirstCached(matched, m.behaviorCosts);
    if cached.None? && actor.Some? && actor.value.isCreature {
      SurchargeRange(m, actor.value, isGreater, options);
    }
  }

  /** The rules of `#calculateCost`: a behavior's cached surcharge is used first; an
      actor that is no creature pays the distance and nothing is cached; otherwise the
      terrain rule's surcharge is paid and cached for every matched behavior. */
  lemma CalculateRules(m: Memo, matched: seq<Behavior>, distance: int, isGreater: bool,
                       actor: Option<Actor>, options: seq<string>)
    ensures var r := Calculate(m, matched, distance, isGreater, actor, options);
      var cached := FirstCached(matched, m.behaviorCosts);
      && r.1.difficulty == m.difficulty && r.1.coordinates == m.coordinates
      && (cached.Some? ==> r.0 == distance + cached.value && r.1.behaviorCosts == m.behaviorCosts)
      && (cached.None? && (actor.None? || !actor.value.isCreature) ==>
            r.0 == distance && r.1.behaviorCosts == m.behaviorCosts)
      && (cached.None? && actor.Some? && actor.value.isCreature ==>
            var tags := Tags(options);
            var a := actor.value;
            && r.0 == distance + SurchargeOf(isGreater,
                 isGreater && |a.ignoreGreater| > 0 && P.Test(Lazy(m.ignoreGreater, a.ignoreGreater), tags),
                 |a.ignore| > 0 && P.Test(Lazy(m.ignore, a.ignore), tags))
            && forall i | 0 <= i < |matched| :: r.1.behaviorCosts[matched[i].id] == r.0 - distance)
  {
  }

  /** The label of a cell with matched behaviors names its worst terrain. */
  function LabelOf(sc: Scene, matched: seq<Behavior>): Option<string> {
    Some(if IsGreater(matched) then sc.greaterLabel else sc.standardLabel)
  }

  /** The rules of a step into a cell that is not cached yet and that some behavior
      counts for: the label names the worst terrain; a behavior's cached surcharge is
      used first; an actor that is no creature pays the distance and nothing is
      cached for the behaviors; otherwise the terrain rule's surcharge is paid and
      cached for every matched behavior. The cell is cached either way. */
  lemma StepRules(m: Memo, sc: Scene, point: Point, distance: int, inside: Behavior -> bool)
    requires CoordsKey(point) !in m.coordinates
    requires |Matched(sc.behaviors, inside, sc.elevation)| > 0
    ensures var matched := Matched(sc.behaviors, inside, sc.elevation);
      var r := Step(m, sc, point, distance, inside);
      var cached := FirstCached(matched, m.behaviorCosts);
      && r.1.difficulty == LabelOf(sc, matched)
      && r.1.coordinates == m.coordinates[CoordsKey(point) := CacheEntry(r.0 - distance, r.1.difficulty)]
      && (cached.Some? ==> r.0 == distance + cached.value && r.1.behaviorCosts == m.behaviorCosts)
      && (cached.None? && (sc.actor.None? || !sc.actor.value.isCreature) ==>
            r.0 == distance && r.1.behaviorCosts == m.behaviorCosts)
      && (cached.None? && sc.actor.Some? && sc.actor.value.isCreature ==>
            var tags := Tags(RollOptionsFor(sc.regions, matched, sc.rollOptions));
            var a := sc.actor.value;
            && r.0 == distance + SurchargeOf(IsGreater(matched),
                 IsGreater(matched) && |a.ignoreGreater| > 0 && P.Test(Lazy(m.ignoreGreater, a.ignoreGreater), tags),
                 |a.ignore| > 0 && P.Test(Lazy(m.ignore, a.ignore), tags))
            && forall i | 0 <= i < |matched| :: r.1.behaviorCosts[matched[i].id] == r.0 - distance)
  {
    var matched := Matched(sc.behaviors, inside, sc.elevation);
    var lbl := LabelOf(sc, matched);
    StepUncached(m, sc, point, distance, inside);
    CalculateRules(m.(difficulty := lbl), matched, distance, IsGreater(matched), sc.actor,
                   RollOptionsFor(sc.regions, matched, sc.rollOptions));
  }

  /** The same rules for the step as written, where the cost rather than the surcharge
      is cached. */
  lemma StepAsWrittenRules(m: Memo, sc: Scene, point: Point, distance: int, inside: Behavior -> bool)
    requires CoordsKey(point) !in m.coordinates
    ensures var matched := Matched(sc.behaviors, inside, sc.elevation);
      var r := StepAsWritten(m, sc, point, distance, inside);
      var cached := FirstCached(matched, m.behaviorCosts);
      && (|matched| == 0 ==> r == (distance, m.(difficulty := None, coordinates := m.coordinates[CoordsKey(point) := CacheEntry(distance, None)])))
      && (|matched| > 0 ==>
        && r.1.difficulty == LabelOf(sc, matched)
        && r.1.coordinates == m.coordinates[CoordsKey(point) := CacheEntry(r.0, r.1.difficulty)]
        && (cached.Some? ==> r.0 == cached.value && r.1.behaviorCosts == m.behaviorCosts)
        && (cached.None? && (sc.actor.None? || !sc.actor.value.isCreature) ==>
              r.0 == distance && r.1.behaviorCosts == m.behaviorCosts)
        && (cached.None? && sc.actor.Some? && sc.actor.value.isCreature ==>
              forall i | 0 <= i < |matched| :: r.1.behaviorCosts[matched[i].id] == r.0))
  {
  }

  /** A step's surcharge and what it leaves in the memo do not depend on its distance. */
  lemma StepDistanceIndependent(m: Memo, sc: Scene, point: Point, d1: int, d2: int, inside: Behavior -> bool)
    ensures Step(m, sc, point, d1, inside).0 - d1 == Step(m, sc, point, d2, inside).0 - d2
    ensures Step(m, sc, point, d1, inside).1 == Step(m, sc, point, d2, inside).1
  {
  }

  /** Where neither cache has an answer, the corrected step costs what the step as
      written does. */
  lemma StepAgreesUncached(m: Memo, sc: Scene, point: Point, distance: int, inside: Behavior -> bool)
    requires CoordsKey(point) !in m.coordinates
    requires FirstCached(Matched(sc.behaviors, inside, sc.elevation), m.behaviorCosts).None?
    ensures Step(m, sc, point, distance, inside).0 == StepAsWritten(m, sc, point, distance, inside).0
  {
  }

  /** A cached cell decides the step without looking at the regions: any behaviors and
      any containment test give the same result. */
  lemma CacheHitIgnoresRegions(m: Memo, sc1: Scene, sc2: Scene, point: Point, distance: int,
                               in1: Behavior -> bool, in2: Behavior -> bool)
    requires CoordsKey(point) in m.coordinates
    ensures Step(m, sc1, point, distance, in1) == Step(m, sc2, point, distance, in2)
    ensures StepAsWritten(m, sc1, point, distance, in1) == StepAsWritten(m, sc2, point, distance, in2)
  {
  }

  /** The measurement the two versions are compared on: one standard region covering
      every cell, and a creature that ignores nothing. */
  function OneRegion(): Scene {
    Scene([Behavior("b", "r", false, Standard)], 0, Some(Actor(true, [], [])), None, _ => [], "standard", "greater")
  }

  /** As written, the cost cached for a behavior carries the distance of the step that
      computed it: after a diagonal step of 10 into the region, an orthogonal step of 5
      to the next cell costs 15 where standard terrain adds 5 to it. */
  lemma CachedCostCarriesDistance()
    ensures var m := StepAsWritten(Fresh, OneRegion(), Point(0, 0), 10, _ => true).1;
      StepAsWritten(m, OneRegion(), Point(1, 0), 5, _ => true).0 == 15
    ensures var m := Step(Fresh, OneRegion(), Point(0, 0), 10, _ => true).1;
      Step(m, OneRegion(), Point(1, 0), 5, _ => true).0 == 10
  {
    var sc := OneRegion();
    var b := Behavior("b", "r", false, Standard);
    assert Matched(sc.behaviors, _ => true, 0) == [b];
    assert IsGreater([b]) == false;
    CoordsKeyInjective(Point(0, 0), Point(1, 0));
    var m := StepAsWritten(Fresh, sc, Point(0, 0), 10, _ => true).1;
    assert m.behaviorCosts == map["b" := 15];
    assert CoordsKey(Point(1, 0)) !in m.coordinates;
    var n := Step(Fresh, sc, Point(0, 0), 10, _ => true).1;
    assert n.behaviorCosts == map["b" := 5];
    assert CoordsKey(Point(1, 0)) !in n.coordinates;
  }

  // ---------------------------------------------------------------------------
  // The ruler

  /** The measured token: its elevation, its actor, and the regions its document is in,
      a set the ruler adds to and removes from. */
  class Token {
    const elevation: int
    const actor: Option<Actor>
    var regions: Option<set<string>>

    constructor(elevation: int, actor: Option<Actor>, regions: Option<set<string>>)
      ensures this.elevation == elevation && this.actor == actor && this.regions == regions
    {
      this.elevation := elevation;
      this.actor := actor;
      this.regions := regions;
    }
  }

  /** `#getRollOptionsForBehaviors`: the regions the token is not yet in are added, the
      roll options are read, and the same regions are removed again, so the token's
      region set ends as it began. */
  method RollOptionsForBehaviors(token: Token, matched: seq<Behavior>, rollOptions: set<string> -> seq<string>)
    returns (options: seq<string>)
    modifies token
    ensures token.regions == old(token.regions)
    ensures options == RollOptionsFor(old(token.regions), matched, rollOptions)
  {
    if token.regions.None? {
      return [];
    }
    var start := token.regions.value;
    var newRegions: seq<string> := [];
    for i := 0 to |matched|
      invariant forall g :: g in newRegions <==> g !in start && exists j | 0 <= j < i :: matched[j].region == g
      invariant forall j | 0 <= j < |newRegions| :: newRegions[j] !in start
    {
      if matched[i].region !in start {
        newRegions := newRegions + [matched[i].region];
      }
    }
    AddRegions(token, newRegions);
    ghost var added := set j | 0 <= j < |newRegions| :: newRegions[j];
    assert token.regions.value == start + RegionsOf(matched);
    options := rollOptions(token.regions.value);
    RemoveRegions(token, newRegions);
    assert token.regions.value == (start + added) - added;
    assert token.regions.value == start;
  }

  /** Each region of `rs` is added to the token's region set. */
  method AddRegions(token: Token, rs: seq<string>)
    requires token.regions.Some?
    modifies token
    ensures token.regions == Some(old(token.regions).value + set j | 0 <= j < |rs| :: rs[j])
  {
    ghost var start := token.regions.value;
    for i := 0 to |rs|
      invariant token.regions.Some?
      invariant token.regions.value == start + set j | 0 <= j < i :: rs[j]
    {
      token.regions := Some(token.regions.value + {rs[i]});
    }
  }

  /** Each region of `rs` is removed from the token's region set. */
  method RemoveRegions(token: Token, rs: seq<string>)
    requires token.regions.Some?
    modifies token
    ensures token.regions == Some(old(token.regions).value - set j | 0 <= j < |rs| :: rs[j])
  {
    ghost var start := token.regions.value;
    for i := 0 to |rs|
      invariant token.regions.Some?
      invariant token.regions.value == start - set j | 0 <= j < i :: rs[j]
    {
      token.regions := Some(token.regions.value - {rs[i]});
    }
  }

  /** The ruler during a measurement. */
  class RulerMeasure {
    var behaviors: seq<Behavior>
    var behaviorCosts: map<string, int>
    var coordinatesCache: map<string, CacheEntry>
    var difficultyLabel: Option<string>
    var ignore: Option<P.Predicate>
    var ignoreGreater: Option<P.Predicate>
    /** The localized standard and greater difficult-terrain labels. */
    const standardLabel: string
    const greaterLabel: string
    const token: Option<Token>
    /** The measured actor's roll options for a set of regions. */
    const rollOptions: set<string> -> seq<string>

    function MemoOf(): Memo
      reads this
    {
      Memo(behaviorCosts, coordinatesCache, difficultyLabel, ignore, ignoreGreater)
    }

    function SceneOf(): Scene
      reads this, if token.Some? then {token.value} else {}
    {
      Scene(
        behaviors,
        if token.Some? then token.value.elevation else 0,
        if token.Some? then token.value.actor else None,
        if token.Some? then token.value.regions else None,
        rollOptions, standardLabel, greaterLabel)
    }

    constructor(standardLabel: string, greaterLabel: string, token: Option<Token>, rollOptions: set<string> -> seq<string>)
      ensures MemoOf() == Fresh && behaviors == []
      ensures this.standardLabel == standardLabel && this.greaterLabel == greaterLabel && this.token == token
    {
      behaviors := [];
      behaviorCosts := map[];
      coordinatesCache := map[];
      difficultyLabel := None;
      ignore := None;
      ignoreGreater := None;
      this.standardLabel := standardLabel;
      this.greaterLabel := greaterLabel;
      this.token := token;
      this.rollOptions := rollOptions;
    }

    /** `_startMeasurement`: the scene's environment behaviors. */
    method StartMeasurement(regions: Option<seq<seq<SceneBehavior>>>)
      modifies this`behaviors
      ensures behaviors == (if regions.Some? then EnvironmentBehaviors(regions.value) else [])
    {
      behaviors := if regions.Some? then EnvironmentBehaviors(regions.value) else [];
    }

    /** `_endMeasurement`: both caches, the label and the predicates are cleared. */
    method EndMeasurement()
      modifies this
      ensures MemoOf() == Fresh && behaviors == []
    {
      behaviors := [];
      ignore := None;
      ignoreGreater := None;
      behaviorCosts := map[];
      coordinatesCache := map[];
      difficultyLabel := None;
    }

    /** `#calculateCost`, with the surcharge cached for the matched behaviors. */
    method CalculateCost(matched: seq<Behavior>, distance: int, isGreater: bool) returns (cost: int)
      modifies this`behaviorCosts, this`ignore, this`ignoreGreater, if token.Some? then {token.value} else {}
      ensures token.Some? ==> token.value.regions == old(token.value.regions)
      ensures
        var options := RollOptionsFor(if token.Some? then token.value.regions else None, matched, rollOptions);
        var r := Calculate(old(MemoOf()), matched, distance, isGreater, if token.Some? then token.value.actor else None, options);
        cost == r.0 && MemoOf() == r.1
    {
      for i := 0 to |matched|
        invariant forall j | 0 <= j < i :: matched[j].id !in behaviorCosts
      {
        if matched[i].id in behaviorCosts {
          FirstCachedAt(matched, behaviorCosts, i);
          return distance + behaviorCosts[matched[i].id];
        }
      }
      if token.None? || token.value.actor.None? || !token.value.actor.value.isCreature {
        return distance;
      }
      var a := token.value.actor.value;
      var options: seq<string> := [];
      if |a.ignore| > 0 || |a.ignoreGreater| > 0 {
        options := RollOptionsForBehaviors(token.value, matched, rollOptions);
      }
      ghost var m0 := MemoOf();
      ghost var full := RollOptionsFor(token.value.regions, matched, rollOptions);
      if |a.ignore| == 0 && |a.ignoreGreater| == 0 {
        SurchargeWithoutStatements(m0, a, isGreater, options, full);
      }
      var s := Surcharge(MemoOf(), a, isGreater, options);
      ignore := s.1.ignore;
      ignoreGreater := s.1.ignoreGreater;
      CacheSurcharge(matched, s.0);
      cost := distance + s.0;
    }

    /** The surcharge cached for every matched behavior. */
    method CacheSurcharge(matched: seq<Behavior>, surcharge: int)
      modifies this`behaviorCosts
      ensures behaviorCosts == SetAll(old(behaviorCosts), matched, surcharge)
    {
      ghost var start := behaviorCosts;
      for i := 0 to |matched|
        invariant behaviorCosts == SetAll(start, matched[..i], surcharge)
      {
        assert matched[..i + 1] == matched[..i] + [matched[i]];
        SetAllSnoc(start, matched[..i], matched[i], surcharge);
        behaviorCosts := behaviorCosts[matched[i].id := surcharge];
      }
      assert matched[..|matched|] == matched;
    }

    /** The cost function of `_getCostFunction`, with the surcharge cached: the cost of
        a step to `point` over `distance`, where `inside` stands for the regions'
        containment test at that point. */
    method Cost(point: Point, distance: int, inside: Behavior -> bool) returns (cost: int)
      modifies this, if token.Some? then {token.value} else {}
      ensures behaviors == old(behaviors)
      ensures token.Some? ==> token.value.regions == old(token.value.regions)
      ensures (cost, MemoOf()) == Step(old(MemoOf()), old(SceneOf()), point, distance, inside)
    {
      var key := CoordsKey(point);
      if key in coordinatesCache {
        var data := coordinatesCache[key];
        difficultyLabel := data.difficulty;
        return distance + data.cost;
      }
      var elevation := if token.Some? then token.value.elevation else 0;
      var matched := Matched(behaviors, inside, elevation);
      if |matched| > 0 {
        var isGreater := IsGreater(matched);
        difficultyLabel := Some(if isGreater then greaterLabel else standardLabel);
        ghost var m0 := old(MemoOf());
        ghost var sc := old(SceneOf());
        cost := CalculateCost(matched, distance, isGreater);
        coordinatesCache := coordinatesCache[key := CacheEntry(cost - distance, difficultyLabel)];
        StepUncached(m0, sc, point, distance, inside);
      } else {
        difficultyLabel := None;
        coordinatesCache := coordinatesCache[key := CacheEntry(0, None)];
        cost := distance;
      }
    }
  }

  lemma {:induction false} SetAllSnoc(costs: map<string, int>, s: seq<Behavior>, b: Behavior, v: int)
    ensures SetAll(costs, s + [b], v) == SetAll(costs, s, v)[b.id := v]
    decreases |s|
  {
    if s == [] {
      assert [] + [b] == [b];
    } else {
      assert (s + [b])[1..] == s[1..] + [b];
      SetAllSnoc(costs[s[0].id := v], s[1..], b, v);
    }
  }
}
