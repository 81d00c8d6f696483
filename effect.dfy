/** The effect item: its prepared duration and badge, the badge counter that
    `increase` and `decrease` step, the checks `_preUpdate` applies to a pending
    update, and the trimmed slug roll option. */
module Effect {
  import opened Wrappers
  import opened Strings

  /** `badge.type`. */
  datatype BadgeKind = Counter | Value | Formula

  /** A value badge's `reevaluate` record; the formula text is left out. */
  datatype Reevaluation = Reevaluation(event: string, initial: Option<int>)

  /** An effect's badge as its data holds it. A formula badge's formula text is not
      modelled (its evaluation is left out), so `value` is the number of a counter or a
      value badge. */
  datatype Badge = Badge(
    kind: BadgeKind,
    value: int,
    min: Option<int>,
    max: Option<Limit>,
    labels: Option<seq<string>>,
    loop: Option<bool>,
    labelText: Option<string>,
    reevaluate: Option<Reevaluation>)

  /** `system.duration`; `expiry` may be `null`. */
  datatype Duration = Duration(unit: string, value: int, expiry: Option<string>)

  /** A rule element as the effect's data holds it. */
  datatype RuleSource = RuleSource(key: string, ignored: bool)

  /** What `increase` and `decrease` ask of the document. */
  datatype Intent = Unchanged | SetValue(v: int) | Delete

  /** An expiry JavaScript treats as false: `null` or the empty string. */
  predicate Falsy(s: Option<string>) {
    s.None? || s.value == ""
  }

  /** Units with no turn-based expiry. */
  predicate Unexpiring(unit: string) {
    unit == "unlimited" || unit == "encounter"
  }

  // ---------------------------------------------------------------------------
  // prepareBaseData

  /** The duration `prepareBaseData` leaves: no expiry for an unlimited or encounter
      duration, otherwise the stored expiry with `"turn-start"` in place of a falsy one. */
  function PrepareDuration(d: Duration): (r: Duration)
    ensures r.unit == d.unit && r.value == d.value
    ensures r.expiry.None? <==> Unexpiring(d.unit)
    ensures !Unexpiring(d.unit) ==> !Falsy(r.expiry)
    ensures !Unexpiring(d.unit) && !Falsy(d.expiry) ==> r.expiry == d.expiry
    ensures !Unexpiring(d.unit) && Falsy(d.expiry) ==> r.expiry == Some("turn-start")
  {
    if Unexpiring(d.unit) then d.(expiry := None)
    else if Falsy(d.expiry) then d.(expiry := Some("turn-start"))
    else d
  }

  /** `Math.clamp(v, lo, hi)`, that is `Math.min(Math.max(v, lo), hi)`, over an upper
      bound that may be `Infinity`. */
  function Clamp(v: int, lo: int, hi: Limit): (r: int)
    ensures hi.Admits(r)
    ensures hi.Admits(lo) ==> lo <= r
    ensures lo <= v && hi.Admits(v) ==> r == v
    ensures r == v || r == lo || (hi.Finite? && r == hi.n)
    ensures v < lo && hi.Admits(lo) ==> r == lo
    ensures hi.Finite? && hi.n < v && lo <= hi.n ==> r == hi.n
    ensures hi.Finite? && hi.n < lo ==> r == hi.n
  {
    var atLeast := if v < lo then lo else v;
    if hi.Finite? && hi.n < atLeast then hi.n else atLeast
  }

  /** Clamping a clamped value changes nothing, even when the bounds cross. */
  lemma ClampIdempotent(v: int, lo: int, hi: Limit)
    ensures Clamp(Clamp(v, lo, hi), lo, hi) == Clamp(v, lo, hi)
  {
  }

  /** `Array.prototype.at`: a negative index counts from the end. */
  function At<T>(s: seq<T>, i: int): (r: Option<T>)
    ensures r.Some? <==> -|s| <= i < |s|
    ensures 0 <= i < |s| ==> r == Some(s[i])
    ensures -|s| <= i < 0 ==> r == Some(s[|s| + i])
  {
    if 0 <= i < |s| then Some(s[i])
    else if -|s| <= i < 0 then Some(s[|s| + i])
    else None
  }

  /** The label shown for a badge value: the trimmed label at position `value`, or none
      when there is no such label or it is blank. */
  function BadgeLabel(labels: Option<seq<string>>, value: int): (r: Option<string>)
    ensures r.Some? ==> r.value != "" && labels.Some?
    ensures labels.Some? && 1 <= value <= |labels.value| ==>
      r == (if Trim(labels.value[value - 1]) == "" then None else Some(Trim(labels.value[value - 1])))
    ensures labels.None? ==> r.None?
  {
    if labels.None? then None
    else
      match At(labels.value, value - 1)
      case None => None
      case Some(l) => if Trim(l) == "" then None else Some(Trim(l))
  }

  /** The bounds `prepareBaseData` gives every badge that is not a formula. */
  predicate Bounded(b: Badge) {
    b.min.Some? && b.max.Some? && (b.kind == Counter ==> b.loop.Some?)
  }

  /** The badge `prepareBaseData` leaves. A formula badge only loses its label. Any other
      badge gets its bounds (1 to the number of labels when it has labels, otherwise its
      own bounds defaulting to 1 and `Infinity`), its value clamped into them and the label
      for that value; a counter's `loop` defaults to false and a reevaluated value badge
      remembers its first value. */
  function PrepareBadge(b: Badge): (r: Badge)
    ensures r.kind == b.kind && r.labels == b.labels
    ensures b.kind == Formula ==> r == b.(labelText := None)
    ensures b.kind != Formula ==> Bounded(r)
    ensures b.kind != Formula && b.labels.Some? ==> r.min == Some(1) && r.max == Some(Finite(|b.labels.value|))
    ensures b.kind != Formula && b.labels.None? ==> r.min == Some(b.min.GetOr(1)) && r.max == Some(b.max.GetOr(Infinity))
    ensures b.kind != Formula && r.max.value.Admits(r.min.value) ==> r.min.value <= r.value && r.max.value.Admits(r.value)
    ensures b.kind != Formula && r.min.value <= b.value && r.max.value.Admits(b.value) ==> r.value == b.value
    ensures b.kind != Formula ==> r.labelText == BadgeLabel(b.labels, r.value)
    ensures b.kind == Counter ==> r.loop == Some(b.loop.GetOr(false))
    ensures b.kind != Counter ==> r.loop == b.loop
    ensures b.kind == Value && b.reevaluate.Some? ==>
      r.reevaluate == Some(b.reevaluate.value.(initial := Some(b.reevaluate.value.initial.GetOr(r.value))))
    ensures !(b.kind == Value && b.reevaluate.Some?) ==> r.reevaluate == b.reevaluate
  {
    if b.kind == Formula then b.(labelText := None)
    else
      var loop := if b.kind == Counter then Some(b.loop.GetOr(false)) else b.loop;
      var min := if b.labels.Some? then 1 else b.min.GetOr(1);
      var max := if b.labels.Some? then Finite(|b.labels.value|) else b.max.GetOr(Infinity);
      var value := Clamp(b.value, min, max);
      var reevaluate :=
        if b.kind == Value && b.reevaluate.Some?
        then Some(b.reevaluate.value.(initial := Some(b.reevaluate.value.initial.GetOr(value))))
        else b.reevaluate;
      b.(loop := loop, min := Some(min), max := Some(max), value := value,
         labelText := BadgeLabel(b.labels, value), reevaluate := reevaluate)
  }

  /** Preparing prepared data changes nothing. */
  lemma PrepareBadgeIdempotent(b: Badge)
    ensures PrepareBadge(PrepareBadge(b)) == PrepareBadge(b)
  {
    if b.kind != Formula {
      var r := PrepareBadge(b);
      ClampIdempotent(b.value, r.min.value, r.max.value);
    }
  }

  lemma PrepareDurationIdempotent(d: Duration)
    ensures PrepareDuration(PrepareDuration(d)) == PrepareDuration(d)
  {
  }

  /** The badge of prepared data: a non-formula badge carries its bounds. */
  predicate PreparedBadge(badge: Option<Badge>) {
    badge.Some? && badge.value.kind != Formula ==> Bounded(badge.value)
  }

  // ---------------------------------------------------------------------------
  // isAura, increase, decrease

  /** `isAura`: some rule element is an aura that is not ignored. */
  function IsAura(rules: seq<RuleSource>): (r: bool)
    ensures r <==> exists i | 0 <= i < |rules| :: rules[i].key == "Aura" && !rules[i].ignored
  {
    if rules == [] then false
    else
      var last := rules[|rules| - 1];
      assert forall i | 0 <= i < |rules| - 1 :: rules[..|rules| - 1][i] == rules[i];
      (last.key == "Aura" && !last.ignored) || IsAura(rules[..|rules| - 1])
  }

  /** `badge.value >= badge.max`, which is false for an `Infinity` or missing maximum. */
  predicate AtMax(b: Badge) {
    b.max.Some? && b.max.value.Finite? && b.value >= b.max.value.n
  }

  /** `increase`: a counter that has not expired steps up, or wraps to its minimum when it
      loops and stands at its maximum; anything else is left alone. */
  function Increase(badge: Option<Badge>, expired: bool): (r: Intent)
    ensures r != Delete
    ensures r.SetValue? <==> badge.Some? && badge.value.kind == Counter && !expired
    ensures r.SetValue? && badge.value.loop == Some(true) && AtMax(badge.value) ==> r.v == badge.value.min.GetOr(0)
    ensures r.SetValue? && !(badge.value.loop == Some(true) && AtMax(badge.value)) ==> r.v == badge.value.value + 1
  {
    if badge.Some? && badge.value.kind == Counter && !expired then
      var b := badge.value;
      if b.loop == Some(true) && AtMax(b) then SetValue(b.min.GetOr(0)) else SetValue(b.value + 1)
    else Unchanged
  }

  /** `decrease`: a counter that has not expired steps down; any other effect is
      deleted. */
  function Decrease(badge: Option<Badge>, expired: bool): (r: Intent)
    ensures r.Delete? <==> !(badge.Some? && badge.value.kind == Counter) || expired
    ensures !r.Delete? ==> r == SetValue(badge.value.value - 1)
  {
    if !(badge.Some? && badge.value.kind == Counter) || expired then Delete
    else SetValue(badge.value.value - 1)
  }

  // ---------------------------------------------------------------------------
  // _preUpdate

  /** The pending change to `system.duration`; `expiry` may be missing, `null` or a
      string. */
  datatype DurationChange = DurationChange(unit: Option<string>, value: Option<int>, expiry: JsValue<string>)

  /** The pending change to `system.badge`. `unsetMin`, `unsetMax`, `unsetLabels` and
      `unsetLoop` stand for the `-=min`, `-=max`, `-=labels` and `-=loop` deletion keys. */
  datatype BadgeChange = BadgeChange(
    kind: Option<BadgeKind>,
    value: JsValue<int>,
    min: JsValue<int>,
    max: JsValue<Limit>,
    labels: JsValue<seq<string>>,
    loop: JsValue<bool>,
    unsetMin: bool,
    unsetMax: bool,
    unsetLabels: bool,
    unsetLoop: bool)

  /** A change that sets only the badge's value, as `increase` and `decrease` send. */
  function ValueChange(v: int): BadgeChange {
    BadgeChange(None, Val(v), Undefined, Undefined, Undefined, Undefined, false, false, false, false)
  }

  /** What `_preUpdate` does with the badge change: cancel the update (the effect is
      deleted instead), or let the adjusted change through. */
  datatype BadgeUpdate = Cancel | Proceed(change: BadgeChange)

  predicate FalsyVal(s: JsValue<string>) {
    !s.Val? || s.value == ""
  }

  /** The duration change `_preUpdate` passes on: an unlimited duration loses its expiry;
      any other unit except `encounter` gets `"turn-start"` for a falsy expiry and 1 for a
      value of -1. */
  function PreUpdateDuration(c: DurationChange): (r: DurationChange)
    ensures r.unit == c.unit
    ensures c.unit == Some("unlimited") ==> r == c.(expiry := Null)
    ensures c.unit.Some? && !Unexpiring(c.unit.value) ==>
      && !FalsyVal(r.expiry)
      && (!FalsyVal(c.expiry) ==> r.expiry == c.expiry)
      && r.value == (if c.value == Some(-1) then Some(1) else c.value)
    ensures c.unit.None? || c.unit == Some("encounter") ==> r == c
  {
    if c.unit == Some("unlimited") then c.(expiry := Null)
    else if c.unit.Some? && !Unexpiring(c.unit.value) then
      c.(expiry := if FalsyVal(c.expiry) then Val("turn-start") else c.expiry,
         value := if c.value == Some(-1) then Some(1) else c.value)
    else c
  }

  /** The duration after a change is merged in: what the change sets wins. */
  function ApplyDuration(d: Duration, c: DurationChange): Duration {
    Duration(
      c.unit.GetOr(d.unit),
      c.value.GetOr(d.value),
      match c.expiry
      case Undefined => d.expiry
      case Null => None
      case Val(e) => Some(e))
  }

  /** A duration updated with a unit other than `encounter` is already what
      `prepareBaseData` makes of it. */
  lemma UpdatedDurationIsPrepared(d: Duration, c: DurationChange)
    requires c.unit.Some? && c.unit.value != "encounter"
    ensures PrepareDuration(ApplyDuration(d, PreUpdateDuration(c))) == ApplyDuration(d, PreUpdateDuration(c))
  {
  }

  /** `Math.min(n, max)` for a count `n`. */
  function MinLimit(n: int, max: Limit): (r: int)
    ensures r <= n && max.Admits(r)
    ensures r == n || (max.Finite? && r == max.n)
  {
    if max.Finite? && max.n < n then max.n else n
  }

  /** `badgeTypeChanged`: the change names a type other than the current badge's. */
  predicate TypeChanged(change: BadgeChange, current: Option<Badge>) {
    change.kind.Some? && (current.None? || change.kind.value != current.value.kind)
  }

  /** The labels `_preUpdate` goes by: the change's, when it sets an array, else the
      current badge's. */
  function LabelsAfter(change: BadgeChange, current: Option<Badge>): (r: Option<seq<string>>)
    ensures change.labels.Val? ==> r == Some(change.labels.value)
    ensures !change.labels.Val? ==> r == (if current.Some? then current.value.labels else None)
  {
    if change.labels.Val? then Some(change.labels.value)
    else if current.Some? then current.value.labels
    else None
  }

  /** The bounds a counter update is held to: `[1, min(labels, max)]` with labels, else
      the configured bounds, where the change's own bounds override the current ones. */
  function CounterBounds(change: BadgeChange, current: Badge, labels: Option<seq<string>>): (r: (int, Limit))
    requires Bounded(current)
    ensures labels.Some? ==> r.0 == 1 && r.1.Finite? && r.1.n <= |labels.value|
    ensures labels.Some? ==> r.1 == Finite(MinLimit(|labels.value|, change.max.Or(current.max.value)))
    ensures labels.None? ==> r == (change.min.Or(current.min.value), change.max.Or(current.max.value))
  {
    var configuredMin := change.min.Or(current.min.value);
    var configuredMax := change.max.Or(current.max.value);
    if labels.Some? then (1, Finite(MinLimit(|labels.value|, configuredMax)))
    else (configuredMin, configuredMax)
  }

  /** The badge half of `_preUpdate`. A type change resets the value to 1. A change to a
      counter is cancelled when it sets a number below the minimum on an effect that has
      an actor; otherwise its value (or the current one) is clamped into the bounds. A
      type change, labels, or a bound set to `null` drop the bounds from the change (and
      mark stored ones for deletion); a type change or a `-=labels` drops `loop`.
      `sourceKeys` are the keys of the badge's stored source. */
  function PreUpdateBadge(change: BadgeChange, current: Option<Badge>, hasActor: bool, sourceKeys: set<string>)
    : (r: BadgeUpdate)
    requires PreparedBadge(current)
    ensures r.Cancel? <==>
      && !TypeChanged(change, current) && current.Some? && current.value.kind == Counter
      && change.value.Val? && hasActor
      && change.value.value < CounterBounds(change, current.value, LabelsAfter(change, current)).0
    ensures r.Proceed? ==> r.change.kind == change.kind && r.change.labels == change.labels
    ensures r.Proceed? && TypeChanged(change, current) ==> r.change.value == Val(1)
    ensures r.Proceed? && !TypeChanged(change, current) && current.Some? && current.value.kind == Counter ==>
      var bounds := CounterBounds(change, current.value, LabelsAfter(change, current));
      r.change.value == Val(Clamp(change.value.Or(current.value.value), bounds.0, bounds.1))
    ensures r.Proceed? && !TypeChanged(change, current) && !(current.Some? && current.value.kind == Counter) ==>
      r.change.value == change.value
    ensures r.Proceed? && (TypeChanged(change, current) || LabelsAfter(change, current).Some?) ==>
      && r.change.min.Undefined? && r.change.max.Undefined?
      && r.change.unsetMin == (change.unsetMin || "min" in sourceKeys)
      && r.change.unsetMax == (change.unsetMax || "max" in sourceKeys)
    ensures r.Proceed? && (TypeChanged(change, current) || change.unsetLabels) ==>
      r.change.loop.Undefined? && r.change.unsetLoop == (change.unsetLoop || "loop" in sourceKeys)
    ensures r.Proceed? && !TypeChanged(change, current) && !change.unsetLabels ==>
      r.change.loop == change.loop && r.change.unsetLoop == change.unsetLoop
  {
    var valued := ValuedChange(change, current, hasActor);
    if valued.None? then Cancel
    else Proceed(DropKeys(valued.value, TypeChanged(change, current), LabelsAfter(change, current).Some?, sourceKeys))
  }

  /** The first step of the badge half of `_preUpdate`: the value a type change or a
      counter update ends with, or `None` when the update is cancelled. */
  function ValuedChange(change: BadgeChange, current: Option<Badge>, hasActor: bool): (r: Option<BadgeChange>)
    requires PreparedBadge(current)
    ensures r.None? <==>
      && !TypeChanged(change, current) && current.Some? && current.value.kind == Counter
      && change.value.Val? && hasActor
      && change.value.value < CounterBounds(change, current.value, LabelsAfter(change, current)).0
    ensures r.Some? && TypeChanged(change, current) ==> r.value == change.(value := Val(1))
    ensures r.Some? && !TypeChanged(change, current) && current.Some? && current.value.kind == Counter ==>
      var bounds := CounterBounds(change, current.value, LabelsAfter(change, current));
      r.value == change.(value := Val(Clamp(change.value.Or(current.value.value), bounds.0, bounds.1)))
    ensures r.Some? && !TypeChanged(change, current) && !(current.Some? && current.value.kind == Counter) ==>
      r.value == change
  {
    if TypeChanged(change, current) then Some(change.(value := Val(1)))
    else if current.Some? && current.value.kind == Counter then
      var bounds := CounterBounds(change, current.value, LabelsAfter(change, current));
      if change.value.Val? && change.value.value < bounds.0 && hasActor then None
      else Some(change.(value := Val(Clamp(change.value.Or(current.value.value), bounds.0, bounds.1))))
    else Some(change)
  }

  /** The second step: the bounds leave the change after a type change, with labels, or
      when set to `null`; `loop` leaves it after a type change or a `-=labels`. A key the
      stored badge carries is marked for deletion. */
  function DropKeys(c: BadgeChange, typeChanged: bool, hasLabels: bool, sourceKeys: set<string>): (r: BadgeChange)
    ensures r.kind == c.kind && r.value == c.value && r.labels == c.labels && r.unsetLabels == c.unsetLabels
    ensures typeChanged || hasLabels || c.min.Null? ==>
      r.min.Undefined? && r.unsetMin == (c.unsetMin || "min" in sourceKeys)
    ensures !(typeChanged || hasLabels || c.min.Null?) ==> r.min == c.min && r.unsetMin == c.unsetMin
    ensures typeChanged || hasLabels || c.max.Null? ==>
      r.max.Undefined? && r.unsetMax == (c.unsetMax || "max" in sourceKeys)
    ensures !(typeChanged || hasLabels || c.max.Null?) ==> r.max == c.max && r.unsetMax == c.unsetMax
    ensures typeChanged || c.unsetLabels ==> r.loop.Undefined? && r.unsetLoop == (c.unsetLoop || "loop" in sourceKeys)
    ensures !(typeChanged || c.unsetLabels) ==> r.loop == c.loop && r.unsetLoop == c.unsetLoop
  {
    var c1 := if typeChanged || hasLabels || c.min.Null?
      then c.(min := Undefined, unsetMin := c.unsetMin || "min" in sourceKeys) else c;
    var c2 := if typeChanged || hasLabels || c1.max.Null?
      then c1.(max := Undefined, unsetMax := c1.unsetMax || "max" in sourceKeys) else c1;
    if c2.unsetLabels || typeChanged
    then c2.(loop := Undefined, unsetLoop := c2.unsetLoop || "loop" in sourceKeys) else c2
  }

  /** A prepared counter badge whose bounds do not cross. */
  predicate SteppableCounter(b: Badge) {
    b.kind == Counter && Bounded(b) && b.max.value.Admits(b.min.value)
    && (b.labels.Some? ==> b.min == Some(1) && b.max == Some(Finite(|b.labels.value|)))
    && b.min.value <= b.value && b.max.value.Admits(b.value)
  }

  lemma PreparedCounterSteppable(src: Badge)
    requires src.kind == Counter
    requires PrepareBadge(src).max.value.Admits(PrepareBadge(src).min.value)
    ensures SteppableCounter(PrepareBadge(src))
  {
  }

  /** What `increase` followed by `_preUpdate` leaves on a prepared counter: it wraps to
      the minimum when it loops at the maximum, steps up below the maximum, and otherwise
      stays at the maximum. The update is never cancelled. */
  lemma IncreaseThenUpdate(b: Badge, hasActor: bool, sourceKeys: set<string>)
    requires SteppableCounter(b)
    ensures Increase(Some(b), false).SetValue?
    ensures
      var u := PreUpdateBadge(ValueChange(Increase(Some(b), false).v), Some(b), hasActor, sourceKeys);
      && u.Proceed?
      && u.change.value == Val(
        if b.loop == Some(true) && AtMax(b) then b.min.value
        else if b.max.value.Admits(b.value + 1) then b.value + 1
        else b.value)
  {
    var v := Increase(Some(b), false).v;
    var change := ValueChange(v);
    var labels := LabelsAfter(change, Some(b));
    var bounds := CounterBounds(change, b, labels);
    assert bounds == (b.min.value, b.max.value);
  }

  /** What `decrease` followed by `_preUpdate` does to a prepared counter: above its
      minimum it steps down; at its minimum the effect is deleted when it has an actor and
      stays at the minimum when it has none. */
  lemma DecreaseThenUpdate(b: Badge, hasActor: bool, sourceKeys: set<string>)
    requires SteppableCounter(b)
    ensures Decrease(Some(b), false) == SetValue(b.value - 1)
    ensures
      var u := PreUpdateBadge(ValueChange(b.value - 1), Some(b), hasActor, sourceKeys);
      && (u.Cancel? <==> b.value == b.min.value && hasActor)
      && (u.Proceed? ==> u.change.value == Val(if b.value == b.min.value then b.value else b.value - 1))
  {
    var change := ValueChange(b.value - 1);
    var bounds := CounterBounds(change, b, LabelsAfter(change, Some(b)));
    assert bounds == (b.min.value, b.max.value);
  }

  /** An expired effect, or one without a counter, is deleted by `decrease` and left alone
      by `increase`. */
  lemma ExpiredIsNotStepped(badge: Option<Badge>, expired: bool)
    requires expired || !(badge.Some? && badge.value.kind == Counter)
    ensures Increase(badge, expired) == Unchanged && Decrease(badge, expired) == Delete
  {
  }

  // ---------------------------------------------------------------------------
  // getRollOptions

  /** The prefixes `/^(?:spell-)?(?:effect|stance)-/` strips, longest first. */
  const SlugPrefixes: seq<string> := ["spell-effect-", "spell-stance-", "effect-", "stance-"]

  /** The slug without a leading `effect-`, `stance-`, `spell-effect-` or
      `spell-stance-`. */
  function TrimSlug(slug: string): (r: string)
    ensures |r| <= |slug| && r == slug[|slug| - |r|..]
    ensures r == slug <==> forall p | p in SlugPrefixes :: !StartsWith(slug, p)
    ensures r != slug ==> exists p | p in SlugPrefixes :: slug == p + r
  {
    if StartsWith(slug, "spell-effect-") then assert slug == SlugPrefixes[0] + slug[13..]; slug[13..]
    else if StartsWith(slug, "spell-stance-") then assert slug == SlugPrefixes[1] + slug[13..]; slug[13..]
    else if StartsWith(slug, "effect-") then assert slug == SlugPrefixes[2] + slug[7..]; slug[7..]
    else if StartsWith(slug, "stance-") then assert slug == SlugPrefixes[3] + slug[7..]; slug[7..]
    else slug
  }

  /** `findSplice`: the first element equal to `target` replaced by `replacement`. */
  function FindSplice(options: seq<string>, target: string, replacement: string): (r: seq<string>)
    ensures |r| == |options|
    ensures target !in options ==> r == options
    ensures forall i | 0 <= i < |options| :: r[i] == options[i] || (options[i] == target && r[i] == replacement)
  {
    if options == [] then []
    else if options[0] == target then options[0 := replacement]
    else [options[0]] + FindSplice(options[1..], target, replacement)
  }

  /** `findIndex`: the position of the first element equal to `target`. */
  function FirstIndex(options: seq<string>, target: string): (r: nat)
    requires target in options
    ensures r < |options| && options[r] == target && target !in options[..r]
  {
    if options[0] == target then 0
    else
      var k := FirstIndex(options[1..], target);
      assert options[..k + 1] == [options[0]] + options[1..][..k];
      k + 1
  }

  /** Only the first occurrence of the target is replaced. */
  lemma {:induction false} FindSpliceFirst(options: seq<string>, target: string, replacement: string)
    requires target in options
    ensures FindSplice(options, target, replacement) == options[FirstIndex(options, target) := replacement]
  {
    if options[0] != target {
      var rest := options[1..];
      assert target in rest;
      FindSpliceFirst(rest, target, replacement);
      var k := FirstIndex(rest, target);
      assert FirstIndex(options, target) == k + 1;
      assert [options[0]] + rest[k := replacement] == options[k + 1 := replacement];
    }
  }

  /** `getRollOptions`: the inherited options with `prefix:slug` swapped for the trimmed
      slug. `base` stands for the inherited options and `sluggify` for the system's slug
      function the name falls back to. */
  function GetRollOptions(prefix: string, slug: Option<string>, name: string, sluggify: string -> string, base: seq<string>)
    : (r: seq<string>)
    ensures |r| == |base|
    ensures
      var s := slug.GetOr(sluggify(name));
      forall i | 0 <= i < |base| ::
        r[i] == base[i] || (base[i] == prefix + ":" + s && r[i] == prefix + ":" + TrimSlug(s))
  {
    var s := slug.GetOr(sluggify(name));
    FindSplice(base, prefix + ":" + s, prefix + ":" + TrimSlug(s))
  }

  /** The trimmed option for a spell effect's slug. */
  lemma RollOptionOfSpellEffect()
    ensures GetRollOptions("effect", Some("spell-effect-rage"), "", s => s, ["self:x", "effect:spell-effect-rage"])
      == ["self:x", "effect:rage"]
  {
    assert StartsWith("spell-effect-rage", "spell-effect-");
    assert TrimSlug("spell-effect-rage") == "rage";
    var t := "effect:spell-effect-rage";
    assert "effect" + ":" + "spell-effect-rage" == t;
    assert "effect" + ":" + "rage" == "effect:rage";
    assert "self:x" != t;
    assert FindSplice(["self:x", t], t, "effect:rage") == ["self:x"] + FindSplice([t], t, "effect:rage");
  }

  // ---------------------------------------------------------------------------
  // The document

  /** The pending update handed to `_preUpdate`, which edits it in place. */
  class UpdateData {
    var duration: Option<DurationChange>
    var badge: Option<BadgeChange>

    constructor(duration: Option<DurationChange>, badge: Option<BadgeChange>)
      ensures this.duration == duration && this.badge == badge
    {
      this.duration := duration;
      this.badge := badge;
    }
  }

  /** An effect item and the prepared part of its system data. */
  class EffectDocument {
    var duration: Duration
    var badge: Option<Badge>
    var expired: bool
    var rules: seq<RuleSource>
    /** `this.actor`: the effect has a parent actor. */
    const hasActor: bool
    /** `this.actor?.items.has(this.id)`: the effect is one of its actor's items. */
    const inActorItems: bool
    /** The keys the stored badge source carries. */
    const sourceBadgeKeys: set<string>

    /** The prepared data has its badge bounds. */
    ghost predicate Valid()
      reads this
    {
      PreparedBadge(badge)
    }

    /** The document as stored, prepared as the document is on creation. */
    constructor(duration: Duration, badge: Option<Badge>, rules: seq<RuleSource>, remainingExpired: bool,
                hasActor: bool, inActorItems: bool, sourceBadgeKeys: set<string>)
      ensures Valid()
      ensures this.duration == PrepareDuration(duration)
      ensures this.badge == (if badge.Some? then Some(PrepareBadge(badge.value)) else None)
      ensures expired == remainingExpired && this.rules == rules
      ensures this.hasActor == hasActor && this.inActorItems == inActorItems && this.sourceBadgeKeys == sourceBadgeKeys
    {
      this.duration := PrepareDuration(duration);
      this.badge := if badge.Some? then Some(PrepareBadge(badge.value)) else None;
      this.expired := remainingExpired;
      this.rules := rules;
      this.hasActor := hasActor;
      this.inActorItems := inActorItems;
      this.sourceBadgeKeys := sourceBadgeKeys;
    }

    /** `prepareBaseData`, with `remainingExpired` standing for what the remaining
        duration (computed from the game clock) says. */
    method PrepareBaseData(remainingExpired: bool)
      modifies this`duration, this`badge, this`expired
      ensures Valid()
      ensures duration == PrepareDuration(old(duration))
      ensures badge == (if old(badge).Some? then Some(PrepareBadge(old(badge).value)) else None)
      ensures expired == remainingExpired
    {
      duration := PrepareDuration(duration);
      expired := remainingExpired;
      if badge.Some? {
        badge := Some(PrepareBadge(badge.value));
      }
    }

    /** `prepareRuleElements`: with automatic expiration on, an expired effect that is
        one of its actor's items has all its rules ignored, so it is no longer an aura. */
    method PrepareRuleElements(autoExpire: bool)
      modifies this`rules
      ensures |rules| == |old(rules)|
      ensures forall i | 0 <= i < |rules| :: rules[i].key == old(rules)[i].key
      ensures autoExpire && expired && inActorItems ==> (forall i | 0 <= i < |rules| :: rules[i].ignored) && !IsAura(rules)
      ensures !(autoExpire && expired && inActorItems) ==> rules == old(rules)
    {
      if autoExpire && expired && inActorItems {
        var i := 0;
        while i < |rules|
          invariant 0 <= i <= |rules| == |old(rules)|
          invariant forall j | 0 <= j < |rules| :: rules[j].key == old(rules)[j].key
          invariant forall j | 0 <= j < i :: rules[j].ignored
        {
          rules := rules[i := rules[i].(ignored := true)];
          i := i + 1;
        }
      }
    }

    /** `_preUpdate` on the duration and badge parts of a pending update. It returns
        false, and leaves the badge change as it was, when the update is cancelled
        because the effect is being deleted. */
    method PreUpdate(changed: UpdateData) returns (proceed: bool)
      requires Valid()
      modifies changed
      ensures changed.duration == (if old(changed.duration).Some? then Some(PreUpdateDuration(old(changed.duration).value)) else None)
      ensures old(changed.badge).None? ==> proceed && changed.badge == None
      ensures old(changed.badge).Some? ==>
        var u := PreUpdateBadge(old(changed.badge).value, badge, hasActor, sourceBadgeKeys);
        && (proceed <==> u.Proceed?)
        && changed.badge == (if u.Proceed? then Some(u.change) else old(changed.badge))
    {
      if changed.duration.Some? {
        changed.duration := Some(PreUpdateDuration(changed.duration.value));
      }
      proceed := true;
      if changed.badge.Some? {
        var u := PreUpdateBadge(changed.badge.value, badge, hasActor, sourceBadgeKeys);
        if u.Cancel? {
          return false;
        }
        changed.badge := Some(u.change);
      }
    }
  }
}
