/** How an aura's area is cut by walls: by what blocks sight, what blocks sound, or
    what blocks movement, chosen from the aura's traits. */
module Aura {
  import opened Wrappers

  datatype RestrictionType = Sight | Sound | Move

  /** `getAuraRestrictionType`; `traits` is missing when the aura has none. */
  function RestrictionTypeOf(traits: Option<seq<string>>): (r: RestrictionType)
    ensures r == Sight <==> traits.Some? && "visual" in traits.value && "auditory" !in traits.value
    ensures r == Sound <==> traits.Some? && "auditory" in traits.value && "visual" !in traits.value
    ensures r == Move <==> traits.None? || ("visual" in traits.value <==> "auditory" in traits.value)
  {
    if traits.Some? && "visual" in traits.value && "auditory" !in traits.value then Sight
    else if traits.Some? && "auditory" in traits.value && "visual" !in traits.value then Sound
    else Move
  }

  /** A helper for the symmetry lemmas below, with no counterpart in the source: `traits`
      with every `visual` replaced by `auditory` and every `auditory` by `visual`. */
  function SwapSenses(traits: seq<string>): (r: seq<string>)
    ensures |r| == |traits|
    ensures forall i | 0 <= i < |traits| ::
      r[i] == (if traits[i] == "visual" then "auditory" else if traits[i] == "auditory" then "visual" else traits[i])
  {
    if traits == [] then []
    else
      var t := traits[0];
      [if t == "visual" then "auditory" else if t == "auditory" then "visual" else t] + SwapSenses(traits[1..])
  }

  /** After the exchange, each sense is present exactly when the other one was. */
  lemma {:induction false} SwapSensesMembers(traits: seq<string>)
    ensures "visual" in SwapSenses(traits) <==> "auditory" in traits
    ensures "auditory" in SwapSenses(traits) <==> "visual" in traits
    decreases |traits|
  {
    if traits != [] {
      SwapSensesMembers(traits[1..]);
      assert traits == [traits[0]] + traits[1..];
      assert "visual" != "auditory";
    }
  }

  /** The choice treats the two senses alike: exchanging them exchanges sight and
      sound and keeps movement. */
  lemma SwapSensesSwapsRestriction(traits: seq<string>)
    ensures var r := RestrictionTypeOf(Some(SwapSenses(traits)));
      r == match RestrictionTypeOf(Some(traits)) case Sight => Sound case Sound => Sight case Move => Move
  {
    SwapSensesMembers(traits);
  }

  /** Only the two sense traits matter: adding any other trait changes nothing, and an
      empty trait list restricts like a missing one. */
  lemma OtherTraitsIrrelevant(traits: seq<string>, t: string)
    requires t != "visual" && t != "auditory"
    ensures RestrictionTypeOf(Some(traits + [t])) == RestrictionTypeOf(Some(traits))
    ensures RestrictionTypeOf(Some([])) == RestrictionTypeOf(None) == Move
  {
    assert forall x :: x in traits + [t] <==> x in traits || x == t;
  }
}
