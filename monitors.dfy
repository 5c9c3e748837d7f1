/** The decisions of the event handlers in handlers/minecraftEvents.js that
    do not depend on the bridge's own state beyond a previous reading: the
    falling-edge test of the health monitor, the day/night flip detector, the
    allow-list filters (mined blocks, rare mobs, valuable pickups), the
    every-50-XP rule and the inventory-fullness rule with its slot count. */
module Monitors {
  import opened Wrappers
  import opened Text

  // ---------------------------------------------------------------------------
  // Health and food: `|| 20` readings and the falling edge across 5
  // ---------------------------------------------------------------------------

  const CriticalLevel: real := 5.0
  const FullLevel: real := 20.0

  /** `x || 20`: a missing reading or a reading of 0 counts as 20. */
  function Reading(v: Option<real>): (r: real)
    ensures r != 0.0
    ensures v.Some? && v.value != 0.0 ==> r == v.value
    ensures v.None? || v.value == 0.0 ==> r == FullLevel
  {
    if v.Some? && v.value != 0.0 then v.value else FullLevel
  }

  /** The readings a run of events leaves, each through `x || 20`. */
  function Readings(vs: seq<Option<real>>): (rs: seq<real>)
    ensures |rs| == |vs|
    ensures forall k :: 0 <= k < |vs| ==> rs[k] == Reading(vs[k])
  {
    seq(|vs|, k requires 0 <= k < |vs| => Reading(vs[k]))
  }

  /** The alert condition: the value is at or below 5 and the previous one
      was above. */
  predicate FallsCritical(last: real, current: real) {
    current <= CriticalLevel && last > CriticalLevel
  }

  /** The alerts raised over a run of readings when the monitor starts from
      `last` and every reading overwrites it. */
  function Alerts(last: real, readings: seq<real>): nat
    decreases |readings|
  {
    if readings == [] then 0
    else (if FallsCritical(last, readings[0]) then 1 else 0) + Alerts(readings[0], readings[1..])
  }

  /** While the readings stay at or below 5 the alert is raised at most once:
      on the first of them, and only if the run started above 5. */
  lemma {:induction false} AlertOncePerDescent(last: real, readings: seq<real>)
    requires forall k :: 0 <= k < |readings| ==> readings[k] <= CriticalLevel
    ensures Alerts(last, readings) == if last > CriticalLevel && readings != [] then 1 else 0
    decreases |readings|
  {
    if readings != [] {
      AlertOncePerDescent(readings[0], readings[1..]);
    }
  }

  /** Each alert needs a reading above 5 before it: the alerts over a run are
      at most the number of readings above 5, plus one for the start. */
  lemma {:induction false} AlertsNeedRecovery(last: real, readings: seq<real>)
    ensures Alerts(last, readings) <= Above(readings) + (if last > CriticalLevel then 1 else 0)
    decreases |readings|
  {
    if readings != [] {
      AlertsNeedRecovery(readings[0], readings[1..]);
    }
  }

  /** The reading the monitor holds after a run: the last one, or the
      starting value when the run is empty. */
  function LastReading(last: real, readings: seq<real>): real {
    if readings == [] then last else readings[|readings| - 1]
  }

  /** One more reading adds its own alert to those of the run before it. */
  lemma {:induction false} AlertsSnoc(last: real, readings: seq<real>, x: real)
    ensures Alerts(last, readings + [x])
         == Alerts(last, readings) + (if FallsCritical(LastReading(last, readings), x) then 1 else 0)
    decreases |readings|
  {
    if readings != [] {
      assert (readings + [x])[0] == readings[0];
      assert (readings + [x])[1..] == readings[1..] + [x];
      AlertsSnoc(readings[0], readings[1..], x);
    }
  }

  /** A health reading of 0 is taken as 20, so from a full reading it
      raises no alert. */
  lemma ZeroReadingRaisesNoAlert()
    ensures Alerts(FullLevel, Readings([Some(0.0)])) == 0
  {
    assert Readings([Some(0.0)]) == [FullLevel];
  }

  /** How many readings are above 5. */
  function Above(readings: seq<real>): nat {
    if readings == [] then 0
    else (if readings[0] > CriticalLevel then 1 else 0) + Above(readings[1..])
  }

  // ---------------------------------------------------------------------------
  // Day and night
  // ---------------------------------------------------------------------------

  datatype DayPhase = Day | Night

  /** Day is `timeOfDay < 6000`. */
  function PhaseOf(timeOfDay: int): DayPhase {
    if timeOfDay < 6000 then Day else Night
  }

  /** A sunrise or sunset notice is due: a phase was seen before and it
      differs from the current one. */
  predicate PhaseFlips(last: Option<DayPhase>, timeOfDay: int) {
    last.Some? && last.value != PhaseOf(timeOfDay)
  }

  /** The notices raised over a run of time samples, starting from `last`;
      every sample becomes the new last phase. */
  function TimeNotices(last: Option<DayPhase>, samples: seq<int>): nat
    decreases |samples|
  {
    if samples == [] then 0
    else (if PhaseFlips(last, samples[0]) then 1 else 0) + TimeNotices(Some(PhaseOf(samples[0])), samples[1..])
  }

  /** The phase remembered after a run of samples. */
  function LastPhase(last: Option<DayPhase>, samples: seq<int>): Option<DayPhase> {
    if samples == [] then last else Some(PhaseOf(samples[|samples| - 1]))
  }

  /** One more sample adds its own notice to those of the run before it. */
  lemma {:induction false} TimeNoticesSnoc(last: Option<DayPhase>, samples: seq<int>, t: int)
    ensures TimeNotices(last, samples + [t])
         == TimeNotices(last, samples) + (if PhaseFlips(LastPhase(last, samples), t) then 1 else 0)
    decreases |samples|
  {
    if samples != [] {
      assert (samples + [t])[0] == samples[0];
      assert (samples + [t])[1..] == samples[1..] + [t];
      TimeNoticesSnoc(Some(PhaseOf(samples[0])), samples[1..], t);
    }
  }

  function Phases(samples: seq<int>): (ps: seq<DayPhase>)
    ensures |ps| == |samples|
    ensures forall i :: 0 <= i < |samples| ==> ps[i] == PhaseOf(samples[i])
  {
    seq(|samples|, i requires 0 <= i < |samples| => PhaseOf(samples[i]))
  }

  /** The number of neighbouring pairs that differ. */
  function Flips(ps: seq<DayPhase>): nat {
    if |ps| < 2 then 0
    else (if ps[0] != ps[1] then 1 else 0) + Flips(ps[1..])
  }

  /** From a fresh registration (no phase seen) the notices over a run of
      samples are exactly the day/night changes between consecutive samples;
      the first sample only seeds the state. */
  lemma NoticesAreFlips(samples: seq<int>)
    ensures TimeNotices(None, samples) == Flips(Phases(samples))
  {
    if samples != [] {
      NoticesAfter(PhaseOf(samples[0]), samples[1..]);
      assert Phases(samples) == [PhaseOf(samples[0])] + Phases(samples[1..]);
    }
  }

  lemma {:induction false} NoticesAfter(p: DayPhase, samples: seq<int>)
    ensures TimeNotices(Some(p), samples) == Flips([p] + Phases(samples))
    decreases |samples|
  {
    if samples != [] {
      NoticesAfter(PhaseOf(samples[0]), samples[1..]);
      assert Phases(samples) == [PhaseOf(samples[0])] + Phases(samples[1..]);
      assert ([p] + Phases(samples))[1..] == Phases(samples);
    }
  }

  /** Samples that all fall in one phase raise no notice at all. */
  lemma SteadyPhaseIsSilent(samples: seq<int>, p: DayPhase)
    requires forall i :: 0 <= i < |samples| ==> PhaseOf(samples[i]) == p
    ensures TimeNotices(None, samples) == 0
  {
    NoticesAreFlips(samples);
    ConstantHasNoFlips(Phases(samples), p);
  }

  lemma {:induction false} ConstantHasNoFlips(ps: seq<DayPhase>, p: DayPhase)
    requires forall i :: 0 <= i < |ps| ==> ps[i] == p
    ensures Flips(ps) == 0
    decreases |ps|
  {
    if |ps| >= 2 {
      ConstantHasNoFlips(ps[1..], p);
    }
  }

  // ---------------------------------------------------------------------------
  // Allow-list filters
  // ---------------------------------------------------------------------------

  /** Some word of the list occurs in `s`. */
  predicate MentionsAny(s: string, words: seq<string>) {
    exists k :: 0 <= k < |words| && Contains(s, words[k])
  }

  const SignificantBlocks: seq<string> :=
    ["diamond_ore", "emerald_ore", "gold_ore", "iron_ore", "netherite_ancient_debris", "spawner"]

  /** `b.split('_')[0]`: the part before the first underscore. */
  function BeforeUnderscore(s: string): (r: string)
    ensures '_' !in r
    ensures StartsWith(s, r)
    ensures r == s || (|r| < |s| && s[|r|] == '_')
  {
    if '_' in s then s[..IndexOf(s, '_')] else s
  }

  /** The block filter: the name contains the first part of some entry. */
  predicate IsSignificantBlock(name: string) {
    exists k :: 0 <= k < |SignificantBlocks| && Contains(name, BeforeUnderscore(SignificantBlocks[k]))
  }

  /** What the filter actually looks for. */
  const BlockKeywords: seq<string> := ["diamond", "emerald", "gold", "iron", "netherite", "spawner"]

  /** The filter matches a name exactly when it mentions one of the six
      keywords; "netherite_ancient_debris" contributes "netherite", never
      "ancient". */
  lemma SignificantBlockKeywords(name: string)
    ensures IsSignificantBlock(name) <==> MentionsAny(name, BlockKeywords)
  {
    forall k | 0 <= k < |SignificantBlocks|
      ensures BeforeUnderscore(SignificantBlocks[k]) == BlockKeywords[k]
    {
      KeywordOf(k);
    }
  }

  lemma KeywordOf(k: nat)
    requires k < |SignificantBlocks|
    ensures BeforeUnderscore(SignificantBlocks[k]) == BlockKeywords[k]
  {
    var e, w := SignificantBlocks[k], BlockKeywords[k];
    if k == 5 {
      assert e == w;
    } else {
      assert e[|w|] == '_' && e[..|w|] == w;
      assert '_' !in w;
      assert IndexOf(e, '_') == |w|;
    }
  }

  /** Ancient debris, the ore netherite comes from, is not reported. */
  lemma AncientDebrisIsIgnored()
    ensures !IsSignificantBlock("ancient_debris")
  {
    SignificantBlockKeywords("ancient_debris");
    forall k | 0 <= k < |BlockKeywords| ensures !Contains("ancient_debris", BlockKeywords[k]) {
      DebrisLacksKeyword(k);
    }
  }

  lemma DebrisLacksKeyword(k: nat)
    requires k < |BlockKeywords|
    ensures !Contains("ancient_debris", BlockKeywords[k])
  {
    var c := if k == 1 then 'm' else if k == 4 then 'h' else if k == 5 then 'p' else 'o';
    assert c in BlockKeywords[k];
    AbsentCharExcludes("ancient_debris", BlockKeywords[k], c);
  }

  const RareMobs: seq<string> := ["ender_dragon", "wither", "warden", "elder_guardian", "shulker"]

  /** `entity.displayName || entity.name || 'unknown'`. */
  function EntityName(displayName: Option<string>, name: Option<string>): string {
    OrElse(displayName, OrElse(name, "unknown"))
  }

  /** The rare-mob filter, on the lower-cased name. */
  predicate IsRareEntity(displayName: Option<string>, name: Option<string>) {
    MentionsAny(ToLower(EntityName(displayName, name)), RareMobs)
  }

  /** The display name wins over the registry name, so an entity shown as
      "Ender Dragon" is not reported even though its name is "ender_dragon":
      the lower-cased display name has a space where the list has `_`. */
  lemma DisplayNameHidesDragon()
    ensures Contains("ender_dragon", "ender_dragon")
    ensures !IsRareEntity(Some("Ender Dragon"), Some("ender_dragon"))
  {
    assert OccursAt("ender_dragon", "ender_dragon", 0);
    var lower := ToLower("Ender Dragon");
    assert EntityName(Some("Ender Dragon"), Some("ender_dragon")) == "Ender Dragon";
    ToLowerKeeps("Ender Dragon", '_');
    ToLowerKeeps("Ender Dragon", 'W');
    ToLowerKeeps("Ender Dragon", 'S');
    forall k | 0 <= k < |RareMobs| ensures !Contains(lower, RareMobs[k]) {
      DragonLacksMob(lower, k);
    }
  }

  lemma DragonLacksMob(lower: string, k: nat)
    requires lower == ToLower("Ender Dragon") && k < |RareMobs|
    requires '_' !in lower
    ensures !Contains(lower, RareMobs[k])
  {
    if k == 0 || k == 3 {
      AbsentCharExcludes(lower, RareMobs[k], '_');
    } else {
      var c := if k == 4 then 's' else 'w';
      LowerLacks(c);
      AbsentCharExcludes(lower, RareMobs[k], c);
    }
  }

  lemma LowerLacks(c: char)
    requires c == 's' || c == 'w'
    ensures c !in ToLower("Ender Dragon")
  {
    var s := "Ender Dragon";
    forall i | 0 <= i < |s| ensures ToLower(s)[i] != c {
      assert s[i] in s;
    }
  }

  const ValuableItems: seq<string> := ["diamond", "emerald", "gold", "iron", "netherite", "enchanted", "totem"]

  /** The pickup filter: only the bot's own pickups, and only items whose
      lower-cased name (`collected.name || 'item'`) mentions a valuable. */
  predicate IsValuablePickup(collector: string, botUsername: string, itemName: Option<string>) {
    collector == botUsername && MentionsAny(ToLower(OrElse(itemName, "item")), ValuableItems)
  }

  /** Another player's pickup is never reported, whatever the item. */
  lemma OthersPickupsIgnored(collector: string, botUsername: string, itemName: Option<string>)
    requires collector != botUsername
    ensures !IsValuablePickup(collector, botUsername, itemName)
  {
  }

  // ---------------------------------------------------------------------------
  // Experience
  // ---------------------------------------------------------------------------

  /** `bot.experience && points > 0 && points % 50 === 0`. */
  predicate XpMilestone(points: Option<int>) {
    points.Some? && points.value > 0 && points.value % 50 == 0
  }

  /** The XP notice fires exactly at the positive multiples of 50. */
  lemma XpMilestoneMultiples(p: int)
    ensures XpMilestone(Some(p)) <==> exists m :: m >= 1 && p == 50 * m
  {
    if XpMilestone(Some(p)) {
      var m := p / 50;
      assert p == 50 * m;
    }
  }

  // ---------------------------------------------------------------------------
  // Inventory
  // ---------------------------------------------------------------------------

  const WatchedWindows: seq<string> := ["minecraft:generic_9x1", "minecraft:player"]

  /** `slot && slot.type !== -1`: a slot holds an item (its type id). */
  predicate Occupied(slot: Option<int>) {
    slot.Some? && slot.value != -1
  }

  /** How many slots are occupied. */
  function FilledCount(slots: seq<Option<int>>): nat {
    if slots == [] then 0
    else FilledCount(slots[..|slots| - 1]) + (if Occupied(slots[|slots| - 1]) then 1 else 0)
  }

  lemma {:induction false} FilledAtMostTotal(slots: seq<Option<int>>)
    ensures FilledCount(slots) <= |slots|
    decreases |slots|
  {
    if slots != [] {
      FilledAtMostTotal(slots[..|slots| - 1]);
    }
  }

  /** The counting loop of the `windowOpen` handler. */
  method CountSlots(slots: seq<Option<int>>) returns (filled: nat, total: nat)
    ensures total == |slots|
    ensures filled == FilledCount(slots)
  {
    filled, total := 0, 0;
    for i := 0 to |slots|
      invariant total == i
      invariant filled == FilledCount(slots[..i])
    {
      assert slots[..i + 1][..i] == slots[..i];
      if slots[i].Some? && slots[i].value != -1 {
        filled := filled + 1;
      }
      total := total + 1;
    }
    assert slots[..|slots|] == slots;
  }

  /** `filled / total > 0.9`, stated without division: with no slots the
      ratio is NaN and the test is false, as it is here. */
  predicate NearlyFull(filled: nat, total: nat) {
    10 * filled > 9 * total
  }

  /** For a window with slots, the integer test is the ratio test. */
  lemma NearlyFullIsRatio(filled: nat, total: nat)
    requires total > 0
    ensures NearlyFull(filled, total) <==> (filled as real) / (total as real) > 0.9
  {
    var f, t := filled as real, total as real;
    var r := f / t;
    assert f == r * t;
    assert (10 * filled) as real == 10.0 * f && (9 * total) as real == 9.0 * t;
    ScaleByPositive(r - 0.9, t);
    assert 10.0 * f - 9.0 * t == 10.0 * ((r - 0.9) * t);
  }

  /** The sign of a product with a positive factor is the other's sign. */
  lemma ScaleByPositive(x: real, t: real)
    requires t > 0.0
    ensures x > 0.0 <==> x * t > 0.0
  {
  }

  /** The inventory notice: a watched window type that is nearly full. */
  predicate InventoryAlert(windowType: string, slots: seq<Option<int>>) {
    windowType in WatchedWindows && NearlyFull(FilledCount(slots), |slots|)
  }

  /** A notice needs at least one occupied slot, and an empty window never
      raises one. */
  lemma InventoryAlertNeedsItems(windowType: string, slots: seq<Option<int>>)
    requires InventoryAlert(windowType, slots)
    ensures |slots| > 0 && FilledCount(slots) > 0
  {
    FilledAtMostTotal(slots);
  }
}
