/** The predefined gradients of `/gradient <preset>`. */
module Presets {
  import opened Wrappers
  import opened Model

  const Fire := Gradient(["#ff4500", "#ff8c00", "#ffd700"], 80)
  const Ocean := Gradient(["#00bfff", "#1e90ff", "#4682b4"], 100)
  const Sunset := Gradient(["#ff4500", "#ffa500", "#ffd700", "#daa520"], 120)
  const Neon := Gradient(["#ff00ff", "#00ffff", "#ffff00"], 60)
  const Rainbow := Gradient(["red", "orange", "yellow", "green", "blue", "indigo", "violet"], 90)

  const PresetNames: set<string> := {"fire", "ocean", "sunset", "neon", "rainbow"}

  predicate IsPreset(g: Gradient) {
    g == Fire || g == Ocean || g == Sunset || g == Neon || g == Rainbow
  }

  /** The preset a (lower-cased) name selects, looking only at the five
      names the table defines. Presets are not held to the 2..6 colour
      bound of custom gradients: `rainbow` has seven. */
  function Preset(name: string): (r: Option<Gradient>)
    ensures r.Some? <==> name in PresetNames
    ensures r.Some? ==> IsPreset(r.value) && 3 <= |r.value.colors| <= 7 && 10 <= r.value.speed <= 1000
  {
    match name
    case "fire" => Some(Fire)
    case "ocean" => Some(Ocean)
    case "sunset" => Some(Sunset)
    case "neon" => Some(Neon)
    case "rainbow" => Some(Rainbow)
    case _ => None
  }

  /** What `PRESETS[key]` yields on a plain object literal: an own preset,
      a member inherited from `Object.prototype`, or `undefined`. */
  datatype PropertyValue = OwnPreset(g: Gradient) | Inherited(key: string) | Undefined {
    /** JavaScript truthiness of the looked-up value. */
    predicate Truthy() { !Undefined? }
  }

  /** The lower-case names `Object.prototype` supplies to every object
      literal; both denote objects, so both are truthy. */
  const InheritedLowerCaseKeys: set<string> := {"constructor", "__proto__"}

  /** `PRESETS[lowerInput]` as written: the property lookup also finds the
      inherited members, and `if (PRESETS[lowerInput])` accepts them. */
  function PresetPropertyAsWritten(key: string): (r: PropertyValue)
    ensures r.OwnPreset? <==> Preset(key).Some?
    ensures r.Truthy() <==> key in PresetNames + InheritedLowerCaseKeys
  {
    match Preset(key)
    case Some(g) => OwnPreset(g)
    case None => if key in InheritedLowerCaseKeys then Inherited(key) else Undefined
  }

  /** `/gradient constructor` passes the preset test as written although it
      names no gradient, so a value with no `colors` and no `speed` would be
      stored as the current gradient; the own-key lookup rejects it. */
  lemma ConstructorPassesPresetTest()
    ensures PresetPropertyAsWritten("constructor").Truthy()
    ensures !PresetPropertyAsWritten("constructor").OwnPreset?
    ensures Preset("constructor").None?
  {
  }
}
