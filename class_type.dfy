/** The game classes the client talks to, and the internal (slashed) JVM
    name each is mapped under (client/src/mapping/class_type.rs). */
module ClassType {

  import opened Strings

  datatype MinecraftClassType =
    | Minecraft
    | LocalPlayer
    | Level
    | Player
    | Abilities
    | Entity
    | Vec3
    | Window

  /** The mapping key of a class type. */
  function GetName(t: MinecraftClassType): string
  {
    match t
    case Minecraft => "net/minecraft/client/Minecraft"
    case LocalPlayer => "net/minecraft/client/player/LocalPlayer"
    case Level => "net/minecraft/client/multiplayer/ClientLevel"
    case Player => "net/minecraft/world/entity/player/Player"
    case Abilities => "net/minecraft/world/entity/player/Abilities"
    case Entity => "net/minecraft/world/entity/Entity"
    case Vec3 => "net/minecraft/world/phys/Vec3"
    case Window => "com/mojang/blaze3d/platform/Window"
  }

  /** `Display` writes the mapping key and nothing else. */
  function Display(t: MinecraftClassType): (r: string)
    ensures r == GetName(t)
  {
    GetName(t)
  }

  /** Every class type, once each. */
  const AllTypes: seq<MinecraftClassType> :=
    [Minecraft, LocalPlayer, Level, Player, Abilities, Entity, Vec3, Window]

  lemma AllTypesComplete(t: MinecraftClassType)
    ensures t in AllTypes
  {
  }

  /** The position of a type in `AllTypes`. */
  function Ordinal(t: MinecraftClassType): (k: nat)
    ensures k < |AllTypes| && AllTypes[k] == t
  {
    match t
    case Minecraft => 0
    case LocalPlayer => 1
    case Level => 2
    case Player => 3
    case Abilities => 4
    case Entity => 5
    case Vec3 => 6
    case Window => 7
  }

  /** Different class types have different names, so a name identifies its
      class type. */
  lemma GetNameInjective(a: MinecraftClassType, b: MinecraftClassType)
    requires GetName(a) == GetName(b)
    ensures a == b
  {
    // The eight names have eight different lengths.
    assert |GetName(a)| == |GetName(b)|;
  }

  /** Every name is in the slashed internal form: a non-empty name
      without dots. */
  lemma NamesAreInternal(t: MinecraftClassType)
    ensures GetName(t) != [] && '.' !in GetName(t)
  {
    if t.Minecraft? || t.LocalPlayer? || t.Level? {
      ClientNamesInternal(t);
    } else if t.Player? || t.Abilities? || t.Entity? {
      EntityNamesInternal(t);
    } else {
      OtherNamesInternal(t);
    }
  }

  lemma ClientNamesInternal(t: MinecraftClassType)
    requires t.Minecraft? || t.LocalPlayer? || t.Level?
    ensures '.' !in GetName(t)
  {
    match t
    case Minecraft => assert '.' !in "net/minecraft/client/Minecraft";
    case LocalPlayer => assert '.' !in "net/minecraft/client/player/LocalPlayer";
    case Level => assert '.' !in "net/minecraft/client/multiplayer/ClientLevel";
  }

  lemma EntityNamesInternal(t: MinecraftClassType)
    requires t.Player? || t.Abilities? || t.Entity?
    ensures '.' !in GetName(t)
  {
    match t
    case Player => assert '.' !in "net/minecraft/world/entity/player/Player";
    case Abilities => assert '.' !in "net/minecraft/world/entity/player/Abilities";
    case Entity => assert '.' !in "net/minecraft/world/entity/Entity";
  }

  lemma OtherNamesInternal(t: MinecraftClassType)
    requires t.Vec3? || t.Window?
    ensures '.' !in GetName(t)
  {
    match t
    case Vec3 => assert '.' !in "net/minecraft/world/phys/Vec3";
    case Window => assert '.' !in "com/mojang/blaze3d/platform/Window";
  }

  /** The dot-to-slash rewriting that builds the mapping's class keys
      leaves every name as it is. */
  lemma NamesAreSlashed(t: MinecraftClassType)
    ensures Slashed(GetName(t)) == GetName(t)
  {
    NamesAreInternal(t);
    SlashedNoDots(GetName(t));
  }
}
