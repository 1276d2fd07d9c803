/** Method names that changed between game versions
    (client/src/mapping/method.rs). */
module MethodNames {

  import opened Version

  datatype MethodName = WindowGetWindow

  /** The first version in which the window getter is called `handle`. */
  const HandleSince := MinecraftVersion(1, 21, 9)

  function GetName(m: MethodName, v: MinecraftVersion): string
  {
    match m
    case WindowGetWindow => if Less(v, HandleSince) then "getWindow" else "handle"
  }

  /** The old name exactly below 1.21.9, the new one from 1.21.9 on. */
  lemma WindowGetterNames(v: MinecraftVersion)
    ensures GetName(WindowGetWindow, v) == "getWindow" <==> Less(v, HandleSince)
    ensures GetName(WindowGetWindow, v) == "handle" <==> AtMost(HandleSince, v)
  {
    LessIsStrictTotalOrder(v, HandleSince, v);
  }

  /** Once a version uses the new name, every later version does too. */
  lemma NewNameMonotone(v: MinecraftVersion, w: MinecraftVersion)
    requires AtMost(v, w) && GetName(WindowGetWindow, v) == "handle"
    ensures GetName(WindowGetWindow, w) == "handle"
  {
    WindowGetterNames(v);
    WindowGetterNames(w);
    LessIsStrictTotalOrder(HandleSince, v, w);
  }

  /** The comparison is on numbers, component by component: 1.21.10 and
      1.22.0 are past 1.21.9 and 1.3.100 is not. */
  lemma WindowGetterBoundaries()
    ensures GetName(WindowGetWindow, MinecraftVersion(1, 21, 8)) == "getWindow"
    ensures GetName(WindowGetWindow, MinecraftVersion(1, 21, 9)) == "handle"
    ensures GetName(WindowGetWindow, MinecraftVersion(1, 21, 10)) == "handle"
    ensures GetName(WindowGetWindow, MinecraftVersion(1, 22, 0)) == "handle"
    ensures GetName(WindowGetWindow, MinecraftVersion(2, 0, 0)) == "handle"
    ensures GetName(WindowGetWindow, MinecraftVersion(1, 3, 100)) == "getWindow"
    ensures GetName(WindowGetWindow, MinecraftVersion(0, 99, 99)) == "getWindow"
  {
  }
}
