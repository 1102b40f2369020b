/** The four puddle-world actions and the two ways the code maps them to and from indices. */
module Actions {
  import opened Wrappers

  /** The world's action array, in index order. */
  const Names: seq<string> := ["UP", "DOWN", "LEFT", "RIGHT"]

  /** mapActionIndexToString: a switch from 0..3 to a name; any other index gives null. */
  function IndexToName(i: int): (r: Option<string>)
    ensures r.Some? <==> 0 <= i < |Names|
    ensures r.Some? ==> r.value == Names[i]
  {
    if i == 0 then Some("UP")
    else if i == 1 then Some("DOWN")
    else if i == 2 then Some("LEFT")
    else if i == 3 then Some("RIGHT")
    else None
  }

  /** mapActionStringToIndex: a switch from a name to 0..3; any other string gives -1. */
  function NameToIndex(s: string): (i: int)
    ensures -1 <= i < |Names|
    ensures i == -1 <==> s !in Names
    ensures i >= 0 ==> Names[i] == s
  {
    if s == "UP" then 0
    else if s == "DOWN" then 1
    else if s == "LEFT" then 2
    else if s == "RIGHT" then 3
    else -1
  }

  /** The two switches are mutual inverses between {0,1,2,3} and the four names. */
  lemma IndexNameRoundTrip(i: int, s: string)
    ensures 0 <= i < |Names| ==> NameToIndex(IndexToName(i).value) == i
    ensures s in Names ==> IndexToName(NameToIndex(s)) == Some(s)
    ensures IndexToName(i) == Some(s) <==> (NameToIndex(s) == i && i != -1)
  {
  }

  /**
   * RLWorld.getActionIndex (and, through it, isValidAction): a linear search of the
   * action array, which finds the same index as the handler's switch.
   */
  method FindIndex(s: string) returns (i: int)
    ensures i == NameToIndex(s)
  {
    i := 0;
    while i < |Names|
      invariant 0 <= i <= |Names|
      invariant forall k :: 0 <= k < i ==> Names[k] != s
    {
      if Names[i] == s {
        return;
      }
      i := i + 1;
    }
    i := -1;
  }
}
