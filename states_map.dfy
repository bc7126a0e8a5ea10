/**
 * `StatesMap`: the SVG map drawn from a table of state paths, one path per entry, filled
 * by the same priority as `USAMap` (with the colours written out) and faded once the
 * state is no longer left.
 */
module StatesMap {
  import opened Game
  import USAMap

  /** An entry of `statePaths`, in `Object.entries` order: the state's id and its outline. */
  datatype StatePath = StatePath(stateId: string, path: string)

  /** A drawn path: its key, its outline, its fill and its class list. */
  datatype PathView = PathView(key: string, d: string, fill: string, className: string)

  /** `getStateFill` with literal colours: selected, then hovered, then not left, then plain. */
  function GetStateFill(stateId: string, selectedMapState: string, hoveredState: string,
                        remainingStates: seq<string>): (fill: string)
    ensures fill == USAMap.GetStateFill(stateId, selectedMapState, hoveredState, remainingStates)
  {
    if selectedMapState == stateId then "#81c784"
    else if hoveredState == stateId then "#a5d6a7"
    else if stateId !in remainingStates then "#E0E0E0"
    else "#FFFFFF"
  }

  const BaseClass := "cursor-pointer transition-colors duration-200 "

  /** The class list of a path: faded exactly when the state is no longer left. */
  function PathClass(stateId: string, remainingStates: seq<string>): (className: string)
    ensures |className| >= |BaseClass| && className[..|BaseClass|] == BaseClass
    ensures className[|BaseClass|..] == "opacity-50" <==> stateId !in remainingStates
    ensures className[|BaseClass|..] == "" <==> stateId in remainingStates
  {
    BaseClass + (if stateId !in remainingStates then "opacity-50" else "")
  }

  /** The paths of the map: one per entry, in order, keyed by the state's id. */
  function Paths(statePaths: seq<StatePath>, remainingStates: seq<string>,
                 selectedMapState: string, hoveredState: string): (views: seq<PathView>)
    ensures |views| == |statePaths|
    ensures forall i :: 0 <= i < |statePaths| ==>
      views[i].key == statePaths[i].stateId && views[i].d == statePaths[i].path
      && views[i].fill == GetStateFill(statePaths[i].stateId, selectedMapState, hoveredState, remainingStates)
      && views[i].className == PathClass(statePaths[i].stateId, remainingStates)
  {
    if statePaths == [] then []
    else
      var e := statePaths[0];
      [PathView(e.stateId, e.path, GetStateFill(e.stateId, selectedMapState, hoveredState, remainingStates),
                PathClass(e.stateId, remainingStates))]
      + Paths(statePaths[1..], remainingStates, selectedMapState, hoveredState)
  }

  /** `handleClick`: the path's state id and the pointer's client coordinates, unchanged. */
  function HandleClick(stateId: string, clientX: int, clientY: int): (click: (string, Position))
    ensures click.0 == stateId && click.1.x == clientX && click.1.y == clientY
  {
    (stateId, Position(clientX, clientY))
  }
}
