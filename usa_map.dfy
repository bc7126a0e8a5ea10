/**
 * `USAMap`: one shape per geography, filled by how the state stands in the game, and the
 * click, hover and leave callbacks it forwards.
 */
module USAMap {
  import opened Game
  import opened Catalog

  /** The colours `getStateFill` chooses among. */
  predicate IsStateColor(fill: string) {
    fill == SelectedColor || fill == HoverColor || fill == CompletedColor || fill == DefaultColor
  }

  /**
   * `getStateFill`: the map pick is drawn selected whatever else holds; a hovered state is
   * drawn hovered even when completed; of the rest, the states not left are drawn
   * completed and the others plain.
   */
  function GetStateFill(stateName: string, selectedMapState: string, hoveredState: string,
                        remainingStates: seq<string>): (fill: string)
    ensures IsStateColor(fill)
    ensures selectedMapState == stateName ==> fill == SelectedColor
    ensures selectedMapState != stateName && hoveredState == stateName ==> fill == HoverColor
    ensures selectedMapState != stateName && hoveredState != stateName ==>
      (fill == CompletedColor <==> stateName !in remainingStates)
      && (fill == DefaultColor <==> stateName in remainingStates)
  {
    if selectedMapState == stateName then SelectedColor
    else if hoveredState == stateName then HoverColor
    else if stateName !in remainingStates then CompletedColor
    else DefaultColor
  }

  /** The four colours are distinct, so a fill tells which case applied. */
  lemma FillTellsCase(stateName: string, selectedMapState: string, hoveredState: string,
                      remainingStates: seq<string>)
    ensures GetStateFill(stateName, selectedMapState, hoveredState, remainingStates) == SelectedColor
      <==> selectedMapState == stateName
    ensures GetStateFill(stateName, selectedMapState, hoveredState, remainingStates) == HoverColor
      <==> selectedMapState != stateName && hoveredState == stateName
  {
    assert SelectedColor[1] != HoverColor[1] && SelectedColor[1] != CompletedColor[1];
    assert SelectedColor[1] != DefaultColor[1] && HoverColor[1] != CompletedColor[1];
    assert HoverColor[1] != DefaultColor[1];
  }

  /** A geography of the atlas: its key and the state name in its properties. */
  datatype Geography = Geography(rsmKey: string, name: string)

  /** A drawn shape: its key, the state it stands for and its fill. */
  datatype Shape = Shape(key: string, name: string, fill: string)

  /** The shapes of `geographies.map`: one per geography, in order, keyed by `rsmKey`. */
  function Shapes(geographies: seq<Geography>, remainingStates: seq<string>,
                  selectedMapState: string, hoveredState: string): (shapes: seq<Shape>)
    ensures |shapes| == |geographies|
    ensures forall i :: 0 <= i < |geographies| ==>
      shapes[i].key == geographies[i].rsmKey && shapes[i].name == geographies[i].name
      && shapes[i].fill == GetStateFill(geographies[i].name, selectedMapState, hoveredState, remainingStates)
  {
    if geographies == [] then []
    else
      [Shape(geographies[0].rsmKey, geographies[0].name,
             GetStateFill(geographies[0].name, selectedMapState, hoveredState, remainingStates))]
      + Shapes(geographies[1..], remainingStates, selectedMapState, hoveredState)
  }

  /** What the map reports to the game. */
  datatype MapEvent = Clicked(state: string, position: Position) | Hovered(state: string) | Left

  /** A click on a geography reports its name and the pointer's client coordinates unchanged. */
  function OnClick(geography: Geography, clientX: int, clientY: int): (e: MapEvent)
    ensures e.Clicked? && e.state == geography.name && e.position.x == clientX && e.position.y == clientY
  {
    Clicked(geography.name, Position(clientX, clientY))
  }

  /** Entering a geography reports its name. */
  function OnMouseEnter(geography: Geography): (e: MapEvent)
    ensures e.Hovered? && e.state == geography.name
  {
    Hovered(geography.name)
  }
}
