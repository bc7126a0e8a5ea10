/**
 * `StatesList`: one button per state left, in list order, marked selected and completed,
 * disabled once completed, and coloured completed first, then selected, then plain.
 */
module StatesList {
  import opened Wrappers

  /** A drawn button and its styled-component properties. */
  datatype StateButton = StateButton(
    state: string,
    isSelected: bool,
    isCompleted: bool,
    disabled: bool,
    background: string,
    textColor: string,
    borderColor: string,
    cursor: string)

  const CompletedGreen := "#4CAF50"
  const SelectedBlue := "#3b82f6"
  const PlainBorderGrey := "#d1d5db"

  /** `background-color`: completed before selected before white. */
  function Background(isSelected: bool, isCompleted: bool): (color: string)
    ensures isCompleted ==> color == CompletedGreen
    ensures !isCompleted && isSelected ==> color == SelectedBlue
    ensures !isCompleted && !isSelected ==> color == "white"
  {
    if isCompleted then CompletedGreen else if isSelected then SelectedBlue else "white"
  }

  /** `color`: white text on a coloured button. */
  function TextColor(isSelected: bool, isCompleted: bool): (color: string)
    ensures color == "white" <==> isCompleted || isSelected
  {
    if isCompleted || isSelected then "white" else "#374151"
  }

  /** `border` colour: a coloured button is framed in its own colour, a plain one in grey. */
  function BorderColor(isSelected: bool, isCompleted: bool): (color: string)
    ensures isCompleted || isSelected ==> color == Background(isSelected, isCompleted)
    ensures !isCompleted && !isSelected ==> color == PlainBorderGrey
  {
    if isCompleted then CompletedGreen else if isSelected then SelectedBlue else PlainBorderGrey
  }

  /** The button for one state. */
  function Button(state: string, selectedState: string, completedStates: seq<string>): (b: StateButton)
    ensures b.state == state
    ensures b.isSelected <==> state == selectedState
    ensures b.isCompleted <==> state in completedStates
    ensures b.disabled <==> state in completedStates
    ensures b.background == Background(b.isSelected, b.isCompleted)
    ensures b.textColor == TextColor(b.isSelected, b.isCompleted)
    ensures b.borderColor == BorderColor(b.isSelected, b.isCompleted)
    ensures b.cursor == if b.isCompleted then "default" else "pointer"
  {
    var isSelected := selectedState == state;
    var isCompleted := state in completedStates;
    StateButton(state, isSelected, isCompleted, isCompleted,
                Background(isSelected, isCompleted), TextColor(isSelected, isCompleted),
                BorderColor(isSelected, isCompleted), if isCompleted then "default" else "pointer")
  }

  /** `remainingStates.map(...)`: one button per state left, in the same order. */
  function Buttons(remainingStates: seq<string>, selectedState: string, completedStates: seq<string>): (bs: seq<StateButton>)
    ensures |bs| == |remainingStates|
    ensures forall i :: 0 <= i < |remainingStates| ==> bs[i] == Button(remainingStates[i], selectedState, completedStates)
  {
    if remainingStates == [] then []
    else [Button(remainingStates[0], selectedState, completedStates)]
         + Buttons(remainingStates[1..], selectedState, completedStates)
  }

  /** A click selects the state only when it is not completed. */
  function OnClick(state: string, completedStates: seq<string>): (selected: Option<string>)
    ensures selected.Some? <==> state !in completedStates
    ensures selected.Some? ==> selected.value == state
  {
    if state !in completedStates then Some(state) else None
  }

  /** The buttons hold exactly the states left, and a completed one is never clickable. */
  lemma {:induction false} ButtonsCoverRemaining(remainingStates: seq<string>, selectedState: string,
                                                 completedStates: seq<string>)
    ensures forall b :: b in Buttons(remainingStates, selectedState, completedStates) ==>
      b.state in remainingStates && (b.disabled <==> OnClick(b.state, completedStates).None?)
    ensures forall s :: s in remainingStates ==>
      exists b :: b in Buttons(remainingStates, selectedState, completedStates) && b.state == s
  {
    var bs := Buttons(remainingStates, selectedState, completedStates);
    forall s | s in remainingStates
      ensures exists b :: b in bs && b.state == s
    {
      var i :| 0 <= i < |remainingStates| && remainingStates[i] == s;
      assert bs[i] in bs;
    }
  }
}
