// The client's role card (`react-ui/src/features/stateSlices/role.js`):
// `setRole` assigns the seven fields of the draft one after the other.

module RoleSlice {
  /** The seven fields a role payload carries. */
  datatype RoleCard = RoleCard(
    name: string,
    dayText: string,
    nightText: string,
    buttonVisible: bool,
    buttonEnabled: bool,
    buttonText: string,
    buttonConfirmText: string)

  /** The card before any role arrives: empty texts, button hidden and disabled. */
  const InitialCard := RoleCard("", "", "", false, false, "", "")

  /** The role slice. */
  class Role {
    var name: string
    var dayText: string
    var nightText: string
    var buttonVisible: bool
    var buttonEnabled: bool
    var buttonText: string
    var buttonConfirmText: string

    function Card(): RoleCard
      reads this
    {
      RoleCard(name, dayText, nightText, buttonVisible, buttonEnabled, buttonText, buttonConfirmText)
    }

    constructor ()
      ensures Card() == InitialCard
    {
      name, dayText, nightText := "", "", "";
      buttonVisible, buttonEnabled := false, false;
      buttonText, buttonConfirmText := "", "";
    }

    /** `setRole`: every field is overwritten from the payload, so the card is the payload whatever it was. */
    method SetRole(payload: RoleCard)
      modifies this
      ensures Card() == payload
    {
      name := payload.name;
      dayText := payload.dayText;
      nightText := payload.nightText;
      buttonVisible := payload.buttonVisible;
      buttonEnabled := payload.buttonEnabled;
      buttonText := payload.buttonText;
      buttonConfirmText := payload.buttonConfirmText;
    }
  }
}
