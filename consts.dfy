/** The constants the embed, the chart and the day picker share. */
module Consts {
  import opened Base

  /** The colours an embed or a chart line can take. The history colour is
      imported by the embed builder but never defined next to the other two,
      so its value is left unspecified. */
  datatype Colour = OnlineColour | OfflineColour | HistoryColour

  /** The hexadecimal code of a colour, where the bot defines one. */
  function HexCode(c: Colour): Option<string>
  {
    match c
    case OnlineColour => Some("#57f287")
    case OfflineColour => Some("#ed4245")
    case HistoryColour => None
  }

  /** Custom id of the "View History" button under every status embed. */
  const DayPickerButtonId := "showDayPickerModal"

  /** Custom id of the modal that button opens. */
  const DayPickerModalId := "anotherDayModal"
}
