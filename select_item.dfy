/**
 * An entry of the app's select boxes: the text shown, the value it stands
 * for and an optional link.
 */
module SelectItems {
  import opened JsText

  datatype SelectItem = SelectItem(name: string, value: string, link: Option<string>)
}
