// jQuery's `.data( key )` read of a `data-*` attribute that the script never
// set through `.data()`: the attribute text is converted before the script
// sees it, and the drop handlers test the converted value for truthiness.

module JQuery {
  /**
   * The attribute texts whose converted value is falsy. `false` and `null`
   * become those values. A numeric text becomes a number only when the
   * number prints back as the same text, so of the falsy numbers only `0`
   * and `NaN` arise. The empty text stays the empty string. Every other
   * text converts to something truthy: `true`, a non-zero number, a parsed
   * JSON object or array, or the text itself.
   */
  predicate DataFalsy(attr: string) {
    attr == "" || attr == "false" || attr == "null" || attr == "0" || attr == "NaN"
  }
}
