/** The `GetStockObject` hook: which stock objects become the replacement font. */
module StockFonts {

  const OEM_FIXED_FONT: int := 10
  const ANSI_FIXED_FONT: int := 11
  const ANSI_VAR_FONT: int := 12
  const SYSTEM_FONT: int := 13
  const DEVICE_DEFAULT_FONT: int := 14
  const DEFAULT_PALETTE: int := 15
  const SYSTEM_FIXED_FONT: int := 16
  const DEFAULT_GUI_FONT: int := 17

  /** What the hook returns: the replacement font, or the original stock object. */
  datatype StockAnswer = ReplacementFont | OriginalObject(id: int)

  /** The seven stock fonts are answered with the replacement font; everything else is forwarded. */
  function StockObject(i: int): (r: StockAnswer)
    ensures r.OriginalObject? ==> r.id == i
  {
    if i == OEM_FIXED_FONT || i == ANSI_FIXED_FONT || i == ANSI_VAR_FONT || i == SYSTEM_FONT
       || i == DEVICE_DEFAULT_FONT || i == SYSTEM_FIXED_FONT || i == DEFAULT_GUI_FONT
    then ReplacementFont
    else OriginalObject(i)
  }

  /**
   * The replaced ids are exactly the stock-object range 10..17 minus the
   * palette at 15.
   */
  lemma ReplacedIds(i: int)
    ensures StockObject(i).ReplacementFont? <==> 10 <= i <= 17 && i != DEFAULT_PALETTE
  {
  }
}
