/** The display rules around the classifier: the colour of a label, the
    scrolling text and its scroll offset. */
module Presentation {
  import opened MachineWords
  import opened Classifier
  import opened LedMatrix

  /** `colorForSync`: blue for TRI-LEVEL, green for BI-LEVEL, red for any
      other label. */
  function ColorForSync(name: string): (c: Color)
    ensures c == Blue <==> name == TRI_LEVEL
    ensures c == Green <==> name == BI_LEVEL
    ensures c == Red <==> name != TRI_LEVEL && name != BI_LEVEL
  {
    if name == TRI_LEVEL then Blue
    else if name == BI_LEVEL then Green
    else Red
  }

  /** On the labels the classifier produces the colour is one-to-one, and
      red means NO LOCK. */
  lemma ColorIdentifiesLabel(locked: bool, fpsBelowOne: bool, hdDetHigh: bool,
                             locked': bool, fpsBelowOne': bool, hdDetHigh': bool)
    ensures var a, b := SyncLabel(locked, fpsBelowOne, hdDetHigh), SyncLabel(locked', fpsBelowOne', hdDetHigh');
      (ColorForSync(a) == ColorForSync(b) <==> a == b) && (ColorForSync(a) == Red <==> a == NO_LOCK)
  {
  }

  /** The `char buf[32]` that `snprintf` writes into. */
  const TEXT_BUFFER_SIZE: nat := 32

  /** The scrolling text: exactly "NO LOCK" for that label, otherwise the
      label, a space and the rendered frame rate, cut to the 31 characters
      that fit in the buffer. */
  function DisplayText(name: string, fpsText: string): (text: string)
    ensures |text| < TEXT_BUFFER_SIZE
    ensures name == NO_LOCK ==> text == NO_LOCK
    ensures name != NO_LOCK ==> text <= name + " " + fpsText
    ensures name != NO_LOCK && |name + " " + fpsText| < TEXT_BUFFER_SIZE ==> text == name + " " + fpsText
    ensures name != NO_LOCK && TEXT_BUFFER_SIZE <= |name + " " + fpsText| ==>
      text == (name + " " + fpsText)[..TEXT_BUFFER_SIZE - 1]
  {
    if name == NO_LOCK then NO_LOCK
    else
      var full := name + " " + fpsText;
      if |full| < TEXT_BUFFER_SIZE then full else full[..TEXT_BUFFER_SIZE - 1]
  }

  /** Pixels per character cell: 5 glyph columns and one blank. */
  const CELL_WIDTH: nat := 6

  /** One UI refresh of the uint8_t `scrollOffset`: increment (wrapping at
      256), then back to 0 once past the text's width in pixels. */
  function NextOffset(offset: u8, textLen: nat): (r: u8)
    ensures r <= CELL_WIDTH * textLen
    ensures offset + 1 < TWO_8 && offset + 1 <= CELL_WIDTH * textLen ==> r == offset + 1
    ensures offset + 1 > CELL_WIDTH * textLen ==> r == 0
    ensures offset + 1 == TWO_8 ==> r == 0
  {
    var next := (offset + 1) % TWO_8;
    if next > CELL_WIDTH * textLen then 0 else next
  }

  /** The offset after `n` refreshes of the same text, starting from 0. */
  function ScrollAfter(textLen: nat, n: nat): u8
  {
    if n == 0 then 0 else NextOffset(ScrollAfter(textLen, n - 1), textLen)
  }

  /** For a text narrower than 255 pixels the offset climbs one pixel per
      refresh from 0 up to the text's width. */
  lemma {:induction false} ScrollClimbs(textLen: nat, n: nat)
    requires CELL_WIDTH * textLen < TWO_8 - 1
    requires n <= CELL_WIDTH * textLen
    ensures ScrollAfter(textLen, n) == n
  {
    if n > 0 {
      ScrollClimbs(textLen, n - 1);
    }
  }

  /** ... and is back at 0 on the next refresh. */
  lemma ScrollWraps(textLen: nat)
    requires CELL_WIDTH * textLen < TWO_8 - 1
    ensures ScrollAfter(textLen, CELL_WIDTH * textLen + 1) == 0
  {
    ScrollClimbs(textLen, CELL_WIDTH * textLen);
  }

  /** Hence the offset after n + width + 1 refreshes is the offset after n. */
  lemma {:induction false} ScrollPeriodic(textLen: nat, n: nat)
    requires CELL_WIDTH * textLen < TWO_8 - 1
    ensures ScrollAfter(textLen, n + CELL_WIDTH * textLen + 1) == ScrollAfter(textLen, n)
  {
    if n == 0 {
      ScrollWraps(textLen);
    } else {
      ScrollPeriodic(textLen, n - 1);
    }
  }

  /** Every text the display shows is at most 186 pixels wide, so an offset
      kept within the width of some displayed text never reaches the
      uint8_t wrap. */
  lemma OffsetNeverWraps(offset: u8, name: string, fpsText: string, name': string, fpsText': string)
    requires offset <= CELL_WIDTH * |DisplayText(name, fpsText)|
    ensures offset + 1 < TWO_8
    ensures NextOffset(offset, |DisplayText(name', fpsText')|) <= CELL_WIDTH * (TEXT_BUFFER_SIZE - 1)
  {
  }
}
