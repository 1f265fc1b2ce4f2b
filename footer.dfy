/**
 * Footer stamping (lines 224-266 of `generate()`): for every page of the converted document, an
 * overlay of the page's size holding a grey separator line and the centred footer text is merged on
 * top of the page, and the page is appended to the output whether or not the merge succeeded.
 */
module Footer {

  /** A page's `/MediaBox`: lower-left `(left, bottom)` and upper-right `(right, top)` corners. */
  datatype MediaBox = MediaBox(left: real, bottom: real, right: real, top: real)

  /** A stroked line from `(x0, y0)` to `(x1, y1)`. */
  datatype Rule = Rule(x0: real, y0: real, x1: real, y1: real, lineWidth: real, gray: real)

  /** A run of text whose baseline starts at `(x, y)`. */
  datatype Label = Label(x: real, y: real, text: string, font: string, size: real, gray: real)

  /** The one-page overlay drawn by the canvas: its page size, the separator line and the footer text. */
  datatype Overlay = Overlay(width: real, height: real, rule: Rule, caption: Label)

  /** A page's content: the original drawing, then every overlay merged on top, topmost last. */
  datatype Layer = Content(stream: seq<bv8>) | Stamped(overlay: Overlay)

  datatype Page = Page(media: MediaBox, layers: seq<Layer>)

  const FooterText: string := "Proudly maintained accounting with GramIQ"
  const FontName: string := "Helvetica"
  const FontSize: real := 10.0
  /** Distance of the footer baseline from the bottom edge, in points. */
  const FooterY: real := 18.0
  /** Height of the separator line above the footer baseline. */
  const RuleRise: real := 14.0
  /** Horizontal inset of the separator line from either side. */
  const RuleInset: real := 24.0
  const RuleWidth: real := 0.3
  const RuleGray: real := 0.7
  const TextGray: real := 0.35

  /** ReportLab's `canvas.stringWidth(text, font, size)`: font metrics are not modelled. */
  type StringWidth = (string, string, real) -> real

  /** Whether a merge API raises for this page and overlay (`merge_page` and the older `mergePage`). */
  type MergeFails = (Page, Overlay) -> bool

  /**
   * The overlay for a page of the given width and height: the separator runs at height 32 and stays
   * 24 points inside both sides; the text sits on the baseline 18 and its left and right margins are
   * equal, so it is centred exactly for the measured width.
   */
  function FooterOverlay(pageWidth: real, pageHeight: real, stringWidth: StringWidth): (o: Overlay)
    ensures o.width == pageWidth && o.height == pageHeight
    ensures o.rule.y0 == o.rule.y1 == 32.0
    ensures o.rule.x0 == 24.0 && pageWidth - o.rule.x1 == o.rule.x0
    ensures o.rule.lineWidth == 0.3 && o.rule.gray == 0.7
    ensures o.caption.text == FooterText && o.caption.y == 18.0
    ensures o.caption.font == "Helvetica" && o.caption.size == 10.0 && o.caption.gray == 0.35
    ensures var textWidth := stringWidth(FooterText, "Helvetica", 10.0);
      o.caption.x - 0.0 == pageWidth - (o.caption.x + textWidth)
  {
    var ruleY := FooterY + RuleRise;
    var textWidth := stringWidth(FooterText, FontName, FontSize);
    Overlay(pageWidth, pageHeight,
            Rule(RuleInset, ruleY, pageWidth - RuleInset, ruleY, RuleWidth, RuleGray),
            Label((pageWidth - textWidth) / 2.0, FooterY, FooterText, FontName, FontSize, TextGray))
  }

  /** `page.merge_page(overlay)`: the overlay is painted on top of everything already on the page. */
  function Merge(p: Page, o: Overlay): Page {
    p.(layers := p.layers + [Stamped(o)])
  }

  /**
   * One iteration of the page loop: the page's width and height are read from its media box
   * (`right` and `top`), the footer overlay is built for them, and `merge_page` is tried, then
   * `mergePage`; when both raise, the page is kept as it was.
   * The result keeps the page's geometry and everything already drawn on it, and carries at most
   * one more layer, the footer for its own size; it is the unchanged page exactly when both merges fail.
   */
  function StampPage(p: Page, stringWidth: StringWidth, mergeFails: MergeFails, legacyMergeFails: MergeFails): (q: Page)
    ensures q.media == p.media
    ensures |p.layers| <= |q.layers| <= |p.layers| + 1 && q.layers[..|p.layers|] == p.layers
    ensures |q.layers| == |p.layers| + 1 ==>
      q.layers[|p.layers|] == Stamped(FooterOverlay(p.media.right, p.media.top, stringWidth))
    ensures var o := FooterOverlay(p.media.right, p.media.top, stringWidth);
      q == p <==> mergeFails(p, o) && legacyMergeFails(p, o)
  {
    var overlay := FooterOverlay(p.media.right, p.media.top, stringWidth);
    if !mergeFails(p, overlay) then Merge(p, overlay)
    else if !legacyMergeFails(p, overlay) then Merge(p, overlay)
    else p
  }

  /** What the page loop hands to the writer: every page stamped, in the original order. */
  function StampAll(pages: seq<Page>, stringWidth: StringWidth, mergeFails: MergeFails, legacyMergeFails: MergeFails): (out: seq<Page>)
    ensures |out| == |pages|
    ensures forall i :: 0 <= i < |pages| ==> out[i] == StampPage(pages[i], stringWidth, mergeFails, legacyMergeFails)
  {
    seq(|pages|, i requires 0 <= i < |pages| => StampPage(pages[i], stringWidth, mergeFails, legacyMergeFails))
  }

  /**
   * The loop of lines 227-266: one output page per input page, in order; output page i is input
   * page i with the footer merged on top, or input page i unchanged when both merges failed for it.
   */
  method StampFooters(pages: seq<Page>, stringWidth: StringWidth, mergeFails: MergeFails, legacyMergeFails: MergeFails)
    returns (written: seq<Page>)
    ensures |written| == |pages|
    ensures forall i :: 0 <= i < |pages| ==> written[i] == StampPage(pages[i], stringWidth, mergeFails, legacyMergeFails)
  {
    written := [];
    for i := 0 to |pages|
      invariant |written| == i
      invariant forall k :: 0 <= k < i ==> written[k] == StampPage(pages[k], stringWidth, mergeFails, legacyMergeFails)
    {
      var page := pages[i];
      var pageWidth := page.media.right;
      var pageHeight := page.media.top;
      var overlay := FooterOverlay(pageWidth, pageHeight, stringWidth);
      if !mergeFails(page, overlay) {
        page := Merge(page, overlay);
      } else if !legacyMergeFails(page, overlay) {
        page := Merge(page, overlay);
      }
      written := written + [page];
    }
  }
}
