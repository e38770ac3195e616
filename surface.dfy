/**
 * What an observer reads from the page: its target's scroll offset, the
 * height of the visible box and the height of the scrollable content. The
 * offset reader is chosen once, from the kind of target and, for the
 * document, from the browser's name; the heights are read by target kind.
 */
module Surface {

  /** What an observer watches: the whole document, or one element (by identity). */
  datatype Target = Document | Element(id: nat)

  /** Where the scroll offset of a target is read from. */
  datatype OffsetReader =
    | ElementScrollTop          // element.scrollTop
    | WindowScrollY             // window.scrollY
    | DocumentElementScrollTop  // document.documentElement.scrollTop

  /** The page-wide values a document observer can read. */
  datatype Page = Page(scrollY: int, documentElementScrollTop: int, innerHeight: int, bodyClientHeight: int)

  /** The values an element observer reads from its own element. */
  datatype Box = Box(scrollTop: int, clientHeight: int, scrollHeight: int)

  /** Everything a reader may look at, at one instant: the page and the observed element. */
  datatype View = View(page: Page, element: Box)

  /** The two heights that the phase and remaining streams compare the offset with. */
  datatype Extents = Extents(targetHeight: int, scrollableHeight: int)

  /** The browsers whose document offset must be read from the window. */
  const WindowOffsetBrowsers: set<string> := {"Microsoft Edge", "Safari"}

  /**
   * The offset reader an observer fixes at construction: `scrollTop` of an
   * element; for the document, `window.scrollY` on Microsoft Edge and Safari
   * and `documentElement.scrollTop` everywhere else.
   */
  function SelectOffsetReader(target: Target, browser: string): (r: OffsetReader)
    ensures r == ElementScrollTop <==> target.Element?
    ensures r == WindowScrollY <==> target.Document? && (browser == "Microsoft Edge" || browser == "Safari")
    ensures r == DocumentElementScrollTop <==> target.Document? && browser != "Microsoft Edge" && browser != "Safari"
  {
    if target.Element? then ElementScrollTop
    else if browser in WindowOffsetBrowsers then WindowScrollY
    else DocumentElementScrollTop
  }

  /** The offset a reader sees in `v`. */
  function ReadOffset(reader: OffsetReader, v: View): int
  {
    match reader
    case ElementScrollTop => v.element.scrollTop
    case WindowScrollY => v.page.scrollY
    case DocumentElementScrollTop => v.page.documentElementScrollTop
  }

  /** `targetHeight`: the window's inner height for the document, the element's client height otherwise. */
  function TargetHeight(target: Target, v: View): int
  {
    if target.Document? then v.page.innerHeight else v.element.clientHeight
  }

  /** `scrollableHeight`: the body's client height for the document, the element's scroll height otherwise. */
  function ScrollableHeight(target: Target, v: View): int
  {
    if target.Document? then v.page.bodyClientHeight else v.element.scrollHeight
  }

  /** Both heights of `target` as `v` shows them. */
  function ExtentsOf(target: Target, v: View): Extents
  {
    Extents(TargetHeight(target, v), ScrollableHeight(target, v))
  }

  /**
   * What an observer of `target` reads, by kind of target: a document
   * observer reads the window's inner height and the body's client height,
   * and its offset from the window on Microsoft Edge and Safari and from the
   * root element elsewhere; an element observer reads its element's
   * `scrollTop`, `clientHeight` and `scrollHeight`.
   */
  lemma ReadingsByTarget(target: Target, browser: string, v: View)
    ensures var offset := ReadOffset(SelectOffsetReader(target, browser), v);
      && (target.Document? ==>
        && offset == (if browser == "Microsoft Edge" || browser == "Safari" then v.page.scrollY else v.page.documentElementScrollTop)
        && ExtentsOf(target, v) == Extents(v.page.innerHeight, v.page.bodyClientHeight))
      && (target.Element? ==>
        && offset == v.element.scrollTop
        && ExtentsOf(target, v) == Extents(v.element.clientHeight, v.element.scrollHeight))
  {
  }

  /**
   * An observer reads only its own surface: an element observer sees nothing
   * of the page, and a document observer nothing of any element.
   */
  lemma ReadsOnlyItsTarget(target: Target, browser: string, v: View, w: View)
    requires target.Element? ==> v.element == w.element
    requires target.Document? ==> v.page == w.page
    ensures ReadOffset(SelectOffsetReader(target, browser), v) == ReadOffset(SelectOffsetReader(target, browser), w)
    ensures ExtentsOf(target, v) == ExtentsOf(target, w)
  {
  }
}
