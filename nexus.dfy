/**
 * The page navigator of one word (components/NexusView.tsx): seven pages,
 * turned one at a time by `paginate`, with an input lock that swallows
 * further turns until a timer releases it; a turn past either end is handed
 * to the session controller as a word change. Also the pure view
 * selections the navigator makes: click zones, the headword's font class and
 * the native-context entry each context page reads.
 */
module Nexus {
  import opened Content

  /** Pages 0 to 6 make up one word. */
  const PageCount: int := 7

  /**
   * What one `paginate(dir)` call does, as seen by its caller: a page change
   * handed to `setPage(next, dir)`, a call of `onNextWord` or `onPrevWord`,
   * or nothing.
   */
  datatype Outcome = PageChanged(next: int, dir: int) | DelegateNext | DelegatePrev | NoOp

  /** The outcome of `paginate(dir)` on page `page` with the lock in state `locked`. */
  function PaginateOutcome(page: int, locked: bool, dir: int): (o: Outcome)
    ensures o == NoOp <==> locked
    ensures o.PageChanged? <==> !locked && 0 <= page + dir < PageCount
    ensures o.PageChanged? ==> o.next == page + dir && o.dir == dir && 0 <= o.next < PageCount
    ensures o == DelegateNext ==> dir > 0
    ensures o == DelegatePrev ==> dir <= 0
  {
    if locked then NoOp
    else if 0 <= page + dir < PageCount then PageChanged(page + dir, dir)
    else if dir > 0 then DelegateNext
    else DelegatePrev
  }

  /**
   * From a page of the word, a single step forward or back is handed to the
   * controller exactly at the two ends: forward from the last page, back
   * from the first.
   */
  lemma DelegationOnlyAtEnds(page: int, dir: int)
    requires 0 <= page < PageCount && (dir == 1 || dir == -1)
    ensures PaginateOutcome(page, false, dir) == DelegateNext <==> page == PageCount - 1 && dir == 1
    ensures PaginateOutcome(page, false, dir) == DelegatePrev <==> page == 0 && dir == -1
  {
  }

  /** The `lockInput` ref of one mounted navigator. */
  class PageNavigator {
    var locked: bool

    constructor ()
      ensures !locked
    {
      locked := false;
    }

    /**
     * `paginate(dir)` while the word shows `page`. A page change takes the
     * lock; a locked call, and a hand-off to the controller, leave it as it
     * was.
     */
    method Paginate(page: int, dir: int) returns (o: Outcome)
      modifies this`locked
      ensures o == PaginateOutcome(page, old(locked), dir)
      ensures locked <==> old(locked) || o.PageChanged?
    {
      if locked {
        return NoOp;
      }
      var next := page + dir;
      if 0 <= next < PageCount {
        o := PageChanged(next, dir);
        locked := true;
      } else if dir > 0 {
        o := DelegateNext;
      } else {
        o := DelegatePrev;
      }
    }

    /** The 400-unit timer started by a page change fires. */
    method ReleaseLock()
      modifies this`locked
      ensures !locked
    {
      locked := false;
    }
  }

  /**
   * Two turns with no timer tick in between change the page at most once,
   * whatever page the second call sees.
   */
  method TwoTurns(nav: PageNavigator, page1: int, dir1: int, page2: int, dir2: int)
    returns (o1: Outcome, o2: Outcome)
    modifies nav
    ensures !(o1.PageChanged? && o2.PageChanged?)
    ensures o1.PageChanged? ==> o2 == NoOp
  {
    o1 := nav.Paginate(page1, dir1);
    o2 := nav.Paginate(page2, dir2);
  }

  /** Where a click on the view goes. */
  datatype ClickTarget = PrevWord | Turn(dir: int) | NextWord

  /**
   * The click handler: the outer 15% on each side change word, the rest of
   * the left half turns back, the rest of the right half turns forward.
   */
  function ClickTargetOf(x: real, width: real): (t: ClickTarget)
    ensures t == PrevWord <==> x < width * 0.15
    ensures t == NextWord <==> !(x < width * 0.15) && x > width * 0.85
    ensures t.Turn? ==> t.dir == 1 || t.dir == -1
    ensures t.Turn? <==> !(x < width * 0.15) && !(x > width * 0.85)
    ensures t.Turn? ==> (t.dir == -1 <==> x < width / 2.0)
  {
    if x < width * 0.15 then PrevWord
    else if x > width * 0.85 then NextWord
    else if x < width / 2.0 then Turn(-1)
    else Turn(1)
  }

  /** The position of a target along the view, left to right. */
  function ZoneRank(t: ClickTarget): nat {
    match t
    case PrevWord => 0
    case Turn(dir) => if dir < 0 then 1 else 2
    case NextWord => 3
  }

  /** On a view of positive width the four zones lie left to right, in this order. */
  lemma ClickZonesOrdered(x1: real, x2: real, width: real)
    requires 0.0 < width && x1 <= x2
    ensures ZoneRank(ClickTargetOf(x1, width)) <= ZoneRank(ClickTargetOf(x2, width))
  {
  }

  const SerifClass: string := "font-serif italic tracking-tight"
  const MonoClass: string := "font-mono tracking-widest uppercase"
  const SansClass: string := "font-sans tracking-tighter uppercase font-black"

  /** `getFontClass`: the headword's classes for the word's `fontVibe`. */
  function FontClass(fontVibe: string): (c: string)
    ensures c == SerifClass <==> fontVibe == "SERIF"
    ensures c == MonoClass <==> fontVibe == "MONO"
    ensures c == SansClass <==> fontVibe != "SERIF" && fontVibe != "MONO"
  {
    if fontVibe == "SERIF" then SerifClass
    else if fontVibe == "MONO" then MonoClass
    else SansClass
  }

  /**
   * The `nativeContexts` index a context page (2 to 5) reads: `page - 2` on
   * pages 2 and 3, `page - 4` on pages 4 and 5.
   */
  function ContextIndex(page: int): (k: int)
    requires 2 <= page <= 5
    ensures k == (page - 2) % 2
    ensures k == page - 2 || k == page - 4
  {
    if page < 4 then page - 2 else page - 4
  }

  /** What a context page shows: a badge, a quoted headline and a footnote. */
  datatype ContextCard = ContextCard(badge: Option<string>, headline: string, footnote: Option<string>)

  const PracticalLogicBadge: string := "PRACTICAL_LOGIC"

  /** A template literal renders an absent value as the text "undefined". */
  function Quoted(s: Option<string>): string {
    "\"" + (if s.Some? then s.value else "undefined") + "\""
  }

  /** `nativeContexts[k]?.…`: an entry past the end of the list is absent. */
  function EntryAt(contexts: seq<NativeContext>, k: int): (e: Option<NativeContext>)
    ensures e.Some? <==> 0 <= k < |contexts|
    ensures e.Some? ==> e.value == contexts[k]
  {
    if 0 <= k < |contexts| then Some(contexts[k]) else None
  }

  /**
   * The card of a context page. Pages 2 and 3 show the entry's label and
   * description, pages 4 and 5 a fixed badge and the entry's sentence; all
   * four show the entry's significance.
   */
  function ContextCardOf(contexts: seq<NativeContext>, page: int): (c: ContextCard)
    requires 2 <= page <= 5
    ensures page >= 4 ==> c.badge == Some(PracticalLogicBadge)
    ensures c.footnote.Some? <==> ContextIndex(page) < |contexts|
    ensures c.footnote.Some? ==> c.footnote.value == contexts[ContextIndex(page)].significance
    ensures page < 4 && c.footnote.Some? ==>
              c.badge == Some(contexts[page - 2].labelText)
              && c.headline == "\"" + contexts[page - 2].description + "\""
    ensures page >= 4 && c.footnote.Some? ==> c.headline == "\"" + contexts[page - 4].sentence + "\""
    ensures c.footnote.None? ==> c.headline == "\"undefined\"" && (page < 4 ==> c.badge.None?)
  {
    var e := EntryAt(contexts, ContextIndex(page));
    if page < 4 then
      ContextCard(
        if e.Some? then Some(e.value.labelText) else None,
        Quoted(if e.Some? then Some(e.value.description) else None),
        if e.Some? then Some(e.value.significance) else None)
    else
      ContextCard(
        Some(PracticalLogicBadge),
        Quoted(if e.Some? then Some(e.value.sentence) else None),
        if e.Some? then Some(e.value.significance) else None)
  }

  /** Pages 2 and 4 read the first entry, pages 3 and 5 the second: both pairs share a footnote. */
  lemma ContextPagesPairUp(contexts: seq<NativeContext>, page: int)
    requires page == 2 || page == 3
    ensures ContextCardOf(contexts, page).footnote == ContextCardOf(contexts, page + 2).footnote
  {
  }
}
