/**
 * The navigator and the controller together: a click on the word view runs
 * `paginate`, and the controller applies its outcome (a page change through
 * `setCurrentPage`, or a word change through `handleNextWord` and
 * `handlePrevWord`). These lemmas follow a reader through the whole
 * sequence of words, forward and back.
 */
module Traversal {
  import opened Content
  import opened AppModel
  import Nexus

  /**
   * The word view is keyed by the word index: after a word change, or once
   * the controller leaves the word view, the navigator in place is a newly
   * mounted one, whose lock is free.
   */
  predicate Remounts(before: AppView, after: AppView) {
    after.cursor.wordIndex != before.cursor.wordIndex || after.appState != LearningSequence
  }

  /** A controller action followed by the navigator's lock it leaves in place. */
  function Apply(v: AppView, a: Action, locked: bool): (AppView, bool) {
    var u := Step(v, a);
    (u, if Remounts(v, u) then false else locked)
  }

  /**
   * One `paginate(dir)` of the mounted navigator, its outcome applied by the
   * controller; the second component is the lock of the navigator in place
   * afterwards.
   */
  function Turn(v: AppView, locked: bool, dir: int): (AppView, bool) {
    match Nexus.PaginateOutcome(v.cursor.page, locked, dir)
    case PageChanged(next, _) => (Step(v, SetPage(next)), true)
    case DelegateNext => Apply(v, NextWord, locked)
    case DelegatePrev => Apply(v, PrevWord, locked)
    case NoOp => (v, locked)
  }

  /**
   * A click on the word view at `x`: the outer zones call the word handlers
   * directly, past the lock; the middle zones turn a page.
   */
  function Click(v: AppView, locked: bool, x: real, width: real): (AppView, bool) {
    match Nexus.ClickTargetOf(x, width)
    case PrevWord => Apply(v, PrevWord, locked)
    case NextWord => Apply(v, NextWord, locked)
    case Turn(dir) => Turn(v, locked, dir)
  }

  /** A click on the right half once the lock has been released. */
  function Advance(v: AppView): AppView {
    Turn(v, false, 1).0
  }

  /** A click on the left half once the lock has been released. */
  function Retreat(v: AppView): AppView {
    Turn(v, false, -1).0
  }

  /** `Retreat` with `handlePrevWord` as evidently intended. */
  function RetreatIntended(v: AppView): AppView {
    match Nexus.PaginateOutcome(v.cursor.page, false, -1)
    case PageChanged(next, _) => Step(v, SetPage(next))
    case DelegatePrev => StepIntended(v, PrevWord)
    case _ => v
  }

  /** A locked navigator ignores a middle click; an edge click has the same effect on the controller whatever the lock. */
  lemma ClickRespectsLock(v: AppView, x: real, width: real)
    ensures Nexus.ClickTargetOf(x, width).Turn? ==> Click(v, true, x, width) == (v, true)
    ensures !Nexus.ClickTargetOf(x, width).Turn? ==> Click(v, true, x, width).0 == Click(v, false, x, width).0
  {
  }

  /** A middle click with the lock free is a page turn: back on the left half, forward on the right. */
  lemma MiddleClickTurns(v: AppView, x: real, width: real)
    requires !(x < width * 0.15) && !(x > width * 0.85)
    ensures x < width / 2.0 ==> Click(v, false, x, width).0 == Retreat(v)
    ensures !(x < width / 2.0) ==> Click(v, false, x, width).0 == Advance(v)
  {
  }

  /** The position of the cursor in the whole sequence of pages. */
  function Position(v: AppView): int {
    v.cursor.wordIndex * Nexus.PageCount + v.cursor.page
  }

  /** The word view is showing a page of a non-empty session. */
  ghost predicate Reading(v: AppView) {
    v.appState == LearningSequence && WordCount(v) > 0 && CursorOk(v)
  }

  /** The last page of the last word. */
  function LastPosition(v: AppView): int {
    WordCount(v) * Nexus.PageCount - 1
  }

  /**
   * A click forward moves one page on, across word boundaries; on the last
   * page of the last word it opens the paragraph review instead and leaves
   * the cursor where it is. The session and the pictures are untouched.
   */
  lemma AdvanceMovesOnePage(v: AppView)
    requires Reading(v)
    ensures Advance(v).session == v.session && Advance(v).images == v.images
    ensures Position(v) < LastPosition(v) ==>
              Reading(Advance(v)) && Position(Advance(v)) == Position(v) + 1
    ensures Position(v) == LastPosition(v) ==>
              Advance(v).appState == ParagraphReview && Advance(v).cursor == v.cursor
  {
    if v.cursor.page == Nexus.PageCount - 1 && v.cursor.wordIndex < WordCount(v) - 1 {
      assert Advance(v).cursor == Cursor(v.cursor.wordIndex + 1, 0, 1);
    }
  }

  /**
   * A click back never changes the word index. It moves one page back inside
   * the word; from the first page of a later word it shows the last page of
   * the same word; from the first page of the first word it opens the
   * paragraph preview and leaves the cursor where it is.
   */
  lemma RetreatMovesOnePage(v: AppView)
    requires Reading(v)
    ensures Retreat(v).session == v.session && Retreat(v).images == v.images
    ensures Retreat(v).cursor.wordIndex == v.cursor.wordIndex
    ensures v.cursor.page > 0 ==> Reading(Retreat(v)) && Position(Retreat(v)) == Position(v) - 1
    ensures v.cursor.page == 0 && v.cursor.wordIndex > 0 ==>
              Reading(Retreat(v)) && Retreat(v).cursor == Cursor(v.cursor.wordIndex, Nexus.PageCount - 1, -1)
    ensures Position(v) == 0 ==> Retreat(v).appState == ParagraphPreview && Retreat(v).cursor == v.cursor
  {
    if v.cursor.page == 0 && v.cursor.wordIndex > 0 {
      PrevWordKeepsWord(v);
    }
  }

  /**
   * With `handlePrevWord` as intended, a click back moves one page back
   * across word boundaries, landing on the last page of the previous word.
   */
  lemma RetreatIntendedMovesOnePage(v: AppView)
    requires Reading(v)
    ensures RetreatIntended(v).session == v.session && RetreatIntended(v).images == v.images
    ensures Position(v) > 0 ==> Reading(RetreatIntended(v)) && Position(RetreatIntended(v)) == Position(v) - 1
    ensures Position(v) > 0 && v.cursor.page == 0 ==>
              RetreatIntended(v).cursor == Cursor(v.cursor.wordIndex - 1, Nexus.PageCount - 1, -1)
    ensures Position(v) == 0 ==> RetreatIntended(v).appState == ParagraphPreview && RetreatIntended(v).cursor == v.cursor
  {
  }

  /** With `handlePrevWord` as intended, back undoes forward and forward undoes back inside the sequence. */
  lemma RetreatUndoesAdvance(v: AppView)
    requires Reading(v)
    ensures Position(v) < LastPosition(v) ==> RetreatIntended(Advance(v)).appState == LearningSequence
    ensures Position(v) < LastPosition(v) ==> Position(RetreatIntended(Advance(v))) == Position(v)
    ensures Position(v) > 0 ==> Advance(RetreatIntended(v)).appState == LearningSequence
    ensures Position(v) > 0 ==> Position(Advance(RetreatIntended(v))) == Position(v)
  {
    AdvanceMovesOnePage(v);
    RetreatIntendedMovesOnePage(v);
    if Position(v) < LastPosition(v) {
      RetreatIntendedMovesOnePage(Advance(v));
    }
    if Position(v) > 0 {
      AdvanceMovesOnePage(RetreatIntended(v));
    }
  }

  /**
   * As App.tsx writes `handlePrevWord`, going forward from the last page of
   * a word and back again does not return: it lands on the last page of the
   * next word.
   */
  lemma RetreatMissesPreviousWord(v: AppView)
    requires Reading(v)
    requires v.cursor.page == Nexus.PageCount - 1 && v.cursor.wordIndex < WordCount(v) - 1
    ensures Retreat(Advance(v)).cursor.wordIndex == v.cursor.wordIndex + 1
    ensures Retreat(Advance(v)).cursor.page == Nexus.PageCount - 1
  {
    var u := Advance(v);
    assert u.cursor == Cursor(v.cursor.wordIndex + 1, 0, 1);
    RetreatMovesOnePage(u);
  }

  /** The HUD's fraction for a view showing a page of a non-empty session. */
  function ProgressOf(v: AppView): (r: real)
    requires Reading(v)
    ensures 0.0 < r <= 1.0
  {
    Progress(v.cursor.wordIndex, v.cursor.page, WordCount(v))
  }

  /** Every forward click that stays in the word view strictly increases the progress fraction. */
  lemma AdvanceIncreasesProgress(v: AppView)
    requires Reading(v) && Position(v) < LastPosition(v)
    ensures Reading(Advance(v)) && ProgressOf(v) < ProgressOf(Advance(v))
  {
    AdvanceMovesOnePage(v);
    var u := Advance(v);
    ProgressMonotone(v.cursor.wordIndex, v.cursor.page, u.cursor.wordIndex, u.cursor.page, WordCount(v));
  }

  function AdvanceTimes(v: AppView, k: nat): AppView {
    if k == 0 then v else Advance(AdvanceTimes(v, k - 1))
  }

  /** From the first page of the first word, `k` forward clicks reach position `k`. */
  lemma {:induction false} AdvanceFromStart(v: AppView, k: nat)
    requires Reading(v) && Position(v) == 0
    requires k <= LastPosition(v)
    ensures Reading(AdvanceTimes(v, k)) && Position(AdvanceTimes(v, k)) == k
    ensures AdvanceTimes(v, k).session == v.session
  {
    if k > 0 {
      AdvanceFromStart(v, k - 1);
      AdvanceMovesOnePage(AdvanceTimes(v, k - 1));
    }
  }

  /**
   * A reader who only clicks forward from the start sees the fraction reach
   * exactly 1 on the last page of the last word, after seven clicks per
   * word less one, and the next click opens the paragraph review.
   */
  lemma ForwardTraversalCompletes(v: AppView)
    requires Reading(v) && Position(v) == 0
    ensures var last := AdvanceTimes(v, LastPosition(v) as nat);
            && Reading(last)
            && last.cursor.wordIndex == WordCount(v) - 1
            && last.cursor.page == Nexus.PageCount - 1
            && ProgressOf(last) == 1.0
            && Advance(last).appState == ParagraphReview
  {
    var n := LastPosition(v) as nat;
    AdvanceFromStart(v, n);
    var last := AdvanceTimes(v, n);
    var i, p := last.cursor.wordIndex, last.cursor.page;
    assert i * 7 + p == WordCount(v) * 7 - 1;
    assert i == WordCount(v) - 1;
    AdvanceMovesOnePage(last);
  }
}
