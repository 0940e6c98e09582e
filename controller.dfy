/**
 * The App component of App.tsx as an object: its `useState` variables are
 * fields, and each handler or callback is a method that updates them in
 * place. Every method is proved to follow the transition function
 * `AppModel.Step`, which is App.tsx as written, and to keep the cursor's
 * page, direction and index in their ranges.
 */
module Controller {
  import opened Content
  import opened AppModel
  import Forge
  import Nexus
  import Traversal

  class App {
    var mode: EntryMode
    var inputValue: string
    var appState: AppState
    var session: Option<LearningSession>
    var showIntro: bool
    var forgeLayers: Forge.Layers
    var currentWordIndex: int
    var currentPage: int
    var wordDirection: int
    var images: map<nat, string>
    var error: Option<string>

    /** The state as one record. */
    function View(): AppView
      reads this
    {
      AppView(mode, inputValue, appState, session, showIntro, forgeLayers,
              Cursor(currentWordIndex, currentPage, wordDirection), images, error)
    }

    ghost predicate Valid()
      reads this
    {
      CursorShape(View())
    }

    constructor ()
      ensures Valid() && View() == Initial()
    {
      mode := TopicMode;
      inputValue := "";
      appState := Idle;
      session := None;
      showIntro := false;
      forgeLayers := Forge.Layers("", "", "");
      currentWordIndex := 0;
      currentPage := 0;
      wordDirection := 0;
      images := map[];
      error := None;
    }

    method SetMode(m: EntryMode)
      requires Valid()
      modifies this
      ensures Valid() && View() == Step(old(View()), AppModel.SetMode(m))
    {
      mode := m;
    }

    method SetInput(text: string)
      requires Valid()
      modifies this
      ensures Valid() && View() == Step(old(View()), AppModel.SetInput(text))
    {
      inputValue := text;
    }

    /**
     * The synchronous start of `initiateFlow`. In Forge mode it opens the
     * wizard and asks nothing of the generation service; otherwise it shows
     * the loader and issues one generation request.
     */
    method InitiateFlow(text: string, manualWords: seq<string>) returns (request: Option<GenerationRequest>)
      requires Valid()
      modifies this
      ensures Valid() && View() == Step(old(View()), AppModel.InitiateFlow)
      ensures request == GenerationRequestOf(old(View()), text, manualWords)
      ensures error.None?
      ensures old(mode) == ForgeMode ==> appState == ForgeWizard && request.None?
      ensures old(mode) != ForgeMode ==> appState == Generating && request.Some?
      ensures session == old(session) && images == old(images)
    {
      error := None;
      if mode == ForgeMode {
        appState := ForgeWizard;
        return None;
      }
      appState := Generating;
      request := Some(GenerationRequest(text, mode, manualWords));
    }

    /** The idle form's submit button. */
    method Submit() returns (request: Option<GenerationRequest>)
      requires Valid()
      modifies this
      ensures Valid() && View() == Step(old(View()), AppModel.Submit)
      ensures !HasContent(old(inputValue)) && old(mode) != ForgeMode ==> View() == old(View())
      ensures request == if (HasContent(old(inputValue)) || old(mode) == ForgeMode) && old(mode) != TextMode
                         then GenerationRequestOf(old(View()), old(inputValue), [])
                         else None
    {
      TrimEmptyIffBlank(inputValue);
      if Trim(inputValue) != "" || mode == ForgeMode {
        if mode == TextMode {
          appState := TextSelection;
          request := None;
        } else {
          request := InitiateFlow(inputValue, []);
        }
      } else {
        request := None;
      }
    }

    /**
     * The generation service returned a session: install it, start the
     * intro, and issue one image request per word, none of them awaited.
     * The cursor and the picture map are left as they were.
     */
    method GenerationSucceeded(result: LearningSession) returns (requests: seq<ImageRequest>)
      requires Valid()
      modifies this
      ensures Valid() && View() == Step(old(View()), AppModel.GenerationSucceeded(result))
      ensures requests == ImageRequests(result.words)
      ensures session == Some(result) && showIntro && appState == old(appState)
      ensures currentWordIndex == old(currentWordIndex) && currentPage == old(currentPage)
      ensures images == old(images)
    {
      session := Some(result);
      requests := [];
      for idx := 0 to |result.words|
        invariant requests == ImageRequests(result.words[..idx])
      {
        requests := requests + [ImageRequest(idx, result.words[idx].visualPrompt)];
      }
      assert result.words[..|result.words|] == result.words;
      showIntro := true;
    }

    /** The generation service failed: report it and go back to the idle screen, keeping any earlier session. */
    method GenerationFailed()
      requires Valid()
      modifies this
      ensures Valid() && View() == Step(old(View()), AppModel.GenerationFailed)
      ensures error == Some(ConnectionFailure) && appState == Idle
      ensures session == old(session) && images == old(images)
    {
      error := Some(ConnectionFailure);
      appState := Idle;
    }

    /**
     * One image request completed. A picture is stored under its own index
     * only; an empty result stores nothing. Nothing else changes.
     */
    method ImageArrived(idx: nat, img: Option<string>)
      requires Valid()
      modifies this
      ensures Valid() && View() == Step(old(View()), AppModel.ImageArrived(ImageArrival(idx, img)))
      ensures Truthy(img) ==> idx in images && images[idx] == img.value
      ensures !Truthy(img) ==> images == old(images)
      ensures forall k :: k != idx ==> (k in images <==> k in old(images))
      ensures forall k :: k != idx && k in images ==> images[k] == old(images)[k]
      ensures appState == old(appState) && session == old(session)
      ensures currentWordIndex == old(currentWordIndex) && currentPage == old(currentPage)
    {
      if img.Some? && img.value != "" {
        images := images[idx := img.value];
      }
    }

    /**
     * `handleJsonLoad`: install an imported session and replace the picture
     * map by one holding the picture of every word that carries an
     * `imageUrl` (the source clears the map, then merges word by word).
     * The cursor is left as it was.
     */
    method HandleJsonLoad(data: LearningSession)
      requires Valid()
      modifies this
      ensures Valid() && View() == Step(old(View()), AppModel.JsonLoad(data))
      ensures forall k: nat :: k in images <==> k < |data.words| && Truthy(data.words[k].imageUrl)
      ensures forall k: nat :: k in images ==> k < |data.words| && data.words[k].imageUrl == Some(images[k])
      ensures session == Some(data) && showIntro && appState == old(appState)
      ensures currentWordIndex == old(currentWordIndex) && currentPage == old(currentPage)
    {
      session := Some(data);
      var seeded: map<nat, string> := map[];
      for idx := 0 to |data.words|
        invariant forall k: nat :: k in seeded <==> k < idx && Truthy(data.words[k].imageUrl)
        invariant forall k: nat :: k in seeded ==> k < idx && data.words[k].imageUrl == Some(seeded[k])
      {
        var word := data.words[idx];
        if word.imageUrl.Some? && word.imageUrl.value != "" {
          seeded := seeded[idx := word.imageUrl.value];
        }
      }
      assert seeded == SeededImages(data.words);
      images := seeded;
      showIntro := true;
    }

    /** The intro finished: show the paragraph preview. */
    method IntroComplete()
      requires Valid()
      modifies this
      ensures Valid() && View() == Step(old(View()), AppModel.IntroComplete)
      ensures !showIntro && appState == ParagraphPreview
    {
      showIntro := false;
      appState := ParagraphPreview;
    }

    method TextSelectionBack()
      requires Valid()
      modifies this
      ensures Valid() && View() == Step(old(View()), AppModel.TextSelectionBack)
      ensures appState == Idle
    {
      appState := Idle;
    }

    /** The wizard's render button: keep the layers and show the custom view. */
    method ForgeComplete(layers: Forge.Layers)
      requires Valid()
      modifies this
      ensures Valid() && View() == Step(old(View()), AppModel.ForgeComplete(layers))
      ensures forgeLayers == layers && appState == CustomView
    {
      forgeLayers := layers;
      appState := CustomView;
    }

    method ForgeBack()
      requires Valid()
      modifies this
      ensures Valid() && View() == Step(old(View()), AppModel.ForgeBack)
      ensures appState == Idle
    {
      appState := Idle;
    }

    method CustomViewClose()
      requires Valid()
      modifies this
      ensures Valid() && View() == Step(old(View()), AppModel.CustomViewClose)
      ensures appState == Idle && forgeLayers == old(forgeLayers)
    {
      appState := Idle;
    }

    method PreviewContinue()
      requires Valid()
      modifies this
      ensures Valid() && View() == Step(old(View()), AppModel.PreviewContinue)
      ensures appState == LearningSequence
    {
      appState := LearningSequence;
    }

    /**
     * `handleNextWord`: without a session nothing happens; before the last
     * word, move to the first page of the next word; on the last word, open
     * the paragraph review and leave the cursor where it is.
     */
    method HandleNextWord()
      requires Valid()
      modifies this
      ensures Valid() && View() == Step(old(View()), AppModel.NextWord)
      ensures old(session).None? ==> View() == old(View())
      ensures old(session).Some? && old(currentWordIndex) < |old(session).value.words| - 1 ==>
                && currentWordIndex == old(currentWordIndex) + 1 && currentPage == 0 && wordDirection == 1
                && appState == old(appState)
      ensures old(session).Some? && old(currentWordIndex) >= |old(session).value.words| - 1 ==>
                && appState == ParagraphReview
                && currentWordIndex == old(currentWordIndex) && currentPage == old(currentPage)
      ensures session == old(session) && images == old(images)
    {
      if session.None? {
        return;
      }
      if currentWordIndex < |session.value.words| - 1 {
        wordDirection := 1;
        currentWordIndex := currentWordIndex + 1;
        currentPage := 0;
      } else {
        appState := ParagraphReview;
      }
    }

    /**
     * `handlePrevWord`: after the first word, the index updaters
     * `prev => prev + 1` and `prev => prev - 1` run in the order they were
     * queued, so the same word stays, now on its last page; on the first
     * word, the paragraph preview opens and the cursor stays where it is.
     */
    method HandlePrevWord()
      requires Valid()
      modifies this
      ensures Valid() && View() == Step(old(View()), AppModel.PrevWord)
      ensures old(currentWordIndex) > 0 ==>
                && currentWordIndex == old(currentWordIndex)
                && currentPage == Nexus.PageCount - 1 && wordDirection == -1
                && appState == old(appState)
      ensures old(currentWordIndex) <= 0 ==>
                && appState == ParagraphPreview
                && currentWordIndex == old(currentWordIndex) && currentPage == old(currentPage)
      ensures session == old(session) && images == old(images)
    {
      if currentWordIndex > 0 {
        PrevWordKeepsWord(View());
        wordDirection := -1;
        currentWordIndex := currentWordIndex + 1;
        currentWordIndex := currentWordIndex - 1;
        currentPage := Nexus.PageCount - 1;
      } else {
        appState := ParagraphPreview;
      }
    }

    /** `setCurrentPage`, as the navigator calls it after an in-range turn. */
    method SetCurrentPage(page: int)
      requires Valid() && 0 <= page < Nexus.PageCount
      modifies this
      ensures Valid() && View() == Step(old(View()), AppModel.SetPage(page))
      ensures currentPage == page && wordDirection == old(wordDirection)
    {
      currentPage := page;
    }

    /**
     * Hands a navigator outcome to the controller, as the props of the word
     * view wire them: a page change to `setCurrentPage`, the two hand-offs to
     * `handleNextWord` and `handlePrevWord`.
     */
    method ApplyOutcome(o: Nexus.Outcome)
      requires Valid()
      requires o.PageChanged? ==> 0 <= o.next < Nexus.PageCount
      modifies this
      ensures Valid()
      ensures o.PageChanged? ==> View() == Step(old(View()), AppModel.SetPage(o.next))
      ensures o == Nexus.DelegateNext ==> View() == Step(old(View()), AppModel.NextWord)
      ensures o == Nexus.DelegatePrev ==> View() == Step(old(View()), AppModel.PrevWord)
      ensures o == Nexus.NoOp ==> View() == old(View())
    {
      match o
      case PageChanged(next, _) => SetCurrentPage(next);
      case DelegateNext => HandleNextWord();
      case DelegatePrev => HandlePrevWord();
      case NoOp =>
    }

    method ReviewContinue()
      requires Valid()
      modifies this
      ensures Valid() && View() == Step(old(View()), AppModel.ReviewContinue)
      ensures appState == FinalAssessment
    {
      appState := FinalAssessment;
    }

    method AssessmentComplete()
      requires Valid()
      modifies this
      ensures Valid() && View() == Step(old(View()), AppModel.AssessmentComplete)
      ensures appState == SessionComplete
    {
      appState := SessionComplete;
    }

    /** Replay: back to the first page of the first word, with the same session and pictures. */
    method Replay()
      requires Valid()
      modifies this
      ensures Valid() && View() == Step(old(View()), AppModel.Replay)
      ensures currentWordIndex == 0 && currentPage == 0 && appState == LearningSequence
      ensures session == old(session) && images == old(images)
    {
      currentWordIndex := 0;
      currentPage := 0;
      appState := LearningSequence;
    }

    /** New session: back to the idle screen with an empty input. */
    method NewSession()
      requires Valid()
      modifies this
      ensures Valid() && View() == Step(old(View()), AppModel.NewSession)
      ensures appState == Idle && inputValue == ""
    {
      appState := Idle;
      inputValue := "";
    }
  }

  /**
   * A click on the word view while the controller shows the learning
   * sequence: the navigator decides, the controller applies. The navigator
   * in place afterwards is returned: the same one, or, after a word change
   * or once the word view is left, a newly mounted one.
   */
  method ClickWordView(app: App, nav: Nexus.PageNavigator, x: real, width: real)
    returns (mounted: Nexus.PageNavigator)
    requires app.Valid() && app.appState == LearningSequence && app.session.Some?
    modifies app, nav
    ensures app.Valid()
    ensures app.View() == Traversal.Click(old(app.View()), old(nav.locked), x, width).0
    ensures mounted.locked == Traversal.Click(old(app.View()), old(nav.locked), x, width).1
    ensures Traversal.Remounts(old(app.View()), app.View()) ==> fresh(mounted)
    ensures !Traversal.Remounts(old(app.View()), app.View()) ==> mounted == nav
  {
    var before := app.View();
    match Nexus.ClickTargetOf(x, width) {
      case PrevWord => app.HandlePrevWord();
      case NextWord => app.HandleNextWord();
      case Turn(dir) =>
        var o := nav.Paginate(app.currentPage, dir);
        app.ApplyOutcome(o);
    }
    if Traversal.Remounts(before, app.View()) {
      mounted := new Nexus.PageNavigator();
    } else {
      mounted := nav;
    }
  }
}
