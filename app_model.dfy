/**
 * The session controller of App.tsx as one state record and one transition
 * function. `AppView` holds every piece of state the component keeps with
 * `useState`; `Step` gives the state after each handler or callback, as
 * App.tsx writes them. The class in module Controller updates the same state
 * field by field and is proved to follow `Step`. `StepIntended` replaces
 * three handlers by what they evidently mean; the lemmas at the end of this
 * module show where the handlers as written fall short.
 *
 * Asynchronous work is split at its suspension points: `InitiateFlow` is
 * the synchronous start of `initiateFlow`, `GenerationSucceeded` and
 * `GenerationFailed` its two ways of resuming, and each image completion is
 * an `ImageArrived` that may come at any time and in any order.
 */
module AppModel {
  import opened Content
  import Forge
  import Nexus

  /** The entry mode chosen on the idle screen. */
  datatype EntryMode = TopicMode | TextMode | ForgeMode

  /** The active top-level view. */
  datatype AppState =
    | Idle | Generating | TextSelection | ForgeWizard | CustomView
    | ParagraphPreview | LearningSequence | ParagraphReview | FinalAssessment | SessionComplete

  /** `currentWordIndex`, `currentPage` and `wordDirection`. */
  datatype Cursor = Cursor(wordIndex: int, page: int, direction: int)

  /** All the state App.tsx keeps. `images` maps a word index to its picture's URL. */
  datatype AppView = AppView(
    mode: EntryMode,
    inputValue: string,
    appState: AppState,
    session: Option<LearningSession>,
    showIntro: bool,
    forgeLayers: Forge.Layers,
    cursor: Cursor,
    images: map<nat, string>,
    error: Option<string>)

  const ConnectionFailure: string := "Connection failure. Check Neural Link."

  function Initial(): AppView {
    AppView(TopicMode, "", Idle, None, false, Forge.Layers("", "", ""), Cursor(0, 0, 0), map[], None)
  }

  /** A call of the generation service issued by `initiateFlow`. */
  datatype GenerationRequest = GenerationRequest(text: string, mode: EntryMode, manualWords: seq<string>)

  /** A call of the image service for one word, issued once a session is installed. */
  datatype ImageRequest = ImageRequest(index: nat, prompt: string)

  /** The completion of one image request: a URL, or nothing (`null` or an empty string). */
  datatype ImageArrival = ImageArrival(at: nat, img: Option<string>)

  /** Every handler and callback of App.tsx that changes its state. */
  datatype Action =
    | SetMode(newMode: EntryMode)
    | SetInput(text: string)
    | Submit
    | InitiateFlow
    | GenerationSucceeded(result: LearningSession)
    | GenerationFailed
    | ImageArrived(arrival: ImageArrival)
    | IntroComplete
    | TextSelectionBack
    | ForgeComplete(layers: Forge.Layers)
    | ForgeBack
    | JsonLoad(data: LearningSession)
    | CustomViewClose
    | PreviewContinue
    | NextWord
    | PrevWord
    | SetPage(page: int)
    | ReviewContinue
    | AssessmentComplete
    | Replay
    | NewSession

  // ---------------------------------------------------------------------
  // Session entry

  /** The synchronous part of `initiateFlow`: clear the error, then open the Forge or start generating. */
  function InitiateFlowStep(v: AppView): AppView {
    if v.mode == ForgeMode then v.(error := None, appState := ForgeWizard)
    else v.(error := None, appState := Generating)
  }

  /** The generation call `initiateFlow` issues, if any. */
  function GenerationRequestOf(v: AppView, text: string, manualWords: seq<string>): (r: Option<GenerationRequest>)
    ensures r.Some? <==> v.mode != ForgeMode
    ensures r.Some? ==> r.value == GenerationRequest(text, v.mode, manualWords)
  {
    if v.mode == ForgeMode then None else Some(GenerationRequest(text, v.mode, manualWords))
  }

  /**
   * The idle form's submit: with a non-blank input (or in Forge mode), Text
   * mode goes to text selection and the other modes start the flow.
   */
  function SubmitStep(v: AppView): AppView {
    if Trim(v.inputValue) != "" || v.mode == ForgeMode then
      if v.mode == TextMode then v.(appState := TextSelection) else InitiateFlowStep(v)
    else v
  }

  /** One image request per word of a session, each with that word's prompt. */
  function ImageRequests(words: seq<WordData>): (rs: seq<ImageRequest>)
    ensures |rs| == |words|
    ensures forall i :: 0 <= i < |words| ==> rs[i].index == i && rs[i].prompt == words[i].visualPrompt
  {
    seq(|words|, i requires 0 <= i < |words| => ImageRequest(i, words[i].visualPrompt))
  }

  /**
   * A generated session is installed and the intro starts; the stage stays
   * `Generating` until the intro completes. The cursor and the picture map
   * are left as they were.
   */
  function GenerationSucceededStep(v: AppView, r: LearningSession): AppView {
    v.(session := Some(r), showIntro := true)
  }

  /**
   * The success path as evidently intended: the new session starts on the
   * first page of its first word with an empty picture map, so that nothing
   * of the previous session carries over.
   */
  function GenerationSucceededIntended(v: AppView, r: LearningSession): AppView {
    v.(session := Some(r), showIntro := true,
       cursor := v.cursor.(wordIndex := 0, page := 0), images := map[])
  }

  function GenerationFailedStep(v: AppView): AppView {
    v.(error := Some(ConnectionFailure), appState := Idle)
  }

  // ---------------------------------------------------------------------
  // Pictures

  /** `img && setImages(p => ({ ...p, [idx]: img }))`. */
  function MergeImage(m: map<nat, string>, idx: nat, img: Option<string>): (r: map<nat, string>)
    ensures Truthy(img) ==> idx in r && r[idx] == img.value
    ensures !Truthy(img) ==> r == m
    ensures forall k :: k != idx ==> (k in r <==> k in m)
    ensures forall k :: k != idx && k in r ==> r[k] == m[k]
    ensures m.Keys <= r.Keys
  {
    if Truthy(img) then m[idx := img.value] else m
  }

  /** The picture map after a sequence of completions, in the order given. */
  function Arrive(m: map<nat, string>, arrivals: seq<ImageArrival>): map<nat, string>
    decreases |arrivals|
  {
    if arrivals == [] then m
    else Arrive(MergeImage(m, arrivals[0].at, arrivals[0].img), arrivals[1..])
  }

  /** No two completions are for the same word (one request per word). */
  ghost predicate DistinctIndices(arrivals: seq<ImageArrival>) {
    forall i, j :: 0 <= i < j < |arrivals| ==> arrivals[i].at != arrivals[j].at
  }

  /** Some completion brought a picture for word `k`. */
  ghost predicate Succeeded(arrivals: seq<ImageArrival>, k: nat) {
    exists j :: 0 <= j < |arrivals| && arrivals[j].at == k && Truthy(arrivals[j].img)
  }

  /**
   * What a batch of completions leaves under one index, whatever their
   * order: a word whose request succeeded has its own picture; any other
   * index keeps what it had.
   */
  lemma {:induction false} ArrivalResult(m: map<nat, string>, arrivals: seq<ImageArrival>, k: nat)
    requires DistinctIndices(arrivals)
    decreases |arrivals|
    ensures k in Arrive(m, arrivals) <==> k in m || Succeeded(arrivals, k)
    ensures forall j :: 0 <= j < |arrivals| && arrivals[j].at == k && Truthy(arrivals[j].img) ==>
              Arrive(m, arrivals)[k] == arrivals[j].img.value
    ensures !Succeeded(arrivals, k) && k in m ==> Arrive(m, arrivals)[k] == m[k]
  {
    if arrivals != [] {
      var head, rest := arrivals[0], arrivals[1..];
      var m' := MergeImage(m, head.at, head.img);
      assert DistinctIndices(rest) by {
        forall i, j | 0 <= i < j < |rest| ensures rest[i].at != rest[j].at {
          assert rest[i] == arrivals[i + 1] && rest[j] == arrivals[j + 1];
        }
      }
      ArrivalResult(m', rest, k);
      assert Arrive(m, arrivals) == Arrive(m', rest);
      if head.at == k {
        assert !Succeeded(rest, k) by {
          forall j | 0 <= j < |rest| ensures rest[j].at != k {
            assert rest[j] == arrivals[j + 1];
          }
        }
        assert Succeeded(arrivals, k) <==> Truthy(head.img);
      } else {
        assert Succeeded(arrivals, k) <==> Succeeded(rest, k) by {
          if Succeeded(arrivals, k) {
            var j :| 0 <= j < |arrivals| && arrivals[j].at == k && Truthy(arrivals[j].img);
            assert rest[j - 1] == arrivals[j];
          }
          if Succeeded(rest, k) {
            var j :| 0 <= j < |rest| && rest[j].at == k && Truthy(rest[j].img);
            assert arrivals[j + 1] == rest[j];
          }
        }
      }
      forall j | 0 <= j < |arrivals| && arrivals[j].at == k && Truthy(arrivals[j].img)
        ensures Arrive(m, arrivals)[k] == arrivals[j].img.value
      {
        if j > 0 {
          assert rest[j - 1] == arrivals[j];
        }
      }
    }
  }

  /** Two completions for different words commute. */
  lemma ArrivalsCommute(m: map<nat, string>, a: ImageArrival, b: ImageArrival)
    requires a.at != b.at
    ensures Arrive(m, [a, b]) == Arrive(m, [b, a])
  {
    var ab := MergeImage(MergeImage(m, a.at, a.img), b.at, b.img);
    var ba := MergeImage(MergeImage(m, b.at, b.img), a.at, a.img);
    assert [a, b][1..] == [b] && [b, a][1..] == [a] && [a][1..] == [] && [b][1..] == [];
    assert Arrive(m, [a, b]) == Arrive(MergeImage(m, a.at, a.img), [b]) == Arrive(ab, []);
    assert Arrive(m, [b, a]) == Arrive(MergeImage(m, b.at, b.img), [a]) == Arrive(ba, []);
    assert ab.Keys == ba.Keys;
  }

  /** The picture map `handleJsonLoad` builds: one entry per word that carries an `imageUrl`. */
  function SeededImages(words: seq<WordData>): (m: map<nat, string>)
    ensures forall k: nat :: k in m <==> k < |words| && Truthy(words[k].imageUrl)
    ensures forall k: nat :: k in m ==> k < |words| && words[k].imageUrl == Some(m[k])
  {
    map k: nat | k < |words| && Truthy(words[k].imageUrl) :: words[k].imageUrl.value
  }

  /**
   * An imported session is installed with the pictures it carries and the
   * intro starts; the stage stays `ForgeWizard` until the intro completes.
   * The cursor is left as it was.
   */
  function JsonLoadStep(v: AppView, data: LearningSession): AppView {
    v.(session := Some(data), images := SeededImages(data.words), showIntro := true)
  }

  /** The import as evidently intended: the new session starts on the first page of its first word. */
  function JsonLoadIntended(v: AppView, data: LearningSession): AppView {
    JsonLoadStep(v, data).(cursor := v.cursor.(wordIndex := 0, page := 0))
  }

  // ---------------------------------------------------------------------
  // Word navigation

  function NextWordStep(v: AppView): AppView {
    if v.session.None? then v
    else if v.cursor.wordIndex < |v.session.value.words| - 1 then
      v.(cursor := Cursor(v.cursor.wordIndex + 1, 0, 1))
    else v.(appState := ParagraphReview)
  }

  /** React's queued functional updates, applied in the order they were queued. */
  function ApplyQueued(x: int, updates: seq<int -> int>): int
    decreases |updates|
  {
    if updates == [] then x else ApplyQueued(updates[0](x), updates[1..])
  }

  /**
   * `handlePrevWord`: after the first word, the index updaters
   * `prev => prev + 1` and `prev => prev - 1` are both queued and the last
   * page is shown; on the first word, the paragraph preview opens.
   */
  function PrevWordStep(v: AppView): AppView {
    if v.cursor.wordIndex > 0 then
      v.(cursor := Cursor(ApplyQueued(v.cursor.wordIndex, [(i: int) => i + 1, (i: int) => i - 1]),
                          Nexus.PageCount - 1, -1))
    else v.(appState := ParagraphPreview)
  }

  /** Back from the first page of a word as evidently intended: the last page of the previous word. */
  function PrevWordIntended(v: AppView): AppView {
    if v.cursor.wordIndex > 0 then
      v.(cursor := Cursor(v.cursor.wordIndex - 1, Nexus.PageCount - 1, -1))
    else v.(appState := ParagraphPreview)
  }

  /**
   * The two queued updaters cancel: going back from a word lands on the
   * last page of the same word, which is no longer the one before it.
   */
  lemma PrevWordKeepsWord(v: AppView)
    requires v.cursor.wordIndex > 0
    ensures PrevWordStep(v).cursor == Cursor(v.cursor.wordIndex, Nexus.PageCount - 1, -1)
    ensures PrevWordStep(v).cursor.wordIndex != PrevWordIntended(v).cursor.wordIndex
  {
    var ups: seq<int -> int> := [(i: int) => i + 1, (i: int) => i - 1];
    calc {
      ApplyQueued(v.cursor.wordIndex, ups);
      ApplyQueued(v.cursor.wordIndex + 1, ups[1..]);
      ApplyQueued(v.cursor.wordIndex, ups[2..]);
    }
  }

  // ---------------------------------------------------------------------
  // The transition function

  /** The state after one handler or callback, as App.tsx writes it. */
  function Step(v: AppView, a: Action): AppView {
    match a
    case SetMode(m) => v.(mode := m)
    case SetInput(t) => v.(inputValue := t)
    case Submit => SubmitStep(v)
    case InitiateFlow => InitiateFlowStep(v)
    case GenerationSucceeded(r) => GenerationSucceededStep(v, r)
    case GenerationFailed => GenerationFailedStep(v)
    case ImageArrived(arr) => v.(images := MergeImage(v.images, arr.at, arr.img))
    case IntroComplete => v.(showIntro := false, appState := ParagraphPreview)
    case TextSelectionBack => v.(appState := Idle)
    case ForgeComplete(l) => v.(forgeLayers := l, appState := CustomView)
    case ForgeBack => v.(appState := Idle)
    case JsonLoad(data) => JsonLoadStep(v, data)
    case CustomViewClose => v.(appState := Idle)
    case PreviewContinue => v.(appState := LearningSequence)
    case NextWord => NextWordStep(v)
    case PrevWord => PrevWordStep(v)
    case SetPage(p) => v.(cursor := v.cursor.(page := p))
    case ReviewContinue => v.(appState := FinalAssessment)
    case AssessmentComplete => v.(appState := SessionComplete)
    case Replay => v.(cursor := v.cursor.(wordIndex := 0, page := 0), appState := LearningSequence)
    case NewSession => v.(appState := Idle, inputValue := "")
  }

  /**
   * `Step` with the three handlers as evidently intended: a new session
   * (generated or imported) starts on the first page of its first word, a
   * generated one without pictures, and going back from a word lands on the
   * previous word.
   */
  function StepIntended(v: AppView, a: Action): AppView {
    match a
    case GenerationSucceeded(r) => GenerationSucceededIntended(v, r)
    case JsonLoad(data) => JsonLoadIntended(v, data)
    case PrevWord => PrevWordIntended(v)
    case _ => Step(v, a)
  }

  function Run(v: AppView, actions: seq<Action>): AppView
    decreases |actions|
  {
    if actions == [] then v else Run(Step(v, actions[0]), actions[1..])
  }

  function RunIntended(v: AppView, actions: seq<Action>): AppView
    decreases |actions|
  {
    if actions == [] then v else RunIntended(StepIntended(v, actions[0]), actions[1..])
  }

  /** The number of words of the installed session (0 without one). */
  function WordCount(v: AppView): nat {
    if v.session.Some? then |v.session.value.words| else 0
  }

  /** The cursor's own ranges: a page in 0..6, a direction in -1..1, an index that is not negative. */
  ghost predicate CursorShape(v: AppView) {
    && 0 <= v.cursor.page < Nexus.PageCount
    && -1 <= v.cursor.direction <= 1
    && 0 <= v.cursor.wordIndex
  }

  /** The cursor names a page of the word list: once a non-empty session is installed, one of its words. */
  ghost predicate CursorOk(v: AppView) {
    CursorShape(v) && (WordCount(v) > 0 ==> v.cursor.wordIndex < WordCount(v))
  }

  /** `setCurrentPage` is only ever given a page that `paginate` produced. */
  predicate Admissible(a: Action) {
    a.SetPage? ==> 0 <= a.page < Nexus.PageCount
  }

  /** An action that installs a new session. */
  predicate Installs(a: Action) {
    a.GenerationSucceeded? || a.JsonLoad?
  }

  lemma InitialCursorOk()
    ensures CursorOk(Initial())
  {
  }

  /** Every handler, as written, keeps the cursor's own ranges. */
  lemma StepKeepsCursorShape(v: AppView, a: Action)
    requires CursorShape(v) && Admissible(a)
    ensures CursorShape(Step(v, a))
  {
    if a.PrevWord? && v.cursor.wordIndex > 0 {
      PrevWordKeepsWord(v);
    }
  }

  /** Along any run of the application as written, the cursor keeps its ranges. */
  lemma {:induction false} RunKeepsCursorShape(v: AppView, actions: seq<Action>)
    requires CursorShape(v)
    requires forall i :: 0 <= i < |actions| ==> Admissible(actions[i])
    ensures CursorShape(Run(v, actions))
    decreases |actions|
  {
    if actions != [] {
      StepKeepsCursorShape(v, actions[0]);
      RunKeepsCursorShape(Step(v, actions[0]), actions[1..]);
    }
  }

  /**
   * Every handler as written keeps the cursor on a word of the installed
   * session, except the two that install a new one (see the lemmas at the
   * end of this module).
   */
  lemma StepKeepsCursorOkWithinSession(v: AppView, a: Action)
    requires CursorOk(v) && Admissible(a) && !Installs(a)
    ensures CursorOk(Step(v, a))
  {
    if a.PrevWord? && v.cursor.wordIndex > 0 {
      PrevWordKeepsWord(v);
    }
  }

  lemma StepIntendedKeepsCursorOk(v: AppView, a: Action)
    requires CursorOk(v) && Admissible(a)
    ensures CursorOk(StepIntended(v, a))
  {
    if !Installs(a) && !a.PrevWord? {
      StepKeepsCursorOkWithinSession(v, a);
    }
  }

  /**
   * With the handlers as intended, along any run of the application the
   * cursor stays on a page of the installed session.
   */
  lemma {:induction false} RunIntendedKeepsCursorOk(v: AppView, actions: seq<Action>)
    requires CursorOk(v)
    requires forall i :: 0 <= i < |actions| ==> Admissible(actions[i])
    ensures CursorOk(RunIntended(v, actions))
    decreases |actions|
  {
    if actions != [] {
      StepIntendedKeepsCursorOk(v, actions[0]);
      RunIntendedKeepsCursorOk(StepIntended(v, actions[0]), actions[1..]);
    }
  }

  /** Image completions change nothing but the picture map: never the stage, the cursor or the session. */
  lemma {:induction false} ArrivalsTouchOnlyImages(v: AppView, arrivals: seq<ImageArrival>)
    ensures Run(v, ImageActions(arrivals)) == v.(images := Arrive(v.images, arrivals))
    decreases |arrivals|
  {
    if arrivals != [] {
      assert ImageActions(arrivals)[1..] == ImageActions(arrivals[1..]);
      ArrivalsTouchOnlyImages(Step(v, ImageArrived(arrivals[0])), arrivals[1..]);
    }
  }

  function ImageActions(arrivals: seq<ImageArrival>): (acts: seq<Action>)
    ensures |acts| == |arrivals|
    ensures forall i :: 0 <= i < |arrivals| ==> acts[i] == ImageArrived(arrivals[i])
  {
    seq(|arrivals|, i requires 0 <= i < |arrivals| => ImageArrived(arrivals[i]))
  }

  /**
   * With the success path as intended, after a new generated session and any
   * batch of its completions, every picture in the map was delivered for
   * that word by this batch.
   */
  lemma FreshSessionPicturesAreOwn(v: AppView, r: LearningSession, arrivals: seq<ImageArrival>, k: nat)
    requires DistinctIndices(arrivals)
    ensures var w := Run(StepIntended(v, GenerationSucceeded(r)), ImageActions(arrivals));
            k in w.images <==> Succeeded(arrivals, k)
  {
    var u := StepIntended(v, GenerationSucceeded(r));
    ArrivalsTouchOnlyImages(u, arrivals);
    ArrivalResult(u.images, arrivals, k);
  }

  // ---------------------------------------------------------------------
  // Progress

  /** The progress fraction the HUD draws: `(wordIndex * 7 + page + 1) / (words * 7)`. */
  function Progress(wordIndex: int, page: int, wordCount: int): (r: real)
    requires wordCount > 0
    ensures 0 <= wordIndex < wordCount && 0 <= page < Nexus.PageCount ==> 0.0 < r <= 1.0
    ensures 0 <= wordIndex < wordCount && 0 <= page < Nexus.PageCount ==>
              (r == 1.0 <==> wordIndex == wordCount - 1 && page == Nexus.PageCount - 1)
  {
    var n := (wordIndex * 7 + page + 1) as real;
    var d := (wordCount * 7) as real;
    RatioBounds(n, d);
    n / d
  }

  lemma RatioBounds(n: real, d: real)
    requires d > 0.0
    ensures 0.0 < n ==> 0.0 < n / d
    ensures n <= d ==> n / d <= 1.0
    ensures n / d == 1.0 <==> n == d
  {
    assert n / d * d == n;
  }

  /** The fraction grows with the position `wordIndex * 7 + page`. */
  lemma ProgressMonotone(i1: int, p1: int, i2: int, p2: int, wordCount: int)
    requires wordCount > 0
    requires i1 * 7 + p1 < i2 * 7 + p2
    ensures Progress(i1, p1, wordCount) < Progress(i2, p2, wordCount)
  {
    var d := (wordCount * 7) as real;
    var n1 := (i1 * 7 + p1 + 1) as real;
    var n2 := (i2 * 7 + p2 + 1) as real;
    assert n1 < n2;
    assert n1 / d < n2 / d by {
      assert n1 / d * d == n1 && n2 / d * d == n2;
    }
  }

  // ---------------------------------------------------------------------
  // Installing a session keeps the previous session's cursor and pictures

  /** A session of `n` copies of one word. */
  function SessionOf(name: string, n: nat): (s: LearningSession)
    ensures |s.words| == n
  {
    LearningSession(name, name, seq(n, _ => WordData("w", "SERIF", "prompt", None, [])))
  }

  /** A finished three-word session, with the last page of the last word shown before the review. */
  function Finished(): (v: AppView)
    ensures CursorOk(v) && WordCount(v) == 3
  {
    Initial().(session := Some(SessionOf("a", 3)), cursor := Cursor(2, 6, 1), appState := SessionComplete)
  }

  /**
   * As App.tsx writes the success path, a new session starts at the cursor
   * the previous one ended on: after a three-word session was finished on
   * the last page, a generated one-word session reaches the word view with
   * word index 2, which it does not have (the render then fails reading that
   * word's mood colour).
   */
  lemma StaleCursorAsWritten()
    ensures var shown := Run(Finished(), [NewSession, SetInput("volcano"), Submit,
                                          GenerationSucceeded(SessionOf("b", 1)),
                                          IntroComplete, PreviewContinue]);
            && shown.appState == LearningSequence
            && shown.cursor.wordIndex == 2 && WordCount(shown) == 1
            && !CursorOk(shown)
  {
    assert Trim("volcano") != "";
    var acts := [NewSession, SetInput("volcano"), Submit,
                 GenerationSucceeded(SessionOf("b", 1)), IntroComplete, PreviewContinue];
    assert acts[1..][1..][1..][1..][1..][1..] == [];
  }

  /**
   * The same for an imported session: opening the Forge from a finished
   * three-word session and importing a one-word session reaches the word
   * view with word index 2.
   */
  lemma StaleCursorAfterImportAsWritten()
    ensures var shown := Run(Finished(), [NewSession, SetMode(ForgeMode), Submit,
                                          JsonLoad(SessionOf("b", 1)),
                                          IntroComplete, PreviewContinue]);
            && shown.appState == LearningSequence
            && shown.cursor.wordIndex == 2 && WordCount(shown) == 1
            && !CursorOk(shown)
  {
    var acts := [NewSession, SetMode(ForgeMode), Submit,
                 JsonLoad(SessionOf("b", 1)), IntroComplete, PreviewContinue];
    assert acts[1..][1..][1..][1..][1..][1..] == [];
  }

  /**
   * As App.tsx writes the success path, a picture of the previous session
   * stays under an index whose new request fails, and is shown for the new
   * session's word.
   */
  lemma StalePictureAsWritten()
    ensures var before := Initial().(session := Some(SessionOf("a", 1)), images := map[0 := "old.png"]);
            var after := Run(before, [GenerationSucceeded(SessionOf("b", 1)),
                                      ImageArrived(ImageArrival(0, None))]);
            0 in after.images && after.images[0] == "old.png"
  {
    var acts := [GenerationSucceeded(SessionOf("b", 1)), ImageArrived(ImageArrival(0, None))];
    assert acts[1..][1..] == [];
  }
}
