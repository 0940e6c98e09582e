# Lexicon Prime session engine, modelled in Dafny

Lexicon Prime is a vocabulary-learning UI. A user picks a topic, pastes a text or opens the
Forge. A generation service then turns the input into a session of words, and the user is led
through fixed stages: intro, paragraph preview, a seven-page exploration of every word,
paragraph review, assessment and completion. This project models the engine under those views,
with all rendering removed:

- **The session controller** (`App.tsx`). This is the stage value (`AppState`), the cursor
  (`currentWordIndex`, `currentPage`, `wordDirection`), the sparse picture map `images`, the
  session, the error and the Forge layers, with every handler and callback that changes them.
  Module `AppModel` gives the whole state as one record `AppView` and one transition function
  `Step`, with every handler as App.tsx writes it. Class `Controller.App` holds the same state as
  fields, updates them in place, and is proved to follow `Step` and to keep the page in 0..6,
  the direction in -1..1 and the word index non-negative. A second transition function,
  `StepIntended`, replaces the three handlers listed under "## Findings" with what they
  evidently mean. Only with it does the cursor stay on a word of the installed session.
- **The page navigator** (`components/NexusView.tsx`). `paginate` turns pages 0 to 6 of one word
  behind an input lock, and hands a turn past either end to the controller. It also holds the
  click-zone dispatch, the headword font class and the native-context entry each context page
  reads. Module `Nexus` has the outcome of `paginate` as a value and the lock as a field of class
  `PageNavigator`, and the explicit `ReleaseLock` stands for the 400-unit timer.
- **The Forge wizard** (`components/ForgeWizard.tsx`). This is the three-layer record, the step
  that picks the edited layer, the tab, the "copied" flag and the JSON submit gate. Module `Forge`
  holds it in class `ForgeWizard`.
- **Navigator and controller together** (module `Traversal`). A click is decided by the navigator
  and applied by the controller. The navigator is mounted afresh whenever the word index changes.
  A reader clicking forward from the start moves one page per click across word boundaries. The
  progress fraction rises strictly at every click and is exactly 1 on the last page of the last
  word. A click back never changes the word index. Only with the intended `handlePrevWord` does
  back undo forward.

Asynchronous work is split at its suspension points:

- `InitiateFlow` is the synchronous start of `initiateFlow` and returns the generation request
  it issues.
- `GenerationSucceeded` and `GenerationFailed` are its two ways of resuming. The first returns
  one image request per word.
- Every image completion is a call of `ImageArrived` that may come at any time and in any order.

The generation service, the image service and `JSON.parse` are outside the model. Their results
are parameters: a `LearningSession`, an `Option<string>` picture, and the `isJson` predicate
given to `ForgeWizard.SubmitJson`.

Some facts about the code that a reader might not expect:

- Pages 4 and 5 read `nativeContexts[page - 4]`, that is entries 0 and 1, the same entries as
  pages 2 and 3 (`Nexus.ContextIndex`).
- "New session" only returns to the idle screen and clears the input. It does not clear the
  session, the cursor or the pictures (`Controller.App.NewSession`).
- There is no guard against a late picture from a superseded session. A completion always writes
  into the current map.
- `handleJsonLoad` does no shape check. An empty word list is accepted.
- The progress fraction is not clamped.
- After a generated session is installed, the stage stays `Generating` until the intro completes.
  After a JSON import it stays `ForgeWizard` until then. Only the intro's completion opens the
  paragraph preview.
- `setPage` is wired to `setCurrentPage`, which ignores its second argument. A page turn never
  changes `wordDirection`.

Three handlers fall short of what they evidently mean. They give the four rows under
"## Findings". `Step`, the class and the traversal lemmas follow the code as written. Each
finding has a lemma that exhibits it. The corrected handlers live in `StepIntended` and
`Traversal.RetreatIntended`, and the intended properties are proved about those.

## Model

| member | source | states |
|---|---|---|
| Content.TrimEmptyIffBlank | App.tsx:158 | `input.trim()` is empty exactly when every character of the input is a character JavaScript's trim strips |
| Forge.FieldOf | components/ForgeWizard.tsx:144 | step 0 edits `html`, step 1 edits `css`, every other step edits `js` |
| Forge.StepFieldRoundTrip | components/ForgeWizard.tsx:138-144 | the step button of a field selects that field, and reading back the field of any of the three buttons gives that button's index |
| Forge.Put | components/ForgeWizard.tsx:145 | editing sets the selected field to the typed value and leaves the other two fields as they were |
| Forge.ForgeWizard.constructor | components/ForgeWizard.tsx:15-23 | the wizard opens on the JSON tab at step 0, not copied, with the default layers and an empty JSON input |
| Forge.ForgeWizard.SelectMode | components/ForgeWizard.tsx:79-82 | a tab button sets the mode |
| Forge.ForgeWizard.SelectStep | components/ForgeWizard.tsx:138-139 | a step button sets `step` to its own index, which is always 0, 1 or 2 |
| Forge.ForgeWizard.EditLayer | components/ForgeWizard.tsx:138-145 | typing replaces only the field the current step selects, and the editor then shows the typed text; the edited field is the one whose step button is lit |
| Forge.ForgeWizard.SetJsonInput | components/ForgeWizard.tsx:118-120 | the JSON text area holds what was typed |
| Forge.ForgeWizard.CopyProtocol | components/ForgeWizard.tsx:52-55 | copying the protocol sets `copied` |
| Forge.ForgeWizard.CopiedTimerElapsed | components/ForgeWizard.tsx:56 | the timer scheduled by a copy resets `copied` |
| Forge.ForgeWizard.SubmitJson | components/ForgeWizard.tsx:59-67 | `onJsonLoad` receives the unmodified input exactly when it parses; otherwise nothing is handed on |
| Forge.ForgeWizard.Complete | components/ForgeWizard.tsx:151 | `onComplete` receives the current layers unchanged |
| Nexus.PaginateOutcome | components/NexusView.tsx:38-48 | a locked call does nothing and only a locked call does nothing; a free call changes the page exactly when `page + dir` is in 0..6, and then to `page + dir`; a forward hand-off needs `dir > 0` |
| Nexus.DelegationOnlyAtEnds | components/NexusView.tsx:40-47 | from a page in 0..6 a single step is handed to `onNextWord` exactly forward from page 6, and to `onPrevWord` exactly back from page 0 |
| Nexus.PageNavigator.constructor | components/NexusView.tsx:18 | a mounted navigator starts unlocked |
| Nexus.PageNavigator.Paginate | components/NexusView.tsx:38-48 | returns the outcome above; the lock is taken exactly by a page change, and a hand-off or a locked call leaves it as it was |
| Nexus.PageNavigator.ReleaseLock | components/NexusView.tsx:45 | the 400-unit timer frees the lock |
| Nexus.TwoTurns | components/NexusView.tsx:39-45 | two turns with no timer tick between them change the page at most once, and after a change the second turn does nothing |
| Nexus.ClickTargetOf | components/NexusView.tsx:75-80 | a click left of 15% of the width goes to the previous word, right of 85% (and not left of 15%) to the next word; every other click turns a page, back exactly when it is left of half the width and forward otherwise |
| Nexus.ClickZonesOrdered | components/NexusView.tsx:75-80 | on a view of positive width the zones lie left to right: previous word, turn back, turn forward, next word |
| Nexus.FontClass | components/NexusView.tsx:50-54 | `SERIF` gets the serif classes, `MONO` the mono classes, and any other value the sans classes |
| Nexus.ContextIndex | components/NexusView.tsx:145-156 | context pages 2 to 5 read entry `(page - 2) % 2`, always 0 or 1: `page - 2` on pages 2 and 3, `page - 4` on pages 4 and 5 |
| Nexus.EntryAt | components/NexusView.tsx:145-156 | `nativeContexts[k]?.` is absent exactly past the end of the list |
| Nexus.ContextCardOf | components/NexusView.tsx:145-156 | pages 2 and 3 show the entry's label and description, pages 4 and 5 the fixed PRACTICAL_LOGIC badge and the entry's sentence; the footnote is the entry's significance and is present exactly when the entry exists; without the entry the headline is `"undefined"` and pages 2 and 3 show no badge |
| Nexus.ContextPagesPairUp | components/NexusView.tsx:151-156 | pages 2 and 4, and pages 3 and 5, show the same entry's significance |
| AppModel.GenerationRequestOf | App.tsx:82-88 | Forge mode issues no generation request; Topic and Text mode issue one with the input, the mode and the manual word list |
| AppModel.ImageRequests | App.tsx:90-92 | one image request per word, with the word's index and its `visualPrompt` |
| AppModel.MergeImage | App.tsx:91 | a completion writes its own index only, and only when the picture is truthy; every other entry is kept, and no entry is removed |
| AppModel.ArrivalResult | App.tsx:90-92 | whatever order the completions of a batch arrive in, an index whose request succeeded holds that picture and every other index keeps what it had |
| AppModel.ArrivalsCommute | App.tsx:91 | completions for two different words give the same map in either order |
| AppModel.ArrivalsTouchOnlyImages | App.tsx:90-92 | image completions change the picture map and nothing else: not the stage, the cursor or the session |
| AppModel.SeededImages | App.tsx:104-107 | a JSON import's picture map has an entry exactly for the words that carry an `imageUrl`, holding that URL |
| AppModel.PrevWordKeepsWord | App.tsx:125-130 | the two queued index updaters cancel: going back from word `i > 0` lands on page 6 of word `i` with direction -1, not on word `i - 1` |
| AppModel.InitialCursorOk | App.tsx:67-69 | the initial cursor (0, 0, 0) is on a page |
| AppModel.StepKeepsCursorShape | App.tsx:113-134 | every handler as written, with pages only from `paginate`, keeps the page in 0..6, the direction in -1..1 and the word index non-negative |
| AppModel.RunKeepsCursorShape | App.tsx:113-134 | the same along any run of handlers as written |
| AppModel.StepKeepsCursorOkWithinSession | App.tsx:113-134 | every handler as written, except the two that install a session, keeps the word index on a word of the installed session |
| AppModel.StepIntendedKeepsCursorOk | App.tsx:88-134 | with the intended handlers, every handler, installs included, keeps the cursor on a page of the installed session |
| AppModel.RunIntendedKeepsCursorOk | App.tsx:88-134 | with the intended handlers, along any run the cursor stays on a page of the installed session |
| AppModel.FreshSessionPicturesAreOwn | App.tsx:88-92 | with the intended success path, after a new generated session and any batch of its completions, an index holds a picture exactly when that word's own request succeeded |
| AppModel.Progress | App.tsx:187 | for a word of the session and a page in 0..6 the fraction lies in (0, 1], and it is 1 exactly on page 6 of the last word |
| AppModel.ProgressMonotone | App.tsx:187 | the fraction strictly grows with the position `wordIndex * 7 + page` |
| AppModel.StaleCursorAsWritten | App.tsx:88-93 | as written, after a finished three-word session and "new session", a generated one-word session moves the stage to the word view with word index 2, outside the session; the render at App.tsx:187 then reads `session.words[2].moodColor` and throws |
| AppModel.StaleCursorAfterImportAsWritten | App.tsx:101-111 | as written, after a finished three-word session and "new session", an imported one-word session moves the stage to the word view with word index 2, outside the session; the render at App.tsx:187 then throws |
| AppModel.StalePictureAsWritten | App.tsx:88-93 | as written, a picture of the previous session stays under an index whose new request fails |
| Traversal.AdvanceMovesOnePage | App.tsx:113-123 | a forward click moves one page on, from page 6 to page 0 of the next word; on the last page of the last word it opens the paragraph review and keeps the cursor |
| Traversal.ClickRespectsLock | components/NexusView.tsx:38-39 | a locked navigator ignores a middle click entirely; an edge click has the same effect on the controller whatever the lock |
| Traversal.MiddleClickTurns | components/NexusView.tsx:78-79 | with the lock free, a middle click left of half the width is a back click and any other middle click a forward click |
| Traversal.RetreatMovesOnePage | App.tsx:125-134 | a back click never changes the word index: it moves one page back inside the word; from page 0 of word `i > 0` it shows page 6 of word `i`; on the first page of the first word it opens the paragraph preview and keeps the cursor |
| Traversal.RetreatIntendedMovesOnePage | App.tsx:125-134 | with the intended `handlePrevWord`, a back click moves one page back, from page 0 to page 6 of the previous word; on the first page of the first word it opens the paragraph preview |
| Traversal.RetreatUndoesAdvance | App.tsx:113-134 | with the intended `handlePrevWord`, inside the sequence, back after forward and forward after back return to the same page of the same word |
| Traversal.RetreatMissesPreviousWord | App.tsx:125-134 | as written, forward from page 6 of a word and then back lands on page 6 of the next word instead of returning |
| Traversal.ProgressOf | App.tsx:187 | while a page of a non-empty session is shown, the fraction is in (0, 1] |
| Traversal.AdvanceIncreasesProgress | App.tsx:187 | every forward click that stays in the word view strictly increases the fraction |
| Traversal.AdvanceFromStart | App.tsx:113-123 | `k` forward clicks from the first page of the first word reach position `k`, still in the word view and with the same session |
| Traversal.ForwardTraversalCompletes | App.tsx:187 | forward clicks from the start reach page 6 of the last word with the fraction exactly 1, and the next click opens the paragraph review |
| Controller.App.constructor | App.tsx:61-71 | the initial state: Topic mode, empty input, idle, no session, cursor (0, 0, 0), no pictures, no error |
| Controller.App.SetMode | App.tsx:151-152 | a mode button sets the entry mode |
| Controller.App.SetInput | App.tsx:162-164 | the input field holds what was typed |
| Controller.App.InitiateFlow | App.tsx:79-86 | clears the error; in Forge mode it opens the wizard and issues no generation request; otherwise it shows the loader and issues one; session and pictures are kept |
| Controller.App.Submit | App.tsx:158 | a blank input outside Forge mode changes nothing; otherwise Text mode opens text selection and the other modes start the flow with the input; a generation request with the input, the mode and no manual words is issued exactly for a non-blank Topic submit |
| Controller.App.GenerationSucceeded | App.tsx:88-94 | installs the session, starts the intro without changing the stage, and issues one image request per word; the cursor and the picture map are left as they were |
| Controller.App.GenerationFailed | App.tsx:95-98 | sets the connection error and returns to idle; the earlier session and pictures are kept |
| Controller.App.ImageArrived | App.tsx:91 | stores a truthy picture under its own index only; every other entry, the stage, the cursor and the session are unchanged |
| Controller.App.HandleJsonLoad | App.tsx:101-111 | installs the imported session and starts the intro; the picture map holds exactly the words that carry an `imageUrl`; the cursor is left as it was |
| Controller.App.IntroComplete | App.tsx:142 | the intro's end hides it and opens the paragraph preview |
| Controller.App.TextSelectionBack | App.tsx:179 | back from text selection returns to idle |
| Controller.App.ForgeComplete | App.tsx:181 | the wizard's layers are kept and the custom view opens |
| Controller.App.ForgeBack | App.tsx:181 | back from the wizard returns to idle |
| Controller.App.CustomViewClose | App.tsx:182 | closing the custom view returns to idle |
| Controller.App.PreviewContinue | App.tsx:183 | continuing from the preview opens the word view |
| Controller.App.HandleNextWord | App.tsx:113-123 | without a session nothing changes; before the last word it moves to page 0 of the next word with direction 1 and the same stage; on the last word it opens the paragraph review and keeps the cursor |
| Controller.App.HandlePrevWord | App.tsx:125-134 | after the first word the two queued index updaters cancel, so it shows page 6 of the same word with direction -1 and the same stage; on the first word it opens the paragraph preview and keeps the cursor |
| Controller.App.SetCurrentPage | App.tsx:190 | sets the page and leaves the direction as it was |
| Controller.App.ApplyOutcome | App.tsx:190 | a navigator page change goes to `setCurrentPage`, a forward hand-off to `handleNextWord`, a back hand-off to `handlePrevWord` |
| Controller.App.ReviewContinue | App.tsx:196 | continuing from the review opens the assessment |
| Controller.App.AssessmentComplete | App.tsx:197 | completing the assessment opens the completion screen |
| Controller.App.Replay | App.tsx:198 | replay returns to page 0 of word 0 in the word view and keeps the session and pictures |
| Controller.App.NewSession | App.tsx:198 | "new session" returns to idle with an empty input |
| Controller.ClickWordView | components/NexusView.tsx:38-48 | a click on the word view (zones at components/NexusView.tsx:75-80, wiring at App.tsx:189-190) leaves the controller and the navigator in place in the state `Traversal.Click` gives; a word change or leaving the word view mounts a fresh, unlocked navigator, and otherwise the same navigator stays |

## Findings

| source | as written | input that shows it | evidently intended | confidence | as-written member | corrected member |
|---|---|---|---|---|---|---|
| App.tsx:128-129 | `handlePrevWord` queues `prev => prev + 1` and then `prev => prev - 1`, which cancel out, so the word index does not change and the page becomes 6 | a two-word session on page 6 of word 0: a forward click shows page 0 of word 1, and a back click then shows page 6 of word 1 | back from page 0 of word `i > 0` lands on page 6 of word `i - 1` | high; not executed | Traversal.RetreatMissesPreviousWord | Traversal.RetreatUndoesAdvance |
| App.tsx:88-93 | installing a generated session keeps the previous session's word index and page | finish a three-word session on page 6 of word 2, press "new session", generate a one-word session: the stage becomes the word view with word index 2 of a one-word session, and the render at App.tsx:187 throws on `session.words[2].moodColor` | a new session starts on page 0 of word 0, as replay does | high; not executed | AppModel.StaleCursorAsWritten | AppModel.RunIntendedKeepsCursorOk |
| App.tsx:101-111 | installing an imported session keeps the previous session's word index and page | finish a three-word session on page 6 of word 2, press "new session", open the Forge and import a one-word session: the stage becomes the word view with word index 2, and the render at App.tsx:187 throws | an imported session starts on page 0 of word 0 | high; not executed | AppModel.StaleCursorAfterImportAsWritten | AppModel.RunIntendedKeepsCursorOk |
| App.tsx:88-92 | the generation path never clears `images`, unlike the import path (App.tsx:104) | a previous session had a picture under index 0; the new session's request for word 0 returns nothing: word 0 shows the old picture | a new generated session starts with an empty picture map | medium; not executed | AppModel.StalePictureAsWritten | AppModel.FreshSessionPicturesAreOwn |

## Left out

- Rendering, animation, the SVG progress HUD, the CSS mood-colour effect, the tilt springs and
  the mood-glow arithmetic are view code or floating-point visual effects.
- The generation service, the image service, sound and ambiance are external calls. Their
  results are method parameters, and the requests issued to them are method results.
- Real timers and promise scheduling are left out. The lock release and the "copied" reset are
  explicit methods. Image completions are calls in any order.
- The JSON grammar is left out. `JSON.parse` is the `isJson` parameter of
  `ForgeWizard.SubmitJson`, and `Controller.App.HandleJsonLoad` takes the already parsed
  session. An object without a `words` array would make `handleJsonLoad` throw, and that path
  is not modelled.
- Word fields the core does not read are left out: phonetic, definitions, origin, mood colour,
  synonyms, antonyms and quiz.
- components/CustomForgeView.tsx, the clipboard write and the `alert` are left out. They wrap
  browser facilities and hold no logic of their own.
- The text-selection screen's own behaviour, the paragraph, assessment and completion views, and
  the cinematic intro are not part of this model. Only the callbacks they give back to App.tsx
  are modelled.
- AppModel.Progress: requires at least one word. With an empty word list the source divides by
  zero, and the same render reads `words[0].moodColor`, which throws. It is also computed on
  reals, while the source's IEEE doubles round.
- Nexus.ClickTargetOf: computed on reals, while the source's doubles round. Zone order is only
  stated for a positive width.
- Nexus.PageNavigator: each word index mounts a fresh navigator, because the view is keyed by
  the index. `Traversal.Click` and `Controller.ClickWordView` model this as a fresh, unlocked
  navigator. The pending timer of a navigator that was replaced is not modelled. It has no
  visible effect.
- Content.WordData: `nativeContexts` is always a list. An imported word without a
  `nativeContexts` array makes the context pages throw, because `?.` guards only the entry
  and not the list. That path is not modelled.
- Controller.App.SetCurrentPage: requires a page in 0..6. Its only caller, `paginate`, never
  passes another.
