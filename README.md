# PTIT campus web site and VR tour: a Dafny model of its logic

The system is a university web site: a React front end and an Express back end.
It has these parts:

- a navigation bar with a scroll-spy;
- an intro slider and a partner-logo marquee;
- a chat widget backed by a language-model endpoint;
- an admission form that uploads documents to the server, which stores them and mails them on;
- a keyboard-driven 3D campus viewer;
- a WebXR overlay. Inside a headset, it walks through the same content with ray selection, a back button and joysticks.

This project models the logic of those parts in Dafny and proves what the code promises about it.

- **URL helpers.** The API base URL and the URL helpers: `ApiConfig`, and the VR variants in `VrOverlay`.
- **VR overlay.**
  - The merge of the history timeline with its built-in fallback (`VrHistory`).
  - The overlay's screen state with its back stack, the section stepping and the campus index rules (`VrOverlay`).
  - The stateful VR session that applies them per frame and per ray selection (`VrScene`).
- **Page components.**
  - The slider carousel: the `Slider.Carousel` class, with modular index arithmetic.
  - The partner rows (`Partners`) and the navigation bar (`Navbar.NavState`).
  - The chat widget (`Chatbot.Chat`) and the admission form (`AdmissionForm.Form`).
  - The campus viewer's key map and frame update (`FirstPersonCamera`).
- **Server.** Its two request handlers, `/api/chat` and `/api/admission` (`Server`). They read the multipart body through `Multipart`.
- **Chat end to end.** One widget request through the chat endpoint (`ChatExchange`).
- **Shared helpers.** `Text` holds the string helpers the code relies on: ASCII lower-casing, JavaScript `trim`, the text after the last separator, the last index of a character, and decimal rendering. `Wrappers` holds `Option`.

Components whose state React updates in place are classes whose methods change fields, with `modifies` frames. Each method's `ensures` ties the new state to pure functions that the lemmas speak about. Pure helpers are functions with lemmas. The server handlers are methods that return a response record, with the upload loop written as a `while` loop.

Network, database, language-model, mail and filesystem calls are not modelled; their outcomes are parameters. These are:

- `ReplyOutcome` and `SubmitOutcome` (front end);
- `ModelOutcome`, `insertId`, `failingWrite` and `mailOk` (server);
- `IntroResponse` for the slider's request;
- the layout map for `document.getElementById`;
- the chain of scene nodes for the ray hit.

## Model

| member | source | states |
|---|---|---|
| Text.LowerChar | frontend/src/components/Campus3D/FirstPersonCamera.jsx:13 | the result is never an ASCII capital, and non-capitals are unchanged |
| Text.Lower | frontend/src/components/Campus3D/FirstPersonCamera.jsx:13 | same length, each character lower-cased position by position |
| Text.LowerIdempotent | frontend/src/components/Campus3D/FirstPersonCamera.jsx:13 | lower-casing twice equals lower-casing once |
| Text.TrimStart | frontend/src/components/Chatbot/Chatbot.jsx:23 | the result is a suffix of the input, starts with a non-whitespace character, and everything dropped is whitespace |
| Text.TrimEnd | frontend/src/components/Chatbot/Chatbot.jsx:23 | the result is a prefix of the input, ends with a non-whitespace character, and everything dropped is whitespace |
| Text.TrimEmptyIffAllWhitespace | frontend/src/components/Chatbot/Chatbot.jsx:23 | `trim()` is empty exactly when every character is whitespace (both directions) |
| Text.AfterLast | frontend/src/components/VRWeb/VRWebOverlay.jsx:817 | `split(sep).pop()` is no longer than the input and contains no separator |
| Text.AfterLastIsSuffix | frontend/src/components/VRWeb/VRWebOverlay.jsx:817 | that piece is a suffix of the input, preceded by the separator whenever it is not the whole input |
| Text.AfterLastWhole | frontend/src/components/VRWeb/VRWebOverlay.jsx:817 | without a separator the piece is the whole input |
| Text.LastIndexOf | backend/server.js:156 | none exactly when the character is absent; otherwise an in-range index holding it |
| Text.LastIndexOfIsLast | backend/server.js:156 | the character does not occur after the index found |
| Text.LastIndexOfIs | backend/server.js:156 | an index holding the character with no later occurrence is the one found |
| Text.Decimal | backend/server.js:157 | the rendering of a number is non-empty and all digits |
| Text.DecimalRoundTrip | backend/server.js:157 | reading the digits back gives the number |
| Text.DecimalInjective | backend/server.js:157 | different numbers render differently |
| ApiConfig.TrimTrailingSlashes | frontend/src/config/api.js:8 | the input is the result followed only by slashes, and the result does not end with `/` |
| ApiConfig.TrimLeadingSlashes | frontend/src/config/api.js:12 | the input is slashes followed by the result, and the result does not start with `/` |
| ApiConfig.TrimLeadingNoSlash | frontend/src/config/api.js:12 | a path without a leading slash is kept as it is |
| ApiConfig.TrimLeadingOneSlash | frontend/src/config/api.js:12 | one more leading slash changes nothing |
| ApiConfig.TrimLeadingIdempotent | frontend/src/config/api.js:12 | trimming leading slashes is idempotent |
| ApiConfig.TrimLeadingAfterSlashes | frontend/src/config/api.js:12 | any number of leading slashes is ignored |
| ApiConfig.ApiBaseUrl | frontend/src/config/api.js:5-8 | the base never ends with `/`; with neither variable set it is `http://localhost:5000` |
| ApiConfig.JoinUrl | frontend/src/config/api.js:10-13 | a falsy path gives the base; otherwise base, one `/`, then the path minus its leading slashes |
| ApiConfig.ApiUrlOfEmptyPath | frontend/src/config/api.js:11 | `apiUrl` of a falsy path is the base URL |
| ApiConfig.ApiUrlOfPath | frontend/src/config/api.js:12 | `apiUrl(p)` is base + `/` + p without leading slashes, with exactly one slash at the join |
| ApiConfig.ApiUrlIgnoresLeadingSlashes | frontend/src/config/api.js:10-13 | `apiUrl` gives the same URL whatever the number of leading slashes |
| ApiConfig.PublicUrlShape | frontend/src/config/api.js:15 | `publicUrl(f)` is `apiUrl("public/" + f without leading slashes)`; a falsy `f` gives base + `/public/`, never the bare base |
| VrHistory.KeysOf | frontend/src/components/VRWeb/VRWebOverlay.jsx:52-53 | every record's key is in the key set |
| VrHistory.MissingFrom | frontend/src/components/VRWeb/VRWebOverlay.jsx:54 | a record is kept exactly when it is in the fallback and its key is not present |
| VrHistory.MissingFromIsSubsequence | frontend/src/components/VRWeb/VRWebOverlay.jsx:54 | the filter keeps fallback order |
| VrHistory.MergeShape | frontend/src/components/VRWeb/VRWebOverlay.jsx:50-56 | the input list comes first, unchanged; then exactly the fallback records whose key it lacks, in fallback order |
| VrHistory.MergeOfNonArray | frontend/src/components/VRWeb/VRWebOverlay.jsx:51 | a non-array merges to the fallback list |
| VrHistory.MergeWithOfNonArray | frontend/src/components/VRWeb/VRWebOverlay.jsx:51 | the same for any fallback list |
| VrHistory.MissingFromNothingExisting | frontend/src/components/VRWeb/VRWebOverlay.jsx:54 | with no keys present, nothing is filtered out |
| VrHistory.MissingFromCovered | frontend/src/components/VRWeb/VRWebOverlay.jsx:54 | when every fallback key is present, nothing is added |
| VrHistory.MergeOfFallback | frontend/src/components/VRWeb/VRWebOverlay.jsx:10-20 | merging the fallback list with itself gives it back |
| VrHistory.MergeWithOfItself | frontend/src/components/VRWeb/VRWebOverlay.jsx:50-56 | the same for any fallback list |
| VrHistory.MergeIdempotent | frontend/src/components/VRWeb/VRWebOverlay.jsx:50-56 | merging a merged list again changes nothing |
| VrOverlay.VrApiUrlShape | frontend/src/components/VRWeb/VRWebOverlay.jsx:39-43 | the resolved base loses its trailing slashes; a falsy path gives it, any other path is joined with one slash |
| VrOverlay.VrPublicUrlShape | frontend/src/components/VRWeb/VRWebOverlay.jsx:45-48 | `vrPublicUrl(f)` is the trimmed resolved base + `/` + `public/` + `f` without leading slashes (a falsy `f` as ""), never the bare base |
| VrOverlay.VrApiUrlAgreesWithApiUrl | frontend/src/components/VRWeb/VRWebOverlay.jsx:34-43 | when the resolver falls back to `apiUrl("")`, `vrApiUrl` equals `apiUrl` for every path |
| VrOverlay.Transition | frontend/src/components/VRWeb/VRWebOverlay.jsx:654-661 | an empty target or the current screen changes nothing; otherwise the old screen is pushed and the target shown |
| VrOverlay.GoBack | frontend/src/components/VRWeb/VRWebOverlay.jsx:663-668 | false and no change on an empty stack; otherwise the top is popped and shown, and the result is true |
| VrOverlay.BackUndoesTransition | frontend/src/components/VRWeb/VRWebOverlay.jsx:654-668 | going back undoes one effective transition |
| VrOverlay.TransitionAllPushes | frontend/src/components/VRWeb/VRWebOverlay.jsx:654-661 | transitions only push, one entry per effective move; the old stack stays underneath |
| VrOverlay.GoBackThroughPushed | frontend/src/components/VRWeb/VRWebOverlay.jsx:663-668 | popping as many times as were pushed leaves the old stack and shows the first screen pushed |
| VrOverlay.ForwardThenBackRestores | frontend/src/components/VRWeb/VRWebOverlay.jsx:654-668 | any series of transitions followed by as many backs as it pushed restores screen and stack |
| VrOverlay.AllEffectiveCount | frontend/src/components/VRWeb/VRWebOverlay.jsx:657-658 | when every move names a new screen, each one pushes |
| VrOverlay.SectionIndex | frontend/src/components/VRWeb/VRWebOverlay.jsx:899-900 | `indexOf` finds each section at its place in the order |
| VrOverlay.StepSection | frontend/src/components/VRWeb/VRWebOverlay.jsx:898-903 | the section at `indexOf(active) + dir`, clamped to the list |
| VrOverlay.StepSectionUndo | frontend/src/components/VRWeb/VRWebOverlay.jsx:902 | down then up (and up then down) returns, except at the ends |
| VrOverlay.StepSectionReachesEnd | frontend/src/components/VRWeb/VRWebOverlay.jsx:902 | four steps down reach the last section from anywhere |
| VrOverlay.SafeIndex | frontend/src/components/VRWeb/VRWebOverlay.jsx:1167-1171 | 0 for no campuses; an in-range index is kept; otherwise the result is in range |
| VrOverlay.CardTargets | frontend/src/components/VRWeb/VRWebOverlay.jsx:1172-1175 | both card targets are in range; [0, 1] with two or more campuses, else [0, 0] |
| VrOverlay.CardSelectIndex | frontend/src/components/VRWeb/VRWebOverlay.jsx:817-822 | always within `[0, max(0, count-1)]`; the mesh index, when a number, wins over the key's even out of range; the chosen index is kept when in range, a negative one gives 0 and one at or past `count` gives `max(0, count - 1)`; 0 when neither is a number |
| VrOverlay.NextCampusAsWritten | frontend/src/components/VRWeb/VRWebOverlay.jsx:831 | `Math.min(count - 1, i + 1)`: at most both bounds and equal to one of them |
| VrOverlay.NextCampusAsWrittenLeavesRange | frontend/src/components/VRWeb/VRWebOverlay.jsx:831 | with no campuses, index 0 becomes -1 |
| VrOverlay.NextCampus | frontend/src/components/VRWeb/VRWebOverlay.jsx:830-833 | the next campus stays in range, advances when not at the end, and agrees with the written rule on a non-empty list |
| VrOverlay.PrevCampus | frontend/src/components/VRWeb/VRWebOverlay.jsx:835-838 | `Math.max(0, i - 1)`: never negative, steps back from 1 upward, and stays at 0 from 0 (or below) |
| VrOverlay.NextThenPrev | frontend/src/components/VRWeb/VRWebOverlay.jsx:830-838 | next then previous returns, except at the last campus |
| VrOverlay.CampusMovesStayInRange | frontend/src/components/VRWeb/VRWebOverlay.jsx:830-838 | both moves keep a valid index valid |
| VrOverlay.HoldFiresOnce | frontend/src/components/VRWeb/VRWebOverlay.jsx:877-887 | holding B fires the back action exactly once (none if it was already down) |
| VrOverlay.FiresAtMostEveryOtherFrame | frontend/src/components/VRWeb/VRWebOverlay.jsx:877-887 | the back action never fires on two frames in a row |
| VrScene.FindKeyed | frontend/src/components/VRWeb/VRWebOverlay.jsx:805-808 | the walk up the parents returns the first node with a key, or none when no node has one |
| VrScene.FirstKeyed | frontend/src/components/VRWeb/VRWebOverlay.jsx:805-806 | the value-level first keyed node: keyed, and no keyed node when none |
| VrScene.FindKeyedIsFirst | frontend/src/components/VRWeb/VRWebOverlay.jsx:805-806 | the loop's result equals the first keyed node |
| VrScene.Classify | frontend/src/components/VRWeb/VRWebOverlay.jsx:810-845 | a card selection exactly for keys starting with `campus:card:`; a section only for its own `nav:` key |
| VrScene.NavAction | frontend/src/components/VRWeb/VRWebOverlay.jsx:810-814 | a section is chosen only by its exact `nav:` key |
| VrScene.NavKeysClassify | frontend/src/components/VRWeb/VRWebOverlay.jsx:810-814 | each section's `nav:` key shows that section |
| VrScene.CardKeyRoundTrip | frontend/src/components/VRWeb/VRWebOverlay.jsx:1683 | the key `campus:card:n` built for a card reads back as index n |
| VrScene.AfterLastOfDigits | frontend/src/components/VRWeb/VRWebOverlay.jsx:817 | the last `:`-separated piece of a key ending in `:` + digits is those digits |
| VrScene.ScrollVelocity | frontend/src/components/VRWeb/VRWebOverlay.jsx:909-911 | the right stick past its dead zone wins; else the left stick past its dead zone, unless it just stepped the section; else 0 |
| VrScene.ScrollAfter | frontend/src/components/VRWeb/VRWebOverlay.jsx:913-916 | the offset never goes below zero, does not move at zero velocity, and moves by `vy * 0.65 * delta` otherwise |
| VrScene.Session.constructor | frontend/src/components/VRWeb/VRWebOverlay.jsx:646-652 | the initial screen state, first section, campus 0 |
| VrScene.Session.Open | frontend/src/components/VRWeb/VRWebOverlay.jsx:646-670 | opening resets screen, back stack, section and campus; the remounted scene restarts its reset token, back-button memory, last step time and scroll offset at zero |
| VrScene.Session.TransitionState | frontend/src/components/VRWeb/VRWebOverlay.jsx:654-661 | the screens become `Transition` of the old ones |
| VrScene.Session.GoBackState | frontend/src/components/VRWeb/VRWebOverlay.jsx:663-668 | screens and result are `GoBack` of the old screens |
| VrScene.Session.BackButtonFrame | frontend/src/components/VRWeb/VRWebOverlay.jsx:877-887 | on a rising edge: reset token bumped in the tour, go back, exit requested exactly when there was nothing to go back to; otherwise nothing but the edge memory changes |
| VrScene.Session.JoystickFrame | frontend/src/components/VRWeb/VRWebOverlay.jsx:890-917 | only on the scroll screen; a step fires exactly when the left stick passes 0.35 and 250 ms have passed, then the section steps and the scroll restarts; otherwise the scroll moves by the scroll rule |
| VrScene.Session.Frame | frontend/src/components/VRWeb/VRWebOverlay.jsx:858-917 | the back button as in `BackButtonFrame` (go back or request exit on a rising edge, token bumped in the tour) and the joysticks as in `JoystickFrame` (section step and step time), both read against the screen the frame started on; the scroll offset is 0 when the screen or the section changed, and otherwise follows the joystick scroll rule; the campus never changes |
| VrScene.Session.RaySelect | frontend/src/components/VRWeb/VRWebOverlay.jsx:803-846 | per key class: section shown; card selects the clamped index, shows the campus section, enters the tour and bumps the token; next/previous move the index; enter goes to the tour only with a selected campus; anything else changes nothing; the scroll offset is 0 after a change of screen or section, and unchanged otherwise |
| VrScene.Session.ScreenOrSectionCommitted | frontend/src/components/VRWeb/VRWebOverlay.jsx:943-945 | after a commit that changed the screen or the section the scroll offset is 0; otherwise it is unchanged |
| Partners.MidPoint | frontend/src/components/Partners/Partners.jsx:45 | `ceil(n / 2)` |
| Partners.Rows | frontend/src/components/Partners/Partners.jsx:42-47 | nothing for no partners; otherwise the rows concatenate to the list and the first has `ceil(n/2)` |
| Partners.Track | frontend/src/components/Partners/Partners.jsx:61-64 | a track is its row twice over |
| Partners.TracksShowEveryPartnerTwice | frontend/src/components/Partners/Partners.jsx:60-74 | the two tracks hold, as a multiset, every partner exactly twice |
| Slider.StepIndex | frontend/src/components/Slider/Slider.jsx:46-49 | the stepped index stays below the slide count |
| Slider.StepIndexCases | frontend/src/components/Slider/Slider.jsx:46-49 | next wraps from the last slide to 0, previous from 0 to the last |
| Slider.StepThenBack | frontend/src/components/Slider/Slider.jsx:46-49 | a step and the opposite step cancel |
| Slider.StepsForward | frontend/src/components/Slider/Slider.jsx:47 | k forward steps stay in range |
| Slider.StepsForwardIsModular | frontend/src/components/Slider/Slider.jsx:47 | k forward steps from i reach `(i + k) % n` |
| Slider.StepFromRemainder | frontend/src/components/Slider/Slider.jsx:47 | one step from `x % n` is `(x + 1) % n` |
| Slider.FullCycle | frontend/src/components/Slider/Slider.jsx:47 | n forward steps return to the start |
| Slider.SlidesAfterFetch | frontend/src/components/Slider/Slider.jsx:18-35 | a failed request or a `null` body (reading its `length` throws) leaves no slides; a non-empty array is used; an empty array or an object body gives the one default slide |
| Slider.SwipeDirection | frontend/src/components/Slider/Slider.jsx:83-90 | next exactly when dragged left more than 50, previous exactly when dragged right more than 50 |
| Slider.Carousel.constructor | frontend/src/components/Slider/Slider.jsx:7-15 | no slides, index 0, not animating, direction next, loading, touch points 0 |
| Slider.Carousel.FetchSettled | frontend/src/components/Slider/Slider.jsx:24-35 | the slides become those of the response and loading ends |
| Slider.Carousel.ChangeSlide | frontend/src/components/Slider/Slider.jsx:39-53 | ignored while animating or with fewer than two slides; otherwise direction set, animating, update scheduled |
| Slider.Carousel.IncomingIndex | frontend/src/components/Slider/Slider.jsx:103-108 | the incoming slide index is in range: `(index + 1) % n` for next, `(index - 1 + n) % n` for previous |
| Slider.Carousel.CompleteSlide | frontend/src/components/Slider/Slider.jsx:45-52 | the scheduled update moves the index one step in its direction, onto the slide the animation showed as incoming, and ends the animation |
| Slider.Carousel.AutoPlayTick | frontend/src/components/Slider/Slider.jsx:58-69 | with two or more slides and no animation the tick starts a move to the next slide; otherwise nothing |
| Slider.Carousel.TouchStart | frontend/src/components/Slider/Slider.jsx:72-74 | records the start point |
| Slider.Carousel.TouchMove | frontend/src/components/Slider/Slider.jsx:76-78 | records the end point |
| Slider.Carousel.TouchEnd | frontend/src/components/Slider/Slider.jsx:80-95 | with a zero coordinate nothing happens; otherwise the swipe changes the slide and both points reset |
| Slider.ChangeThenComplete | frontend/src/components/Slider/Slider.jsx:39-53 | a change and its deferred update step the index once in that direction |
| Navbar.SpyPickNoHit | frontend/src/components/Navbar/Navbar.jsx:45-53 | with no section under the probe the active section is kept |
| Navbar.SpyPickLastHit | frontend/src/components/Navbar/Navbar.jsx:45-53 | the spy picks the last section in menu order whose box contains the probe |
| Navbar.SpyPickIsHitOrCurrent | frontend/src/components/Navbar/Navbar.jsx:45-53 | the pick is the current section or a menu section containing the probe |
| Navbar.NavState.constructor | frontend/src/components/Navbar/Navbar.jsx:15-16 | starts on "home", not scrolled |
| Navbar.NavState.HandleScroll | frontend/src/components/Navbar/Navbar.jsx:33-54 | scrolled exactly past 50; the active section becomes the spy's pick at `scrollY + 100` |
| Navbar.NavState.ScrollToSection | frontend/src/components/Navbar/Navbar.jsx:19-30 | an existing section is scrolled to 80 above its top and becomes active; a missing one changes nothing |
| Navbar.ScrollThenSpyAgrees | frontend/src/components/Navbar/Navbar.jsx:19-54 | after a click scroll that lands exactly at `offsetTop - 80`, the spy keeps the clicked section when its box is taller than 20 and no later section also contains the probe; the browser's clamping of the target to the page is not modelled |
| Chatbot.SpaceSeparatorIsBlank | frontend/src/components/Chatbot/Chatbot.jsx:23 | an input of one Unicode space separator (U+1680, U+2000 to U+200A, U+202F, U+205F) is blank and sends nothing |
| Chatbot.BotText | frontend/src/components/Chatbot/Chatbot.jsx:42-48 | never empty; the reply when non-empty, "Lỗi kết nối." without a usable reply, "Server không phản hồi." on an exception |
| Chatbot.AlternatingSnoc | frontend/src/components/Chatbot/Chatbot.jsx:27 | appending the role whose turn it is keeps greeting-then-alternating |
| Chatbot.Chat.constructor | frontend/src/components/Chatbot/Chatbot.jsx:8-12 | the greeting only, empty input, not loading |
| Chatbot.Chat.SetInput | frontend/src/components/Chatbot/Chatbot.jsx:92 | the input becomes the typed text |
| Chatbot.Chat.BeginSend | frontend/src/components/Chatbot/Chatbot.jsx:22-29 | blank input: nothing happens; otherwise the untrimmed input is appended as the user's message, the box cleared, loading started, and that text sent |
| Chatbot.Chat.CompleteSend | frontend/src/components/Chatbot/Chatbot.jsx:41-51 | exactly one bot message with the outcome's text; loading ends whatever the outcome |
| Chatbot.Chat.HandleSend | frontend/src/components/Chatbot/Chatbot.jsx:22-52 | nothing, or exactly the user's message followed by the bot's text; transcript shape kept |
| Chatbot.Chat.HandleKeyDown | frontend/src/components/Chatbot/Chatbot.jsx:54-56 | Enter sends; any other key changes nothing |
| Multipart.Fields | backend/server.js:126 | a name has a body field exactly when some text part carries it |
| Multipart.Files | backend/server.js:127 | no more files than parts |
| Multipart.FieldsFirstOccurrence | backend/server.js:126 | a field's value is its first text part's value |
| Multipart.FilesAfterFields | backend/server.js:127 | text parts followed by file parts of one field read back as exactly those files, in order |
| AdmissionForm.BuildBody | frontend/src/components/Admission/AdmissionForm.jsx:71-81 | the body is the six fields in order, then one `files` part per selected file, in order |
| AdmissionForm.BodyReadBack | frontend/src/components/Admission/AdmissionForm.jsx:71-81 | the server reads back exactly the six field names with the form's values, and exactly the selected files |
| AdmissionForm.Form.constructor | frontend/src/components/Admission/AdmissionForm.jsx:38-47 | all fields empty except gender "Nam", no files, not submitting |
| AdmissionForm.Form.HandleChange | frontend/src/components/Admission/AdmissionForm.jsx:50-52 | the named field takes the value; every other field is unchanged |
| AdmissionForm.Form.HandleFileChange | frontend/src/components/Admission/AdmissionForm.jsx:55-57 | the selection becomes the chosen files |
| AdmissionForm.Form.BeginSubmit | frontend/src/components/Admission/AdmissionForm.jsx:60-82 | a major outside the list alerts and sends nothing; otherwise the request body is built and submitting starts |
| AdmissionForm.Form.CompleteSubmit | frontend/src/components/Admission/AdmissionForm.jsx:83-103 | an ok response resets the form and files; a failed one or a network error keeps them; each has its own alert; submitting always ends |
| Server.HandleChat | backend/server.js:50-76 | a falsy message gives 400 "Tin nhắn trống" without calling the model; a model failure gives 500 with the busy reply; otherwise 200 with the model's text |
| Server.Extname | backend/server.js:156 | `path.extname` is empty or starts with `.`, and has no `/` |
| Server.ExtnameOfPlainName | backend/server.js:156 | a plain name's extension is the text from its last dot, empty without one or with the dot first |
| Server.ExtnameOfDotted | backend/server.js:156 | `stem.ext` has extension `.ext` |
| Server.StoredExtension | backend/server.js:156 | the stored extension is never empty and starts with `.` |
| Server.StoredAsJpegWithoutExtension | backend/server.js:156 | a name without an extension, or a dot-file, is stored as `.jpg` |
| Server.StoredName | backend/server.js:157 | the stored name starts with a digit |
| Server.DigitsBeforeDot | backend/server.js:157 | digits followed by an extension split in one way only |
| Server.StoredNamesDistinct | backend/server.js:155-157 | two uploads of one request never get the same file name |
| Server.StoredPathsDistinct | backend/server.js:146-158 | two uploads never get the same path, and none overwrites `info.json` |
| Server.JoinInjective | backend/server.js:158 | joining with a folder is one-to-one |
| Server.InfoData | backend/server.js:150 | the body's fields as strings plus `id` and `submitted_at`, which override fields of those names |
| Server.UploadsWritten | backend/server.js:154-167 | the number of uploads written before the failing write |
| Server.UploadPathsAt | backend/server.js:155-158 | the i-th planned path is the i-th upload's path |
| Server.UploadsStoredSnoc | backend/server.js:160-165 | writing the next upload and recording its attachment extends the stored prefix |
| Server.StoreUploads | backend/server.js:154-167 | the uploads before the failing write are stored, in order, at their numbered paths with their original names as attachments; failure exactly when a write fails |
| Server.HandleAdmission | backend/server.js:123-210 | a database error gives 500 with nothing written; otherwise 200 with the id, `info.json` then the uploads written; the mail is sent exactly when every write and the mail succeed, and the message says which |
| FirstPersonCamera.SetKey | frontend/src/components/Campus3D/FirstPersonCamera.jsx:12-19 | the lower-cased key is set if tracked; no key is added and no other key changes |
| FirstPersonCamera.Axis | frontend/src/components/Campus3D/FirstPersonCamera.jsx:33-42 | each component (`s - w` front, `a - d` side) is in [-1, 1]: 1 exactly when only its first key is down, -1 exactly when only its second is |
| FirstPersonCamera.Direction | frontend/src/components/Campus3D/FirstPersonCamera.jsx:44-45 | the direction is zero exactly when opposite keys agree |
| FirstPersonCamera.DownThenUpRestores | frontend/src/components/Campus3D/FirstPersonCamera.jsx:12-19 | pressing and releasing a key that was up restores the map |
| FirstPersonCamera.CaseDoesNotMatter | frontend/src/components/Campus3D/FirstPersonCamera.jsx:13 | "W" acts as "w" |
| FirstPersonCamera.UntrackedKeyIgnored | frontend/src/components/Campus3D/FirstPersonCamera.jsx:14 | an untracked key leaves the map unchanged |
| FirstPersonCamera.Controls.constructor | frontend/src/components/Campus3D/FirstPersonCamera.jsx:9 | all four keys up |
| FirstPersonCamera.Controls.KeyDown | frontend/src/components/Campus3D/FirstPersonCamera.jsx:12-15 | the map becomes `SetKey(old, key, true)` |
| FirstPersonCamera.Controls.KeyUp | frontend/src/components/Campus3D/FirstPersonCamera.jsx:16-19 | the map becomes `SetKey(old, key, false)` |
| FirstPersonCamera.Controls.Frame | frontend/src/components/Campus3D/FirstPersonCamera.jsx:29-53 | inactive, nothing moves; active, the player (else the camera) moves by the step, or stays for a zero direction; its height becomes 2 |
| ChatExchange.ExchangeOutcome | backend/server.js:50-76 | a message the widget sends is never rejected as empty; the widget shows the model's answer, the no-reply text for an empty answer, and the server's busy reply when the model fails |

## Left out

- VR locomotion, raycasting, mesh layout, textures and all floating-point 3D geometry. The ray hit comes in as the chain of scene nodes from the hit object to the root.
- `resolveVrApiBase` reads `window.location` and parses URLs. Its result is a parameter of `VrOverlay.VrApiUrl`.
- Gamepad discovery and the axis-fallback logic: the stick values and the B button state are parameters of a frame.
- The model-rotate trigger, the selectable registry and every presentational component. None holds logic beyond rendering.
- `fetch`, the MySQL query, the Gemini call, nodemailer and the `fs` calls. Their outcomes are parameters:
  - `ReplyOutcome`, `SubmitOutcome` and `IntroResponse` on the front end;
  - `ModelOutcome`, `insertId`, `failingWrite` and `mailOk` on the server.
- Timers (`setTimeout`, `setInterval`, `performance.now`). The deferred slide update is a separate method, and the time is a parameter.
- Text.Lower: lower-cases ASCII letters only; JavaScript's `toLowerCase` also maps non-ASCII capitals.
- VrScene.ParseIndex: reads runs of decimal digits only, with the empty string read as 0. `Number()` also accepts signs, hexadecimal, exponents and surrounding spaces; the scene never writes those into its keys.
- VrHistory.KeyOf: history records are always present objects; the `item?.` null cases are not modelled.
- FirstPersonCamera.Controls.Frame: normalising, scaling by 0.15 and rotating by the camera's orientation are left to the library. The resulting step is a parameter.
- FirstPersonCamera.SetKey: keys inherited from `Object.prototype` (such as `constructor`) pass the source's `!== undefined` test; the model ignores them.
- Server.InfoData: the key order and the pretty-printing of `info.json` are not modelled.
- Server.Extname: follows the POSIX rule; Windows separators are not modelled.
- Multipart.Fields: models multer's repeated field names as first-wins, which is not multer's array behaviour. Multer's rejection of unexpected file fields is not modelled.
- The content of the notification mail (subject and HTML) and all console logging are not modelled.
- The picker screen (`CampusPicker`) exists in the screen type but no code path enters it.
- Chatbot.Chat.BeginSend and AdmissionForm.Form.BeginSubmit require that no request is in flight. The input box and the buttons are disabled while one is (Chatbot.jsx:94-96, AdmissionForm.jsx:209).
- VrScene.Session.RaySelect: uses the corrected `campus:next` rule from the finding below, not the rule as written.
- VrScene.Session.ScreenOrSectionCommitted: the hint text that the same effect sets is display only and not modelled. `RaySelect` and `Frame` take the commit and its effect to complete before the next frame or selection.
- Slider.SlidesAfterFetch: a JSON string body is not modelled (a non-empty one would become the slides); `/api/intro` only answers with an array or a 500 (backend/server.js:80-85).
- Navbar.ScrollThenSpyAgrees: assumes the window lands exactly at `offsetTop - 80`; the browser clamps the target to `[0, max scroll]`.

## Findings

| source | as written | input that shows it | evidently intended | confidence | as-written member | corrected member |
|---|---|---|---|---|---|---|
| frontend/src/components/VRWeb/VRWebOverlay.jsx:831 | `campus:next` sets the index to `Math.min(campuses.length - 1, i + 1)` | no campuses loaded, index 0: the index becomes -1 | the index stays within `[0, max(0, count - 1)]`, as `safeIndex` and the card clamp keep it | low (the button shows only on the picker screen, which no code path enters), not executed | VrOverlay.NextCampusAsWrittenLeavesRange | VrOverlay.NextCampus |
