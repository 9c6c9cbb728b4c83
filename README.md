# California trip page — a verified model

script.js drives a small single-page site for a group trip of 17 people. The
page moves through these screens:

1. A start screen with four acknowledgement boxes. Its continue button is
   enabled only while every box is checked.
2. A response screen with one card per participant. A participant logs in by
   typing the first five letters of their name. After that only their own
   card's "Interested" / "Not Interested" buttons are enabled.
3. An emergency screen. It lists everyone's answer and holds the roadmap gate.

The page means to let the roadmap ("day-1") open only when all 17
participants have answered "Interested". A data-goto link to "day-1" checks
this at click time (script.js:241-245). The emergency continue button does
not always: it can open the roadmap while someone still blocks (see
Findings). The page keeps two values in `localStorage`:

- `trip_responses`: a map from each code to its status and time stamp.
- `currentUserCode`: the code of the logged-in participant.

The project models this core:

- `roster.dfy` (`Roster`): the roster `PEOPLE` and `PEOPLE.find`.
- `code_input.dfy` (`CodeInput`): the normalisation of the typed code, which is
  `trim` followed by `toUpperCase`, and the roster lookup of the result.
- `responses.dfy` (`Responses`): the stored response map, how a status is read
  (a missing entry reads as "Pending"), and `saveResponse`'s write.
- `gate.dfy` (`Gate`): `notReady`, the roster filtered to the participants who
  are not "Interested", and the gate itself, which is open when that list is
  empty.
- `machine.dfy` (`TripMachine`): the page as a state machine. `Init` is the
  state after DOMContentLoaded, and `Next` says what each user action does.
  The invariant `Inv` and the lemmas describe whole runs of the page, open
  in one tab that is the only writer of the two stored keys.
- `page.dfy` (`TripPage`): the `Page` class, with the same state as fields that
  the handlers update in place. The cards' disabled flags and the boxes are
  arrays, and lock and unlock are loops over the cards. Every handler is proved
  to move the page exactly as `TripMachine.Next` says.
- `stale_gate.dfy` (`StaleGate`): the emergency continue button as it is
  actually wired (see Findings below).

## Model

| member | source | states |
|---|---|---|
| Roster.CodesAreFiveUpperLetters | script.js:5-24 | the roster has 17 entries, and every code is five upper-case letters |
| Roster.CodesDistinct | script.js:6-24 | no two participants share a code |
| Roster.Codes | script.js:97 | the card codes, one per participant in roster order: card i carries participant i's code |
| Roster.Find | script.js:51 | `PEOPLE.find`: None exactly when no entry has the code; otherwise the first entry with that code |
| Roster.FindInRoster | script.js:165 | the roster lookup succeeds exactly for roster codes, and returns an entry with that code |
| Roster.FindAt | script.js:165 | looking up the k-th code yields the k-th participant |
| CodeInput.Trim | script.js:164 | no contract of its own; TrimIsSlice and TrimPadded state what it returns |
| CodeInput.TrimIsSlice | script.js:164 | `trim` returns a slice of the input with only white space cut on either side, and the slice neither starts nor ends with white space |
| CodeInput.UpperOf | script.js:164 | every character upper-cases to at least one character; UpperOfCases, UpperOfIsFixed and UpperOfKeepsKept state the rest |
| CodeInput.ToUpper | script.js:164 | no contract of its own; ToUpperAppend, ToUpperOfCaseVariant, ToUpperIdempotent and ToUpperKeepsEnds state it |
| CodeInput.Normalize | script.js:164 | no contract of its own; NormalizePaddedVariant, NormalizeIdempotent and Lookup state it |
| CodeInput.TrimStart | script.js:164 | what is left is a suffix of the input; everything removed is white space; the result starts with a non-white-space character |
| CodeInput.TrimEnd | script.js:164 | the mirror image of TrimStart: a prefix, the removed tail is white space, and the result ends with a non-white-space character |
| CodeInput.Lookup | script.js:164-165 | a participant is matched exactly when the trimmed, upper-cased input is a roster code; the match is a roster entry carrying that code |
| CodeInput.ToUpperAppend | script.js:164 | upper-casing distributes over concatenation |
| CodeInput.ToUpperOfCaseVariant | script.js:164 | upper-casing any mix of cases of an upper-case word gives the word |
| CodeInput.TrimPadded | script.js:164 | trim removes exactly the white space around a body that starts and ends with a non-white-space character |
| CodeInput.TrimStartPadded | script.js:164 | trimming the start removes exactly the leading white-space padding |
| CodeInput.TrimEndPadded | script.js:164 | trimming the end removes exactly the trailing white-space padding |
| CodeInput.NormalizePaddedVariant | script.js:164 | a padded, mixed-case spelling of an upper-case word normalises to that word |
| CodeInput.LookupPaddedVariant | script.js:164-165 | every roster code is accepted in any mix of cases and with any white-space padding, and selects its own participant |
| CodeInput.LowerCaseInputMatches | script.js:164-165 | "nikhi" selects NIKHI |
| CodeInput.UpperCaseInputMatches | script.js:164-165 | "NIKHI" selects NIKHI |
| CodeInput.PaddedInputMatches | script.js:164-165 | " NIKHI " selects NIKHI |
| CodeInput.UpperLettersFixed | script.js:164 | upper-casing leaves upper-case ASCII letters alone |
| CodeInput.UpperOfCases | script.js:164 | each character either stays as it is or becomes upper-case ASCII letters |
| CodeInput.UpperOfIsFixed | script.js:164 | the upper-case form of a character is unchanged by a second upper-casing |
| CodeInput.ToUpperIdempotent | script.js:164 | upper-casing twice is the same as upper-casing once |
| CodeInput.ToUpperKeepsEnds | script.js:164 | upper-casing a trimmed string never puts white space at either end |
| CodeInput.UpperOfKeepsKept | script.js:164 | the upper-case form of a non-white-space character contains no white space |
| CodeInput.NormalizeIdempotent | script.js:164 | normalising an already normalised code changes nothing |
| Responses.StatusOf | script.js:93 | a participant with no stored record reads as "Pending" |
| Responses.ButtonStatus | script.js:122-123 | a card button never writes "Pending" |
| Responses.Save | script.js:183 | no contract of its own; SaveReadBack and SaveKeepsRosterKeys state it |
| Responses.SaveReadBack | script.js:181-184 | after a save, the code reads back the saved status and time stamp; the key set grows by that code only; every other record is unchanged |
| Responses.SaveKeepsRosterKeys | script.js:122-123 | saving under a roster code keeps every stored key a roster code |
| Gate.NotReady | script.js:214 | no contract of its own; it is Blockers over the roster, and Blockers, BlockersInOrder and GateOpen state it |
| Gate.Blocks | script.js:214 | no contract of its own; it is the filter predicate of script.js:214 and 244, a participant whose status, missing read as "Pending", is not "Interested"; Blockers and GateOpen state it |
| Gate.Blockers | script.js:214 | the filter keeps exactly the listed participants who are not "Interested", and never more entries than the list has |
| Gate.GateOpen | script.js:229 | the gate is open exactly when every one of the 17 participants is "Interested" |
| Gate.BlockersInOrder | script.js:214 | the filter keeps roster order: of two blockers, the earlier one comes earlier in the roster |
| Gate.BlockerPosition | script.js:214 | every blocker is an entry of the filtered list |
| Gate.BlockersAppend | script.js:214 | filtering a concatenation gives the filtered parts, concatenated in the same order |
| Gate.BlockersFollowStatus | script.js:214 | the blockers depend only on the listed participants' statuses |
| Gate.AllBlockingKept | script.js:214 | when every listed participant blocks, the filter keeps the whole list |
| Gate.SingleHoldout | script.js:214 | when exactly one listed participant blocks, that participant is the only blocker |
| Gate.NoneBlocking | script.js:214 | when nobody listed blocks, there are no blockers |
| Gate.NothingStoredBlocksEveryone | script.js:214 | with nothing stored, all 17 participants block, in roster order, and the gate is closed |
| Gate.OneHoldoutBlocks | script.js:214 | one holdout among 16 "Interested" participants is the only blocker, and the gate is closed |
| Gate.OnlyFirstInterested | script.js:214 | when only the first participant is "Interested", the other 16 block, in roster order |
| Gate.AllButFirstKept | script.js:214 | when all but the first listed participant block, the blockers are the rest of the list |
| TripMachine.StartButtonAfter | script.js:64-68 | no contract of its own; the `update` rule behind the wiring guard, stated by StartButtonRule |
| TripMachine.StartButtonRule | script.js:64-68 | once the start screen is wired, the continue button is disabled exactly when some box is unchecked; an unwired button keeps its markup state |
| TripMachine.EveryChecked | script.js:67 | true exactly when every box is checked |
| TripMachine.LocksFor | script.js:136-138 | card i is enabled exactly when the current user's code is participant i's code |
| TripMachine.NoUserLocksAll | script.js:149-153 | every card disabled is the lock state with no user logged in |
| TripMachine.UserLocksOthers | script.js:154-159 | disabling exactly the cards whose code differs from `code` is the lock state of user `code` |
| TripMachine.InitialScreen | script.js:49-57 | a saved code that is on the roster opens the emergency screen; anything else opens the start screen |
| TripMachine.Route | script.js:241-247 | every target other than "day-1" is shown; "day-1" is shown when the gate is open; a refused entry keeps the current screen |
| TripMachine.Init | script.js:34-39 | no contract of its own; InitEstablishesInv, FreshPageRefusesRoadmap and ReturningUserSkipsStart state it |
| TripMachine.Next | script.js:77-247 | no contract of its own; each handler's case is stated by ValidateUnknownCode, ValidateKnownCode, ResetClearsSession, AnswerOnlyByCurrentUser, AnswerStoresOwnStatus, StartContinueNeedsEveryBox, RoadmapEntryNeedsGate and RefusedEntryChangesNothing, and StepKeepsInv covers every case; EmergencyContinue follows the corrected click-time rule (see Findings) |
| TripMachine.InitEstablishesInv | script.js:34-39 | the page starts in a state that satisfies the invariant: the card locks follow the saved user, and a wired start button follows its boxes |
| TripMachine.StepKeepsInv | script.js:149-159 | every user action keeps the invariant |
| TripMachine.RunKeepsInv | script.js:135-159 | every sequence of actions keeps the invariant |
| TripMachine.CardEnabledIffCurrentUser | script.js:154-159 | a card's buttons are enabled exactly when its code is the logged-in user's |
| TripMachine.ValidateUnknownCode | script.js:167-172 | an unknown code logs the user out and disables every card; the responses and the screen are unchanged |
| TripMachine.ValidateKnownCode | script.js:175-178 | a known code logs in the participant with that code and enables only their card; nothing else changes |
| TripMachine.SameLookupSameState | script.js:161-179 | two inputs that select the same participant, or none, lead to the same state |
| TripMachine.ValidateIdempotent | script.js:161-179 | validating the same input twice is the same as validating it once |
| TripMachine.RevalidateCurrentUser | script.js:161-179 | validating the current user's own code changes nothing |
| TripMachine.LowerCaseValidatesLikeUpperCase | script.js:164 | "nikhi" and "NIKHI" lead to the same state, logged in as NIKHI |
| TripMachine.ResetClearsSession | script.js:189-195 | reset logs the user out and disables every card; the responses and the screen are unchanged |
| TripMachine.AnswerOnlyByCurrentUser | script.js:122-123 | a response changes only through the logged-in user's own card |
| TripMachine.AnswerStoresOwnStatus | script.js:181-184 | the user's answer reads back as the chosen status, and no other participant's status changes |
| TripMachine.StepKeepsRosterKeys | script.js:181-184 | no action stores a code that is not on the roster |
| TripMachine.RunKeepsRosterKeys | script.js:181-184 | no sequence of actions stores a code that is not on the roster |
| TripMachine.OnlySessionEventsChangeUser | script.js:161-195 | only the validate and reset handlers change the current user; every other action leaves it as it was |
| TripMachine.SessionEventsSetRosterUser | script.js:167-178 | after a validation or a reset the current user is a roster code or absent, whatever was stored before: an unrecognised code clears the session instead of being stored |
| TripMachine.StepKeepsUserOnRoster | script.js:161-195 | if the current user is a roster code or absent, it stays so after any action |
| TripMachine.RunKeepsUserOnRoster | script.js:161-195 | if the current user is a roster code or absent, it stays so after any sequence of actions |
| TripMachine.ReanswerKeepsBlockers | script.js:181-184 | giving the same answer again leaves the gate's blockers unchanged |
| TripMachine.RoadmapEntryNeedsGate | script.js:241-247 | any step that enters "day-1" from another screen happens only when every participant is "Interested", and it stores nothing |
| TripMachine.RefusedEntryChangesNothing | script.js:245 | with the gate closed, a link to "day-1" or the continue button leaves the page exactly as it was |
| TripMachine.StartContinueNeedsEveryBox | script.js:64-80 | the start screen leads on only when at least four boxes exist and all are checked |
| TripMachine.FreshPageRefusesRoadmap | script.js:49-57 | a fresh page opens on the start screen with all 17 blocking, and refuses "day-1" |
| TripMachine.ReturningUserSkipsStart | script.js:49-57 | a reload with NIKHI saved opens on the emergency screen with NIKHI's lock state: only the first card enabled |
| TripMachine.ValidateFirstCode | script.js:175-178 | typing "NIKHI" logs NIKHI in with only their card enabled |
| TripMachine.AnswerFirstCard | script.js:122-123 | with NIKHI logged in, the first card stores NIKHI's answer |
| TripMachine.FirstAnswerLeavesSixteenBlockers | script.js:214 | after NIKHI's "Interested" on a fresh page, the other 16 still block, in roster order, and the gate stays closed |
| TripMachine.RosterCodes | script.js:6-24 | the set holds exactly the roster codes |
| TripMachine.AllInterested | script.js:183 | a stored map with every participant "Interested" and only roster keys |
| TripMachine.EveryoneInterestedOpensRoadmap | script.js:241-247 | with everyone "Interested", no one blocks, and both the continue button and a "day-1" link open the roadmap |
| TripPage.Page.constructor | script.js:34-39 | loading the page yields the state `Init` describes, which satisfies the invariant |
| TripPage.Page.Show | script.js:42-47 | the given screen becomes the active one |
| TripPage.Page.DecideInitialScreen | script.js:49-57 | the active screen becomes the one InitialScreen picks for the saved user |
| TripPage.Page.SetupStartScreen | script.js:60-75 | the start button is wired exactly when at least four boxes exist; once wired, it is enabled exactly when every box is checked |
| TripPage.Page.UpdateStartButton | script.js:66-68 | the button is disabled exactly when some box is unchecked |
| TripPage.Page.BuildPeopleGrid | script.js:135-138 | after building the grid, the card locks are those of the saved user |
| TripPage.Page.LockAllCards | script.js:149-153 | every card's disabled flag becomes `lock`; when locking, this is the no-user lock state |
| TripPage.Page.UnlockCard | script.js:154-159 | exactly the cards whose code differs from `code` are disabled |
| TripPage.Page.OnValidateCode | script.js:161-179 | the page moves as Next says for the typed input, and the returned match is the roster lookup of the normalised input |
| TripPage.Page.SaveResponse | script.js:181-184 | the stored map gets the new record under the code; last write wins |
| TripPage.Page.ClickAnswer | script.js:122-123 | a click on an enabled card stores its answer; a click on a disabled card does nothing |
| TripPage.Page.ResetCurrentUser | script.js:189-195 | the page moves as Next says for Reset |
| TripPage.Page.ToggleAck | script.js:72-75 | a box change updates that box, and the wired start button follows every box |
| TripPage.Page.ClickStartContinue | script.js:77-80 | the page moves as Next says for the start screen's continue button |
| TripPage.Page.ClickResponseNext | script.js:145 | the response screen's next button opens the emergency screen |
| TripPage.Page.ClickEmergencyBack | script.js:227 | the emergency screen's back button opens the response screen |
| TripPage.Page.ClickEmergencyContinue | script.js:228-231 | corrected rule: continue opens "day-1" only when the gate is open on the responses at click time; the button as written is StaleGate.ContinueAsWritten |
| TripPage.Page.FollowLink | script.js:235-249 | a data-goto link moves the page as Route says |
| StaleGate.ContinueAsWritten | script.js:228-231 | with every registered listener run, the roadmap ends up shown exactly when it already was or some listener remembered an empty list |
| StaleGate.RendersEmergency | script.js:145 | no contract of its own; the handlers that call `show("screen-emergency")` and so run `renderEmergency` are the response screen's next button (script.js:145) and a data-goto link to that screen (script.js:247); ReturnRegistersOneHandler uses it |
| StaleGate.HandlersRegistered | script.js:227-231 | no contract of its own; HandlersPerRender, HandlerRemembersItsRender and EveryRenderHasListener state it for every event sequence, and ReturnRegistersOneHandler on the back, answer, next sequence |
| StaleGate.RenderCount | script.js:227-231 | no contract of its own; the number of events that show the emergency screen, used by HandlersPerRender |
| StaleGate.HandlersPerRender | script.js:227-231 | every render of the emergency screen adds exactly one continue listener, and no other event adds one |
| StaleGate.HandlerRemembersItsRender | script.js:214-231 | listener k was added by the k-th render, and remembers the `notReady` of the state in which that render's event was handled |
| StaleGate.EveryRenderHasListener | script.js:214-231 | conversely, every render adds a listener, at the position given by the renders before it, remembering the `notReady` of its own state |
| StaleGate.OneOpenRenderOpensRoadmap | script.js:227-231 | after any run containing one render with nobody blocking, a click on the continue button as written shows "day-1", whatever the responses are now |
| StaleGate.ReturnRegistersOneHandler | script.js:145 | back, answer and next registers exactly one new listener, which remembers the blockers after the answer |
| StaleGate.NikhiHoldsOut | script.js:214 | when everyone is "Interested" and NIKHI then answers "Not Interested", NIKHI is the only blocker and the gate is closed |
| StaleGate.NikhiChangesMind | script.js:181-184 | back, "Not Interested" on NIKHI's card, then next: NIKHI blocks, and the current gate refuses the roadmap |
| StaleGate.StaleHandlerOpensRoadmap | script.js:226-231 | the counterexample below: the wired listeners open "day-1" while NIKHI blocks |
| StaleGate.StaleHandlerOpensRoadmapWhenAllInterested | script.js:227-231 | the same counterexample on the concrete stored map AllInterested, with every roster code "Interested" |

## Left out

- The presentation is not modelled: the badges, the name titles, the responses table, the banner text, the feedback text and the styling. These are DOM text and classes. No modelled decision reads them.
- `localStorage` and JSON are not modelled. The stored map is a parameter of the page's constructor, and None stands for a missing or unparsable value, which reads as `{}`. A stored value that parses but is not an object of `{status, ts}` records is not modelled. Neither is a stored status other than "Pending", "Interested" or "Not Interested".
- `??` against `||`: a status read uses `??` at script.js:93 and `||` at script.js:206, 214 and 244. The two differ only for a falsy stored status such as `""`, which the typed `Status` cannot hold.
- The clock is not modelled. `new Date().toISOString()` becomes the `ts` parameter, and `toLocaleString` is presentation.
- `alert` is not modelled. A refused entry is modelled as the page staying on its screen.
- Listener wiring is not modelled: `addEventListener`, `onclick` and the `closest("[data-goto]")` lookup. Each user action is an event of `TripMachine.Next`. Only the emergency continue listener's duplication is modelled, in `StaleGate`.
- `CodeInput.UpperOf` models `toUpperCase` only for the ASCII letters, and for the characters whose upper-case form is made only of ASCII letters. Every other character is kept as it is. Its real upper-case form cannot equal a run of roster letters, so keeping it does not change which inputs match. The full Unicode case tables are left out.
- A missing `#code-input` reads as the empty string, which matches no code, so it is not a separate case. A missing `#code-feedback` would throw in `onValidateCode`; the model assumes the feedback element exists.
- The markup elements the handlers touch are assumed present: the grid, the buttons, the table body. So is the node passed to `show`. `TripPage.Page.Show` records the id even if no element has it, and in that case the source would leave no screen active.
- TripPage.Page.Show: the table and banner rendering of `renderEmergency` is left out, since it is presentation. Each render also registers another back listener and another continue listener (script.js:227-231). The extra back listeners change nothing visible, because showing the response screen again leaves the page as it was. The extra continue listeners are modelled in `StaleGate`.
- Which cards are visible on which screen is not modelled. The button state is.
- `wireNavigation` gates only "day-1" (script.js:241-246). Later day screens reached through data-goto links are shown without a gate check, and the model follows the code.
- A saved current code need not be a roster code: `decideInitialScreen` checks it but never clears it, so a hand-edited value stays. `Inv` does not assume it is on the roster; with an unknown saved code, every card stays disabled.
- No remote store or multi-device sync is modelled; the page has none.
- The model assumes this page, in one tab, is the only writer of `trip_responses` and `currentUserCode`. Every tab of the same origin shares `localStorage`, but script.js reads `currentUserCode` only at load (script.js:50, 90) and sets the card locks only at script.js:136-138, 171, 178 and 194. A write from another tab is not an event of `TripMachine.Next`; with one, the lock relation in `Inv` (and so `CardEnabledIffCurrentUser`) can fail: a card stays enabled here while the stored user is someone else.

## Findings

| source | as written | input that shows it | evidently intended | confidence | as-written member | corrected member |
|---|---|---|---|---|---|---|
| script.js:227-231 | every `renderEmergency` adds another continue listener, and each listener remembers the `notReady` of the render that added it; a click runs them all, so one render with no blockers keeps the roadmap open for good | stored map with all 17 "Interested" and NIKHI saved; reload (emergency screen), back, NIKHI answers "Not Interested", next, continue: "day-1" is shown while NIKHI blocks | continue opens "day-1" only when nobody blocks at the time of the click, as the data-goto gate at script.js:241-247 does | not executed | StaleGate.StaleHandlerOpensRoadmap | TripMachine.RoadmapEntryNeedsGate |

`StaleGate.ContinueAsWritten` models a click on the button as written. The
corrected rule is `TripMachine.Next` on `EmergencyContinue`, which goes through
`Route` and `TripPage.Page.ClickEmergencyContinue`. `RoadmapEntryNeedsGate`
proves the gate for it.
