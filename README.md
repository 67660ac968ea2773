# LoveMatchBot profile flow and matching, in Dafny

The bot in `index.js` is a Telegram dating bot. Each user has one profile record in an in-memory table keyed by Telegram id. The record's `step` tag drives two state machines:

- onboarding asks for name, gender, age, age visibility, location, hobbies, bio, contact handle and platform, then a photo;
- editing opens a hub from which one field at a time is changed.

A separate `matchStep` tag drives the match search: pick a location, list the compatible profiles there, reveal a listed profile's contact. When a profile finishes onboarding with its photo, a notifier walks the table and alerts every waiting user who would match it and has not been told about it yet.

The model has seven modules:

- `Validation` (`validation.dfy`) covers the input checks. It models JavaScript's `String.prototype.trim` with the ECMAScript white-space set, `length` counted in UTF-16 code units, and `parseInt(text, 10)`. On top of those it models `validateString` and `validateAge`. `Reading` is a text message as the handlers look at it: trimmed, validated and parsed.
- `Profiles` (`profiles.dfy`) holds the profile record, its step tags, the fixed hobby, location and platform lists, and the `toggle_hobby_<raw>` decoding (`replace(/[^\w]/g, '')` and `find`).
- `Flow` (`flow.dfy`) has one pure function per handler, giving the sender's record after the event. Each follows the handler's guards and assignments. `Event`, `Apply` and `Run` replay a sequence of events.
- `FlowProperties` (`flow_properties.dfy`) proves what the flow keeps:
  - the hobby cap;
  - invalid input changes nothing;
  - buttons are ignored at the wrong step;
  - a completeness invariant that ties every step to the answers collected before it, so a user who keeps to the offered keyboards is `DONE` only with a complete profile;
  - moves follow the flow graph;
  - an edit touches only its own field;
  - the username/platform edit sequences;
  - the places where the unguarded handlers leave the graph.
- `Matching` (`matching.dfy`) covers `findMatches`, the match and own-profile captions, the contact reveal, the menu gate, and the notifier as a specification (`Notified`, `NotifyAll`, `AlertTargets`) with its lemmas.
- `Store` (`store.dfy`) is the `users` table as a class. `order` is the order in which `Object.values` visits it. There is one method per handler with the handler's imperative body. Each method is proved to leave the table exactly as the `Flow` function says and to keep the table invariant. The photo handler runs the notifier as a `while` loop over `order` that appends to `previewMatches` and to an outbox of alerted ids. That loop is proved equal to `NotifyAll` and `AlertTargets`.
- `Scenarios` (`scenarios.dfy`) holds worked examples on concrete records.

Telegram ids are `int`s. Text is `seq<char>`, one element per code point. A missing field or `null` is `None`. `matchStep = null` is `Idle`.

## Model

| member | source | states |
|---|---|---|
| Validation.TrimStart | index.js:75-77 | the result is the suffix of the input left after its leading ECMAScript white space; it starts with a non-space |
| Validation.TrimEnd | index.js:75-77 | the result is the prefix left before the trailing white space; it ends with a non-space |
| Validation.Trim | index.js:75-77 | `trim()` is never longer than its input and has no white space at either end |
| Validation.TrimIsSlice | index.js:75-77 | `trim()` is the slice of the input between its first and last non-space character; everything before and after is white space |
| Validation.TrimIdempotent | index.js:75-77 | trimming twice gives the same as trimming once |
| Validation.Utf16LengthBounds | index.js:76 | the UTF-16 `length` is at least the number of code points, and one more when a code point lies outside the Basic Multilingual Plane |
| Validation.ValidStringHasText | index.js:75-77 | `validateString` accepts only text with two non-space characters, or one non-space character that takes two UTF-16 units |
| Validation.TwoCharsMakeValidString | index.js:75-77 | any two non-space characters make the text valid |
| Validation.WideCharMakesValidString | index.js:75-77 | one non-space astral character (such as an emoji) alone makes the text valid |
| Validation.TextMakesValidString | index.js:75-77 | text with two units of non-space is valid |
| Validation.ValidStringCharacterized | index.js:75-77 | `validateString` (the predicate `Validation.ValidString`) holds exactly when there are two UTF-16 units of non-white-space text |
| Validation.TrimmedStaysValid | index.js:75-77 | the stored trimmed form of a valid answer is non-empty and itself valid |
| Validation.DigitRun | index.js:285 | the count of leading digits that `parseInt` consumes: all are digits, and the next character is not |
| Validation.Decimal | index.js:285 | `String(n)` is a non-empty run of decimal digits |
| Validation.DecimalValue | index.js:285 | the digits of `String(n)` have the value `n` |
| Validation.DigitRunOfNumeral | index.js:285 | `parseInt` consumes exactly the digits of a numeral followed by a non-digit |
| Validation.ParseDigitsReadsDecimal | index.js:285 | the digit reader reads back `String(n)`, whatever non-digit text follows |
| Validation.ParseIntReadsDecimal | index.js:285 | `parseInt(String(n) + rest)` (the function `Validation.ParseInt`) is `n` when `rest` does not start with a digit (so "30 years" reads as 30); the same read serves `EDIT_AGE` at index.js:387 |
| Validation.ParseIntReadsNegative | index.js:285 | with a leading minus sign, `parseInt` reads the negated value |
| Validation.AgeTextIsValidString | index.js:72-77 | every text the age steps accept (`validateAge`, the predicate `Validation.ValidAge`: a number from 16 to 45) would also pass `validateString` |
| Validation.ReadIsWellRead | index.js:268-285 | a valid text trims to a valid non-empty answer, and a text that parses to a valid age is a valid text |
| Profiles.NewProfile | index.js:126-131 | `begin_signup` creates a record with the sender's id, step `NAME`, no hobbies and an empty preview list |
| Profiles.WordChars | index.js:544 | `replace(/[^\w]/g, '')` keeps only word characters and never lengthens the text; `Profiles.WordCharsOfConcat` and `Profiles.WordCharsOfWord` give that every word character is kept, in order |
| Profiles.WordCharsOfConcat | index.js:544 | stripping non-word characters distributes over concatenation, so the word characters are kept in their order |
| Profiles.WordCharsOfWord | index.js:544 | text made only of word characters is left as it is |
| Profiles.WordCharsOfNonWord | index.js:544 | text without word characters is stripped to nothing |
| Profiles.WordCharsOfLabel | index.js:13 | a catalogue label (an emoji, a space, a word) strips to its word |
| Profiles.LabelWords | index.js:13 | each of the six catalogue labels strips to its own word: Music, Sports, Movies, Reading, Travel, Cooking |
| Profiles.FindsDistinct | index.js:544 | in a catalogue whose entries strip to distinct words, `find` on an entry's stripped form returns that entry |
| Profiles.CatalogDistinct | index.js:13 | the six hobby labels strip to six distinct words |
| Profiles.HobbyDataRoundTrip | index.js:544 | a toggle button's callback data (index.js:48) decodes back to the very catalogue hobby the button shows |
| Profiles.FindByWordChars | index.js:544 | `HOBBIES.find` stops at the first entry whose word characters equal the callback data, or at the end when none does |
| Profiles.HobbyFromData | index.js:544 | a toggle's hobby is the catalogue entry whose word characters are the data, or the raw data when no entry matches |
| Flow.RemoveAll | index.js:547 | `filter(h => h !== x)` removes every copy of `x`, keeps every other hobby with its multiplicity (the multiset of the result is the input's with `x` at zero), and shortens the list exactly when `x` was in it |
| Flow.TypedHobby | index.js:319-334 | a typed hobby: invalid text changes nothing; otherwise the step goes back to the hobby keyboard, and the trimmed text is appended only below five hobbies |
| Flow.OnboardingText | index.js:267-376 | a typed onboarding answer keeps the step or moves along the flow graph; it keeps id, match state and previews; it adds at most the trimmed text as a hobby, and only below five; what each step stores is stated by the `FlowProperties.*IsStored*` and `Bio*` lemmas below |
| Flow.EditText | index.js:319-433 | the same for the edit sub-states' typed answers; what each edit stores is stated by the `FlowProperties.*EditIsStored` lemmas below |
| Flow.OnText | index.js:244-472 | text at a button-only step changes nothing; otherwise the step stays or follows the graph; id and previews are kept; the hobby list grows by at most one, below five; `FlowProperties.AnswerMovesStepExactlyWhenAccepted` adds that the step moves exactly when the answer is accepted |
| Flow.OnGender | index.js:475-485 | `gender_<g>` works only in `GENDER`: it stores `g`, moves to `AGE` and changes nothing else |
| Flow.OnAgeVisibility | index.js:486-517 | `age_visible_yes`/`_no` work only in `AGE_PRIVACY`: they store the flag, move to `LOCATION` and change nothing else |
| Flow.OnLocation | index.js:518-531 | `location_<city>` works only in `LOCATION`: it stores the city, moves to `HOBBIES` and changes nothing else |
| Flow.OnLocationOther | index.js:533-540 | "Other..." works only in `LOCATION`: it moves to `LOCATION_TYPED` and changes nothing else |
| Flow.OnToggleHobby | index.js:541-559 | only on a hobby keyboard: a chosen hobby is removed with all its copies and the others are kept; a new one is appended below five; at five nothing changes; only the hobby list changes |
| Flow.OnHobbyOther | index.js:560-570 | "Other..." on a hobby keyboard asks for a typed hobby (`HOBBY_TYPED`, or `EDIT_HOBBY_TYPED` when editing); it is refused at five hobbies and at any other step; only the step changes |
| Flow.OnHobbiesDone | index.js:571-583 | "Done" on a hobby keyboard moves onboarding to `BIO` and an edit back to `EDITING`; it is refused with no hobby chosen and at any other step; only the step changes |
| Flow.OnPlatform | index.js:584-601 | `username_source_<key>` works only in `USERNAME_PLATFORM`: "other" asks for a typed platform; any other key stores key and label and moves to `PHOTO` |
| Flow.OnEditPlatform | index.js:602-618 | the edit version of the platform choice, which returns to `EDITING` |
| Flow.OnStartEdit | index.js:620-673 | `edit_<field>` sets the chosen field's edit sub-state, an edge out of `EDITING`, with no step guard; only the step changes |
| Flow.OnEditGender | index.js:674-684 | `set_edit_gender_<g>` works only in `EDIT_GENDER`: it stores `g` and returns to `EDITING` |
| Flow.OnFinishEditing | index.js:685-692 | "done" sets `DONE`, an edge out of `EDITING`, with no step guard; only the step changes; "cancel" (index.js:236-241) is the same |
| Flow.OnEditLocation | index.js:693-704 | `set_edit_location_<city>` works only in `EDIT_LOCATION`: it stores the city and returns to `EDITING` |
| Flow.OnEditLocationOther | index.js:705-712 | "Other..." works only in `EDIT_LOCATION`: it moves to `EDIT_LOCATION_TYPED` and changes nothing else |
| Flow.OnSeeMatches | index.js:176-194 | only a `DONE` record asks for a match location; every other record is unchanged; only the match sub-state changes |
| Flow.OnEditProfile | index.js:221-229 | only a `DONE` record opens the edit hub, an edge of the flow graph; every other record is unchanged; only the step changes |
| Flow.OnMatchLocation | index.js:723-733 | a listed match location is taken only while one is asked for: it is stored and the match sub-flow ends; only those two fields change |
| Flow.OnMatchLocationOther | index.js:734-741 | "Other..." while a match location is asked for moves to typing it; only the match sub-state changes |
| Flow.OnPhoto | index.js:134-149 | no photo variant changes nothing; otherwise the last (largest) variant is stored, and `EDIT_PHOTO` goes to `EDITING` while every other step goes to `DONE` |
| FlowProperties.ApplyKeepsHobbyCap | index.js:323-566 | no event takes a record with at most five hobbies above five |
| FlowProperties.RunKeepsHobbyCap | index.js:323-553 | any sequence of events keeps the five-hobby cap |
| FlowProperties.InvalidTextChangesNothing | index.js:257-427 | text that fails `validateString` leaves the record unchanged at every step (also in the typed match location) |
| FlowProperties.InvalidOnboardingTextChangesNothing | index.js:267-376 | invalid text changes nothing at a typed onboarding step |
| FlowProperties.InvalidEditTextChangesNothing | index.js:319-433 | invalid text changes nothing at a typed edit sub-state |
| FlowProperties.InvalidMessageChangesNothing | index.js:75-472 | the same, stated on the raw message text |
| FlowProperties.InvalidAgeChangesNothing | index.js:284-389 | an age outside 16..45, or text that is not a number, changes nothing at `AGE` and `EDIT_AGE` |
| FlowProperties.NameIsStoredTrimmed | index.js:267-279 | a valid name is stored trimmed and the flow moves to `GENDER` |
| FlowProperties.AgeIsStoredParsed | index.js:284-293 | a valid age is stored as parsed and the flow moves to `AGE_PRIVACY` |
| FlowProperties.LocationIsStoredTrimmed | index.js:303-314 | a valid typed location is stored trimmed and the flow moves to `HOBBIES` |
| FlowProperties.BioWithTelegramUsername | index.js:335-353 | with a Telegram username, a valid bio is stored trimmed, the username is taken with platform "telegram" and label "Telegram", and the flow skips to `PHOTO` |
| FlowProperties.BioWithoutTelegramUsername | index.js:335-353 | without a Telegram username, a valid bio is stored trimmed and the flow asks for a custom username |
| FlowProperties.CustomUsernameIsStored | index.js:354-365 | a valid custom username is stored trimmed and the flow moves to `USERNAME_PLATFORM` |
| FlowProperties.CustomPlatformIsStored | index.js:366-377 | a valid typed platform is stored trimmed as both key and label and the flow moves to `PHOTO` |
| FlowProperties.NameEditIsStored | index.js:378-385 | a valid new name is stored trimmed and the edit returns to `EDITING` |
| FlowProperties.AgeEditIsStored | index.js:386-393 | a valid new age is stored as parsed and the edit returns to `EDITING` |
| FlowProperties.BioEditIsStored | index.js:394-401 | a valid new bio is stored trimmed and the edit returns to `EDITING` |
| FlowProperties.LocationEditIsStored | index.js:424-434 | a valid typed new location is stored trimmed and the edit returns to `EDITING` |
| FlowProperties.UsernameTyped | index.js:402-414 | a valid new username is stored trimmed and the edit asks for its platform |
| FlowProperties.PlatformTyped | index.js:415-423 | a valid typed new platform is stored trimmed as key and label and the edit returns to `EDITING` |
| FlowProperties.OnboardingStepMovesExactlyWhenAccepted | index.js:267-376 | at a typed onboarding step the step changes if and only if the answer is accepted (a valid age at `AGE`, a valid string elsewhere) |
| FlowProperties.EditStepMovesExactlyWhenAccepted | index.js:378-434 | the same for the typed edit sub-states |
| FlowProperties.AnswerMovesStepExactlyWhenAccepted | index.js:244-472 | for any text at a typed step, the step changes if and only if the answer is accepted, and then along a flow-graph edge |
| FlowProperties.TypedMatchLocationFirst | index.js:256-265 | a pending typed match location takes precedence over every profile step: it stores the trimmed location, ends the match sub-flow and leaves the profile alone |
| FlowProperties.ButtonsIgnoredAtWrongStep | index.js:475-741 | every step-specific button, and the menu commands, change nothing away from their step (or their match sub-state) |
| FlowProperties.RemoveAllOfAppended | index.js:546-553 | removing a hobby that was just appended gives back the earlier list |
| FlowProperties.ToggleTwiceRestores | index.js:541-559 | toggling a new hobby twice (below the cap) restores the record |
| FlowProperties.TypedHobbyMayRepeat | index.js:319-331 | a typed hobby is appended even when it is already chosen |
| FlowProperties.EarlyTextKeepsInvariant | index.js:267-334 | name, age, typed location and typed hobby answers keep the completeness invariant |
| FlowProperties.ContactTextKeepsInvariant | index.js:335-376 | bio, custom username and custom platform answers keep the completeness invariant, in both native-handle branches |
| FlowProperties.BioTextKeepsInvariant | index.js:335-353 | a bio answer keeps the completeness invariant, with or without a Telegram username |
| FlowProperties.UsernameTextKeepsInvariant | index.js:354-377 | a custom username or a typed platform keeps the completeness invariant |
| FlowProperties.OnboardingTextKeepsInvariant | index.js:267-376 | every typed onboarding answer keeps the completeness invariant |
| FlowProperties.EditTextKeepsInvariant | index.js:319-433 | every typed edit answer keeps the completeness invariant |
| FlowProperties.TextKeepsInvariant | index.js:244-472 | any text message keeps the completeness invariant |
| FlowProperties.HobbyButtonsKeepInvariant | index.js:541-583 | toggle, "Other..." and "Done" on the hobby keyboard keep the invariant (Done needs a hobby) |
| FlowProperties.ToggleKeepsInvariant | index.js:541-559 | a hobby toggle keeps the completeness invariant |
| FlowProperties.HobbyDoneOrOtherKeepsInvariant | index.js:560-583 | "Other..." and "Done" on the hobby keyboard keep the completeness invariant |
| FlowProperties.OnboardingButtonsKeepInvariant | index.js:475-601 | the onboarding buttons keep the invariant |
| FlowProperties.StartEditKeepsInvariant | index.js:620-673 | entering an edit sub-state from `EDITING` keeps the invariant |
| FlowProperties.EditMenuKeepsInvariant | index.js:620-692 | the edit menu's buttons, pressed in `EDITING`, keep the invariant |
| FlowProperties.EditChoiceButtonsKeepInvariant | index.js:674-712 | the edit gender and edit location buttons keep the invariant |
| FlowProperties.EditPlatformKeepsInvariant | index.js:602-618 | the edit platform buttons keep the invariant |
| FlowProperties.EditButtonsKeepInvariant | index.js:602-712 | all edit sub-state buttons keep the invariant |
| FlowProperties.PhotoKeepsInvariant | index.js:126-149 | sign-up, and a photo at `PHOTO` or `EDIT_PHOTO`, keep the invariant |
| FlowProperties.MenuEventsKeepInvariant | index.js:176-229 | "See Matches", "Edit Profile" and the match-location buttons (index.js:723-741) keep the invariant |
| FlowProperties.MatchFieldsAloneKeepInvariant | index.js:176-194 | changing only the match location and match sub-state keeps the completeness invariant |
| FlowProperties.ApplyKeepsFlowInvariant | index.js:126-741 | every event on the offered path keeps the completeness invariant |
| FlowProperties.GuardedRunKeepsFlowInvariant | index.js:126-741 | any sequence of such events keeps the invariant |
| FlowProperties.GuardedSignupCompletes | index.js:126-173 | after sign-up, a user who keeps to the offered keyboards and reaches `DONE` holds a complete profile: valid name, gender, age 16..45, age flag, location, 1..5 hobbies, valid bio, a contact handle with a platform label, and a photo |
| FlowProperties.GuardedMovesFollowFlow | index.js:134-741 | on the offered path, every event but sign-up keeps the step or follows an edge of the flow graph |
| FlowProperties.UnguardedPhotoLeavesTheFlow | index.js:134-150 | a photo sent right after sign-up marks the record `DONE` with no answers, which is not a graph edge, and the profile is not complete |
| FlowProperties.UnguardedEditButtonsLeaveTheFlow | index.js:620-673 | an `edit_<field>` button pressed at any onboarding step sets that field's edit sub-state, which is not a graph edge from there |
| FlowProperties.UnguardedDoneLeavesTheFlow | index.js:685-692 | "done", and "cancel" (index.js:236-241), pressed at any onboarding step set `DONE`, which is a graph edge only from `PHOTO` |
| FlowProperties.OnboardingEdgesStayInOnboarding | index.js:126-376 | every flow-graph edge out of an onboarding step leads to an onboarding step, except `PHOTO` to `DONE` |
| FlowProperties.EditTextTouchesOnlyItsField | index.js:319-433 | text in an edit sub-state changes only that sub-state's field, the step and the match sub-flow |
| FlowProperties.EditButtonsTouchOnlyTheirField | index.js:541-712 | the same for the buttons in an edit sub-state |
| FlowProperties.EditTouchesOnlyItsField | index.js:244-741 | any event on the offered path in an edit sub-state changes only that sub-state's field |
| FlowProperties.UsernameEditWithListedPlatform | index.js:402-618 | editing the username: the typed handle, then a listed platform, returns to `EDITING` with handle, key and label stored |
| FlowProperties.UsernameEditWithTypedPlatform | index.js:402-611 | with "other", the typed platform becomes both key and label and the edit returns to `EDITING` |
| FlowProperties.SignUpRestarts | index.js:126-131 | "Sign Up" pressed again replaces the record with a fresh one, finished or not |
| Matching.ValuesOf | index.js:79-152 | `Object.values` in enumeration order: one record per key, in that order |
| Matching.FindMatches | index.js:78-86 | a record is listed exactly when it satisfies the filter `Matching.IsMatch`: `DONE`, of a different and non-empty gender, aged 16..45, and located at the wanted place; nothing is listed more often than stored |
| Matching.FindMatchesOfConcat | index.js:78-86 | the filter distributes over concatenation |
| Matching.MatchesAreSubsequence | index.js:78-86 | matches come out in table order |
| Matching.RequesterNeverMatched | index.js:78-86 | the requester never appears among their own matches |
| Matching.MatchCaption | index.js:87-94 | the match caption has an age line exactly when the age flag is not `false`; that line shows the stored age; there is no contact line |
| Matching.ContactHandle | index.js:213 | the handle shown is the custom username when it is non-empty, else the Telegram username; the reveal at index.js:751 shows the same |
| Matching.ContactPlatform | index.js:213 | the platform shown is the stored label when it is non-empty, else "Telegram"; the reveal at index.js:751 shows the same |
| Matching.ContactHandleIsSet | index.js:212-213 | a profile with a contact handle shows a non-empty one |
| Matching.OwnCaption | index.js:205-213 | the own-profile card always shows the age, and shows a contact line exactly when a username or custom username is set |
| Matching.RevealContact | index.js:744-752 | the reveal fails exactly when the id is unknown or the profile is not `DONE`; otherwise it shows that profile's handle and platform |
| Matching.RevealOfCompleteProfile | index.js:744-752 | revealing a complete `DONE` profile shows a non-empty handle with its platform, matching the contact line of the own card |
| Matching.RevealRefusedWhileEditing | index.js:747-749 | a listed profile that has since gone back into editing cannot be revealed |
| Matching.MenuGate | index.js:176-204 | the menu commands proceed exactly for a `DONE` record; the redirect for `EDITING` is never taken |
| Matching.Notified | index.js:153-170 | one notifier step changes only the preview list, adds the new id when the waiting record is eligible, and does not touch a record already told or not eligible |
| Matching.NotifyAll | index.js:152-172 | every record of the table goes through one notifier step, and no key is added or removed |
| Matching.AlertTargets | index.js:152-172 | there are no more alerts than records; which ids are alerted is `Matching.AlertTargetsExactly`, and that none is alerted twice is `Matching.AlertTargetsNoRepeats` |
| Matching.AlertTargetsNoRepeats | index.js:152-172 | over a table whose keys are distinct and equal to their records' ids, one notifier run alerts each id at most once |
| Matching.AlertTargetsExactly | index.js:152-172 | an id is alerted exactly when some record with that id is eligible (`Matching.Eligible`: another id, `DONE`, of a different gender, both ages valid) and had not yet been told |
| Matching.NotifyAllOutcome | index.js:153-170 | an eligible record ends up knowing the new id; an ineligible one, including the new profile itself, is unchanged |
| Matching.NotifyAllIdempotent | index.js:160-164 | running the notifier twice for the same profile is the same as once |
| Matching.SecondRunAlertsNobody | index.js:160-169 | after a run, a second run for the same profile sends no alert |
| Matching.InvalidAgeAlertsNobody | index.js:157-158 | a new profile without a valid age changes nothing and alerts nobody |
| Matching.NotifiedKeepsPreviewWellFormed | index.js:160-164 | a preview list that holds no duplicates and not its owner keeps both properties |
| Store.ReplaceKeepsInvariant | index.js:134-149 | writing back a record with the same id and previews, within the hobby cap, keeps the table invariant |
| Store.ToggledRecord | index.js:541-559 | the toggle handler's body gives exactly `Flow.OnToggleHobby` |
| Store.OnboardingAnswer | index.js:267-376 | the onboarding branches of the text handler give exactly `Flow.OnboardingText` |
| Store.EditAnswer | index.js:319-433 | the edit branches of the text handler give exactly `Flow.EditText` |
| Store.TextRecord | index.js:256-472 | the text handler's body on the sender's record gives exactly `Flow.OnText` |
| Store.PhotoRecord | index.js:141-148 | the photo handler's assignments give exactly `Flow.OnPhoto` |
| Store.NotifyOne | index.js:153-170 | one pass of the notifier loop body gives `Notified` and alerts exactly a newly alerted record |
| Store.NotifyWaiting | index.js:152-172 | the notifier loop, run over the table in enumeration order, leaves the table equal to `NotifyAll` and its alerts equal to `AlertTargets` |
| Store.NotifyKeepsInvariant | index.js:152-172 | the notifier keeps the table invariant |
| Store.Store.Values | index.js:79-152 | the table's records, one per key, in enumeration order |
| Store.Store.constructor | index.js:10 | an empty table |
| Store.Store.BeginSignup | index.js:126-131 | the sender's record is replaced by a fresh one; a new id is appended at the end of the enumeration order |
| Store.Store.ReceiveText | index.js:244-472 | an unknown sender changes nothing; otherwise the sender's record becomes `Flow.OnText` of it and nothing else changes; matches are shown exactly when a valid typed match location was pending, and they are `findMatches` for the trimmed text on the updated table (index.js:715-722) |
| Store.Store.ReceivePhoto | index.js:134-173 | no record or no variant changes nothing and alerts nobody; at `EDIT_PHOTO` only the photo and step change; otherwise the record is completed and the whole table, and the alerts, are what the notifier specification gives; no user is alerted twice |
| Store.Store.PickGender | index.js:475-485 | only the sender's record changes, as `Flow.OnGender` says |
| Store.Store.PickAgeVisibility | index.js:486-517 | only the sender's record changes, as `Flow.OnAgeVisibility` says |
| Store.Store.PickLocation | index.js:518-531 | only the sender's record changes, as `Flow.OnLocation` says |
| Store.Store.PickLocationOther | index.js:533-540 | only the sender's record changes: `LOCATION` moves to `LOCATION_TYPED`, any other step is unchanged |
| Store.Store.ToggleHobby | index.js:541-559 | only the sender's record changes, as `Flow.OnToggleHobby` says |
| Store.Store.PickHobbyOther | index.js:560-570 | only the sender's record changes: on a hobby keyboard below five hobbies the step moves to the matching typed-hobby step |
| Store.Store.HobbiesDone | index.js:571-583 | only the sender's record changes: on a hobby keyboard with at least one hobby, onboarding moves to `BIO` and an edit returns to `EDITING` |
| Store.Store.PickPlatform | index.js:584-601 | only the sender's record changes, as `Flow.OnPlatform` says |
| Store.Store.PickEditPlatform | index.js:602-618 | only the sender's record changes, as `Flow.OnEditPlatform` says |
| Store.Store.StartEdit | index.js:620-673 | only the sender's record changes: its step becomes the chosen field's edit sub-state, from any step |
| Store.Store.PickEditGender | index.js:674-684 | only the sender's record changes, as `Flow.OnEditGender` says |
| Store.Store.FinishEditing | index.js:685-692 | only the sender's record changes: its step becomes `DONE`, from any step, so every field is kept; "cancel" (index.js:236-241) does the same |
| Store.Store.PickEditLocation | index.js:693-704 | only the sender's record changes, as `Flow.OnEditLocation` says |
| Store.Store.PickEditLocationOther | index.js:705-712 | only the sender's record changes: `EDIT_LOCATION` moves to `EDIT_LOCATION_TYPED` |
| Store.Store.SeeMatches | index.js:176-194 | only a `DONE` sender's record changes, by asking for a match location |
| Store.Store.ShowProfile | index.js:196-220 | the own card is shown exactly to a `DONE` sender, and it is `OwnCaption` of the record |
| Store.Store.EditProfile | index.js:221-229 | only a `DONE` sender's record changes, by opening the edit hub |
| Store.Store.PickMatchLocation | index.js:715-733 | while a match location is asked for, it is stored and the sub-flow ends; matches are shown exactly then, as `findMatches` on the updated table |
| Store.Store.PickMatchLocationOther | index.js:734-741 | while a match location is asked for, it will be typed |
| Store.Store.RevealContactOf | index.js:744-752 | the reveal fails exactly for an unknown or not-`DONE` id; otherwise it shows the handle and platform as `Matching.RevealContact` gives them |
| Scenarios.NewProfileAlertsWaitingUserOnce | index.js:134-172 | A (male, 30, Addis Ababa) sends the photo while B (female, 28, Addis Ababa) waits in `DONE`: A is `DONE` with the largest photo, and exactly one alert goes out, to B |
| Scenarios.NewProfileIsListedForWaitingUser | index.js:78-172 | after that, a repeated run alerts nobody, and B's matches for Addis Ababa include A, with the age line present unless A hid the age |
| Scenarios.SeventeenIsAccepted | index.js:284-293 | the age "17" is stored and the flow moves to `AGE_PRIVACY`, because `validateAge` (index.js:72-74) accepts it |
| Scenarios.FifteenIsRejected | index.js:284-289 | the age "15" changes nothing, because `validateAge` (index.js:72-74) rejects it |

## Left out

- Telegram I/O is not modelled: replies, keyboards, message edits, `answerCbQuery` and the text of every message. A handler's visible outcome appears only where it carries data: the list of matches shown, the own card, the contact revealed, and the ids alerted.
- Persistence is not modelled: `loadUsers` and `saveUsers` are file I/O. The table starts empty, as on a first start without a saved file.
- `bot.start`, "Help" and "Support" change no state and are not modelled.
- Callback routing is not modelled; each handler is a separate method. As registered, the pattern `/gender_(.+)/` (index.js:475) also matches `set_edit_gender_male` and `set_edit_gender_female`. It runs first, sees a step other than `GENDER` and returns, so `set_edit_gender_<g>` (index.js:674) is never reached. `Store.Store.PickEditGender` models that handler as written; the routing that makes it unreachable is not modelled.
- Enumeration order is simplified. `Object.values` visits array-index keys (integers up to 2^32 − 2) in ascending numeric order, and every other key, including larger Telegram ids, in creation order. The model visits every key in sign-up order (`order`), which is exact only when the ids below 2^32 − 1 signed up in ascending order and before every larger id. No proved property depends on the order except the order of the alert list and of the shown matches.
- Text routing between handlers is not modelled. The menu texts "👀 See Matches", "👤 Show Profile", "✏️ Edit Profile", "💬 Help" and "🛠 Support" are caught by `bot.hears` (index.js:176-235), registered before `bot.on('text')` (index.js:244), so the text handler never sees them. `Store.Store.ReceiveText` does not exclude them: for a user at `NAME` who taps "👀 See Matches", the code refuses the menu command, whereas the model would store the label as the name.
- JavaScript numbers are IEEE doubles. Ages and ids are unbounded integers here. Precision loss above 2^53 and `parseInt` of numerals too long for a double are not modelled.
- A thrown exception is modelled as no change. `edit_cancel` and the `edit_<field>` buttons read `users[id].step` without checking that the record exists, so they throw for an unknown sender.
- `reveal_contact_<id>` receives its id as a digit string, and JavaScript converts it to a property key. The model takes the id as an integer.
- Captions and the own card are modelled as sequences of line kinds (name, gender, age, location, hobbies, bio, contact). The exact text and emoji are not modelled. The photo attached to a summary or card is not returned.
- Transport failures and the concurrency of asynchronous handlers are not modelled. Each event is applied atomically.

## Where the code and the design differ

The model follows the code in each of these places:

- Ages: the code accepts 16 to 45 (index.js:72-74). An age of 17 is therefore stored (`Scenarios.SeventeenIsAccepted`), whereas the documented scenario expects it to be rejected.
- Age line:
  - The match caption shows the age unless the flag is exactly `false` (index.js:90). A profile whose flag was never set therefore shows it too.
  - The design says the age is shown only when the flag is true.
- Menu redirect:
  - "See Matches" and "Show Profile" check `step !== 'DONE'` before they check `EDITING`, so an editing user gets "complete your profile first" rather than the redirect to the edit menu (index.js:178-184, 198-204).
  - `Matching.MenuGate` proves that the redirect is never taken.
- Hobby uniqueness: hobbies are meant to be a set of distinct strings. Only a toggle removes, and a typed hobby is appended even when already chosen (`FlowProperties.TypedHobbyMayRepeat`).
- Typed edit hobbies are handled by the combined onboarding branch at index.js:319-334. The later `EDIT_HOBBY_TYPED` block (index.js:435-449) is therefore never reached.
- Photo completion:
  - A photo completes any step other than `EDIT_PHOTO`, including a fresh record or a finished one. It then runs the notifier (index.js:141-172). With no answers, the record is `DONE` but not complete (`FlowProperties.UnguardedPhotoLeavesTheFlow`).
  - A repeated photo runs the notifier again. The `previewMatches` check stops repeated alerts (`Matching.SecondRunAlertsNobody`).
- Unguarded edit buttons: `edit_<field>`, "done" and "cancel" have no step guard (`FlowProperties.UnguardedEditButtonsLeaveTheFlow`). The completeness invariant is therefore proved for the events the keyboards offer at each step (`FlowProperties.OnGuardedPath`) and not for all events.
- Sign-up: "Sign Up" pressed again discards a finished profile (`FlowProperties.SignUpRestarts`).
