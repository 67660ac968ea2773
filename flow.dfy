/** What each inbound event does to the sender's own record: one function per
    handler, each following the handler's guards and assignments. */
module Flow {
  import opened Wrappers
  import opened Validation
  import opened Profiles

  /** The flow graph the design lays down: onboarding one field at a time in a
      fixed order, the edit hub and its field sub-states, and back. `CanFollow(s, t)`
      holds when `t` may come right after `s`. */
  predicate CanFollow(s: Step, t: Step) {
    match s
    case Name => t == Gender
    case Gender => t == Age
    case Age => t == AgePrivacy
    case AgePrivacy => t == Location
    case Location => t == LocationTyped || t == Hobbies
    case LocationTyped => t == Hobbies
    case Hobbies => t == HobbyTyped || t == Bio
    case HobbyTyped => t == Hobbies
    case Bio => t == CustomUsername || t == Photo
    case CustomUsername => t == UsernamePlatform
    case UsernamePlatform => t == CustomPlatform || t == Photo
    case CustomPlatform => t == Photo
    case Photo => t == Done
    case Done => t == Editing
    case Editing =>
      t == Done || t == EditName || t == EditGender || t == EditAge || t == EditHobbies
      || t == EditBio || t == EditPhoto || t == EditUsername || t == EditLocation
    case EditHobbies => t == EditHobbyTyped || t == Editing
    case EditHobbyTyped => t == EditHobbies
    case EditUsername => t == EditUsernamePlatform
    case EditUsernamePlatform => t == EditCustomPlatform || t == Editing
    case EditLocation => t == EditLocationTyped || t == Editing
    case EditName => t == Editing
    case EditGender => t == Editing
    case EditAge => t == Editing
    case EditBio => t == Editing
    case EditPhoto => t == Editing
    case EditCustomPlatform => t == Editing
    case EditLocationTyped => t == Editing
  }

  /** Steps that take a button press (or, for the photo steps, a photo) and no text. */
  predicate WaitsForButton(s: Step) {
    s == Gender || s == AgePrivacy || s == Location || s == Hobbies || s == UsernamePlatform
    || s == Photo || s == Done || s == Editing || s == EditGender || s == EditHobbies
    || s == EditPhoto || s == EditUsernamePlatform || s == EditLocation
  }

  /** `hobbies.filter(h => h !== x)`. */
  function RemoveAll(hs: seq<string>, x: string): (r: seq<string>)
    ensures x !in r
    ensures forall y :: y != x ==> (y in r <==> y in hs)
    ensures x in hs ==> |r| < |hs|
    ensures x !in hs ==> r == hs
    ensures multiset(r) == multiset(hs)[x := 0]
  {
    if hs == [] then []
    else
      assert hs == [hs[0]] + hs[1..];
      if hs[0] == x then RemoveAll(hs[1..], x)
    else [hs[0]] + RemoveAll(hs[1..], x)
  }

  /** A typed hobby (the `HOBBY_TYPED` and `EDIT_HOBBY_TYPED` steps): refused when
      not valid; otherwise added unless the list is full, and either way back to
      the hobby keyboard step `back`. */
  function TypedHobby(p: Profile, m: Reading, back: Step): (r: Profile)
    ensures !m.valid ==> r == p
    ensures m.valid ==> r.step == back
    ensures m.valid && |p.hobbies| < MaxHobbies ==> r.hobbies == p.hobbies + [m.trimmed]
    ensures |p.hobbies| >= MaxHobbies ==> r.hobbies == p.hobbies
    ensures r == p.(hobbies := r.hobbies, step := r.step)
  {
    if !m.valid then p
    else if |p.hobbies| >= MaxHobbies then p.(step := back)
    else p.(hobbies := p.hobbies + [m.trimmed], step := back)
  }

  /** Steps whose answer is typed. */
  predicate IsOnboardingTextStep(s: Step) {
    s == Name || s == Age || s == LocationTyped || s == HobbyTyped || s == Bio
    || s == CustomUsername || s == CustomPlatform
  }

  predicate IsEditTextStep(s: Step) {
    s == EditName || s == EditAge || s == EditBio || s == EditUsername
    || s == EditCustomPlatform || s == EditLocationTyped || s == EditHobbyTyped
  }

  /** A typed onboarding answer: stored trimmed when valid, and the next step of
      onboarding follows; `native` is the sender's own Telegram username, if any. */
  function OnboardingText(p: Profile, m: Reading, native: Option<string>): (r: Profile)
    requires IsOnboardingTextStep(p.step)
    ensures r.step == p.step || CanFollow(p.step, r.step)
    ensures r.id == p.id && r.matchStep == p.matchStep && r.previewMatches == p.previewMatches
    ensures r.hobbies == p.hobbies
            || (|p.hobbies| < MaxHobbies && r.hobbies == p.hobbies + [m.trimmed])
  {
    var t := m.trimmed;
    match p.step
    case Name =>
      if m.valid then p.(name := Some(t), step := Gender) else p
    case Age =>
      if ValidAge(m.number) then p.(age := m.number, step := AgePrivacy) else p
    case LocationTyped =>
      if m.valid then p.(location := Some(t), step := Hobbies) else p
    case HobbyTyped => TypedHobby(p, m, Hobbies)
    case Bio =>
      if !m.valid then p
      else if Truthy(native) then
        p.(bio := Some(t), username := native, usernamePlatform := Some("telegram"),
           usernamePlatformLabel := Some("Telegram"), step := Photo)
      else p.(bio := Some(t), step := CustomUsername)
    case CustomUsername =>
      if m.valid then p.(customUsername := Some(t), step := UsernamePlatform) else p
    case CustomPlatform =>
      if m.valid
      then p.(usernamePlatform := Some(t), usernamePlatformLabel := Some(t), step := Photo)
      else p
  }

  /** A typed edit: stored trimmed when valid, and back to the hub (the username
      edit goes on to its platform). */
  function EditText(p: Profile, m: Reading): (r: Profile)
    requires IsEditTextStep(p.step)
    ensures r.step == p.step || CanFollow(p.step, r.step)
    ensures r.id == p.id && r.matchStep == p.matchStep && r.previewMatches == p.previewMatches
    ensures r.hobbies == p.hobbies
            || (|p.hobbies| < MaxHobbies && r.hobbies == p.hobbies + [m.trimmed])
  {
    var t := m.trimmed;
    match p.step
    case EditName =>
      if m.valid then p.(name := Some(t), step := Editing) else p
    case EditAge =>
      if ValidAge(m.number) then p.(age := m.number, step := Editing) else p
    case EditBio =>
      if m.valid then p.(bio := Some(t), step := Editing) else p
    case EditUsername =>
      if m.valid then p.(customUsername := Some(t), step := EditUsernamePlatform) else p
    case EditCustomPlatform =>
      if m.valid
      then p.(usernamePlatform := Some(t), usernamePlatformLabel := Some(t), step := Editing)
      else p
    case EditLocationTyped =>
      if m.valid then p.(location := Some(t), step := Editing) else p
    case EditHobbyTyped => TypedHobby(p, m, EditHobbies)
  }

  /** A text message. A pending typed match location takes precedence over the
      step; then a text step takes its answer; text anywhere else only re-prompts. */
  function OnText(p: Profile, m: Reading, native: Option<string>): (r: Profile)
    ensures p.matchStep != MatchLocationTyped && WaitsForButton(p.step) ==> r == p
    ensures r.step == p.step || CanFollow(p.step, r.step)
    ensures r.id == p.id && r.previewMatches == p.previewMatches
    ensures r.hobbies == p.hobbies
            || (|p.hobbies| < MaxHobbies && r.hobbies == p.hobbies + [m.trimmed])
  {
    if p.matchStep == MatchLocationTyped then
      if m.valid then p.(matchLocation := Some(m.trimmed), matchStep := Idle) else p
    else if IsOnboardingTextStep(p.step) then OnboardingText(p, m, native)
    else if IsEditTextStep(p.step) then EditText(p, m)
    else p
  }

  /** `gender_<g>`: only in `GENDER`; stores `g` and asks for the age. */
  function OnGender(p: Profile, g: string): (r: Profile)
    ensures p.step != Gender ==> r == p
    ensures p.step == Gender ==> r.step == Age && r.gender == Some(g)
    ensures r == p.(gender := r.gender, step := r.step)
  {
    if p.step != Gender then p else p.(gender := Some(g), step := Age)
  }

  /** `age_visible_yes` / `age_visible_no`: only in `AGE_PRIVACY`. */
  function OnAgeVisibility(p: Profile, visible: bool): (r: Profile)
    ensures p.step != AgePrivacy ==> r == p
    ensures p.step == AgePrivacy ==> r.step == Location && r.ageVisible == Some(visible)
    ensures r == p.(ageVisible := r.ageVisible, step := r.step)
  {
    if p.step != AgePrivacy then p else p.(ageVisible := Some(visible), step := Location)
  }

  /** `location_<loc>`: only in `LOCATION`; stores the chosen city. */
  function OnLocation(p: Profile, loc: string): (r: Profile)
    ensures p.step != Location ==> r == p
    ensures p.step == Location ==> r.step == Hobbies && r.location == Some(loc)
    ensures r == p.(location := r.location, step := r.step)
  {
    if p.step != Location then p else p.(location := Some(loc), step := Hobbies)
  }

  /** `location_other`: only in `LOCATION`; the city will be typed. */
  function OnLocationOther(p: Profile): (r: Profile)
    ensures p.step != Location ==> r == p
    ensures p.step == Location ==> r.step == LocationTyped
    ensures r == p.(step := r.step)
  {
    if p.step != Location then p else p.(step := LocationTyped)
  }

  predicate OnHobbyKeyboard(s: Step) {
    s == Hobbies || s == EditHobbies
  }

  /** `toggle_hobby_<raw>`: only on a hobby keyboard step. A chosen hobby is
      removed (every copy of it); another is added only while fewer than five are
      chosen; at five, nothing changes. */
  function OnToggleHobby(p: Profile, raw: string): (r: Profile)
    ensures !OnHobbyKeyboard(p.step) ==> r == p
    ensures r == p.(hobbies := r.hobbies)
    ensures OnHobbyKeyboard(p.step) && HobbyFromData(raw) in p.hobbies ==>
      HobbyFromData(raw) !in r.hobbies && |r.hobbies| < |p.hobbies|
      && forall h :: h != HobbyFromData(raw) ==> (h in r.hobbies <==> h in p.hobbies)
    ensures HobbyFromData(raw) !in p.hobbies ==>
      r.hobbies == (if OnHobbyKeyboard(p.step) && |p.hobbies| < MaxHobbies
                    then p.hobbies + [HobbyFromData(raw)] else p.hobbies)
  {
    var h := HobbyFromData(raw);
    if !OnHobbyKeyboard(p.step) then p
    else if h in p.hobbies then p.(hobbies := RemoveAll(p.hobbies, h))
    else if |p.hobbies| >= MaxHobbies then p
    else p.(hobbies := p.hobbies + [h])
  }

  /** `hobby_other`: only on a hobby keyboard step and below five hobbies; moves
      to the matching typed-hobby step. */
  function OnHobbyOther(p: Profile): (r: Profile)
    ensures !OnHobbyKeyboard(p.step) || |p.hobbies| >= MaxHobbies ==> r == p
    ensures OnHobbyKeyboard(p.step) && |p.hobbies| < MaxHobbies ==>
      r.step == (if p.step == EditHobbies then EditHobbyTyped else HobbyTyped)
    ensures r == p.(step := r.step)
  {
    if !OnHobbyKeyboard(p.step) || |p.hobbies| >= MaxHobbies then p
    else p.(step := if p.step == EditHobbies then EditHobbyTyped else HobbyTyped)
  }

  /** `hobbies_done`: only on a hobby keyboard step with at least one hobby;
      onboarding goes on to the bio, an edit returns to the hub. */
  function OnHobbiesDone(p: Profile): (r: Profile)
    ensures !OnHobbyKeyboard(p.step) || p.hobbies == [] ==> r == p
    ensures OnHobbyKeyboard(p.step) && p.hobbies != [] ==>
      r.step == (if p.step == EditHobbies then Editing else Bio)
    ensures r == p.(step := r.step)
  {
    if !OnHobbyKeyboard(p.step) || p.hobbies == [] then p
    else p.(step := if p.step == EditHobbies then Editing else Bio)
  }

  /** `username_source_<key>`: only in `USERNAME_PLATFORM`; "other" asks for a
      typed platform name, any other key is stored with its label. */
  function OnPlatform(p: Profile, pl: Platform): (r: Profile)
    ensures p.step != UsernamePlatform ==> r == p
    ensures p.step == UsernamePlatform && pl.key == "other" ==> r == p.(step := CustomPlatform)
    ensures p.step == UsernamePlatform && pl.key != "other" ==>
      r.step == Photo && r.usernamePlatform == Some(pl.key)
      && r.usernamePlatformLabel == Some(pl.display)
    ensures r == p.(usernamePlatform := r.usernamePlatform,
                    usernamePlatformLabel := r.usernamePlatformLabel, step := r.step)
  {
    if p.step != UsernamePlatform then p
    else if pl.key == "other" then p.(step := CustomPlatform)
    else p.(usernamePlatform := Some(pl.key), usernamePlatformLabel := Some(pl.display), step := Photo)
  }

  /** `set_edit_username_source_<key>`: the same choice while editing, returning
      to the hub. */
  function OnEditPlatform(p: Profile, pl: Platform): (r: Profile)
    ensures p.step != EditUsernamePlatform ==> r == p
    ensures p.step == EditUsernamePlatform && pl.key == "other" ==> r == p.(step := EditCustomPlatform)
    ensures p.step == EditUsernamePlatform && pl.key != "other" ==>
      r.step == Editing && r.usernamePlatform == Some(pl.key)
      && r.usernamePlatformLabel == Some(pl.display)
    ensures r == p.(usernamePlatform := r.usernamePlatform,
                    usernamePlatformLabel := r.usernamePlatformLabel, step := r.step)
  {
    if p.step != EditUsernamePlatform then p
    else if pl.key == "other" then p.(step := EditCustomPlatform)
    else p.(usernamePlatform := Some(pl.key), usernamePlatformLabel := Some(pl.display), step := Editing)
  }

  /** The buttons of the edit menu. */
  datatype EditChoice =
    | ChooseName | ChooseGender | ChooseAge | ChooseHobbies | ChooseBio | ChoosePhoto
    | ChooseUserPlatform | ChooseLocation

  function EditStepOf(c: EditChoice): Step {
    match c
    case ChooseName => EditName
    case ChooseGender => EditGender
    case ChooseAge => EditAge
    case ChooseHobbies => EditHobbies
    case ChooseBio => EditBio
    case ChoosePhoto => EditPhoto
    case ChooseUserPlatform => EditUsername
    case ChooseLocation => EditLocation
  }

  /** `edit_<field>`: enters that field's edit sub-state from whatever step the
      user is in; the handler has no guard. */
  function OnStartEdit(p: Profile, c: EditChoice): (r: Profile)
    ensures r.step == EditStepOf(c) && CanFollow(Editing, r.step)
    ensures r == p.(step := r.step)
  {
    p.(step := EditStepOf(c))
  }

  /** `set_edit_gender_<g>`: only in `EDIT_GENDER`. */
  function OnEditGender(p: Profile, g: string): (r: Profile)
    ensures p.step != EditGender ==> r == p
    ensures p.step == EditGender ==> r.step == Editing && r.gender == Some(g)
    ensures r == p.(gender := r.gender, step := r.step)
  {
    if p.step != EditGender then p else p.(gender := Some(g), step := Editing)
  }

  /** `edit_done` and `edit_cancel`: back to `DONE` from any step, keeping every
      field as it is. */
  function OnFinishEditing(p: Profile): (r: Profile)
    ensures r.step == Done && CanFollow(Editing, r.step)
    ensures r == p.(step := r.step)
  {
    p.(step := Done)
  }

  /** `set_edit_location_<loc>`: only in `EDIT_LOCATION`. */
  function OnEditLocation(p: Profile, loc: string): (r: Profile)
    ensures p.step != EditLocation ==> r == p
    ensures p.step == EditLocation ==> r.step == Editing && r.location == Some(loc)
    ensures r == p.(location := r.location, step := r.step)
  {
    if p.step != EditLocation then p else p.(location := Some(loc), step := Editing)
  }

  /** `set_edit_location_other`: only in `EDIT_LOCATION`. */
  function OnEditLocationOther(p: Profile): (r: Profile)
    ensures p.step != EditLocation ==> r == p
    ensures p.step == EditLocation ==> r.step == EditLocationTyped
    ensures r == p.(step := r.step)
  {
    if p.step != EditLocation then p else p.(step := EditLocationTyped)
  }

  /** A photo message with its size variants (`file_id`s, smallest first). None
      changes nothing; otherwise the last, largest one is stored and the user goes
      to `EDITING` from `EDIT_PHOTO` and to `DONE` from every other step. */
  function OnPhoto(p: Profile, fileIds: seq<string>): (r: Profile)
    ensures fileIds == [] ==> r == p
    ensures fileIds != [] ==>
      r.photo == Some(fileIds[|fileIds| - 1])
      && r.step == (if p.step == EditPhoto then Editing else Done)
    ensures r == p.(photo := r.photo, step := r.step)
  {
    if fileIds == [] then p
    else
      var q := p.(photo := Some(fileIds[|fileIds| - 1]));
      if p.step == EditPhoto then q.(step := Editing) else q.(step := Done)
  }

  /** "See Matches": only in `DONE`; asks where the date should be from. */
  function OnSeeMatches(p: Profile): (r: Profile)
    ensures p.step != Done ==> r == p
    ensures p.step == Done ==> r.matchStep == MatchLocation
    ensures r == p.(matchStep := r.matchStep)
  {
    if p.step != Done then p else p.(matchStep := MatchLocation)
  }

  /** "Edit Profile": only in `DONE`; opens the edit hub. */
  function OnEditProfile(p: Profile): (r: Profile)
    ensures p.step != Done ==> r == p
    ensures p.step == Done ==> r.step == Editing && CanFollow(p.step, r.step)
    ensures r == p.(step := r.step)
  {
    if p.step != Done then p else p.(step := Editing)
  }

  /** `match_location_<loc>`: only while a match location is being asked for;
      records it and ends the match sub-flow (whatever `step` is). */
  function OnMatchLocation(p: Profile, loc: string): (r: Profile)
    ensures p.matchStep != MatchLocation ==> r == p
    ensures p.matchStep == MatchLocation ==> r.matchStep == Idle && r.matchLocation == Some(loc)
    ensures r == p.(matchLocation := r.matchLocation, matchStep := r.matchStep)
  {
    if p.matchStep != MatchLocation then p else p.(matchLocation := Some(loc), matchStep := Idle)
  }

  /** `match_location_other`: the match location will be typed. */
  function OnMatchLocationOther(p: Profile): (r: Profile)
    ensures p.matchStep != MatchLocation ==> r == p
    ensures p.matchStep == MatchLocation ==> r.matchStep == MatchLocationTyped
    ensures r == p.(matchStep := r.matchStep)
  {
    if p.matchStep != MatchLocation then p else p.(matchStep := MatchLocationTyped)
  }

  /** The inbound events that reach a user's own record. */
  datatype Event =
    | SignUpPressed
    | TextSent(m: Reading, native: Option<string>)
    | GenderPicked(g: string)
    | AgeVisibilityPicked(visible: bool)
    | LocationPicked(loc: string)
    | LocationOtherPicked
    | HobbyToggled(raw: string)
    | HobbyOtherPicked
    | HobbiesDonePicked
    | PlatformPicked(pl: Platform)
    | EditPlatformPicked(pl: Platform)
    | EditChosen(choice: EditChoice)
    | EditGenderPicked(g: string)
    | EditDonePicked
    | EditCancelPicked
    | EditLocationPicked(loc: string)
    | EditLocationOtherPicked
    | PhotoSent(fileIds: seq<string>)
    | SeeMatchesPressed
    | EditProfilePressed
    | MatchLocationPicked(loc: string)
    | MatchLocationOtherPicked

  /** The record after event `e` (`begin_signup` replaces it with a fresh one). */
  function Apply(p: Profile, e: Event): Profile {
    match e
    case SignUpPressed => NewProfile(p.id)
    case TextSent(m, native) => OnText(p, m, native)
    case GenderPicked(g) => OnGender(p, g)
    case AgeVisibilityPicked(v) => OnAgeVisibility(p, v)
    case LocationPicked(loc) => OnLocation(p, loc)
    case LocationOtherPicked => OnLocationOther(p)
    case HobbyToggled(raw) => OnToggleHobby(p, raw)
    case HobbyOtherPicked => OnHobbyOther(p)
    case HobbiesDonePicked => OnHobbiesDone(p)
    case PlatformPicked(pl) => OnPlatform(p, pl)
    case EditPlatformPicked(pl) => OnEditPlatform(p, pl)
    case EditChosen(c) => OnStartEdit(p, c)
    case EditGenderPicked(g) => OnEditGender(p, g)
    case EditDonePicked => OnFinishEditing(p)
    case EditCancelPicked => OnFinishEditing(p)
    case EditLocationPicked(loc) => OnEditLocation(p, loc)
    case EditLocationOtherPicked => OnEditLocationOther(p)
    case PhotoSent(ids) => OnPhoto(p, ids)
    case SeeMatchesPressed => OnSeeMatches(p)
    case EditProfilePressed => OnEditProfile(p)
    case MatchLocationPicked(loc) => OnMatchLocation(p, loc)
    case MatchLocationOtherPicked => OnMatchLocationOther(p)
  }

  /** The record after a sequence of events, oldest first. */
  function Run(p: Profile, es: seq<Event>): Profile
    decreases |es|
  {
    if es == [] then p else Run(Apply(p, es[0]), es[1..])
  }
}
