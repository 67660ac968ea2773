/** What the handlers promise together: the hobby cap, refusal of invalid text,
    moves along the flow graph, what an edit may touch, and the invariant that a
    user who reaches `DONE` the intended way holds a complete profile. */
module FlowProperties {
  import opened Wrappers
  import opened Validation
  import opened Profiles
  import opened Flow

  // ---------------------------------------------------------------------------
  // The hobby cap

  predicate HobbyCap(p: Profile) {
    |p.hobbies| <= MaxHobbies
  }

  /** No event takes a record past five hobbies. */
  lemma ApplyKeepsHobbyCap(p: Profile, e: Event)
    requires HobbyCap(p)
    ensures HobbyCap(Apply(p, e))
  {
    match e
    case HobbyToggled(raw) =>
      assert |Apply(p, e).hobbies| <= |p.hobbies| || |p.hobbies| < MaxHobbies;
    case _ =>
  }

  lemma {:induction false} RunKeepsHobbyCap(p: Profile, es: seq<Event>)
    requires HobbyCap(p)
    ensures HobbyCap(Run(p, es))
    decreases |es|
  {
    if es != [] {
      ApplyKeepsHobbyCap(p, es[0]);
      RunKeepsHobbyCap(Apply(p, es[0]), es[1..]);
    }
  }

  // ---------------------------------------------------------------------------
  // Text that fails validation

  /** Text that is not a valid answer changes nothing, at any step. */
  lemma InvalidTextChangesNothing(p: Profile, m: Reading, native: Option<string>)
    requires WellRead(m) && !m.valid
    ensures OnText(p, m, native) == p
  {
    if p.matchStep == MatchLocationTyped {
    } else if IsOnboardingTextStep(p.step) {
      assert OnText(p, m, native) == OnboardingText(p, m, native);
      InvalidOnboardingTextChangesNothing(p, m, native);
    } else if IsEditTextStep(p.step) {
      assert OnText(p, m, native) == EditText(p, m);
      InvalidEditTextChangesNothing(p, m);
    }
  }

  /** The onboarding half of `InvalidTextChangesNothing`. */
  lemma InvalidOnboardingTextChangesNothing(p: Profile, m: Reading, native: Option<string>)
    requires WellRead(m) && !m.valid && IsOnboardingTextStep(p.step)
    ensures OnboardingText(p, m, native) == p
  {
    assert !ValidAge(m.number);
    if p.step == HobbyTyped {
      assert OnboardingText(p, m, native) == TypedHobby(p, m, Hobbies);
    }
  }

  /** The edit half of `InvalidTextChangesNothing`. */
  lemma InvalidEditTextChangesNothing(p: Profile, m: Reading)
    requires WellRead(m) && !m.valid && IsEditTextStep(p.step)
    ensures EditText(p, m) == p
  {
    assert !ValidAge(m.number);
    if p.step == EditHobbyTyped {
      assert EditText(p, m) == TypedHobby(p, m, EditHobbies);
    }
  }

  /** The same for a raw message: whatever does not trim to at least two UTF-16
      units is refused. */
  lemma InvalidMessageChangesNothing(p: Profile, text: string, native: Option<string>)
    requires !ValidString(text)
    ensures OnText(p, Read(text), native) == p
  {
    ReadIsWellRead(text);
    InvalidTextChangesNothing(p, Read(text), native);
  }

  /** An age outside 16..45, or text that does not start with a number, is refused
      at the age steps. */
  lemma InvalidAgeChangesNothing(p: Profile, m: Reading, native: Option<string>)
    requires p.step == Age || p.step == EditAge
    requires p.matchStep != MatchLocationTyped && !ValidAge(m.number)
    ensures OnText(p, m, native) == p
  {
  }

  /** A valid answer at the name step is stored trimmed and the flow moves on. */
  lemma NameIsStoredTrimmed(p: Profile, text: string, native: Option<string>)
    requires p.step == Name && p.matchStep != MatchLocationTyped && ValidString(text)
    ensures OnText(p, Read(text), native)
         == p.(name := Some(Trim(text)), step := Gender)
  {
  }

  /** A valid age is stored as the integer prefix the text starts with. */
  lemma AgeIsStoredParsed(p: Profile, text: string, native: Option<string>)
    requires p.step == Age && p.matchStep != MatchLocationTyped && ValidAge(ParseInt(text))
    ensures OnText(p, Read(text), native)
         == p.(age := ParseInt(text), step := AgePrivacy)
  {
  }

  /** A typed city is stored trimmed and the hobby keyboard follows. */
  lemma LocationIsStoredTrimmed(p: Profile, text: string, native: Option<string>)
    requires p.step == LocationTyped && p.matchStep != MatchLocationTyped && ValidString(text)
    ensures OnText(p, Read(text), native)
         == p.(location := Some(Trim(text)), step := Hobbies)
  {
    assert OnText(p, Read(text), native) == OnboardingText(p, Read(text), native);
  }

  /** A valid bio from a user with a Telegram username: the bio is stored and that
      username becomes the contact, on Telegram; the photo is asked for next. */
  lemma BioWithTelegramUsername(p: Profile, text: string, native: Option<string>)
    requires p.step == Bio && p.matchStep != MatchLocationTyped && ValidString(text)
    requires Truthy(native)
    ensures OnText(p, Read(text), native)
         == p.(bio := Some(Trim(text)), username := native, usernamePlatform := Some("telegram"),
               usernamePlatformLabel := Some("Telegram"), step := Photo)
  {
    assert OnText(p, Read(text), native) == OnboardingText(p, Read(text), native);
  }

  /** A valid bio from a user without a Telegram username: the bio is stored and
      a contact handle is asked for. */
  lemma BioWithoutTelegramUsername(p: Profile, text: string, native: Option<string>)
    requires p.step == Bio && p.matchStep != MatchLocationTyped && ValidString(text)
    requires !Truthy(native)
    ensures OnText(p, Read(text), native)
         == p.(bio := Some(Trim(text)), step := CustomUsername)
  {
    assert OnText(p, Read(text), native) == OnboardingText(p, Read(text), native);
  }

  /** A typed contact handle is stored and the platform keyboard follows. */
  lemma CustomUsernameIsStored(p: Profile, text: string, native: Option<string>)
    requires p.step == CustomUsername && p.matchStep != MatchLocationTyped && ValidString(text)
    ensures OnText(p, Read(text), native)
         == p.(customUsername := Some(Trim(text)), step := UsernamePlatform)
  {
    assert OnText(p, Read(text), native) == OnboardingText(p, Read(text), native);
  }

  /** A typed platform is both the key and the label, and the photo follows. */
  lemma CustomPlatformIsStored(p: Profile, text: string, native: Option<string>)
    requires p.step == CustomPlatform && p.matchStep != MatchLocationTyped && ValidString(text)
    ensures OnText(p, Read(text), native)
         == p.(usernamePlatform := Some(Trim(text)), usernamePlatformLabel := Some(Trim(text)),
               step := Photo)
  {
    assert OnText(p, Read(text), native) == OnboardingText(p, Read(text), native);
  }

  /** A valid name edit is stored trimmed and the edit hub follows. */
  lemma NameEditIsStored(p: Profile, text: string, native: Option<string>)
    requires p.step == EditName && p.matchStep != MatchLocationTyped && ValidString(text)
    ensures OnText(p, Read(text), native) == p.(name := Some(Trim(text)), step := Editing)
  {
  }

  /** A valid bio edit is stored trimmed and the edit hub follows. */
  lemma BioEditIsStored(p: Profile, text: string, native: Option<string>)
    requires p.step == EditBio && p.matchStep != MatchLocationTyped && ValidString(text)
    ensures OnText(p, Read(text), native) == p.(bio := Some(Trim(text)), step := Editing)
  {
  }

  /** A valid typed city, while editing, is stored trimmed and the edit hub follows. */
  lemma LocationEditIsStored(p: Profile, text: string, native: Option<string>)
    requires p.step == EditLocationTyped && p.matchStep != MatchLocationTyped && ValidString(text)
    ensures OnText(p, Read(text), native) == p.(location := Some(Trim(text)), step := Editing)
  {
  }

  /** A valid age edit stores the parsed age and the edit hub follows. */
  lemma AgeEditIsStored(p: Profile, text: string, native: Option<string>)
    requires p.step == EditAge && p.matchStep != MatchLocationTyped && ValidAge(ParseInt(text))
    ensures OnText(p, Read(text), native) == p.(age := ParseInt(text), step := Editing)
  {
  }

  /** Whether a text step accepts a reading: a valid age at the two age steps,
      valid text at the others. */
  predicate Accepts(s: Step, m: Reading) {
    if s == Age || s == EditAge then ValidAge(m.number) else m.valid
  }

  /** A typed onboarding answer moves the step exactly when it is accepted. */
  lemma OnboardingStepMovesExactlyWhenAccepted(p: Profile, m: Reading, native: Option<string>)
    requires IsOnboardingTextStep(p.step)
    ensures OnboardingText(p, m, native).step != p.step <==> Accepts(p.step, m)
  {
    if p.step == HobbyTyped {
      assert OnboardingText(p, m, native) == TypedHobby(p, m, Hobbies);
    }
  }

  /** A typed edit moves the step exactly when it is accepted. */
  lemma EditStepMovesExactlyWhenAccepted(p: Profile, m: Reading)
    requires IsEditTextStep(p.step)
    ensures EditText(p, m).step != p.step <==> Accepts(p.step, m)
  {
    if p.step == EditHobbyTyped {
      assert EditText(p, m) == TypedHobby(p, m, EditHobbies);
    }
  }

  /** At every text step (no match location being typed), the step moves on
      exactly when the answer is accepted, and then along an edge of the flow graph. */
  lemma AnswerMovesStepExactlyWhenAccepted(p: Profile, m: Reading, native: Option<string>)
    requires p.matchStep != MatchLocationTyped
    requires IsOnboardingTextStep(p.step) || IsEditTextStep(p.step)
    ensures OnText(p, m, native).step != p.step <==> Accepts(p.step, m)
    ensures OnText(p, m, native).step != p.step ==> CanFollow(p.step, OnText(p, m, native).step)
  {
    if IsOnboardingTextStep(p.step) {
      assert OnText(p, m, native) == OnboardingText(p, m, native);
      OnboardingStepMovesExactlyWhenAccepted(p, m, native);
    } else {
      assert OnText(p, m, native) == EditText(p, m);
      EditStepMovesExactlyWhenAccepted(p, m);
    }
  }

  /** A typed match location takes precedence over the profile step, and leaves
      the profile itself alone. */
  lemma TypedMatchLocationFirst(p: Profile, m: Reading, native: Option<string>)
    requires p.matchStep == MatchLocationTyped && m.valid
    ensures OnText(p, m, native) == p.(matchLocation := Some(m.trimmed), matchStep := Idle)
  {
  }

  // ---------------------------------------------------------------------------
  // Buttons pressed at the wrong step

  /** Every step-specific button is ignored away from its step. */
  lemma ButtonsIgnoredAtWrongStep(p: Profile, g: string, v: bool, loc: string,
                                  raw: string, pl: Platform)
    ensures p.step != Gender ==> OnGender(p, g) == p
    ensures p.step != AgePrivacy ==> OnAgeVisibility(p, v) == p
    ensures p.step != Location ==> OnLocation(p, loc) == p && OnLocationOther(p) == p
    ensures !OnHobbyKeyboard(p.step) ==>
      OnToggleHobby(p, raw) == p && OnHobbyOther(p) == p && OnHobbiesDone(p) == p
    ensures p.step != UsernamePlatform ==> OnPlatform(p, pl) == p
    ensures p.step != EditUsernamePlatform ==> OnEditPlatform(p, pl) == p
    ensures p.step != EditGender ==> OnEditGender(p, g) == p
    ensures p.step != EditLocation ==> OnEditLocation(p, loc) == p && OnEditLocationOther(p) == p
    ensures p.step != Done ==> OnSeeMatches(p) == p && OnEditProfile(p) == p
    ensures p.matchStep != MatchLocation ==>
      OnMatchLocation(p, loc) == p && OnMatchLocationOther(p) == p
  {
  }

  // ---------------------------------------------------------------------------
  // Hobby toggling

  lemma {:induction false} RemoveAllOfAppended(hs: seq<string>, h: string)
    requires h !in hs
    ensures RemoveAll(hs + [h], h) == hs
    decreases |hs|
  {
    if hs == [] {
      assert [] + [h] == [h];
    } else {
      assert (hs + [h])[0] == hs[0];
      assert (hs + [h])[1..] == hs[1..] + [h];
      RemoveAllOfAppended(hs[1..], h);
      assert [hs[0]] + hs[1..] == hs;
    }
  }

  /** Toggling a hobby that was not chosen, below the cap, and toggling it again
      restores the record. */
  lemma ToggleTwiceRestores(p: Profile, raw: string)
    requires OnHobbyKeyboard(p.step) && HobbyFromData(raw) !in p.hobbies
    requires |p.hobbies| < MaxHobbies
    ensures OnToggleHobby(OnToggleHobby(p, raw), raw) == p
  {
    var h := HobbyFromData(raw);
    var q := OnToggleHobby(p, raw);
    assert q == p.(hobbies := p.hobbies + [h]);
    assert h in q.hobbies;
    RemoveAllOfAppended(p.hobbies, h);
  }

  /** Only the toggle removes, so a typed hobby can repeat one already chosen. */
  lemma TypedHobbyMayRepeat(p: Profile, m: Reading, native: Option<string>)
    requires p.step == HobbyTyped && p.matchStep != MatchLocationTyped
    requires m.valid && p.hobbies == [m.trimmed]
    ensures OnText(p, m, native).hobbies == [m.trimmed, m.trimmed]
  {
  }

  // ---------------------------------------------------------------------------
  // The intended path and the completeness invariant

  /** A field holds a valid typed answer. */
  predicate Filled(o: Option<string>) {
    o.Some? && ValidString(o.value)
  }

  /** A contact handle the reveal can show: a typed username or a Telegram one. */
  predicate HasContact(p: Profile) {
    Truthy(p.customUsername) || Truthy(p.username)
  }

  /** The first `k` onboarding answers are held, in onboarding order. */
  predicate Answered(p: Profile, k: nat) {
    (k >= 1 ==> Filled(p.name))
    && (k >= 2 ==> p.gender.Some?)
    && (k >= 3 ==> ValidAge(p.age))
    && (k >= 4 ==> p.ageVisible.Some?)
    && (k >= 5 ==> p.location.Some?)
    && (k >= 6 ==> p.hobbies != [])
    && (k >= 7 ==> Filled(p.bio))
    && (k >= 8 ==> HasContact(p) && p.usernamePlatformLabel.Some?)
    && (k >= 9 ==> p.photo.Some?)
  }

  /** Every answer except a non-empty hobby list: what holds while hobbies are
      being edited. */
  predicate AnsweredButHobbies(p: Profile) {
    Answered(p, 5) && Filled(p.bio) && HasContact(p) && p.usernamePlatformLabel.Some?
    && p.photo.Some?
  }

  /** What the design promises of a finished profile. */
  predicate ProfileComplete(p: Profile) {
    Answered(p, 9) && HobbyCap(p)
  }

  /** At each step, the answers the steps before it have collected. */
  predicate FlowInvariant(p: Profile) {
    HobbyCap(p) &&
    match p.step
    case Name => true
    case Gender => Answered(p, 1)
    case Age => Answered(p, 2)
    case AgePrivacy => Answered(p, 3)
    case Location => Answered(p, 4)
    case LocationTyped => Answered(p, 4)
    case Hobbies => Answered(p, 5)
    case HobbyTyped => Answered(p, 5)
    case Bio => Answered(p, 6)
    case CustomUsername => Answered(p, 7)
    case UsernamePlatform => Answered(p, 7) && Truthy(p.customUsername)
    case CustomPlatform => Answered(p, 7) && Truthy(p.customUsername)
    case Photo => Answered(p, 8)
    case EditHobbies => AnsweredButHobbies(p)
    case EditHobbyTyped => AnsweredButHobbies(p)
    case _ => Answered(p, 9)
  }

  /** The events the keyboards offer at the user's step: the edit menu's buttons
      only in `EDITING`, a photo only when one is asked for, and text as read from
      a real message. The handlers themselves do not check these. */
  predicate OnGuardedPath(p: Profile, e: Event) {
    match e
    case TextSent(m, _) => WellRead(m)
    case EditChosen(_) => p.step == Editing
    case EditDonePicked => p.step == Editing
    case EditCancelPicked => p.step == Editing
    case PhotoSent(_) => p.step == Photo || p.step == EditPhoto
    case _ => true
  }

  predicate GuardedRun(p: Profile, es: seq<Event>)
    decreases |es|
  {
    es == [] || (OnGuardedPath(p, es[0]) && GuardedRun(Apply(p, es[0]), es[1..]))
  }

  lemma EarlyTextKeepsInvariant(p: Profile, m: Reading, native: Option<string>)
    requires FlowInvariant(p) && WellRead(m)
    requires p.step == Name || p.step == Age || p.step == LocationTyped || p.step == HobbyTyped
    ensures FlowInvariant(OnboardingText(p, m, native))
  {
  }

  lemma ContactTextKeepsInvariant(p: Profile, m: Reading, native: Option<string>)
    requires FlowInvariant(p) && WellRead(m)
    requires p.step == Bio || p.step == CustomUsername || p.step == CustomPlatform
    ensures FlowInvariant(OnboardingText(p, m, native))
  {
    if p.step == Bio {
      BioTextKeepsInvariant(p, m, native);
    } else {
      UsernameTextKeepsInvariant(p, m, native);
    }
  }

  lemma BioTextKeepsInvariant(p: Profile, m: Reading, native: Option<string>)
    requires FlowInvariant(p) && WellRead(m) && p.step == Bio
    ensures FlowInvariant(OnboardingText(p, m, native))
  {
    var r := OnboardingText(p, m, native);
    if m.valid {
      assert Filled(r.bio);
      if Truthy(native) {
        assert r.step == Photo && HasContact(r);
      } else {
        assert r.step == CustomUsername;
      }
    }
  }

  lemma UsernameTextKeepsInvariant(p: Profile, m: Reading, native: Option<string>)
    requires FlowInvariant(p) && WellRead(m)
    requires p.step == CustomUsername || p.step == CustomPlatform
    ensures FlowInvariant(OnboardingText(p, m, native))
  {
  }

  lemma OnboardingTextKeepsInvariant(p: Profile, m: Reading, native: Option<string>)
    requires FlowInvariant(p) && WellRead(m) && IsOnboardingTextStep(p.step)
    ensures FlowInvariant(OnboardingText(p, m, native))
  {
    if p.step == Name || p.step == Age || p.step == LocationTyped || p.step == HobbyTyped {
      EarlyTextKeepsInvariant(p, m, native);
    } else {
      ContactTextKeepsInvariant(p, m, native);
    }
  }

  lemma EditTextKeepsInvariant(p: Profile, m: Reading)
    requires FlowInvariant(p) && WellRead(m) && IsEditTextStep(p.step)
    ensures FlowInvariant(EditText(p, m))
  {
  }

  lemma TextKeepsInvariant(p: Profile, m: Reading, native: Option<string>)
    requires FlowInvariant(p) && WellRead(m)
    ensures FlowInvariant(OnText(p, m, native))
  {
    if p.matchStep == MatchLocationTyped {
    } else if IsOnboardingTextStep(p.step) {
      OnboardingTextKeepsInvariant(p, m, native);
    } else if IsEditTextStep(p.step) {
      EditTextKeepsInvariant(p, m);
    }
  }

  lemma HobbyButtonsKeepInvariant(p: Profile, e: Event)
    requires FlowInvariant(p)
    requires e.HobbyToggled? || e == HobbyOtherPicked || e == HobbiesDonePicked
    ensures FlowInvariant(Apply(p, e))
  {
    if e.HobbyToggled? {
      ToggleKeepsInvariant(p, e.raw);
    } else {
      HobbyDoneOrOtherKeepsInvariant(p);
    }
  }

  lemma ToggleKeepsInvariant(p: Profile, raw: string)
    requires FlowInvariant(p)
    ensures FlowInvariant(OnToggleHobby(p, raw))
  {
  }

  lemma HobbyDoneOrOtherKeepsInvariant(p: Profile)
    requires FlowInvariant(p)
    ensures FlowInvariant(OnHobbyOther(p)) && FlowInvariant(OnHobbiesDone(p))
  {
  }

  lemma OnboardingButtonsKeepInvariant(p: Profile, e: Event)
    requires FlowInvariant(p)
    requires e.GenderPicked? || e.AgeVisibilityPicked? || e.LocationPicked?
             || e == LocationOtherPicked || e.PlatformPicked?
    ensures FlowInvariant(Apply(p, e))
  {
  }

  /** Entering an edit sub-state from the hub changes only the step. */
  lemma StartEditKeepsInvariant(p: Profile, c: EditChoice)
    requires FlowInvariant(p) && p.step == Editing
    ensures FlowInvariant(OnStartEdit(p, c))
  {
    var r := OnStartEdit(p, c);
    assert Answered(p, 9);
    assert Answered(r, 9) by { assert r == p.(step := r.step); }
  }

  lemma EditMenuKeepsInvariant(p: Profile, e: Event)
    requires FlowInvariant(p) && OnGuardedPath(p, e)
    requires e.EditChosen? || e == EditDonePicked || e == EditCancelPicked
    ensures FlowInvariant(Apply(p, e))
  {
    if e.EditChosen? {
      StartEditKeepsInvariant(p, e.choice);
    } else {
      assert Answered(p, 9);
    }
  }

  lemma EditChoiceButtonsKeepInvariant(p: Profile, g: string, loc: string)
    requires FlowInvariant(p)
    ensures FlowInvariant(OnEditGender(p, g))
    ensures FlowInvariant(OnEditLocation(p, loc)) && FlowInvariant(OnEditLocationOther(p))
  {
  }

  lemma EditPlatformKeepsInvariant(p: Profile, pl: Platform)
    requires FlowInvariant(p)
    ensures FlowInvariant(OnEditPlatform(p, pl))
  {
  }

  lemma EditButtonsKeepInvariant(p: Profile, e: Event)
    requires FlowInvariant(p)
    requires e.EditGenderPicked? || e.EditLocationPicked? || e == EditLocationOtherPicked
             || e.EditPlatformPicked?
    ensures FlowInvariant(Apply(p, e))
  {
    if e.EditPlatformPicked? {
      EditPlatformKeepsInvariant(p, e.pl);
    } else {
      EditChoiceButtonsKeepInvariant(p, if e.EditGenderPicked? then e.g else "",
                                     if e.EditLocationPicked? then e.loc else "");
    }
  }

  lemma PhotoKeepsInvariant(p: Profile, e: Event)
    requires FlowInvariant(p) && OnGuardedPath(p, e)
    requires e.SignUpPressed? || e.PhotoSent?
    ensures FlowInvariant(Apply(p, e))
  {
  }

  lemma MenuEventsKeepInvariant(p: Profile, e: Event)
    requires FlowInvariant(p)
    requires e == SeeMatchesPressed || e == EditProfilePressed
             || e.MatchLocationPicked? || e == MatchLocationOtherPicked
    ensures FlowInvariant(Apply(p, e))
  {
    var r := Apply(p, e);
    if e == EditProfilePressed {
      assert r == p || r == p.(step := Editing);
    } else {
      MatchFieldsAloneKeepInvariant(p, r.matchLocation, r.matchStep);
      assert r == p.(matchLocation := r.matchLocation, matchStep := r.matchStep);
    }
  }

  /** The match sub-flow's fields play no part in the invariant. */
  lemma MatchFieldsAloneKeepInvariant(p: Profile, loc: Option<string>, ms: MatchStep)
    requires FlowInvariant(p)
    ensures FlowInvariant(p.(matchLocation := loc, matchStep := ms))
  {
    var r := p.(matchLocation := loc, matchStep := ms);
    assert r.step == p.step && r.hobbies == p.hobbies;
    assert Answered(r, 9) == Answered(p, 9);
  }

  lemma ApplyKeepsFlowInvariant(p: Profile, e: Event)
    requires FlowInvariant(p) && OnGuardedPath(p, e)
    ensures FlowInvariant(Apply(p, e))
  {
    if e.TextSent? {
      TextKeepsInvariant(p, e.m, e.native);
    } else if e.HobbyToggled? || e == HobbyOtherPicked || e == HobbiesDonePicked {
      HobbyButtonsKeepInvariant(p, e);
    } else if e.GenderPicked? || e.AgeVisibilityPicked? || e.LocationPicked?
              || e == LocationOtherPicked || e.PlatformPicked? {
      OnboardingButtonsKeepInvariant(p, e);
    } else if e.EditChosen? || e == EditDonePicked || e == EditCancelPicked {
      EditMenuKeepsInvariant(p, e);
    } else if e.EditGenderPicked? || e.EditLocationPicked? || e == EditLocationOtherPicked
              || e.EditPlatformPicked? {
      EditButtonsKeepInvariant(p, e);
    } else if e.SignUpPressed? || e.PhotoSent? {
      PhotoKeepsInvariant(p, e);
    } else {
      MenuEventsKeepInvariant(p, e);
    }
  }

  lemma {:induction false} GuardedRunKeepsFlowInvariant(p: Profile, es: seq<Event>)
    requires FlowInvariant(p) && GuardedRun(p, es)
    ensures FlowInvariant(Run(p, es))
    decreases |es|
  {
    if es != [] {
      ApplyKeepsFlowInvariant(p, es[0]);
      GuardedRunKeepsFlowInvariant(Apply(p, es[0]), es[1..]);
    }
  }

  /** Whoever signs up and keeps to the offered keyboards holds a complete
      profile whenever the record says `DONE`. */
  lemma GuardedSignupCompletes(id: int, es: seq<Event>)
    requires GuardedRun(NewProfile(id), es) && Run(NewProfile(id), es).step == Done
    ensures ProfileComplete(Run(NewProfile(id), es))
  {
    GuardedRunKeepsFlowInvariant(NewProfile(id), es);
  }

  // ---------------------------------------------------------------------------
  // Moves along the flow graph

  /** On the intended path every event other than sign-up either keeps the step
      or follows an edge of the flow graph. */
  lemma GuardedMovesFollowFlow(p: Profile, e: Event)
    requires OnGuardedPath(p, e) && !e.SignUpPressed?
    ensures Apply(p, e).step == p.step || CanFollow(p.step, Apply(p, e).step)
  {
    if e.EditChosen? {
      assert Apply(p, e).step == EditStepOf(e.choice);
    }
  }

  /** The handlers without a step guard leave the graph: a photo, an edit button
      or "done" pressed on an old keyboard jumps straight out of onboarding, and a
      photo alone marks a fresh record `DONE` without any answer in it. */
  lemma UnguardedPhotoLeavesTheFlow(id: int, ids: seq<string>)
    requires ids != []
    ensures Apply(NewProfile(id), PhotoSent(ids)).step == Done && !CanFollow(Name, Done)
    ensures !ProfileComplete(Apply(NewProfile(id), PhotoSent(ids)))
  {
    var r := OnPhoto(NewProfile(id), ids);
    assert r.name == None;
  }

  /** The onboarding steps, `NAME` through `PHOTO`. */
  predicate IsOnboardingStep(s: Step) {
    s == Name || s == Gender || s == Age || s == AgePrivacy || s == Location
    || s == LocationTyped || s == Hobbies || s == HobbyTyped || s == Bio
    || s == CustomUsername || s == UsernamePlatform || s == CustomPlatform || s == Photo
  }

  /** From any onboarding step, an edit button enters its edit sub-state, which is
      no edge of the graph. */
  lemma UnguardedEditButtonsLeaveTheFlow(p: Profile, c: EditChoice)
    requires IsOnboardingStep(p.step)
    ensures Apply(p, EditChosen(c)).step == EditStepOf(c) && !CanFollow(p.step, EditStepOf(c))
  {
    assert !IsOnboardingStep(EditStepOf(c));
    OnboardingEdgesStayInOnboarding(p.step, EditStepOf(c));
  }

  /** From any onboarding step, "done" and "cancel" jump to `DONE`, which is an edge
      only from `PHOTO`, where the photo is still missing. */
  lemma UnguardedDoneLeavesTheFlow(p: Profile)
    requires IsOnboardingStep(p.step)
    ensures Apply(p, EditDonePicked).step == Done && Apply(p, EditCancelPicked).step == Done
    ensures CanFollow(p.step, Done) ==> p.step == Photo
  {
    OnboardingEdgesStayInOnboarding(p.step, Done);
  }

  /** Every edge out of an onboarding step leads to another onboarding step, except
      the last one, from `PHOTO` to `DONE`. */
  lemma OnboardingEdgesStayInOnboarding(s: Step, t: Step)
    requires IsOnboardingStep(s)
    ensures CanFollow(s, t) ==> IsOnboardingStep(t) || (s == Photo && t == Done)
  {
  }

  // ---------------------------------------------------------------------------
  // What an edit may touch

  predicate IsEditSubstate(s: Step) {
    s == EditName || s == EditGender || s == EditAge || s == EditHobbies
    || s == EditHobbyTyped || s == EditBio || s == EditPhoto || s == EditUsername
    || s == EditUsernamePlatform || s == EditCustomPlatform || s == EditLocation
    || s == EditLocationTyped
  }

  /** `q` differs from `p` at most in the step, the match sub-flow and the field
      that the edit sub-state `s` is about. */
  predicate TouchesOnly(p: Profile, q: Profile, s: Step) {
    var b := p.(step := q.step, matchStep := q.matchStep, matchLocation := q.matchLocation);
    match s
    case EditName => q == b.(name := q.name)
    case EditGender => q == b.(gender := q.gender)
    case EditAge => q == b.(age := q.age)
    case EditHobbies => q == b.(hobbies := q.hobbies)
    case EditHobbyTyped => q == b.(hobbies := q.hobbies)
    case EditBio => q == b.(bio := q.bio)
    case EditPhoto => q == b.(photo := q.photo)
    case EditUsername => q == b.(customUsername := q.customUsername)
    case EditUsernamePlatform =>
      q == b.(usernamePlatform := q.usernamePlatform, usernamePlatformLabel := q.usernamePlatformLabel)
    case EditCustomPlatform =>
      q == b.(usernamePlatform := q.usernamePlatform, usernamePlatformLabel := q.usernamePlatformLabel)
    case EditLocation => q == b.(location := q.location)
    case EditLocationTyped => q == b.(location := q.location)
    case _ => q == b
  }

  lemma EditTextTouchesOnlyItsField(p: Profile, m: Reading, native: Option<string>)
    requires IsEditSubstate(p.step)
    ensures TouchesOnly(p, OnText(p, m, native), p.step)
  {
    if p.matchStep != MatchLocationTyped && IsEditTextStep(p.step) {
      assert OnText(p, m, native) == EditText(p, m);
      if p.step == EditHobbyTyped {
        assert EditText(p, m) == TypedHobby(p, m, EditHobbies);
      }
    }
  }

  lemma EditButtonsTouchOnlyTheirField(p: Profile, e: Event)
    requires IsEditSubstate(p.step) && OnGuardedPath(p, e) && !e.SignUpPressed? && !e.TextSent?
    ensures TouchesOnly(p, Apply(p, e), p.step)
  {
  }

  /** In an edit sub-state, an event on the intended path changes nothing but that
      sub-state's own field (besides the step and the match sub-flow). */
  lemma EditTouchesOnlyItsField(p: Profile, e: Event)
    requires IsEditSubstate(p.step) && OnGuardedPath(p, e) && !e.SignUpPressed?
    ensures TouchesOnly(p, Apply(p, e), p.step)
  {
    if e.TextSent? {
      EditTextTouchesOnlyItsField(p, e.m, e.native);
    } else {
      EditButtonsTouchOnlyTheirField(p, e);
    }
  }

  lemma RunOfOne(p: Profile, a: Event)
    ensures Run(p, [a]) == Apply(p, a)
  {
    assert [a][1..] == [];
    assert Run(p, [a]) == Run(Apply(p, a), []);
  }

  lemma RunOfTwo(p: Profile, a: Event, b: Event)
    ensures Run(p, [a, b]) == Apply(Apply(p, a), b)
  {
    assert [a, b][1..] == [b];
    assert Run(p, [a, b]) == Run(Apply(p, a), [b]);
    RunOfOne(Apply(p, a), b);
  }

  lemma RunOfThree(p: Profile, a: Event, b: Event, c: Event)
    ensures Run(p, [a, b, c]) == Apply(Apply(Apply(p, a), b), c)
  {
    assert [a, b, c][1..] == [b, c];
    assert Run(p, [a, b, c]) == Run(Apply(p, a), [b, c]);
    RunOfTwo(Apply(p, a), b, c);
  }

  lemma UsernameTyped(p: Profile, m: Reading, native: Option<string>)
    requires p.step == EditUsername && p.matchStep != MatchLocationTyped && m.valid
    ensures OnText(p, m, native)
         == p.(customUsername := Some(m.trimmed), step := EditUsernamePlatform)
  {
    assert OnText(p, m, native) == EditText(p, m);
  }

  lemma PlatformTyped(p: Profile, m: Reading, native: Option<string>)
    requires p.step == EditCustomPlatform && p.matchStep != MatchLocationTyped && m.valid
    ensures OnText(p, m, native)
         == p.(usernamePlatform := Some(m.trimmed), usernamePlatformLabel := Some(m.trimmed),
               step := Editing)
  {
    assert OnText(p, m, native) == EditText(p, m);
  }

  /** Editing the username: the typed handle, then a listed platform, and back to
      the hub with exactly those three fields changed. */
  lemma UsernameEditWithListedPlatform(p: Profile, m: Reading, native: Option<string>,
                                       pl: Platform)
    requires p.step == EditUsername && p.matchStep != MatchLocationTyped
    requires m.valid && pl.key != "other"
    ensures Run(p, [TextSent(m, native), EditPlatformPicked(pl)])
         == p.(customUsername := Some(m.trimmed), usernamePlatform := Some(pl.key),
               usernamePlatformLabel := Some(pl.display), step := Editing)
  {
    RunOfTwo(p, TextSent(m, native), EditPlatformPicked(pl));
    UsernameTyped(p, m, native);
  }

  /** With "other", the platform is typed as a third answer and is its own label. */
  lemma UsernameEditWithTypedPlatform(p: Profile, m: Reading, native: Option<string>,
                                      pl: Platform, m2: Reading)
    requires p.step == EditUsername && p.matchStep != MatchLocationTyped
    requires m.valid && pl.key == "other" && m2.valid
    ensures Run(p, [TextSent(m, native), EditPlatformPicked(pl), TextSent(m2, native)])
         == p.(customUsername := Some(m.trimmed), usernamePlatform := Some(m2.trimmed),
               usernamePlatformLabel := Some(m2.trimmed), step := Editing)
  {
    RunOfThree(p, TextSent(m, native), EditPlatformPicked(pl), TextSent(m2, native));
    UsernameTyped(p, m, native);
    var q2 := p.(customUsername := Some(m.trimmed), step := EditCustomPlatform);
    assert Apply(Apply(p, TextSent(m, native)), EditPlatformPicked(pl)) == q2;
    PlatformTyped(q2, m2, native);
  }

  /** Pressing "Sign Up" again throws the whole record away, finished or not. */
  lemma SignUpRestarts(p: Profile)
    ensures Apply(p, SignUpPressed) == NewProfile(p.id)
    ensures Apply(p, SignUpPressed).step == Name && Apply(p, SignUpPressed).name == None
  {
  }
}
