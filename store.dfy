/** The in-memory table of profiles and one method per inbound handler. Each
    method follows its handler's guards and assignments on the sender's record and
    is proved to leave the table as the matching `Flow` function describes. */
module Store {
  import opened Wrappers
  import opened Validation
  import opened Profiles
  import opened Flow
  import opened FlowProperties
  import opened Matching

  /** `order` lists each key of the table exactly once: the order in which
      `Object.values` visits the records. */
  ghost predicate Enumerates(users: map<int, Profile>, order: seq<int>) {
    (forall k :: k in users ==> k in order)
    && (forall i :: 0 <= i < |order| ==> order[i] in users)
    && (forall i, j :: 0 <= i < j < |order| ==> order[i] != order[j])
  }

  /** What every reachable table satisfies: it is enumerated by `order`, and each
      record carries its own key as `id`, keeps to the hobby cap, and keeps its
      `previewMatches` well formed. */
  ghost predicate StoreInvariant(users: map<int, Profile>, order: seq<int>) {
    Enumerates(users, order)
    && (forall k :: k in users ==>
          users[k].id == k && HobbyCap(users[k]) && PreviewWellFormed(users[k]))
  }

  /** Replacing a record by one with the same id and bookkeeping, within the
      hobby cap, keeps the invariant. */
  lemma ReplaceKeepsInvariant(users: map<int, Profile>, order: seq<int>, from: int, q: Profile)
    requires StoreInvariant(users, order) && from in users
    requires q.id == from && q.previewMatches == users[from].previewMatches && HobbyCap(q)
    ensures StoreInvariant(users[from := q], order)
  {
  }

  /** The body of `toggle_hobby_<raw>` on the sender's record. */
  method ToggledRecord(user: Profile, raw: string) returns (u: Profile)
    ensures u == OnToggleHobby(user, raw)
  {
    u := user;
    var hobby := HobbyFromData(raw);
    if u.step != Hobbies && u.step != EditHobbies { return; }
    if hobby in u.hobbies {
      u := u.(hobbies := RemoveAll(u.hobbies, hobby));
    } else {
      if |u.hobbies| >= MaxHobbies { return; }
      u := u.(hobbies := u.hobbies + [hobby]);
    }
  }

  /** The profile-creation branches of the text handler on the sender's record. */
  method OnboardingAnswer(user: Profile, m: Reading, native: Option<string>) returns (u: Profile)
    requires IsOnboardingTextStep(user.step)
    ensures u == OnboardingText(user, m, native)
  {
    u := user;
    var t := m.trimmed;
    if u.step == Name {
      if !m.valid { return; }
      u := u.(name := Some(t));
      u := u.(step := Gender);
    } else if u.step == Age {
      var age := m.number;
      if !ValidAge(age) { return; }
      u := u.(age := age);
      u := u.(step := AgePrivacy);
    } else if u.step == LocationTyped {
      if !m.valid { return; }
      u := u.(location := Some(t));
      u := u.(step := Hobbies);
    } else if u.step == HobbyTyped {
      if !m.valid { return; }
      if |u.hobbies| >= MaxHobbies {
        u := u.(step := Hobbies);
        return;
      }
      u := u.(hobbies := u.hobbies + [t]);
      u := u.(step := Hobbies);
    } else if u.step == Bio {
      if !m.valid { return; }
      u := u.(bio := Some(t));
      if Truthy(native) {
        u := u.(username := native);
        u := u.(usernamePlatform := Some("telegram"));
        u := u.(usernamePlatformLabel := Some("Telegram"));
        u := u.(step := Photo);
      } else {
        u := u.(step := CustomUsername);
      }
    } else if u.step == CustomUsername {
      if !m.valid { return; }
      u := u.(customUsername := Some(t));
      u := u.(step := UsernamePlatform);
    } else {
      if !m.valid { return; }
      u := u.(usernamePlatform := Some(t));
      u := u.(usernamePlatformLabel := Some(t));
      u := u.(step := Photo);
    }
  }

  /** The edit branches of the text handler on the sender's record. */
  method EditAnswer(user: Profile, m: Reading) returns (u: Profile)
    requires IsEditTextStep(user.step)
    ensures u == EditText(user, m)
  {
    u := user;
    var t := m.trimmed;
    if u.step == EditName {
      if !m.valid { return; }
      u := u.(name := Some(t));
      u := u.(step := Editing);
    } else if u.step == EditAge {
      var age := m.number;
      if !ValidAge(age) { return; }
      u := u.(age := age);
      u := u.(step := Editing);
    } else if u.step == EditBio {
      if !m.valid { return; }
      u := u.(bio := Some(t));
      u := u.(step := Editing);
    } else if u.step == EditUsername {
      if !m.valid { return; }
      u := u.(customUsername := Some(t));
      u := u.(step := EditUsernamePlatform);
    } else if u.step == EditCustomPlatform {
      if !m.valid { return; }
      u := u.(usernamePlatform := Some(t));
      u := u.(usernamePlatformLabel := Some(t));
      u := u.(step := Editing);
    } else if u.step == EditLocationTyped {
      if !m.valid { return; }
      u := u.(location := Some(t));
      u := u.(step := Editing);
    } else {
      if !m.valid { return; }
      if |u.hobbies| >= MaxHobbies {
        u := u.(step := EditHobbies);
        return;
      }
      u := u.(hobbies := u.hobbies + [t]);
      u := u.(step := EditHobbies);
    }
  }

  /** The text handler on the sender's record: a pending typed match location
      first, then the step's own branch; any other step only re-prompts. */
  method TextRecord(user: Profile, m: Reading, native: Option<string>) returns (u: Profile)
    ensures u == OnText(user, m, native)
  {
    u := user;
    if u.matchStep == MatchLocationTyped {
      if !m.valid { return; }
      u := u.(matchLocation := Some(m.trimmed));
      u := u.(matchStep := Idle);
      return;
    }
    if IsOnboardingTextStep(u.step) {
      u := OnboardingAnswer(u, m, native);
    } else if IsEditTextStep(u.step) {
      u := EditAnswer(u, m);
    }
  }

  /** The photo handler on the sender's record, for a non-empty list of sizes. */
  method PhotoRecord(user: Profile, fileIds: seq<string>) returns (u: Profile)
    requires fileIds != []
    ensures u == OnPhoto(user, fileIds)
  {
    u := user.(photo := Some(fileIds[|fileIds| - 1]));
    if u.step == EditPhoto {
      u := u.(step := Editing);
      return;
    }
    u := u.(step := Done);
  }

  /** One more key of `ks` adds at most that record's id to the alerts. */
  lemma AlertTargetsStep(users: map<int, Profile>, ks: seq<int>, i: int, n: Profile)
    requires forall j :: 0 <= j < |ks| ==> ks[j] in users
    requires 0 <= i < |ks|
    ensures AlertTargets(ValuesOf(users, ks[..i + 1]), n) ==
      AlertTargets(ValuesOf(users, ks[..i]), n)
      + (if NewlyAlerted(users[ks[i]], n) then [users[ks[i]].id] else [])
  {
    assert ks[..i + 1][..i] == ks[..i];
  }

  /** The first `i` keys of `order` have been through the notifier, the rest not. */
  ghost predicate NotifiedUpTo(users: map<int, Profile>, order: seq<int>,
                               after: map<int, Profile>, i: int, n: Profile)
    requires Enumerates(users, order)
  {
    after.Keys == users.Keys
    && forall j :: 0 <= j < |order| ==>
         after[order[j]] == if j < i then Notified(users[order[j]], n) else users[order[j]]
  }

  lemma NotifiedStep(users: map<int, Profile>, order: seq<int>,
                     after: map<int, Profile>, i: int, n: Profile)
    requires Enumerates(users, order) && 0 <= i < |order|
    requires NotifiedUpTo(users, order, after, i, n)
    ensures NotifiedUpTo(users, order, after[order[i] := Notified(users[order[i]], n)], i + 1, n)
  {
  }

  /** Once every key of `order` has been through the notifier, the table is
      `NotifyAll`'s. */
  lemma NotifiedAll(users: map<int, Profile>, order: seq<int>, after: map<int, Profile>,
                    n: Profile)
    requires Enumerates(users, order)
    requires NotifiedUpTo(users, order, after, |order|, n)
    ensures after == NotifyAll(users, n)
  {
    forall k | k in users
      ensures after[k] == NotifyAll(users, n)[k]
    {
      var j :| 0 <= j < |order| && order[j] == k;
    }
  }

  /** The notifier's test and update on one waiting record `w`. */
  method NotifyOne(w: Profile, n: Profile) returns (u: Profile, alert: bool)
    ensures u == Notified(w, n) && alert == NewlyAlerted(w, n)
  {
    u, alert := w, false;
    if w.id != n.id && w.step == Done && w.gender != n.gender
       && ValidAge(w.age) && ValidAge(n.age) {
      var alreadySeen := n.id in w.previewMatches;
      if !alreadySeen {
        u := w.(previewMatches := w.previewMatches + [n.id]);
        alert := true;
      }
    }
  }

  /** The notifier loop of the photo handler: each record, in enumeration order,
      that is eligible for the finished record `n` and has not yet been told
      about it has `n`'s id appended to its preview list and gets an alert. */
  method NotifyWaiting(users: map<int, Profile>, order: seq<int>, n: Profile)
    returns (after: map<int, Profile>, outbox: seq<int>)
    requires Enumerates(users, order)
    ensures after == NotifyAll(users, n)
    ensures outbox == AlertTargets(ValuesOf(users, order), n)
  {
    after := users;
    outbox := [];
    var i := 0;
    while i < |order|
      invariant 0 <= i <= |order|
      invariant NotifiedUpTo(users, order, after, i, n)
      invariant outbox == AlertTargets(ValuesOf(users, order[..i]), n)
    {
      var k := order[i];
      assert after[k] == users[k];
      var w, alert := NotifyOne(after[k], n);
      NotifiedStep(users, order, after, i, n);
      after := after[k := w];
      if alert {
        outbox := outbox + [w.id];
      }
      AlertTargetsStep(users, order, i, n);
      i := i + 1;
    }
    assert order[..i] == order;
    NotifiedAll(users, order, after, n);
  }

  lemma NotifyKeepsInvariant(users: map<int, Profile>, order: seq<int>, n: Profile)
    requires StoreInvariant(users, order)
    ensures StoreInvariant(NotifyAll(users, n), order)
  {
    forall k | k in users
      ensures PreviewWellFormed(NotifyAll(users, n)[k])
    {
      NotifiedKeepsPreviewWellFormed(users[k], n);
    }
  }

  class Store {
    /** `users`, keyed by Telegram id. */
    var users: map<int, Profile>
    /** The keys of `users` in enumeration order. */
    var order: seq<int>

    ghost predicate Valid()
      reads this
    {
      StoreInvariant(users, order)
    }

    /** `Object.values(users)`. */
    function Values(): (vs: seq<Profile>)
      reads this
      requires Valid()
      ensures |vs| == |order| && forall i :: 0 <= i < |order| ==> vs[i] == users[order[i]]
    {
      ValuesOf(users, order)
    }

    /** An empty table, as on a first start without a saved file. */
    constructor ()
      ensures Valid() && users == map[] && order == []
    {
      users := map[];
      order := [];
    }

    /** `begin_signup`: a fresh record replaces whatever the sender had. */
    method BeginSignup(from: int)
      requires Valid()
      modifies this
      ensures Valid()
      ensures users == old(users)[from := NewProfile(from)]
      ensures order == if from in old(users) then old(order) else old(order) + [from]
    {
      if from !in users {
        order := order + [from];
      }
      users := users[from := NewProfile(from)];
    }

    /** A text message. When it answers a pending typed match location, the
        matches there are returned for display. */
    method ReceiveText(from: int, text: string, native: Option<string>)
      returns (shown: Option<seq<Profile>>)
      requires Valid()
      modifies this
      ensures Valid() && order == old(order)
      ensures from !in old(users) ==> users == old(users)
      ensures from in old(users) ==>
        users == old(users)[from := OnText(old(users)[from], Read(text), native)]
      ensures shown.Some? <==>
        from in old(users) && old(users)[from].matchStep == MatchLocationTyped && ValidString(text)
      ensures shown.Some? ==> shown.value == FindMatches(Values(), users[from], Trim(text))
    {
      shown := None;
      if from !in users { return; }
      var user := users[from];
      var m := Read(text);
      var after := TextRecord(user, m, native);
      ReplaceKeepsInvariant(users, order, from, after);
      users := users[from := after];
      if user.matchStep == MatchLocationTyped && m.valid {
        shown := Some(FindMatches(Values(), after, m.trimmed));
      }
    }

    /** A photo message. A completed onboarding (any step but `EDIT_PHOTO`) runs
        the notifier over the table in order; `outbox` lists whom it alerts. */
    method ReceivePhoto(from: int, fileIds: seq<string>) returns (outbox: seq<int>)
      requires Valid()
      modifies this
      ensures Valid() && order == old(order)
      ensures from !in old(users) || fileIds == [] ==> users == old(users) && outbox == []
      ensures from in old(users) && fileIds != [] && old(users)[from].step == EditPhoto ==>
        users == old(users)[from := OnPhoto(old(users)[from], fileIds)] && outbox == []
      ensures from in old(users) && fileIds != [] && old(users)[from].step != EditPhoto ==>
        var n := OnPhoto(old(users)[from], fileIds);
        users == NotifyAll(old(users)[from := n], n)
        && outbox == AlertTargets(ValuesOf(old(users)[from := n], order), n)
      ensures NoRepeats(outbox)
    {
      outbox := [];
      if from !in users { return; }
      if |fileIds| == 0 { return; }
      var editing := users[from].step == EditPhoto;
      var user := PhotoRecord(users[from], fileIds);
      ReplaceKeepsInvariant(users, order, from, user);
      users := users[from := user];
      if editing { return; }
      NotifyKeepsInvariant(users, order, user);
      AlertTargetsNoRepeats(users, order, user);
      users, outbox := NotifyWaiting(users, order, user);
    }

    /** `gender_<g>`. */
    method PickGender(from: int, g: string)
      requires Valid()
      modifies this
      ensures Valid() && order == old(order)
      ensures from !in old(users) ==> users == old(users)
      ensures from in old(users) ==> users == old(users)[from := OnGender(old(users)[from], g)]
    {
      if from !in users { return; }
      var user := users[from];
      if user.step != Gender { return; }
      user := user.(gender := Some(g));
      user := user.(step := Age);
      ReplaceKeepsInvariant(users, order, from, user);
      users := users[from := user];
    }

    /** `age_visible_yes` and `age_visible_no`. */
    method PickAgeVisibility(from: int, visible: bool)
      requires Valid()
      modifies this
      ensures Valid() && order == old(order)
      ensures from !in old(users) ==> users == old(users)
      ensures from in old(users) ==> users == old(users)[from := OnAgeVisibility(old(users)[from], visible)]
    {
      if from !in users { return; }
      var user := users[from];
      if user.step != AgePrivacy { return; }
      user := user.(ageVisible := Some(visible));
      user := user.(step := Location);
      ReplaceKeepsInvariant(users, order, from, user);
      users := users[from := user];
    }

    /** `location_<loc>`. */
    method PickLocation(from: int, loc: string)
      requires Valid()
      modifies this
      ensures Valid() && order == old(order)
      ensures from !in old(users) ==> users == old(users)
      ensures from in old(users) ==> users == old(users)[from := OnLocation(old(users)[from], loc)]
    {
      if from !in users { return; }
      var user := users[from];
      if user.step != Location { return; }
      user := user.(location := Some(loc));
      user := user.(step := Hobbies);
      ReplaceKeepsInvariant(users, order, from, user);
      users := users[from := user];
    }

    /** `location_other`. */
    method PickLocationOther(from: int)
      requires Valid()
      modifies this
      ensures Valid() && order == old(order)
      ensures from !in old(users) ==> users == old(users)
      ensures from in old(users) ==> users == old(users)[from := OnLocationOther(old(users)[from])]
    {
      if from !in users { return; }
      var user := users[from];
      if user.step != Location { return; }
      user := user.(step := LocationTyped);
      ReplaceKeepsInvariant(users, order, from, user);
      users := users[from := user];
    }

    /** `toggle_hobby_<raw>`. */
    method ToggleHobby(from: int, raw: string)
      requires Valid()
      modifies this
      ensures Valid() && order == old(order)
      ensures from !in old(users) ==> users == old(users)
      ensures from in old(users) ==> users == old(users)[from := OnToggleHobby(old(users)[from], raw)]
    {
      if from !in users { return; }
      var user := ToggledRecord(users[from], raw);
      ReplaceKeepsInvariant(users, order, from, user);
      users := users[from := user];
    }

    /** `hobby_other`. */
    method PickHobbyOther(from: int)
      requires Valid()
      modifies this
      ensures Valid() && order == old(order)
      ensures from !in old(users) ==> users == old(users)
      ensures from in old(users) ==> users == old(users)[from := OnHobbyOther(old(users)[from])]
    {
      if from !in users { return; }
      var user := users[from];
      if user.step != Hobbies && user.step != EditHobbies { return; }
      if |user.hobbies| >= MaxHobbies { return; }
      user := user.(step := if user.step == EditHobbies then EditHobbyTyped else HobbyTyped);
      ReplaceKeepsInvariant(users, order, from, user);
      users := users[from := user];
    }

    /** `hobbies_done`. */
    method HobbiesDone(from: int)
      requires Valid()
      modifies this
      ensures Valid() && order == old(order)
      ensures from !in old(users) ==> users == old(users)
      ensures from in old(users) ==> users == old(users)[from := OnHobbiesDone(old(users)[from])]
    {
      if from !in users { return; }
      var user := users[from];
      if user.step != Hobbies && user.step != EditHobbies { return; }
      if |user.hobbies| == 0 { return; }
      user := user.(step := if user.step == EditHobbies then Editing else Bio);
      ReplaceKeepsInvariant(users, order, from, user);
      users := users[from := user];
    }

    /** `username_source_<key>`. */
    method PickPlatform(from: int, pl: Platform)
      requires Valid()
      modifies this
      ensures Valid() && order == old(order)
      ensures from !in old(users) ==> users == old(users)
      ensures from in old(users) ==> users == old(users)[from := OnPlatform(old(users)[from], pl)]
    {
      if from !in users { return; }
      var user := users[from];
      if user.step != UsernamePlatform { return; }
      if pl.key == "other" {
        user := user.(step := CustomPlatform);
        ReplaceKeepsInvariant(users, order, from, user);
        users := users[from := user];
        return;
      }
      user := user.(usernamePlatform := Some(pl.key));
      user := user.(usernamePlatformLabel := Some(pl.display));
      user := user.(step := Photo);
      ReplaceKeepsInvariant(users, order, from, user);
      users := users[from := user];
    }

    /** `set_edit_username_source_<key>`. */
    method PickEditPlatform(from: int, pl: Platform)
      requires Valid()
      modifies this
      ensures Valid() && order == old(order)
      ensures from !in old(users) ==> users == old(users)
      ensures from in old(users) ==> users == old(users)[from := OnEditPlatform(old(users)[from], pl)]
    {
      if from !in users { return; }
      var user := users[from];
      if user.step != EditUsernamePlatform { return; }
      if pl.key == "other" {
        user := user.(step := EditCustomPlatform);
        ReplaceKeepsInvariant(users, order, from, user);
        users := users[from := user];
        return;
      }
      user := user.(usernamePlatform := Some(pl.key));
      user := user.(usernamePlatformLabel := Some(pl.display));
      user := user.(step := Editing);
      ReplaceKeepsInvariant(users, order, from, user);
      users := users[from := user];
    }

    /** `edit_name`, `edit_gender`, ... `edit_location`: no guard on the step; a
        sender without a record makes the handler throw, which changes nothing. */
    method StartEdit(from: int, c: EditChoice)
      requires Valid()
      modifies this
      ensures Valid() && order == old(order)
      ensures from !in old(users) ==> users == old(users)
      ensures from in old(users) ==> users == old(users)[from := OnStartEdit(old(users)[from], c)]
    {
      if from !in users { return; }
      var step;
      match c {
        case ChooseName => step := EditName;
        case ChooseGender => step := EditGender;
        case ChooseAge => step := EditAge;
        case ChooseHobbies => step := EditHobbies;
        case ChooseBio => step := EditBio;
        case ChoosePhoto => step := EditPhoto;
        case ChooseUserPlatform => step := EditUsername;
        case ChooseLocation => step := EditLocation;
      }
      var user := users[from].(step := step);
      assert user == OnStartEdit(users[from], c);
      ReplaceKeepsInvariant(users, order, from, user);
      users := users[from := user];
    }

    /** `set_edit_gender_<g>`. */
    method PickEditGender(from: int, g: string)
      requires Valid()
      modifies this
      ensures Valid() && order == old(order)
      ensures from !in old(users) ==> users == old(users)
      ensures from in old(users) ==> users == old(users)[from := OnEditGender(old(users)[from], g)]
    {
      if from !in users { return; }
      var user := users[from];
      if user.step != EditGender { return; }
      user := user.(gender := Some(g));
      user := user.(step := Editing);
      ReplaceKeepsInvariant(users, order, from, user);
      users := users[from := user];
    }

    /** `edit_done` and `edit_cancel`, which make the same assignment: back to
        `DONE` from any step. */
    method FinishEditing(from: int)
      requires Valid()
      modifies this
      ensures Valid() && order == old(order)
      ensures from !in old(users) ==> users == old(users)
      ensures from in old(users) ==> users == old(users)[from := OnFinishEditing(old(users)[from])]
    {
      if from !in users { return; }
      var user := users[from].(step := Done);
      ReplaceKeepsInvariant(users, order, from, user);
      users := users[from := user];
    }

    /** `set_edit_location_<loc>`. */
    method PickEditLocation(from: int, loc: string)
      requires Valid()
      modifies this
      ensures Valid() && order == old(order)
      ensures from !in old(users) ==> users == old(users)
      ensures from in old(users) ==> users == old(users)[from := OnEditLocation(old(users)[from], loc)]
    {
      if from !in users { return; }
      var user := users[from];
      if user.step != EditLocation { return; }
      user := user.(location := Some(loc));
      user := user.(step := Editing);
      ReplaceKeepsInvariant(users, order, from, user);
      users := users[from := user];
    }

    /** `set_edit_location_other`. */
    method PickEditLocationOther(from: int)
      requires Valid()
      modifies this
      ensures Valid() && order == old(order)
      ensures from !in old(users) ==> users == old(users)
      ensures from in old(users) ==> users == old(users)[from := OnEditLocationOther(old(users)[from])]
    {
      if from !in users { return; }
      var user := users[from];
      if user.step != EditLocation { return; }
      user := user.(step := EditLocationTyped);
      ReplaceKeepsInvariant(users, order, from, user);
      users := users[from := user];
    }

    /** "See Matches": asks for the wanted location. */
    method SeeMatches(from: int)
      requires Valid()
      modifies this
      ensures Valid() && order == old(order)
      ensures from !in old(users) ==> users == old(users)
      ensures from in old(users) ==> users == old(users)[from := OnSeeMatches(old(users)[from])]
    {
      var gate := MenuGate(if from in users then Some(users[from]) else None);
      if gate != Proceed { return; }
      var user := users[from].(matchStep := MatchLocation);
      ReplaceKeepsInvariant(users, order, from, user);
      users := users[from := user];
    }

    /** "Show Profile": the sender's own card, when the profile is `DONE`. */
    method ShowProfile(from: int) returns (card: Option<seq<CaptionLine>>)
      requires Valid()
      ensures card.Some? <==> from in users && users[from].step == Done
      ensures card.Some? ==> card.value == OwnCaption(users[from])
    {
      var gate := MenuGate(if from in users then Some(users[from]) else None);
      if gate != Proceed { return None; }
      card := Some(OwnCaption(users[from]));
    }

    /** "Edit Profile": opens the edit hub. */
    method EditProfile(from: int)
      requires Valid()
      modifies this
      ensures Valid() && order == old(order)
      ensures from !in old(users) ==> users == old(users)
      ensures from in old(users) ==> users == old(users)[from := OnEditProfile(old(users)[from])]
    {
      if from !in users || users[from].step != Done { return; }
      var user := users[from].(step := Editing);
      ReplaceKeepsInvariant(users, order, from, user);
      users := users[from := user];
    }

    /** `match_location_<loc>`: records the location and lists the matches there. */
    method PickMatchLocation(from: int, loc: string) returns (shown: Option<seq<Profile>>)
      requires Valid()
      modifies this
      ensures Valid() && order == old(order)
      ensures from !in old(users) ==> users == old(users)
      ensures from in old(users) ==> users == old(users)[from := OnMatchLocation(old(users)[from], loc)]
      ensures shown.Some? <==> from in old(users) && old(users)[from].matchStep == MatchLocation
      ensures shown.Some? ==> shown.value == FindMatches(Values(), users[from], loc)
    {
      if from !in users || users[from].matchStep != MatchLocation { return None; }
      var user := users[from].(matchLocation := Some(loc), matchStep := Idle);
      ReplaceKeepsInvariant(users, order, from, user);
      users := users[from := user];
      shown := Some(FindMatches(Values(), user, loc));
    }

    /** `match_location_other`. */
    method PickMatchLocationOther(from: int)
      requires Valid()
      modifies this
      ensures Valid() && order == old(order)
      ensures from !in old(users) ==> users == old(users)
      ensures from in old(users) ==> users == old(users)[from := OnMatchLocationOther(old(users)[from])]
    {
      if from !in users || users[from].matchStep != MatchLocation { return; }
      var user := users[from].(matchStep := MatchLocationTyped);
      ReplaceKeepsInvariant(users, order, from, user);
      users := users[from := user];
    }

    /** `reveal_contact_<id>`. */
    method RevealContactOf(target: int) returns (r: Reveal)
      requires Valid()
      ensures r.NotFound? <==> target !in users || users[target].step != Done
      ensures r.Contact? ==> Truthy(r.handle) || !HasContact(users[target])
      ensures r == RevealContact(users, target)
    {
      if target !in users || users[target].step != Done {
        return NotFound;
      }
      var u := users[target];
      var handle := if Truthy(u.customUsername) then u.customUsername else u.username;
      var platform := if Truthy(u.usernamePlatformLabel) then u.usernamePlatformLabel.value
                      else "Telegram";
      r := Contact(handle, platform);
    }
  }
}
