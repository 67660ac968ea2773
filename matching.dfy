/** Who is shown to whom: the match filter, the match and own-profile captions,
    contact reveal, and the new-match notifier's bookkeeping on `previewMatches`. */
module Matching {
  import opened Wrappers
  import opened Validation
  import opened Profiles
  import opened FlowProperties

  // ---------------------------------------------------------------------------
  // The store as a list

  /** The records of the keys `ks`, in that order: `Object.values` over a store
      whose enumeration order is `ks`. */
  function ValuesOf(users: map<int, Profile>, ks: seq<int>): (r: seq<Profile>)
    requires forall i :: 0 <= i < |ks| ==> ks[i] in users
    ensures |r| == |ks|
    ensures forall i :: 0 <= i < |ks| ==> r[i] == users[ks[i]]
    decreases |ks|
  {
    if ks == [] then [] else ValuesOf(users, ks[..|ks| - 1]) + [users[ks[|ks| - 1]]]
  }

  // ---------------------------------------------------------------------------
  // findMatches

  /** The filter `findMatches` applies to each stored record `u` for the requester
      `me` and the wanted location `loc`. */
  predicate IsMatch(u: Profile, me: Profile, loc: string) {
    u.step == Done && u.gender != me.gender && Truthy(u.gender) && ValidAge(u.age)
    && u.location == Some(loc)
  }

  /** `Object.values(users).filter(...)`: the records that pass, in store order. */
  function FindMatches(us: seq<Profile>, me: Profile, loc: string): (r: seq<Profile>)
    ensures forall u :: u in r <==> u in us && IsMatch(u, me, loc)
    ensures multiset(r) <= multiset(us)
    decreases |us|
  {
    if us == [] then []
    else
      var rest := FindMatches(us[1..], me, loc);
      assert us == [us[0]] + us[1..];
      if IsMatch(us[0], me, loc) then [us[0]] + rest else rest
  }

  /** The filter keeps store order: it distributes over concatenation. */
  lemma {:induction false} FindMatchesOfConcat(a: seq<Profile>, b: seq<Profile>, me: Profile,
                                               loc: string)
    ensures FindMatches(a + b, me, loc) == FindMatches(a, me, loc) + FindMatches(b, me, loc)
    decreases |a|
  {
    if a == [] {
      assert a + b == b;
    } else {
      assert (a + b)[0] == a[0];
      assert (a + b)[1..] == a[1..] + b;
      FindMatchesOfConcat(a[1..], b, me, loc);
    }
  }

  /** `r` is `us` with some elements left out, the rest in their order. */
  predicate IsSubsequence(r: seq<Profile>, us: seq<Profile>)
    decreases |us|
  {
    if us == [] then r == []
    else (r != [] && r[0] == us[0] && IsSubsequence(r[1..], us[1..]))
         || IsSubsequence(r, us[1..])
  }

  lemma {:induction false} MatchesAreSubsequence(us: seq<Profile>, me: Profile, loc: string)
    ensures IsSubsequence(FindMatches(us, me, loc), us)
    decreases |us|
  {
    if us != [] {
      MatchesAreSubsequence(us[1..], me, loc);
      var rest := FindMatches(us[1..], me, loc);
      if IsMatch(us[0], me, loc) {
        assert ([us[0]] + rest)[1..] == rest;
      }
    }
  }

  /** Nobody is offered to themselves: the requester has their own gender. */
  lemma RequesterNeverMatched(us: seq<Profile>, me: Profile, loc: string)
    ensures me !in FindMatches(us, me, loc)
  {
  }

  // ---------------------------------------------------------------------------
  // Captions and contact

  /** One line of a profile caption, holding the values it prints. */
  datatype CaptionLine =
    | NameLine(name: Option<string>)
    | GenderLine(gender: Option<string>)
    | AgeLine(age: Option<int>)
    | LocationLine(location: Option<string>)
    | HobbiesLine(hobbies: seq<string>)
    | BioLine(bio: Option<string>)
    | ContactLine(handle: Option<string>, platform: string)

  predicate HasAgeLine(c: seq<CaptionLine>) {
    exists i :: 0 <= i < |c| && c[i].AgeLine?
  }

  predicate HasContactLine(c: seq<CaptionLine>) {
    exists i :: 0 <= i < |c| && c[i].ContactLine?
  }

  /** `formatMatchCaption`: the age is printed unless the match chose to hide it
      (an unset choice shows it); the contact is never part of it. */
  function MatchCaption(u: Profile): (r: seq<CaptionLine>)
    ensures HasAgeLine(r) <==> u.ageVisible != Some(false)
    ensures forall i :: 0 <= i < |r| && r[i].AgeLine? ==> r[i] == AgeLine(u.age)
    ensures !HasContactLine(r)
    ensures |r| == (if u.ageVisible == Some(false) then 5 else 6)
  {
    if u.ageVisible != Some(false) then
      var c := [NameLine(u.name), GenderLine(u.gender), AgeLine(u.age),
                LocationLine(u.location), HobbiesLine(u.hobbies), BioLine(u.bio)];
      assert c[2].AgeLine?;
      c
    else
      [NameLine(u.name), GenderLine(u.gender), LocationLine(u.location),
       HobbiesLine(u.hobbies), BioLine(u.bio)]
  }

  /** The handle the reveal and the own profile print: the typed one when set,
      the Telegram one otherwise. */
  function ContactHandle(u: Profile): (h: Option<string>)
    ensures Truthy(u.customUsername) ==> h == u.customUsername
    ensures !Truthy(u.customUsername) ==> h == u.username
  {
    if Truthy(u.customUsername) then u.customUsername else u.username
  }

  /** The platform label printed beside the handle, "Telegram" when none is set. */
  function ContactPlatform(u: Profile): (l: string)
    ensures Truthy(u.usernamePlatformLabel) ==> l == u.usernamePlatformLabel.value
    ensures !Truthy(u.usernamePlatformLabel) ==> l == "Telegram"
  {
    if Truthy(u.usernamePlatformLabel) then u.usernamePlatformLabel.value else "Telegram"
  }

  /** Whoever has a contact has a printable handle. */
  lemma ContactHandleIsSet(u: Profile)
    requires HasContact(u)
    ensures Truthy(ContactHandle(u))
  {
  }

  /** "Show Profile": the own caption always prints the age, and adds the contact
      line exactly when some handle is set. */
  function OwnCaption(u: Profile): (r: seq<CaptionLine>)
    ensures HasAgeLine(r)
    ensures HasContactLine(r) <==> HasContact(u)
    ensures forall i :: 0 <= i < |r| && r[i].ContactLine? ==>
              r[i] == ContactLine(ContactHandle(u), ContactPlatform(u))
  {
    var card := [NameLine(u.name), GenderLine(u.gender), AgeLine(u.age),
                 LocationLine(u.location), HobbiesLine(u.hobbies), BioLine(u.bio)];
    assert card[2].AgeLine?;
    if HasContact(u) then
      var c := card + [ContactLine(ContactHandle(u), ContactPlatform(u))];
      assert c[2].AgeLine? && c[6].ContactLine?;
      c
    else card
  }

  /** The outcome of `reveal_contact_<id>`. */
  datatype Reveal = NotFound | Contact(handle: Option<string>, platform: string)

  /** The reveal re-reads the target: it fails unless the record exists and is
      `DONE` at that moment. */
  function RevealContact(users: map<int, Profile>, id: int): (r: Reveal)
    ensures r.NotFound? <==> id !in users || users[id].step != Done
    ensures r.Contact? ==> r.handle == ContactHandle(users[id])
                           && r.platform == ContactPlatform(users[id])
  {
    if id !in users || users[id].step != Done then NotFound
    else Contact(ContactHandle(users[id]), ContactPlatform(users[id]))
  }

  /** A target that was complete when revealed yields a real handle, the very
      line its own profile card prints. */
  lemma RevealOfCompleteProfile(users: map<int, Profile>, id: int)
    requires id in users && users[id].step == Done && ProfileComplete(users[id])
    ensures RevealContact(users, id).Contact? && Truthy(RevealContact(users, id).handle)
    ensures ContactLine(RevealContact(users, id).handle, RevealContact(users, id).platform)
            in OwnCaption(users[id])
  {
    var u := users[id];
    ContactHandleIsSet(u);
    var c := OwnCaption(u);
    assert c[6] == ContactLine(ContactHandle(u), ContactPlatform(u));
  }

  /** A target that went back into editing is not revealed. */
  lemma RevealRefusedWhileEditing(users: map<int, Profile>, id: int)
    requires id in users && users[id].step != Done
    ensures RevealContact(users, id) == NotFound
  {
  }

  // ---------------------------------------------------------------------------
  // The main-menu gate

  /** The outcome of the checks "See Matches" and "Show Profile" make. */
  datatype Gate = NotComplete | EditRedirect | Proceed

  /** The checks in the order the handlers make them: a missing or not-`DONE`
      record is refused first, so the later check for `EDITING` can never fire. */
  function MenuGate(u: Option<Profile>): (g: Gate)
    ensures g != EditRedirect
    ensures g == Proceed <==> u.Some? && u.value.step == Done
  {
    if u.None? || u.value.step != Done then NotComplete
    else if u.value.step == Editing then EditRedirect
    else Proceed
  }

  // ---------------------------------------------------------------------------
  // The new-match notifier

  /** The notifier's test of a waiting record `w` against the newly completed
      record `n`. */
  predicate Eligible(w: Profile, n: Profile) {
    w.id != n.id && w.step == Done && w.gender != n.gender && ValidAge(w.age) && ValidAge(n.age)
  }

  /** Eligible and not yet told about `n`: gets an alert. */
  predicate NewlyAlerted(w: Profile, n: Profile) {
    Eligible(w, n) && n.id !in w.previewMatches
  }

  /** One iteration of the notifier on `w`. */
  function Notified(w: Profile, n: Profile): (r: Profile)
    ensures r == w.(previewMatches := r.previewMatches)
    ensures n.id in r.previewMatches <==> n.id in w.previewMatches || Eligible(w, n)
    ensures NewlyAlerted(w, n) ==> r.previewMatches == w.previewMatches + [n.id]
    ensures !NewlyAlerted(w, n) ==> r == w
  {
    if NewlyAlerted(w, n) then w.(previewMatches := w.previewMatches + [n.id]) else w
  }

  /** The whole store after the notifier has run for `n`. */
  function NotifyAll(users: map<int, Profile>, n: Profile): (r: map<int, Profile>)
    ensures r.Keys == users.Keys
    ensures forall k :: k in users ==> r[k] == Notified(users[k], n)
  {
    map k | k in users :: Notified(users[k], n)
  }

  /** The ids the notifier sends an alert to, walking the records `ws` in order. */
  function AlertTargets(ws: seq<Profile>, n: Profile): (r: seq<int>)
    ensures |r| <= |ws|
    decreases |ws|
  {
    if ws == [] then []
    else
      var w := ws[|ws| - 1];
      AlertTargets(ws[..|ws| - 1], n) + (if NewlyAlerted(w, n) then [w.id] else [])
  }

  /** Exactly the newly alerted records get an alert. */
  lemma {:induction false} AlertTargetsExactly(ws: seq<Profile>, n: Profile, x: int)
    ensures x in AlertTargets(ws, n) <==>
            exists i :: 0 <= i < |ws| && ws[i].id == x && NewlyAlerted(ws[i], n)
    decreases |ws|
  {
    if ws != [] {
      var init := ws[..|ws| - 1];
      AlertTargetsExactly(init, n, x);
      if x in AlertTargets(ws, n) && x !in AlertTargets(init, n) {
        assert ws[|ws| - 1].id == x && NewlyAlerted(ws[|ws| - 1], n);
      }
      if exists i :: 0 <= i < |ws| && ws[i].id == x && NewlyAlerted(ws[i], n) {
        var i :| 0 <= i < |ws| && ws[i].id == x && NewlyAlerted(ws[i], n);
        if i < |ws| - 1 {
          assert init[i] == ws[i];
        }
      }
    }
  }

  /** After the notifier, every eligible record knows `n`; ineligible ones are
      unchanged, and so is `n`'s own record. */
  lemma NotifyAllOutcome(users: map<int, Profile>, n: Profile, k: int)
    requires k in users
    ensures Eligible(users[k], n) ==> n.id in NotifyAll(users, n)[k].previewMatches
    ensures !Eligible(users[k], n) ==> NotifyAll(users, n)[k] == users[k]
    ensures users[k].id == n.id ==> NotifyAll(users, n)[k] == users[k]
  {
  }

  /** A second run for the same `n` changes nothing. */
  lemma NotifyAllIdempotent(users: map<int, Profile>, n: Profile)
    ensures NotifyAll(NotifyAll(users, n), n) == NotifyAll(users, n)
  {
    var once := NotifyAll(users, n);
    forall k | k in once
      ensures Notified(once[k], n) == once[k]
    {
      assert !NewlyAlerted(once[k], n);
    }
  }

  /** ... and sends nobody a second alert. */
  lemma {:induction false} SecondRunAlertsNobody(users: map<int, Profile>, ks: seq<int>,
                                                 n: Profile)
    requires forall i :: 0 <= i < |ks| ==> ks[i] in users
    ensures AlertTargets(ValuesOf(NotifyAll(users, n), ks), n) == []
    decreases |ks|
  {
    if ks != [] {
      var once := NotifyAll(users, n);
      SecondRunAlertsNobody(users, ks[..|ks| - 1], n);
      var ws := ValuesOf(once, ks);
      assert ws[..|ws| - 1] == ValuesOf(once, ks[..|ks| - 1]);
      assert !NewlyAlerted(ws[|ws| - 1], n);
    }
  }

  /** Without a valid age on the new record, the notifier does nothing. */
  lemma {:induction false} InvalidAgeAlertsNobody(users: map<int, Profile>, ws: seq<Profile>,
                                                  n: Profile)
    requires !ValidAge(n.age)
    ensures NotifyAll(users, n) == users
    ensures AlertTargets(ws, n) == []
    decreases |ws|
  {
    if ws != [] {
      InvalidAgeAlertsNobody(users, ws[..|ws| - 1], n);
    }
  }

  /** No id occurs twice. */
  predicate NoRepeats(xs: seq<int>) {
    forall i, j :: 0 <= i < j < |xs| ==> xs[i] != xs[j]
  }

  /** One notifier run alerts each user at most once: the store's keys are
      distinct and every record carries its own key as its id. */
  lemma {:induction false} AlertTargetsNoRepeats(users: map<int, Profile>, ks: seq<int>, n: Profile)
    requires NoRepeats(ks)
    requires forall i :: 0 <= i < |ks| ==> ks[i] in users && users[ks[i]].id == ks[i]
    ensures NoRepeats(AlertTargets(ValuesOf(users, ks), n))
    decreases |ks|
  {
    if ks != [] {
      var init := ks[..|ks| - 1];
      var last := ks[|ks| - 1];
      var ws := ValuesOf(users, ks);
      var before := ValuesOf(users, init);
      assert ws[..|ws| - 1] == before;
      AlertTargetsNoRepeats(users, init, n);
      var r := AlertTargets(ws, n);
      if NewlyAlerted(ws[|ws| - 1], n) {
        assert r == AlertTargets(before, n) + [last];
        AlertTargetsExactly(before, n, last);
      } else {
        assert r == AlertTargets(before, n);
      }
    }
  }

  /** The bookkeeping `previewMatches` keeps: never the record's own id, never
      an id twice. */
  predicate PreviewWellFormed(w: Profile) {
    w.id !in w.previewMatches
    && forall i, j :: 0 <= i < j < |w.previewMatches| ==> w.previewMatches[i] != w.previewMatches[j]
  }

  lemma NotifiedKeepsPreviewWellFormed(w: Profile, n: Profile)
    requires PreviewWellFormed(w)
    ensures PreviewWellFormed(Notified(w, n))
  {
    if NewlyAlerted(w, n) {
      var ps := Notified(w, n).previewMatches;
      forall i, j | 0 <= i < j < |ps|
        ensures ps[i] != ps[j]
      {
        if j == |ps| - 1 {
          assert ps[i] in w.previewMatches;
        }
      }
    }
  }
}
