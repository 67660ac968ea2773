/** Worked scenarios of the bot's documented behaviour, stated on concrete
    records and proved against the model. */
module Scenarios {
  import opened Wrappers
  import opened Validation
  import opened Profiles
  import opened Flow
  import opened Matching
  import opened FlowProperties

  /** B: a finished female profile in Addis Ababa, aged 28, waiting for matches. */
  function Waiting(): Profile {
    Profile(2, Done, Some("Hana"), Some("female"), Some(28), Some(true), Some("Addis Ababa"),
            ["Music"], Some("Coffee first"), Some("hana_b"), Some("telegram"), Some("Telegram"),
            None, Some("photo-b"), Idle, None, [])
  }

  /** A: a male profile in Addis Ababa, aged 30, about to send the photo. */
  function Finishing(visible: Option<bool>): Profile {
    Profile(1, Photo, Some("Abel"), Some("male"), Some(30), visible, Some("Addis Ababa"),
            ["Sports"], Some("Runner"), Some("abel_a"), Some("telegram"), Some("Telegram"),
            None, None, Idle, None, [])
  }

  /** A's record once the photo arrives (Telegram sends several sizes). */
  function Finished(visible: Option<bool>): Profile {
    OnPhoto(Finishing(visible), ["photo-a-small", "photo-a-large"])
  }

  /** The table as the notifier finds it, enumerated B first. */
  function Table(visible: Option<bool>): map<int, Profile> {
    map[2 := Waiting(), 1 := Finished(visible)]
  }

  /** A finishes onboarding while B waits: A's step is `DONE` with the largest
      photo size, and B, and only B, gets exactly one alert. */
  lemma NewProfileAlertsWaitingUserOnce(visible: Option<bool>)
    ensures Finished(visible).step == Done && Finished(visible).photo == Some("photo-a-large")
    ensures AlertTargets(ValuesOf(Table(visible), [2, 1]), Finished(visible)) == [2]
    ensures NotifyAll(Table(visible), Finished(visible))[2].previewMatches == [1]
  {
    var n := Finished(visible);
    var ws := ValuesOf(Table(visible), [2, 1]);
    assert ws == [Waiting(), n];
    assert NewlyAlerted(Waiting(), n) && !NewlyAlerted(n, n);
    assert AlertTargets(ws, n) == AlertTargets([Waiting()], n);
  }

  /** After the alert a repeated notifier run alerts nobody, and B's matches for
      Addis Ababa include A, whose age is shown unless A hid it. */
  lemma NewProfileIsListedForWaitingUser(visible: Option<bool>)
    ensures var after := NotifyAll(Table(visible), Finished(visible));
            AlertTargets(ValuesOf(after, [2, 1]), Finished(visible)) == []
            && Finished(visible) in FindMatches(ValuesOf(after, [2, 1]), after[2], "Addis Ababa")
            && (HasAgeLine(MatchCaption(Finished(visible))) <==> visible != Some(false))
  {
    var n := Finished(visible);
    SecondRunAlertsNobody(Table(visible), [2, 1], n);
    var after := NotifyAll(Table(visible), n);
    assert after[1] == n;
    assert ValuesOf(after, [2, 1])[1] == n;
    assert IsMatch(n, after[2], "Addis Ababa");
  }

  /** An age of 17 is inside the range the code accepts (16 to 45), so it is
      stored and the flow moves on to the age-visibility question. */
  lemma SeventeenIsAccepted(p: Profile, native: Option<string>)
    requires p.step == Age && p.matchStep != MatchLocationTyped
    ensures OnText(p, Read("17"), native) == p.(age := Some(17), step := AgePrivacy)
  {
    assert Decimal(17) + "" == "17";
    ParseIntReadsDecimal(17, "");
    AgeIsStoredParsed(p, "17", native);
  }

  /** An age of 15 is below the range: nothing changes and the question repeats. */
  lemma FifteenIsRejected(p: Profile, native: Option<string>)
    requires p.step == Age && p.matchStep != MatchLocationTyped
    ensures OnText(p, Read("15"), native) == p
  {
    assert Decimal(15) + "" == "15";
    ParseIntReadsDecimal(15, "");
    InvalidAgeChangesNothing(p, Read("15"), native);
  }
}
