/** The profile record the bot keeps per Telegram user and the fixed choice lists
    it offers. */
module Profiles {
  import opened Wrappers
  import opened Validation

  /** The `step` tag: where the user is in onboarding (`Name` … `Photo`), the
      completed state `Done`, the edit hub `Editing`, and one sub-state per field edit. */
  datatype Step =
    | Name | Gender | Age | AgePrivacy | Location | LocationTyped | Hobbies | HobbyTyped
    | Bio | CustomUsername | UsernamePlatform | CustomPlatform | Photo | Done
    | Editing | EditName | EditGender | EditAge | EditHobbies | EditHobbyTyped | EditBio
    | EditPhoto | EditUsername | EditUsernamePlatform | EditCustomPlatform
    | EditLocation | EditLocationTyped

  /** The `matchStep` tag of the "See Matches" flow; `Idle` is the source's
      `null`/absent value. */
  datatype MatchStep = Idle | MatchLocation | MatchLocationTyped

  /** One user's record. Every field the source may leave undefined is an `Option`;
      `previewMatches` holds the ids of profiles this user was already alerted
      about (an absent list and an empty one behave alike). */
  datatype Profile = Profile(
    id: int,
    step: Step,
    name: Option<string>,
    gender: Option<string>,
    age: Option<int>,
    ageVisible: Option<bool>,
    location: Option<string>,
    hobbies: seq<string>,
    bio: Option<string>,
    username: Option<string>,
    usernamePlatform: Option<string>,
    usernamePlatformLabel: Option<string>,
    customUsername: Option<string>,
    photo: Option<string>,
    matchStep: MatchStep,
    matchLocation: Option<string>,
    previewMatches: seq<int>)

  /** The record `begin_signup` creates: step `Name`, no hobbies, nothing else. */
  function NewProfile(id: int): (p: Profile)
    ensures p.id == id && p.step == Name && p.hobbies == [] && p.previewMatches == []
  {
    Profile(id, Name, None, None, None, None, None, [], None, None, None, None, None, None,
            Idle, None, [])
  }

  /** JavaScript truthiness of an optional string: present and not empty. */
  predicate Truthy(o: Option<string>) {
    o.Some? && o.value != ""
  }

  /** The ceiling on the hobby list. */
  const MaxHobbies := 5

  /** A hobby button's label: an emoji, a space and the hobby's name. */
  function Label(icon: char, word: string): string {
    [icon, ' '] + word
  }

  const HobbyChoices: seq<string> := [
    Label('\U{1F3B5}', "Music"), Label('\U{26BD}', "Sports"), Label('\U{1F3AC}', "Movies"),
    Label('\U{1F4DA}', "Reading"), Label('\U{1F30D}', "Travel"), Label('\U{1F373}', "Cooking")]

  const LocationChoices: seq<string> := ["Addis Ababa", "Mekelle", "Hawassa", "Gonder", "Adama"]

  /** A contact platform button: the key carried in the callback data and the
      label shown. */
  datatype Platform = Platform(key: string, display: string)

  const PlatformChoices: seq<Platform> := [
    Platform("telegram", "Telegram"), Platform("facebook", "Facebook"),
    Platform("instagram", "Instagram"), Platform("x", "X (Twitter)"),
    Platform("other", "Other")]

  /** `c` matches the regular-expression class `\w`. */
  predicate IsWordChar(c: char) {
    ('a' <= c <= 'z') || ('A' <= c <= 'Z') || ('0' <= c <= '9') || c == '_'
  }

  /** `s.replace(/[^\w]/g, '')`: the word characters of `s`, in order. */
  function WordChars(s: string): (r: string)
    ensures |r| <= |s|
    ensures forall i :: 0 <= i < |r| ==> IsWordChar(r[i])
  {
    if s == [] then []
    else (if IsWordChar(s[0]) then [s[0]] else []) + WordChars(s[1..])
  }

  /** The index `catalog.find(h => WordChars(h) == raw)` stops at: the first entry
      whose word characters are `raw`, or `|catalog|` when there is none. */
  function FindByWordChars(catalog: seq<string>, raw: string): (i: nat)
    ensures i <= |catalog|
    ensures i < |catalog| ==> WordChars(catalog[i]) == raw
    ensures forall j :: 0 <= j < i ==> WordChars(catalog[j]) != raw
  {
    if catalog == [] then 0
    else if WordChars(catalog[0]) == raw then 0
    else 1 + FindByWordChars(catalog[1..], raw)
  }

  /** The hobby a `toggle_hobby_<raw>` button stands for: the first catalogue entry
      whose word characters are `raw`, or `raw` itself when none is. */
  function HobbyFromData(raw: string): (h: string)
    ensures h == raw || (h in HobbyChoices && WordChars(h) == raw)
    ensures (forall c :: c in HobbyChoices ==> WordChars(c) != raw) <==> h !in HobbyChoices || WordChars(h) != raw
  {
    var i := FindByWordChars(HobbyChoices, raw);
    if i < |HobbyChoices| then HobbyChoices[i] else raw
  }

  /** The replacement works character by character, so it distributes over
      concatenation. */
  lemma {:induction false} WordCharsOfConcat(s: string, t: string)
    ensures WordChars(s + t) == WordChars(s) + WordChars(t)
    decreases |s|
  {
    if s == [] {
      assert s + t == t;
    } else {
      assert (s + t)[0] == s[0];
      assert (s + t)[1..] == s[1..] + t;
      WordCharsOfConcat(s[1..], t);
    }
  }

  /** Text made of word characters only is kept whole. */
  lemma {:induction false} WordCharsOfWord(w: string)
    requires forall i :: 0 <= i < |w| ==> IsWordChar(w[i])
    ensures WordChars(w) == w
    decreases |w|
  {
    if w != [] {
      WordCharsOfWord(w[1..]);
    }
  }

  /** Text without word characters is dropped entirely. */
  lemma {:induction false} WordCharsOfNonWord(s: string)
    requires forall i :: 0 <= i < |s| ==> !IsWordChar(s[i])
    ensures WordChars(s) == []
    decreases |s|
  {
    if s != [] {
      WordCharsOfNonWord(s[1..]);
    }
  }

  /** A catalogue label is an emoji, a space and a word: only the word is kept. */
  lemma WordCharsOfLabel(e: char, w: string)
    requires !IsWordChar(e) && forall i :: 0 <= i < |w| ==> IsWordChar(w[i])
    ensures WordChars(Label(e, w)) == w
  {
    WordCharsOfConcat([e, ' '], w);
    WordCharsOfWord(w);
    WordCharsOfNonWord([e, ' ']);
  }

  /** The names of the catalogue's hobbies, without their emoji. */
  const HobbyWords: seq<string> := ["Music", "Sports", "Movies", "Reading", "Travel", "Cooking"]

  // The word characters of each catalogue entry, one entry at a time.
  lemma LabelWords0() ensures WordChars(HobbyChoices[0]) == HobbyWords[0] { WordCharsOfLabel('\U{1F3B5}', "Music"); }
  lemma LabelWords1() ensures WordChars(HobbyChoices[1]) == HobbyWords[1] { WordCharsOfLabel('\U{26BD}', "Sports"); }
  lemma LabelWords2() ensures WordChars(HobbyChoices[2]) == HobbyWords[2] { WordCharsOfLabel('\U{1F3AC}', "Movies"); }
  lemma LabelWords3() ensures WordChars(HobbyChoices[3]) == HobbyWords[3] { WordCharsOfLabel('\U{1F4DA}', "Reading"); }
  lemma LabelWords4() ensures WordChars(HobbyChoices[4]) == HobbyWords[4] { WordCharsOfLabel('\U{1F30D}', "Travel"); }
  lemma LabelWords5() ensures WordChars(HobbyChoices[5]) == HobbyWords[5] { WordCharsOfLabel('\U{1F373}', "Cooking"); }

  /** A catalogue entry's callback data is its hobby's name. */
  lemma LabelWords(k: nat)
    requires k < |HobbyChoices|
    ensures WordChars(HobbyChoices[k]) == HobbyWords[k]
  {
    if k == 0 { LabelWords0(); } else if k == 1 { LabelWords1(); } else if k == 2 { LabelWords2(); }
    else if k == 3 { LabelWords3(); } else if k == 4 { LabelWords4(); } else { LabelWords5(); }
  }

  lemma WordsDistinct()
    ensures forall i, j :: 0 <= i < j < |HobbyWords| ==> HobbyWords[i] != HobbyWords[j]
  {
    forall i, j | 0 <= i < j < |HobbyWords|
      ensures HobbyWords[i] != HobbyWords[j]
    {
      assert i < 5 && 0 < j;
      assert HobbyWords[i][0] != HobbyWords[j][0] || HobbyWords[i][1] != HobbyWords[j][1];
    }
  }

  /** No two entries of `catalog` carry the same callback data. */
  predicate DistinctWords(catalog: seq<string>) {
    forall i, j :: 0 <= i < j < |catalog| ==> WordChars(catalog[i]) != WordChars(catalog[j])
  }

  /** In a catalogue whose entries carry distinct data, `find` on an entry's data
      stops at that entry. */
  lemma FindsDistinct(catalog: seq<string>, k: nat)
    requires k < |catalog| && DistinctWords(catalog)
    ensures FindByWordChars(catalog, WordChars(catalog[k])) == k
  {
  }

  lemma CatalogDistinct()
    ensures DistinctWords(HobbyChoices)
  {
    WordsDistinct();
    forall i, j | 0 <= i < j < |HobbyChoices|
      ensures WordChars(HobbyChoices[i]) != WordChars(HobbyChoices[j])
    {
      LabelWords(i);
      LabelWords(j);
    }
  }

  /** The callback data a hobby button carries (`toggle_hobby_` and the label's
      word characters) decodes back to that button's label. */
  lemma HobbyDataRoundTrip(h: string)
    requires h in HobbyChoices
    ensures HobbyFromData(WordChars(h)) == h
  {
    var k :| 0 <= k < |HobbyChoices| && HobbyChoices[k] == h;
    CatalogDistinct();
    FindsDistinct(HobbyChoices, k);
  }
}
