/** The user-profile and notification forms (localtv/user_profile/forms.py;
    localtv/admin/forms.py carries an identical copy of both). */
module ProfileForms {
  import opened Common
  import opened Strings

  const MaxNameLength := 30

  datatype NameError =
    /** `parts[0]` on an empty word list: an uncaught IndexError. */
    | NoWords
    /** 'First and last name must be less than 30 characters.' */
    | NameTooLong

  /** The number of leading words, from `k` on, that the loop moves into the
      first name: the first split point whose remainder fits in 30
      characters. */
  function SplitPoint(ws: seq<string>, k: nat): (n: nat)
    requires 1 <= k <= |ws|
    ensures k <= n <= |ws|
    ensures |Join(" ", ws[n..])| <= MaxNameLength
    ensures forall j :: k <= j < n ==> |Join(" ", ws[j..])| > MaxNameLength
    decreases |ws| - k
  {
    if |Join(" ", ws[k..])| <= MaxNameLength then k else SplitPoint(ws, k + 1)
  }

  /** clean_name, as written: the words of the name split into a first name
      and a last name. */
  function CleanNameSpec(name: string): Result<(string, string), NameError> {
    if name == "" then Ok(("", ""))
    else
      var ws := Split(name);
      if ws == [] then Err(NoWords)
      else
        var n := SplitPoint(ws, 1);
        if |Join(" ", ws[..n])| > MaxNameLength then Err(NameTooLong)
        else Ok((Join(" ", ws[..n]), Join(" ", ws[n..])))
  }

  /** clean_name: the first word seeds the first name, then leading words
      move into it while the rest, joined by single spaces, is longer than
      30 characters. */
  method CleanName(name: string) returns (r: Result<(string, string), NameError>)
    ensures r == CleanNameSpec(name)
    ensures name == "" ==> r == Ok(("", ""))
  {
    if name == "" {
      return Ok(("", ""));
    }
    var ws := Split(name);
    if ws == [] {
      return Err(NoWords);
    }
    var first := [ws[0]];
    var parts := ws[1..];
    while |Join(" ", parts)| > MaxNameLength
      invariant 1 <= |first| <= |ws|
      invariant first == ws[..|first|] && parts == ws[|first|..]
      invariant forall j :: 1 <= j < |first| ==> |Join(" ", ws[j..])| > MaxNameLength
      decreases |parts|
    {
      first := first + [parts[0]];
      parts := parts[1..];
    }
    SplitPointUnique(ws, 1, |first|);
    if |Join(" ", first)| > MaxNameLength {
      return Err(NameTooLong);
    }
    return Ok((Join(" ", first), Join(" ", parts)));
  }

  lemma {:induction false} SplitPointUnique(ws: seq<string>, k: nat, n: nat)
    requires 1 <= k <= n <= |ws|
    requires |Join(" ", ws[n..])| <= MaxNameLength
    requires forall j :: k <= j < n ==> |Join(" ", ws[j..])| > MaxNameLength
    ensures SplitPoint(ws, k) == n
    decreases n - k
  {
    if k < n {
      SplitPointUnique(ws, k + 1, n);
    }
  }

  /** A successful split keeps every word, in order: the first name holds
      the leading words (at least the first), the last name the rest, and
      neither exceeds 30 characters. */
  lemma CleanNameKeepsWords(name: string)
    requires name != "" && CleanNameSpec(name).Ok?
    ensures |CleanNameSpec(name).value.0| <= MaxNameLength
    ensures |CleanNameSpec(name).value.1| <= MaxNameLength
    ensures Split(CleanNameSpec(name).value.0) != []
    ensures Split(CleanNameSpec(name).value.0)[0] == Split(name)[0]
    ensures Split(CleanNameSpec(name).value.0) + Split(CleanNameSpec(name).value.1) == Split(name)
    ensures RejoinName(CleanNameSpec(name).value) == Join(" ", Split(name))
  {
    var ws := Split(name);
    SplitAtKeepsWords(ws, SplitPoint(ws, 1));
  }

  /** `first + ' ' + last`, or `first` alone when there is no last name. */
  function RejoinName(names: (string, string)): string {
    if names.1 == "" then names.0 else names.0 + " " + names.1
  }

  lemma SplitAtKeepsWords(ws: seq<string>, n: nat)
    requires 1 <= n <= |ws|
    requires forall w :: w in ws ==> IsWord(w)
    ensures Split(Join(" ", ws[..n])) == ws[..n]
    ensures Split(Join(" ", ws[n..])) == ws[n..]
    ensures RejoinName((Join(" ", ws[..n]), Join(" ", ws[n..]))) == Join(" ", ws)
  {
    WordsOfSlices(ws, n);
    SplitJoin(ws[..n]);
    SplitJoin(ws[n..]);
    RejoinSlices(ws, n);
  }

  /** Joining the two halves with a space gives back the whole name. */
  lemma RejoinSlices(ws: seq<string>, n: nat)
    requires 1 <= n <= |ws|
    requires forall w :: w in ws ==> IsWord(w)
    ensures RejoinName((Join(" ", ws[..n]), Join(" ", ws[n..]))) == Join(" ", ws)
  {
    var a, b := ws[..n], ws[n..];
    if n < |ws| {
      assert a + b == ws;
      JoinAppend(" ", a, b);
      WordsOfSlices(ws, n);
      JoinEmpty(b);
    } else {
      assert b == [] && a == ws;
    }
  }

  lemma WordsOfSlices(ws: seq<string>, n: nat)
    requires n <= |ws|
    requires forall w :: w in ws ==> IsWord(w)
    ensures forall w :: w in ws[..n] ==> IsWord(w)
    ensures forall w :: w in ws[n..] ==> IsWord(w)
  {
  }

  /** The first name's length grows with every word moved into it. */
  lemma {:induction false} FirstNameGrows(ws: seq<string>, k: nat, m: nat)
    requires 1 <= k <= m <= |ws|
    ensures |Join(" ", ws[..k])| <= |Join(" ", ws[..m])|
    decreases m - k
  {
    if k < m {
      FirstNameGrows(ws, k, m - 1);
      JoinAppend(" ", ws[..m - 1], [ws[m - 1]]);
      assert ws[..m - 1] + [ws[m - 1]] == ws[..m];
    }
  }

  /** Validation fails exactly when no split of the words gives both a first
      and a last name of at most 30 characters. */
  lemma NameTooLongIffNoSplit(name: string)
    requires name != "" && Split(name) != []
    ensures CleanNameSpec(name) == Err(NameTooLong) <==>
            forall k :: 1 <= k <= |Split(name)| ==>
              |Join(" ", Split(name)[..k])| > MaxNameLength || |Join(" ", Split(name)[k..])| > MaxNameLength
  {
    var ws := Split(name);
    var n := SplitPoint(ws, 1);
    if |Join(" ", ws[..n])| > MaxNameLength {
      forall k | 1 <= k <= |ws| && |Join(" ", ws[k..])| <= MaxNameLength
        ensures |Join(" ", ws[..k])| > MaxNameLength
      {
        FirstNameGrows(ws, n, k);
      }
    }
  }

  /** clean_name as evidently intended: a name made only of whitespace has
      no words and clears both names, like an empty one, instead of
      failing on `parts[0]`. */
  function CleanNameFixed(name: string): (r: Result<(string, string), NameError>)
    ensures r != Err(NoWords)
    ensures Split(name) == [] ==> r == Ok(("", ""))
    ensures Split(name) != [] ==> r == CleanNameSpec(name)
  {
    if Split(name) == [] then Ok(("", "")) else CleanNameSpec(name)
  }

  /** The input that shows the crash: a name of one space. */
  lemma BlankNameCrashes()
    ensures CleanNameSpec(" ") == Err(NoWords)
    ensures CleanNameFixed(" ") == Ok(("", ""))
  {
    assert Split(" ") == Split(" "[1..]);
    assert " "[1..] == "";
  }

  /** clean_username: an unchanged username is accepted without a lookup; a
      changed one is accepted only if no user already has it. */
  function CleanUsername(username: string, current: string, taken: set<string>): (r: Result<string, string>)
    ensures r.Ok? <==> (username == current || username !in taken)
    ensures r.Ok? ==> r.value == username
  {
    if username == current then Ok(username)
    else if username in taken then Err("That username is already taken.")
    else Ok(username)
  }

  /** The profile fields the form writes. An empty string stands for every
      falsy value (None, '', an empty upload). */
  datatype Profile = Profile(location: string, website: string, logo: string, description: string)

  const BlankProfile := Profile("", "", "", "")

  /** The body of save_m2m: a field is written only when its submitted
      value is truthy. */
  function UpdateProfile(p: Profile, cleaned: Profile): (r: Profile)
    ensures cleaned.location != "" ==> r.location == cleaned.location
    ensures cleaned.website != "" ==> r.website == cleaned.website
    ensures cleaned.logo != "" ==> r.logo == cleaned.logo
    ensures cleaned.description != "" ==> r.description == cleaned.description
  {
    Profile(
      if cleaned.location != "" then cleaned.location else p.location,
      if cleaned.website != "" then cleaned.website else p.website,
      if cleaned.logo != "" then cleaned.logo else p.logo,
      if cleaned.description != "" then cleaned.description else p.description)
  }

  /** Blank fields never erase stored data: a stored non-empty value stays
      non-empty, and a form with every field blank changes nothing. */
  lemma UpdateNeverErases(p: Profile, cleaned: Profile)
    ensures p.location != "" ==> UpdateProfile(p, cleaned).location != ""
    ensures p.website != "" ==> UpdateProfile(p, cleaned).website != ""
    ensures p.logo != "" ==> UpdateProfile(p, cleaned).logo != ""
    ensures p.description != "" ==> UpdateProfile(p, cleaned).description != ""
    ensures UpdateProfile(p, BlankProfile) == p
  {
  }

  /** Saving the same form twice stores what saving it once does. */
  lemma UpdateIdempotent(p: Profile, cleaned: Profile)
    ensures UpdateProfile(UpdateProfile(p, cleaned), cleaned) == UpdateProfile(p, cleaned)
  {
  }

  /** The user record the form edits, with its optional profile row. */
  class Account {
    var firstName: string
    var lastName: string
    var profile: Option<Profile>

    constructor (first: string, last: string, profile: Option<Profile>)
      ensures firstName == first && lastName == last && this.profile == profile
    {
      firstName := first;
      lastName := last;
      this.profile := profile;
    }

    /** ProfileForm.save: the cleaned name (('', '') when absent) goes onto
        the user, and the profile, created blank when missing, receives
        every truthy field. */
    method Save(cleanedName: Option<(string, string)>, cleaned: Profile)
      modifies this
      ensures (firstName, lastName) == cleanedName.GetOr(("", ""))
      ensures profile == Some(UpdateProfile(old(profile).GetOr(BlankProfile), cleaned))
    {
      var name := cleanedName.GetOr(("", ""));
      firstName := name.0;
      lastName := name.1;
      var p := if profile.Some? then profile.value else BlankProfile;
      profile := Some(UpdateProfile(p, cleaned));
    }
  }

  const Choices: seq<string> := ["video_approved", "video_comment", "comment_post_comment"]
  const AdminChoices: seq<string> := ["admin_new_comment", "admin_new_submission", "admin_new_playlist",
                                      "admin_video_updated", "admin_queue_daily", "admin_queue_weekly"]

  /** The notice labels offered to `user` on `site`: admins also get the
      admin notices. */
  function OfferedChoices(site: nat, user: User): (r: seq<string>)
    ensures UserIsAdmin(site, user) ==> r == Choices + AdminChoices
    ensures !UserIsAdmin(site, user) ==> r == Choices
  {
    if UserIsAdmin(site, user) then Choices + AdminChoices else Choices
  }

  /** NotificationsForm.__init__: the initial value lists, in offered order,
      the choices the user currently receives. */
  method InitialNotifications(offered: seq<string>, shouldSend: string -> bool) returns (initial: seq<string>)
    ensures initial == Filter(offered, shouldSend)
  {
    initial := [];
    var i := 0;
    while i < |offered|
      invariant 0 <= i <= |offered|
      invariant initial + Filter(offered[i..], shouldSend) == Filter(offered, shouldSend)
    {
      assert offered[i..] == [offered[i]] + offered[i + 1..];
      if shouldSend(offered[i]) {
        initial := initial + [offered[i]];
      }
      i := i + 1;
    }
    assert offered[i..] == [];
  }

  datatype SaveError = NoUser

  /** NotificationsForm.save: without a user it raises; otherwise every
      offered notice gets send = "was ticked", and the user's other settings
      stay as they were. */
  method SaveNotifications(user: Option<User>, offered: seq<string>, ticked: set<string>,
                           settings: map<string, bool>)
    returns (r: Result<map<string, bool>, SaveError>)
    ensures r.Err? <==> user.None?
    ensures r.Ok? ==> forall c :: c in offered ==> c in r.value && r.value[c] == (c in ticked)
    ensures r.Ok? ==> forall c :: c in settings && c !in offered ==> c in r.value && r.value[c] == settings[c]
    ensures r.Ok? ==> r.value.Keys == settings.Keys + (set c | c in offered)
  {
    if user.None? {
      return Err(NoUser);
    }
    var s := settings;
    var i := 0;
    while i < |offered|
      invariant 0 <= i <= |offered|
      invariant forall c :: c in offered[..i] ==> c in s && s[c] == (c in ticked)
      invariant forall c :: c in settings && c !in offered[..i] ==> c in s && s[c] == settings[c]
      invariant s.Keys == settings.Keys + (set c | c in offered[..i])
    {
      assert offered[..i + 1] == offered[..i] + [offered[i]];
      s := s[offered[i] := offered[i] in ticked];
      i := i + 1;
    }
    assert offered[..i] == offered;
    return Ok(s);
  }
}
