/**
 * The home screen's components: the app bar (match button and log out), the pure
 * parts of the filter panel, the dog card and the match modal.
 */
module Components {
  import opened Wrappers
  import opened Text
  import opened Requests
  import Reducer

  // ---------------------------------------------------------------------------
  // AppBar

  const NoFavoritesWarning := "Please mark some puppies as your favorite first."

  /** The toast state `{message, severity, open: true}`; `None` is the cleared state `{}`. */
  datatype Toast = Toast(message: string, severity: string)

  /** The match button's caption. */
  function MatchButtonLabel(matched: Option<Dog>): (caption: string)
    ensures caption == "View my match" <==> matched.Some?
    ensures caption == "Find my match" <==> matched.None?
  {
    if matched.Some? then "View my match" else "Find my match"
  }

  class AppBar {
    var toast: Option<Toast>
    var matchModalOpen: bool

    constructor ()
      ensures toast == None && !matchModalOpen
    {
      toast := None;
      matchModalOpen := false;
    }

    /** The match button: it opens the modal only when some dog is a favorite, otherwise it warns. */
    method OnMatchClick(store: Reducer.AppState)
      modifies this
      ensures |store.favorites| > 0 ==> matchModalOpen && toast == old(toast)
      ensures |store.favorites| == 0 ==> matchModalOpen == old(matchModalOpen)
      ensures |store.favorites| == 0 ==> toast == Some(Toast(NoFavoritesWarning, "warning"))
    {
      if |store.favorites| > 0 {
        matchModalOpen := true;
      } else {
        toast := Some(Toast(NoFavoritesWarning, "warning"));
      }
    }

    method HideToast()
      modifies this
      ensures toast == None && matchModalOpen == old(matchModalOpen)
    {
      toast := None;
    }

    /** The modal's `onClose`, which calls the app bar's `setMatchModalOpen(false)`. */
    method CloseMatchModal()
      modifies this
      ensures !matchModalOpen && toast == old(toast)
    {
      matchModalOpen := false;
    }

    /**
     * "Log Out": the logout request is awaited first; only when it does not throw is
     * `setLoginStatus(false)` dispatched, whatever the status check said.
     */
    method OnLogOut(store: Reducer.AppState, server: Server) returns (issued: seq<Request>)
      modifies store
      ensures issued == [Axios(LogoutCall())]
      ensures LogoutUser(server).Ok? ==> !store.loggedIn
      ensures LogoutUser(server).Err? ==> store.loggedIn == old(store.loggedIn)
      ensures store.favorites == old(store.favorites) && store.dogs == old(store.dogs)
      ensures store.matched == old(store.matched) && store.location == old(store.location)
    {
      issued := [Axios(LogoutCall())];
      var r := LogoutUser(server);
      if r.Ok? {
        store.SetLoginStatus(false);
      }
    }
  }

  // ---------------------------------------------------------------------------
  // FilterButton: the input sanitising

  /** The age inputs: `value.replace(/[^0-9]/, "")`. */
  function SanitizeAge(text: string): (r: string)
    ensures AllIn(text, Digits) ==> r == text
    ensures CountOutside(r, Digits) == if CountOutside(text, Digits) == 0 then 0 else CountOutside(text, Digits) - 1
  {
    ReplaceRemovesOne(text, Digits);
    ReplaceFirstOutside(text, Digits)
  }

  /**
   * The zip input: drop the first character outside `[0-9\n]`, split on newlines, and
   * store `undefined` when the first line is empty, otherwise every line.
   */
  function ParseZipCodes(text: string): (r: Option<seq<string>>)
    ensures var lines := Split(ReplaceFirstOutside(text, DigitsOrNewline), '\n');
            && (r.None? <==> lines[0] == [])
            && (r.Some? ==> r.value == lines)
  {
    var lines := Split(ReplaceFirstOutside(text, DigitsOrNewline), '\n');
    if |lines[0]| == 0 then None else Some(lines)
  }

  /** The zip input's displayed value: `(params.zipCodes || []).join("\n")`. */
  function ZipField(zipCodes: Option<seq<string>>): (text: string)
    ensures zipCodes.None? || zipCodes.value == [] ==> text == []
    ensures zipCodes.Some? && |zipCodes.value| >= 1 ==> zipCodes.value[0] <= text
    ensures zipCodes.Some? && |zipCodes.value| >= 2 ==> |text| > |zipCodes.value[0]| && text[|zipCodes.value[0]|] == '\n'
  {
    Join(zipCodes.GetOr([]), '\n')
  }

  /** Editing nothing in a displayed list of digit-only zip codes gives back the same list. */
  lemma ZipFieldRoundTrip(zipCodes: seq<string>)
    requires |zipCodes| >= 1 && zipCodes[0] != []
    requires forall k :: 0 <= k < |zipCodes| ==> AllIn(zipCodes[k], Digits)
    ensures ParseZipCodes(ZipField(Some(zipCodes))) == Some(zipCodes)
  {
    JoinDigitLines(zipCodes);
    SplitJoin(zipCodes, '\n');
  }

  /** An empty input, or one whose first line is empty, clears the zip filter entirely. */
  lemma ZipEmptyFirstLineClears(text: string)
    requires text == [] || text[0] == '\n'
    ensures ParseZipCodes(text) == None
  {
    var r := ReplaceFirstOutside(text, DigitsOrNewline);
    if text != [] {
      var i := FirstOutside(text, DigitsOrNewline);
      assert i >= 1 by {
        assert InClass(text[0], DigitsOrNewline);
      }
      assert r[0] == '\n';
    } else {
      assert r == [];
    }
  }

  // ---------------------------------------------------------------------------
  // DogCard

  /** `favorites.includes(dog.id)` */
  function IsFavorite(favorites: seq<string>, dog: Dog): (fav: bool)
    ensures fav <==> dog.id in favorites
  {
    dog.id in favorites
  }

  /** The heart button dispatches `updateFavorites(dog.id)`, which flips the card's favorite state. */
  method OnHeartClick(store: Reducer.AppState, dog: Dog)
    modifies store
    ensures store.favorites == Reducer.Toggled(old(store.favorites), dog.id)
    ensures IsFavorite(store.favorites, dog) == !IsFavorite(old(store.favorites), dog)
    ensures store.loggedIn == old(store.loggedIn) && store.dogs == old(store.dogs)
    ensures store.matched == old(store.matched) && store.location == old(store.location)
  {
    store.UpdateFavorites(dog.id);
  }

  /** `{age} year{age !== 1 ? "s" : ""} old` */
  function AgeLabel(age: int): (caption: string)
    ensures age == 1 <==> caption == "1 year old"
    ensures age != 1 ==> caption == IntText(age) + " years old"
  {
    IntText(age) + " year" + (if age != 1 then "s" else "") + " old"
  }

  /** The label determines the age. */
  lemma AgeLabelInjective(a: int, b: int)
    requires AgeLabel(a) == AgeLabel(b)
    ensures a == b
  {
    if a != 1 && b != 1 {
      var ta, tb := IntText(a), IntText(b);
      assert |ta| == |tb|;
      assert ta == AgeLabel(a)[..|ta|];
      assert tb == AgeLabel(b)[..|tb|];
      IntTextInjective(a, b);
    }
  }

  /** As the card shows it for a two-year-old. */
  lemma AgeLabelOfTwo()
    ensures AgeLabel(2) == "2 years old"
  {
  }

  // ---------------------------------------------------------------------------
  // MatchModal

  /** The modal's heading. */
  function ModalTitle(matched: Option<Dog>): (title: string)
    ensures title == "Match found!" <==> matched.Some?
    ensures title == "Finding your match..." <==> matched.None?
  {
    if matched.Some? then "Match found!" else "Finding your match..."
  }

  class MatchModal {
    /** The `"match"` query's data. */
    var data: Option<MatchData>

    constructor ()
      ensures data == None
    {
      data := None;
    }

    /**
     * The modal's effect: it asks for the match only while open and while the store has
     * none, and it copies the query's data into the store only when the store has none.
     */
    method Effect(open: bool, store: Reducer.AppState) returns (startFetch: bool)
      modifies store
      ensures startFetch <==> open && old(store.matched).None?
      ensures old(store.matched).Some? || data.None? ==>
                store.matched == old(store.matched) && store.location == old(store.location)
      ensures old(store.matched).None? && data.Some? ==>
                store.matched == Some(data.value.dog) && store.location == data.value.location
      ensures store.loggedIn == old(store.loggedIn) && store.dogs == old(store.dogs)
      ensures store.favorites == old(store.favorites)
    {
      startFetch := open && store.matched.None?;
      if data.Some? && store.matched.None? {
        store.UpdateMatch(data.value.dog);
        store.UpdateLocation(data.value.location);
      }
    }

    /** The query runs `fetchMatch(favorites)`; a failure keeps the previous data. */
    method Settle(server: Server, favorites: seq<string>) returns (r: Result<MatchData>, issued: seq<Request>)
      modifies this
      ensures MatchOutcome(server, favorites, r, issued)
      ensures data == if r.Ok? then Some(r.value) else old(data)
    {
      r, issued := FetchMatch(server, favorites);
      if r.Ok? {
        data := Some(r.value);
      }
    }

    /**
     * Opening the modal. The effect runs, and asks for the match when none is stored. When
     * the data arrives, the effect runs again. That run still sees no match, because its
     * dispatch comes after its fetch branch, so it asks for the match a second time. On a
     * later run a match is stored and nothing more is asked. With stale data from an earlier
     * query, the first run already stores the stale dog, so the run after the fetch asks
     * for nothing. The second request goes out anew, so `later` is the service as it
     * answers that one: its replies may differ from the first.
     */
    method Show(open: bool, store: Reducer.AppState, server: Server, later: Server) returns (issued: seq<Request>)
      modifies this, store
      ensures old(store.matched).Some? ==> issued == [] && store.matched == old(store.matched)
      ensures old(store.matched).Some? ==> store.location == old(store.location)
      ensures old(store.matched).Some? ==> data == old(data)
      ensures !open && old(data).None? ==> issued == [] && store.matched == old(store.matched)
      ensures !open && old(data).None? ==> store.location == old(store.location) && data == old(data)
      ensures !open && old(store.matched).None? && old(data).Some? ==>
                issued == [] && store.matched == Some(old(data).value.dog) && store.location == old(data).value.location
      ensures open && old(store.matched).None? && old(data).None? ==>
                exists r1, t1, r2, t2 ::
                  && MatchOutcome(server, old(store.favorites), r1, t1)
                  && MatchOutcome(later, old(store.favorites), r2, t2)
                  && issued == t1 + t2
                  // the first resolved match is the one stored; the query keeps the last one
                  && store.matched == (if r1.Ok? then Some(r1.value.dog) else if r2.Ok? then Some(r2.value.dog) else None)
                  && store.location == (if r1.Ok? then r1.value.location else if r2.Ok? then r2.value.location else old(store.location))
                  && data == (if r2.Ok? then Some(r2.value) else if r1.Ok? then Some(r1.value) else None)
      ensures open && old(store.matched).None? && old(data).Some? ==>
                store.matched == Some(old(data).value.dog) && store.location == old(data).value.location
      ensures open && old(store.matched).None? && old(data).Some? ==>
                exists r, t :: MatchOutcome(server, old(store.favorites), r, t) && issued == t
                  && data == (if r.Ok? then Some(r.value) else old(data))
      ensures store.favorites == old(store.favorites) && store.loggedIn == old(store.loggedIn)
      ensures store.dogs == old(store.dogs)
    {
      var startFetch := Effect(open, store);
      issued := [];
      if startFetch {
        var r1, t1 := Settle(server, store.favorites);
        issued := t1;
        startFetch := Effect(open, store);
        if startFetch {
          var r2, t2 := Settle(later, store.favorites);
          issued := issued + t2;
          startFetch := Effect(open, store);
        }
      }
    }
  }
}
