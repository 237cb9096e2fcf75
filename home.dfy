/**
 * The home screen's search state: the pagination handlers of the screen itself, the
 * filter panel's handlers (which write the screen's `params` and `page`), the debounced
 * refetch and the merge of the fetched page into the displayed dogs.
 */
module Home {
  import opened Wrappers
  import opened Sequences
  import opened Requests
  import Reducer
  import Components

  const DefaultPageSize := 25

  /** The initial `params` state. */
  const InitialParams := SearchParams(
    breeds := Some([]), zipCodes := Some([]), ageMin := Some(""), ageMax := Some(""),
    size := Some(DefaultPageSize), from := Some(0), sort := None, ids := None)

  /** The paginator's `count`: `data && data.total ? data.total : 0`. */
  function PageCount(data: Option<DogsData>): (n: int)
    ensures data.None? ==> n == 0
    ensures data.Some? ==> n == data.value.total
  {
    if data.Some? && data.value.total != 0 then data.value.total else 0
  }

  /** The state of the home screen and of its filter panel. */
  class Catalog {
    var page: nat
    var rowsPerPage: int
    var params: SearchParams
    var dogs: seq<Dog>
    /** The dogs query's last successful result. */
    var data: Option<DogsData>
    /** The filter panel's select. */
    var filterType: string
    /** The timer the debounce effect's cleanup will clear. */
    var pending: Option<nat>
    /** The debounce timers still scheduled on the event loop. */
    var timers: set<nat>
    var nextTimer: nat

    /** The offset matches the page, and no timer other than the pending one is scheduled. */
    ghost predicate Valid()
      reads this
    {
      && params.size == Some(rowsPerPage)
      && params.from == Some(page * rowsPerPage)
      && timers <= (if pending.Some? then {pending.value} else {})
      && (pending.Some? ==> pending.value < nextTimer)
    }

    /** Exactly one refetch is scheduled: the one with the handle `t`. */
    ghost predicate OnlyScheduled(t: nat)
      reads this
    {
      pending == Some(t) && timers == {t} && nextTimer == t + 1
    }

    /** The state after the first render, whose debounce effect scheduled the first refetch. */
    constructor ()
      ensures Valid()
      ensures page == 0 && rowsPerPage == DefaultPageSize && params == InitialParams
      ensures dogs == [] && data == None && filterType == "All"
      ensures OnlyScheduled(0)
    {
      page := 0;
      rowsPerPage := DefaultPageSize;
      params := InitialParams;
      dogs := [];
      data := None;
      filterType := "All";
      pending := Some(0);
      timers := {0};
      nextTimer := 1;
    }

    /** The debounce effect, run after each change of `params`: clear the old timer, schedule a new one. */
    method Reschedule()
      requires timers <= (if pending.Some? then {pending.value} else {})
      requires pending.Some? ==> pending.value < nextTimer
      modifies this`pending, this`timers, this`nextTimer
      ensures old(pending).Some? ==> old(pending).value !in timers
      ensures OnlyScheduled(old(nextTimer))
    {
      if pending.Some? {
        timers := timers - {pending.value};
      }
      timers := timers + {nextTimer};
      pending := Some(nextTimer);
      nextTimer := nextTimer + 1;
    }

    /** The filter panel's `resetPage`. */
    method ResetPage()
      modifies this`page
      ensures page == 0
    {
      page := 0;
    }

    /** `onPageChange(_, newPage)`: the offset follows the page; the filters stay. */
    method OnPageChange(newPage: nat)
      requires Valid()
      modifies this
      ensures Valid()
      ensures params == old(params).(from := Some(newPage * old(params).size.GetOr(DefaultPageSize)))
      ensures page == newPage && rowsPerPage == old(rowsPerPage)
      ensures dogs == old(dogs) && data == old(data) && filterType == old(filterType)
      ensures OnlyScheduled(old(nextTimer))
    {
      params := params.(from := Some(newPage * params.size.GetOr(DefaultPageSize)));
      page := newPage;
      Reschedule();
    }

    /** `onRowsPerPageChange`: a new page size goes back to the first page. */
    method OnRowsPerPageChange(value: int)
      requires Valid()
      modifies this
      ensures Valid()
      ensures params == old(params).(from := Some(0), size := Some(value))
      ensures page == 0 && rowsPerPage == value
      ensures dogs == old(dogs) && data == old(data) && filterType == old(filterType)
      ensures OnlyScheduled(old(nextTimer))
    {
      rowsPerPage := value;
      params := params.(from := Some(0), size := Some(value));
      page := 0;
      Reschedule();
    }

    /** A breed checkbox: drop the breed from the selection, and add it back at the end if it was unchecked. */
    method ToggleBreed(breed: string)
      requires Valid()
      modifies this
      ensures Valid()
      ensures var before := old(params).breeds.GetOr([]);
              && params == old(params).(from := Some(0), breeds := Some(Reducer.Toggled(before, breed)))
              && (breed in before ==> params.breeds == Some(Remove(before, breed)))
              && (breed !in before ==> params.breeds == Some(before + [breed]))
      ensures page == 0 && rowsPerPage == old(rowsPerPage)
      ensures dogs == old(dogs) && data == old(data) && filterType == old(filterType)
      ensures OnlyScheduled(old(nextTimer))
    {
      var selected := params.breeds.GetOr([]);
      var checked := breed in selected;
      var breeds := Remove(selected, breed);
      if !checked {
        RemoveAbsent(selected, breed);
        breeds := breeds + [breed];
      }
      params := params.(from := Some(0), breeds := Some(breeds));
      ResetPage();
      Reschedule();
    }

    /** The minimum age input. */
    method ChangeAgeMin(text: string)
      requires Valid()
      modifies this
      ensures Valid()
      ensures params == old(params).(from := Some(0), ageMin := Some(Components.SanitizeAge(text)))
      ensures page == 0 && rowsPerPage == old(rowsPerPage)
      ensures dogs == old(dogs) && data == old(data) && filterType == old(filterType)
      ensures OnlyScheduled(old(nextTimer))
    {
      params := params.(from := Some(0), ageMin := Some(Components.SanitizeAge(text)));
      ResetPage();
      Reschedule();
    }

    /** The maximum age input. */
    method ChangeAgeMax(text: string)
      requires Valid()
      modifies this
      ensures Valid()
      ensures params == old(params).(from := Some(0), ageMax := Some(Components.SanitizeAge(text)))
      ensures page == 0 && rowsPerPage == old(rowsPerPage)
      ensures dogs == old(dogs) && data == old(data) && filterType == old(filterType)
      ensures OnlyScheduled(old(nextTimer))
    {
      params := params.(from := Some(0), ageMax := Some(Components.SanitizeAge(text)));
      ResetPage();
      Reschedule();
    }

    /** The zip codes input. */
    method ChangeZipCodes(text: string)
      requires Valid()
      modifies this
      ensures Valid()
      ensures params == old(params).(from := Some(0), zipCodes := Components.ParseZipCodes(text))
      ensures page == 0 && rowsPerPage == old(rowsPerPage)
      ensures dogs == old(dogs) && data == old(data) && filterType == old(filterType)
      ensures OnlyScheduled(old(nextTimer))
    {
      params := params.(from := Some(0), zipCodes := Components.ParseZipCodes(text));
      ResetPage();
      Reschedule();
    }

    /**
     * The filter panel's effect, run when the select or the favorites change: restrict the
     * search to the favorites, or lift the restriction. Neither the offset nor the page moves.
     */
    method SyncFavoritesFilter(favorites: seq<string>)
      requires Valid()
      modifies this
      ensures Valid()
      ensures params == old(params).(ids := if filterType == "favorites" then Some(favorites) else None)
      ensures page == old(page) && rowsPerPage == old(rowsPerPage) && filterType == old(filterType)
      ensures dogs == old(dogs) && data == old(data)
      ensures OnlyScheduled(old(nextTimer))
    {
      if filterType == "favorites" {
        params := params.(ids := Some(favorites));
      } else {
        params := params.(ids := None);
      }
      Reschedule();
    }

    /**
     * Choosing a filter in the select. A new choice triggers the favorites effect; choosing
     * the current value again changes no state, so no effect runs and nothing is rescheduled.
     */
    method SelectFilterType(choice: string, store: Reducer.AppState)
      requires Valid()
      modifies this
      ensures Valid()
      ensures filterType == choice
      ensures choice == old(filterType) ==>
                params == old(params) && pending == old(pending) && timers == old(timers) && nextTimer == old(nextTimer)
      ensures choice != old(filterType) ==>
                params == old(params).(ids := if choice == "favorites" then Some(store.favorites) else None)
      ensures choice != old(filterType) ==> OnlyScheduled(old(nextTimer))
      ensures page == old(page) && rowsPerPage == old(rowsPerPage)
      ensures dogs == old(dogs) && data == old(data)
    {
      if choice != filterType {
        filterType := choice;
        SyncFavoritesFilter(store.favorites);
      }
    }

    /** The effect on `data`: whenever there is data, its dogs are displayed. */
    method SyncDogs()
      modifies this`dogs
      ensures dogs == if data.Some? then data.value.dogs else old(dogs)
    {
      if data.Some? {
        dogs := data.value.dogs;
      }
    }

    /**
     * The pending timer fires: the query refetches with the current `params`; a failure
     * keeps the previous data; the displayed dogs follow the data.
     */
    method RefetchFires(t: nat, server: Server) returns (r: Result<DogsData>, issued: seq<Request>)
      requires Valid() && t in timers
      modifies this
      ensures Valid()
      ensures timers == old(timers) - {t} && timers == {}
      ensures pending == old(pending) && nextTimer == old(nextTimer)
      ensures DogsOutcome(server, Some(params), r, issued)
      ensures params.ids.Some? ==> issued == [PostDogs(params.ids.value)]
      ensures data == if r.Ok? then Some(r.value) else old(data)
      ensures dogs == if data.Some? then data.value.dogs else old(dogs)
      ensures params == old(params) && page == old(page) && rowsPerPage == old(rowsPerPage)
      ensures filterType == old(filterType)
    {
      timers := timers - {t};
      r, issued := FetchDogs(server, Some(params));
      if params.ids.Some? {
        IdsModeNeverSearches(server, params, r, issued);
      }
      if r.Ok? {
        data := Some(r.value);
      }
      SyncDogs();
    }
  }

  /** At most one refetch is ever pending. */
  lemma AtMostOnePending(c: Catalog)
    requires c.Valid()
    ensures |c.timers| <= 1
  {
    if c.pending.Some? {
      var s := {c.pending.value};
      assert |s| == 1;
      assert c.timers == {} || c.timers == s;
    } else {
      assert c.timers == {};
    }
  }
}
