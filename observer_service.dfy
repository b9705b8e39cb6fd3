/** The observer service: resolves observers through the store, turning a
    miss into a client error, before any domain computation. */
module ObserverService {
  import opened Wrappers
  import opened Exceptions
  import opened PaginationParams
  import opened ObserverStore

  class ObserverService {
    /** The injected store. */
    const store: ObserverStore

    constructor (store: ObserverStore)
      ensures this.store == store
    {
      this.store := store;
    }

    /** The store's observer for `observerId`, or `ObserverNotFoundError`
        (404, "unknown_observer") carrying the id. */
    function GetObserverById(observerId: string): (r: Result<Observer, Error>)
      ensures r.Failure? <==> observerId !in store.sites
      ensures r.Success? ==> Some(r.value) == store.GetObserverById(observerId)
      ensures r.Failure? ==> && r.error == ObserverNotFoundError(observerId)
                             && r.error.StatusCode() == 404
                             && r.error.ErrorCode() == UnknownObserverCode
    {
      var observer := store.GetObserverById(observerId);
      if observer.None? then Failure(ObserverNotFoundError(observerId))
      else Success(observer.value)
    }

    /** Lists observers by handing the name pattern (default none) and the
        pagination to the store's listing query, which is given here as
        `storeGetObservers`. */
    function GetObservers<Page>(storeGetObservers: (Option<string>, Pagination) -> Page,
                                pagination: Pagination, namePattern: Option<string> := None): (r: Page)
      ensures r == storeGetObservers(namePattern, pagination)
    {
      storeGetObservers(namePattern, pagination)
    }

    /** The observability of a target for an observer: the observer is
        resolved first, so an unknown id fails with the not-found error
        whatever `compute` would do; `compute` is the domain's
        `TargetObservability.compute`. */
    function GetTargetObservability<Target, Time, Observability>(
      observerId: string, target: Target, time: Time,
      compute: (Observer, Target, Time) -> Observability): (r: Result<Observability, Error>)
      ensures r.Failure? <==> GetObserverById(observerId).Failure?
      ensures r.Failure? ==> r.error == ObserverNotFoundError(observerId)
      ensures r.Success? ==> r.value == compute(GetObserverById(observerId).value, target, time)
    {
      var observer := GetObserverById(observerId);
      if observer.Failure? then Failure(observer.error)
      else Success(compute(observer.value, target, time))
    }
  }
}
