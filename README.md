# fastapi-bootcamp core, modelled in Dafny

This project models the deterministic logic of the FastAPI bootcamp
service (`fastapibootcamp`):

- the **singleton dependency** `ExampleSingletonDependency`, a class whose
  one optional field is set by `init` to an "adjective animal" string, read
  (or refused) by `__call__` and cleared by `aclose`;
- the **external greeting handlers**: fixed greetings per `Language`, the
  POST greeting built from a `"...{name}!"` template, the logging demo, the
  error demo and the dependency demo;
- the **pagination dependency**: `SortOrder`, `Pagination`, its
  `query_params` rendering, and `pagination_dependency` with its defaults
  and its `page >= 1` bound;
- the **observer store**: the slug-keyed site table, lookup by id and the
  sorted id listing;
- the **observer service**: the not-found rule (404, `unknown_observer`),
  forwarding of listing queries, and resolving the observer before any
  observability computation.

Python builtins the core leans on are modelled where their behaviour
matters: `str(int)` and the reading of decimal query values (`IntText`),
ordering of `str` used by `sorted` (`StrOrder`) and `str.format` with one
`{name}` field (`StrFormat`). A raised exception is a `Failure` of an
`Exceptions.Error`; `None` is `Wrappers.Option.None`.

Files: `wrappers.dfy`, `exceptions.dfy`, `int_text.dfy`, `str_order.dfy`,
`str_format.dfy`, `pagination.dfy`, `singleton_dependency.dfy`,
`external.dfy`, `observer_store.dfy`, `observer_service.dfy`.

## Model

| member | source | states |
|---|---|---|
| `Exceptions.Error.StatusCode` | src/fastapibootcamp/exceptions.py:10-15 | the not-found error answers 404 and a validation error 422, the only answers below 500; any other raised exception is a 500 |
| `IntText.IntToDecimalRoundTrip` | src/fastapibootcamp/dependencies/pagination.py:44-45 | `str(i)` of every integer, negative ones included, is a canonical decimal and reads back as `i` |
| `IntText.DecimalRoundTrip` | src/fastapibootcamp/dependencies/pagination.py:44-45 | every canonical decimal string reads as an integer whose `str` is that string: rendering and reading are inverse |
| `StrOrder.MinimumExists` | src/fastapibootcamp/storage/observerstore.py:85 | under Python's string order every non-empty set of ids has a least element (what `sorted` emits first) |
| `StrFormat.FormatOneField` | src/fastapibootcamp/handlers/external.py:286 | formatting a template `prefix{name}suffix` without other braces yields `prefix + name + suffix` |
| `PaginationParams.ParseSortOrder` | src/fastapibootcamp/dependencies/pagination.py:16-20 | reading an order value gives the member whose value it is, and fails exactly when no member has that value |
| `PaginationParams.SortOrderRoundTrip` | src/fastapibootcamp/dependencies/pagination.py:16-20 | each `SortOrder`'s value reads back as that member |
| `PaginationParams.Pagination.QueryParams` | src/fastapibootcamp/dependencies/pagination.py:36-47 | exactly the keys `page`, `limit`, `order`; page and limit are canonical decimals reading back as the fields; order is `"asc"` or `"desc"` and reads back as the field |
| `PaginationParams.PaginationDependency` | src/fastapibootcamp/dependencies/pagination.py:50-86 | defaults 1, 10, asc; a page below 1 is rejected with a 422 validation error on `page`; otherwise the result's fields are the arguments |
| `PaginationParams.PaginationFromQuery` | src/fastapibootcamp/dependencies/pagination.py:50-60 | a missing parameter takes its default and a present one is the value read from it; it fails exactly when some parameter is unreadable or `page < 1`, naming every such parameter; any success has `page >= 1` |
| `PaginationParams.QueryDefaults` | src/fastapibootcamp/dependencies/pagination.py:51-60 | an empty query string gives page 1, limit 10, ascending |
| `PaginationParams.QueryParamsRoundTrip` | src/fastapibootcamp/dependencies/pagination.py:36-47 | reading back `query_params` of any pagination equals the dependency on its fields: the same pagination when `page >= 1`, the page error otherwise |
| `SingletonDependency.ExampleSingletonDependency.constructor` | src/fastapibootcamp/dependencies/singletondependency.py:18-24 | a fresh dependency holds no state |
| `SingletonDependency.ExampleSingletonDependency.Init` | src/fastapibootcamp/dependencies/singletondependency.py:26-32 | the state becomes `adjective + " " + animal` with the adjective from `ADJECTIVES` and the animal from `ANIMALS` |
| `SingletonDependency.ExampleSingletonDependency.Call` | src/fastapibootcamp/dependencies/singletondependency.py:34-45 | raises the not-initialised internal error exactly when the state is unset, otherwise returns the stored value, which is an adjective-animal pair; the state is not changed |
| `SingletonDependency.ExampleSingletonDependency.Aclose` | src/fastapibootcamp/dependencies/singletondependency.py:47-54 | the state is unset again |
| `SingletonDependency.Lifecycle` | src/fastapibootcamp/dependencies/singletondependency.py:18-54 | a call before `init` raises; two calls after `init` return the same adjective-animal value; a call after `aclose` raises again |
| `External.ParseLanguage` | src/fastapibootcamp/handlers/external.py:136-141 | reading a language code gives the member with that value, and fails exactly when no member has it |
| `External.GetGreeting` | src/fastapibootcamp/handlers/external.py:117-119 | always `"Hello, SQuaRE Services Bootcamp!"`, the English entry of the multilingual greeting |
| `External.GetEnglishGreeting` | src/fastapibootcamp/handlers/external.py:152-160 | the `/hello` greeting in language `en`, equal to the multilingual greeting with its default language |
| `External.GreetingsAddressAudience` | src/fastapibootcamp/handlers/external.py:183-187 | every fixed greeting is the language's prefix, then `SQuaRE Services Bootcamp!` |
| `External.GetMultilingualGreeting` | src/fastapibootcamp/handlers/external.py:174-191 | defaults to `en`; echoes the requested language; the greeting is that language's prefix addressed to the bootcamp |
| `External.GetMultilingualGreetingPath` | src/fastapibootcamp/handlers/external.py:218-235 | for every language, the same response as the query-parameter variant |
| `External.PostGreeting` | src/fastapibootcamp/handlers/external.py:262-288 | the greeting is `prefix(language) + name + "!"` (prefixes `Hello, `, `¡Hola, `, `Bonjour, `), the request language (default `en`) is echoed |
| `External.PostLogDemo` | src/fastapibootcamp/handlers/external.py:305-335 | the same response as the POST greeting for the same request |
| `External.PostGreetingToAudience` | src/fastapibootcamp/handlers/external.py:279-283 | posting the name `SQuaRE Services Bootcamp` yields the fixed greeting of the GET handlers in every language |
| `External.PostErrorDemo` | src/fastapibootcamp/handlers/external.py:371-391 | never returns a response: raises the internal demo error exactly when `custom_error` (default true), a `RuntimeError` exactly otherwise, both answered with 500 |
| `External.GetDependencyDemo` | src/fastapibootcamp/handlers/external.py:449-478 | page, limit, order and the persistent value are copied into the response unchanged |
| `External.ResolveDependencyDemo` | src/fastapibootcamp/handlers/external.py:454-478 | with the singleton resolved: raises the not-initialised error exactly when it is unset, otherwise the response carries the pagination and the singleton's adjective-animal value |
| `ObserverStore.SiteTable` | src/fastapibootcamp/storage/observerstore.py:45-48 | a slug is a table key exactly when it is the slug of some site-data key; each key maps to the record of the last site with that slug |
| `ObserverStore.ObserverStore.constructor` | src/fastapibootcamp/storage/observerstore.py:36-48 | the store's table is the slug table of the site data |
| `ObserverStore.ObserverStore.GetObserverById` | src/fastapibootcamp/storage/observerstore.py:50-79 | `None` exactly when the id, taken verbatim, is not a table key; otherwise the observer carries the requested id and the site's name, aliases, timezone and geodetic location; the table is read only |
| `ObserverStore.ObserverStore.ObserverIds` | src/fastapibootcamp/storage/observerstore.py:81-85 | the ids are strictly ascending in Python's string order, hold exactly the table keys, and as many as there are keys (a permutation of the key set) |
| `ObserverService.ObserverService.constructor` | src/fastapibootcamp/services/observerservice.py:30-34 | the service uses the store it is given |
| `ObserverService.ObserverService.GetObserverById` | src/fastapibootcamp/services/observerservice.py:36-41 | the store's observer when it finds one; otherwise `ObserverNotFoundError` carrying the id, with status 404 and code `unknown_observer` |
| `ObserverService.ObserverService.GetObservers` | src/fastapibootcamp/services/observerservice.py:43-67 | the name pattern (default none) and the pagination reach the store's listing query unchanged, and its page is returned |
| `ObserverService.ObserverService.GetTargetObservability` | src/fastapibootcamp/services/observerservice.py:69-91 | fails with the not-found error for the id exactly when the lookup fails, whatever the computation; otherwise the result is the computation for the resolved observer, target and time |

## Left out

- Logging (`logger.info`, `bind`), `get_index` and its package metadata, and
  the reporting of uncaught errors to Slack: side effects with no bearing on
  responses.
- `random.choice` in `init`: the adjective and the animal are chosen
  nondeterministically; which one is chosen is not modelled.
- The module-level singleton instance and application start-up: the model
  does not assume `init` runs at start-up (the application's lifespan in
  `main.py` does not call it); the dependency demo receives the instance.
- `slugify` and the reading and JSON parsing of `sites.json`: the slug
  function and the parsed key/record pairs (in file order) are constructor
  parameters. Records missing a field (a `KeyError` in Python) are not
  modelled; every record has all fields.
- `EarthLocation.from_geodetic` and unit handling: the location is an opaque
  value holding the record's geodetic fields.
- `TargetObservability.compute` and the astronomy computations: a function
  parameter of `GetTargetObservability`; its own failures are not modelled.
- `ObserverService.ObserverService.GetObservers`: the store's `get_observers`
  and the `ObserversPage` model are not part of this model (neither is
  defined in the store or domain files), so the store's listing query is a
  parameter and the contract states only the forwarding.
- Filtering, sorting and offset pagination of observers: not defined in the
  modelled store.
- The not-found error's location tags (`path`, `observer_id`) added by the
  astroplan endpoint, response models for observers, URL building and
  routing: framework glue, not part of this model.
- `PaginationParams.PaginationFromQuery`: reads integers as an optional `-`
  followed by ASCII digits; the framework's laxer integer parsing
  (surrounding spaces, `+`, underscores) is not modelled.
- `StrFormat.FormatOneField`: `str.format` is modelled only for `{name}`
  fields; escaped braces and other fields, which the greeting templates do
  not use, are not modelled.
- `DemoInternalError`: imported by the handlers and the singleton
  dependency but not defined in the exceptions module; it is modelled as
  an internal error carrying a message and optional custom data, answered
  with 500 like any uncaught exception (its Slack reporting class is not
  part of this model).
- `async`/`await`: every operation is modelled as sequential.
