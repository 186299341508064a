# promise-all-settled-plus, modelled in Dafny

`promiseAllSettledPlus(promises)` checks that its argument is an array and
that the runtime has `Promise.allSettled`. It then settles every item without
stopping at the first rejection. It resolves with an object that holds the
settled list as `rawResult`, plus six getters computed from that list:
`allFulfilled`, `allRejected`, `fulfilledCount`, `rejectedCount`,
`hasFulfilled` and `hasRejected`. An empty list is a deliberate special case:
the four flags are false, not vacuously true.

The model has two modules:

- `JsArray` (`js_array.dfy`) models `Array.prototype.filter`, `every` and
  `some` over a sequence. It proves the facts the getters rest on: `filter`
  keeps order, its length counts the passing positions, it keeps every element
  exactly when `every` holds, it keeps something exactly when `some` holds, and
  two complementary filters split the sequence.
- `SettledPlus` (`settled_plus.dfy`) holds the outcome variant, the two status
  tests, the `View` datatype with one function per getter, the settle step
  `AllSettled`, and the guarded entry point `PromiseAllSettledPlus`.

The settle step is a parameter. `settle: P -> Outcome<V, R>` gives each item's
terminal outcome, and `AllSettled` maps it over the items in order. The
capability check `typeof Promise.allSettled !== 'function'` is the boolean
parameter `allSettledPresent`. Every JavaScript value that is not an array
(a number, a `Map`, `undefined`, …) is the single case `Input.NotArray`.

The doc comment at src/index.js:4-6 documents an `options.checkInputForPromises`
argument, but the function at src/index.js:9 takes only `promises`. The model
follows the function, so it has no options argument and no per-element check.

## Model

| member | source | states |
|---|---|---|
| `JsArray.Filter` | src/index.js:31 | the filtered list is no longer than the input, holds only passing elements of the input, and holds every passing element |
| `JsArray.FilterConcat` | src/index.js:31 | filtering a concatenation is the concatenation of the filters, i.e. filter keeps order |
| `JsArray.FilterLengthIsIndexCount` | src/index.js:31 | `filter(test).length` equals the number of positions whose element passes the test |
| `JsArray.FilterKeepsAllIffEvery` | src/index.js:25 | the filter keeps every element if and only if `every` holds |
| `JsArray.FilterNonEmptyIffSome` | src/index.js:34 | the filter keeps at least one element if and only if `some` holds |
| `JsArray.FilterComplementLengths` | src/index.js:20-21 | if every element of the list passes exactly one of two tests, the two filter lengths add up to the list's length |
| `JsArray.Every` | src/index.js:25 | reference definition of `every`: true on an empty list, and true iff every member passes the test |
| `JsArray.Some` | src/index.js:34 | reference definition of `some`: false on an empty list, and true iff some member passes the test |
| `SettledPlus.FulfilledTest` | src/index.js:20 | reference definition of `fulfilledTest`: an outcome is fulfilled exactly when it is not rejected |
| `SettledPlus.RejectedTest` | src/index.js:20-21 | an outcome is rejected exactly when it is not fulfilled, so each outcome passes exactly one status test |
| `SettledPlus.View.FulfilledCount` | src/index.js:30-32 | `fulfilledCount` is at most the list's length and equals the number of positions holding a fulfilled outcome |
| `SettledPlus.View.RejectedCount` | src/index.js:40-42 | `rejectedCount` is at most the list's length and equals the number of positions holding a rejected outcome |
| `SettledPlus.View.AllFulfilled` | src/index.js:24-26 | `allFulfilled` holds iff the list is non-empty and `fulfilledCount` equals its length, iff the list is non-empty and every position is fulfilled |
| `SettledPlus.View.AllRejected` | src/index.js:27-29 | `allRejected` holds iff the list is non-empty and `rejectedCount` equals its length, iff the list is non-empty and every position is rejected |
| `SettledPlus.View.HasFulfilled` | src/index.js:33-35 | `hasFulfilled` holds iff `fulfilledCount > 0`, iff some position holds a fulfilled outcome |
| `SettledPlus.View.HasRejected` | src/index.js:36-38 | `hasRejected` holds iff `rejectedCount > 0`, iff some position holds a rejected outcome |
| `SettledPlus.CountsPartition` | src/index.js:20-42 | `fulfilledCount + rejectedCount` equals the length of `rawResult` |
| `SettledPlus.EmptyView` | src/index.js:24-42 | on an empty `rawResult` all four flags are false and both counts are 0 |
| `SettledPlus.AllFlagsExclusive` | src/index.js:24-29 | `allFulfilled` and `allRejected` never both hold |
| `SettledPlus.AllFulfilledImplies` | src/index.js:24-38 | `allFulfilled` implies `hasFulfilled` and not `hasRejected` |
| `SettledPlus.AllRejectedImplies` | src/index.js:24-38 | `allRejected` implies `hasRejected` and not `hasFulfilled` |
| `SettledPlus.HasSomeIffNonEmpty` | src/index.js:33-38 | at least one of `hasFulfilled` and `hasRejected` holds iff `rawResult` is non-empty |
| `SettledPlus.AllSettled` | src/index.js:18-19 | the settled list has the input's length, and position i holds the outcome of item i |
| `SettledPlus.AllSettledConcat` | src/index.js:18-19 | settling a concatenation gives the concatenation of the settled lists, so no outcome moves or depends on another item |
| `SettledPlus.PromiseAllSettledPlus` | src/index.js:9-45 | a non-array throws TypeError "input must be an array" whatever the capability flag says; an array without `Promise.allSettled` throws the Error with its message; otherwise the call succeeds with a `rawResult` of the input's length whose position i is item i's outcome |
| `SettledPlus.GuardIgnoresSettle` | src/index.js:10-18 | when the guard throws, the failure does not depend on `settle`: it is decided by the input and the capability flag alone |

## Left out

- The asynchronous waiting of `Promise.allSettled` and the `.then` chaining (src/index.js:18-19). The model has no event loop. The settled list is what the continuation receives. The "never rejects" promise is the `Success` case.
- The concrete values and reasons inside outcomes. They are the opaque type parameters `V` and `R`.
- The `checkInputForPromises` option named in the doc comment (src/index.js:4-6). The function never reads an options argument, so nothing models it.
- Accepting non-array iterables such as `Map`. The array guard rejects them, and the model follows the guard.
- The export line at src/index.js:47. It is packaging, not behaviour.
- A caller changing `rawResult` after the promise resolves. The object built at src/index.js:23-43 is an ordinary mutable object, and each getter reads `this.rawResult` at the moment it is read. So `res.rawResult.push(...)` or `res.rawResult = []` changes what later reads return. `View` is an immutable value, so the model does not capture that mutation or reassignment.
