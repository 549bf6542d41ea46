# Todo screen state engine

A Dafny model of the React front end of a small todo application: the
response normalizer `normalizeTodos`, the filtered view `itemsToShow`, the
screen's state transitions (`refreshList`, `handleSubmit`, `handleDelete`,
`createItem`, `editItem`, `toggle`) and the edit form's draft (`Modal`).

- `wrappers.dfy` (`Wrappers`): `Option` and `Result`.
- `json.dfy` (`Json`): decoded JSON as JavaScript values, with the
  coercions the screen relies on: truthiness, property lookup, object spread
  `{...v}`, `{...o, [k]: v}`, `Object.values`, `String(v)` in template
  literals, and `toLowerCase`/`includes` for the HTML check. An object is the
  sequence of its own properties in enumeration order.
- `normalize.dfy` (`Normalize`): `normalizeTodos` and its shape rules.
- `items_view.dfy` (`ItemsView`): the tab filter and the partition of the
  list into the two tabs.
- `todo_app.dfy` (`TodoApp`): the screen. Its transitions are pure functions
  over a `Store` value (`Refreshed`, `Submitted`, `Deleted`). The class `App`
  holds the state slots as fields, and each handler method is proved to move
  the fields exactly as the matching function says. The HTTP client is an
  `Outcome` (resolved with a body, or rejected) handed in for each awaited
  call. Every request sent is appended to the field `issued` as verb, path
  and body.
- `todo_modal.dfy` (`TodoModal`): the form's draft, as the class `Modal`.
  Its submit and dismiss methods call the `App` handlers that the form
  receives as `onSave` and `toggle`.

Behaviour of the code worth knowing:

- An HTML page from the list endpoint makes `normalizeTodos` throw, but
  `refreshList` catches that error and shows its generic load message; the
  HTML error has no message of its own on screen
  (`TodoApp.HtmlPageShowsLoadError`).
- An unrecognised payload shape gives the empty list without any diagnostic.
- Arrays count as records in the keyed-object rule, because
  `typeof [] === "object"`.
- Saving flips the form flag (`toggle`) rather than setting it to closed.
- The only check on the draft is the title input's `required` attribute.
  It is modelled as the precondition `HasTitle` of `Modal.HandleSubmit`.
  `App.HandleSubmit` itself checks nothing.

## Model

| member | source | states |
|---|---|---|
| `Json.Get` | todo-frontend/src/App.jsx:18-19 | a property lookup finds a value exactly when the key is one of the object's properties, and the value found is that property's value |
| `Json.Values` | todo-frontend/src/App.jsx:21 | `Object.values` gives one value per property, the i-th value being the i-th property's |
| `Json.Set` | todo-frontend/src/components/Modal.jsx:11 | `{...prev, [name]: v}` keeps the length when `name` exists and otherwise appends exactly `(name, v)` |
| `Json.SetGet` | todo-frontend/src/components/Modal.jsx:11 | after the update `name` reads `v` and every other property reads as before |
| `Json.SetGetAll` | todo-frontend/src/components/Modal.jsx:11 | the same, for all property names at once |
| `Json.SetKeys` | todo-frontend/src/components/Modal.jsx:11 | the keys afterwards are the old keys plus `name`, and unique keys stay unique |
| `Json.Spread` | todo-frontend/src/App.jsx:75 | `{...item}` of an object is a copy of its properties; an array gives its i-th element under the key `"i"`; a string gives its i-th character, as a one-character string, under the key `"i"`; null, booleans and numbers give nothing; the copy's keys are unique |
| `Json.Truthy` | todo-frontend/src/App.jsx:55 | the falsy values are exactly `null`, `false`, `0` and the empty string; every array and object is truthy |
| `Json.NatToString` | todo-frontend/src/App.jsx:55 | a natural number is spelt with decimal digits whose value, read most significant first, is the number, with no leading zero (a single digit exactly below ten) |
| `Json.IntToString` | todo-frontend/src/App.jsx:55 | an integer is spelt with a minus sign exactly when it is negative, followed by the digits of its magnitude with no leading zero |
| `Json.NatToStringInjective` | todo-frontend/src/App.jsx:55 | distinct natural numbers are spelt differently |
| `Json.IntToStringInjective` | todo-frontend/src/App.jsx:66 | distinct integers are spelt differently, so distinct numeric ids give distinct paths |
| `Json.ToJsString` | todo-frontend/src/App.jsx:55 | a template literal spells `null` as "null", booleans as "true"/"false", a number by its decimal spelling, a string as itself, the empty array and an array holding only `null` as "", a one-element array as its element, and a plain object as "[object Object]" |
| `Json.PropToString` | todo-frontend/src/App.jsx:66 | a missing property is spelt "undefined", a present one as the template literal spells its value |
| `Json.LowerChar` | todo-frontend/src/App.jsx:14 | an ASCII capital becomes the lower-case letter 32 code points above it; every other character is kept |
| `Json.ToLower` | todo-frontend/src/App.jsx:14 | lower-casing keeps the length and maps each character on its own |
| `Json.ToLowerConcat` | todo-frontend/src/App.jsx:14 | lower-casing distributes over concatenation |
| `Json.ContainsInside` | todo-frontend/src/App.jsx:14 | `includes` finds a string wherever it is placed |
| `Json.ContainsOccurs` | todo-frontend/src/App.jsx:14 | `includes` holds exactly when the searched string occurs at some index |
| `Normalize.NormalizeTodos` | todo-frontend/src/App.jsx:13-25 | the only failure is a string holding the HTML marker, which fails with the HTML error; every record returned is a part of the payload |
| `Normalize.HtmlMeansMarkerFound` | todo-frontend/src/App.jsx:14 | a payload is taken for an HTML page exactly when it is a string whose lower-cased text holds `<!doctype html` at some index |
| `Normalize.HtmlRejectedInAnyCase` | todo-frontend/src/App.jsx:14-16 | a string holding `<!doctype html` in any letter case, anywhere, is rejected |
| `Normalize.NormalizeIdempotent` | todo-frontend/src/App.jsx:17 | an array is returned unchanged, so normalizing a normalized list changes nothing |
| `Normalize.WrappedListTaken` | todo-frontend/src/App.jsx:18-19 | an array under `results` wins over everything else; an array under `items` is taken when `results` holds none |
| `Normalize.KeyedRecords` | todo-frontend/src/App.jsx:20-24 | without those lists, an object gives its values in key order when all are non-null objects, and the empty list otherwise; the empty object gives the empty list |
| `Normalize.OtherPayloadsEmpty` | todo-frontend/src/App.jsx:24 | null, booleans, numbers and strings without the marker give the empty list, without failing |
| `Normalize.ShapeInvariance` | todo-frontend/src/App.jsx:17-22 | a bare array, `{results}`, `{items}` and an object with one distinct key per record whose properties enumerate in the records' order (an id-keyed map whose ids ascend), all carrying the same object records, normalize to the same list |
| `Normalize.NormalizeWellFormed` | todo-frontend/src/App.jsx:17-22 | records taken from a well-formed payload are well-formed |
| `ItemsView.Filter` | todo-frontend/src/App.jsx:79 | each record is kept, as often as it occurs, exactly when `Boolean(t?.completed)` equals the flag |
| `ItemsView.ItemsToShow` | todo-frontend/src/App.jsx:77-80 | a list slot that is not an array shows nothing; for an array, a record is shown exactly when it is in the list and its completion matches the tab, as often as the list holds it, and in the list's order |
| `ItemsView.FilterKeepsOrder` | todo-frontend/src/App.jsx:79 | the view keeps the list's order |
| `ItemsView.ViewsPartition` | todo-frontend/src/App.jsx:77-80 | the two tabs are disjoint and together hold every record exactly as often as the list does, each in list order |
| `TodoApp.ItemPathInjective` | todo-frontend/src/App.jsx:55 | two item paths are equal only when the ids spell the same |
| `TodoApp.SaveRequest` | todo-frontend/src/App.jsx:55-56 | PUT to the draft's own path exactly when its `id` is truthy, else POST to the collection; the draft is always the body |
| `TodoApp.SaveAddressesId` | todo-frontend/src/App.jsx:55 | a draft with a non-zero numeric id `k` is PUT to `/api/todos/k/` and to no other id's path |
| `TodoApp.DeleteRequest` | todo-frontend/src/App.jsx:66 | deleting sends a DELETE with no body to the path built from the record's `id`, `/api/todos/undefined/` when it has none |
| `TodoApp.DeleteAddressesId` | todo-frontend/src/App.jsx:66 | a record with numeric id `k` is deleted at `/api/todos/k/`, with no body, and at no other id's path |
| `TodoApp.Refreshed` | todo-frontend/src/App.jsx:34-46 | one GET is sent; the banner ends empty exactly when the fetch resolved and normalized, and the list is then the normalized list; otherwise the banner shows the load message and the list is empty; the form and tab are untouched |
| `TodoApp.Submitted` | todo-frontend/src/App.jsx:52-62 | the form flag flips; exactly one save request is sent, then one GET if it succeeded; a failed save keeps the list and shows the save message; a successful one ends as a refresh |
| `TodoApp.Deleted` | todo-frontend/src/App.jsx:64-72 | one DELETE is sent (none for a null record), then one GET if it succeeded; the delete message shows exactly when the delete failed or the record was null, and the list is then kept; a successful delete ends as a refresh |
| `TodoApp.RefreshRecovers` | todo-frontend/src/App.jsx:34-46 | a failed load empties the list and shows the load message; a later successful load clears the banner and shows the new list |
| `TodoApp.HtmlPageShowsLoadError` | todo-frontend/src/App.jsx:36-44 | an HTML page from the list endpoint empties the list and shows the generic load message |
| `TodoApp.DeleteThenLoadFailure` | todo-frontend/src/App.jsx:64-72 | a delete that succeeds followed by a failed refresh shows the load message, not the delete message |
| `TodoApp.SingleRecordScenario` | todo-frontend/src/App.jsx:17-19 | one incomplete record, bare or under `results`, gives the same state and shows under the Incomplete tab only |
| `TodoApp.TransitionsKeepConsistent` | todo-frontend/src/App.jsx:34-72 | refresh, save and delete keep the banner to one of its known messages, the draft's keys unique and the list's records well-formed |
| `TodoApp.App.constructor` | todo-frontend/src/App.jsx:28-48 | mounting starts from the initial state and runs the first refresh |
| `TodoApp.App.RefreshList` | todo-frontend/src/App.jsx:34-46 | the fields move as `Refreshed` says |
| `TodoApp.App.Toggle` | todo-frontend/src/App.jsx:50 | only the form flag changes, and it flips |
| `TodoApp.App.HandleSubmit` | todo-frontend/src/App.jsx:52-62 | the fields move as `Submitted` says |
| `TodoApp.App.HandleDelete` | todo-frontend/src/App.jsx:64-72 | the fields move as `Deleted` says |
| `TodoApp.App.CreateItem` | todo-frontend/src/App.jsx:74 | the draft becomes the empty record without an id and the form opens; list, banner and requests are untouched |
| `TodoApp.App.EditItem` | todo-frontend/src/App.jsx:75 | the draft becomes a shallow copy of the record, reading every key as the record does, and the form opens; nothing else changes |
| `TodoApp.App.SetViewCompleted` | todo-frontend/src/App.jsx:99-100 | only the tab flag changes |
| `TodoApp.App.ItemsShown` | todo-frontend/src/App.jsx:77-80 | the shown records are exactly the list's records whose completion matches the tab, each as often as the list holds it, in list order |
| `TodoModal.Changed` | todo-frontend/src/components/Modal.jsx:9-12 | the named property takes `checked` for a checkbox and the text otherwise; every other property, `id` included, is kept; a missing property is added |
| `TodoModal.Modal.constructor` | todo-frontend/src/components/Modal.jsx:5 | the draft starts as the record the form is opened on |
| `TodoModal.Modal.ActiveItemChanged` | todo-frontend/src/components/Modal.jsx:7 | a new record replaces the draft |
| `TodoModal.Modal.HandleChange` | todo-frontend/src/components/Modal.jsx:9-12 | the draft moves as `Changed` says, and its keys stay unique |
| `TodoModal.Modal.HandleSubmit` | todo-frontend/src/components/Modal.jsx:14-17 | with a non-empty title, the screen moves exactly as one `handleSubmit` of the unchanged draft, and the save request's body is that draft, with unique keys |
| `TodoModal.Modal.Dismiss` | todo-frontend/src/components/Modal.jsx:20-65 | Close, Cancel and the backdrop only flip the form flag; nothing is sent |

## Left out

- The HTTP client (todo-frontend/src/App.jsx:8-11): how the base URL joins the `/api/todos/` paths, and the `Accept` header. Each awaited call is an `Outcome` parameter.
- The response body of PUT, POST and DELETE: the code ignores it, and so does the model.
- React's scheduling: hooks, re-rendering, memoisation and batching of state updates. The effect that resets the draft is the explicit call `Modal.ActiveItemChanged`. React fires it when the `activeItem` reference changes.
- Several refreshes in flight at once, where the last to settle wins. That is concurrency, and the code does not fence requests.
- `console.error` logging, `e.preventDefault()`, and the markup, styling and list keys (the `Math.random()` key at todo-frontend/src/App.jsx:105).
- Rendering of a `null` record: the list key at todo-frontend/src/App.jsx:105 reads `item.id` without `?.`. Only `handleDelete`'s own reading of `id` is modelled.
- Numbers are integers: no fractions, NaN, infinities or `-0`, and `String(n)` is the plain decimal spelling. Ids are taken to stay below 2^53, where JavaScript numbers are exact, and so below 10^21, from where `String(n)` switches to exponent form.
- `Json.ToLower` lowers ASCII letters only. This is exact for the `<!doctype html` test, because no character outside ASCII lowercases to a character of that marker.
- Strings are sequences of Unicode scalar values, not of UTF-16 code units. Spreading a string with characters outside the BMP gives fewer properties than JavaScript does.
- Property order: an object's field sequence is taken to be its enumeration order as decoded. JavaScript lists integer-like keys first, in ascending order. The model does not re-sort them. A new integer-like key added by `Json.Set` goes at the end.
- ShapeInvariance: an id-keyed map gives the records in the order its properties enumerate. JavaScript enumerates integer-like ids in ascending order. So the lemma speaks only of maps whose key order is the records' order, and `{"2": r2, "1": r1}` normalizes to `[r1, r2]`, not to the array `[r2, r1]`.
- The browser's form validation beyond the title's `required` attribute.
- backend/todo/serializers.py is not part of this model. It only lists fields for a library serializer.
