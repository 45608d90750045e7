# Data record service: store, filter and translation, in Dafny

This project models the core of a small Go web service (`main.go`) that keeps
an in-memory, ordered collection of data records and two key/label reference
tables, loaded once at start-up. The model covers:

- the record store: lookup of the first record with a code, append, update
  of the first match in place, and removal of the first match by splicing;
- the filter: a record passes when its model equals the requested model (or
  none is requested) and every requested tech key equals one of its
  whitespace-trimmed, `", "`-separated tech keys (or none is requested);
- reference translation: a model code becomes the label of the first
  matching reference, or stays as it is; each `", "`-separated tech key
  becomes the label of its first matching reference, or is dropped;
- the parts of Go's `strings` package this relies on: `Split` and `Join` on
  `", "`, and `TrimSpace` with Go's white-space set written out.

Layout, one module per file:

- `wrappers.dfy` — `Option`.
- `models.dfy` — the record types of `models/data.go`, and what binding a
  JSON request body writes into a record (`Patch`, `Binding`, `Apply`).
- `text.dfy` — `Split`, `Join`, `TrimSpace`, and their round trips.
- `subsequences.dfy` — order-preserving subsequences.
- `records.dfy` — the collection as a value: first-match search, the result
  of update and delete, and what later lookups see.
- `translate.dfy` — `translateModel`, `translateTech`.
- `filter.dfy` — `containsAll`, the filter predicate and its result.
- `handlers.dfy` — class `Store` with the three package-level collections as
  fields, and one method per handler.

The request body is an input: a `Binding` holds the fields that decoding the
body wrote and the error it reported, if any. This matches how the handlers
use Go's JSON binding. `createData` binds into a fresh record and appends it
only when there is no error. `updateData` binds straight into the found
element. Fields the body leaves out keep their old values there. Well-typed
fields are written even when binding then reports an error for another
field, and that error is answered with a bad-request outcome. The title-casing
of the status (`strings.Title`) is a parameter `title` of `GetDataByCode`.

## Model

| member | source | states |
|---|---|---|
| `Models.ApplyFull` | main.go:67 | a body that sets every field replaces the record outright |
| `Models.ApplyUnset` | main.go:67 | a body that sets no field leaves the record as it was |
| `Models.ApplyTwice` | main.go:67 | binding the same body twice into one record equals binding it once |
| `Models.ApplyThen` | main.go:67 | two updates of one record in a row equal one update with the merged body, in which the later body wins on the fields it sets |
| `Text.Split` | main.go:122 | `strings.Split` on `", "` always yields at least one piece |
| `Text.Join` | main.go:36 | `strings.Join` with `", "`; specified by `JoinSplit` and `SplitJoin` |
| `Text.JoinSplit` | main.go:159 | joining the pieces of a split with `", "` gives back the original string |
| `Text.SplitPiecesHaveNoSep` | main.go:159 | no piece of a split contains the separator |
| `Text.SplitJoin` | main.go:36 | splitting a join of a non-empty list of separator-free pieces gives back the list; with `JoinSplit` and `SplitPiecesHaveNoSep` this makes a split the only non-empty separator-free list that joins to its input (the empty list also joins to `""`, but `Split("")` is `[""]`) |
| `Text.TrimLeft` | main.go:136 | removes exactly the maximal leading run of white space |
| `Text.TrimRight` | main.go:136 | removes exactly the maximal trailing run of white space |
| `Text.TrimSpace` | main.go:136 | `strings.TrimSpace`, the composition of `TrimLeft` and `TrimRight`; specified by those two and `TrimSpaceKeepsMiddle` |
| `Text.TrimSpaceKeepsMiddle` | main.go:136 | `TrimSpace` keeps a contiguous middle, removes only white space around it, and neither end of the result is white space |
| `Text.TrimSpaceIdempotent` | main.go:136 | trimming twice equals trimming once |
| `Records.FindIndex` | main.go:28-29 | the search returns the index of the first record whose code equals the key; it returns None exactly when no record has it, the empty collection included |
| `Records.LookupAfterCreate` | main.go:56 | after an append, a lookup of the new code finds the new record exactly when no earlier record has that code; otherwise, and for every other code, lookups are unchanged |
| `Records.UniqueAfterCreate` | main.go:56 | appending keeps codes unique exactly when the new code is not already present |
| `Records.Patched` | main.go:65-67 | the collection after `updateData`; specified by `PatchedShape` and `LookupAfterUpdate` |
| `Records.PatchedShape` | main.go:65-67 | an update keeps the length and changes only the index of the first match, which gets the written fields; with no match the collection is untouched |
| `Records.LookupAfterUpdate` | main.go:63-84 | after an update that keeps the code, a lookup finds the updated record at the same index; after one that changes it, the lookup finds the next record with the old code, if any |
| `Records.PatchedTwice` | main.go:65-67 | sending the same update twice leaves the collection as sending it once, when the body keeps the code (or sets none) |
| `Records.UniqueAfterUpdate` | main.go:65-67 | an update that keeps the code keeps codes unique |
| `Records.Removed` | main.go:88-90 | the collection after `deleteData`; specified by `RemovedShape` and `LookupAfterDelete` |
| `Records.RemovedShape` | main.go:88-90 | a delete removes exactly the first match: length drops by one, the rest keep their order (a subsequence), the removed record is the only element missing, the records before the first match keep their places and those after it move one place earlier; with no match the collection is untouched |
| `Records.LookupAfterDelete` | main.go:86-100 | after a delete, a lookup of the same code finds the next record that had it, if any; with unique codes it finds nothing |
| `Records.UniqueAfterDelete` | main.go:88-90 | a delete keeps codes unique |
| `Translate.TranslateModel` | main.go:148-155 | returns the value of the first model reference whose key equals the code, and the code itself when there is none |
| `Translate.LookupTech` | main.go:160-165 | the inner scan of `translateTech` over the tech references; specified by `LookupTechFirst` |
| `Translate.TranslateKeys` | main.go:159-166 | the outer loop of `translateTech`, one key after another; specified by `TranslateKeysAppend`, `TranslateKeysLabels`, `TranslateKeysAllKnown` and `TranslateKeysNoneKnown` |
| `Translate.TranslateTech` | main.go:157-168 | `translateTech`: the keys of the `", "`-split text, translated; specified by `TranslateTechBound`, `UnknownCode` and `TranslateTechExample` |
| `Translate.LookupTechFirst` | main.go:160-165 | a tech key is known exactly when some reference has it, and then it gets the label of the first such reference |
| `Translate.TranslateKeysAppend` | main.go:159-166 | translating a concatenation of key lists is the concatenation of the translations, so each key is translated on its own and order is kept |
| `Translate.TranslateKeysLabels` | main.go:157-168 | the output is never longer than the key list, and every label in it is the first-match label of some input key |
| `Translate.TranslateKeysAllKnown` | main.go:157-168 | when every key is known, the output has one label per key, position by position |
| `Translate.TranslateKeysNoneKnown` | main.go:157-168 | when no key is known, the output is empty |
| `Translate.TranslateTechBound` | main.go:157-168 | `translateTech` yields at most one label per `", "`-separated key |
| `Translate.UnknownCode` | main.go:148-168 | a code that no table has passes through the model translation unchanged but is dropped by the tech translation |
| `Translate.TranslateTechExample` | main.go:157-168 | for distinct separator-free keys t1 and t9, with only t1 in the table, `t1 + ", " + t9` translates to t1's label alone |
| `Filter.HasToken` | main.go:134-143 | the inner scan of `containsAll` for one filter; specified by `HasTokenIff` |
| `Filter.ContainsAll` | main.go:132-146 | `containsAll`; specified by `ContainsAllIff` and `PaddedFilterNeverMatches` |
| `Filter.HasTokenIff` | main.go:134-140 | the inner scan finds a filter exactly when some trimmed source key equals it |
| `Filter.ContainsAllIff` | main.go:132-146 | `containsAll` holds exactly when every filter equals some trimmed source key, and it holds for an empty filter list |
| `Filter.PaddedFilterNeverMatches` | main.go:136 | only source keys are trimmed: a non-empty filter that starts or ends with white space never matches |
| `Filter.Matches` | main.go:121-122 | the condition a record must meet to pass `filterData`; its effect on the result is stated by `FilteredMembers` and `FilteredCount` |
| `Filter.Filtered` | main.go:118-125 | the records `filterData` keeps; specified by `FilteredIsSubsequence`, `FilteredCount`, `FilteredMembers` and `FilteredUnfiltered` |
| `Filter.FilteredIsSubsequence` | main.go:120-125 | the filter result is an order-preserving subsequence of the collection |
| `Filter.FilteredCount` | main.go:120-125 | the filter result holds each passing record as many times as the collection does, and no record that fails |
| `Filter.FilteredMembers` | main.go:120-125 | a record is in the result exactly when it is in the collection and passes both conditions |
| `Filter.FilteredUnfiltered` | main.go:121-122 | with no model and no tech requested, the result is the whole collection |
| `Filter.FilterExample` | main.go:114-130 | for distinct keys t1 and t2 without commas or white space and two records of one model with techs `t1 + ", " + t2` and `t1`: asking for that model with t1 and t2 keeps the first only, and asking for t1 keeps both |
| `Handlers.Describe` | main.go:30-38 | the shown form of a found record; its tech text is specified by `DetailTechLabels` and `TrimAsymmetry`, its model by `TranslateModel` |
| `Handlers.DetailTechLabels` | main.go:30-36 | the shown tech text splits back into the labels of the known tech keys, in order, when no label contains the separator; with none known it is empty |
| `Handlers.TrimAsymmetry` | main.go:122-168 | a tech key written with a leading space passes a filter for the bare key, but gets no label unless the table has the padded key |
| `Handlers.Store.constructor` | main.go:186-188 | the store starts with the three parsed collections |
| `Handlers.Store.GetDataByCode` | main.go:26-45 | answers NotFound exactly when no record has the code; otherwise it answers with the first matching record, model and tech translated, status title-cased and the description replaced by the placeholder |
| `Handlers.Store.CreateData` | main.go:47-61 | a body that binds is appended at the end and returned (length plus one, earlier records unchanged); a body that fails is rejected and nothing changes; reference tables unchanged |
| `Handlers.Store.UpdateData` | main.go:63-84 | the body is bound into the first match, in place, and only there; an unknown code gives NotFound with nothing changed; a binding error gives BadRequest after the write; otherwise the updated record is returned |
| `Handlers.Store.DeleteData` | main.go:86-100 | the new collection is the old one with the first match spliced out; an unknown code gives NotFound with nothing changed |
| `Handlers.Store.FilterData` | main.go:114-130 | the result is the filter result: an order-preserving subsequence holding exactly the records that pass |

## Behaviour of the code that a reader might not expect

The model follows the code in each of these cases.

- Create and then look up the new code: the lookup returns the new record
  only if no earlier record has the same code. Nothing rejects a duplicate
  code, and the lookup takes the first match (`Records.LookupAfterCreate`).
- Update with a body that leaves a field out: the field keeps its old value.
  The body is bound into the existing element, so the field is not reset to
  empty (`Models.Apply`, `Handlers.Store.UpdateData`).
- Update with a body that has a field of the wrong type: the other fields are
  already written into the record when the bad-request answer is given, so
  that failed request does change the store.
- Filter with no match: the Go result slice is nil, so the response holds
  JSON `null` rather than an empty list. The model returns `[]`, since JSON
  encoding is not modelled.
- `filterData` is not registered on any route, so a query on `GET /data` is
  answered by `getAllData`, which ignores it. The model treats the filter as
  an operation of its own.
- Update twice with a body that renames the record, while a later record
  still has the old code: the second update renames that later record too.
  The repeated update is harmless only when the body keeps the code
  (`Records.PatchedTwice`, and the second case of `Records.LookupAfterUpdate`).
- `containsAll` trims source keys, but `translateTech` does not. So a record
  whose tech text is `"t1,  t2"` passes a filter for `t2`, yet `t2` gets no
  label when the record is shown, unless the table has the key `" t2"`.
  `Handlers.TrimAsymmetry` proves the one-key case: tech text `" " + t`.

## Left out

- HTTP routing, request context, status codes and JSON response shaping. This
  includes `getAllData`, `getModelReferences` and `getTechReferences`
  (main.go:22-24, main.go:102-112), which only serialise a collection as it
  is.
- JSON decoding of request bodies. Its outcome is the `Binding` parameter,
  and the model does not decide which fields a given document writes. The
  function `Models.Apply` is the abstraction of binding into an existing
  record: it is a definition, and its properties are stated by `ApplyFull`,
  `ApplyUnset`, `ApplyTwice` and `ApplyThen`.
- `initData` (main.go:170-189): reading `data.txt`, parsing it, and exiting
  the process on failure. The constructor takes the three parsed collections.
- `.env` loading and `config/config.go`. These only read the environment for
  the listen port.
- `Handlers.Store.GetDataByCode`: `strings.Title` (Unicode title-casing) is
  the parameter `title`, not a definition.
- Aliasing: `deleteData` splices with `append(data[:i], data[i+1:]...)`,
  which shifts the shared backing array in place. The model replaces a value
  sequence, so it does not capture other slices that share that array.
- Byte-level strings. Go strings are byte sequences; the model uses
  sequences of Unicode scalar values, so invalid UTF-8 is not modelled.
- Concurrency. Handlers run concurrently on unsynchronised globals; the model
  treats each handler call as one sequential step.
