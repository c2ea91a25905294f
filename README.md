# Chapters: a verified model of the translation-comparison core

Chapters is a desktop tool for comparing the translation files of an
application. The user picks a root folder. Each sub-directory is a language
and holds a `translation.json`. The tool flattens every file into a map from
dotted key paths (`a.b`, `a.c[0]`) to leaf values, merges the keys of all
languages, and shows one row per key. Each row has one cell per language and a
status:

- translated: every language has a value;
- incomplete: the primary language has a value and another language lacks one;
- error: the primary language lacks a value that another language has.

The rows can be filtered by status and counted. Each cell is shown by
rebuilding a nested object from the flat key and walking it.

This project models that core in Dafny:

- **`Dicts`** (`dicts.dfy`): JavaScript objects used as ordered dictionaries
  (`seq<(string, V)>` in insertion order), with `d[k]`, `d[k] = v` and an
  insertion-ordered `Set` of strings.
- **`JsonValues`** (`json.dfy`): JSON values, JavaScript truthiness, the test
  `v && typeof v === "object"`, and the names every object inherits from
  `Object.prototype`.
- **`JsNumbers`** (`jsnumbers.dfy`): `${n}` for array indices, and
  `isNaN(Number(s))` following the StrNumericLiteral grammar of section 7.1.4.1
  of ECMA-262.
- **`KeyPaths`** (`keypaths.dfy`): the segment parser
  `key.replace(/\[(\w+)\]/g, ".$1").split(".")`.
- **`PathCodec`** (`pathcodec.dfy`):
  - `flattenJSON`, as an imperative method over a shared accumulator object
    and specified by a function;
  - `unflattenJSON`, as a loop over the flat keys and a walk that creates
    missing containers.
- **`RoundTrip`** (`roundtrip.dfy`): the round-trip law
  `unflattenJSON(flattenJSON(v)) == v`, under sufficient (not necessary)
  conditions on field names and empty containers.
- **`CodecLaws`** (`laws.dfy`): the laws of each half of the codec, and worked
  examples.
- **`KeySpace`** (`keyspace.dfy`): the state kept by `useTranslations`, and the
  `selectFolder` loop over the directories of a folder listing.
- **`Comparison`** (`comparison.dfy`):
  - `combinedTranslations` and the status classifier;
  - `statusCounts` and the status filter;
  - the key walk of `renderTranslation`.

The status is not monotone in the loaded languages when the primary
language is stale. Adding a language that lacks a translated key makes the
key incomplete, provided the primary language is one of those already
loaded. With a primary language left over from an earlier folder and not
loaded, the same step can put the key in error instead: `{en: {g: "hi"}}`
with primary `fr` is translated, and after loading an `fr` without `g` it is
in error.

Reading the directory and the files and parsing JSON are not modelled as I/O.
Each directory arrives as its name together with an outcome, either the parsed
JSON or the reason reading or parsing failed. The folder dialog and `readDir`
become an optional listing. `None` stands for "no folder selected" or "the
directory could not be read", and both leave the state unchanged.

## Model

| member | source | states |
|---|---|---|
| Dicts.Get | src/utils.ts:27 | `d[k]` is defined exactly for the keys of `d` and returns the value stored under that key |
| Dicts.Put | src/utils.ts:32 | `d[k] = v` adds `k` at the end only if it is new; afterwards `k` reads `v` and every other key reads what it read before |
| Dicts.PutAllExtends | src/utils.ts:9-38 | assignments never remove or reorder keys: the old keys stay a prefix |
| Dicts.PutAllFresh | src/utils.ts:9-38 | assigning new, pairwise distinct keys only appends them |
| Dicts.PutSame | src/utils.ts:54-61 | assigning a key the value it already holds changes nothing |
| Dicts.PutAllEntries | src/utils.ts:9-38 | every entry after a series of assignments was there before or was assigned |
| Dicts.AddAll | src/useTranslations.ts:54-56 | adding keys to an insertion-ordered `Set` appends the keys new to it, each once, in the order they are first seen (`Fresh`); it keeps the set free of duplicates and the old keys first, and the result holds exactly the old and the added keys |
| Dicts.Add | src/useTranslations.ts:55 | `localAllKeys.add(key)`: the key is appended only if the set lacks it; stated by Dicts.AddOne and KeySpace.MergeKeys |
| Dicts.AddOne | src/useTranslations.ts:55 | one `add` appends exactly the keys new to the set (`Fresh`), keeps it free of duplicates, and leaves it holding exactly the old keys and the added one |
| Dicts.PutKeepsNoDup | src/useTranslations.ts:51 | assigning a key never makes a dictionary hold it twice |
| JsonValues.IsContainer | src/utils.ts:17 | `v && typeof v === "object"` holds exactly for arrays and objects, because `null` is falsy |
| JsonValues.EmptyNameNotInherited | src/utils.ts:54 | the empty name is not a member that every object inherits |
| JsNumbers.Itos | src/utils.ts:16 | `${index}` is the shortest decimal spelling of the index: non-empty digits, no leading zero, and denotes the index |
| JsNumbers.ItosIsArrayIndex | src/utils.ts:16 | the spelling of an index is a canonical array-index name |
| JsNumbers.ArrayIndexCanonical | src/utils.ts:54-62 | two array-index names that denote the same element are the same string |
| JsNumbers.DigitsAreNumbers | src/utils.ts:58 | a segment made of digits is never NaN, so it makes the slot before it an array |
| JsNumbers.LetterNameIsNaN | src/utils.ts:58 | a segment starting with a letter other than the `I` of `Infinity` is NaN, so it makes the slot before it an object |
| JsNumbers.EmptyIsNumber | src/utils.ts:58 | `Number("")` is 0 and not NaN |
| KeyPaths.SplitDots | src/utils.ts:51 | `split(".")` gives at least one part, no part contains a dot, and joining the parts with dots gives back the input |
| KeyPaths.NoBracketsUnchanged | src/utils.ts:50 | a key with no `[` is left unchanged by the bracket rewrite |
| KeyPaths.NameSegments | src/utils.ts:49-51 | a field name without `.` or `[` is a single segment |
| KeyPaths.FieldPathSegments | src/utils.ts:26 | the path `${parent}.${key}` has the segments of `parent` followed by `key` |
| KeyPaths.IndexPathSegments | src/utils.ts:16 | the path `${parent}[${index}]` has the segments of `parent` followed by the index, for every parent including the empty one |
| JsonValues.Truthy | src/utils.ts:17 | JavaScript truthiness of a JSON value: `""`, 0, `false` and `null` are falsy; every array and object is truthy; its uses are stated by CodecLaws.TruthySlotKept and Comparison.Cell |
| JsNumbers.IsNaNNumber | src/utils.ts:58 | `isNaN(Number(s))` by the StrNumericLiteral grammar; stated by JsNumbers.DigitsAreNumbers, LetterNameIsNaN and EmptyIsNumber |
| KeyPaths.BracketsToDots | src/utils.ts:50 | the rewrite of each `[w]` with `w` word characters into `.w`; stated by KeyPaths.NoBracketsUnchanged and the path lemmas |
| KeyPaths.Segments | src/utils.ts:49-51 | the segments of a flat key; stated by KeyPaths.NameSegments, FieldPathSegments and IndexPathSegments |
| PathCodec.Entries | src/utils.ts:9-38 | the assignments `flattenJSON` makes, in order: descend into arrays and objects, record every other value under its path; stated by PathCodec.FlattenInto and CodecLaws.EntriesAreLeaves |
| PathCodec.ItemEntries | src/utils.ts:14-33 | one element or field value: descend into a container, record anything else; stated by CodecLaws.ItemEntriesAreLeaves |
| PathCodec.IndexPath | src/utils.ts:16 | the path `${parent}[${index}]` of an array element; stated by PathCodec.IndexPathParses |
| PathCodec.IndexPathParses | src/utils.ts:16 | an element path parses back as the parent's segments followed by the index, for the empty parent too |
| PathCodec.FieldPath | src/utils.ts:26 | the path of a field: `${parent}.${key}`, or `key` alone when `parent` is empty; stated by PathCodec.FieldPathParses |
| PathCodec.FieldPathParses | src/utils.ts:26 | a field path parses back as the parent's segments followed by the name, or as the name alone under the empty parent |
| PathCodec.ElemEntries | src/utils.ts:14-22 | the assignments of `obj.forEach` over the first elements of an array, in index order; stated by CodecLaws.ElemEntriesAreLeaves and RoundTrip.EntriesSegments |
| PathCodec.FieldEntries | src/utils.ts:23-35 | the assignments of `for...in` over the first fields of an object, in field order; stated by CodecLaws.FieldEntriesAreLeaves and RoundTrip.EntriesSegments |
| PathCodec.CharEntries | src/utils.ts:24-33 | the assignments of `for...in` over a string at the root; stated by PathCodec.CharEntriesExact and CodecLaws.CharEntriesAreLeaves |
| PathCodec.CharEntriesExact | src/utils.ts:24-33 | a string at the root gives one entry per character, in order, under the path of its index and holding that one character |
| PathCodec.Flatten | src/utils.ts:9-38 | the flat map the assignments leave; stated by PathCodec.FlattenJSON, RoundTrip.FlattenExact and CodecLaws.FlattenHoldsLeaves |
| PathCodec.Created | src/utils.ts:55-60 | the value a missing or falsy slot receives: the leaf at the last segment, else an array or an object by the next segment; stated by CodecLaws.CreatedKind |
| PathCodec.Walkable | src/utils.ts:54-62 | the steps of the walk that stay within plain JSON: any name an object does not inherit, and any array index, past the end of an array too; stated by CodecLaws.TruthySlotKept, FalsySlotFilled and PathCodec.PlaceFresh |
| PathCodec.ChildOf | src/utils.ts:54-62 | `acc[key] || created`, the accumulator for the next segment; stated by PathCodec.InsertStep |
| PathCodec.Attach | src/utils.ts:55 | the slot under `key` set to the deeper result; an index past the end of an array leaves holes before it; stated by CodecLaws.FalsySlotFilled and PathCodec.AttachFresh |
| PathCodec.AttachFresh | src/utils.ts:55 | an index into a fresh array leaves holes before the new element, which sits at that index |
| PathCodec.AttachTo | src/utils.ts:55-62 | the deeper walk's result stored under `key`, or no result when the deeper walk has none; stated by PathCodec.InsertStep |
| PathCodec.PlaceFrom | src/utils.ts:53-63 | the reduce walk from one segment on; stated by PathCodec.InsertStep |
| PathCodec.Insert | src/utils.ts:53-63 | the walk for one flat key; stated by PathCodec.InsertStep, CodecLaws.TruthySlotKept, FalsySlotFilled and CreatedKind |
| PathCodec.Unflatten | src/utils.ts:44-67 | every flat key placed in order into an empty object; stated by PathCodec.UnflattenJSON, UnflattenStep and RoundTrip.RoundTripObject |
| PathCodec.SegmentEntries | src/utils.ts:47-51 | each flat key, in order, paired with its segments and its value; stated by PathCodec.UnflattenStep and RoundTrip.SegmentEntriesAppend |
| PathCodec.InsertAll | src/utils.ts:47-64 | the loop over the flat keys, each walked into the result of the ones before it; stated by PathCodec.InsertAllAppend and UnflattenStep |
| PathCodec.InsertAllAppend | src/utils.ts:47-64 | placing two runs of keys is placing the first run and then the second into its result; a first run that fails makes the whole fail |
| PathCodec.FlatMap.Set | src/utils.ts:20 | one assignment `res[propName] = item` |
| PathCodec.FlattenInto | src/utils.ts:9-38 | the recursive `flattenJSON(obj, parent, res)` performs in order the assignments that `Entries` lists, and keeps every earlier key of the shared `res` in place |
| PathCodec.FlattenJSON | src/utils.ts:9-13 | with the default arguments, the new accumulator ends up holding `Flatten(obj)` |
| PathCodec.InsertStep | src/utils.ts:53-63 | one reduce step: a falsy slot is filled with the value, or with a container chosen by the next segment; a truthy slot is kept; the walk then continues below the slot |
| PathCodec.UnflattenStep | src/utils.ts:47-63 | each flat key is placed into the result built from the keys before it |
| PathCodec.UnflattenStuck | src/utils.ts:47-63 | once a key cannot be placed, the whole result is undefined |
| PathCodec.PlaceFresh | src/utils.ts:53-63 | rebuilding one key from the containers it creates itself succeeds from a segment on exactly when every later segment is in order: a segment that made an array is an array index, any other does not name an inherited member |
| PathCodec.OkFromAll | src/utils.ts:53-63 | checking the segments one at a time agrees with checking every segment |
| PathCodec.UnflattenOneKey | src/App.tsx:240-242 | `unflattenJSON({[key]: cell})` gives a result exactly when every segment of the key is in order, whatever the size of its indices, and it is the walk for that one key from `{}` |
| PathCodec.UnflattenJSON | src/utils.ts:44-67 | the loop over the flat keys computes `Unflatten` |
| RoundTrip.EntriesSegments | src/utils.ts:9-38 | each flattened key parses back into the segment path of its leaf |
| RoundTrip.LeavesDistinct | src/utils.ts:9-38 | the leaves of a well-formed value have pairwise distinct segment paths |
| RoundTrip.FlatKeysDistinct | src/utils.ts:9-38 | flattening a document or a well-formed array never writes the same key twice |
| RoundTrip.FlattenExact | src/utils.ts:9-38 | for such values the flat map lists every leaf once, in traversal order |
| RoundTrip.Build | src/utils.ts:44-67 | placing the leaves of a well-formed container into an empty container of the same kind rebuilds it |
| RoundTrip.RoundTripObject | src/utils.ts:9-67 | `unflattenJSON(flattenJSON(v))` gives back `v` for an object whose field names are non-empty, free of `.` and `[`, not inherited, NaN as numbers, and with no empty container inside |
| RoundTrip.RoundTripArray | src/utils.ts:9-67 | a well-formed array at the root comes back as the value of the field `""` |
| CodecLaws.EntriesAreLeaves | src/utils.ts:14-35 | flattening records no array or object, because it descends into every one |
| CodecLaws.ElemEntriesAreLeaves | src/utils.ts:14-22 | the elements of an array contribute no container |
| CodecLaws.FieldEntriesAreLeaves | src/utils.ts:23-35 | the fields of an object contribute no container |
| CodecLaws.CharEntriesAreLeaves | src/utils.ts:24-33 | `for...in` over a string at the root records its characters as strings |
| CodecLaws.ItemEntriesAreLeaves | src/utils.ts:17-21 | a value either is descended into or is recorded as a non-container |
| CodecLaws.FlattenHoldsLeaves | src/utils.ts:9-38 | no value in a flat map is an array or an object: each is a string, number, boolean or null |
| CodecLaws.FalsyFieldRecorded | src/utils.ts:29-33 | a falsy field (`""`, 0, `false`, `null`) is recorded as it is under its own path |
| CodecLaws.EmptyContainersVanish | src/utils.ts:14-35 | an empty array or object adds no entry, at the root or nested |
| CodecLaws.FlattenExample | src/utils.ts:9-38 | `{"a":{"b":"x","c":[1,2]}}` flattens to `a.b`, `a.c[0]` and `a.c[1]` |
| CodecLaws.SegmentsExample | src/utils.ts:49-51 | `a.c[0]` has the segments `a`, `c`, `0` |
| CodecLaws.TruthySlotKept | src/utils.ts:54 | a truthy value already at the end of a path is never overwritten: the first truthy writer wins |
| CodecLaws.FalsySlotFilled | src/utils.ts:54-57 | a missing or falsy slot at the end of a path receives the value, and the container keeps its kind |
| CodecLaws.CreatedKind | src/utils.ts:54-60 | a missing or falsy intermediate slot, in an object or an array, becomes an array exactly when the next segment is numeric, and an object otherwise |
| CodecLaws.InsertKeepsKind | src/utils.ts:53-63 | walking a path below an array or an object leaves it an array or an object |
| CodecLaws.EmptySegmentMakesArray | src/utils.ts:58-60 | an empty next segment makes the slot an array |
| CodecLaws.UnflattenExample | src/utils.ts:44-67 | `{"a.b":"x","a.c[0]":1}` unflattens to `{"a":{"b":"x","c":[1]}}` |
| KeySpace.FileEntry | src/useTranslations.ts:58-71 | the entry pushed for one directory; stated by KeySpace.FilesShape |
| KeySpace.Files | src/useTranslations.ts:34-73 | `translationsArray` after the loop; stated by KeySpace.LoadDirectories and FilesShape |
| KeySpace.Loaded | src/useTranslations.ts:35-51 | `localFlattenedData` after the loop; stated by KeySpace.LoadDirectories, LoadedLookup and LoadedNoDup |
| KeySpace.KeysSeen | src/useTranslations.ts:36-56 | the merged keys after the loop; stated by KeySpace.LoadDirectories, KeysSeenUnion and KeysSeenGrows |
| KeySpace.TranslationStore.constructor | src/useTranslations.ts:16-21 | the state starts with no files, no flat maps, no keys and no primary language |
| KeySpace.TranslationStore.SetPrimaryLanguage | src/useTranslations.ts:21 | choosing a primary language changes nothing else |
| KeySpace.TranslationStore.SelectFolder | src/useTranslations.ts:23-90 | without a listing nothing changes; with one, the file list, the flat maps and the keys are replaced by what the loop computes, and the primary language becomes the first loaded language only if none was set and one loaded |
| KeySpace.LoadDirectories | src/useTranslations.ts:34-73 | the loop computes the file list, the table of flat maps and the merged keys |
| KeySpace.LoadStep | src/useTranslations.ts:38-72 | one more directory appends one file entry; if it parsed, it also assigns its flat map under its name and adds its keys |
| KeySpace.MergeKeys | src/useTranslations.ts:54-56 | adding the keys of one flat map to the set, in order |
| KeySpace.FilesShape | src/useTranslations.ts:58-71 | there is one entry per directory, numbered from 1: a parsed file carries its flat map and an empty error, and a failed one carries an empty map and an error starting with `Error reading translation.json: ` |
| KeySpace.KeysSeenUnion | src/useTranslations.ts:36-56 | the merged keys have no duplicate and are exactly the keys of the loaded files' flat maps |
| KeySpace.KeysSeenNoDup | src/useTranslations.ts:36-56 | `localAllKeys` is a `Set`: no key is merged twice |
| KeySpace.KeySeenComplete | src/useTranslations.ts:54-56 | every key of a loaded file's flat map is among the merged keys |
| KeySpace.KeySeenSound | src/useTranslations.ts:54-56 | every merged key is a key of some loaded file's flat map; a failed file adds none |
| KeySpace.KeysSeenGrows | src/useTranslations.ts:54-56 | loading more directories only appends keys: first-seen order is kept |
| KeySpace.LoadedLookup | src/useTranslations.ts:50-51 | when directory names are distinct, the table maps each parsed directory's name to its flat map and has no entry for a failed one |
| KeySpace.LoadedOnlyNamed | src/useTranslations.ts:50-51 | only directory names are keys of the table |
| KeySpace.FirstLoaded | src/useTranslations.ts:79-81 | the first key of the table, which becomes the default primary language, is the name of the first directory that parsed |
| KeySpace.NoneLoaded | src/useTranslations.ts:79 | if no directory parsed, the table is empty and the primary language is not defaulted |
| KeySpace.LoadedNoDup | src/useTranslations.ts:50-51 | the stored table never holds two entries for one language |
| KeySpace.LoadedLanguages | src/useTranslations.ts:50-51 | when directory names are distinct, the languages of the table are exactly the names of the directories that loaded, each with its flat map |
| KeySpace.AllKeysMatchLoaded | src/useTranslations.ts:76-77 | the stored keys are exactly the keys found in the stored flat maps |
| Comparison.FillRow | src/App.tsx:88-90 | the row after assigning each language's cell in turn; stated by Comparison.FillRowGet |
| Comparison.RowFor | src/App.tsx:86-91 | the row of one key; stated by Comparison.BuildRow and RowShowsLanguages |
| Comparison.Present | src/App.tsx:103-106 | `item[language] !== ""`, true also for a missing entry; stated by Comparison.PresentCountBounds and StalePrimaryNeverError |
| Comparison.Classify | src/App.tsx:98-118 | the status of one row; stated by Comparison.ClassifyCases and KeyStatus |
| Comparison.StatusName | src/App.tsx:109-117 | the `status` string of each classification, compared by the filter (App.tsx:151) and the counts (App.tsx:161-163); stated by Comparison.StatusNameInjective and FilterMatchesCount |
| Comparison.Matching | src/App.tsx:151 | `items.filter(item => item.status === statusFilter)`; stated by Comparison.MatchingSpec and MatchingAppend |
| Comparison.FilterByStatus | src/App.tsx:148-152 | all rows for `all`, else the matching ones; stated by Comparison.FilterMatchesCount |
| Comparison.Walk | src/App.tsx:25-31 | the walk along the segments; stated by Comparison.RenderWalk and FreshWalk |
| Comparison.WalkFrom | src/App.tsx:17-31 | the walk after `if (!translation) return null`; stated by Comparison.RenderWalk |
| Comparison.LookupPath | src/App.tsx:19-31 | the lookup as written, dropping empty segments; stated by Comparison.LookupAgrees and RootArrayKeyMissing |
| Comparison.NestedCell | src/App.tsx:239-244 | `nestedTranslations[language]` for one row; stated by Comparison.ShownIsCell |
| Comparison.LookupExact | src/App.tsx:19-31 | the corrected lookup: the walk of the display along every segment `unflattenJSON` builds, empty ones included; stated by Comparison.LookupAgrees and ExactFindsCell |
| Comparison.Shown | src/App.tsx:261-264 | what the corrected display finds in `nestedTranslations[input.name]` for a key; stated by Comparison.ShownIsCell |
| Comparison.Cell | src/App.tsx:89 | a cell is `""` exactly when the language has no truthy value for the key, and is that value otherwise |
| Comparison.BuildRow | src/App.tsx:87-91 | the inner loop builds `RowFor(key, flattenedData)` |
| Comparison.CombineTranslations | src/App.tsx:85-94 | one row per key, in key order, each built by `RowFor` |
| Comparison.FillRowGet | src/App.tsx:88-90 | after the loop, each language reads its cell and every other entry of the row is unchanged |
| Comparison.RowShowsLanguages | src/App.tsx:87-90 | a row holds each language's cell, and `key` holds the key unless a language is named `key` |
| Comparison.PresentCount | src/App.tsx:105-107 | the number of languages present is at most the number of languages |
| Comparison.PresentCountBounds | src/App.tsx:104-107 | the count equals the number of languages exactly when all are present, and is positive exactly when one is |
| Comparison.ClassifyCases | src/App.tsx:102-120 | with a primary language set, translated, incomplete, error and unset each hold exactly under their condition on the counts and the primary cell |
| Comparison.KeyStatus | src/App.tsx:97-121 | for a loaded primary language, the status of a key in terms of which languages have a truthy value: translated when all do; incomplete when the primary does and another does not; error when the primary does not and another does; unset when none does |
| Comparison.AddedLanguageMakesIncomplete | src/App.tsx:103-117 | with the primary among the loaded languages, loading one more language that lacks a translated key makes the key incomplete, never in error |
| Comparison.StalePrimaryTurnsError | src/App.tsx:103-117 | with a stale primary `fr`, a key only `en` has is translated, and loading an `fr` without it puts the key in error |
| Comparison.StoredStatus | src/App.tsx:97-121 | for the table that loading a folder stores, with the primary one of the loaded directories: a key is translated exactly when every loaded file has a truthy value for it, and in error exactly when the primary's file lacks one that another loaded file has |
| Comparison.StoredAllHaveText | src/useTranslations.ts:50-51 | every language of the stored table has a value for a key exactly when every loaded file has one |
| Comparison.StoredSomeHasText | src/useTranslations.ts:50-51 | some language of the stored table has a value for a key exactly when some loaded file has one |
| Comparison.StalePrimaryNeverError | src/App.tsx:103 | a primary language that is not loaded reads as present, so no row is classed error |
| Comparison.GreetingTranslated | src/App.tsx:97-121 | a key present in both of two languages is translated |
| Comparison.GreetingIncomplete | src/App.tsx:97-121 | a key present only in the primary language is incomplete |
| Comparison.WithStatus | src/App.tsx:97-121 | each row keeps its cells and gains its classification; with no primary language every status is unset |
| Comparison.CountStatus | src/App.tsx:156-168 | a status count is at most the number of rows |
| Comparison.CountsPartition | src/App.tsx:156-168 | the four status counts add up to the number of rows |
| Comparison.StatusCounts | src/App.tsx:156-168 | the loop counts the rows of each shown status |
| Comparison.MatchingSpec | src/App.tsx:151 | the filter keeps exactly the rows with the chosen status, and keeps all rows when every one has it |
| Comparison.MatchingHas | src/App.tsx:151 | one row is kept exactly when it is among the rows and has the chosen status |
| Comparison.MatchingShorter | src/App.tsx:151 | the filter never yields more rows than it was given |
| Comparison.MatchingKeepsAll | src/App.tsx:151 | when every row has the chosen status the filter returns the rows unchanged |
| Comparison.MatchingAppend | src/App.tsx:151 | filtering two runs of rows one after the other gives the filtered first run followed by the filtered second: the kept rows stay in their order |
| Comparison.MatchingSingle | src/App.tsx:151 | a single row is kept exactly when its status is the chosen one |
| Comparison.StatusNameInjective | src/App.tsx:148-152 | distinct statuses have distinct names, and none is named `all` |
| Comparison.FilterMatchesCount | src/App.tsx:148-168 | the count shown for a status equals the number of rows its filter shows |
| Comparison.Step | src/App.tsx:26-27 | a falsy value stops the walk; `in` on a non-container throws; an object's own field and an array's in-range element are found with their value, and anything found on an object is its own field |
| Comparison.RenderWalk | src/App.tsx:24-31 | the loop computes `WalkFrom` |
| Comparison.NonEmpty | src/App.tsx:22 | `filter(Boolean)` leaves no empty segment and adds none |
| Comparison.NonEmptyAppend | src/App.tsx:22 | the filter works segment by segment: filtering two runs of segments gives the filtered runs one after the other |
| Comparison.NonEmptySingle | src/App.tsx:22 | a single segment is kept exactly when it is not empty |
| Comparison.NonEmptyUnchanged | src/App.tsx:22 | without empty segments the filter changes nothing |
| Comparison.LookupAgrees | src/App.tsx:19-22 | the walk of the display and the walk over the codec's segments agree on keys without an empty segment |
| Comparison.FreshWalk | src/utils.ts:53-63 | walking back along a path that was placed in an empty container finds the value |
| Comparison.ExactFindsCell | src/App.tsx:239-244 | for every key and cell: the one-key rebuild succeeds exactly when every segment is in order, and walking it along every segment of the key then finds the cell, and otherwise finds nothing |
| Comparison.ShownIsCell | src/App.tsx:261-265 | for every row, key and language, the corrected display shows the language's cell when the row has one and every segment of the key is in order, and nothing otherwise |
| Comparison.SecondElementPlaceable | src/App.tsx:240-242 | every segment of `a.c[1]` is in order |
| Comparison.SecondElementNested | src/utils.ts:53-63 | `a.c[1]` with `"y"` rebuilds as `{"a": {"c": [<hole>, "y"]}}` |
| Comparison.ShownSecondElement | src/App.tsx:261-265 | the display shows `"y"` for the key `a.c[1]`, the second element of an array |
| Comparison.RootArraySegments | src/App.tsx:19-21 | the key `[0]` of a root array has the segments `""` and `0` |
| Comparison.RootArrayNested | src/App.tsx:239-244 | the key `[0]` rebuilds as `{"": ["hi"]}` |
| Comparison.RootArrayKeyMissing | src/App.tsx:19-31 | as written, the display does not find the value of `[0]`; a walk over every segment finds it |

## Left out

- The folder dialog, `readDir`, `readTextFile` and `JSON.parse` are not
  modelled. They become an optional listing of directories, each with a parsed
  value or a failure reason. The text that `${error}` produces is taken as
  given.
- Only directories are listed. The `isDirectory` filter, the path of
  `translation.json` and `console` output are not modelled.
- React state, `useMemo`, `useEffect` and the 300 ms debounce of the search
  query are not modelled. Each derived value is a function of the state it
  reads.
- The Fuse fuzzy search is not modelled. The status filter applies to the
  rows as they are when the search query is empty.
- The markup is not modelled: headings, badges, the `Missing` placeholder, and
  how `renderTranslation` displays an array or an object it finds. Only the
  key walk is modelled.
- Key order: JavaScript enumerates integer-like keys first in ascending order.
  The dictionaries here keep plain insertion order, for `for...in`,
  `Object.keys` and the default primary language alike.
- JsonValues.Json: an `Obj` may hold two fields with the same name, which
  `JSON.parse` never produces (a later duplicate replaces the earlier value).
  The round-trip lemmas require distinct names; the other members take an
  object as given.
- Numbers are abstract integers. Floating point and number formatting are not
  modelled.
- Comparison.Step: members that objects and arrays inherit, other than an
  array's `length`, are treated as absent. The same holds for `k in value`
  with such names.
- Comparison.Cell: a key that names an inherited member, such as
  `constructor`, reads as absent from a language's flat map, where JavaScript
  would read the inherited function.
- Comparison.RowFor: a language named `key` overwrites the key column, as in
  the source. A language named `status` has its cell overwritten by the
  status that `{ ...item, status }` adds after it; the model keeps a row and
  its status apart, so that cell survives in the model.
- PathCodec.Insert: a walk that would leave plain JSON gives no result, and
  then the whole of PathCodec.Unflatten gives none. JavaScript differs case
  by case:
  - an inherited member such as `constructor` at the last segment is truthy,
    so `!acc[key]` fails: JavaScript drops that one key and still places the
    others;
  - an inherited member in the middle of a path is walked into, and the
    next segment is written onto the built-in function;
  - a non-index name other than `length` on an array becomes an expando
    property of the array;
  - `length` on a non-empty array is a truthy number and is walked into, as
    below; on an empty array the assignment sets the array's length, which
    throws a RangeError unless the value converts to a valid length;
  - a string or number in the middle of a path: an assignment onto it throws
    a TypeError in strict code, while a segment naming a truthy member of it
    (a character of the string, a non-zero `length`, a method such as
    `toString`) is walked into, and at the last segment the key is silently
    dropped. For `{"a": "xy", "a.0": "z"}` JavaScript keeps `{a: "xy"}`.
- PathCodec.FlattenInto: a field named `__proto__` at the root is recorded as
  an ordinary key. In JavaScript `res["__proto__"] = v` goes through the
  prototype setter: a `null` leaf replaces the accumulator's prototype, and a
  string, number or boolean leaf is ignored. Either way the key is missing
  from the flat map.
- Comparison.NestedCell: `nestedTranslations` is built only for the
  languages of the stored table, and every row holds a cell for each of them
  (App.tsx:89 reads `|| ""`). So `nestedTranslations[input.name]` is
  undefined only for a directory that failed to load. An undefined cell,
  which would rebuild as `{key: undefined}` (or `{a: {b: undefined}}` for
  `a.b`), does not arise. The model gives `None` in exactly these cases:
  - the row has no entry for the language: the failed directory above;
  - a segment after the first reads as a number but is not a canonical
    array index, such as `1e3`, `01`, ` 1` or the empty segment of `a.`.
    The segment before it created an array, and JavaScript writes an
    expando property on it (or sets its `length`);
  - a segment that reaches an object names an inherited member, such as
    `constructor`. JavaScript walks into the built-in or drops the key.
- Comparison.ShownIsCell: for the keys of the last two cases above the model
  shows nothing, while the display may find the value that JavaScript stored
  off plain JSON. Every other key, array indices of any size included, is
  shown with its cell.
- PathCodec.Attach: an index past the end of an array leaves holes, which the
  model fills with `null`. A hole reads as `undefined`, which is falsy like
  `null`, so later keys fill it in the same way. But `k in` is false for a
  hole and true for the model's `null`, so Comparison.Step finds `null` where
  the display's walk stops. The one-key rebuild of the display never walks
  into a hole.
- PathCodec.CharEntries: a string at the root is split into Dafny characters,
  which are Unicode scalar values, while `for...in` enumerates UTF-16 code
  units. A character outside the Basic Multilingual Plane gives one entry in
  the model, and two keys holding lone surrogates in JavaScript.
- KeySpace.Loaded: a directory named `__proto__` is stored as an ordinary
  language. In JavaScript `localFlattenedData["__proto__"] = flat` goes
  through the prototype setter, so that language is not an own key of the
  table, yet its keys are still merged into the key set. A row has the same
  effect in `combinedTranslations` (App.tsx:89).
- KeySpace.FileEntry: `directory.name || ""` is the name itself, since a
  listed directory always has a name.

## Findings

| source | as written | input that shows it | evidently intended | confidence | as-written member | corrected member |
|---|---|---|---|---|---|---|
| src/App.tsx:19-22 | `renderTranslation` drops empty segments with `filter(Boolean)`, while `unflattenJSON` keeps the empty first segment of the keys that flattening gives a root array | a `translation.json` whose root is `["hi"]`: its key `[0]` rebuilds as `{"": ["hi"]}`, the walk looks only for `0`, and the cell shows `Missing` | the display walks the same segments that `unflattenJSON` built and shows `hi` | medium, not executed | Comparison.RootArrayKeyMissing | Comparison.ShownIsCell |
