/**
  * The comparison table of src/App.tsx: one row per flat key with every
  * language's value, each row's status, the status counts shown in the
  * sidebar, the status filter, and the path walk that finds the value to
  * display in a row's nested view.
  */
module Comparison {
  import opened Wrappers
  import opened Dicts
  import opened JsonValues
  import opened JsNumbers
  import opened KeyPaths
  import opened PathCodec
  import opened KeySpace

  // ---------------------------------------------------------------------------
  // Rows (`combinedTranslations`)

  /** Whether a language's flat map has a truthy value under `key`. */
  predicate HasText(flat: Dict<Json>, key: string) {
    Get(flat, key).Some? && Truthy(Get(flat, key).value)
  }

  /** `flattenedData[language][key] || ""`. */
  function Cell(flat: Dict<Json>, key: string): (c: Json)
    ensures c == Str("") <==> !HasText(flat, key)
    ensures HasText(flat, key) ==> c == Get(flat, key).value
  {
    var v := Get(flat, key);
    if v.Some? && Truthy(v.value) then v.value else Str("")
  }

  /** `row` after assigning, language by language, each language's cell for `key`. */
  function FillRow(row: Dict<Json>, key: string, langs: Dict<Dict<Json>>): Dict<Json>
    decreases |langs|
  {
    if langs == [] then row
    else
      var last := langs[|langs| - 1];
      Put(FillRow(row, key, langs[..|langs| - 1]), last.0, Cell(last.1, key))
  }

  /** The row for `key`: `{ key }` followed by one entry per language. */
  function RowFor(key: string, data: Dict<Dict<Json>>): Dict<Json> {
    FillRow([("key", Str(key))], key, data)
  }

  /** The inner loop of `combinedTranslations` for one key. */
  method BuildRow(key: string, flattenedData: Dict<Dict<Json>>) returns (translation: Dict<Json>)
    ensures translation == RowFor(key, flattenedData)
  {
    translation := [("key", Str(key))];
    for j := 0 to |flattenedData|
      invariant translation == FillRow([("key", Str(key))], key, flattenedData[..j])
    {
      assert flattenedData[..j + 1][..j] == flattenedData[..j];
      var (language, flat) := flattenedData[j];
      translation := Put(translation, language, Cell(flat, key));
    }
    assert flattenedData[..|flattenedData|] == flattenedData;
  }

  /** `combinedTranslations`: one row per key, in key order. */
  method CombineTranslations(allKeys: seq<string>, flattenedData: Dict<Dict<Json>>) returns (rows: seq<Dict<Json>>)
    ensures |rows| == |allKeys|
    ensures forall i :: 0 <= i < |allKeys| ==> rows[i] == RowFor(allKeys[i], flattenedData)
  {
    rows := [];
    for i := 0 to |allKeys|
      invariant |rows| == i
      invariant forall j :: 0 <= j < i ==> rows[j] == RowFor(allKeys[j], flattenedData)
    {
      var translation := BuildRow(allKeys[i], flattenedData);
      rows := rows + [translation];
    }
  }

  /** The last of several distinct keys is the only entry under it. */
  lemma LastDistinct<V>(d: Dict<V>)
    requires |d| > 0 && NoDup(Keys(d))
    ensures NoDup(Keys(d[..|d| - 1]))
    ensures d == Put(d[..|d| - 1], d[|d| - 1].0, d[|d| - 1].1)
  {
    var init, last := d[..|d| - 1], d[|d| - 1];
    assert Keys(init) == Keys(d)[..|d| - 1];
    assert last.0 !in Keys(init) by {
      forall i | 0 <= i < |init| ensures Keys(init)[i] != last.0 {
        assert Keys(d)[i] == Keys(init)[i] && Keys(d)[|d| - 1] == last.0;
      }
    }
    PutNew(init, last.0, last.1);
    assert d == init + [last];
  }

  /**
    * With distinct language names, a row holds under each language exactly
    * that language's cell, and keeps whatever it had under every other name.
    */
  lemma {:induction false} FillRowGet(row: Dict<Json>, key: string, langs: Dict<Dict<Json>>, l: string)
    requires NoDup(Keys(langs))
    ensures Get(FillRow(row, key, langs), l) ==
      if l in Keys(langs) then Some(Cell(Get(langs, l).value, key)) else Get(row, l)
    decreases |langs|
  {
    if langs != [] {
      var init, last := langs[..|langs| - 1], langs[|langs| - 1];
      LastDistinct(langs);
      FillRowGet(row, key, init, l);
      assert Keys(langs) == Keys(init) + [last.0];
    }
  }

  /**
    * The row for `key` shows, under each loaded language, that language's
    * value when it is truthy and "" otherwise; and the `key` column holds
    * the key unless a language is itself called "key".
    */
  lemma RowShowsLanguages(key: string, data: Dict<Dict<Json>>)
    requires NoDup(Keys(data))
    ensures forall l :: l in Keys(data) ==> Get(RowFor(key, data), l) == Some(Cell(Get(data, l).value, key))
    ensures "key" !in Keys(data) ==> Get(RowFor(key, data), "key") == Some(Str(key))
  {
    forall l | l in Keys(data)
      ensures Get(RowFor(key, data), l) == Some(Cell(Get(data, l).value, key))
    {
      FillRowGet([("key", Str(key))], key, data, l);
    }
    FillRowGet([("key", Str(key))], key, data, "key");
    assert Keys([("key", Str(key))]) == ["key"];
  }

  // ---------------------------------------------------------------------------
  // Status of a row (`translationsWithStatus`)

  datatype Status = Unset | Translated | Incomplete | Error

  /** The `status` string a row carries. */
  function StatusName(s: Status): string {
    match s
    case Unset => ""
    case Translated => "translated"
    case Incomplete => "incomplete"
    case Error => "error"
  }

  /** `item[language] !== ""`: true also when the row has no entry under `language`. */
  predicate Present(row: Dict<Json>, language: string) {
    Get(row, language) != Some(Str(""))
  }

  /** `languages.filter(language => item[language] !== "").length`. */
  function PresentCount(row: Dict<Json>, languages: seq<string>): (n: nat)
    ensures n <= |languages|
    decreases |languages|
  {
    if languages == [] then 0
    else PresentCount(row, languages[..|languages| - 1]) + if Present(row, languages[|languages| - 1]) then 1 else 0
  }

  /** The count reaches the number of languages exactly when every one is present, and is positive exactly when one is. */
  lemma {:induction false} PresentCountBounds(row: Dict<Json>, languages: seq<string>)
    ensures PresentCount(row, languages) == |languages| <==> forall l :: l in languages ==> Present(row, l)
    ensures PresentCount(row, languages) > 0 <==> exists l :: l in languages && Present(row, l)
    decreases |languages|
  {
    if languages != [] {
      var init, last := languages[..|languages| - 1], languages[|languages| - 1];
      PresentCountBounds(row, init);
      assert languages == init + [last];
    }
  }

  /** The status of one row, given the primary language and the loaded languages in order. */
  function Classify(row: Dict<Json>, primary: string, languages: seq<string>): Status {
    if primary == "" then Unset
    else
      var primaryExists := Present(row, primary);
      var totalLanguages := |languages|;
      var existingLanguages := PresentCount(row, languages);
      if existingLanguages == totalLanguages then Translated
      else if primaryExists && existingLanguages < totalLanguages then Incomplete
      else if !primaryExists && existingLanguages > 0 then Error
      else Unset
  }

  /**
    * With a primary language chosen, a row is translated when every language
    * is present, incomplete when the primary is present and another is not,
    * in error when the primary is missing but another language is present,
    * and has no status when no language is present (and there is one).
    */
  lemma ClassifyCases(row: Dict<Json>, primary: string, languages: seq<string>)
    requires primary != ""
    ensures Classify(row, primary, languages) == Translated <==>
      forall l :: l in languages ==> Present(row, l)
    ensures Classify(row, primary, languages) == Incomplete <==>
      Present(row, primary) && exists l :: l in languages && !Present(row, l)
    ensures Classify(row, primary, languages) == Error <==>
      !Present(row, primary) && (exists l :: l in languages && Present(row, l)) &&
      exists l :: l in languages && !Present(row, l)
    ensures Classify(row, primary, languages) == Unset <==>
      !Present(row, primary) && |languages| > 0 && forall l :: l in languages ==> !Present(row, l)
  {
    PresentCountBounds(row, languages);
    if |languages| > 0 && forall l :: l in languages ==> !Present(row, l) {
      assert languages[0] in languages;
    }
  }

  /**
    * For a row built from the loaded languages, with the primary among them,
    * the status speaks of the languages' own values: translated when all
    * have a truthy value under the key, incomplete when the primary has one
    * and another lacks it, in error when the primary lacks it and another
    * has one, and no status when none has one.
    */
  lemma KeyStatus(key: string, data: Dict<Dict<Json>>, primary: string)
    requires NoDup(Keys(data)) && primary in Keys(data) && primary != ""
    ensures Classify(RowFor(key, data), primary, Keys(data)) == Translated <==>
      forall l :: l in Keys(data) ==> HasText(Get(data, l).value, key)
    ensures Classify(RowFor(key, data), primary, Keys(data)) == Incomplete <==>
      HasText(Get(data, primary).value, key) && exists l :: l in Keys(data) && !HasText(Get(data, l).value, key)
    ensures Classify(RowFor(key, data), primary, Keys(data)) == Error <==>
      !HasText(Get(data, primary).value, key) && exists l :: l in Keys(data) && HasText(Get(data, l).value, key)
    ensures Classify(RowFor(key, data), primary, Keys(data)) == Unset <==>
      forall l :: l in Keys(data) ==> !HasText(Get(data, l).value, key)
  {
    var row := RowFor(key, data);
    RowShowsLanguages(key, data);
    assert forall l :: l in Keys(data) ==> (Present(row, l) <==> HasText(Get(data, l).value, key));
    ClassifyCases(row, primary, Keys(data));
  }

  /**
    * A primary language left over from an earlier folder, and absent from the
    * loaded ones, counts as present in every row: no row is then in error.
    */
  lemma StalePrimaryNeverError(key: string, data: Dict<Dict<Json>>, primary: string)
    requires NoDup(Keys(data)) && primary !in Keys(data) && primary != "key"
    ensures Classify(RowFor(key, data), primary, Keys(data)) != Error
  {
    var start := [("key", Str(key))];
    FillRowGet(start, key, data, primary);
    assert Keys(start) == ["key"];
    assert Get(start, primary) == None;
    assert Present(RowFor(key, data), primary);
  }

  /**
    * Loading one more language that lacks a translated key makes the key
    * incomplete, never in error, as long as the primary language is among
    * the languages already loaded.
    */
  lemma AddedLanguageMakesIncomplete(key: string, data: Dict<Dict<Json>>, primary: string, n: string, flat: Dict<Json>)
    requires NoDup(Keys(data)) && primary in Keys(data) && primary != ""
    requires n !in Keys(data) && !HasText(flat, key)
    requires Classify(RowFor(key, data), primary, Keys(data)) == Translated
    ensures Classify(RowFor(key, data + [(n, flat)]), primary, Keys(data + [(n, flat)])) == Incomplete
  {
    var more := data + [(n, flat)];
    PutNew(data, n, flat);
    PutKeepsNoDup(data, n, flat);
    KeysAppend(data, [(n, flat)]);
    assert Keys([(n, flat)]) == [n];
    KeyStatus(key, data, primary);
    KeyStatus(key, more, primary);
    assert n in Keys(more) && !HasText(Get(more, n).value, key);
  }

  /**
    * Without that condition it fails: with a primary language `fr` left over
    * from an earlier folder, a key that only `en` has is translated, and
    * loading an `fr` that lacks it puts the key in error.
    */
  lemma StalePrimaryTurnsError()
    ensures Classify(RowFor("g", [("en", [("g", Str("hi"))])]), "fr", ["en"]) == Translated
    ensures Classify(RowFor("g", [("en", [("g", Str("hi"))]), ("fr", [])]), "fr", ["en", "fr"]) == Error
  {
    StaleBeforeTranslated();
    StaleAfterError();
  }

  /** The first half of StalePrimaryTurnsError: `en` alone, with the stale primary `fr`. */
  lemma StaleBeforeTranslated()
    ensures Classify(RowFor("g", [("en", [("g", Str("hi"))])]), "fr", ["en"]) == Translated
  {
    var before: Dict<Dict<Json>> := [("en", [("g", Str("hi"))])];
    var row := RowFor("g", before);
    assert Keys(before) == ["en"];
    SingleEntry("en", [("g", Str("hi"))]);
    SingleEntry("g", Str("hi"));
    RowShowsLanguages("g", before);
    assert Get(row, "en") == Some(Str("hi"));
    assert ["en"][..0] == [];
    assert PresentCount(row, ["en"]) == 1;
  }

  /** The second half of StalePrimaryTurnsError: `fr` loaded without the key. */
  lemma StaleAfterError()
    ensures Classify(RowFor("g", [("en", [("g", Str("hi"))]), ("fr", [])]), "fr", ["en", "fr"]) == Error
  {
    var after: Dict<Dict<Json>> := [("en", [("g", Str("hi"))]), ("fr", [])];
    assert Keys(after) == ["en", "fr"];
    SingleEntry("g", Str("hi"));
    assert Get(after, "en") == Some([("g", Str("hi"))]) && Get(after, "fr") == Some([]) by {
      assert after[0].0 == "en" && after[1].0 == "fr";
    }
    KeyStatus("g", after, "fr");
  }

  /**
    * The status of a key in the table that loading a folder stores: with
    * the primary language one of the loaded directories, a key is translated
    * exactly when every loaded file has a truthy value for it, and in error
    * exactly when the primary's file lacks one that another loaded file has.
    */
  lemma {:induction false} StoredStatus(dirs: seq<Directory>, j: nat, key: string)
    requires NoDup(Names(dirs)) && j < |dirs| && dirs[j].outcome.Parsed? && dirs[j].name != ""
    ensures Classify(RowFor(key, Loaded(dirs)), dirs[j].name, Keys(Loaded(dirs))) == Translated <==>
      forall i :: 0 <= i < |dirs| && dirs[i].outcome.Parsed? ==> HasText(Flatten(dirs[i].outcome.content), key)
    ensures Classify(RowFor(key, Loaded(dirs)), dirs[j].name, Keys(Loaded(dirs))) == Error <==>
      !HasText(Flatten(dirs[j].outcome.content), key) &&
      exists i :: 0 <= i < |dirs| && dirs[i].outcome.Parsed? && HasText(Flatten(dirs[i].outcome.content), key)
  {
    var data := Loaded(dirs);
    LoadedNoDup(dirs);
    LoadedLookup(dirs);
    KeyStatus(key, data, dirs[j].name);
    StoredAllHaveText(dirs, key);
    StoredSomeHasText(dirs, key);
  }

  /** Every language of the stored table has a value for a key exactly when every file that loaded has one. */
  lemma {:induction false} StoredAllHaveText(dirs: seq<Directory>, key: string)
    requires NoDup(Names(dirs))
    ensures (forall l :: l in Keys(Loaded(dirs)) ==> HasText(Get(Loaded(dirs), l).value, key)) <==>
      forall i :: 0 <= i < |dirs| && dirs[i].outcome.Parsed? ==> HasText(Flatten(dirs[i].outcome.content), key)
  {
    var data := Loaded(dirs);
    LoadedLookup(dirs);
    if forall l :: l in Keys(data) ==> HasText(Get(data, l).value, key) {
      forall i | 0 <= i < |dirs| && dirs[i].outcome.Parsed?
        ensures HasText(Flatten(dirs[i].outcome.content), key)
      {
        assert dirs[i].name in Keys(data);
      }
    }
    if forall i :: 0 <= i < |dirs| && dirs[i].outcome.Parsed? ==> HasText(Flatten(dirs[i].outcome.content), key) {
      forall l | l in Keys(data)
        ensures HasText(Get(data, l).value, key)
      {
        LoadedLanguages(dirs, l);
      }
    }
  }

  /** Some language of the stored table has a value for a key exactly when some file that loaded has one. */
  lemma {:induction false} StoredSomeHasText(dirs: seq<Directory>, key: string)
    requires NoDup(Names(dirs))
    ensures (exists l :: l in Keys(Loaded(dirs)) && HasText(Get(Loaded(dirs), l).value, key)) <==>
      exists i :: 0 <= i < |dirs| && dirs[i].outcome.Parsed? && HasText(Flatten(dirs[i].outcome.content), key)
  {
    var data := Loaded(dirs);
    if exists l :: l in Keys(data) && HasText(Get(data, l).value, key) {
      var l :| l in Keys(data) && HasText(Get(data, l).value, key);
      LoadedLanguages(dirs, l);
    }
    if exists i :: 0 <= i < |dirs| && dirs[i].outcome.Parsed? && HasText(Flatten(dirs[i].outcome.content), key) {
      var i :| 0 <= i < |dirs| && dirs[i].outcome.Parsed? && HasText(Flatten(dirs[i].outcome.content), key);
      LoadedLookup(dirs);
      assert dirs[i].name in Keys(data) && HasText(Get(data, dirs[i].name).value, key);
    }
  }



  /** Two languages with a greeting each: the key is translated. */
  lemma GreetingTranslated()
    ensures Classify(RowFor("greeting", [("en", [("greeting", Str("hi"))]), ("fr", [("greeting", Str("bonjour"))])]),
      "en", ["en", "fr"]) == Translated
  {
    var data := [("en", [("greeting", Str("hi"))]), ("fr", [("greeting", Str("bonjour"))])];
    assert Keys(data) == ["en", "fr"];
    assert Get(data, "en") == Some([("greeting", Str("hi"))]) && Get(data, "fr") == Some([("greeting", Str("bonjour"))]) by {
      assert data[0].0 == "en" && data[1].0 == "fr";
    }
    SingleEntry("greeting", Str("hi"));
    SingleEntry("greeting", Str("bonjour"));
    KeyStatus("greeting", data, "en");
  }

  /** The primary language has the greeting and the other has none: the key is incomplete. */
  lemma GreetingIncomplete()
    ensures Classify(RowFor("greeting", [("en", [("greeting", Str("hi"))]), ("fr", [])]), "en", ["en", "fr"]) == Incomplete
  {
    var data: Dict<Dict<Json>> := [("en", [("greeting", Str("hi"))]), ("fr", [])];
    assert Keys(data) == ["en", "fr"];
    assert Get(data, "en") == Some([("greeting", Str("hi"))]) && Get(data, "fr") == Some([]) by {
      assert data[0].0 == "en" && data[1].0 == "fr";
    }
    SingleEntry("greeting", Str("hi"));
    assert "fr" in Keys(data) && !HasText([], "greeting");
    KeyStatus("greeting", data, "en");
  }

  /** A row together with its status (`TranslationWithStatus`). */
  datatype Entry = Entry(row: Dict<Json>, status: Status)

  /** `translationsWithStatus`. */
  function WithStatus(rows: seq<Dict<Json>>, primary: string, data: Dict<Dict<Json>>): (r: seq<Entry>)
    ensures |r| == |rows|
    ensures forall i :: 0 <= i < |rows| ==> r[i].row == rows[i] && r[i].status == Classify(rows[i], primary, Keys(data))
    ensures primary == "" ==> forall i :: 0 <= i < |rows| ==> r[i].status == Unset
  {
    seq(|rows|, i requires 0 <= i < |rows| => Entry(rows[i], Classify(rows[i], primary, Keys(data))))
  }

  // ---------------------------------------------------------------------------
  // Status counts and the status filter

  function CountStatus(items: seq<Entry>, s: Status): (n: nat)
    ensures n <= |items|
    decreases |items|
  {
    if items == [] then 0
    else CountStatus(items[..|items| - 1], s) + if items[|items| - 1].status == s then 1 else 0
  }

  /** The four counts add up to the number of rows. */
  lemma {:induction false} CountsPartition(items: seq<Entry>)
    ensures CountStatus(items, Translated) + CountStatus(items, Incomplete) + CountStatus(items, Error) +
      CountStatus(items, Unset) == |items|
    decreases |items|
  {
    if items != [] {
      CountsPartition(items[..|items| - 1]);
    }
  }

  /** `statusCounts`: the rows with each of the three shown statuses. */
  method StatusCounts(translationsWithStatus: seq<Entry>) returns (translated: nat, incomplete: nat, error: nat)
    ensures translated == CountStatus(translationsWithStatus, Translated)
    ensures incomplete == CountStatus(translationsWithStatus, Incomplete)
    ensures error == CountStatus(translationsWithStatus, Error)
  {
    translated, incomplete, error := 0, 0, 0;
    for i := 0 to |translationsWithStatus|
      invariant translated == CountStatus(translationsWithStatus[..i], Translated)
      invariant incomplete == CountStatus(translationsWithStatus[..i], Incomplete)
      invariant error == CountStatus(translationsWithStatus[..i], Error)
    {
      assert translationsWithStatus[..i + 1][..i] == translationsWithStatus[..i];
      var item := translationsWithStatus[i];
      if StatusName(item.status) == "translated" {
        translated := translated + 1;
      } else if StatusName(item.status) == "incomplete" {
        incomplete := incomplete + 1;
      } else if StatusName(item.status) == "error" {
        error := error + 1;
      }
    }
    assert translationsWithStatus[..|translationsWithStatus|] == translationsWithStatus;
  }

  /** `items.filter(item => item.status === statusFilter)`. */
  function Matching(items: seq<Entry>, statusFilter: string): seq<Entry>
    decreases |items|
  {
    if items == [] then []
    else
      var last := items[|items| - 1];
      Matching(items[..|items| - 1], statusFilter) + if StatusName(last.status) == statusFilter then [last] else []
  }

  /** The rows a status filter shows: all of them for "all", else those whose status is the filter. */
  function FilterByStatus(items: seq<Entry>, statusFilter: string): seq<Entry> {
    if statusFilter == "all" then items else Matching(items, statusFilter)
  }

  /** The filter keeps exactly the matching rows, no more of them than there are, in their order. */
  lemma MatchingSpec(items: seq<Entry>, statusFilter: string)
    ensures forall x :: x in Matching(items, statusFilter) <==> x in items && StatusName(x.status) == statusFilter
    ensures |Matching(items, statusFilter)| <= |items|
    ensures (forall i :: 0 <= i < |items| ==> StatusName(items[i].status) == statusFilter) ==>
      Matching(items, statusFilter) == items
  {
    forall x
      ensures x in Matching(items, statusFilter) <==> x in items && StatusName(x.status) == statusFilter
    {
      MatchingHas(items, statusFilter, x);
    }
    MatchingShorter(items, statusFilter);
    if forall i :: 0 <= i < |items| ==> StatusName(items[i].status) == statusFilter {
      MatchingKeepsAll(items, statusFilter);
    }
  }

  /** One row is kept exactly when it is among the rows and has the chosen status. */
  lemma {:induction false} MatchingHas(items: seq<Entry>, statusFilter: string, x: Entry)
    ensures x in Matching(items, statusFilter) <==> x in items && StatusName(x.status) == statusFilter
    decreases |items|
  {
    if items != [] {
      var init := items[..|items| - 1];
      MatchingHas(init, statusFilter, x);
      assert items == init + [items[|items| - 1]];
    }
  }

  /** The filter never adds rows. */
  lemma {:induction false} MatchingShorter(items: seq<Entry>, statusFilter: string)
    ensures |Matching(items, statusFilter)| <= |items|
    decreases |items|
  {
    if items != [] {
      MatchingShorter(items[..|items| - 1], statusFilter);
    }
  }

  /** When every row has the chosen status, the filter keeps them all, in order. */
  lemma {:induction false} MatchingKeepsAll(items: seq<Entry>, statusFilter: string)
    requires forall i :: 0 <= i < |items| ==> StatusName(items[i].status) == statusFilter
    ensures Matching(items, statusFilter) == items
    decreases |items|
  {
    if items != [] {
      var init := items[..|items| - 1];
      forall i | 0 <= i < |init| ensures StatusName(init[i].status) == statusFilter {
        assert init[i] == items[i];
      }
      MatchingKeepsAll(init, statusFilter);
      assert items == init + [items[|items| - 1]];
    }
  }

  /** Filtering two runs of rows one after the other is filtering each: the kept rows stay in their order. */
  lemma {:induction false} MatchingAppend(a: seq<Entry>, b: seq<Entry>, statusFilter: string)
    ensures Matching(a + b, statusFilter) == Matching(a, statusFilter) + Matching(b, statusFilter)
    decreases |b|
  {
    if b != [] {
      var init := b[..|b| - 1];
      assert (a + b)[..|a + b| - 1] == a + init;
      MatchingAppend(a, init, statusFilter);
    } else {
      assert a + b == a;
    }
  }

  /** On one row the filter keeps it exactly when its status is the one chosen. */
  lemma MatchingSingle(x: Entry, statusFilter: string)
    ensures Matching([x], statusFilter) == if StatusName(x.status) == statusFilter then [x] else []
  {
    assert [x][..0] == [];
  }

  lemma StatusNameInjective(s: Status, t: Status)
    ensures StatusName(s) == StatusName(t) <==> s == t
    ensures StatusName(s) != "all"
  {
  }

  /** The count shown beside each status is the number of rows its filter shows. */
  lemma {:induction false} FilterMatchesCount(items: seq<Entry>, s: Status)
    ensures |FilterByStatus(items, StatusName(s))| == CountStatus(items, s)
    decreases |items|
  {
    StatusNameInjective(s, s);
    if items != [] {
      FilterMatchesCount(items[..|items| - 1], s);
      StatusNameInjective(items[|items| - 1].status, s);
    }
  }

  // ---------------------------------------------------------------------------
  // The path walk of `renderTranslation`

  /** Where a walk ended: at a value, at a missing step (`return null`), or at a TypeError from `in`. */
  datatype Walked = Found(value: Json) | NotFound | Throws

  /** One step `if (value && k in value) value = value[k]`. */
  function Step(value: Json, k: string): (w: Walked)
    ensures !Truthy(value) ==> w == NotFound
    ensures w == Throws <==> Truthy(value) && !value.Arr? && !value.Obj?
    ensures value.Obj? && w.Found? ==> Get(value.fields, k) == Some(w.value)
    ensures value.Obj? && Get(value.fields, k).Some? ==> w == Found(Get(value.fields, k).value)
    ensures value.Arr? && IsArrayIndex(k) && DigitsValue(k) < |value.elems| ==> w == Found(value.elems[DigitsValue(k)])
  {
    if !Truthy(value) then NotFound
    else
      match value
      case Obj(fs) =>
        var slot := Get(fs, k);
        if slot.Some? then Found(slot.value) else NotFound
      case Arr(es) =>
        if IsArrayIndex(k) && DigitsValue(k) < |es| then Found(es[DigitsValue(k)])
        else if k == "length" then Found(Num(|es|))
        else NotFound
      case _ => Throws
  }

  /** The walk along `keys` from position `i`. */
  function Walk(value: Json, keys: seq<string>, i: nat): Walked
    requires i <= |keys|
    decreases |keys| - i
  {
    if i == |keys| then Found(value)
    else
      match Step(value, keys[i])
      case Found(child) => Walk(child, keys, i + 1)
      case NotFound => NotFound
      case Throws => Throws
  }

  /** The walk from the translation itself, after `if (!translation) return null`. */
  function WalkFrom(translation: Option<Json>, keys: seq<string>): Walked {
    if translation.None? || !Truthy(translation.value) then NotFound
    else Walk(translation.value, keys, 0)
  }

  /** The loop of `renderTranslation` over the path segments. */
  method RenderWalk(translation: Option<Json>, keys: seq<string>) returns (w: Walked)
    ensures w == WalkFrom(translation, keys)
  {
    if translation.None? || !Truthy(translation.value) {
      return NotFound;
    }
    var value := translation.value;
    for i := 0 to |keys|
      invariant Walk(translation.value, keys, 0) == Walk(value, keys, i)
    {
      var next := Step(value, keys[i]);
      if !next.Found? {
        return next;
      }
      value := next.value;
    }
    return Found(value);
  }

  /** `.filter(Boolean)`: the segments without the empty ones. */
  function NonEmpty(segs: seq<string>): (r: seq<string>)
    ensures "" !in r
    ensures forall s :: s in r ==> s in segs
    decreases |segs|
  {
    if segs == [] then []
    else
      var last := segs[|segs| - 1];
      NonEmpty(segs[..|segs| - 1]) + if last == "" then [] else [last]
  }

  lemma {:induction false} NonEmptyUnchanged(segs: seq<string>)
    requires "" !in segs
    ensures NonEmpty(segs) == segs
    decreases |segs|
  {
    if segs != [] {
      var init := segs[..|segs| - 1];
      assert segs == init + [segs[|segs| - 1]];
      NonEmptyUnchanged(init);
    }
  }

  /** The filter works segment by segment: it keeps each non-empty segment, in order, and drops each empty one. */
  lemma {:induction false} NonEmptyAppend(a: seq<string>, b: seq<string>)
    ensures NonEmpty(a + b) == NonEmpty(a) + NonEmpty(b)
    decreases |b|
  {
    if b != [] {
      var init := b[..|b| - 1];
      assert (a + b)[..|a + b| - 1] == a + init;
      NonEmptyAppend(a, init);
    } else {
      assert a + b == a;
    }
  }

  /** On one segment the filter keeps it exactly when it is not empty. */
  lemma NonEmptySingle(s: string)
    ensures NonEmpty([s]) == if s == "" then [] else [s]
  {
    assert [s][..0] == [];
  }

  /** The lookup as `renderTranslation` does it, dropping empty segments. */
  function LookupPath(translation: Option<Json>, key: string): Walked {
    WalkFrom(translation, NonEmpty(Segments(key)))
  }

  /** The lookup along exactly the segments `unflattenJSON` builds. */
  function LookupExact(translation: Option<Json>, key: string): Walked {
    WalkFrom(translation, Segments(key))
  }

  /** The two lookups differ only on keys with an empty segment. */
  lemma LookupAgrees(translation: Option<Json>, key: string)
    requires "" !in Segments(key)
    ensures LookupPath(translation, key) == LookupExact(translation, key)
  {
    NonEmptyUnchanged(Segments(key));
  }

  /**
    * Walking, from an empty container, along the path just inserted into it
    * finds the inserted value.
    */
  lemma {:induction false} FreshWalk(node: Json, segs: seq<string>, i: nat, value: Json, t: Json)
    requires node == Obj([]) || node == Arr([])
    requires i < |segs| && PlaceFrom(node, segs, i, value) == Some(t)
    ensures Walk(t, segs, i) == Found(value)
    decreases |segs| - i
  {
    var child := ChildOf(node, segs, i, value);
    assert child == Created(segs, i, value);
    var sub := PlaceFrom(child, segs, i + 1, value).value;
    assert t == Attach(node, segs[i], sub);
    if i + 1 < |segs| {
      FreshWalk(child, segs, i + 1, value, sub);
    }
    if node.Arr? {
      AttachFresh(segs[i], sub);
    }
    assert Step(t, segs[i]) == Found(sub);
  }

  /**
    * The value a row shows for a language: `unflattenJSON({[key]: cell})`,
    * walked along the key's segments, finds the cell itself whenever the
    * rebuild stays within plain JSON, and nothing otherwise.
    */
  lemma ExactFindsCell(key: string, cell: Json)
    ensures Unflatten([(key, cell)]).Some? <==> Placeable(Segments(key))
    ensures LookupExact(Unflatten([(key, cell)]), key) == if Placeable(Segments(key)) then Found(cell) else NotFound
  {
    UnflattenOneKey(key, cell);
    var r := Unflatten([(key, cell)]);
    if r.Some? {
      assert r.value.Obj?;
      FreshWalk(Obj([]), Segments(key), 0, cell, r.value);
    }
  }

  /** `nestedTranslations[language]`: the row's cell for `language` rebuilt as a nested object. */
  function NestedCell(row: Dict<Json>, key: string, language: string): Option<Json> {
    var cell := Get(row, language);
    if cell.None? then None else Unflatten([(key, cell.value)])
  }

  /** What the nested view finds for `language`, looked up along every segment of the key. */
  function Shown(row: Dict<Json>, key: string, language: string): Walked {
    LookupExact(NestedCell(row, key, language), key)
  }

  /**
    * The nested view shows a language's cell itself for every key whose
    * segments keep the rebuild within plain JSON, array indices of any size
    * included; it shows nothing for a language the row lacks.
    */
  lemma ShownIsCell(row: Dict<Json>, key: string, language: string)
    ensures Shown(row, key, language)
         == if Get(row, language).Some? && Placeable(Segments(key)) then Found(Get(row, language).value) else NotFound
  {
    if Get(row, language).Some? {
      ExactFindsCell(key, Get(row, language).value);
    }
  }

  /** The segments of `a.c[1]`, a key that flattening gives the second element of `{"a": {"c": [x, y]}}`. */
  lemma SecondElementSegments()
    ensures Segments("a.c[1]") == ["a", "c", "1"]
  {
    assert Itos(1) == "1";
    assert "a.c" + "[" + Itos(1) + "]" == "a.c[1]";
    IndexPathSegments("a.c", 1);
    assert "a" + "." + "c" == "a.c";
    FieldPathSegments("a", "c");
    NameSegments("a");
  }

  /** Every segment of `a.c[1]` is in order: two field names, then an array index. */
  lemma SecondElementPlaceable()
    ensures Placeable(["a", "c", "1"])
  {
    var segs := ["a", "c", "1"];
    assert SegmentOk(segs, 0) by {
      assert !InheritedName("a");
    }
    assert SegmentOk(segs, 1) by {
      LetterNameIsNaN("c");
      assert !InheritedName("c");
    }
    assert SegmentOk(segs, 2) by {
      DigitsAreNumbers("1");
      ItosIsArrayIndex(1);
      assert Itos(1) == "1";
    }
  }

  /** The last step of `a.c[1]`: index 1 of a fresh array takes `"y"` after a hole. */
  lemma SecondElementLeaf()
    ensures PlaceFrom(Arr([]), ["a", "c", "1"], 2, Str("y")) == Some(Arr([Null, Str("y")]))
  {
    var segs := ["a", "c", "1"];
    ItosIsArrayIndex(1);
    assert Itos(1) == "1";
    assert Walkable(Arr([]), segs[2]);
    assert ChildOf(Arr([]), segs, 2, Str("y")) == Str("y");
    assert PlaceFrom(Str("y"), segs, 3, Str("y")) == Some(Str("y"));
    assert Holes(1) == [Null];
    assert Attach(Arr([]), "1", Str("y")) == Arr([Null, Str("y")]);
  }

  /** The middle step of `a.c[1]`: the field `c` of a fresh object becomes the array, since `1` is a number. */
  lemma SecondElementMiddle()
    ensures PlaceFrom(Obj([]), ["a", "c", "1"], 1, Str("y")) == Some(Obj([("c", Arr([Null, Str("y")]))]))
  {
    var segs := ["a", "c", "1"];
    assert Walkable(Obj([]), segs[1]) by {
      assert !InheritedName("c");
    }
    assert ChildOf(Obj([]), segs, 1, Str("y")) == Arr([]) by {
      DigitsAreNumbers("1");
    }
    assert PlaceFrom(Obj([]), segs, 1, Str("y")) == AttachTo(Obj([]), "c", PlaceFrom(Arr([]), segs, 2, Str("y")));
    SecondElementLeaf();
    PutNew([], "c", Arr([Null, Str("y")]));
    assert [] + [("c", Arr([Null, Str("y")]))] == [("c", Arr([Null, Str("y")]))];
  }

  /** The first step of `a.c[1]`: the field `a` of the root becomes an object, since `c` is not a number. */
  lemma SecondElementTop()
    ensures Insert(Obj([]), ["a", "c", "1"], Str("y")) == Some(Obj([("a", Obj([("c", Arr([Null, Str("y")]))]))]))
  {
    var segs := ["a", "c", "1"];
    assert Walkable(Obj([]), segs[0]) by {
      assert !InheritedName("a");
    }
    assert ChildOf(Obj([]), segs, 0, Str("y")) == Obj([]) by {
      LetterNameIsNaN("c");
    }
    assert Insert(Obj([]), segs, Str("y")) == AttachTo(Obj([]), "a", PlaceFrom(Obj([]), segs, 1, Str("y")));
    SecondElementMiddle();
    PutNew([], "a", Obj([("c", Arr([Null, Str("y")]))]));
    assert [] + [("a", Obj([("c", Arr([Null, Str("y")]))]))] == [("a", Obj([("c", Arr([Null, Str("y")]))]))];
  }

  /** `a.c[1]` rebuilds as `{"a": {"c": [<hole>, "y"]}}`. */
  lemma SecondElementNested()
    ensures Unflatten([("a.c[1]", Str("y"))]) == Some(Obj([("a", Obj([("c", Arr([Null, Str("y")]))]))]))
  {
    SecondElementSegments();
    UnflattenOneKey("a.c[1]", Str("y"));
    SecondElementTop();
  }

  /**
    * The second element of an array is shown: `a.c[1]` rebuilds with a hole
    * before the cell, and the walk along its segments finds `"y"`.
    */
  lemma ShownSecondElement()
    ensures Shown([("key", Str("a.c[1]")), ("en", Str("y"))], "a.c[1]", "en") == Found(Str("y"))
  {
    var row := [("key", Str("a.c[1]")), ("en", Str("y"))];
    assert Get(row, "en") == Some(Str("y")) by {
      assert Keys(row) == ["key", "en"];
      assert row[1].0 == "en";
    }
    assert Placeable(Segments("a.c[1]")) by {
      SecondElementSegments();
      SecondElementPlaceable();
    }
    ShownIsCell(row, "a.c[1]", "en");
  }

  lemma RootArraySegments()
    ensures Segments("[0]") == ["", "0"]
  {
    assert WordRun("[0]", 2) == 2;
    assert BracketsToDots("[0]") == ".0";
    assert SplitDots("0") == ["0"];
  }

  lemma RootArrayNested()
    ensures Unflatten([("[0]", Str("hi"))]) == Some(Obj([("", Arr([Str("hi")]))]))
  {
    var segs := ["", "0"];
    RootArraySegments();
    assert SegmentEntries([("[0]", Str("hi"))]) == [(segs, Str("hi"))];
    EmptyNameNotInherited();
    DigitsAreNumbers("0");
    assert ChildOf(Obj([]), segs, 0, Str("hi")) == Arr([]);
    ItosIsArrayIndex(0);
    assert Itos(0) == "0";
    assert ChildOf(Arr([]), segs, 1, Str("hi")) == Str("hi");
    assert PlaceFrom(Str("hi"), segs, 2, Str("hi")) == Some(Str("hi"));
    assert [] + [Str("hi")] == [Str("hi")];
    assert Attach(Arr([]), "0", Str("hi")) == Arr([Str("hi")]);
    assert PlaceFrom(Arr([]), segs, 1, Str("hi")) == Some(Arr([Str("hi")]));
    PutNew([], "", Arr([Str("hi")]));
    assert [] + [("", Arr([Str("hi")]))] == [("", Arr([Str("hi")]))];
    assert Walkable(Obj([]), "");
    assert Attach(Obj([]), "", Arr([Str("hi")])) == Obj([("", Arr([Str("hi")]))]);
    assert PlaceFrom(Obj([]), segs, 0, Str("hi")) == Some(Obj([("", Arr([Str("hi")]))]));
    assert [(segs, Str("hi"))][..0] == [];
  }

  /**
    * A document whose root is an array flattens to keys such as "[0]"; the
    * nested view rebuilds them under an empty field name, which the
    * renderer's dropping of empty segments then never reaches.
    */
  lemma RootArrayKeyMissing()
    ensures Unflatten([("[0]", Str("hi"))]) == Some(Obj([("", Arr([Str("hi")]))]))
    ensures LookupPath(Some(Obj([("", Arr([Str("hi")]))])), "[0]") == NotFound
    ensures LookupExact(Some(Obj([("", Arr([Str("hi")]))])), "[0]") == Found(Str("hi"))
  {
    RootArrayNested();
    RootArraySegments();
    assert NonEmpty(["", "0"]) == ["0"] by {
      assert ["", "0"][..1] == [""];
      assert [""][..0] == [];
    }
    ExactFindsCell("[0]", Str("hi"));
  }
}
