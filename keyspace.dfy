/**
  * The aggregation step of `selectFolder` (src/useTranslations.ts): every
  * sub-directory of the chosen folder is one language; its
  * `translation.json` is flattened, the flat maps are collected by language
  * name, their keys merged into one duplicate-free list, and the primary
  * language defaults to the first language that loaded.
  */
module KeySpace {
  import opened Wrappers
  import opened Dicts
  import opened JsonValues
  import opened PathCodec

  /** What reading and parsing `<folder>/<name>/translation.json` gave: the parsed value, or the error. */
  datatype Outcome = Parsed(content: Json) | Failed(reason: string)

  /** A sub-directory of the chosen folder with the outcome of reading its translation file. */
  datatype Directory = Directory(name: string, outcome: Outcome)

  /** `TranslationFile`: the entry every directory gets, whether its file loaded or not. */
  datatype TranslationFile = TranslationFile(id: nat, name: string, content: Dict<Json>, error: string)

  const ErrorPrefix: string := "Error reading translation.json: "

  /** The entry pushed for the directory at position `index`. */
  function FileEntry(index: nat, d: Directory): TranslationFile {
    match d.outcome
    case Parsed(c) => TranslationFile(index + 1, d.name, Flatten(c), "")
    case Failed(reason) => TranslationFile(index + 1, d.name, [], ErrorPrefix + reason)
  }

  /** `translationsArray` after the loop. */
  function Files(dirs: seq<Directory>): seq<TranslationFile> {
    seq(|dirs|, i requires 0 <= i < |dirs| => FileEntry(i, dirs[i]))
  }

  /** `localFlattenedData` after the loop: each loaded language's name mapped to its flat map. */
  function Loaded(dirs: seq<Directory>): Dict<Dict<Json>>
    decreases |dirs|
  {
    if dirs == [] then []
    else
      var prev := Loaded(dirs[..|dirs| - 1]);
      var d := dirs[|dirs| - 1];
      match d.outcome
      case Parsed(c) => Put(prev, d.name, Flatten(c))
      case Failed(_) => prev
  }

  /** `Array.from(localAllKeys)` after the loop: every key of every loaded flat map, first-seen order. */
  function KeysSeen(dirs: seq<Directory>): seq<string>
    decreases |dirs|
  {
    if dirs == [] then []
    else
      var prev := KeysSeen(dirs[..|dirs| - 1]);
      var d := dirs[|dirs| - 1];
      match d.outcome
      case Parsed(c) => AddAll(prev, Keys(Flatten(c)))
      case Failed(_) => prev
  }

  /** The state `useTranslations` keeps. */
  class TranslationStore {
    var allTranslations: seq<TranslationFile>
    var flattenedData: Dict<Dict<Json>>
    var allKeys: seq<string>
    var primaryLanguage: string

    constructor ()
      ensures allTranslations == [] && flattenedData == [] && allKeys == [] && primaryLanguage == ""
    {
      allTranslations := [];
      flattenedData := [];
      allKeys := [];
      primaryLanguage := "";
    }

    /**
      * `setPrimaryLanguage`, which the language selector calls with one of
      * the loaded names.
      */
    method SetPrimaryLanguage(language: string)
      modifies this
      ensures primaryLanguage == language
      ensures allTranslations == old(allTranslations) && flattenedData == old(flattenedData)
      ensures allKeys == old(allKeys)
    {
      primaryLanguage := language;
    }

    /**
      * `selectFolder`: `listing` is None when no folder was chosen or the
      * folder could not be listed, and otherwise holds its sub-directories
      * in listing order.
      */
    method SelectFolder(listing: Option<seq<Directory>>)
      modifies this
      ensures listing.None? ==> unchanged(this)
      ensures listing.Some? ==>
        var dirs := listing.value;
        allTranslations == Files(dirs) && flattenedData == Loaded(dirs) && allKeys == KeysSeen(dirs) &&
        primaryLanguage == if old(primaryLanguage) == "" && |Loaded(dirs)| > 0 then Loaded(dirs)[0].0 else old(primaryLanguage)
    {
      if listing.None? {
        return;
      }
      var translationsArray, localFlattenedData, localAllKeys := LoadDirectories(listing.value);
      flattenedData := localFlattenedData;
      allKeys := localAllKeys;
      if primaryLanguage == "" && |localFlattenedData| > 0 {
        primaryLanguage := localFlattenedData[0].0;
      }
      allTranslations := translationsArray;
    }
  }

  /** The loop of `selectFolder` over the sub-directories, in listing order. */
  method LoadDirectories(directories: seq<Directory>)
    returns (translationsArray: seq<TranslationFile>, localFlattenedData: Dict<Dict<Json>>, localAllKeys: seq<string>)
    ensures translationsArray == Files(directories)
    ensures localFlattenedData == Loaded(directories)
    ensures localAllKeys == KeysSeen(directories)
  {
    translationsArray, localFlattenedData, localAllKeys := [], [], [];
    for index := 0 to |directories|
      invariant translationsArray == Files(directories[..index])
      invariant localFlattenedData == Loaded(directories[..index])
      invariant localAllKeys == KeysSeen(directories[..index])
    {
      var directory := directories[index];
      LoadStep(directories, index);
      match directory.outcome {
        case Parsed(c) =>
          var flattenedContent := FlattenJSON(c);
          localFlattenedData := Put(localFlattenedData, directory.name, flattenedContent.entries);
          localAllKeys := MergeKeys(localAllKeys, Keys(flattenedContent.entries));
          translationsArray := translationsArray + [TranslationFile(index + 1, directory.name, flattenedContent.entries, "")];
        case Failed(reason) =>
          translationsArray := translationsArray + [TranslationFile(index + 1, directory.name, [], ErrorPrefix + reason)];
      }
    }
    assert directories[..|directories|] == directories;
  }

  /** What one more directory adds to the three results. */
  lemma LoadStep(dirs: seq<Directory>, n: nat)
    requires n < |dirs|
    ensures Files(dirs[..n + 1]) == Files(dirs[..n]) + [FileEntry(n, dirs[n])]
    ensures Loaded(dirs[..n + 1]) == match dirs[n].outcome
      case Parsed(c) => Put(Loaded(dirs[..n]), dirs[n].name, Flatten(c))
      case Failed(_) => Loaded(dirs[..n])
    ensures KeysSeen(dirs[..n + 1]) == match dirs[n].outcome
      case Parsed(c) => AddAll(KeysSeen(dirs[..n]), Keys(Flatten(c)))
      case Failed(_) => KeysSeen(dirs[..n])
  {
    assert dirs[..n + 1][..n] == dirs[..n];
  }

  /** `Object.keys(flattenedContent).forEach(key => localAllKeys.add(key))` on the insertion-ordered set. */
  method MergeKeys(seen: seq<string>, keys: seq<string>) returns (r: seq<string>)
    ensures r == AddAll(seen, keys)
  {
    r := seen;
    for j := 0 to |keys|
      invariant r == AddAll(seen, keys[..j])
    {
      assert keys[..j + 1][..j] == keys[..j];
      r := Add(r, keys[j]);
    }
    assert keys[..|keys|] == keys;
  }

  // ---------------------------------------------------------------------------
  // What the aggregation guarantees

  /** The names of the directories, which one folder listing never repeats. */
  function Names(dirs: seq<Directory>): seq<string> {
    seq(|dirs|, i requires 0 <= i < |dirs| => dirs[i].name)
  }

  /**
    * One entry per directory, in order, numbered from 1; a loaded file is
    * flattened with no error, a failed one has empty content and an error
    * message that starts with the fixed prefix.
    */
  lemma FilesShape(dirs: seq<Directory>)
    ensures |Files(dirs)| == |dirs|
    ensures forall i :: 0 <= i < |dirs| ==>
      var f := Files(dirs)[i];
      f.id == i + 1 && f.name == dirs[i].name &&
      (dirs[i].outcome.Parsed? ==> f.content == Flatten(dirs[i].outcome.content) && f.error == "") &&
      (dirs[i].outcome.Failed? ==> f.content == [] && |f.error| > |ErrorPrefix| - 1 && f.error[..|ErrorPrefix|] == ErrorPrefix)
  {
  }

  /** `localAllKeys` is a `Set`: the merged keys never repeat. */
  lemma {:induction false} KeysSeenNoDup(dirs: seq<Directory>)
    ensures NoDup(KeysSeen(dirs))
    decreases |dirs|
  {
    if dirs != [] {
      KeysSeenNoDup(dirs[..|dirs| - 1]);
    }
  }

  /** A key of a loaded file is among the merged keys. */
  lemma {:induction false} KeySeenComplete(dirs: seq<Directory>, i: nat, x: string)
    requires i < |dirs| && dirs[i].outcome.Parsed? && x in Keys(Flatten(dirs[i].outcome.content))
    ensures x in KeysSeen(dirs)
    decreases |dirs|
  {
    var init := dirs[..|dirs| - 1];
    if i < |init| {
      assert init[i] == dirs[i];
      KeySeenComplete(init, i, x);
    }
  }

  /** Every merged key comes from some loaded file. */
  lemma {:induction false} KeySeenSound(dirs: seq<Directory>, x: string)
    requires x in KeysSeen(dirs)
    ensures exists i :: 0 <= i < |dirs| && dirs[i].outcome.Parsed? && x in Keys(Flatten(dirs[i].outcome.content))
    decreases |dirs|
  {
    var init := dirs[..|dirs| - 1];
    var last := dirs[|dirs| - 1];
    if x in KeysSeen(init) {
      KeySeenSound(init, x);
      var i :| 0 <= i < |init| && init[i].outcome.Parsed? && x in Keys(Flatten(init[i].outcome.content));
      assert dirs[i] == init[i];
    } else {
      assert dirs[|dirs| - 1] == last;
    }
  }

  /** The merged keys are duplicate-free and are exactly the keys of the flat maps of the loaded files. */
  lemma KeysSeenUnion(dirs: seq<Directory>)
    ensures NoDup(KeysSeen(dirs))
    ensures forall x :: x in KeysSeen(dirs) <==>
      exists i :: 0 <= i < |dirs| && dirs[i].outcome.Parsed? && x in Keys(Flatten(dirs[i].outcome.content))
  {
    KeysSeenNoDup(dirs);
    forall x
      ensures x in KeysSeen(dirs) <==>
        exists i :: 0 <= i < |dirs| && dirs[i].outcome.Parsed? && x in Keys(Flatten(dirs[i].outcome.content))
    {
      if x in KeysSeen(dirs) {
        KeySeenSound(dirs, x);
      }
      if exists i :: 0 <= i < |dirs| && dirs[i].outcome.Parsed? && x in Keys(Flatten(dirs[i].outcome.content)) {
        var i :| 0 <= i < |dirs| && dirs[i].outcome.Parsed? && x in Keys(Flatten(dirs[i].outcome.content));
        KeySeenComplete(dirs, i, x);
      }
    }
  }

  /** Keys keep the order in which they were first seen: loading more languages only appends. */
  lemma {:induction false} KeysSeenGrows(dirs: seq<Directory>, n: nat)
    requires n <= |dirs|
    ensures |KeysSeen(dirs[..n])| <= |KeysSeen(dirs)|
    ensures KeysSeen(dirs)[..|KeysSeen(dirs[..n])|] == KeysSeen(dirs[..n])
    decreases |dirs|
  {
    if n < |dirs| {
      var init := dirs[..|dirs| - 1];
      assert init[..n] == dirs[..n];
      KeysSeenGrows(init, n);
    } else {
      assert dirs[..n] == dirs;
    }
  }

  /**
    * With distinct directory names, each loaded language is found under its
    * name with exactly its flattened content, and a language whose file
    * failed is not there at all.
    */
  lemma {:induction false} LoadedLookup(dirs: seq<Directory>)
    requires NoDup(Names(dirs))
    ensures forall i :: 0 <= i < |dirs| ==>
      Get(Loaded(dirs), dirs[i].name) == if dirs[i].outcome.Parsed? then Some(Flatten(dirs[i].outcome.content)) else None
    decreases |dirs|
  {
    if dirs != [] {
      var init := dirs[..|dirs| - 1];
      var last := dirs[|dirs| - 1];
      assert Names(init) == Names(dirs)[..|dirs| - 1];
      LoadedLookup(init);
      forall i | 0 <= i < |init| ensures init[i] == dirs[i] && init[i].name != last.name {
        assert Names(dirs)[i] == dirs[i].name && Names(dirs)[|dirs| - 1] == last.name;
      }
      LoadedOnlyNamed(init, last.name);
    }
  }

  /** Only the names of loaded directories are ever keys of the table. */
  lemma {:induction false} LoadedOnlyNamed(dirs: seq<Directory>, name: string)
    requires forall i :: 0 <= i < |dirs| ==> dirs[i].name != name
    ensures Get(Loaded(dirs), name) == None
    decreases |dirs|
  {
    if dirs != [] {
      var init := dirs[..|dirs| - 1];
      assert forall i :: 0 <= i < |init| ==> init[i] == dirs[i];
      LoadedOnlyNamed(init, name);
    }
  }

  /**
    * The table is empty exactly when no file loaded; otherwise its first
    * name, which becomes the default primary language, is that of the
    * first directory whose file loaded.
    */
  lemma {:induction false} FirstLoaded(dirs: seq<Directory>, j: nat)
    requires j < |dirs| && dirs[j].outcome.Parsed?
    requires forall i :: 0 <= i < j ==> dirs[i].outcome.Failed?
    ensures |Loaded(dirs)| > 0 && Loaded(dirs)[0].0 == dirs[j].name
    decreases |dirs|
  {
    var init := dirs[..|dirs| - 1];
    assert forall i :: 0 <= i < |init| ==> init[i] == dirs[i];
    if j < |dirs| - 1 {
      FirstLoaded(init, j);
    } else {
      NoneLoaded(init);
    }
  }

  lemma {:induction false} NoneLoaded(dirs: seq<Directory>)
    requires forall i :: 0 <= i < |dirs| ==> dirs[i].outcome.Failed?
    ensures Loaded(dirs) == []
    decreases |dirs|
  {
    if dirs != [] {
      var init := dirs[..|dirs| - 1];
      assert forall i :: 0 <= i < |init| ==> init[i] == dirs[i];
      NoneLoaded(init);
    }
  }

  /**
    * With distinct directory names, a key is in the merged list exactly when
    * some language in the table has it.
    */
  lemma AllKeysMatchLoaded(dirs: seq<Directory>)
    requires NoDup(Names(dirs))
    ensures forall x :: x in KeysSeen(dirs) <==>
      exists i :: 0 <= i < |dirs| && Get(Loaded(dirs), dirs[i].name).Some? && x in Keys(Get(Loaded(dirs), dirs[i].name).value)
  {
    KeysSeenUnion(dirs);
    LoadedLookup(dirs);
  }

  /** The table never holds two entries for one language. */
  lemma {:induction false} LoadedNoDup(dirs: seq<Directory>)
    ensures NoDup(Keys(Loaded(dirs)))
    decreases |dirs|
  {
    if dirs != [] {
      var init := dirs[..|dirs| - 1];
      LoadedNoDup(init);
      var d := dirs[|dirs| - 1];
      if d.outcome.Parsed? {
        PutKeepsNoDup(Loaded(init), d.name, Flatten(d.outcome.content));
      }
    }
  }

  /**
    * With distinct directory names, the languages of the table are exactly
    * the names of the directories whose file loaded, each with its flat map.
    */
  lemma {:induction false} LoadedLanguages(dirs: seq<Directory>, l: string)
    requires NoDup(Names(dirs))
    ensures l in Keys(Loaded(dirs)) <==> exists i :: 0 <= i < |dirs| && dirs[i].outcome.Parsed? && dirs[i].name == l
    ensures l in Keys(Loaded(dirs)) ==>
      exists i :: 0 <= i < |dirs| && dirs[i].outcome.Parsed? && dirs[i].name == l &&
        Get(Loaded(dirs), l) == Some(Flatten(dirs[i].outcome.content))
  {
    LoadedLookup(dirs);
    if l in Keys(Loaded(dirs)) {
      LoadedHasName(dirs, l);
    }
  }

  /** Every language of the table is the name of a directory. */
  lemma {:induction false} LoadedHasName(dirs: seq<Directory>, l: string)
    requires l in Keys(Loaded(dirs))
    ensures exists i :: 0 <= i < |dirs| && dirs[i].name == l
    decreases |dirs|
  {
    var init := dirs[..|dirs| - 1];
    var d := dirs[|dirs| - 1];
    if l in Keys(Loaded(init)) {
      LoadedHasName(init, l);
      var i :| 0 <= i < |init| && init[i].name == l;
      assert dirs[i] == init[i];
    } else {
      assert d.name == l;
    }
  }
}
