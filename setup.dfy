/** The settings tool: its configuration (a `ConfigParser` object, as a map of sections),
    the list of known comparators (a Python list object, so shared by reference), the
    start-up load with its fallback to defaults, the combo-box selection rule and the save. */
module NautilusCompareSetup {
  import opened Wrappers
  import opened TextOrder
  import opened EngineLists

  const SETTINGS_MAIN := "Settings"
  const DIFF_PATH := "diff_engine_path"
  const DIFF_PATH_3WAY := "diff_engine_path_3way"
  const DIFF_PATH_MULTI := "diff_engine_path_multi"
  const COMPARATORS := "defined_comparators"
  const PREDEFINED_ENGINES: seq<string> := ["", "diffuse", "fldiff", "kdiff3", "kompare", "meld", "tkdiff"]
  const DEFAULT_DIFF_ENGINE := "meld"

  lemma PredefinedSorted()
    ensures Sorted(PREDEFINED_ENGINES)
  {
    var p := PREDEFINED_ENGINES;
    assert Le(p[0], p[1]) && Le(p[1], p[2]) && Le(p[2], p[3]);
    assert Le(p[3], p[4]) by {
      assert p[3][0] == p[4][0] && p[3][1] < p[4][1];
    }
    assert Le(p[4], p[5]) && Le(p[5], p[6]);
    SortedFromNeighbours(p);
  }

  /** A value held by the configuration object: text read from the file, or the list
      object that `set` was given. */
  datatype Value = Text(text: string) | Names(names: seq<string>)

  type Section = map<string, Value>
  type Config = map<string, Section>

  /** The configuration object right after reading the file. */
  function FromFile(stored: map<string, map<string, string>>): Config
  {
    map s | s in stored :: map k | k in stored[s] :: Text(stored[s][k])
  }

  /** Every value is text, as in a configuration object that has only been read. */
  predicate AllText(c: Config)
  {
    forall s, k :: s in c && k in c[s] ==> c[s][k].Text?
  }

  /** `add_section`, with `DuplicateSectionError` caught: a missing section is created empty. */
  function AddSection(c: Config, section: string): (r: Config)
    ensures r.Keys == c.Keys + {section}
    ensures section in c ==> r[section] == c[section]
    ensures section !in c ==> r[section] == map[]
  {
    if section in c then c else c[section := map[]]
  }

  /** `set` on a section that exists. */
  function SetOption(c: Config, section: string, key: string, v: Value): (r: Config)
    requires section in c
    ensures r.Keys == c.Keys
    ensures r[section].Keys == c[section].Keys + {key} && r[section][key] == v
  {
    c[section := c[section][key := v]]
  }

  /** The four option names differ (their lengths do). */
  lemma OptionNamesDistinct()
    ensures DIFF_PATH != DIFF_PATH_3WAY && DIFF_PATH != DIFF_PATH_MULTI && DIFF_PATH != COMPARATORS
    ensures DIFF_PATH_3WAY != DIFF_PATH_MULTI && DIFF_PATH_3WAY != COMPARATORS
    ensures DIFF_PATH_MULTI != COMPARATORS
  {
    assert |DIFF_PATH| == 16 && |DIFF_PATH_3WAY| == 21 && |DIFF_PATH_MULTI| == 22 && |COMPARATORS| == 19;
  }

  /** `add_section` followed by the `set` of the three comparator paths. */
  function SetPaths(c: Config, engine: string, engine3way: string, engineMulti: string): Config
  {
    var c1 := AddSection(c, SETTINGS_MAIN);
    var c2 := SetOption(c1, SETTINGS_MAIN, DIFF_PATH, Text(engine));
    var c3 := SetOption(c2, SETTINGS_MAIN, DIFF_PATH_3WAY, Text(engine3way));
    SetOption(c3, SETTINGS_MAIN, DIFF_PATH_MULTI, Text(engineMulti))
  }

  /** `SetPaths` followed by the `set` of the list of known comparators, as both the save
      and the start-up fallback do it. */
  function SetSettings(c: Config, engine: string, engine3way: string, engineMulti: string,
                       comparators: seq<string>): Config
  {
    SetOption(SetPaths(c, engine, engine3way, engineMulti), SETTINGS_MAIN, COMPARATORS, Names(comparators))
  }

  /** The settings write, as one update of section `Settings`. */
  lemma SetSettingsUpdate(c: Config, engine: string, engine3way: string, engineMulti: string,
                          comparators: seq<string>)
    ensures var before: Section := if SETTINGS_MAIN in c then c[SETTINGS_MAIN] else map[];
      SetSettings(c, engine, engine3way, engineMulti, comparators)
      == c[SETTINGS_MAIN := before[DIFF_PATH := Text(engine)][DIFF_PATH_3WAY := Text(engine3way)]
                                  [DIFF_PATH_MULTI := Text(engineMulti)][COMPARATORS := Names(comparators)]]
  {
  }

  /** Which sections and options exist after the settings write: section `Settings` is
      added if missing, and gets the four options; nothing else is added. */
  lemma SetSettingsKeys(c: Config, engine: string, engine3way: string, engineMulti: string,
                        comparators: seq<string>)
    ensures var r := SetSettings(c, engine, engine3way, engineMulti, comparators);
      && r.Keys == c.Keys + {SETTINGS_MAIN}
      && (SETTINGS_MAIN in c ==> r[SETTINGS_MAIN].Keys
                                 == c[SETTINGS_MAIN].Keys + {DIFF_PATH, DIFF_PATH_3WAY, DIFF_PATH_MULTI, COMPARATORS})
      && (SETTINGS_MAIN !in c ==> r[SETTINGS_MAIN].Keys == {DIFF_PATH, DIFF_PATH_3WAY, DIFF_PATH_MULTI, COMPARATORS})
  {
    SetSettingsUpdate(c, engine, engine3way, engineMulti, comparators);
  }

  /** The values after the settings write: the three paths and the list in section
      `Settings`; every other option of it and every other section as before. */
  lemma SetSettingsValues(c: Config, engine: string, engine3way: string, engineMulti: string,
                          comparators: seq<string>)
    ensures var r := SetSettings(c, engine, engine3way, engineMulti, comparators);
      && (forall s :: s in c && s != SETTINGS_MAIN ==> r[s] == c[s])
      && DIFF_PATH in r[SETTINGS_MAIN] && r[SETTINGS_MAIN][DIFF_PATH] == Text(engine)
      && DIFF_PATH_3WAY in r[SETTINGS_MAIN] && r[SETTINGS_MAIN][DIFF_PATH_3WAY] == Text(engine3way)
      && DIFF_PATH_MULTI in r[SETTINGS_MAIN] && r[SETTINGS_MAIN][DIFF_PATH_MULTI] == Text(engineMulti)
      && COMPARATORS in r[SETTINGS_MAIN] && r[SETTINGS_MAIN][COMPARATORS] == Names(comparators)
      && (forall k :: (SETTINGS_MAIN in c && k in c[SETTINGS_MAIN] && k != DIFF_PATH && k != DIFF_PATH_3WAY
                       && k != DIFF_PATH_MULTI && k != COMPARATORS) ==> r[SETTINGS_MAIN][k] == c[SETTINGS_MAIN][k])
  {
    OptionNamesDistinct();
    SetSettingsUpdate(c, engine, engine3way, engineMulti, comparators);
  }

  /** `get(SETTINGS_MAIN, key)` raises neither `NoSectionError` nor `NoOptionError`. */
  predicate HasOption(c: Config, key: string)
  {
    SETTINGS_MAIN in c && key in c[SETTINGS_MAIN]
  }

  /** The option `key` of section `Settings` is in the file. */
  predicate StoredHas(stored: map<string, map<string, string>>, key: string)
  {
    SETTINGS_MAIN in stored && key in stored[SETTINGS_MAIN]
  }

  /** What the `try` block leaves: the three comparator fields (each read value kept until
      the first missing option or section), and the decoded list of known comparators, or
      `None` when a `NoSectionError` or `NoOptionError` was raised. */
  datatype Loaded = Loaded(engine: string, engine3way: string, engineMulti: string,
                           comparators: Option<seq<string>>)

  /** The `try` block of start-up: four `get`s on the configuration object, in order.
      `decoded` is what evaluating the `defined_comparators` text gives. */
  function ReadSettings(c: Config, decoded: seq<string>): (r: Loaded)
    requires AllText(c)
    ensures r.comparators.Some? <==> HasOption(c, DIFF_PATH) && HasOption(c, DIFF_PATH_3WAY)
                                     && HasOption(c, DIFF_PATH_MULTI) && HasOption(c, COMPARATORS)
    ensures r.comparators.Some? ==> r.comparators.value == decoded
    ensures r.engine == if HasOption(c, DIFF_PATH) then c[SETTINGS_MAIN][DIFF_PATH].text
                        else DEFAULT_DIFF_ENGINE
    ensures r.engine3way == if HasOption(c, DIFF_PATH) && HasOption(c, DIFF_PATH_3WAY)
                            then c[SETTINGS_MAIN][DIFF_PATH_3WAY].text else DEFAULT_DIFF_ENGINE
    ensures r.engineMulti == if HasOption(c, DIFF_PATH) && HasOption(c, DIFF_PATH_3WAY)
                                && HasOption(c, DIFF_PATH_MULTI)
                             then c[SETTINGS_MAIN][DIFF_PATH_MULTI].text else ""
  {
    if !HasOption(c, DIFF_PATH) then Loaded(DEFAULT_DIFF_ENGINE, DEFAULT_DIFF_ENGINE, "", None)
    else
      var engine := c[SETTINGS_MAIN][DIFF_PATH].text;
      if !HasOption(c, DIFF_PATH_3WAY) then Loaded(engine, DEFAULT_DIFF_ENGINE, "", None)
      else
        var engine3way := c[SETTINGS_MAIN][DIFF_PATH_3WAY].text;
        if !HasOption(c, DIFF_PATH_MULTI) then Loaded(engine, engine3way, "", None)
        else
          var engineMulti := c[SETTINGS_MAIN][DIFF_PATH_MULTI].text;
          if !HasOption(c, COMPARATORS) then Loaded(engine, engine3way, engineMulti, None)
          else Loaded(engine, engine3way, engineMulti, Some(decoded))
  }

  /** Start-up reads the file into the configuration object and then reads the settings
      from that object: the `get`s succeed iff the file has all four options, and each
      field holds the file's text when it and every option read before it are there. */
  lemma ReadSettingsFromFile(stored: map<string, map<string, string>>, decoded: seq<string>)
    ensures AllText(FromFile(stored))
    ensures var r := ReadSettings(FromFile(stored), decoded);
      && (r.comparators.Some? <==> StoredHas(stored, DIFF_PATH) && StoredHas(stored, DIFF_PATH_3WAY)
                                   && StoredHas(stored, DIFF_PATH_MULTI) && StoredHas(stored, COMPARATORS))
      && (r.engine == if StoredHas(stored, DIFF_PATH) then stored[SETTINGS_MAIN][DIFF_PATH]
                      else DEFAULT_DIFF_ENGINE)
      && (r.engine3way == if StoredHas(stored, DIFF_PATH) && StoredHas(stored, DIFF_PATH_3WAY)
                          then stored[SETTINGS_MAIN][DIFF_PATH_3WAY] else DEFAULT_DIFF_ENGINE)
      && (r.engineMulti == if StoredHas(stored, DIFF_PATH) && StoredHas(stored, DIFF_PATH_3WAY)
                              && StoredHas(stored, DIFF_PATH_MULTI)
                           then stored[SETTINGS_MAIN][DIFF_PATH_MULTI] else "")
  {
  }

  /** The combo box `changed_cb` was called for. */
  datatype ComboId = Normal | ThreeWay | Multi

  /** Why `changed_cb` stops before it assigns: `selection` never bound (empty entry
      text and active index 0), or `model[index]` out of range. */
  datatype SelectionError = SelectionUnbound | RowOutOfRange

  /** The selection rule of `changed_cb`: non-empty entry text wins; otherwise a non-zero
      active index (Python-truthy, so also -1) picks the text of that row, with Python's
      indexing (a negative index counts from the end). */
  function Selection(entry: string, index: int, rows: seq<string>): (r: Result<string, SelectionError>)
    ensures |entry| > 0 ==> r == Ok(entry)
    ensures |entry| == 0 && index == 0 ==> r == Err(SelectionUnbound)
    ensures |entry| == 0 && index != 0 ==> (r.Ok? <==> -|rows| <= index < |rows|)
    ensures r.Ok? ==> r.value == entry || r.value in rows
    ensures |entry| == 0 && index == -1 && |rows| > 0 ==> r == Ok(rows[|rows| - 1])
    ensures |entry| == 0 && 0 < index < |rows| ==> r == Ok(rows[index])
  {
    if |entry| > 0 then Ok(entry)
    else if index != 0 then
      if 0 <= index < |rows| then Ok(rows[index])
      else if -|rows| <= index < 0 then Ok(rows[|rows| + index])
      else Err(RowOutOfRange)
    else Err(SelectionUnbound)
  }

  /** The merge of the three chosen comparators into the known list: each is present
      afterwards, the old list is a prefix, at most three names are added, and a list
      without duplicates stays so (a name chosen for two arities is added once). */
  lemma MergeChosen(before: seq<string>, engine: string, engine3way: string, engineMulti: string)
    ensures var r := AppendMissing(before, [engine, engine3way, engineMulti]);
      && r == AddIfAbsent(AddIfAbsent(AddIfAbsent(before, engine), engine3way), engineMulti)
      && engine in r && engine3way in r && engineMulti in r
      && before <= r && |r| <= |before| + 3
      && (NoDuplicates(before) ==> NoDuplicates(r))
  {
    var chosen := [engine, engine3way, engineMulti];
    AppendMissingSnoc(before, [], engine);
    AppendMissingSnoc(before, [engine], engine3way);
    AppendMissingSnoc(before, [engine, engine3way], engineMulti);
    assert [] + [engine] == [engine];
    assert [engine] + [engine3way] == [engine, engine3way];
    assert [engine, engine3way] + [engineMulti] == chosen;
    AppendMissingGrows(before, chosen);
    if NoDuplicates(before) {
      AppendMissingNoDuplicates(before, chosen);
    }
  }

  /** The names of a sorted merge: the start list and the installed candidates. */
  lemma MergedNames(start: seq<string>, candidates: seq<string>, installed: seq<string>, sorted: seq<string>)
    requires multiset(sorted) == multiset(AppendMissing(start, Installed(candidates, installed)))
    ensures forall e :: e in sorted <==> e in start || (e in candidates && e in installed)
  {
    AppendMissingGrows(start, Installed(candidates, installed));
    forall e
      ensures e in sorted <==> e in start || (e in candidates && e in installed)
    {
      assert e in sorted <==> e in multiset(sorted);
      InstalledMembers(candidates, installed, e);
    }
  }

  /** When the merge starts from the predefined list itself (the shared list object),
      nothing is appended. */
  lemma InstalledOfItselfAddsNothing(predefined: seq<string>, systemUtils: seq<string>)
    ensures AppendMissing(predefined, Installed(predefined, systemUtils)) == predefined
  {
    forall e | e in Installed(predefined, systemUtils)
      ensures e in predefined
    {
      InstalledMembers(predefined, systemUtils, e);
    }
    AppendMissingPresent(predefined, Installed(predefined, systemUtils));
  }

  /** A Python list object of comparator names. */
  class EngineList {
    var items: seq<string>

    constructor (names: seq<string>)
      ensures items == names
    {
      items := names;
    }

    /** `if x not in list: list.append(x)`. */
    method AppendIfAbsent(x: string)
      modifies this
      ensures items == AddIfAbsent(old(items), x)
    {
      if x !in items {
        items := items + [x];
      }
    }

    /** `list.sort()` on strings. */
    method Sort()
      modifies this
      ensures Sorted(items)
      ensures multiset(items) == old(multiset(items))
    {
      var unsorted := items;
      var sorted: seq<string> := [];
      for i := 0 to |unsorted|
        invariant Sorted(sorted)
        invariant multiset(sorted) == multiset(unsorted[..i])
      {
        InsertSorted(sorted, unsorted[i]);
        assert unsorted[..i + 1] == unsorted[..i] + [unsorted[i]];
        sorted := Insert(sorted, unsorted[i]);
      }
      assert unsorted[..|unsorted|] == unsorted;
      items := sorted;
    }
  }

  /** The settings tool. `predefinedEngines` is the module-level `PREDEFINED_ENGINES` list
      object, which the class attribute `engines` refers to until a stored list replaces it. */
  class NautilusCompareExtensionSetup {
    var diffEngine: string
    var diffEngine3way: string
    var diffEngineMulti: string
    var engines: EngineList
    var config: Config
    const predefinedEngines: EngineList

    /** `__init__` without its widgets: `predefined` is the module-level list object the
        class attribute `engines` refers to, `stored` the file as read, `systemUtils` the
        names in the binary directory, `decoded` the evaluated stored comparator list. */
    constructor (predefined: EngineList, stored: map<string, map<string, string>>,
                 systemUtils: seq<string>, decoded: seq<string>)
      modifies predefined
      ensures predefinedEngines == predefined
      ensures var r := ReadSettings(FromFile(stored), decoded);
        diffEngine == r.engine && diffEngine3way == r.engine3way && diffEngineMulti == r.engineMulti
      ensures Sorted(engines.items)
      ensures ReadSettings(FromFile(stored), decoded).comparators.Some? ==>
        && fresh(engines)
        && config == FromFile(stored)
        && predefined.items == old(predefined.items)
        && multiset(engines.items) == multiset(AppendMissing(decoded, Installed(old(predefined.items), systemUtils)))
      ensures var r := ReadSettings(FromFile(stored), decoded); r.comparators.None? ==>
        && engines == predefined
        && multiset(engines.items) == old(multiset(predefined.items))
        && config == SetSettings(FromFile(stored), r.engine, r.engine3way, r.engineMulti, ["", r.engine])
    {
      predefinedEngines := predefined;
      var c := FromFile(stored);
      ReadSettingsFromFile(stored, decoded);
      var r := ReadSettings(c, decoded);
      diffEngine, diffEngine3way, diffEngineMulti := r.engine, r.engine3way, r.engineMulti;
      if r.comparators.Some? {
        engines := new EngineList(r.comparators.value);
      } else {
        engines := predefined;
        c := SetSettings(c, r.engine, r.engine3way, r.engineMulti, ["", r.engine]);
      }
      config := c;
      new;
      ghost var predefinedNames := predefined.items;
      MergeInstalled(systemUtils);
      if r.comparators.None? {
        InstalledOfItselfAddsNothing(predefinedNames, systemUtils);
      }
    }

    /** Lines 131-135 of start-up: the merge of the installed predefined comparators,
        then the in-place sort. */
    method MergeInstalled(systemUtils: seq<string>)
      modifies engines
      ensures Sorted(engines.items)
      ensures multiset(engines.items)
           == multiset(AppendMissing(old(engines.items), Installed(old(predefinedEngines.items), systemUtils)))
    {
      AddInstalledEngines(systemUtils);
      engines.Sort();
    }

    /** The start-up merge: every predefined comparator that is installed and not yet
        known is appended, in the predefined order. The loop runs over the module-level
        list object, which is `engines` itself when the two are shared. */
    method AddInstalledEngines(systemUtils: seq<string>)
      modifies engines
      ensures predefinedEngines.items == old(predefinedEngines.items)
      ensures engines.items == AppendMissing(old(engines.items), Installed(old(predefinedEngines.items), systemUtils))
    {
      ghost var predefined := predefinedEngines.items;
      ghost var start := engines.items;
      var i := 0;
      while i < |predefinedEngines.items|
        invariant predefinedEngines.items == predefined
        invariant 0 <= i <= |predefined|
        invariant engines.items == AppendMissing(start, Installed(predefined[..i], systemUtils))
        invariant engines == predefinedEngines ==> engines.items == predefined
      {
        var engine := predefinedEngines.items[i];
        InstalledMergeStep(start, predefined, systemUtils, i);
        if engine !in engines.items && engine in systemUtils {
          engines.items := engines.items + [engine];
        }
        i := i + 1;
      }
      assert predefined[..i] == predefined;
    }

    /** `changed_cb`: the field of the combo box that changed gets the selection; when the
        rule raises instead, no field changes and the error is returned. */
    method ChangedCb(combo: ComboId, entry: string, index: int, rows: seq<string>)
      returns (err: Option<SelectionError>)
      modifies this`diffEngine, this`diffEngine3way, this`diffEngineMulti
      ensures var s := Selection(entry, index, rows);
        && (s.Err? ==> err == Some(s.error) && unchanged(this))
        && (s.Ok? ==>
              && err == None
              && diffEngine == (if combo == Normal then s.value else old(diffEngine))
              && diffEngine3way == (if combo == ThreeWay then s.value else old(diffEngine3way))
              && diffEngineMulti == (if combo == Multi then s.value else old(diffEngineMulti)))
    {
      var s := Selection(entry, index, rows);
      if s.Err? {
        return Some(s.error);
      }
      var selection := s.value;
      match combo {
        case Normal => diffEngine := selection;
        case ThreeWay => diffEngine3way := selection;
        case Multi => diffEngineMulti := selection;
      }
      err := None;
    }

    /** `save_event` without the file write: the three paths are set, the chosen comparators
        missing from the known list are appended to it (the same list object, so also the
        module-level one when they are shared) and the list is set. */
    method SaveEvent()
      modifies this`config, engines
      ensures engines.items == AppendMissing(old(engines.items), [diffEngine, diffEngine3way, diffEngineMulti])
      ensures diffEngine in engines.items && diffEngine3way in engines.items && diffEngineMulti in engines.items
      ensures old(engines.items) <= engines.items && |engines.items| <= |old(engines.items)| + 3
      ensures NoDuplicates(old(engines.items)) ==> NoDuplicates(engines.items)
      ensures config == SetSettings(old(config), diffEngine, diffEngine3way, diffEngineMulti, engines.items)
    {
      config := SetPaths(config, diffEngine, diffEngine3way, diffEngineMulti);

      ghost var before := engines.items;
      engines.AppendIfAbsent(diffEngine);
      engines.AppendIfAbsent(diffEngine3way);
      engines.AppendIfAbsent(diffEngineMulti);
      MergeChosen(before, diffEngine, diffEngine3way, diffEngineMulti);

      config := SetOption(config, SETTINGS_MAIN, COMPARATORS, Names(engines.items));
    }
  }

  /** The program start: the module-level `PREDEFINED_ENGINES` list is created, then the
      settings tool. When the stored settings are incomplete, the known list is the
      predefined list object itself, holding every predefined comparator, installed or
      not; otherwise it holds the stored names and the installed predefined ones, sorted. */
  method LaunchSetup(stored: map<string, map<string, string>>, systemUtils: seq<string>, decoded: seq<string>)
    returns (setup: NautilusCompareExtensionSetup)
    ensures Sorted(setup.engines.items)
    ensures ReadSettings(FromFile(stored), decoded).comparators.None? ==>
      setup.engines == setup.predefinedEngines && setup.engines.items == PREDEFINED_ENGINES
    ensures ReadSettings(FromFile(stored), decoded).comparators.Some? ==>
      forall e :: e in setup.engines.items <==> e in decoded || (e in PREDEFINED_ENGINES && e in systemUtils)
  {
    var predefined := new EngineList(PREDEFINED_ENGINES);
    setup := new NautilusCompareExtensionSetup(predefined, stored, systemUtils, decoded);
    if ReadSettings(FromFile(stored), decoded).comparators.None? {
      PredefinedSorted();
      SortedUnique(setup.engines.items, PREDEFINED_ENGINES);
    } else {
      MergedNames(decoded, PREDEFINED_ENGINES, systemUtils, setup.engines.items);
    }
  }
}
