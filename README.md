# nautilus-compare, modelled in Dafny

nautilus-compare is a context-menu extension for the Nautilus file manager. It launches
a visual diff tool on the selected files. It also ships a small settings tool that chooses
the comparator for two-way, three-way and N-way comparisons and stores that choice in a
configuration file. This project models the decision logic and bookkeeping of both parts
and proves properties about them.

- `extension.dfy`, module `NautilusCompare`: the menu extension. A selected file is
  reduced to the three facts the extension asks about it: URI scheme, file type and URI.
  `ValidFile` and `ValidPaths` model the filtering of the selection. The class
  `NautilusCompareExtension` holds the one piece of state, `forLater`, the file remembered
  for a later comparison. `GetFileItems` builds the menu items, each bound to its argument
  list. `Activate` is `_open_comparator` and `MenuActivate` is `menu_activate_cb`.
  Activation either remembers one path or returns the shell command string
  `meld "p1" "p2" ... &` that the source hands to `os.system`. `ParseCommand` is an
  independent reader for that string. It gives the paths back when no path contains a `"`.
- `text_order.dfy`, module `TextOrder`: how Python 2 orders `str` values, and an
  insertion sort for it, used to model `list.sort()`.
- `engine_lists.dfy`, module `EngineLists`: appending only the names that are missing from
  the list of known comparators, and picking the predefined comparators that are installed.
- `setup.dfy`, module `NautilusCompareSetup`: the settings tool. The `ConfigParser` object
  is a map from section to option to value. A value is either text read from the file or
  the list object that `set` was given. The class `EngineList` stands for a Python list
  object, so two fields can refer to the same list. This matters here: the class attribute
  `engines` is the module-level `PREDEFINED_ENGINES` list itself. When the stored settings
  are incomplete, the merge and the sort at start-up act on that shared list. The
  constructor then proves `engines == predefined`, and `LaunchSetup` proves that the known
  list is the full predefined list, installed or not. In that fallback, the config is given
  `['', diff_engine]` as the known list, while the list in memory stays the predefined one.
- `wrappers.dfy`, module `Wrappers`: `Option` and `Result`.

The extension never reads the settings file. `src/nautilus-compare.py` always launches
`meld`, whatever comparators the settings tool stored. It offers "Compare" for every
selection of two or more files, and then ignores the remembered file. The model does the
same.

Inputs the host or the OS gives are parameters of the model:
- the selected files (`FileInfo`: scheme, type, URI);
- the configuration file's sections and options (`stored`);
- the names in `/usr/bin` (`systemUtils`);
- the list that evaluating the stored `defined_comparators` text gives (`decoded`);
- the text, active index and rows of a combo box.

A launch is modelled by returning its command string. A save is modelled by the new
configuration map.

## Model

| member | source | states |
|---|---|---|
| `NautilusCompare.ValidFile` | src/nautilus-compare.py:48-52 | definition of `valid_file`: scheme `file` and type directory, regular file or symbolic link; its meaning for a selection is stated by `ValidPathsMembers` |
| `NautilusCompare.ValidPaths` | src/nautilus-compare.py:55-59 | there are never more paths than selected files |
| `NautilusCompare.ValidPathsMembers` | src/nautilus-compare.py:48-59 | a path is kept iff it comes from a selected file whose scheme is `file` and whose type is directory, regular file or symbolic link |
| `NautilusCompare.ValidPathsConcat` | src/nautilus-compare.py:55-59 | the filter works file by file: filtering a concatenation concatenates the results, so the kept paths stay in selection order |
| `NautilusCompare.ValidPathsAllValid` | src/nautilus-compare.py:55-59 | when every selected file is valid, the paths are those of all files, in order |
| `NautilusCompare.CollectPaths` | src/nautilus-compare.py:55-59 | the loop that collects the paths gives exactly `ValidPaths` of the selection |
| `NautilusCompare.RemoveNoneWhileIterating` | src/nautilus-compare.py:110-111 | definition of the remove-while-iterating loop, with Python's iterator moving on one index after a removal; it never makes the list longer |
| `NautilusCompare.RemoveNonePair` | src/nautilus-compare.py:108-113 | Python's remove-while-iterating loop on `[item1, item2]`: it keeps the present items in order when at least one is present, and leaves `[None]` from `[None, None]` |
| `NautilusCompare.RemoveNoneItems` | src/nautilus-compare.py:108-113 | the loop's result follows Python's list-iteration semantics; on the two-item list with a present item it has no `None`, holds one or two items, and keeps the order item1, item2 |
| `NautilusCompare.BuildCommand` | src/nautilus-compare.py:38-41 | the loop builds `meld `, then `"p" ` for each path in order, then `&` |
| `NautilusCompare.ParseQuote` | src/nautilus-compare.py:40 | one argument `"p" ` without `"` in p reads back as p, and reading goes on right after it |
| `NautilusCompare.ParseQuotedArgs` | src/nautilus-compare.py:38-40 | reading the quoted arguments back gives the path list when no path contains `"` |
| `NautilusCompare.CommandLineRoundTrip` | src/nautilus-compare.py:38-41 | the whole command string parses back to the paths, in order, when no path contains `"` |
| `NautilusCompare.CommandLineNotInjective` | src/nautilus-compare.py:40 | without that condition the quoting is ambiguous: the single path `a" "b` and the paths `a`, `b` give the same command |
| `NautilusCompare.NautilusCompareExtension.constructor` | src/nautilus-compare.py:28-31 | a new extension remembers no file |
| `NautilusCompare.NautilusCompareExtension.Activate` | src/nautilus-compare.py:33-42 | with one path, `forLater` becomes that path and nothing is launched; with any other number, `forLater` is unchanged and the `meld` command for exactly those paths is produced |
| `NautilusCompare.NautilusCompareExtension.MenuActivate` | src/nautilus-compare.py:44-46 | activating an item does the same with the path list bound to that item |
| `NautilusCompare.NautilusCompareExtension.GetFileItems` | src/nautilus-compare.py:54-113 | `None` iff no file is valid. One path with nothing remembered, or with that path remembered: only "Compare later", bound to `[p]`. One path p with q remembered and q ≠ p: "Compare to q" bound to `[q, p]`, then "Compare later" bound to `[p]`. Two or more paths: only "Compare", bound to all paths in order, whatever is remembered. `forLater` is not changed (no `modifies` clause) |
| `NautilusCompare.RememberThenCompare` | src/nautilus-compare.py:33-106 | "Compare later" on p, then "Compare to" on a different q, launches `meld` on p and q in that order |
| `TextOrder.LeTotal` | src/nautilus-compare-setup.py:135 | any two strings are ordered one way or the other |
| `TextOrder.LeTransitive` | src/nautilus-compare-setup.py:135 | the string order is transitive |
| `TextOrder.LeAntisymmetric` | src/nautilus-compare-setup.py:135 | two strings ordered both ways are equal |
| `TextOrder.Insert` | src/nautilus-compare-setup.py:135 | inserting one name adds exactly that name to the multiset |
| `TextOrder.InsertSorted` | src/nautilus-compare-setup.py:135 | inserting into a sorted list keeps it sorted |
| `TextOrder.SortedUnique` | src/nautilus-compare-setup.py:135 | two sorted lists with the same multiset are equal, so the sort's result depends only on the names |
| `TextOrder.SortedFromNeighbours` | src/nautilus-compare-setup.py:135 | a list whose neighbours are in order is sorted |
| `EngineLists.AddIfAbsent` | src/nautilus-compare-setup.py:92-97 | `if x not in list: list.append(x)`: x is present afterwards, the old list is a prefix, and at most one name is added |
| `EngineLists.AppendMissing` | src/nautilus-compare-setup.py:92-97 | definition: `AddIfAbsent` for each name in turn; stated by `AppendMissingGrows` |
| `EngineLists.Installed` | src/nautilus-compare-setup.py:131-132 | the predefined names that are installed, in predefined order; never more than the candidates; membership stated by `InstalledMembers` |
| `EngineLists.InstalledMembers` | src/nautilus-compare-setup.py:131-132 | a name is picked iff it is a candidate and is installed |
| `EngineLists.InstalledMergeStep` | src/nautilus-compare-setup.py:131-133 | one iteration of the start-up loop: the next predefined name is appended iff it is installed and missing |
| `EngineLists.AppendMissingGrows` | src/nautilus-compare-setup.py:92-97 | after the merge the old list is a prefix, every merged name is present, at most one name per merged name is added, and each added name is a merged one that was missing |
| `EngineLists.AppendMissingNoDuplicates` | src/nautilus-compare-setup.py:92-97 | a list without duplicates stays without duplicates, also when one name is merged twice |
| `EngineLists.AppendMissingPresent` | src/nautilus-compare-setup.py:131-133 | when every merged name is present already, the list is unchanged |
| `EngineLists.AppendMissingIdempotent` | src/nautilus-compare-setup.py:92-97 | merging the same names again changes nothing |
| `NautilusCompareSetup.PredefinedSorted` | src/nautilus-compare-setup.py:30 | the predefined comparator list is sorted already |
| `NautilusCompareSetup.AddSection` | src/nautilus-compare-setup.py:84-87 | `add_section` with `DuplicateSectionError` caught: the section exists afterwards, an existing one keeps its options, a new one is empty, and no other section is added |
| `NautilusCompareSetup.SetOption` | src/nautilus-compare-setup.py:88-90 | `set` on an existing section: no section is added, the option gets the value, and the section's options are the old ones plus this one |
| `NautilusCompareSetup.SetSettings` | src/nautilus-compare-setup.py:84-99 | definition: `add_section`, then the four `set`s, as both the save and the start-up fallback write them; stated by `SetSettingsKeys` and `SetSettingsValues` |
| `NautilusCompareSetup.SetSettingsUpdate` | src/nautilus-compare-setup.py:84-99 | the four `set`s together are one update of section `Settings`, made from the section as it was, or from an empty one |
| `NautilusCompareSetup.SetSettingsKeys` | src/nautilus-compare-setup.py:84-99 | afterwards section `Settings` exists and has its old options plus the four; no other section is added |
| `NautilusCompareSetup.SetSettingsValues` | src/nautilus-compare-setup.py:84-99 | afterwards the four options hold the three paths and the list; every other option of `Settings` and every other section is unchanged |
| `NautilusCompareSetup.ReadSettings` | src/nautilus-compare-setup.py:113-118 | the four `get`s on the configuration object succeed iff section `Settings` has all four options; each comparator field holds the option's text when it and every option read before it exist, and its default (`meld`, `meld`, `""`) otherwise |
| `NautilusCompareSetup.ReadSettingsFromFile` | src/nautilus-compare-setup.py:109-117 | reading the file and then the settings: the configuration object holds only text, the `get`s succeed iff the file has all four options, and each field holds the file's text or its default |
| `NautilusCompareSetup.Selection` | src/nautilus-compare-setup.py:67-73 | non-empty entry text always wins. Otherwise a non-zero index picks a row: -1 is the last row, and a positive index in range is that row. Index 0 is the unbound-selection error, and an index out of range is an error. A selection is always the entry text or one of the rows |
| `NautilusCompareSetup.MergeChosen` | src/nautilus-compare-setup.py:92-97 | the three chosen comparators are then in the known list, the old list is a prefix, at most three names are added, and no duplicate is created |
| `NautilusCompareSetup.MergedNames` | src/nautilus-compare-setup.py:130-135 | after merge and sort, a name is known iff it was known before or is a predefined comparator that is installed |
| `NautilusCompareSetup.InstalledOfItselfAddsNothing` | src/nautilus-compare-setup.py:130-133 | when the known list is the predefined list itself, the merge adds nothing |
| `NautilusCompareSetup.EngineList.AppendIfAbsent` | src/nautilus-compare-setup.py:92-97 | the list gets the name at its end iff it was missing |
| `NautilusCompareSetup.EngineList.Sort` | src/nautilus-compare-setup.py:135 | the list is sorted afterwards and holds the same names with the same multiplicities |
| `NautilusCompareSetup.NautilusCompareExtensionSetup.constructor` | src/nautilus-compare-setup.py:106-135 | the fields hold what the reads left. The known list is sorted. With complete settings: the list is a new object holding the stored names merged with the installed predefined ones, the config is the file's, and the predefined list is untouched. With incomplete settings: the known list is the predefined list object itself, and the config gets the three fields and `['', diff_engine]` |
| `NautilusCompareSetup.NautilusCompareExtensionSetup.MergeInstalled` | src/nautilus-compare-setup.py:130-135 | afterwards the list is sorted and holds the old names plus each installed predefined name that was missing |
| `NautilusCompareSetup.NautilusCompareExtensionSetup.AddInstalledEngines` | src/nautilus-compare-setup.py:130-133 | the loop over the predefined list appends exactly the installed predefined names that are missing, in predefined order, and leaves the predefined list as it was, also when the two lists are the same object |
| `NautilusCompareSetup.NautilusCompareExtensionSetup.ChangedCb` | src/nautilus-compare-setup.py:65-80 | the field of the combo that changed gets the selection and the other two are unchanged; when the rule raises, no field changes |
| `NautilusCompareSetup.NautilusCompareExtensionSetup.SaveEvent` | src/nautilus-compare-setup.py:82-99 | the three chosen comparators are merged into the known list without duplicates; the old list is a prefix and at most three names are added; the config's `Settings` section gets the three paths and the merged list |
| `NautilusCompareSetup.LaunchSetup` | src/nautilus-compare-setup.py:113-135 | with incomplete settings, the known list is the shared predefined list and equals `PREDEFINED_ENGINES`, installed or not. Otherwise a name is known iff it was stored or is an installed predefined comparator. The list is sorted in both cases |

## Left out

- Host wiring: the Nautilus `MenuProvider` base classes, building `Nautilus.MenuItem`
  objects and `connect('activate', ...)`. An item is a datatype of name, label, tip and
  bound arguments.
- Translations: gettext and locale set-up. Labels and tips are the untranslated strings.
- Process launch: `os.system`, and how the shell reads the command (`$`, backquotes and
  backslashes inside double quotes). The model returns the string handed to the shell.
- Percent-decoding of URIs (`urllib.unquote`, section 2.1 of RFC 3986) is not modelled.
  A path is the URI without its first seven characters.
- The host's file-type and URI-scheme queries. They are fields of `FileInfo`.
- File I/O: reading and writing the configuration file, and the `xdg` configuration path.
  A save is the new configuration map. The round trip of saving and loading again needs
  `str` of a list and `eval`, and neither is modelled.
- `eval` of the stored list. Its result is the input `decoded`. A stored text that does not
  evaluate to a list crashes the tool, and that crash is not modelled.
- `os.listdir('/usr/bin')`. Its result is the input `systemUtils`.
- `NautilusCompareSetup.ReadSettings`: a value is taken exactly as stored. `ConfigParser.get`
  also substitutes `%(name)s` references to other options and fails on a malformed `%`.
  Neither is modelled, so a stored path that contains `%` is read back unchanged here.
- `ConfigParser` details: the `DEFAULT` section, and
  lower-casing of option names. All option names used here are lower-case already.
- All widget code, including `combo_add_and_select`, the window and button layout, and
  `gtk.main_quit`. `cancel_event` only quits, so it is left out as well.
- `NautilusCompareSetup.Selection`: `model[index][0]` is modelled as Python list indexing of
  the rows' texts, negative indices included. This assumes the tree model indexes rows the
  way a Python list does.
- `NautilusCompareSetup.NautilusCompareExtensionSetup.constructor`: the constructor states
  that the sorted known list has the same names as the merge. `LaunchSetup` states that, in
  the fallback case, this list equals `PREDEFINED_ENGINES`. This split keeps the proof
  within its resource limit.
