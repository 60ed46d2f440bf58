# Charcoal filter core in Dafny

A model of the data layer underneath Charcoal, FINN's iOS filter and search
library. The UIKit views sit on top of a layer of sequential logic, and that
layer is what this project describes and proves things about:

- **Filter tree and selection stores** (`filter.dfy`, `charcoal_store.dfy`,
  `core_store.dfy`, `cc_store.dfy`, `selection.dfy`). `Filter` is a tree of
  key/value nodes with factories, equality and merge. Three generations of
  selection store keep selected query items against that tree. They set,
  remove, toggle and test selection, collect query items and titles, check
  range validity and clean up the hierarchy.
- **Parameter-map data sources** (`param_map.dfy`, `finn_selection_data.dfy`,
  `finn_data_source.dfy`, `default_data_source.dfy`, `query_item_source.dfy`,
  `multi_level.dfy`). These keep `name -> [value]` maps with `_from`/`_to` range
  keys, or a list of query items. Multi-level nodes derive their
  none/partial/selected state from their children.
- **Builders and decoders** (`json.dfy`, `setup_decode.dfy`, `finn_backend.dfy`,
  `finn_setup.dfy`, `finn_info_builder.dfy`, `title_provider.dfy`). These cover
  the dictionary-based `FilterSetup.decode` and FINN's `filterContainer`, which
  turns backend data and a market configuration into a filter tree. They also
  cover `FilterInfoBuilder`'s classification and the selection title provider.
- **Range and step arithmetic** (`range_config.dfy`, `step_slider_info.dfy`,
  `stepped_slider.dfy`, `arith.dfy`). This covers range configurations and
  step slider offsets. It also covers the stepped slider's normalised range,
  its translate-to/translate-from pair and step rounding, using Swift's
  truncating `Int` division.
- **Input state machines** (`number_input.dfy`, `stepper.dfy`, `segment.dfy`,
  `selection_tags.dfy`, `value_slider.dfy`). These are the range number inputs
  (clamping, parse-or-reject, low/high validation with an error signal on a
  valid-to-invalid edge), the two steppers, segmented selection, collapsing
  selection tags and the map radius slider's closest-step search.
- **Query strings** (`polygon.dfy`, `version.dfy`, with `text.dfy` and
  `wrappers.dfy`). These are the polygon and bounding-box query strings of the
  map filter, and the release script's `MAJOR.MINOR.PATCH` tag with the
  successors that Semantic Versioning 2.0.0 defines (items 6 to 8).

The model uses immutable datatypes and pure functions throughout. Conventions:

- Swift `Int` is an unbounded `int`, and its `/` is `Arith.TruncDiv`.
- `Double` is `real`. Number printing and parsing are parameters, assumed to be
  inverse where a round trip needs it.
- Formatters and localised strings are parameters.
- Swift `Set` order and `Dictionary` iteration order are not fixed by the
  language. The model takes them as an explicit order parameter, or as an
  arbitrary choice.

Where the source handles a case (a missing key, an empty input, a malformed
entry), the model returns `Option`/`None` or the source's fallback instead of
excluding the case.

Three places where the model follows the code rather than a natural reading:

- FINN's `FilterSetup.swift` (the `FINNSetup` copy) uses standard and grid
  list kinds that the shipped `Filter.swift` does not declare, so `filter.dfy`
  adds the kinds `Standard` and `Grid` alongside the declared ones. Its
  `freeText` factory is not a kind of its own: the model builds that filter
  with the declared search factory (`Filters.SearchFilter`).
- The version tag parser accepts negative parts, because Swift's `Int(String)`
  accepts a leading minus.
- The version description is trimmed of the characters of Foundation's
  `whitespacesAndNewlines` set: the controls U+0009 to U+000D and U+0085 and
  the Unicode space, line and paragraph separators, listed in
  `Version.IsWhitespace`.
- The range slider's `setLowValue` and `setHighValue` move a slider with the
  as-written `setValueForSlider`, so they inherit the rounding finding below;
  the corrected setter stands alone with its own lemmas.

## Model

| member | source | states |
|---|---|---|
| CCStore.Value | Sources/CCFilter/Models/Selection/CCFilterSelectionStore.swift:27-29 | a node has a value exactly when its name is in the dictionary, and the value is the stored one |
| CCStore.Select | Sources/CCFilter/Models/Selection/CCFilterSelectionStore.swift:22-25 | the node's own value wins over the supplied one; when both are nil the name is removed; no other name is touched |
| CCStore.Unselect | Sources/CCFilter/Models/Selection/CCFilterSelectionStore.swift:31-39 | exactly the names of the node and all its descendants are removed; every other entry keeps its value |
| CCStore.QueryItems | Sources/CCFilter/Models/Selection/CCFilterSelectionStore.swift:57-63 | every item returned is a stored name/value pair of some node of the subtree |
| CCStore.SelectedChildren | Sources/CCFilter/Models/Selection/CCFilterSelectionStore.swift:81-87 | every node returned is selected |
| CCStore.UrlItemsAreQueryItems | Sources/CCFilter/Models/Selection/CCFilterSelectionStore.swift:49-63 | the URL items are the query items written "name=value", in the same order |
| CCStore.ToggleEffect | Sources/CCFilter/Models/Selection/CCFilterSelectionStore.swift:14-20 | toggling a selected node unselects it and its whole subtree; toggling an unselected node stores its value, or changes nothing when it has none |
| CCStore.RangeNodeTitles | Sources/CCFilter/Models/Selection/CCFilterSelectionStore.swift:89-105 | a selected range node's title is "low - high", "low - ...", "... - high", or absent when neither bound is set |
| CCStore.HasSelectedIffSelected | Sources/CCFilter/Models/Selection/CCFilterSelectionStore.swift:73-87 | a subtree has a selected node exactly when the list of selected nodes is non-empty |
| CCStore.QueryItemsExact | Sources/CCFilter/Models/Selection/CCFilterSelectionStore.swift:57-63 | an item is returned exactly when it is the stored name/value pair of a selected node reached from the given node without passing another selected node |
| CCStore.QueryItemsSound | Sources/CCFilter/Models/Selection/CCFilterSelectionStore.swift:57-63 | every item returned is the stored pair of a selected node reached from the given node without passing another selected node |
| CCStore.QueryItemsComplete | Sources/CCFilter/Models/Selection/CCFilterSelectionStore.swift:57-63 | the stored pair of every selected node reached without passing another selected node is returned |
| CharcoalStore.QueryItemFor | Sources/Charcoal/Selection/FilterSelectionStore.swift:41-49 | an item is found exactly when the store holds one matching the filter: its key and value when the filter has a value, else its key when it is a leaf; the item found is stored and matches |
| CharcoalStore.RemoveOwn | Sources/Charcoal/Selection/FilterSelectionStore.swift:107-111 | removes at most the filter's own item; when the filter owns at most one item, none is left |
| CharcoalStore.RemoveValues | Sources/Charcoal/Selection/FilterSelectionStore.swift:107-117 | removes only items that belong to the filter's tree |
| CharcoalStore.SetValue | Sources/Charcoal/Selection/FilterSelectionStore.swift:98-105 | a non-empty value ends up stored under the filter's key; nothing else is added, and nothing is added for nil or "" |
| CharcoalStore.ToggleValue | Sources/Charcoal/Selection/FilterSelectionStore.swift:70-83 | the returned flag is the negation of the filter's previous selection |
| CharcoalStore.QueryItems | Sources/Charcoal/Selection/FilterSelectionStore.swift:123-129 | every item returned is stored and belongs to the tree; a filter with its own item yields exactly that one item |
| CharcoalStore.IsValid | Sources/Charcoal/Selection/FilterSelectionStore.swift:162-176 | only a range filter can be invalid |
| CharcoalStore.SelectedSubfilters | Sources/Charcoal/Selection/FilterSelectionStore.swift:186-192 | every filter returned is selected and satisfies the predicate |
| CharcoalStore.SyncNode | Sources/Charcoal/Selection/FilterSelectionStore.swift:204-219 | the clean-up only removes items of the tree, and the keys returned are exactly the keys of the tree |
| CharcoalStore.SyncSelection | Sources/Charcoal/Selection/FilterSelectionStore.swift:194-197 | nothing is added; every item kept is named by a key of the tree; an item named by a key of the tree that belongs to no node is kept |
| CharcoalStore.RemoveValuesClears | Sources/Charcoal/Selection/FilterSelectionStore.swift:65-68 | when every node owns at most one item, removing a filter's values deselects it and every descendant |
| CharcoalStore.RemoveValuesFrame | Sources/Charcoal/Selection/FilterSelectionStore.swift:107-117 | items outside the filter's tree stay in place |
| CharcoalStore.SetValueThenValue | Sources/Charcoal/Selection/FilterSelectionStore.swift:33-35 | after storing a non-empty value on a value-less leaf, reading its value gives that value back and the leaf has an item |
| CharcoalStore.SetIntThenValue | Sources/Charcoal/Selection/FilterSelectionStore.swift:60-63 | storing an integer and reading it back as an integer gives the same integer |
| CharcoalStore.SetValueFromSelects | Sources/Charcoal/Selection/FilterSelectionStore.swift:55-58 | storing a filter's own non-empty value selects it with that value |
| CharcoalStore.SetEmptyDeselects | Sources/Charcoal/Selection/FilterSelectionStore.swift:98-105 | storing nil or an empty text leaves the filter without an item |
| CharcoalStore.ToggleFlips | Sources/Charcoal/Selection/FilterSelectionStore.swift:70-94 | toggling a filter with a value flips its selection, and the returned flag is the new state |
| CharcoalStore.RangeSelected | Sources/Charcoal/Selection/FilterSelectionStore.swift:89-90 | a range filter is selected exactly when some item names its low or high key |
| CharcoalStore.MapSelected | Sources/Charcoal/Selection/FilterSelectionStore.swift:87-88 | a map filter is selected exactly when some item names its radius key |
| CharcoalStore.RangeValidity | Sources/Charcoal/Selection/FilterSelectionStore.swift:131-176 | after storing integers l and h in the two bounds, the range filter is valid exactly when l <= h, and its title is "l - h" |
| CharcoalStore.HasSelectedIffSelected | Sources/Charcoal/Selection/FilterSelectionStore.swift:178-192 | a tree has a selected subfilter that satisfies the predicate exactly when the list of such subfilters is non-empty |
| CharcoalStore.PlainTitles | Sources/Charcoal/Selection/FilterSelectionStore.swift:131-160 | for a tree without range, stepper or map nodes, the titles are the titles of the topmost selected filters, in tree order |
| CharcoalStore.SyncClearsSelectedParent | Sources/Charcoal/Selection/FilterSelectionStore.swift:204-219 | after the sync, a filter has no item of its own once any of its subfilters' trees holds a selection made by items that the earlier subfilters' trees do not own (any selection for the first subfilter) |
| CharcoalStore.QueryItemsExact | Sources/Charcoal/Selection/FilterSelectionStore.swift:123-129 | every item returned belongs to a node reached without passing a node that owns an item, and such a node's item is returned whenever it is the node's only one |
| CharcoalStore.HasSelectedMonotone | Sources/Charcoal/Selection/FilterSelectionStore.swift:178-184 | adding items to the store never takes away a selection in a tree |
| CharcoalStore.SyncFromClears | Sources/Charcoal/Selection/FilterSelectionStore.swift:208-216 | while the walk over the subfilters keeps the filter selected, it removes the filter's item at the latest at a subfilter whose tree holds a selection made by items the earlier trees do not own |
| CoreStore.SetValue | Sources/Core/Selection/FilterSelectionStore.swift:44-51 | any given value, the empty text included, ends up stored under the filter's key; nothing else is added |
| CoreStore.IsValid | Sources/Core/Selection/FilterSelectionStore.swift:112-125 | only a range filter can be invalid |
| CoreStore.SelectedSubfilters | Sources/Core/Selection/FilterSelectionStore.swift:135-141 | every filter returned is selected |
| CoreStore.LeavesSelectTree | Sources/Core/Selection/FilterSelectionStore.swift:71-81 | a filter is selected, without an item of its own, once every leaf below it has an item |
| CoreStore.ClearedNotSelected | Sources/Core/Selection/FilterSelectionStore.swift:71-81 | a tree with no item anywhere is neither selected nor has a selected subfilter |
| CoreStore.RangeSelected | Sources/Core/Selection/FilterSelectionStore.swift:74-75 | a range filter is selected exactly when some item names its low or high key |
| CoreStore.SetValueSingle | Sources/Core/Selection/FilterSelectionStore.swift:18-20 | after storing any text on a value-less leaf that owned at most one item, the leaf owns one item and reading it back gives the text |
| CoreStore.ToggleFlips | Sources/Core/Selection/FilterSelectionStore.swift:63-69 | toggling a filter with a value flips its selection |
| CoreStore.PlainTitles | Sources/Core/Selection/FilterSelectionStore.swift:95-110 | for a tree without range filters, the titles are the titles of the topmost selected filters, in tree order |
| CoreStore.RangeTitles | Sources/Core/Selection/FilterSelectionStore.swift:96-104 | a range filter has no title exactly when neither bound is set; otherwise its title is "low - high" with "..." for a missing bound |
| CoreStore.RangeValidity | Sources/Core/Selection/FilterSelectionStore.swift:112-125 | after storing integers l and h in the two bounds, the range filter is valid exactly when l <= h |
| CoreStore.HasSelectedIffSelected | Sources/Core/Selection/FilterSelectionStore.swift:127-141 | a tree has a selected filter exactly when the list of selected subfilters is non-empty |
| Filters.EqualIsIdentity | Sources/Charcoal/Models/Filter.swift:67-73 | filter equality compares exactly the key and the value, ignores every other field, and is an equivalence relation |
| Filters.SubfilterAt | Sources/Charcoal/Models/Filter.swift:47-50 | a child comes back exactly when the index is inside the list, and it is the child at that index |
| Filters.ListFilter | Sources/Charcoal/Models/Filter.swift:78-92 | the list factory keeps the given title, key, value, count, style and subfilters |
| Filters.SearchFilter | Sources/Charcoal/Models/Filter.swift:94-97 | the search factory has no value and no children, and uses the placeholder title when none is given |
| Filters.InlineFilter | Sources/Charcoal/Models/Filter.swift:99-103 | the inline factory has no value and keeps the given subfilters |
| Filters.StepperFilter | Sources/Charcoal/Models/Filter.swift:105-115 | the stepper factory is a leaf without value, with the given style |
| Filters.ExternalFilter | Sources/Charcoal/Models/Filter.swift:117-120 | the external factory is a leaf keeping the given value, count and style |
| Filters.RangeFilter | Sources/Charcoal/Models/Filter.swift:122-132 | the range factory holds two value-less leaves for the low and high keys, both in its kind and, in that order, as subfilters |
| Filters.MapFilter | Sources/Charcoal/Models/Filter.swift:134-153 | the map factory holds four value-less leaves (latitude, longitude, radius, location name) in its kind and, in that order, as subfilters; normal style; the default title when none is given |
| Filters.Merge | Sources/Charcoal/Models/Filter.swift:52-64 | the node's own fields stay; no subfilter identity is lost; every identity of the other node's subfilters ends up present; the list grows by at most the other's count, and not at all when all identities were already present |
| Filters.MergeOne | Sources/Charcoal/Models/Filter.swift:53-62 | one step adds exactly the identity of the other node's subfilter at that index, growing the list by at most one and not at all when that identity was present |
| Filters.MergeOneShape | Sources/Charcoal/Models/Filter.swift:53-62 | one merge step replaces the first subfilter equal to the other's subfilter by their merge; with no equal one it inserts that subfilter at its own position, or appends it when the position is past the end |
| Filters.MergeOneEmbeds | Sources/Charcoal/Models/Filter.swift:53-62 | one merge step keeps every existing subfilter, in order, and leaves unchanged each one that does not equal the merged subfilter |
| Filters.MergeFromEmbeds | Sources/Charcoal/Models/Filter.swift:52-64 | the rest of the merge loop keeps the subfilters in order and leaves unchanged each one that no later subfilter of the other node equals |
| Filters.MergeKeepsOrder | Sources/Charcoal/Models/Filter.swift:52-64 | merging keeps the node's subfilters in their relative order, and a subfilter with no equal among the other node's subfilters comes through unchanged |
| Filters.MergeExample | UnitTests/Charcoal/Models/FilterTests.swift:174-188 | merging [subkey1, subkey2] into [subkey1, subkey3] gives three subfilters, with subkey2 inserted in the middle and subkey3 last |
| DefaultDataSource.SetStringValue | Sources/DefaultFilterImplementation/ParameterBasedFilterInfoSelectionDataSource.swift:62-68 | nil or "" removes the key; any other text is stored as a one-element list; every other key is unchanged |
| DefaultDataSource.SetFilterSelectionValue | Sources/DefaultFilterImplementation/ParameterBasedFilterInfoSelectionDataSource.swift:70-89 | a single value goes through the string setter, a multiple selection replaces the list, a range writes its bound keys; outside a range write, no other key changes |
| DefaultDataSource.SetValue | Sources/DefaultFilterImplementation/ParameterBasedFilterInfoSelectionDataSource.swift:187-196 | without a parameter name nothing changes; nil removes the filter's key; a value is written through the selection-value setter |
| DefaultDataSource.ValueFor | Sources/DefaultFilterImplementation/ParameterBasedFilterInfoSelectionDataSource.swift:147-185 | a range filter reads its bound keys; any other filter reads nothing for an empty list, a single value for one element, and a multiple selection for two or more |
| DefaultDataSource.WriteThenRead | Sources/DefaultFilterImplementation/ParameterBasedFilterInfoSelectionDataSource.swift:147-196 | a written range reads back unchanged; a non-empty single value reads back; an empty one reads back as nothing; a multiple selection reads back as nothing, one single value or itself, by its length |
| FinnBackend.DataForKey | Sources/FINNSetup/BackendModel/FilterSetup.swift:206-208 | a filter comes back exactly when some filter has the key as parameter name, and it is the first such filter |
| FinnDataSource.Value | Sources/FINNFilterImplementation/ParameterBasedFilterInfoSelectionDataSource.swift:111-131 | a value comes back exactly for a non-range filter with a parameter name and a non-empty stored list, and it is that list |
| FinnDataSource.SetValue | Sources/FINNFilterImplementation/ParameterBasedFilterInfoSelectionDataSource.swift:133-142 | without a parameter name nothing changes; a list replaces the key's values; nil removes the key; every other key is unchanged |
| FinnDataSource.SetValueThenValue | Sources/FINNFilterImplementation/ParameterBasedFilterInfoSelectionDataSource.swift:111-142 | reading back after a write gives the written list, or nothing for nil or an empty list |
| FinnDataSource.ClearValue | Sources/FINNFilterImplementation/ParameterBasedFilterInfoSelectionDataSource.swift:164-167 | every occurrence of the value leaves the filter's list, every other value stays, and every other key is unchanged |
| FinnDataSource.RangeValueOf | Sources/FINNFilterImplementation/ParameterBasedFilterInfoSelectionDataSource.swift:193-208 | without a parameter name there is no range; otherwise the range read from the low and high keys |
| FinnDataSource.SetRangeValue | Sources/FINNFilterImplementation/ParameterBasedFilterInfoSelectionDataSource.swift:210-216 | a written range reads back as the same range |
| FinnDataSource.StepperValue | Sources/FINNFilterImplementation/ParameterBasedFilterInfoSelectionDataSource.swift:218-224 | the stepper value is the first value stored under the lower-bound key, read as an integer; with no such value, or no key, there is none |
| FinnDataSource.StepperRoundTrip | Sources/FINNFilterImplementation/ParameterBasedFilterInfoSelectionDataSource.swift:210-224 | a stepper stored as a minimum reads back as that value, and clearing the filter leaves no stepper value |
| FinnDataSource.SetGeoValue | Sources/FINNFilterImplementation/ParameterBasedFilterInfoSelectionDataSource.swift:226-236 | the radius is stored as its decimal text, and no key beyond the four location keys is added |
| FinnDataSource.GeoValueRoundTrip | Sources/FINNFilterImplementation/ParameterBasedFilterInfoSelectionDataSource.swift:226-240 | the location reads back as the one just written, whatever was stored before, when parsing a printed coordinate gives it back |
| FinnSelectionData.Without | Sources/FINNFilterImplementation/FINNFilterSelectionData.swift:48 | the filtered list holds exactly the values other than the removed one, and is no longer than before |
| FinnSelectionData.AddValue | Sources/FINNFilterImplementation/FINNFilterSelectionData.swift:35-44 | the value is appended to the key's list, which is created when missing; every other key is unchanged |
| FinnSelectionData.RemoveValue | Sources/FINNFilterImplementation/FINNFilterSelectionData.swift:46-50 | every occurrence of the value leaves the key's list while the other values stay; the key is neither created nor deleted; removing an absent value changes nothing; other keys are unchanged |
| FinnSelectionData.AddThenRemove | Sources/FINNFilterImplementation/FINNFilterSelectionData.swift:35-50 | adding a value that was not selected and removing it again restores the selection, except that a key created by the add stays, empty |
| FinnSelectionData.RemoveKey | Sources/FINNFilterImplementation/FINNFilterSelectionData.swift:52-54 | the key and its list are gone; every other key is unchanged |
| FinnSelectionData.SetGeoLocation | Sources/FINNFilterImplementation/FINNFilterSelectionData.swift:87-96 | latitude, longitude and radius are each stored as one printed value; the location name is stored when given and deleted otherwise; no other key changes |
| FinnSelectionData.GeoLocation | Sources/FINNFilterImplementation/FINNFilterSelectionData.swift:98-109 | a location comes back exactly when latitude, longitude and radius are all stored and parse; the radius is the parsed integer and the name is the first stored name, if any |
| FinnSelectionData.GeoRoundTrip | Sources/FINNFilterImplementation/FINNFilterSelectionData.swift:87-109 | a stored location reads back as itself, when parsing a printed coordinate gives it back |
| FinnSelectionData.ClearAll | Sources/FINNFilterImplementation/FINNFilterSelectionData.swift:201-218 | a range filter loses both bound keys, a stepper only its lower-bound key, any other filter its own key; nothing else is removed or changed |
| FinnSelectionData.ClearedRangeIsEmpty | Sources/FINNFilterImplementation/FINNFilterSelectionData.swift:201-207 | after clearing, a range filter reads as no range |
| ParamMap.Group | Sources/FINNFilterImplementation/ParameterBasedFilterInfoSelectionDataSource.swift:20-33 | every name's list is the values of the items with that name, in order, skipping items without a value; no stored list is empty |
| ParamMap.ItemsFor | Sources/FINNFilterImplementation/ParameterBasedFilterInfoSelectionDataSource.swift:53 | one query item per value, with the key as name, in order |
| ParamMap.ValuesNamedQueryItems | Sources/FINNFilterImplementation/ParameterBasedFilterInfoSelectionDataSource.swift:50-56 | reading the query items back by name gives the key's list when the key is listed, and nothing otherwise |
| ParamMap.QueryItemsRoundTrip | Sources/FINNFilterImplementation/ParameterBasedFilterInfoSelectionDataSource.swift:20-56 | building a selection from its own query items gives the same selection back, whatever order the dictionary lists its keys in |
| ParamMap.RangeKeysDistinct | Sources/FINNFilterImplementation/FINNFilterSelectionData.swift:144-150 | the "_from" and "_to" keys differ from each other and from the base key |
| ParamMap.FirstInt | Sources/FINNFilterImplementation/FINNFilterSelectionData.swift:111-116 | an integer comes back only when the key's first stored value parses as one; a missing or empty list gives nothing |
| ParamMap.RangeOf | Sources/FINNFilterImplementation/ParameterBasedFilterInfoSelectionDataSource.swift:193-208 | both bounds give a closed range, only a lower bound a minimum, only an upper bound a maximum, neither no range |
| ParamMap.SetRange | Sources/FINNFilterImplementation/FINNFilterSelectionData.swift:71-85 | each present bound is stored as its decimal text under its key, and the key of an absent bound is deleted; every other key is untouched |
| ParamMap.RangeRoundTrip | Sources/FINNFilterImplementation/FINNFilterSelectionData.swift:71-85 | reading back a range that was just written gives that range |
| FinnInfoBuilder.SetupData | Sources/FINN/BackendModel/FilterSetup.swift:117-119 | a filter comes back exactly when some filter has the key as parameter name, and it has that name |
| FinnInfoBuilder.HasQueriesWithFiltersMeaning | Sources/FINNFilterImplementation/FilterBuilder/FilterInfoBuilder.swift:148-164 | the fold holds exactly when some value carries a nested filter |
| FinnInfoBuilder.ListOrMultiLevel | Sources/FINNFilterImplementation/FilterBuilder/FilterInfoBuilder.swift:140-146 | every filter is either a flat list or a hierarchical list, never both; it is hierarchical exactly when some value has a nested filter |
| FinnInfoBuilder.BuildNodes | Sources/FINNFilterImplementation/FilterBuilder/FilterInfoBuilder.swift:77-84 | one node per value, in order, each carrying the parameter name, title, value, count and multi-select flag of its value, with no parent yet, and a leaf when the value has no nested filter |
| FinnInfoBuilder.SubNodes | Sources/FINNFilterImplementation/FilterBuilder/FilterInfoBuilder.swift:93-106 | a value without a nested filter gives no nodes and leaves the lookup alone; otherwise one node per nested value |
| FinnInfoBuilder.BuildNodesRegisters | Sources/FINNFilterImplementation/FilterBuilder/FilterInfoBuilder.swift:77-106 | building nodes only adds to the lookup, keeps every entry under its own node's key, and registers every node built, nested ones included |
| FinnInfoBuilder.QueryNode | Sources/FINNFilterImplementation/FilterBuilder/FilterInfoBuilder.swift:97-103 | a node carries its value's fields, has no parent, and adopts the given children unchanged except for their parent mark |
| FinnInfoBuilder.BuildMultiLevel | Sources/FINNFilterImplementation/FilterBuilder/FilterInfoBuilder.swift:73-91 | nothing when the parameter name is no filter key; otherwise a root with an empty value, no results and the filter's title, single-select only for the category key, whose children are the filter's values, in order |
| FinnInfoBuilder.MultiLevelRegisters | Sources/FINNFilterImplementation/FilterBuilder/FilterInfoBuilder.swift:81-88 | the root and every node below it are registered, and the lookup only grows |
| FinnInfoBuilder.LeafState | Sources/FINNFilterImplementation/ParameterBasedFilterInfoSelectionDataSource.swift:58-66 | a leaf becomes selected exactly when its value is among the values stored for its parameter, and otherwise keeps its state |
| FinnInfoBuilder.Preferences | Sources/FINNFilterImplementation/FilterBuilder/FilterInfoBuilder.swift:51-58 | at most one preference per key, each for a key that has data |
| FinnInfoBuilder.InfoForKey | Sources/FINNFilterImplementation/FilterBuilder/FilterInfoBuilder.swift:111-132 | a key without data gives nothing; the bedroom count always becomes the fixed stepper; a range info only comes from range data; a hierarchical list only from data with nested values, with its nodes registered; a flat list is multi-select with one value per data value |
| FinnInfoBuilder.InfosForKeys | Sources/FINNFilterImplementation/FilterBuilder/FilterInfoBuilder.swift:108-136 | at most one info per key; none when no key has data; hierarchical roots are registered; no search or preference info comes from the keys |
| FinnInfoBuilder.Build | Sources/FINNFilterImplementation/FilterBuilder/FilterInfoBuilder.swift:18-39 | nothing for an unknown market; the first info is the fixed search exactly when the raw keys hold "q"; preference infos are non-empty; every hierarchical root is registered in a lookup whose entries sit under their own keys |
| FinnInfoBuilder.BuildNodesParents | Sources/FINNFilterImplementation/FilterBuilder/FilterInfoBuilder.swift:81-88 | building the nodes only adds or replaces lookup entries holding parented nodes, and the last node's entry is that node as its parent holds it |
| FinnInfoBuilder.MultiLevelParents | Sources/FINNFilterImplementation/FilterBuilder/FilterInfoBuilder.swift:73-91 | the root's lookup entry is the root itself, without a parent, and every other entry the build adds or replaces holds a node with a parent |
| FinnInfoBuilder.PreferencesExact | Sources/FINNFilterImplementation/FilterBuilder/FilterInfoBuilder.swift:51-58 | the preferences are exactly those of the keys with data, in key order, each with that data's name and title and one value per query carrying the query's title, hit count and value |
| MultiLevel.MakeInfo | Sources/FINNFilterImplementation/FilterInfo/MultiLevelListSelectionFilterInfo.swift:27-35 | a new node has no children, no parent and state none, and keeps the given name, title and value |
| MultiLevel.SetSubLevelFilters | Sources/FINNFilterImplementation/FilterInfo/MultiLevelListSelectionFilterInfo.swift:37-40 | the children become the given nodes, each now marked as having a parent and otherwise unchanged; the node's other fields stay |
| MultiLevel.CountSelected | Sources/FINNFilterImplementation/FilterInfo/MultiLevelListSelectionFilterInfo.swift:51-58 | the count is at most the number of children; it equals it exactly when every child is selected, and is zero exactly when none is |
| MultiLevel.ChildrenState | Sources/FINNFilterImplementation/FilterInfo/MultiLevelListSelectionFilterInfo.swift:60-76 | nothing without children; partial as soon as one child is partial; selected exactly when every child is selected; none exactly when every child is none |
| MultiLevel.EqualProperties | Sources/FINNFilterImplementation/FilterInfo/MultiLevelListSelectionFilterInfo.swift:85-94 | equality is an equivalence, and equal nodes share their lookup key |
| MultiLevel.UpdateSelectionState | Sources/FINNFilterImplementation/ParameterBasedFilterInfoSelectionDataSource.swift:58-66 | only the state changes; a selected or partial children state is taken over; otherwise the node becomes selected when its value is stored and keeps its state when not |
| MultiLevel.UpdateNeverClears | Sources/FINNFilterImplementation/ParameterBasedFilterInfoSelectionDataSource.swift:58-66 | the refresh never clears a selection, and a node whose value is stored ends up selected or partial |
| FinnSetup.ListFilterOf | Sources/FINNSetup/BackendModel/FilterSetup.swift:148-165 | a value becomes an external leaf exactly when it is one of the two link values, and otherwise a list filter whose children are its nested filter's values under the nested parameter name; key, value, title and count come from the value |
| FinnSetup.ListFiltersOf | Sources/FINNSetup/BackendModel/FilterSetup.swift:131-133 | one list filter per value, in order |
| FinnSetup.MakeFilter | Sources/FINNSetup/BackendModel/FilterSetup.swift:130-146 | nothing exactly for a context-style filter with fewer than two values; otherwise a filter of the given kind and style, keyed by the parameter name, with one child per value, in order |
| FinnSetup.RootFilter | Sources/FINNSetup/BackendModel/FilterSetup.swift:77-128 | the map key always gives the map filter; any other key without data gives nothing; a context style only comes from a context key; a range filter has a range configuration and "_from"/"_to" bound keys; a stepper has no range configuration but a stepper one, and the "_from" key; a grid is only the shoe size |
| FinnSetup.RootFilters | Sources/FINNSetup/BackendModel/FilterSetup.swift:59-63 | at most one root filter per key, each the root of one of the keys and tagged with that key's exclusive keys; the map filter is present whenever the map key is listed; no context-style list offers fewer than two values |
| FinnSetup.PreferenceFilters | Sources/FINNSetup/BackendModel/FilterSetup.swift:65-67 | at most one standard, normal-style filter per preference key, each under one of the keys, and one for each key when every key has data |
| FinnSetup.MakeContainer | Sources/FINNSetup/BackendModel/FilterSetup.swift:58-75 | the result count prefers the object count over the hits; the inline filter gathers standard preference filters under "preferences"; the free-text filter searches "q"; every root filter is tagged with the exclusive keys of a root-level key |
| FinnSetup.DecodeFilterData | Sources/FINNSetup/BackendModel/FilterSetup.swift:180-191 | at most one filter per field; every filter kept comes from a field whose name is a filter key and whose value decodes, and every such field's filter is kept |
| FinnSetup.Decode | Sources/FINNSetup/BackendModel/FilterSetup.swift:167-204 | a setup comes back exactly when the dictionary has a market string and a filter-data dictionary; hits default to 0, the label to "", the object count is optional, and no more filters than fields are kept |
| Json.Get | Sources/DefaultFilterImplementation/FilterSetup.swift:132-135 | a dictionary lookup finds a value exactly when the object has a field with that key, returns that field's value, and finds nothing in a non-object |
| Json.GetField | Sources/DefaultFilterImplementation/FilterSetup.swift:132-135 | a field whose key no earlier field repeats is what a lookup of its key returns |
| Json.AsString | Sources/DefaultFilterImplementation/FilterSetup.swift:132 | the cast to a string succeeds exactly on a string value and returns its text |
| Json.AsInt | Sources/DefaultFilterImplementation/FilterSetup.swift:163 | the cast to an integer succeeds exactly on an integer value and returns it |
| Json.AsBool | Sources/DefaultFilterImplementation/FilterSetup.swift:134 | the cast to a boolean succeeds exactly on a boolean value and returns it |
| Json.AsStrings | Sources/DefaultFilterImplementation/FilterSetup.swift:63 | the cast to a string array succeeds exactly on an array whose every element is a string, and returns those strings in order |
| Json.AsObjects | Sources/DefaultFilterImplementation/FilterSetup.swift:135 | the cast to an array of dictionaries succeeds exactly on an array whose every element is an object, and returns the elements |
| Json.AsObject | Sources/DefaultFilterImplementation/FilterSetup.swift:67 | the cast to a dictionary succeeds exactly on an object, and returns it unchanged |
| SetupDecode.DecodeQuery | Sources/DefaultFilterImplementation/FilterSetup.swift:157-170 | a query decodes exactly when title and value are strings; the total falls back to 0 when it is not an integer; a missing filter gives none and an object filter is decoded as a nested filter |
| SetupDecode.DecodeQueryFilter | Sources/DefaultFilterImplementation/FilterSetup.swift:193-206 | a nested filter decodes exactly when title and name are strings |
| SetupDecode.DecodeQueries | Sources/DefaultFilterImplementation/FilterSetup.swift:172-179 | an array decodes exactly when it is an array of dictionaries, and never yields more queries than it has elements |
| SetupDecode.QueryRoundTrip | Sources/DefaultFilterImplementation/FilterSetup.swift:157-170 | a query written the way the backend sends it decodes back to the same query, nested filters included |
| SetupDecode.QueryFilterRoundTrip | Sources/DefaultFilterImplementation/FilterSetup.swift:193-206 | a nested filter written the way the backend sends it decodes back to the same filter, all queries kept in order |
| SetupDecode.DecodeDecodedQueries | Sources/DefaultFilterImplementation/FilterSetup.swift:172-179 | an array of dictionaries that each decode yields all of their queries, in order |
| SetupDecode.DecodeElement | Sources/DefaultFilterImplementation/FilterSetup.swift:128-142 | a filter-data element decodes exactly when a dictionary is present with string title and name; range defaults to false; queries are present exactly when they are an array of dictionaries |
| SetupDecode.KeysOf | Sources/DefaultFilterImplementation/FilterSetup.swift:82 | the keys of the decoded filters, one per filter, in order |
| SetupDecode.DecodeFilters | Sources/DefaultFilterImplementation/FilterSetup.swift:70-76 | the decoded filters' keys keep the order of the known keys; every filter is decoded from the data under its own key; every known key with decodable data yields a filter |
| SetupDecode.Known | Sources/DefaultFilterImplementation/FilterSetup.swift:70 | exactly the raw keys that name a filter key are kept, in their original order |
| SetupDecode.DecodeSetup | Sources/DefaultFilterImplementation/FilterSetup.swift:50-79 | a setup decodes exactly when the dictionary is present with a string market, integer hits, string label, string-array filters and a filter-data dictionary; those fields come back as read; the filters are those known raw keys whose data decodes, in raw-key order, each decoded from the data under its key, and none is missing |
| SetupDecode.FilterDataForKey | Sources/DefaultFilterImplementation/FilterSetup.swift:81-83 | a filter is found exactly when one has the key; it is the first one with that key |
| Version.NextPatch | version.swift:16-18 | the patch number goes up by one, the rest is kept, and the result is a later version |
| Version.NextMinor | version.swift:20-22 | the minor number goes up by one, the patch resets to 0, and the result is a later version |
| Version.NextMajor | version.swift:24-26 | the major number goes up by one, minor and patch reset to 0, and the result is a later version |
| Version.SuccessorsOrdered | version.swift:16-26 | next patch comes before next minor, which comes before next major; no later tag with the same major and minor has a lower patch than the next patch |
| Version.LessIsStrictOrder | version.swift:7-27 | the major-minor-patch precedence is irreflexive, asymmetric, transitive and total on distinct tags |
| Version.DescriptionSplits | version.swift:12-14 | splitting a tag's text at its dots gives the three rendered numbers |
| Version.TrimIsInfix | version.swift:34 | trimming removes whitespace from the two ends of the text and nothing else: the result is an infix of the text, everything around it is whitespace, and it neither starts nor ends with whitespace |
| Version.TagText | version.swift:33 | an empty git output stands for "0.0.0"; any other output is used as it is |
| Version.IntsOf | version.swift:34 | every number is what one of the pieces parses to, and every piece that parses contributes its number |
| Version.IntsOfInOrder | version.swift:34 | the numbers keep the order of the pieces: one piece gives its number or nothing, and a concatenation of pieces gives the numbers of the first part followed by those of the second |
| Version.IntsOfRendered | version.swift:34 | three rendered integers read back as the same three integers |
| Version.EmptyIsZero | version.swift:32-40 | with no tag printed, the current tag is 0.0.0 |
| Version.DescriptionTrimmed | version.swift:33-34 | a tag's text, with or without git's trailing newline, trims to the text |
| Version.DescriptionInts | version.swift:12-14 | the pieces of a tag's text read as its major, minor and patch numbers |
| Version.ParseDescription | version.swift:12-14 | a tag's text, as git prints it with or without a trailing newline, reads back as the same tag |
| TextEdit.ReplaceRange | Sources/RangeFilter/RangeNumberInputView.swift:215-222 | the edit fails exactly when the range does not lie inside the text; otherwise the text before the range is kept, the replacement follows, then the text after the range |
| LegacyRangeInput.DropLeadingZeros | Sources/RangeNumberInputView.swift:355-360 | the result is a suffix of the text, everything removed is a '0', and it does not itself start with '0' |
| LegacyRangeInput.DropLeadingZerosIdempotent | Sources/RangeNumberInputView.swift:355-360 | stripping leading zeros twice gives the same text as stripping them once |
| LegacyRangeInput.EditedText | Sources/RangeNumberInputView.swift:188-195 | a non-empty replacement is appended to the zero-stripped text; an empty replacement removes the last character of the zero-stripped text, if any |
| LegacyRangeInput.ShouldChange | Sources/RangeNumberInputView.swift:183-223 | the edited group always ends up holding a value inside the range, and the other group is untouched; the edit is accepted exactly when the edited text parses strictly inside the range, and then that value is stored; unparsable text resets the group to the lower bound; a rejected edit leaves text that reads as the stored value; a value-changed action is always sent |
| LegacyRangeInput.LowValue | Sources/RangeNumberInputView.swift:131-141 | no low value exactly when no low input; alone it is the low input, otherwise the smaller of the two inputs |
| LegacyRangeInput.HighValue | Sources/RangeNumberInputView.swift:143-153 | no high value exactly when no high input; alone it is the high input, otherwise the larger of the two inputs |
| LegacyRangeInput.ReportedValuesOrdered | Sources/RangeNumberInputView.swift:131-153 | the reported low value never exceeds the reported high value, and together they are the two inputs |
| LegacyRangeInput.SetLowerValue | Sources/RangeNumberInputView.swift:155-158 | the low value is stored unchanged and its text reads back as it; the high side is untouched |
| LegacyRangeInput.SetUpperValue | Sources/RangeNumberInputView.swift:160-163 | the high value is stored unchanged and its text reads back as it; the low side is untouched |
| RangeFilterInput.ShouldChange | Sources/RangeFilter/RangeNumberInputView.swift:211-257 | the edit is never accepted, a value-changed action is always sent, and only the edited group changes; a range outside the text changes nothing; an emptied field becomes the lower bound; a stored value's text reads back as it; the value is cleared exactly when the edited, non-empty text does not parse, and then the text is left as it was |
| RangeFilterInput.TypedIntegerStoredUnclamped | Sources/RangeFilter/RangeNumberInputView.swift:211-236 | an integer typed into an empty field is stored as typed, even outside the range |
| RangeFilterInput.OrderedValues | Sources/RangeFilter/RangeNumberInputView.swift:155-177 | the reported values are missing exactly when their input is, and the low one never exceeds the high one |
| RangeFilterInput.SetValue | Sources/RangeFilter/RangeNumberInputView.swift:179-191 | the value is stored unchanged, its text reads back as it, and the other group is untouched |
| RangeValidation.Initial | Sources/Charcoal/Filters/Range/Input/RangeNumberInputView.swift:19-26 | a fresh view has no values and no recorded status |
| RangeValidation.IsValidValue | Sources/Charcoal/Filters/Range/Input/RangeNumberInputView.swift:190-201 | a group is valid exactly when not both values are present with the low one above the high one |
| RangeValidation.UpdateValidationStatus | Sources/Charcoal/Filters/Range/Input/RangeNumberInputView.swift:176-188 | the group's status is recorded and the other group's is kept; error feedback fires exactly on a change from valid to invalid with haptics both requested and enabled |
| RangeValidation.ValidateInputs | Sources/Charcoal/Filters/Range/Input/RangeNumberInputView.swift:169-174 | values are kept; the active group records its validity and the other group is marked valid |
| RangeValidation.SetLowValue | Sources/Charcoal/Filters/Range/Input/RangeNumberInputView.swift:113-117 | a low value equal to the minimum is stored as no low value; the high value is kept; the low side records its validity and the high side is marked valid |
| RangeValidation.SetHighValue | Sources/Charcoal/Filters/Range/Input/RangeNumberInputView.swift:119-123 | a high value equal to the maximum is stored as no high value; the low value is kept; the high side records its validity and the low side is marked valid |
| RangeValidation.HandleInteraction | Sources/Charcoal/Filters/Range/Input/RangeNumberInputView.swift:205-211 | values are kept and the group that is not first responder is marked valid |
| RangeValidation.ValueChanged | Sources/Charcoal/Filters/Range/Input/RangeNumberInputView.swift:233-245 | the group stores the new value and records the validity after the change; error feedback fires exactly on a valid-to-invalid edge with haptics enabled; the delegate hears the value for that group |
| RangeValidation.InputValueChanged | Sources/Charcoal/Filters/Range/Input/RangeInputView.swift:253-266 | the integer is stored for the group and reported for that group; its status is the validity after the change; the other group's status is kept |
| RangeValidation.ErrorOnlyOnEdge | Sources/Charcoal/Filters/Range/Input/RangeNumberInputView.swift:176-188 | two invalid edits in a row give error feedback at most once |
| RangeValidation.StatusTracksValidity | Sources/Charcoal/Filters/Range/Input/RangeNumberInputView.swift:233-245 | after an edit, the group's recorded status is exactly whether the low value is not above the high value |
| RangeValidation.BoundSettersAreValid | Sources/Charcoal/Filters/Range/Input/RangeNumberInputView.swift:113-123 | setting a side to its own bound clears it, so that side is recorded as valid |
| NumberInput.RemoveWhitespaces | Sources/Charcoal/Filters/Range/Input/NumberInputView.swift:302-306 | no whitespace is left, nothing is added, and every other character of the text is kept |
| NumberInput.RemoveWhitespacesAppend | Sources/Charcoal/Filters/Range/Input/NumberInputView.swift:302-306 | removing whitespace from joined texts is the same as removing it from each and joining them, so order is kept |
| NumberInput.RemoveWhitespacesNone | Sources/Charcoal/Filters/Range/Input/NumberInputView.swift:302-306 | text without whitespace is left unchanged |
| NumberInput.ShouldChange | Sources/Charcoal/Filters/Range/Input/NumberInputView.swift:244-268 | the edit is never accepted; the delegate hears a value exactly when the range lies in the text and the edited text, without whitespace, is empty or an integer; an empty text reports the default value; when a value is reported the field shows its formatted text, otherwise the text is unchanged |
| NumberInput.GroupedDigitsParse | Sources/Charcoal/Filters/Range/Input/NumberInputView.swift:251-258 | digits with a grouping space read back as the same number as the digits without it |
| Polygon.PointTexts | Sources/FINNSetup/BackendModel/PolygonData.swift:37-39 | one "longitude latitude" text per coordinate, in order |
| Polygon.PointsWithCommasJoin | Sources/FINNSetup/BackendModel/PolygonData.swift:29-33 | the query loop, every point followed by a comma and then a closing text, is the points and the closing text joined with commas |
| Polygon.PolygonQuery | Sources/FINNSetup/BackendModel/PolygonData.swift:27-35 | no query exactly for three points or fewer; otherwise every point and then the first point again, separated by commas |
| Polygon.ParsePoint | Sources/FINNSetup/BackendModel/PolygonData.swift:18-22 | a point reads back exactly when its space-separated pieces hold exactly two numbers, the first the longitude and the second the latitude |
| Polygon.Parsed | Sources/FINNSetup/BackendModel/PolygonData.swift:18 | each piece's parse, in order |
| Polygon.ParsePoints | Sources/FINNSetup/BackendModel/PolygonData.swift:17-24 | the points read back exactly when every one of them does, giving one coordinate per point in order |
| Polygon.ParsePolygon | Sources/FINNSetup/BackendModel/PolygonData.swift:11-25 | nothing when the percent decoding fails; otherwise a result exactly when every comma-separated piece except the last reads as a point, and then one coordinate per such piece, in order, each the point read from that piece |
| Polygon.PointRoundTrip | Sources/FINNSetup/BackendModel/PolygonData.swift:18-22 | a printed point reads back as the same coordinate when number printing and parsing are inverse on it |
| Polygon.PolygonRoundTrip | Sources/FINNSetup/BackendModel/PolygonData.swift:11-35 | the query of four or more coordinates reads back as the same coordinates, in order, when number printing and parsing are inverse on them |
| Polygon.MinOf | Sources/FINNSetup/BackendModel/PolygonData.swift:63-64 | the least element: it is in the list and no element is smaller |
| Polygon.MaxOf | Sources/FINNSetup/BackendModel/PolygonData.swift:65-66 | the greatest element: it is in the list and no element is larger |
| Polygon.Longitudes | Sources/FINNSetup/BackendModel/PolygonData.swift:63 | the longitudes of the coordinates, in order |
| Polygon.Latitudes | Sources/FINNSetup/BackendModel/PolygonData.swift:64 | the latitudes of the coordinates, in order |
| Polygon.Bounds | Sources/FINNSetup/BackendModel/PolygonData.swift:62-67 | four bounds, and all 0 for no coordinates |
| Polygon.BoundsContain | Sources/FINNSetup/BackendModel/PolygonData.swift:62-67 | every coordinate lies inside its box |
| Polygon.Shown | Sources/FINNSetup/BackendModel/PolygonData.swift:69 | each bound's text, in order |
| Polygon.BBoxQuery | Sources/FINNSetup/BackendModel/PolygonData.swift:61-70 | no query exactly when one bound is 0, so never for no coordinates; otherwise the printed bounds joined with commas |
| Polygon.Corners | Sources/FINNSetup/BackendModel/PolygonData.swift:49-58 | four corners built from the four numbers |
| Polygon.ParseBBox | Sources/FINNSetup/BackendModel/PolygonData.swift:43-59 | a box reads back exactly when the decoded text has exactly four numbers among its non-empty comma-separated pieces, giving the corners they span |
| Polygon.BBoxRoundTrip | Sources/FINNSetup/BackendModel/PolygonData.swift:43-70 | a box query reads back as the corners of the box when number printing and parsing are inverse on the bounds |
| Polygon.ShownRoundTrip | Sources/FINNSetup/BackendModel/PolygonData.swift:43-70 | printed numbers joined with commas split and parse back to the same numbers |
| Polygon.ExtremesOfPair | Sources/FINNSetup/BackendModel/PolygonData.swift:63-66 | a list holding only two ordered values, both present, has the lower as least and the higher as greatest |
| Polygon.CornersBounds | Sources/FINNSetup/BackendModel/PolygonData.swift:49-70 | for ordered, non-zero bounds, the query of the corners is the query of the bounds: reading a box and writing it again gives the same text |
| Polygon.CornersBox | Sources/FINNSetup/BackendModel/PolygonData.swift:49-67 | the box around the corners of ordered bounds is those bounds |
| Polygon.CornerLongitudes | Sources/FINNSetup/BackendModel/PolygonData.swift:49-65 | the corner longitudes span exactly the west and east edges |
| Polygon.CornerLatitudes | Sources/FINNSetup/BackendModel/PolygonData.swift:49-66 | the corner latitudes span exactly the south and north edges |
| Polygon.PairExtremes | Sources/FINNSetup/BackendModel/PolygonData.swift:63-66 | four values each one of two ordered, present values have those two as extremes |
| QueryItemSource.Named | Sources/Dependencies/FilterSelectionDataSource.swift:46-51 | the items with that name, no more items than there were, and every item of that name is kept |
| QueryItemSource.Others | Sources/Dependencies/FilterSelectionDataSource.swift:28-30 | no item of the name is kept and the list never grows |
| QueryItemSource.OthersMembers | Sources/Dependencies/FilterSelectionDataSource.swift:28-30 | an item is kept exactly when it is in the list and has another name |
| QueryItemSource.NamedAppend | Sources/Dependencies/FilterSelectionDataSource.swift:28-51 | picking the items of one name, or of the other names, from two joined lists is picking from each and joining |
| QueryItemSource.NamedOfUniform | Sources/Dependencies/FilterSelectionDataSource.swift:31-34 | a list whose items all carry the name is entirely picked by that name and has no others |
| QueryItemSource.OthersOthers | Sources/Dependencies/FilterSelectionDataSource.swift:28-30 | after dropping the items of one name, the items of any other name are as before |
| QueryItemSource.SetQueryItemValues | Sources/Dependencies/FilterSelectionDataSource.swift:27-36 | the items of other names stay, in order; the items of the name are then exactly one per new value, in order, at the end |
| QueryItemSource.NamedOfOthers | Sources/Dependencies/FilterSelectionDataSource.swift:28-30 | once the items of a name are dropped none of that name is left, and dropping them again changes nothing |
| QueryItemSource.SetKeepsOtherNames | Sources/Dependencies/FilterSelectionDataSource.swift:27-36 | items of any other name read the same after a write |
| QueryItemSource.NamedOfForeign | Sources/Dependencies/FilterSelectionDataSource.swift:31-34 | a list whose items all carry one name has none of another name |
| QueryItemSource.SetStringValue | Sources/Dependencies/FilterSelectionDataSource.swift:60-66 | no value or the empty text leaves no item of the name; any other text leaves exactly one item holding it; items of other names are kept |
| QueryItemSource.SetFilterSelectionValue | Sources/Dependencies/FilterSelectionDataSource.swift:68-79 | what is written reads back: a non-empty single value from a plain filter, a range with both bounds (missing ones included) from a range filter, and a multiple selection of non-empty comma-free values from a list item |
| QueryItemSource.IntOrNil | Sources/Dependencies/FilterSelectionDataSource.swift:81-86 | no text gives no number; otherwise the text's integer reading |
| QueryItemSource.ValueFor | Sources/Dependencies/FilterSelectionDataSource.swift:90-110 | nothing without a key; a range filter always reads a range of the two parsed bounds; any other filter reads nothing exactly when its key has no first value, a list item splits that value at ",", and any other filter reads it as a single selection |
| QueryItemSource.RangeRoundTrip | Sources/Dependencies/FilterSelectionDataSource.swift:75-97 | a range written and read back gives the same bounds, missing ones included |
| QueryItemSource.SetKeepsNamed | Sources/Dependencies/FilterSelectionDataSource.swift:60-66 | writing one name leaves the items of any other name as they were |
| QueryItemSource.MultipleRoundTrip | Sources/Dependencies/FilterSelectionDataSource.swift:72-102 | a multiple selection of non-empty values without commas reads back unchanged from a list item |
| QueryItemSource.SingleRoundTrip | Sources/Dependencies/FilterSelectionDataSource.swift:70-104 | a non-empty single value reads back unchanged from a plain filter |
| QueryItemSource.BoundRoundTrip | Sources/Dependencies/FilterSelectionDataSource.swift:75-86 | a range bound written as its text reads back as the same integer, and a missing bound, written as the empty text, reads back as nothing |
| RangeConfig.Reverse | Sources/Charcoal/Models/RangeFilterConfiguration.swift:96 | the same elements in the opposite order |
| RangeConfig.FirstMatchIsFirst | Sources/Charcoal/Models/RangeFilterConfiguration.swift:101 | the search returns the first interval whose start is at most the value |
| RangeConfig.FirstMatchNone | Sources/Charcoal/Models/RangeFilterConfiguration.swift:101 | the search finds nothing exactly when no interval has started at the value |
| RangeConfig.LastMatch | Sources/Charcoal/Models/RangeFilterConfiguration.swift:101 | a found interval is in the list and has started; nothing is found only when no interval has started |
| RangeConfig.LastMatchIsLast | Sources/Charcoal/Models/RangeFilterConfiguration.swift:96-101 | the backwards search returns the last interval, in the given order, whose start is at most the value |
| RangeConfig.FirstOfReversed | Sources/Charcoal/Models/RangeFilterConfiguration.swift:96-101 | searching the reversed intervals front to back finds the last started interval of the original order |
| RangeConfig.IncrementIsLastStarted | Sources/Charcoal/Models/RangeFilterConfiguration.swift:100-105 | each step uses the increment of the last interval, in the given order, that has started at the current value, and 1 before any has started |
| RangeConfig.IncrementPositive | Sources/Charcoal/Models/RangeFilterConfiguration.swift:100-105 | below the upper bound, the increment in use is positive when every interval that can apply there moves forward |
| RangeConfig.StepsAfter | Sources/Charcoal/Models/RangeFilterConfiguration.swift:100-110 | the values appended after a point all lie strictly above it, strictly inside the range, and strictly increase |
| RangeConfig.StepValues | Sources/Charcoal/Models/RangeFilterConfiguration.swift:95-115 | the values start with the lower bound, end with the upper bound, hold only strictly interior values in between, and strictly increase when the range is not a single point |
| RangeConfig.ComputeStepValues | Sources/Charcoal/Models/RangeFilterConfiguration.swift:95-115 | the loop, run statement by statement, produces exactly the step values |
| RangeConfig.MakeConfig | Sources/Charcoal/Models/RangeFilterConfiguration.swift:50-75 | bounds and offsets are kept; the configuration is incremented exactly for an incremented kind; explicit steps sit between the minimum and maximum; computed values run from the minimum to the maximum and strictly increase |
| RangeConfig.IncrementedSteps | Sources/Charcoal/Models/RangeFilterConfiguration.swift:65-66 | an incremented configuration's second value is the minimum plus the increment, when that is below the maximum |
| RangeConfig.InsertSorted | Sources/Charcoal/Models/RangeFilterConfiguration.swift:45 | inserting keeps the list strictly increasing and adds exactly the new value |
| RangeConfig.ConsIncreasing | Sources/Charcoal/Models/RangeFilterConfiguration.swift:45 | a head below every element keeps an increasing list increasing |
| RangeConfig.SortedUnique | Sources/Charcoal/Models/RangeFilterConfiguration.swift:31-45 | the distinct elements, strictly increasing, nothing added |
| RangeConfig.ReferenceValues | Sources/Charcoal/Models/RangeFilterConfiguration.swift:26-46 | no values give no reference values; otherwise strictly increasing, containing the first and last value, plus the truncated midpoint for an incremented configuration or else the centre value when it is an interior one, and nothing else |
| RangeConfig.ValueFor | Sources/Charcoal/Models/RangeFilterConfiguration.swift:79-89 | a bound without an offset gives the minimum or maximum and every other step is looked up in the values, so when the lookup only returns configured values the result is a configured value, the minimum or the maximum |
| Segment.ButtonFlags | Sources/Charcoal/Filters/Inline/Segment.swift:67-71 | one flag per button, set exactly for the listed indices |
| Segment.SplitLines | Sources/Charcoal/Filters/Inline/Segment.swift:85-92 | one line between each pair of neighbours, hidden exactly when the two neighbours differ in selection |
| Segment.BorderStyles | Sources/Charcoal/Filters/Inline/Segment.swift:118-119 | one style per button: a single button is single; otherwise the first is first, the last is last, the rest middle |
| Segment.SplitLineCount | Sources/Charcoal/Filters/Inline/Segment.swift:122-133 | one line fewer than buttons, none without buttons |
| Segment.Init | Sources/Charcoal/Filters/Inline/Segment.swift:16-36 | a new control is multi-select with nothing selected, every line shown, one flag per title and the border styles of its buttons |
| Segment.SetSelectedItems | Sources/Charcoal/Filters/Inline/Segment.swift:16-20 | after setting the selection, exactly the listed buttons are selected and the lines match; titles, mode and borders are kept |
| Segment.RemoveAll | Sources/Charcoal/Filters/Inline/Segment.swift:99 | every occurrence of the index is removed and nothing else |
| Segment.SetSelected | Sources/Charcoal/Filters/Inline/Segment.swift:94-106 | in multi-select, selecting appends the index and deselecting removes every occurrence of it; in single-select exactly that index is selected; buttons and lines stay consistent |
| Segment.HandleButton | Sources/Charcoal/Filters/Inline/Segment.swift:73-83 | in multi-select only the tapped button flips; in single-select exactly the tapped button is selected afterwards; buttons and lines stay consistent |
| Segment.TapTwiceRestores | Sources/Charcoal/Filters/Inline/Segment.swift:73-106 | tapping the same button twice in multi-select restores every button's selection |
| Selection.RangeTitle | Sources/Charcoal/Selection/FilterSelectionStore.swift:137-141 | no title exactly when both bounds are missing, and at most one title |
| Selection.RangeTitleShape | Sources/Charcoal/Selection/FilterSelectionStore.swift:141 | the title is the low bound, or "...", then " - ", then the high bound, or "..." |
| SelectionTags.Values | Sources/Charcoal/Selection/Views/SelectionTagsContainerView.swift:160 | the shown values of the titles, in order |
| SelectionTags.Labels | Sources/Charcoal/Selection/Views/SelectionTagsContainerView.swift:161 | the accessibility labels of the titles, in order |
| SelectionTags.JoinedTitle | Sources/Charcoal/Selection/Views/SelectionTagsContainerView.swift:155-164 | a single title is kept as it is; more titles show their values joined with ", " after a count prefix; the accessibility label joins the labels without a prefix |
| SelectionTags.JoinedTitleCount | Sources/Charcoal/Selection/Views/SelectionTagsContainerView.swift:157 | a collapsed tag of several titles starts with "(", then the number of titles in digits that read back as that number, then ") " |
| SelectionTags.Configure | Sources/Charcoal/Selection/Views/SelectionTagsContainerView.swift:54-67 | the titles and validity are stored, and the tags are collapsed exactly when they overflow the view |
| SelectionTags.NumberOfItems | Sources/Charcoal/Selection/Views/SelectionTagsContainerView.swift:90-96 | no items without titles; one item when collapsed; otherwise one per title; never more items than titles |
| SelectionTags.TitleAt | Sources/Charcoal/Selection/Views/SelectionTagsContainerView.swift:82-84 | an expanded row shows each item's own title, one of the titles; a collapsed row has one item whose accessibility label joins every title's label, and a single title collapses to itself |
| SelectionTags.RemoveTag | Sources/Charcoal/Selection/Views/SelectionTagsContainerView.swift:125-143 | removing from a collapsed row removes every title and reports removing all; otherwise exactly the tapped title goes and its index is reported; validity and collapsing are kept |
| SelectionTags.RemoveKeepsOthers | Sources/Charcoal/Selection/Views/SelectionTagsContainerView.swift:130-134 | outside collapsed mode, a removal drops the item count by one and keeps every other title |
| SelectionTags.ShownTitles | Sources/Charcoal/Selection/Views/SelectionTagsContainerView.swift:82-94 | the items shown are every title once and in order, or one joined tag when the row is collapsed |
| StepSliderInfo.MakeInfo | Sources/StepSlider/StepSliderInfo.swift:41-71 | an offset widens the range by exactly one on its side, so the offset bounds enclose the minimum and maximum; the values are the step values between the minimum and maximum; the offset values add the offset bounds at the ends; the accessibility step defaults to 1 |
| StepSliderInfo.IncrementedSteps | Sources/StepSlider/StepSliderInfo.swift:79-85 | the loop yields the minimum plus one, two, ... increments, each below the maximum, and stops once the next one would reach the maximum |
| StepSliderInfo.IncrementedMultiples | Sources/StepSlider/StepSliderInfo.swift:79-85 | the k-th generated value is the minimum plus k + 1 increments |
| StepSliderInfo.MakeIncrementedInfo | Sources/StepSlider/StepSliderInfo.swift:73-95 | the values run from the minimum to the maximum, every inner value is the minimum plus a whole number of increments and lies below the maximum, and a positive increment gives strictly increasing values |
| StepSliderInfo.StepAt | Sources/StepSlider/StepSliderInfo.swift:79-94 | inner value k of the layout is the minimum plus k increments |
| StepSliderInfo.IncrementedIncreasing | Sources/StepSlider/StepSliderInfo.swift:79-94 | values laid out from the minimum by a positive increment up to the maximum strictly increase |
| StepSliderInfo.ReferenceValues | Sources/StepSlider/StepSliderInfo.swift:19-37 | every reference value is one of the values; three of them from three values on, two from one or two values, none without values; they start with the first value and end with the last; increasing values give increasing reference values |
| StepSliderInfo.IsLowValueInValidRange | Sources/StepSlider/StepSliderInfo.swift:99-105 | a low value is valid exactly when it is above the lower bound, or equal to it and not 0 |
| StepSliderInfo.IsHighValueInValidRange | Sources/StepSlider/StepSliderInfo.swift:107-109 | a high value is valid exactly when it does not exceed the upper bound |
| SteppedSlider.EffectiveRange | Sources/RangeFilter/SteppedSlider.swift:173-178 | the range widened by the two offsets: its width grows by their sum, and with non-negative offsets it contains the original range |
| SteppedSlider.NormalizedRange | Sources/RangeFilter/SteppedSlider.swift:54-62 | the normalised range never starts below 0, keeps the width, and is the effective range itself exactly when that does not start below 0 |
| SteppedSlider.TranslateRoundTrip | Sources/RangeFilter/SteppedSlider.swift:64-82 | translating into the normalised range and back, in either order, gives the value back |
| SteppedSlider.TranslateMapsBounds | Sources/RangeFilter/SteppedSlider.swift:64-82 | translating maps the effective bounds onto the normalised bounds and keeps differences between values |
| SteppedSlider.StepIncrement | Sources/RangeFilter/SteppedSlider.swift:150-156 | for a positive step count the increment lies between 0 and the effective width, and is positive exactly when there are no more steps than units of width |
| SteppedSlider.AccessibilitySteps | Sources/RangeFilter/SteppedSlider.swift:21-33 | the accessibility step count is the override when one is set, otherwise the step count |
| SteppedSlider.RoundedStepValue | Sources/RangeFilter/SteppedSlider.swift:158-160 | rounding moves a value toward zero by less than one increment and never increases its magnitude |
| SteppedSlider.RoundedFixedPoints | Sources/RangeFilter/SteppedSlider.swift:158-160 | every multiple of the increment is left unchanged by rounding |
| SteppedSlider.RoundedIdempotent | Sources/RangeFilter/SteppedSlider.swift:158-160 | rounding twice gives the same as rounding once |
| SteppedSlider.MakeSlider | Sources/RangeFilter/SteppedSlider.swift:37-52 | a new slider uses the widened range, sits at the effective lower bound, and has reported nothing yet |
| SteppedSlider.SliderValue | Sources/RangeFilter/SteppedSlider.swift:110-114 | the value lies a whole number of increments from 0, or from the effective lower bound when that is negative: it is the position rounded to a step, shifted down by the distance of a negative lower bound from 0 |
| SteppedSlider.SetValueForSlider | Sources/RangeFilter/SteppedSlider.swift:116-121 | as written: only the position changes; it stays inside the normalised range and corresponds to the value rounded to a step in the effective range's own coordinates, pinned to the effective range |
| SteppedSlider.SetValueThenValue | Sources/RangeFilter/SteppedSlider.swift:110-121 | when the effective range does not start below 0, setting a value inside it and reading it back gives the value rounded to a step |
| SteppedSlider.SliderValueChanged | Sources/RangeFilter/SteppedSlider.swift:123-148 | the rounded new position is remembered and becomes the position, pinned to the normalised range; the handler runs, twice as written, exactly when an earlier rounded value exists and differs; feedback needs such a change and haptics enabled |
| SteppedSlider.SliderValueChangedSettles | Sources/RangeFilter/SteppedSlider.swift:123-148 | reporting the same position twice in a row runs the handler at most the first time |
| SteppedSlider.FirstChangeIsSilent | Sources/RangeFilter/SteppedSlider.swift:126-147 | the first report never runs the handler |
| SteppedSlider.DefaultSteps | Sources/RangeFilter/RangeSliderView.swift:96 | without a step count there is one step per unit of the range |
| SteppedSlider.MakeRangeSlider | Sources/RangeFilter/RangeSliderView.swift:92-99 | the two sliders start identical, with the default step count |
| SteppedSlider.LowValue | Sources/RangeFilter/RangeSliderView.swift:127-129 | the low value is one of the two sliders' values and at most both |
| SteppedSlider.HighValue | Sources/RangeFilter/RangeSliderView.swift:131-133 | the high value is one of the two sliders' values and at least both |
| SteppedSlider.LowAtMostHigh | Sources/RangeFilter/RangeSliderView.swift:127-133 | the low value never exceeds the high value, and together they are the two sliders' values |
| SteppedSlider.LowestValueSlider | Sources/RangeFilter/RangeSliderView.swift:209-211 | the slider picked as lowest is at or below the other one, the low slider winning a tie |
| SteppedSlider.HighestValueSlider | Sources/RangeFilter/RangeSliderView.swift:213-215 | the slider picked as highest is at or above the other one, the high slider winning a tie |
| SteppedSlider.LowestAndHighestDiffer | Sources/RangeFilter/RangeSliderView.swift:209-215 | the lowest and the highest slider are never the same slider |
| SteppedSlider.Update | Sources/RangeFilter/RangeSliderView.swift:135-145 | moving one slider with the as-written setter keeps both sliders usable on the same range; only that slider's position changes, and it reads the value rounded to a step in the effective range's own coordinates, pinned to that range |
| SteppedSlider.SetLowValue | Sources/RangeFilter/RangeSliderView.swift:135-139 | only the currently lowest slider moves, by the as-written setter, to the value rounded and pinned as that setter does; the other slider stays where it is |
| SteppedSlider.SetHighValue | Sources/RangeFilter/RangeSliderView.swift:141-145 | only the currently highest slider moves, by the as-written setter, to the value rounded and pinned as that setter does; the other slider stays where it is |
| SteppedSlider.SetLowValueAsWrittenMoves | Sources/RangeFilter/RangeSliderView.swift:135-139 | over the effective range [-3, 17] in 4 steps, `setLowValue(2)` on a low slider at position 5 (showing 2) moves it to position 3, showing -3, and leaves the high slider where it is |
| SteppedSlider.NumberInputDisplay | Sources/RangeFilter/RangeFilterView.swift:266-291 | the shown value always lies in the range: the value itself when that is in range, otherwise the nearer bound; the hint is "Under" exactly for the effective lower bound below the range, "Over" exactly for the effective upper bound above it, otherwise empty |
| SteppedSlider.UpdateSliderLow | Sources/RangeFilter/RangeFilterView.swift:254-258 | only the slider changes and it stays usable; the currently lowest slider moves to the value, or to the effective lower bound for a value below the range, rounded and pinned as the as-written setter does |
| SteppedSlider.UpdateSliderHigh | Sources/RangeFilter/RangeFilterView.swift:260-264 | only the slider changes and it stays usable; the currently highest slider moves to the value, or to the effective upper bound for a value above the range, rounded and pinned as the as-written setter does |
| SteppedSlider.SetFilterLowValue | Sources/RangeFilter/RangeFilterView.swift:169-174 | a value below the range is stored as the effective lower bound, any other value as it is; the low display shows the stored value, the currently lowest slider moves to the stored value through the as-written setter, and the high side is untouched |
| SteppedSlider.SetFilterHighValue | Sources/RangeFilter/RangeFilterView.swift:176-181 | a value above the range is stored as the effective upper bound, any other value as it is; the high display shows the stored value, the currently highest slider moves to the stored value through the as-written setter, and the low side is untouched |
| SteppedSlider.OutOfRangeHints | Sources/RangeFilter/RangeFilterView.swift:266-281 | with a lower offset, a value below the range shows the lower bound with "Under", and without one it shows no hint; with an upper offset, a value above the range shows the upper bound with "Over" |
| SteppedSlider.SliderInputValueChanged | Sources/RangeFilter/RangeFilterView.swift:240-252 | both stored values come from the slider, so the stored low value never exceeds the stored high one, and both displays show them |
| SteppedSlider.NumberInputValueChanged | Sources/RangeFilter/RangeFilterView.swift:224-238 | each reported side is stored as typed with its hint cleared, an unreported side keeps its value, and nothing changes when neither side is reported; a reported low side moves the currently lowest slider, then a reported high side moves the then highest slider, each to the typed value pulled in to the effective bound when it lies outside the range, through the as-written setter |
| SteppedSlider.ClampTo | Sources/RangeFilter/SteppedSlider.swift:119 | a value set on the slider is pinned into its range: unchanged inside, the nearer bound outside |
| SteppedSlider.SetValueAsWrittenMoves | Sources/RangeFilter/SteppedSlider.swift:110-121 | over [-3, 17] with 4 steps, a slider showing 2 shows -3 after being set to 2, and setting 5 puts it at position 8, which shows 2 |
| SteppedSlider.SetValueForSliderCorrected | Sources/RangeFilter/SteppedSlider.swift:116-121 | the corrected setter changes only the position and keeps it inside the normalised range |
| SteppedSlider.CorrectedKeepsShownValue | Sources/RangeFilter/SteppedSlider.swift:110-121 | with the corrected setter, setting the slider to the value it shows leaves it showing that value, for any sign of the lower bound |
| SteppedSlider.CorrectedSetValueThenValue | Sources/RangeFilter/SteppedSlider.swift:110-121 | with the corrected setter and an effective range starting at or below 0, a value inside the range reads back on the grid from the lower bound, at most the value and less than one increment below it |
| Stepper.SetText | Sources/Charcoal/Filters/Stepper/StepperFilterView.swift:107-113 | only the label changes; it reads "all" exactly when the value is at or below the minimum, and otherwise the value, "+ " and the unit |
| Stepper.UpdateButtons | Sources/Charcoal/Filters/Stepper/StepperFilterView.swift:115-123 | as written: at the minimum only the minus button changes, and it is deactivated; otherwise at the maximum only the plus button changes, and it is deactivated; anywhere else both are activated |
| Stepper.UpdateButtonsCorrected | Sources/Charcoal/Filters/Stepper/StepperFilterView.swift:115-123 | as intended: minus is active exactly above the minimum and plus exactly below the maximum |
| Stepper.Init | Sources/Charcoal/Filters/Stepper/StepperFilterView.swift:60-68 | a new stepper starts at the minimum showing "all", with minus inactive and plus active |
| Stepper.InitCorrected | Sources/Charcoal/Filters/Stepper/StepperFilterView.swift:60-68 | with the corrected update a new stepper starts at the minimum with its buttons matching the value |
| Stepper.Target | Sources/Charcoal/Filters/Stepper/StepperFilterView.swift:84-93 | from a value within the bounds, the asked-for value stays within the bounds, moves by at most one in the button's direction, and equals the current value exactly when minus is pressed at the minimum or plus at the maximum |
| Stepper.HandleButtonPressed | Sources/Charcoal/Filters/Stepper/StepperFilterView.swift:84-100 | an action is sent exactly when the value changes; a press that would not change it leaves the view untouched; a value between the bounds stays between them; minus at the minimum and plus at the maximum do nothing |
| Stepper.HandleButtonPressedCorrected | Sources/Charcoal/Filters/Stepper/StepperFilterView.swift:84-100 | with the corrected update, an action is sent exactly when the value changes, buttons that matched the value still match it, and the value stays between the bounds |
| Stepper.ButtonsStuckAsWritten | Sources/Charcoal/Filters/Stepper/StepperFilterView.swift:115-123 | as written, with minimum 0 and maximum 1 one press on plus leaves the value at 1 with both buttons inactive |
| Stepper.CorrectedPressesKeepButtons | Sources/Charcoal/Filters/Stepper/StepperFilterView.swift:60-123 | with the corrected update, any sequence of presses from the start keeps both buttons matching the value |
| Stepper.PressAllCorrectedKeeps | Sources/Charcoal/Filters/Stepper/StepperFilterView.swift:84-123 | with the corrected update, buttons that match the value keep matching it through any sequence of presses |
| Stepper.StepInit | Sources/StepperFilter/StepperFilterView.swift:17-65 | the older stepper starts at 1 whatever its limits, showing "1+ " and the unit, with minus tinted inactive but still touchable and plus active |
| Stepper.StepUpdateButtons | Sources/StepperFilter/StepperFilterView.swift:101-109 | at the lower limit only minus changes, and it is deactivated; otherwise at the upper limit only plus changes, and it is deactivated; anywhere else both are activated |
| Stepper.StepSetValue | Sources/StepperFilter/StepperFilterView.swift:17-22 | setting the value stores it and the label shows it with "+ " and the unit |
| Stepper.StepHandleButtonPressed | Sources/StepperFilter/StepperFilterView.swift:81-95 | minus acts exactly above the lower limit and plus exactly below the upper limit; otherwise nothing changes; the value moves by the step size, clamped to the limit; the label shows the new value; with a non-negative step size the value stays within the limits |
| TitleProvider.TitleOf | Sources/FilterSelectionTitleProvider.swift:30-35 | a title is found exactly when some entry has the value, and it is the title of the first such entry |
| TitleProvider.MultipleTitles | Sources/FilterSelectionTitleProvider.swift:33-37 | at most one title per selected value, each the title of one of the selected values; when every selected value has an entry, exactly their titles in selection order |
| TitleProvider.TitlesOfTail | Sources/FilterSelectionTitleProvider.swift:34-36 | titles of the later selected values are titles of the whole selection |
| TitleProvider.TitlesPrepend | Sources/FilterSelectionTitleProvider.swift:34-36 | the first value's title followed by the titles of the rest are the titles of the whole selection, in order |
| TitleProvider.ValueTitles | Sources/FilterSelectionTitleProvider.swift:27-42 | every title shown is the title of one of the filter's entries; a single value gives at most one title, and one exactly when some entry has that value; a multiple selection gives at most one title per selected value, those of the values with an entry; a range gives nothing |
| TitleProvider.LevelTitles | Sources/FilterSelectionTitleProvider.swift:61-81 | at most one title per node; a node whose value is selected puts its own title first; a range selection gives nothing |
| TitleProvider.ChildrenTitles | Sources/FilterSelectionTitleProvider.swift:77-79 | at most one title per node below, and nothing for a range selection |
| TitleProvider.OnlyOwnTitle | Sources/FilterSelectionTitleProvider.swift:61-81 | a selected node none of whose descendants is selected gives exactly its own title |
| TitleProvider.NoneSelectedHasNoTitles | Sources/FilterSelectionTitleProvider.swift:61-81 | a node with nothing selected in it gives no titles |
| TitleProvider.NoChildTitles | Sources/FilterSelectionTitleProvider.swift:77-79 | children with nothing selected in them give no titles |
| TitleProvider.RangeTitles | Sources/FilterSelectionTitleProvider.swift:83-105 | a range selection gives one title, "low - ...", "... - high" or "low - high", with unformattable bounds shown as empty text; anything else gives no title |
| TitleProvider.TitlesForSelection | Sources/FilterSelectionTitleProvider.swift:12-23 | preference and list filters give their value titles, multi-level filters their tree titles, range filters their range title and anything else nothing; a range selection gives titles exactly for a range filter |
| ValueSlider.HigherOrEqual | Sources/MapFilter/ValueSliderControl.swift:136 | the index, when there is one, is of the first step at or above the value; none means every step is below it |
| ValueSlider.FindClosestStep | Sources/MapFilter/ValueSliderControl.swift:132-154 | as written: nothing only for no steps; otherwise a step of the range, the last step when all are below the value, the first when all are above, the value itself when it is a step |
| ValueSlider.BetweenStepsGivesLower | Sources/MapFilter/ValueSliderControl.swift:141-147 | as written, a value strictly between two neighbouring steps of an ascending range always yields the lower step |
| ValueSlider.ClosestStepAsWrittenMisses | Sources/MapFilter/ValueSliderControl.swift:141-147 | as written, steps 0 and 10 with value 9 yield 0, although 10 is closer |
| ValueSlider.FindClosestStepCorrected | Sources/MapFilter/ValueSliderControl.swift:132-154 | the search comparing distances: nothing only for no steps, otherwise a step of the range, and the value itself when it is a step |
| ValueSlider.CorrectedIsClosest | Sources/MapFilter/ValueSliderControl.swift:132-154 | in an ascending range the corrected search returns a step at least as close to the value as every other step |
| Wrappers.CompactMap | Sources/FINNSetup/BackendModel/PolygonData.swift:18 | keeps exactly the present values: no more values than inputs, every kept value present in the input, every present input kept |
| Wrappers.FirstIndex | Sources/FINNSetup/BackendModel/FilterSetup.swift:207 | the index of an element satisfying the condition with none before it, or none when no element satisfies it |
| Wrappers.CompactMapAllSome | Sources/FINNSetup/BackendModel/PolygonData.swift:18 | when every value is present, all are kept in order |
| Text.ParseInt | Sources/Dependencies/FilterSelectionDataSource.swift:85 | a result comes back exactly for an optional + or - followed by one or more digits; bare and plus-signed digits read as their decimal value, minus-signed ones as its negation |
| Text.IntToString | Sources/Dependencies/FilterSelectionDataSource.swift:73 | the text of a number is non-empty and starts with a minus exactly for negative numbers |
| Text.IntRoundTrip | Sources/Dependencies/FilterSelectionDataSource.swift:73-85 | the text of every integer reads back as that integer |
| Text.Join | Sources/FINNSetup/BackendModel/PolygonData.swift:69 | no parts give empty text, one part gives that part, and otherwise the text starts with the first part |
| Text.Components | Sources/FINNSetup/BackendModel/PolygonData.swift:14 | at least one piece, none containing the separator |
| Text.JoinComponents | Sources/FINNSetup/BackendModel/PolygonData.swift:14-15 | the pieces joined again with the separator give back the text |
| Text.ComponentsOfJoin | Sources/FINNSetup/BackendModel/PolygonData.swift:14-39 | separator-free parts, joined and cut again at the separator, come back unchanged |
| Text.Split | Sources/Dependencies/FilterSelectionDataSource.swift:101 | the pieces are exactly the non-empty pieces between separators, kept in their order, each free of the separator |
| Text.SplitOfJoin | Sources/Dependencies/FilterSelectionDataSource.swift:72-102 | non-empty separator-free parts, joined and split again, come back unchanged |
| Text.DropLast | Sources/FINNSetup/BackendModel/PolygonData.swift:15 | one element shorter, and the remaining elements are unchanged |
| Arith.TruncDiv | Sources/RangeFilter/SteppedSlider.swift:154-160 | the quotient's magnitude is the magnitudes' quotient, and its sign is negative only for operands of different signs |
| Arith.TruncDivBounds | Sources/RangeFilter/SteppedSlider.swift:159 | the quotient times the divisor lies within one divisor of the dividend, on the dividend's side of zero |
| Arith.TruncDivOfMultiple | Sources/RangeFilter/SteppedSlider.swift:159 | a multiple of the divisor divides back to its factor |

## Left out

- TextEdit.ReplaceRange: offsets count characters, not the UTF-16 code units an `NSRange` counts, because strings here are sequences of characters; text outside the Basic Multilingual Plane would shift the offsets in the source.
- UIKit and MapKit view code (layout, animation, gestures, table plumbing, haptics, colours, fonts, localisation): it is presentation, not data; text the views show is passed in as parameters.
- Floating-point slider positions and `roundf` snapping: slider positions are integers here, and the conversion between `Float` and `Int` at the UIKit boundary is not modelled.
- `NumberFormatter`, `MapDistanceValueFormatter` and `Double` printing and parsing: they are library calls, taken as parameters.
- Codable `JSONDecoder` initialisers (Sources/DefaultFilterImplementation/FilterSetup.swift:30-48 and the `init(from:)` of Sources/FINNSetup/BackendModel/FilterSetup.swift:37-54): only the dictionary decoders are modelled; the JSON value is a plain datatype.
- The git invocation in `loadCurrentTag` (version.swift:30-31): the text git prints is the parameter of `Version.ParseTag`.
- Multi-level ancestor propagation through weak parent references (`updateSelectionStateForAncestors`, `removeValueAndValueForChildren`, the parent handling of `addValue`, and the multi-level branch of `setValue` in Sources/FINNFilterImplementation/FINNFilterSelectionData.swift:118-199): it depends on mutable object identity; the pure `selectionStateOfChildren` is modelled instead.
- `valueAndSubLevelValues`, `selectionAsQueryString`, `description` and `clearSelection(at:)` of the FINN data source: string rendering and index-path plumbing around the modelled map operations.
- `RangeFilterInfoBuilder` and the per-market configuration tables: constant lookup data, taken as the parameters `buildRange` and the market configuration.
- The diagnostic print when a decoded FINN filter's `parameterName` differs from its key: output only.
- The keyed guard of `QueryItemBasedFilterSelectionDataSource.setValue` (Sources/Dependencies/FilterSelectionDataSource.swift:112-117) and its unused `queryIndex` (lines 21-25): the guard only forwards to the modelled setters.
- The accessibility increment and decrement of `SteppedSlider`: they call the modelled step rounding through UIKit's accessibility hooks.
- Delegate callbacks are modelled as a returned event record (which side was notified, with what value), not as calls.
- RangeConfig.MakeConfig: requires a closed range (minimum at most maximum), because Swift's `ClosedRange` traps otherwise. It also requires increments that advance (`RangeConfig.ValidKind`), because the step loop does not terminate otherwise.
- StepSliderInfo.IncrementedSteps: requires a positive increment or a first step already at the maximum, because the source loop does not terminate otherwise.
- StepSliderInfo.MakeIncrementedInfo: requires the same of the increment, and a closed range (minimum at most maximum), because `minimumValue...maximumValue` traps otherwise.
- SteppedSlider.StepIncrement: requires a non-zero step count, because Swift traps on division by zero. The members that round a value require `Slider.Steppable()` for the same reason: a non-zero step increment, and an effective range that is a closed range, as `ClosedRange` guarantees.
- SteppedSlider.SetValueThenValue: states the read-back only for values inside the effective range and only when that range does not start below 0. Outside the range, UIKit pins the value to the slider's range, and `SteppedSlider.SetValueForSlider` states where it lands. Below 0 the source's setter and getter disagree, which is recorded under Findings.
- Filters.Merge: its own contract states identities and lengths only. Where each subfilter lands is stated by `Filters.MergeOneShape`, the kept order by `Filters.MergeKeepsOrder`, and the test case by `Filters.MergeExample`.
- Filters.MergeOne: its own contract states identities and lengths only. The replace-or-insert shape is stated by `Filters.MergeOneShape`, because a quantified contract on the function itself makes every proof that unfolds the merge loop too expensive.
- CCStore.QueryItems: its own contract states soundness only. The converse, that every stored pair of a selected node reached without passing another selected node is returned, is `CCStore.QueryItemsComplete`, and both directions together are `CCStore.QueryItemsExact`.
- CharcoalStore.QueryItems: its own contract states soundness and the own-item case only. The items found below a filter without an item are stated by `CharcoalStore.QueryItemsExact`.
- RangeConfig.LastMatch: its own contract does not say which started interval is found. That it is the last one is `RangeConfig.LastMatchIsLast`, kept apart for the same cost reason as `Filters.MergeOne`.
- FinnInfoBuilder.Preferences: its own contract gives only a bound and where each preference comes from. One preference per key with data, in key order, with one value per query, is `FinnInfoBuilder.PreferencesExact`.
- Filters.SubfilterAt: requires a non-negative index, because the array access traps on a negative one.
- CharcoalStore.QueryItemsExact: promises a node's item only when it is the node's only item, because `queryItem(for:)` takes the first match from an unordered `Set`.
- Segment.SetSelectedItems: requires valid button indices, because `buttons[$0]` traps on an invalid index; the same holds for Segment.SetSelected.
- LegacyRangeInput.ShouldChange: requires the lower bound to be at most the upper bound, because the input is built from a `ClosedRange`.
- The older stepper refreshes its label and buttons twice per press: once in the `value` observer and once after the switch (Sources/StepperFilter/StepperFilterView.swift:17-22, 93-94). `Stepper.StepHandleButtonPressed` applies both, as written, and the second refresh is not separately observable.

## Findings

| source | as written | input that shows it | evidently intended | confidence | as-written member | corrected member |
|---|---|---|---|---|---|---|
| Sources/MapFilter/ValueSliderControl.swift:141-147 | the difference to the lower step is signed (`lowerStep.value - value`), so it is negative and always "smaller" than the difference to the higher step | steps [0, 10], value 9: returns 0 | compare distances and return the nearer step | not executed | ValueSlider.ClosestStepAsWrittenMisses | ValueSlider.CorrectedIsClosest |
| Sources/Charcoal/Filters/Stepper/StepperFilterView.swift:115-123 | `updateButtons` only deactivates buttons and re-activates one only in the branch that does not apply, so a jump from the minimum straight to the maximum leaves both deactivated | minimum 0, maximum 1, press plus: both buttons end deactivated | the button away from the reached bound becomes active again | not executed | Stepper.ButtonsStuckAsWritten | Stepper.CorrectedPressesKeepButtons |
| Sources/RangeFilter/SteppedSlider.swift:116-121 | `setValueForSlider` rounds the value to a step in the effective range's coordinates and then translates it, while `roundedStepValue` rounds the position in the normalised coordinates and translates back, so the two can disagree when the effective lower bound is negative, and setting the value a slider shows moves it when that bound is also not a multiple of the increment | effective range [-3, 17], 4 steps (increment 5): a slider showing 2 shows -3 after `setValueForSlider(2)`, and `setValueForSlider(5)` puts it at position 8, which shows 2 | round in the normalised coordinates, as the getter does, so setting the shown value keeps it | not executed | SteppedSlider.SetValueAsWrittenMoves | SteppedSlider.CorrectedKeepsShownValue |
