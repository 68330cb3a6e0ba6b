# Appy core logic in Dafny

This project models the self-contained logic inside the Appy Python web
framework (its Zope/Plone back end, the code generators, the POD/ODT document
engine and the browser scripts that go with them), and proves properties of
that model. Each source file of the core is one Dafny module in a file of its
own (the Zope and Plone 2.5 code generators, which share their
algorithms, are one module); the glue to Zope, Plone, LibreOffice, SMTP, LDAP servers and the
filesystem is not modelled (see "Left out").

Conventions used throughout:

- Python strings are `string` (`seq<char>`), lists are `seq`, dicts are `map`,
  and `None` is `Option.None`. Python exceptions and JavaScript aborts mostly
  become an `Option`/`Result` error value; where a `requires` stands in for a
  raise instead (an input the source would crash on), the member's line under
  "Left out" says so.
- Objects whose methods update their fields in place are Dafny classes with
  `modifies` clauses; code that only computes is a function, and a loop that
  accumulates a result is a method proved against a specification function.
- Collaborators that cannot be seen (the catalogue, `DateTime`, `eval`, the
  DOM, similarity ratios) are parameters or uninterpreted relations.

## Model

| member | source | states |
|---|---|---|
| Layout.DecodeContent | gen/layout.py:73-87 | the items are the macros of the chunk's letters in order ('f' is the field slot, other characters ignored); the colspan is the value of the concatenated digits, 1 without digits |
| Layout.NewCell | gen/layout.py:62-71 | a header cell keeps the chunk as its width, has no content and colspan 1; other cells decode their content |
| Layout.ItemsConcat | gen/layout.py:75-84 | decoding is letter by letter: the items of a concatenation are the items of each part |
| Layout.DigitsConcat | gen/layout.py:75-77 | the colspan digits of a concatenation are the digits of each part, concatenated |
| Layout.NoDigitsColspan | gen/layout.py:85-87 | without a digit the colspan stays 1 |
| Layout.IgnoredChars | gen/layout.py:79-84 | characters that are neither macro letters nor 'f' contribute no item |
| Layout.ChunksRejoin | gen/layout.py:102-116 | cutting at delimiters loses nothing: the chunks, each followed by its delimiter, plus the trailing text give the input back |
| Layout.ChunksClean | gen/layout.py:102-116 | every chunk is closed by a delimiter and no chunk, nor the trailing text, contains one |
| Layout.ChunksCount | gen/layout.py:107-111 | there is one closed chunk per delimiter |
| Layout.DecodeCells | gen/layout.py:102-116 | the cells are one per closed chunk, then one for non-empty trailing text |
| Layout.CellsCount | gen/layout.py:102-116 | a row has as many cells as cell delimiters, plus one when trailing text is left; no empty trailing cell is made |
| Layout.CellsAlign | gen/layout.py:108-116 | each delimiter closes one cell with that delimiter's alignment; the trailing cell is aligned left |
| Layout.NewRow | gen/layout.py:92-100 | the row length is the sum of its cells' colspans |
| Layout.IsHeaderRowMeaning | gen/layout.py:179-187 | a chunk is a header row iff its first non-delimiter character is a digit, or it has only cell delimiters |
| Layout.Table.DecodeRows | gen/layout.py:189-208 | the header row is that of the first header chunk and the rows are the non-header chunks, then the trailing text as a "middle" row |
| Layout.HeaderIsFirst | gen/layout.py:197-200 | only the first header chunk becomes the header row; with no header chunk there is none |
| Layout.ContentRowsSource | gen/layout.py:201-202 | every content row comes from a non-header chunk |
| Layout.ContentRowsComplete | gen/layout.py:201-202 | every non-header chunk gives a content row |
| Layout.Table.constructor | gen/layout.py:124-153 | a table built from a layout string is decoded from it |
| Layout.Table.FromOther | gen/layout.py:127-140 | a table built from another copies its parameters and decodes the other's layout, derived when a type is given |
| Layout.DeriveLayout | gen/layout.py:155-165 | derivation fails exactly for a type other than "view" or "cell" |
| Layout.DeriveViewShape | gen/layout.py:155-162 | a view layout has no letter of "hrvd", is what remains after leading row then cell delimiters are stripped, and starts with no cell delimiter |
| Layout.DeriveCellShape | gen/layout.py:155-165 | a cell layout also loses trailing row then cell delimiters, so it neither starts nor ends with a cell delimiter |
| Layout.DeriveCellLetters | gen/layout.py:159-160 | a cell layout has no letter of "ldc" |
| Layout.RemoveCharsConcat | gen/layout.py:159-160 | removing letters keeps every other character in order |
| Layout.ColumnGet | gen/layout.py:252-268 | a trailing delimiter gives the alignment (default left), the width is the text after the last '*' (default empty), the name the rest; an empty string fails |
| Layout.ColumnGetRoundTrip | gen/layout.py:252-268 | "name*width" plus an alignment character is read back as exactly those parts |
| Layout.Table.RemoveElement | gen/layout.py:210-216 | every content cell holding the element's macro loses one occurrence of it; nothing else changes |
| Lists.RemoveFirst | gen/layout.py:215-216 | removal takes exactly one occurrence out of the list |
| GenUtils.ComputeRows | gen/utils.py:53-59 | zero columns raise (None); otherwise a number of rows is given |
| GenUtils.ComputeRowsIsCeiling | gen/utils.py:53-59 | for positive columns the rows are the ceiling of fields / columns: enough for all fields, no spare row |
| GenUtils.GetGroupInfo | gen/utils.py:62-74 | a name without '_' is its own group on 1 column; otherwise the text before the last '_' with the integer after it, or 1 when it is not an integer |
| GenUtils.GroupInfoRoundTrip | gen/utils.py:62-74 | "name_N" gives back name and N for every name and N |
| GenUtils.GetPageInfo | gen/utils.py:78-92 | a Page instance gives its own name, phase and show; a name without '_' is in phase "main"; "page_phase" is split at the last '_'; names are always shown |
| GenUtils.PageInfoRoundTrip | gen/utils.py:78-92 | "page_phase" gives back page and phase when the phase has no '_' |
| GenUtils.UniformStatus | gen/utils.py:117-124 | the phase status is the states' common status, or "Current" when two differ |
| GenUtils.CurrentPage | gen/utils.py:127-133 | the page shown is the "fieldset" parameter ("default" read as "main" outside Plone), else "pageName", else "main" |
| GenUtils.PhaseDescr.AddPage | gen/utils.py:104-110 | "main" becomes "default" in Plone; a shown page not yet listed is appended; pages stay distinct |
| GenUtils.PhaseDescr.ComputeStatus | gen/utils.py:111-138 | with states, their common status or "Current"; without, "Current" iff the page shown belongs to the phase, else "Deselected" |
| GenUtils.ProduceNiceMessage | gen/utils.py:147-159 | the message built character by character equals the nice message: empty stays empty, the first character is upper-cased, the rest translated |
| GenUtils.NiceTailClean | gen/utils.py:152-158 | the translated rest never holds '_' nor a capital |
| GenUtils.NiceTailConcat | gen/utils.py:152-158 | the rest is translated character by character: a concatenation translates to the concatenation |
| GenUtils.NiceTailLength | gen/utils.py:152-158 | the translated rest is one character longer per capital |
| GenUtils.NiceMessageShape | gen/utils.py:147-159 | the first character is upper-cased, no later '_' or capital, length grows by the number of later capitals |
| GenUtils.NiceTailPlain | gen/utils.py:152-158 | characters other than '_' and capitals are left unchanged |
| GenUtils.SomeObjects.constructor | gen/utils.py:193-202 | missing objects mean none; totalNumber is their count; a missing or zero batch size means all of them |
| GenUtils.SomeObjects.BrainsToObjects | gen/utils.py:203-213 | exactly the slice [start, start + batchSize) is kept, each brain replaced by its object fetched with or without security |
| GenUtils.BatchLength | gen/utils.py:203-213 | the batch has at most batchSize objects, exactly that many when enough follow the start |
| GenUtils.ReplaceCharBySpace | gen/utils.py:225 | replacing a character by a space changes only its occurrences |
| GenUtils.ReplaceAllMasks | gen/utils.py:220-225 | the successive replacements make a space of every listed character and leave the rest |
| GenUtils.CleanKeywordsClean | gen/utils.py:221-228 | the kept words hold no whitespace and none of ?-+*() |
| GenUtils.WordsFrom | gen/utils.py:226 | splitting on whitespace only keeps characters of the text |
| GenUtils.StripStar | gen/utils.py:223-224 | a lone star with spaces around strips to "*" |
| GenUtils.StarIsNothing | gen/utils.py:223-224 | a lone star means no keyword |
| GenUtils.Keywords.constructor | gen/utils.py:221-228 | the keywords are the cleaned words of what the user typed |
| GenUtils.MergedContents | gen/utils.py:230-239 | after merging, a word is present iff it was in either list |
| GenUtils.MergedNoDup | gen/utils.py:230-239 | merging never duplicates a word |
| GenUtils.MergedAppendPrefix | gen/utils.py:230-239 | when appending, the old keywords stay first in their order |
| GenUtils.MergedPrependSuffix | gen/utils.py:230-239 | when prepending, the old keywords stay last in their order |
| GenUtils.Keywords.Merge | gen/utils.py:230-239 | the loop adds the words of the other list not yet present, at the end or the front |
| GenUtils.KeywordsQuery | gen/utils.py:241-246 | empty iff there are no keywords; else the words joined by " OP " followed by "*" |
| GenInit.InitMasterValue | gen/__init__.py:26-31 | a falsy value gives [], a single value [str(v)], a sequence str of each element in order |
| GenInit.RefCount | gen/__init__.py:1799-1804 | a falsy value counts 0, a string 1, a list its length |
| GenInit.RefValidate | gen/__init__.py:1792-1812 | only "link" Refs are checked; the only errors are min_ref_violated and max_ref_violated (the newer Ref field does the same, fields/ref.py:824-843) |
| GenInit.RefValidateIff | gen/__init__.py:1805-1812 | a linked value passes iff min <= count <= max (sys.maxint when max is None); min_ref_violated iff count < min (the same in fields/ref.py:829-843) |
| GenInit.RefValidateMultiplicity | gen/__init__.py:385 | a required Ref (min > 0) refuses an empty value; a single-valued Ref (isMultiValued false) refuses two or more objects |
| GenInit.IndexName | gen/__init__.py:307-322 | title gives Title or sortable_title, description Description or None for sorting, any other field "get" plus its capitalised name |
| GenInit.IndexNameRoundTrip | gen/__init__.py:321-322 | for a lower-case initial, dropping "get" and lowering the next character gives the field name back |
| GenInit.SearchValueFor | gen/__init__.py:331-354 | a text index takes the keywords of a string and fails on anything else; "v*" asks the min:max range (v, v+'z'); a list of strings stays as is; a pair is a minmax, max or min range; an empty list cannot be unpacked |
| GenInit.SearchValueOf | gen/__init__.py:324-330 | only "title" is searched by keywords; for other fields "v*" is a prefix range and an empty list fails |
| GenInit.PrefixRangeCovers | gen/__init__.py:329-332 | every string extending the prefix by a character up to 'z' lies between the two bounds |
| GenInit.DigitsOf | gen/__init__.py:1053-1055 | only digits are kept |
| GenInit.DigitsOfDigits | gen/__init__.py:1053-1055 | a string of digits is kept whole |
| GenInit.TwoDigits | gen/__init__.py:1060 | two digits read back as the number |
| GenInit.Check97 | gen/__init__.py:1061-1069 | the check number is between 1 and 97 |
| GenInit.Modulo97Iff | gen/__init__.py:1040-1069 | a number followed by two check digits passes exactly when they are its modulo 97 (0 read as 97), or 97 minus it in complement mode |
| GenInit.AlnumOf | gen/__init__.py:1084-1086 | only letters and digits are kept |
| GenInit.LetterNumber | gen/__init__.py:1100-1102 | letters number 10 to 35 |
| GenInit.ExpandChar | gen/__init__.py:1098-1103 | a letter becomes the two digits of its number, a digit stays |
| GenInit.Rearrange | gen/__init__.py:1096 | moving the four leading characters keeps length and alphanumeric characters |
| GenInit.Mod97Piecewise | gen/__init__.py:1096-1104 | the piece-wise remainder of ISO/IEC 7064 MOD 97-10 is below 97 |
| GenInit.IbanPiecewise | gen/__init__.py:1096-1104 | the big number the source builds and the piece-wise computation agree modulo 97 |
| GenInit.IbanIsMod97_10 | gen/__init__.py:1077-1105 | a value passes iff it has 8 to 34 letters and digits, a known country, check digits 0..96, and the rearranged remainder is 1 |
| GenInit.PiecewiseChar | gen/__init__.py:1098-1103 | a letter shifts by 100 and adds its number, a digit shifts by 10 and adds its value |
| GenInit.BicBranchOptional | gen/__init__.py:1107-1124 | an 11-character BIC passes iff its 8-character head does and the branch is alphanumeric |
| GenInit.FormatSync | gen/__init__.py:597-605 | edit, view and cell always get a flag: a single flag for all, given flags kept, missing ones false |
| GenInit.StoredString | gen/__init__.py:1359-1365 | a multi-valued field wraps a string in a list; a single string longer than maxChars is cut; a list is stored as is |
| GenInit.StoredStringBounded | gen/__init__.py:1362-1364 | a stored string never exceeds maxChars and is a prefix of the value |
| GenInit.StoredObject.Store | gen/__init__.py:1359-1365 | only the field's attribute changes, to the stored value |
| GenInit.InnerValue | gen/__init__.py:2289-2295 | row -1, no rows, a row past the end or a missing name give ''; a negative row counts from the end; before the first row is an IndexError |
| GenInit.HasState | gen/__init__.py:2474-2489 | true iff the state starts (or ends) the single move or one of the moves |
| GenInit.SafeChars | gen/__init__.py:2643-2646 | each character outside [0-9A-Za-z_] is made '_', the others kept in place |
| GenInit.ZopeAttrName | gen/__init__.py:2619-2647 | the name is "_" + the safe permission + "_Permission", character by character |
| GenInit.ZopeAttrNameSafe | gen/__init__.py:2619-2647 | the attribute name holds only allowed characters and the rule is idempotent |
| Fields.MustIndexError | fields/__init__.py:253-254 | the constructor refuses exactly a falsy `mustIndex` that is not a method |
| Fields.PermissionFor | fields/__init__.py:438-439 | the edit layout checks the write permission, every other layout the read one |
| Fields.IsShowable | fields/__init__.py:434-455 | no permission hides the field; a sequence shows it iff it holds the layout; a named layout shows it only there; otherwise its truth value, never on "buttons" |
| Fields.ButtonsNeedExplicitMention | fields/__init__.py:453-455 | a field is shown on "buttons" iff permitted and `show` is "buttons" or a sequence holding it |
| Fields.NamedLayoutExclusive | fields/__init__.py:450-451 | a field whose `show` names a layout is hidden on every other layout |
| Fields.FormatMapping | fields/__init__.py:490-508 | the result has exactly the label, descr and help entries; a dict keyed by label types with non-string values keeps them and gets None for the missing ones; anything else maps all three |
| Fields.FormatMappingIdempotent | fields/__init__.py:490-504 | formatting a per-label-type mapping a second time changes nothing |
| Fields.IndexName | fields/__init__.py:733-749 | title gives SortableTitle or Title, state and SearchableText are kept, others are "get" + capitalised name, plus "_sort" when sorting on a field with a sort index |
| Fields.IndexNameInjective | fields/__init__.py:745-748 | two ordinary fields with lower-case initials never share an index name |
| Fields.SlaveCss | fields/__init__.py:817-826 | '' iff there is no master; otherwise the class starts with "slave*<master>*" |
| Fields.ParseSlaveCss | fields/__init__.py:817-826 | a decoded class starts with "slave*" |
| Fields.SlaveCssRoundTrip | fields/__init__.py:820-825 | the class of a slave gives back its master name and values when none holds '*' |
| Fields.DerivedPermission | fields/__init__.py:381-394 | True gives "<app>: Read/Write <prefix> <name>", a non-empty string is used as is, anything else the default read or write |
| Fields.LabelId | fields/__init__.py:367-379 | "<prefix>_<name>", the label overriding the prefix, or the prefix and the name of a pair |
| Fields.Field.constructor | fields/__init__.py:218-349 | required iff min multiplicity > 0, colspan 0 becomes 1, the mapping is formatted, and the field is appended once to its master's slaves |
| Fields.Field.IsMultiValued | fields/__init__.py:416-419 | true iff the max multiplicity is None or above 1 |
| Fields.Field.Init | fields/__init__.py:351-394 | a second call leaves the field and its slaves unchanged; the first names the field, sets the label, descr and help ids and the permissions, and gives every slave the master's name, while the declared settings, the master link and every other attribute of the slaves stay as they were |
| Fields.Field.SetSlave | fields/__init__.py:798-809 | the slave gets this master, its value and its name; it appears in the slaves exactly once; every other attribute of both fields (the master's own master link too, unless the slave is the master itself) is left as it was |
| Fields.Field.Store | fields/__init__.py:914-917 | a persistent field writes its attribute and nothing else; another writes nothing |
| Fields.AddRequiredFiles | fields/__init__.py:624-642 | the old list is kept in front, the layout's files not yet present are appended in order, and no duplicate appears |
| Refs.NewRefOptions | fields/ref.py:476-605 | delete defaults to bool(add), unlink and checkboxesDefault to bool(link), an empty shownInfo becomes ['title'], and only a linkable Ref is validable |
| Refs.RefIsShowable | fields/ref.py:610-621 | never shown when the field rule hides it; not editable when addable, not selectable ("list" or no link) or a back reference; a back reference is shown elsewhere iff it holds objects |
| Refs.MayAdd | fields/ref.py:930-950 | creation is allowed iff not a back reference, addable, below the maximum, writable and creatable; the first failing reason is returned |
| Refs.GetValue | fields/ref.py:623-669 | totalNumber is the number of uids (the default ones when none is stored); with a start number the batch is the slice [start, start + maxPerPage), else everything |
| Refs.WithoutLinkedMembers | fields/ref.py:719-729 | keeps exactly the objects that are not linked |
| Refs.RemoveLinked | fields/ref.py:719-729 | the backward deletion loop leaves exactly the unlinked objects, in their order |
| Refs.PossibleValues | fields/ref.py:719-741 | linked objects are dropped on request; the total is counted before the batch of maxPerPage objects is cut out |
| Refs.ParseMasterValues | fields/ref.py:692-701 | a blank value means no master value, one uid stays one, several are split on '*' and join back to the stripped value |
| Refs.GroupByMenuSpec | fields/ref.py:743-768 | menus come in order of first appearance, and each holds exactly the objects of its id in their order |
| Refs.GroupByMenuIds | fields/ref.py:750-763 | the menu ids are the objects' ids with duplicates removed, in order of first appearance |
| Refs.GroupByMenuObjects | fields/ref.py:755-763 | each menu holds exactly the objects whose id is the menu's, in their order |
| Refs.GroupByMenuNoDup | fields/ref.py:750-763 | no two menus share an id |
| Refs.GroupMenus | fields/ref.py:748-763 | the loop with its dict of menu positions builds the grouping above |
| Refs.LinkedObjectsByMenu | fields/ref.py:743-768 | one entry per menu, with the text and icon asked for its id |
| Refs.Linked | fields/ref.py:856-867 | a uid already there changes nothing; a new one goes first for add == 'start', last otherwise; no duplicate is created |
| Refs.Unlinked | fields/ref.py:888-890 | a present uid loses exactly one occurrence, an absent one changes nothing; without duplicates the uid is gone |
| Refs.LinkUnlink | fields/ref.py:845-892 | unlinking a uid just linked gives the list back |
| Refs.LinkOne | fields/ref.py:856-867 | only the named list of the object changes, created when missing |
| Refs.LinkObject | fields/ref.py:845-873 | an unauthorized user changes nothing; otherwise the uid is linked and, when it was new and this is not the mirrored call, the back reference links the object |
| Refs.LinkObjects | fields/ref.py:851-853 | every object of the list ends up tied, old uids stay, and no duplicate appears |
| Refs.UnlinkObject | fields/ref.py:875-892 | an unauthorized user, a missing or empty list, or an absent uid change nothing; otherwise the uid is removed and the back reference unlinks the object |
| Refs.IndexNumber | fields/ref.py:1008-1014 | a move without '_' raises; the text after the first '_' gives its number minus one, or -1 |
| Refs.NewIndex | fields/ref.py:1000-1014 | up, down, top and bottom give old-1, old+1, 0 and last; "index..." reads its number; anything else leaves no index |
| Refs.IndexNumberOf | fields/ref.py:1008-1014 | "index_<text>" reads `text` as an integer, -1 when it is not one |
| Refs.IndexMoveNumber | fields/ref.py:1008-1012 | "index_N" asks for position N-1 |
| Refs.MoveTo | fields/ref.py:1015-1017 | the list stays a permutation of the same length; a negative index changes nothing; otherwise the uid lands at the index, or last past the end |
| Refs.ChangeOrder | fields/ref.py:991-1017 | an absent uid is a ValueError; a move always yields a permutation of the uids |
| Refs.ChangeOrderNoDup | fields/ref.py:991-1017 | a list without duplicates stays so |
| Refs.TopBottomPositions | fields/ref.py:1004-1007 | top puts the uid first, bottom last |
| Refs.UpDownPositions | fields/ref.py:1000-1003 | up and down move the uid one place when there is room |
| Refs.IndexPosition | fields/ref.py:1008-1012 | index_N puts the uid at position N-1 |
| Refs.UpFromTopNoop | fields/ref.py:1000-1001 | up from the top changes nothing |
| Refs.IndexZeroNoop | fields/ref.py:1010-1015 | index_0 changes nothing |
| Refs.IndexNotNumberNoop | fields/ref.py:1012-1015 | an index that is not a number changes nothing |
| Refs.DoChangeOrder | fields/ref.py:991-1017 | a missing attribute raises; otherwise the stored list becomes the reordered one, or stays on an error |
| Refs.TargetUids | fields/ref.py:1074-1075 | surrounding commas are dropped; nothing left is no uid; otherwise the uids join back with ',' |
| Refs.Targets | fields/ref.py:1087-1097 | with "unchecked" semantics the targets are the values not among the uids, otherwise those among them |
| Refs.TargetsPartition | fields/ref.py:1087-1097 | the two semantics split the values between them |
| Refs.Failed | fields/ref.py:1103-1109 | counts at most one failure per target |
| Refs.UiMessage | fields/ref.py:1069-1117 | a single link or unlink ends with action_done; no target gives action_null; action_partial iff some deletion was refused |
| Searches.IndexName | fields/search.py:63-76 | "created" and "modified" map to Created and Modified, default indexes keep their name, a field of the class gives its own index name, anything else has none |
| Searches.SearchValue | fields/search.py:78-111 | a text index (TextIndex fields and SearchableText) takes keywords; otherwise "v*" is the min:max range (v, v+'z'), a list of strings stays, a pair is a minmax, max or min range |
| Searches.RefNeverCopied | fields/search.py:121-123 | the "_ref" criterion is never copied: dropping it changes nothing |
| Searches.AdvancedKeepsNames | fields/search.py:127-131 | an advanced search cannot fail and adds exactly the raw names of its fields |
| Searches.KeysAreIndexNames | fields/search.py:124-129 | otherwise each added criterion is keyed by the index name of one of the fields |
| Searches.SortCriteria | fields/search.py:133-142 | no sortBy adds nothing; otherwise sort_on is the sort index and sort_order is "reverse" iff the order is "desc"; an advanced search keeps sortBy and sortOrder |
| Searches.UpdateSearchCriteria | fields/search.py:113-142 | the criteria dict becomes the fields added one by one, then the sort criteria; a failing search value stops it with what was already added |
| Searches.SessionKey | fields/search.py:150-157 | the class name for allSearch (when non-empty), else the search name; the full key prefixes "search_" |
| Searches.SessionKeyInjective | fields/search.py:150-157 | two searches of one class other than allSearch never share a key |
| Searches.ResultMode | fields/search.py:379-387 | a non-empty requested mode wins, else the first of the class's modes, ("list",) by default; no first mode is an IndexError |
| Searches.UiSearch.constructor | fields/search.py:332-337 | a new UiSearch has the search's name and no initiator |
| Searches.UiSearch.SetInitiator | fields/search.py:361-372 | the hook is "<uid>_<field name>" |
| Searches.UiSearch.RootHookId | fields/search.py:374-377 | the initiator hook when set, else the search name |
| Searches.ShowCheckboxesAsWritten | fields/search.py:396-403 | with checkboxes off, None; with checkboxes on and no initiator set, the attribute read fails; else whether the initiator field is multi-valued |
| Searches.CheckboxesWithoutInitiatorFail | fields/search.py:396-403 | a search with checkboxes outside a popup raises |
| Searches.UiSearch.ShowCheckboxes | fields/search.py:396-403 | None iff checkboxes are off; shown iff there is no initiator or its field is multi-valued; agrees with the source whenever an initiator is set |
| Phases.Lookup | fields/phase.py:130-131 | the page and its information when the page is known, a KeyError else |
| Phases.Phase.constructor | fields/phase.py:68-82 | a new phase has no page, no page information and no neighbouring phase |
| Phases.Phase.AddPage | fields/phase.py:93-110 | a page already listed changes nothing; otherwise it is appended to the visible pages (with its information) when showable on view or edit, else to the hidden pages; every page stays listed once |
| Phases.Phase.AddPageLinks | fields/phase.py:84-91 | a hidden page is left alone; a visible page gets the tied objects as links; a page never added is a KeyError |
| Phases.LinksOf | fields/phase.py:88-90 | one link per tied object, in order, with its title and url |
| Phases.Phase.PreviousPage | fields/phase.py:124-144 | an unknown page leads to the first page; else the preceding page, the last page of the previous phase, or none |
| Phases.Phase.NextPage | fields/phase.py:146-166 | an unknown page leads to the first page; else the following page, the first page of the next phase, or none |
| Phases.Phase.PreviousThenNext | fields/phase.py:124-166 | inside a phase, the next page of the previous page is the page itself |
| Phases.Phase.PreviousThenNextAcross | fields/phase.py:124-166 | from the first page of a phase, back to the previous phase and forth again returns to the same page |
| Phases.Phase.ComputeNextPrevious | fields/phase.py:112-122 | the neighbours are those set by each phase bearing this name, around its first position in the list |
| Phases.SkipOthers | fields/phase.py:114-115 | phases bearing another name leave the neighbours unchanged |
| Phases.NeighboursOfUniqueName | fields/phase.py:112-122 | with distinct phase names, the phase at position i gets the phases at i-1 and i+1; the first keeps no previous phase and the last no next one |
| Dates.Prev | gen/calendar.py:61-66 | the day before a valid day is valid and its next day is that day |
| Dates.PrevOfNext | gen/calendar.py:65-75 | `date + 1 - 1` is the date |
| Dates.BeforeNext | gen/calendar.py:75 | a day comes before its next day |
| Dates.MonthLength | gen/calendar.py:75-77 | the days before the next month are those before this month plus its length |
| Dates.YearLength | gen/calendar.py:75-77 | the days before the next year are those before this year plus its length (366 in leap years) |
| Dates.DayNumberNext | gen/calendar.py:75 | the next day's number is one more, across month and year ends |
| Dates.AddDaysNumber | fields/calendar.py:445 | adding k days adds k to the day number |
| Dates.AddDaysAdd | fields/calendar.py:445 | adding a days then b days is adding a + b days |
| Dates.AddDaysBack | gen/calendar.py:61-66 | going back k days then forward k days returns to the day |
| Dates.AddDaysLater | fields/calendar.py:445 | adding at least one day moves strictly later |
| Dates.AddDaysInMonth | gen/calendar.py:68-77 | adding days without leaving the month only raises the day of the month |
| Dates.MonthWalk | gen/calendar.py:68-77 | walking from the 1st, the k-th step is day k + 1, and the step after the last day is the 1st of the next month |
| Dates.AddDaysWeekday | gen/calendar.py:59 | the weekday of `date + k` is the weekday of date advanced by k, modulo 7 |
| Grids.LeadReachesFirst | gen/calendar.py:59-66 | the grid start plus the lead days is the 1st of the month |
| Grids.StartIsMonday | gen/calendar.py:59-66 | the grid starts on a Monday |
| Grids.WeekdayAt | gen/calendar.py:59-83 | position i of the grid falls on weekday (i + 1) mod 7 |
| Grids.MonthDayAt | gen/calendar.py:68-77 | position lead + j is day j + 1 of the month, and lead + length is the next month's 1st |
| Grids.GridWeeks | gen/calendar.py:80-83 | the grid is whole weeks, at least four, from a Monday to a Sunday |
| Grids.GridConsecutive | gen/calendar.py:64-83 | each day of the grid is the day after the one before it |
| Grids.GridHoldsMonth | gen/calendar.py:68-77 | the days of the month appear in the grid, in order, as one run after the lead |
| Grids.GridOthersOutsideMonth | gen/calendar.py:59-83 | the days outside that run belong to other months |
| Grids.LeadOutsideMonth | gen/calendar.py:60-66 | every lead day comes before the 1st |
| Grids.TrailOutsideMonth | gen/calendar.py:80-83 | every trailing day comes after the last day of the month |
| Grids.RowsFlatten | gen/calendar.py:68-83 | reading the rows one after the other gives the grid back |
| Grids.RowsOfWeeks | gen/calendar.py:70-83 | a list of whole weeks is cut into rows of exactly seven |
| Grids.LastRow | gen/calendar.py:80 | the last row holds the remainder modulo 7, or 7 |
| Grids.RowsAppendFull | gen/calendar.py:70-72 | a day added after a full last row opens a new row |
| Grids.RowsAppendPartial | gen/calendar.py:73-74 | otherwise the day extends the last row |
| EventStores.SortedIncreasing | gen/calendar.py:119-137 | in the stored entries, every day comes strictly before every later entry's day |
| EventStores.FindBeforeAll | gen/calendar.py:88-97 | a day before every stored day has no events |
| EventStores.PutSorted | gen/calendar.py:119-141 | storing an event keeps the days in increasing order |
| EventStores.PutFind | gen/calendar.py:134-141 | storing puts one event of the type on a day that had no events (or none stored) and changes no other day |
| EventStores.Remove | gen/calendar.py:158 | deleting a day not stored changes nothing; otherwise one entry goes |
| EventStores.RemoveSorted | gen/calendar.py:158 | deleting keeps the days in increasing order |
| EventStores.RemoveFind | gen/calendar.py:158 | deleting empties the day and leaves every other day as it was |
| EventStores.PutOnePerDay | gen/calendar.py:138-141 | storing never puts a second event on a day |
| EventStores.RemoveOnePerDay | gen/calendar.py:158 | deleting keeps one event per stored day |
| EventStores.EventStore.constructor | fields/calendar.py:736-738 | a new calendar attribute holds no day |
| EventStores.EventStore.EventsAt | fields/calendar.py:528-541 | the events of a day, None exactly when the day is not stored |
| EventStores.EventStore.EventTypeAt | fields/calendar.py:543-548 | the type of the first event of the day, None when the day has no events |
| EventStores.EventStore.HasEventsAt | fields/calendar.py:633-639 | true iff the other events are non-empty and the day's first event has the type of their first (the older calendar has the same test, gen/calendar.py:104-110) |
| EventStores.EventStore.PutEvent | fields/calendar.py:750-758 | the entries become those with the event stored, still in order |
| EventStores.EventStore.RemoveDay | fields/calendar.py:778-781 | the entries become those with the day deleted, still in order |
| EventStores.EventStore.DeleteEvent | fields/calendar.py:772-790 | a day without events changes nothing; else the day is deleted and, with deleteNext == "True" and the span handled, the following days whose first event has the deleted day's first type are deleted one after the other |
| EventStores.FindSome | fields/calendar.py:528-541 | a day has events stored iff one entry has that day |
| EventStores.CascadeFind | fields/calendar.py:783-790 | the cascade empties the run of days after the deleted one and leaves every other day |
| EventStores.RunLengthMeaning | fields/calendar.py:785-790 | the run is the days from the start whose first event has the type, up to the first that does not |
| EventStores.PutDaysFind | fields/calendar.py:759-764 | spanning fills every empty day of the span with one event of the type and leaves the rest |
| EventStores.RunShift | fields/calendar.py:762-764 | the span from a day is that day followed by the span from the next day |
| EventStores.PutDaysOnePerDay | fields/calendar.py:759-764 | spanning keeps one event per day |
| GenCalendar.RowsStep | gen/calendar.py:70-74 | one step of the month loop (new row when the last is full, else extend it) cuts the grown list into rows of seven |
| GenCalendar.LeadStep | gen/calendar.py:64-66 | inserting the day before in front keeps the row equal to the lead days of the grid |
| GenCalendar.TrailFull | gen/calendar.py:80-83 | the last row is full exactly after the number of trailing days that completes the week |
| GenCalendar.GridParts | gen/calendar.py:59-83 | the grid is the lead days, the month's days, then the trailing days from the next month's 1st |
| GenCalendar.GetMonthGrid | gen/calendar.py:52-84 | the grid built is the grid of days cut into rows of seven |
| GenCalendar.LeadRow | gen/calendar.py:58-66 | the first row starts with the lead days, in order |
| GenCalendar.AppendMonth | gen/calendar.py:67-77 | the month loop appends the month's days to the rows and stops on the next month's 1st |
| GenCalendar.CompleteLastRow | gen/calendar.py:78-83 | the last row is completed with the following days up to seven |
| GenCalendar.CreateEvent | gen/calendar.py:112-147 | the store and the error raised are those of `Created`: the request's type on an empty day, a KeyError without type or span, a ValueError for a non-numeric span, then the span's days |
| GenCalendar.CreatedOnePerDay | gen/calendar.py:138-147 | creating never puts a second event on a day |
| GenCalendar.CreatedSpan | gen/calendar.py:138-147 | with a type and a numeric span, the day and the min(span, maxEventLength) following days that were empty get one event of the type; every other day is untouched |
| FieldCalendar.SundayStep | fields/calendar.py:452-454 | while completing, the last day's weekday grows by one each step and is a Sunday exactly at the end |
| FieldCalendar.FinishWeek | fields/calendar.py:450-454 | the timeline gets the days after its last one up to a Sunday |
| FieldCalendar.FinishWeekRows | fields/calendar.py:450-454 | the last row gets the days after the last one up to a Sunday |
| FieldCalendar.ExtendLastRow | fields/calendar.py:453 | before the Sunday, a day goes into the last row |
| FieldCalendar.GridAsWeekEnd | fields/calendar.py:422-454 | completing the lead and month days up to a Sunday gives the whole grid |
| FieldCalendar.AppendMonthDays | fields/calendar.py:434-447 | the timeline's month loop appends the month's days and stops on the next month's 1st |
| FieldCalendar.GetGrid | fields/calendar.py:410-455 | a timeline is the grid of days; any other render is that grid cut into rows of seven |
| FieldCalendar.SiblingMonth | fields/calendar.py:389-397 | a value other than "previous" or "next" fails (the source's unbound `refDate`) |
| FieldCalendar.SiblingMonthAdjacent | fields/calendar.py:392-397 | previous is the month before and next the month after, across year ends |
| FieldCalendar.SiblingMonthRoundTrip | fields/calendar.py:389-397 | the previous month of the next month is the month |
| FieldCalendar.DateInRange | fields/calendar.py:498-503 | in range iff not before a given start and not after a given end |
| FieldCalendar.SingleDayRange | fields/calendar.py:498-503 | a range from a day to itself holds that day only |
| FieldCalendar.EmptyRange | fields/calendar.py:498-503 | a range ending before it starts holds no day |
| FieldCalendar.CellClass | fields/calendar.py:824-837 | '' outside month view; else "even" before today, "odd" otherwise, plus " cellDashed" on Saturdays and Sundays |
| FieldCalendar.ColumnStyle | fields/calendar.py:805-814 | only timelines style columns: grey on Fridays, lighter grey on week-ends, nothing otherwise |
| FieldCalendar.MayDelete | fields/calendar.py:766-770 | no policy refuses, True allows, a callable decides from the first event's type and fails on no events |
| FieldCalendar.CreatedFromRequest | fields/calendar.py:730-732 | called with no type and no span, the code as written and the corrected one agree |
| FieldCalendar.CreatedAsWrittenLosesType | fields/calendar.py:759-764 | with a type given, a span and no type in the request, the code as written raises KeyError on the second day, the corrected code fills it |
| FieldCalendar.CreatedKeepsOnePerDay | fields/calendar.py:755-764 | creating never puts a second event on a day |
| FieldCalendar.CreateEvent | fields/calendar.py:720-764 | the store and error are those of the corrected creation: the type given (or the request's), the span given (or the request's), every span day getting the same type |
| FieldCalendar.WithinBoundsIsRange | fields/calendar.py:571-599 | the three-level year, month, day bounds select exactly the days in the range |
| FieldCalendar.Matching | fields/calendar.py:580-612 | every occurrence found is a single day in the bounds whose event has the type asked |
| FieldCalendar.MatchingChronological | fields/calendar.py:613-614 | the occurrences come in chronological order, so sorting them by date changes nothing |
| FieldCalendar.Group | fields/calendar.py:615-630 | grouping never lengthens the list and keeps the first occurrence's day and event |
| FieldCalendar.GroupSpanned | fields/calendar.py:616-630 | the backward merging loop gives the grouping |
| FieldCalendar.GroupBack | fields/calendar.py:619-630 | one loop step merges position i - 1 with the group after it exactly when they follow each other |
| FieldCalendar.GroupShaped | fields/calendar.py:625-629 | each group has a valid first day and, when merged, a valid later last day |
| FieldCalendar.GroupRoundTrip | fields/calendar.py:615-630 | expanding each group back into its days gives exactly the occurrences grouped |
| FieldCalendar.UngroupMerged | fields/calendar.py:628-629 | a day absorbing the following group stands for itself and then that group's days |
| FieldCalendar.Absorb | fields/calendar.py:629 | `lastDate or currentDate` makes the absorbing day's span one day longer than the absorbed one |
| FieldCalendar.KeepEvents | fields/calendar.py:602-612 | the day's events of the wanted type, in order |
| FieldCalendar.GetEventsByType | fields/calendar.py:550-631 | grouping without sorting raises; else the matching occurrences, grouped on request |
| FieldCalendar.TimelineMonths | fields/calendar.py:839-855 | the loop builds the month cells day after day |
| FieldCalendar.SpansCover | fields/calendar.py:843-855 | reading each cell's month over its colspan gives the month of every day of the grid |
| FieldCalendar.ColumnsStep | fields/calendar.py:849-855 | one more day adds one column under its month |
| FieldCalendar.SpansAlternate | fields/calendar.py:843-855 | every cell spans at least one day and neighbouring cells are different months |
| DictFields.DictField.constructor | fields/dict.py:58-75 | a new field has its sub-fields and no widths yet |
| DictFields.DictField.ComputeWidths | fields/dict.py:77-82 | given widths are kept; without any, one empty width for the key column and one per sub-field; nothing else changes |
| DictFields.GetFormattedValue | fields/dict.py:84-94 | one entry per key in key order: the stored row when the dict has the key, None otherwise |
| DictFields.GetStorableValue | fields/dict.py:96-104 | fewer rows than keys raise IndexError; otherwise the i-th key gets the i-th row |
| DictFields.StoredKeys | fields/dict.py:101-103 | the stored dict has exactly the keys |
| DictFields.StoredRows | fields/dict.py:100-103 | with distinct keys, key i holds row i |
| DictFields.StoreThenFormat | fields/dict.py:84-104 | showing a stored dict gives back, for each key, the row stored under it |
| PodFields.NewPod | fields/pod.py:63-117 | no template raises; one path becomes a one-element list; missing formats default to xls/ods for an `.ods` template and to pdf/doc/odt otherwise; the field is not validable |
| PodFields.GetOutputFormats | fields/pod.py:126-132 | the configured formats, or only the frozen file's extension (one dot-free entry the file name ends with) |
| PodFields.FrozenFormat | fields/pod.py:126-132 | a frozen `stem.ext` document offers exactly `ext` |
| PodFields.GetTemplateName | fields/pod.py:134-144 | a non-empty name from `templateName` wins; otherwise the nice message of the base name without its extension |
| PodFields.TemplateNameFromFile | fields/pod.py:140-143 | without a given name, `stem.ext` is named after the nice form of `stem`, never empty |
| PodFields.Visible | fields/pod.py:146-153 | the visible templates are exactly the accepted ones, no more than all templates |
| PodFields.VisibleConcat | fields/pod.py:149-152 | filtering distributes over concatenation, so the templates keep their order |
| PodFields.VisibleAll | fields/pod.py:146-153 | when every template is accepted, all are visible |
| PodFields.GetVisibleTemplates | fields/pod.py:146-153 | all templates without `showTemplate`, else the accepted ones in order |
| Navigation.BatchStart | gen/navigate.py:48-58 | the start number is never negative, and 0 for an element before the list or an empty list |
| Navigation.BatchStartContains | gen/navigate.py:48-58 | for an element inside the list, the start is the multiple of the batch size whose batch holds it, `(n / b) * b` |
| Navigation.BackToCurrentBatch | gen/navigate.py:48-58 | for a valid number, the back link's start number is a multiple of the batch size and its batch holds the current element |
| Navigation.Siblings.ComputeStartNumber | gen/navigate.py:48-58 | the loop returns the batch start of element `number - 1` |
| Navigation.ParseNav | gen/navigate.py:39-46 | the first `.`-field chooses Ref or search navigation, anything else gives None; a wrong number of fields is a TypeError |
| Navigation.SearchNavKey | gen/navigate.py:185-189 | the search navigation key starts with `search.` |
| Navigation.SearchNavRoundTrip | gen/navigate.py:39-46 | parsing a search key gives back its class, search, number and total |
| Navigation.Lookup | gen/navigate.py:99-104 | list lookups accept Python's negative indexes, dict lookups need the key; errors give None |
| Navigation.LinkFor | gen/navigate.py:89-107 | a sibling link exists iff it is needed and its uid is found, non-empty and names an object; it carries the number `index + 1` |
| Navigation.RequeryStart | gen/navigate.py:199-200 | the re-query start is never negative |
| Navigation.RequeryWindow | gen/navigate.py:196-203 | the re-queried page holds the current element, and its neighbours when a page holds at least three |
| Navigation.Siblings.constructor | gen/navigate.py:60-107 | previous needed iff `number >= 2` and `total > number - 2`; next iff `number < total`; first iff `number >= 3`, last iff `number < total - 1` (for a search, also only when the session holds them); the re-query runs iff a needed neighbour is missing; one link per needed sibling |
| Tool.GetPortalType | gen/mixins/ToolMixin.py:29-40 | a wrapper class name `a_b_c_d_e` gives `b` + `e` (IndexError with fewer than five parts); User, Group and Translation get the application prefix; other names are kept |
| Tool.FlipLanguageDirection | gen/mixins/ToolMixin.py:172-179 | identity for `ltr`; otherwise left and right swap and other alignments are kept |
| Tool.FlipInvolution | gen/mixins/ToolMixin.py:172-179 | flipping twice gives the alignment back |
| Tool.CleanParam | gen/mixins/ToolMixin.py:252-254 | a cleaned parameter holds no `;` |
| Tool.QueryParams | gen/mixins/ToolMixin.py:242-255 | six values, one per query parameter name, in order |
| Tool.GetQueryInfo | gen/mixins/ToolMixin.py:244-255 | empty without a search |
| Tool.QueryInfoRoundTrip | gen/mixins/ToolMixin.py:244-255 | splitting the encoded string on `;` gives the six cleaned values back |
| Tool.Head | gen/mixins/ToolMixin.py:446-460 | Python's `s[:w]` is a prefix, of length `w` when `0 <= w <= len(s)` |
| Tool.TruncateValue | gen/mixins/ToolMixin.py:442-447 | a value no longer than the width is kept; a longer one is its first `width` characters and `...` |
| Tool.TruncateText | gen/mixins/ToolMixin.py:449-461 | a short text is kept; a long one is shown as its prefix and `...` inside an acronym titled with the whole text |
| Tool.TruncatedTextShowsPrefix | gen/mixins/ToolMixin.py:459-461 | the shown part is exactly the first `width` characters, followed by `...</acronym>` |
| Tool.Quote | gen/mixins/ToolMixin.py:468-472 | single quotes unless the value holds one, then `&quot;` |
| Tool.QuoteRoundTrip | gen/mixins/ToolMixin.py:468-472 | stripping the delimiters gives the value back, and they tell which quoting was used |
| Tool.ComputeStartNumberFrom | gen/mixins/ToolMixin.py:821-832 | the loop returns the batch start of `currentNumber` (see Navigation.BatchStartContains) |
| Tool.RowConcat | gen/mixins/ToolMixin.py:943-973 | width and fields of a row add up over concatenation |
| Tool.Pad | gen/mixins/ToolMixin.py:957-968 | padding adds empty columns up to the column count and no fields |
| Tool.GetGroupedSearchFields | gen/mixins/ToolMixin.py:943-973 | the rows hold the fields in their order; when every span fits, each row is exactly `nbOfColumns` wide |
| Tool.GetDateTime | gen/mixins/ToolMixin.py:583-610 | no year gives None; missing month/day default to 1/1 or 12/31; the time is 00:00 or 23:59; the day is the latest valid one not after the requested day |
| Tool.GetUserName | gen/mixins/ToolMixin.py:1133-1159 | `anon` gives the translated anonymous name (normalized on request), an unknown user the login, else first name and name, whichever exists, or the login |
| Tool.NormalizedUserName | gen/mixins/ToolMixin.py:1133-1159 | with `normalized`, and a normalisation that keeps non-empty names non-empty, the result is the plain result for the normalized non-empty names and the normalized anonymous name |
| Plone25Tool.FlavourNumberOf | gen/plone25/mixins/ToolMixin.py:45-50 | a name without `_` carries no flavour number |
| Plone25Tool.LastNumbered | gen/plone25/mixins/ToolMixin.py:52-55 | the flavour found has the number and is one of the flavours; none is found iff no flavour has the number |
| Plone25Tool.GetFlavour | gen/plone25/mixins/ToolMixin.py:35-68 | the numbered flavour when the name carries a known number; the context's own wrapper for the flavour type (AttributeError for a bare name); else the first flavour or None |
| Plone25Tool.QueryPortalTypes | gen/plone25/mixins/ToolMixin.py:93-100 | a comma-separated query gives one type per part, each suffixed `_N` unless the flavour is 1; a single name is kept |
| Plone25Tool.BeforeLast | gen/plone25/mixins/ToolMixin.py:117 | `rsplit(c, 1)[0]` is a prefix |
| Plone25Tool.SuffixRoundTrip | gen/plone25/mixins/ToolMixin.py:97-117 | removing the flavour suffix the query added gives the type name back |
| Plone25Tool.BaseTypes | gen/plone25/mixins/ToolMixin.py:109-117 | one type name per content type, without flavour suffix unless the flavour is 1 |
| Plone25Tool.Kept | gen/plone25/mixins/ToolMixin.py:125-129 | the kept names are exactly the listed names in the set, no more than the list |
| Plone25Tool.SharedMeans | gen/plone25/mixins/ToolMixin.py:108-124 | a name is shared iff every type has it |
| Plone25Tool.KeepInOrder | gen/plone25/mixins/ToolMixin.py:125-129 | the loop keeps the set's names in the list's order |
| Plone25Tool.GetResultColumnsNamesAsWritten | gen/plone25/mixins/ToolMixin.py:108-130 | the loop as written: intersections that restart after an empty set, filtered in the last type's order |
| Plone25Tool.GetResultColumnsNames | gen/plone25/mixins/ToolMixin.py:108-130 | the last type's columns that every type has, in order |
| Plone25Tool.ResultColumnsCommon | gen/plone25/mixins/ToolMixin.py:108-130 | a name is in the intended result iff every type has it |
| Plone25Tool.ResultColumnsResetExample | gen/plone25/mixins/ToolMixin.py:121-124 | for types A (no columns) and B (`y`), the loop as written returns `[y]` while the intersection is empty |
| Plone25Tool.LabelIsJoin | gen/plone25/mixins/ToolMixin.py:157-177 | from a non-empty title, the label is the title and the values joined by ` \| ` |
| Plone25Tool.GetReferenceLabel | gen/plone25/mixins/ToolMixin.py:157-181 | the title (empty when `title` is shown) then the values after ` \| ` separators; a label longer than `maxWidth` becomes its first `maxWidth - 2` characters plus `...` |
| Plone25Tool.TruncatedLabel | gen/plone25/mixins/ToolMixin.py:178-180 | a truncated label is `maxWidth + 1` characters long and starts like the label |
| Po.UpdateMessage | gen/po.py:105-143 | id and comments kept; a pot message loses its translation and only gets a default when it has none; a po message adopts the new default, becomes fuzzy iff the default changed and it has a non-blank translation (else keeps its flag), keeps its translation outside English, and in English is never left empty while a default exists |
| Po.PotUpdateIdempotent | gen/po.py:109-116 | updating a pot message twice with the same new message is updating it once |
| Po.EnglishFollowsDefault | gen/po.py:132-143 | an English translation that still equals the old default follows the new default and is not fuzzy |
| Po.EnglishKeepsOwnTranslation | gen/po.py:120-143 | an English translation the user changed is kept and marked fuzzy when the default changes |
| Po.EnglishFillsEmpty | gen/po.py:132-135 | an empty English translation is filled with the new default |
| Po.AfterFirstUnderscore | gen/po.py:175 | `split('_', 1)[1]` is a proper suffix |
| Po.Clone | gen/po.py:169-176 | an id starting with the old prefix has it replaced by the new one; any other id keeps what follows its first `_` behind the new prefix, IndexError without `_`; translation, default and comments are copied and the clone is not fuzzy |
| Po.CloneRoundTrip | gen/po.py:169-176 | cloning back with the prefixes swapped restores the id |
| Po.ParseFileName | gen/po.py:189-216 | a `.pot` name gives `app` (or `app-domain`) and no language; a `.po` name gives `app-lang` (domain = app) or `app-domain-lang`; IndexError iff a po base name has no `-` |
| Po.GetPoFileName | gen/po.py:304-311 | the name ends in `.po`, not `.pot` |
| Po.PotNameApp | gen/po.py:202-205 | `app.pot` serves the domain `app` |
| Po.PotNameDomain | gen/po.py:206-208 | `app-domain.pot` names application and domain |
| Po.PoFileNameRoundTrip | gen/po.py:304-311 | the po name made for a language parses back to the application, domain and that language |
| Po.Ids | gen/po.py:239 | one id per message, in order |
| Po.KeepInMembers | gen/po.py:241-249 | after removal the list holds exactly its ids that are new |
| Po.NotInMembers | gen/po.py:261 | `notNewMessages` holds exactly the ids that are not new |
| Po.DropRevMembers | gen/po.py:241-249 | the removed ids are exactly the ids that are not new |
| Po.Restrict | gen/po.py:247 | the dictionary keeps exactly the entries whose id is new, unchanged |
| Po.DictFold | gen/po.py:250-269 | after the merge the dictionary holds the old ids and the new ones; untouched entries are unchanged; every entry stays filed under its own id |
| Po.KeepOrder | gen/po.py:250-257 | keeping the order only appends to the existing list |
| Po.AfterRemoval | gen/po.py:238-249 | without removal nothing changes; with it, list and dictionary hold new ids only |
| Po.KeepInNoDup | gen/po.py:241-249 | removal keeps the list free of repeats |
| Po.NotInNoDup | gen/po.py:261 | the not-new list is free of repeats |
| Po.RemovalConsistent | gen/po.py:241-249 | removal keeps list and dictionary in agreement |
| Po.KeepOrderConsistent | gen/po.py:250-257 | merging in the existing order keeps list and dictionary in agreement, the list holding the old and the new ids |
| Po.ReorderConsistent | gen/po.py:258-271 | with distinct new ids, rebuilding in the new order keeps list and dictionary in agreement |
| Po.DictFoldUpdated | gen/po.py:252-257 | a new message whose id occurs once ends up as the old message of its id (or itself) updated with it |
| Po.PoFile.constructor | gen/po.py:189-218 | an empty, consistent, not yet generated file whose kind, application, domain and language are those its name parses to |
| Po.PoFile.AddMessage | gen/po.py:220-224 | the message goes at the end of the list and under its id; nothing else changes |
| Po.PoFile.AddHeader | gen/po.py:226-228 | the header goes at the end and under its name; nothing else changes |
| Po.PoFile.RemoveNotNewMessages | gen/po.py:238-249 | list, dictionary and removed ids are the specification functions of the old state, and the file stays consistent |
| Po.RemovalWalk | gen/po.py:241-249 | the backward loop deletes exactly the ids that are not new, from list and dictionary, collecting them last first |
| Po.PoFile.MergeKeepingOrder | gen/po.py:250-257 | the list and dictionary after the merge in the existing order |
| Po.PoFile.MergeInNewOrder | gen/po.py:258-271 | the new ids in order, then the old ids that are not new; the dictionary after the merge |
| Po.NewOrderWalk | gen/po.py:262-269 | the rebuilt list is the new messages' ids and the dictionary is the merged one |
| Po.PoFile.Update | gen/po.py:230-272 | removed ids, list and dictionary as the two steps define them; list and dictionary still agree unless new ids repeat in a reordering |
| Po.Recorded | gen/po.py:354-358 | a completed entry adds nothing iff its id and translation are both empty, else exactly the message read |
| Po.HeaderOf | gen/po.py:361-366 | ValueError iff the unquoted line has no colon; a header's name never holds a colon |
| Po.SplitHeader | gen/po.py:363-366 | cut at the first colon, ValueError without one |
| Po.ParseLinesStep | gen/po.py:333-366 | lines are read one after the other |
| Po.ParseErrorSticks | gen/po.py:363 | an error stops the reading: the whole file fails with it |
| Po.PoParser.constructor | gen/po.py:316-317 | the parser's file is fresh, empty and named after the file |
| Po.PoParser.Parse | gen/po.py:325-368 | the parse fails iff the line reading fails; otherwise the file gets the messages and headers read, in order, in list and dictionary |
| Po.PoParser.ReadLine | gen/po.py:334-366 | one line read as the reading function reads it |
| Po.PoParser.RecordEntry | gen/po.py:354-360 | a completed entry is added unless it is the header entry |
| Po.PoParser.RecordHeader | gen/po.py:361-366 | a header read is appended |
| Po.EntryRecorded | gen/po.py:336-358 | a default, an id and a translation line record one message (none for the header entry) |
| Po.HeaderRecorded | gen/po.py:361-366 | a header line `"name: value\n"` adds that header |
| Po.DefaultStep | gen/po.py:336-338 | a default line sets the default |
| Po.IdStep | gen/po.py:344-346 | a msgid line sets the id |
| Po.StrStep | gen/po.py:348-360 | a msgstr line completes the entry |
| Po.FuzzyStep | gen/po.py:340-342 | the fuzzy line sets the flag |
| Po.CommentStep | gen/po.py:352-353 | a comment line is collected |
| Po.CommentsRead | gen/po.py:352-353 | comment lines are collected in order |
| Po.BlankStep | gen/po.py:334-335 | a blank line changes nothing |
| Po.LinesText | gen/po.py:149-160 | a text written line by line is at least one character per line |
| Po.LinesTextConcat | gen/po.py:149-160 | writing two runs of lines writes their concatenation |
| Po.EntryLines | gen/po.py:149-160 | the corrected entry (see Findings): the comments, then the default, the fuzzy flag, and the id and translation lines last |
| Po.MessageText | gen/po.py:149-160 | the corrected `generate` (see Findings): the text is the corrected entry's lines written out, the comments kept before the default line |
| Po.MessageRest | gen/po.py:154-159 | after the comments, the corrected text is the text as written |
| Po.CommentsDropped | gen/po.py:151-155 | as written, a message's comments never affect its text |
| Po.CommentsDroppedExample | gen/po.py:151-155 | a message with comment `# note` is written without it, while the corrected text starts with it |
| Po.AsWrittenLosesComments | gen/po.py:151-155 | as written, a message's entry reads back as the message without its comments, so a message with comments does not survive writing and reading |
| Po.HeaderText | gen/po.py:183-185 | a header is written as its header line |
| Po.HeaderLines | gen/po.py:287-288 | one header line per header, in order |
| Po.DefaultHeaders | gen/po.py:6-17 | ten headers, from the application's version to the domain |
| Po.FallbackHeaders | gen/po.py:21-23 | at most the one fallback header |
| Po.DefaultHeaderBlock | gen/po.py:6-23 | the template is the header entry of the default headers and the fallback header, with one more blank line when there is no fallback |
| Po.DefaultEntry | gen/po.py:275-283 | the template is the default header entry written out |
| Po.KnownHeadersEntry | gen/po.py:284-289 | a file with headers is written with its own header entry |
| Po.HeadersWalk | gen/po.py:287-288 | the header loop writes the header lines |
| Po.PoFile.GenerateHeaders | gen/po.py:274-289 | the header text is the file's header entry written out, from its headers or from the template |
| Po.PoFile.GenerateMessages | gen/po.py:298-300 | the messages are written in list order, each as the corrected `MessageText` (comments kept) and followed by a blank line |
| Po.PoFile.Generate | gen/po.py:291-302 | the file's text is its header entry then its messages written with the corrected `MessageText`; the file is marked generated and nothing else changes |
| Po.WrittenText | gen/po.py:298-300 | one more message adds its text and a newline |
| Po.EntriesLines | gen/po.py:298-300 | at least one line per message |
| Po.WrittenHeaders | gen/po.py:275-289 | a file is always written with some header |
| Po.Listed | gen/po.py:298 | the messages in list order |
| Po.EntryRead | gen/po.py:333-360 | a well-written message's entry reads back as that message |
| Po.EntriesRead | gen/po.py:333-360 | written messages read back as themselves, in order |
| Po.HeaderLinesRead | gen/po.py:361-366 | header lines read back as their headers |
| Po.HeaderBlockRead | gen/po.py:361-366 | the header entry reads back as no message and its headers |
| Po.HeaderEntryStart | gen/po.py:355-359 | the empty id and translation record nothing |
| Po.WrittenRead | gen/po.py:291-302 | with the corrected message text, reading a generated file gives back its messages, comments included, in order, and the headers it was written with |
| Po.BlockThenEntries | gen/po.py:333-360 | messages written after a header entry read back after its headers |
| Descriptors.OwnFields | gen/descriptors.py:31-40 | only Appy fields the condition accepts are kept, and every such field is kept |
| Descriptors.Lookup | gen/descriptors.py:44-48 | the descriptor found for a base is the first one of that class, and none is found only when no descriptor has that class |
| Descriptors.FindDescr | gen/descriptors.py:44-48 | the search loop with its early exit finds the same descriptor as the specification |
| Descriptors.LookupFirst | gen/descriptors.py:44-48 | the first descriptor of the class is the one found |
| Descriptors.NewPosition | gen/descriptors.py:55-57 | a moved field goes to position len - abs(move), or 0 when that is not positive |
| Descriptors.MovedPermutation | gen/descriptors.py:52-61 | the move pass neither loses nor duplicates a field (same multiset, same length) |
| Descriptors.MovedStill | gen/descriptors.py:52-61 | without any move the gathered order is kept |
| Descriptors.MovedLast | gen/descriptors.py:54-58 | a field with move m lands at max(0, len - abs(m)); the fields before it stay put and those after it shift by one |
| Descriptors.ApplyMoves | gen/descriptors.py:52-61 | the move loop computes the move pass and gives a permutation of its input |
| Descriptors.WithUnknownBases | gen/descriptors.py:42-50 | bases the generator does not know add nothing |
| Descriptors.OwnFieldsLast | gen/descriptors.py:41-50 | the class's own fields come after every inherited field |
| Descriptors.SingleBaseOrder | gen/descriptors.py:19-61 | with one known base and no moves, the result is the base's ordered fields followed by the class's own |
| Descriptors.CollectOwn | gen/descriptors.py:29-40 | the loop over orderedAttributes keeps exactly the accepted Appy fields, in order |
| Descriptors.GatherBases | gen/descriptors.py:41-50 | each known base's ordered fields are put in front, so the last base comes first |
| Descriptors.GetOrderedAppyAttributes | gen/descriptors.py:19-61 | the result is the move pass over the inherited-then-own fields |
| Descriptors.BaseContribution | gen/descriptors.py:41-50 | a base the generator knows contributes its own ordered fields, an unknown base nothing |
| Descriptors.OrderedPermutation | gen/descriptors.py:19-61 | the ordered fields of a class are a permutation of its inherited-then-own fields |
| Descriptors.ChildrenOf | gen/descriptors.py:63-70 | a class is listed iff it is a subclass other than the class itself |
| Descriptors.GetChildren | gen/descriptors.py:63-70 | the loop computes exactly that list |
| Descriptors.Distinct | gen/descriptors.py:72-78 | each phase occurs once, and exactly the phases of the fields occur |
| Descriptors.DistinctOrder | gen/descriptors.py:72-78 | phases are listed in the order of their first occurrence |
| Descriptors.GetPhases | gen/descriptors.py:72-78 | the loop gives the distinct phases of the ordered fields |
| Descriptors.Elements | gen/descriptors.py:83-97 | only values of the asked kind are returned, and every such value is |
| Descriptors.WorkflowElements | gen/descriptors.py:83-103 | the loop over dir (used by getStates and getTransitions) computes that selection |
| Descriptors.StatesAmongMembers | gen/descriptors.py:112-115 | the first loop keeps exactly the listed names that hold states |
| Descriptors.InheritedMembers | gen/descriptors.py:118-121 | the second loop adds exactly the states that were not listed |
| Descriptors.NoneInherited | gen/descriptors.py:118-121 | when every dir name is listed nothing is prepended |
| Descriptors.StateNamesComplete | gen/descriptors.py:105-122 | ordered or not, every state of the workflow is named and nothing else is |
| Descriptors.StateNamesUnordered | gen/descriptors.py:105-122 | unordered, the result is the states in dir order |
| Descriptors.ListedStates | gen/descriptors.py:112-115 | the first loop computes the listed states in order |
| Descriptors.PrependInherited | gen/descriptors.py:118-121 | inserting at 0 puts the inherited states in front in reverse dir order |
| Descriptors.GetStateNames | gen/descriptors.py:105-122 | getStateNames returns the inherited states followed by the listed ones |
| Descriptors.InitialState | gen/descriptors.py:124-131 | the result is the first state flagged initial, and None only when there is none |
| Descriptors.InitialStateAt | gen/descriptors.py:124-131 | the first initial state found by the loop is the specified one |
| Descriptors.GetInitialStateName | gen/descriptors.py:124-131 | the search loop with its break computes that state |
| Descriptors.NameOfSpec | gen/descriptors.py:210-218 | the name is found iff some attribute holds the object, and it is the first such attribute |
| Descriptors.NameOfAt | gen/descriptors.py:210-218 | the first attribute holding the object gives the name |
| Descriptors.GetNameOf | gen/descriptors.py:210-218 | the search loop with its break computes that name |
| Descriptors.ConcreteNames | gen/descriptors.py:140-141 | a single transition keeps its own name |
| Descriptors.PairNamesAt | gen/descriptors.py:143-150 | without a limit there is one name per pair, the k-th being name + Cap(from) + "To" + Cap(to) |
| Descriptors.PairNamesKept | gen/descriptors.py:143-150 | with a limit, the names are exactly those of the pairs starting at the limiting state |
| Descriptors.PairNameText | gen/descriptors.py:146-150 | a pair's name is the text the source formats from the two state names |
| Descriptors.PairsWalk | gen/descriptors.py:143-150 | the loop over the pairs computes the kept names in order |
| Descriptors.GetTransitionNamesOf | gen/descriptors.py:133-151 | the method computes the concrete names of the transition |
| Descriptors.IsWanted | gen/descriptors.py:171-177 | a transition is kept when in limitToTransitions (if any) and starting at limitToFromState (if any) |
| Descriptors.EntriesOfMembers | gen/descriptors.py:180-186 | one transition adds exactly its concrete names, labelled when asked |
| Descriptors.TransitionNamesMembers | gen/descriptors.py:153-187 | the entries are exactly the concrete names of the wanted transitions, labelled with their transition when asked |
| Descriptors.AppendLabels | gen/descriptors.py:182-186 | the names are appended as plain names or as (name, transition) pairs |
| Descriptors.GetTransitionNames | gen/descriptors.py:153-187 | the loop over dir computes that list |
| Descriptors.EndStateNone | gen/descriptors.py:189-208 | without a transition having that concrete name the result is None |
| Descriptors.EndStateLast | gen/descriptors.py:189-208 | otherwise the last matching transition in dir order decides |
| Descriptors.EndOfPair | gen/descriptors.py:204-207 | for a multi-state transition the result is the name of the target of the pair whose concrete name was asked |
| Descriptors.GetEndStateName | gen/descriptors.py:189-208 | the loop without break computes that end state |
| Generators.MatchNodeChain | gen/generator.py:18-28 | `_match` finds a node exactly when the symbols met going down first children spell the pattern, and the node found is the last of that chain |
| Generators.MatchesAmongMembers | gen/generator.py:29-36 | a node is among the matches exactly when `_match` finds it in one of the children |
| Generators.Match | gen/generator.py:29-36 | the loop over `node[1:]` collects, in order, what `_match` finds in each child; a token has no child to match |
| Generators.NextVersion | gen/generator.py:359-370 | without version file the version is `0.1 build 1`; a file whose stripped text holds no `<..> build N` makes initialisation fail, any other gives group 1, a space and N+1 |
| Generators.VersionBumped | gen/generator.py:359-370 | a version `<x> build N` (x one word, surrounding whitespace stripped) becomes `<x> build N+1`; the Plone 2.5 generator (gen/plone25/generator.py:60-70) bumps it the same way |
| Generators.Generator.Initialize | gen/plone25/generator.py:61-70 | the version is set to the default first, then to the bumped version; on failure it stays the default |
| Generators.ConfigClasses | gen/generator.py:605 | the Zope generator has four config classes, the Plone 2.5 one (gen/plone25/generator.py:429) three: the tool, the user and the translation class; the tool is first in both |
| Generators.Customized | gen/generator.py:611 | the customised config classes are exactly those with the flag set, in order |
| Generators.GetClassesPrefix | gen/generator.py:595-614 | no filter (or an unknown one) gives the application's classes; every filter but `predefined` keeps them first; `predefined` gives the config classes alone |
| Generators.GetClassesAdded | gen/plone25/generator.py:419-438 | after the application's classes, `all` adds every config class, `allButTool` all but the tool and `custom` the customised ones |
| Generators.GetClassesCounts | gen/generator.py:606-609 | `all` adds four classes and `allButTool` three with the Zope generator, three and two with the Plone 2.5 one |
| Generators.FirstChild | gen/generator.py:719-726 | the position found is the first already-placed class listing the class as a direct base, or the end when there is none |
| Generators.PlaceProperties | gen/plone25/generator.py:440-467 | one insertion keeps the placed descriptors in order around the new one, which comes first for a root, before every placed direct subclass otherwise, and last when no subclass is placed |
| Generators.InOrderPermutation | gen/generator.py:707-734 | every descriptor is output exactly as many times as it is given |
| Generators.ParentAfterChildExample | gen/generator.py:707-734 | given a grandchild, its grandparent and then the middle class, the middle class is output before its own base |
| Generators.GetClassesInOrder | gen/generator.py:707-734 | the method computes that order, a permutation of its input |
| Generators.PlaceOne | gen/generator.py:713-733 | one iteration inserts the descriptor where the order says and its class at the same place in the parallel list |
| Generators.LowestChildIndex | gen/generator.py:719-726 | the inner loop finds the smallest index of a placed class listing the class among its bases, or none |
| Generators.AppyTypePathParts | gen/plone25/generator.py:307-315 | read back at its dots, the path is the `wraps` module (model classes) or the class's module, then the class, the attribute and `back` for a back reference; the Zope generator's paths go through the `wrappers` module instead (gen/generator.py:585-593) |
| Generators.TransitionBlockLabels | gen/generator.py:893-915 | a transition gets its own label, a confirm label exactly when it asks for confirmation, and mail subject and body labels exactly when it notifies |
| Generators.WorkflowLabelsMembers | gen/plone25/generator.py:678-713 | the labels of a workflow are one per state and the labels of each transition, nothing else |
| Generators.WorkflowLabelsAsWritten | gen/generator.py:893-915 | as written, the generation fails exactly when some transition asks for confirmation (the confirm default does not exist); otherwise it gives the labels above |
| Generators.ConfirmTransitionFails | gen/generator.py:900-905 | a single transition asking for confirmation makes it fail |
| Generators.Generator.GenerateWorkflow | gen/generator.py:880-915 | the labels of the workflow are appended to the generator's labels, states first, each transition's block after |
| Generators.Generator.AddStateLabels | gen/generator.py:887-892 | the first loop appends one label per state, in `dir` order |
| Generators.Generator.AddTransitionLabels | gen/generator.py:893-915 | the second loop appends each transition's block, in `dir` order |
| Generators.Generator.AddTransitionBlock | gen/plone25/generator.py:694-713 | a transition's own label, its confirm label if asked, its mail subject and body labels if it notifies |
| Generators.PageLabels | gen/generator.py:500-505 | there are `len / perPage + 1` page labels, numbered from 2, with id `<translation>_page_<k>` and default `Page <k>` |
| Generators.FieldPages | gen/generator.py:522-535 | the fields of the j-th message go on page `main` for j < perPage, then on page `2`, `3`, ... changing every perPage messages |
| Generators.PlacedPages | gen/plone25/generator.py:238-252 | the field loop walks the `n` messages counted for the labels plus the labels added by `update`; each lies on a page up to the last, named by its number after `main` |
| Generators.LastPageValue | gen/plone25/generator.py:217-252 | the last page filled is `n / p + 1 + (n % p + n / p) / p` for `n` messages counted before the labels and `p` per page |
| Generators.PagesLabelled | gen/plone25/generator.py:217-252 | the labels name pages 2 to `n / p + 2`, and every page filled has a label exactly when `n % p + n / p < 2p` (1800 messages at 30 per page fill page 63, one past the labels) |
| Generators.LastPageLabelUsed | gen/plone25/generator.py:217-252 | the last label's page holds messages exactly when `n % p + n / p >= p` |
| Generators.PageNamesDiffer | gen/generator.py:530-535 | distinct page numbers get distinct page names |
| Generators.RefererTableEntries | gen/plone25/generator.py:298-305 | a class name has an entry exactly when a referer was added under it, and the entry lists those referers in the order added |
| Generators.Generator.AddReferer | gen/plone25/generator.py:298-305 | the referer is appended under the referred class's name, the list being created on first use; nothing else changes; the Zope generator (gen/generator.py:577-583) records the field alone |
| Generators.Generator.constructor | gen/generator.py:356-357 | a generator starts with no label and no referer |
| AppyWrappers.ParentAttrSpec | gen/wrappers/__init__.py:649-660 | the inherited value is that of the last base class with a truthy value, and `None` exactly when no base class has one |
| AppyWrappers.GetParentAttr | gen/wrappers/__init__.py:649-660 | the backwards scan of the bases returns the inherited value |
| AppyWrappers.GetWorkflowSpec | gen/wrappers/__init__.py:663-668 | the workflow of the last base class defining one, and `WorkflowAnonymous` exactly when none does (or the last one defining it is that workflow) |
| AppyWrappers.GetPageLayoutsSpec | gen/wrappers/__init__.py:671-676 | the layouts are never empty: the last non-empty layouts of a base class, else the default "view" and "edit" tables |
| AppyWrappers.IndexesKeys | gen/wrappers/__init__.py:679-694 | the indexes are the starting ones plus `get<Name>` for every indexed field other than `title` |
| AppyWrappers.IndexesValue | gen/wrappers/__init__.py:679-694 | an index's type is that of the last field giving it its name, and a standard index no field overrides keeps its type |
| AppyWrappers.GetIndexes | gen/wrappers/__init__.py:679-694 | the loop over the fields builds the indexes, starting from the standard ones or from none |
| AppyWrappers.Search1 | gen/wrappers/__init__.py:986-989 | the first search result, and `None` exactly when there is no result |
| AppyWrappers.Ids | gen/wrappers/__init__.py:1003-1008 | the stored uid list, empty when the field was never set |
| AppyWrappers.CountRefs | gen/wrappers/__init__.py:1010-1015 | zero exactly when the uid list is missing or empty |
| AppyWrappers.CountRefsIsIds | gen/wrappers/__init__.py:1003-1015 | the count is the length of what `ids` returns |
| AppyWrappers.LastEventSpec | gen/wrappers/__init__.py:1122-1139 | an event is returned iff it matches the transition(s), is not `notBefore`, and no later event matches or is `notBefore` |
| AppyWrappers.LastEventNone | gen/wrappers/__init__.py:1122-1139 | nothing is returned iff every matching event is followed by a matching event or by `notBefore` |
| AppyWrappers.AbstractWrapper.GetLastEvent | gen/wrappers/__init__.py:1122-1139 | the backwards scan of the history returns the last event as characterised above |
| AppyWrappers.KeptMembers | gen/wrappers/__init__.py:1146-1150 | the kept events are exactly the history's events that differ from the removed one in action or time |
| AppyWrappers.RemoveFromShape | gen/wrappers/__init__.py:1141-1156 | the new history is the kept events in order, each data change taking the review state of the event kept before it |
| AppyWrappers.RemovedEvents | gen/wrappers/__init__.py:1141-1156 | no event with the removed action and time remains; kept events differ only in review state, only data changes are rewritten, and a leading data change gets no state |
| AppyWrappers.AbstractWrapper.RemoveEvent | gen/wrappers/__init__.py:1141-1156 | the stored history becomes the rewritten kept events |
| AppyWrappers.AbstractWrapper.constructor | gen/wrappers/__init__.py:699 | a wrapper over an object with the given history |
| UserWrappers.ShowLogin | gen/wrappers/UserWrapper.py:9-12 | the login is editable exactly while the user is being created, and otherwise shown on the view and result layouts |
| UserWrappers.ShowEmail | gen/wrappers/UserWrapper.py:18-22 | the email is shown iff it is non-empty and differs from the login |
| UserWrappers.ValidatePassword | gen/wrappers/UserWrapper.py:38-43 | a password is refused, with `password_too_short`, iff it has fewer than 5 characters |
| UserWrappers.ValidateLoginAsWritten | gen/wrappers/UserWrapper.py:28-36 | as written, only the login `admin` is refused |
| UserWrappers.ValidateLogin | gen/wrappers/UserWrapper.py:28-36 | as intended, a login is refused iff it is `admin` or a user or group already has it; whatever it accepts the code as written accepts too |
| UserWrappers.LoginInUseAccepted | gen/wrappers/UserWrapper.py:32-36 | a login another user already has passes the validator as written, and not the intended one |
| UserWrappers.PasswordErrors | gen/wrappers/UserWrapper.py:81-89 | on the main page, different passwords put the same `passwords_mismatch` message on both password fields; no other error changes, and nothing changes otherwise |
| UserWrappers.Validate | gen/wrappers/UserWrapper.py:81-89 | the errors object ends up holding those errors |
| UserWrappers.FormErrors.constructor | gen/wrappers/UserWrapper.py:81 | an errors object starts empty |
| UserWrappers.AddMissingSpec | gen/wrappers/UserWrapper.py:154-156 | appending the missing roles keeps the list in front, adds exactly the missing roles and never adds one twice |
| UserWrappers.AppendMissing | gen/wrappers/UserWrapper.py:154-156 | the loop appends the roles the list lacks, in order |
| UserWrappers.AllRolesMembers | gen/wrappers/UserWrapper.py:154-156 | the roles of the groups are those of some group |
| UserWrappers.GlobalRolesSpec | gen/wrappers/UserWrapper.py:147-157 | a user has their own roles first, `Authenticated` unless they have `Anonymous`, and their groups' roles, each added once |
| UserWrappers.GetRoles | gen/wrappers/UserWrapper.py:147-157 | the loops build those global roles |
| UserWrappers.Relevant | gen/wrappers/UserWrapper.py:170-172 | the local-role entries considered are exactly those of the user or of one of their groups |
| UserWrappers.RolesInContextSpec | gen/wrappers/UserWrapper.py:159-175 | in context a user has their global roles first, plus the local roles granted to them or to one of their groups, each added once |
| UserWrappers.GetRolesInContext | gen/wrappers/UserWrapper.py:159-175 | the loop builds those roles in context |
| UserWrappers.Allowed | gen/wrappers/UserWrapper.py:177-204 | the checks and loops return 0 for the forbidden sentinel, 1 for `None` or `Anonymous`, and otherwise decide by `Authenticated`, then a shared global role, then a shared local role, each granted only in context |
| HtmlDiffs.ChunkTag | shared/diff.py:41-42 | a chunk is wrapped in a `div` exactly when the separator is a newline, otherwise in a `span` |
| HtmlDiffs.ChunkStyle | shared/diff.py:44-49 | the configured CSS class of the change when there is one, else the default inline style of insertions or deletions |
| HtmlDiffs.ModifiedChunk | shared/diff.py:36-50 | the result opens the element with the tag, the highlighting and the title of the change, holds the chunk joined with the separator, and closes the same tag |
| HtmlDiffs.FirstDifferenceAsWrittenFails | shared/diff.py:60-65 | the loop as written fails exactly when the strings agree up to the end of the shorter one |
| HtmlDiffs.PrefixLineFails | shared/diff.py:60-65 | "ab" against "abc" makes the loop as written index past the end |
| HtmlDiffs.GetStringDiff | shared/diff.py:52-79 | `i` is the length of the longest common start; `ja`, `jb` start the longest common end of the two strings that does not reach back before `i` |
| HtmlDiffs.FirstSimilarFrom | shared/diff.py:113-114 | the index of the first line of the second list from `k` on that is similar to the given line: similar, none before it similar; none only when no line from `k` on is similar |
| HtmlDiffs.FirstSimilar | shared/diff.py:113-114 | the scan finds a line exactly when `FirstSimilarFrom` gives one, and finds that index |
| HtmlDiffs.MatchLine | shared/diff.py:112-132 | one turn of the loop follows the greedy rule: the line is paired with the first similar unused line of the second list, after the pending deletions are dumped and the skipped lines inserted, and is added to the pending deletions only when no similar line remains; every line read so far stays accounted for |
| HtmlDiffs.GreedyDiffEdges | shared/diff.py:104-136 | with the second list empty the greedy rule gives one deletion of the whole first list; with the first list empty, one insertion of the whole second list (or nothing) |
| HtmlDiffs.GetSeqDiff | shared/diff.py:87-136 | the result is exactly `GreedyDiff`, the greedy pairing rule written as a recursive function; read in order, the deletions and replacements give back the first list and the insertions and replacements the second; replacements pair similar lines, no entry is empty; an empty second list makes the whole first list one deletion, an empty first list makes the second one insertion |
| Css.SegmentPair | shared/css.py:13-15 | a segment gives a stripped (name, value) pair exactly when it splits on `:` into two parts; otherwise the unpacking fails |
| Css.ParseStyleAttribute | shared/css.py:5-16 | the loop returns the pairs of the non-blank `;`-segments in order (or the dict they set, last value per name), and fails as soon as one does not unpack |
| Css.StylePairsFail | shared/css.py:11-13 | parsing fails exactly when some non-blank segment does not hold exactly one `:` |
| Css.StylePairsOrder | shared/css.py:11-15 | on success there is one pair per non-blank segment, in order, each the stripped name and value of its segment; blank segments are exactly the ones skipped |
| Css.DictOfKeys | shared/css.py:14 | the dict form has a key for every name and no other |
| Css.DictOfLast | shared/css.py:14 | the dict form keeps the value of the last pair with a given name |
| Css.NewCssStyles | shared/css.py:41-56 | construction fails when the style does not parse, sets `width` or `height`, or when a `width`/`height` attribute is not shadowed by a style stored under that name (CssValue raises); otherwise every style is an attribute named without dashes, holding the value of a style of that name |
| Plone25Utils.BackslashNotKept | gen/plone25/utils.py:17-19 | a value holding a backslash followed by `n` is written as a literal that reads back with a newline instead |
| Plone25Utils.Quoted | gen/plone25/utils.py:17-19 | a quoted string starts and ends with a single quote |
| Plone25Utils.UnescapeEscaped | gen/plone25/utils.py:17-19 | reading the escaped text back as a literal body gives the string |
| Plone25Utils.QuotedRoundTrip | gen/plone25/utils.py:17-19 | the text between the quotes reads back as the string |
| Plone25Utils.QuotedWithoutBackslash | gen/plone25/utils.py:17-19 | on strings without a backslash the corrected quoting is the quoting as written: quotes become `\'` and newlines `\n` |
| Plone25Utils.StringifyValue | gen/plone25/utils.py:2-20 | the loop writes a list or tuple as `(`, each item's text followed by a comma, `)`; a DateTime as `DateTime("...")`; a `python:` string without its prefix; another string quoted with the corrected quoting, which also escapes backslashes (see Findings); any other value as its `str()` |
| Plone25Utils.StringRoundTrip | gen/plone25/utils.py:14-19 | with the corrected quoting (see Findings), a string not starting with `python:` is written as a single-quoted literal that reads back as the string |
| Plone25Utils.PythonExpression | gen/plone25/utils.py:15-16 | a string starting with `python:` is written as the rest of it, verbatim |
| XmlParsers.QNameRoundTrip | shared/xml_parser.py:35-36 | the prefix and name a prefixed tag unpacks into, joined by `:`, give the tag back, and neither holds a colon |
| XmlParsers.QNameSplit | shared/xml_parser.py:35-36 | a prefix and a name without colons unpack back into themselves |
| XmlParsers.XmlElement.Init | shared/xml_parser.py:27-40 | the tag and attributes are stored; a prefixed tag sets prefix and name and keeps the URI; an unprefixed tag has an empty prefix, the tag as name and the given URI; a tag with two colons fails after storing tag and attributes |
| XmlParsers.XmlElement.MappedPrefix | shared/xml_parser.py:46 | the namespaces give a prefix exactly when the element's URI is set, not `None` and declared |
| XmlParsers.XmlElement.FullName | shared/xml_parser.py:58-64 | without namespaces the raw tag; with them the mapped prefix, `:` and the name, failing when the URI has no prefix |
| XmlParsers.XmlElement.EqualsTo | shared/xml_parser.py:41-49 | without namespaces, equality of the raw tags; with them, whether the raw tag is the other element's mapped prefix and name, failing when its URI has no prefix |
| XmlParsers.EqualsFullName | shared/xml_parser.py:41-64 | an element equals another exactly when its raw tag is the other's full name, and the two fail together |
| XmlParsers.NewXmlElement | shared/xml_parser.py:27-40 | construction fails exactly on a tag with two colons; otherwise the new element is initialised as above, a prefixed one without a URI |
| XmlParsers.DeclaredKeys | shared/xml_parser.py:75-79 | after the declarations a URI is known exactly when it was before or some `xmlns:` attribute has it as value |
| XmlParsers.DeclaredLast | shared/xml_parser.py:75-79 | a declared URI maps to the prefix of its last declaration |
| XmlParsers.DeclaredKeeps | shared/xml_parser.py:75-79 | a URI no attribute declares keeps its prefix |
| XmlParsers.XmlEnvironment.ManageNamespaces | shared/xml_parser.py:75-79 | the loop records the `xmlns:` attributes, in order, as URI to prefix, and changes nothing else |
| XmlParsers.XmlEnvironment.Ns | shared/xml_parser.py:80-82 | the prefix of a URI, failing exactly when it is not declared |
| XmlParsers.XmlParser.StartElement | shared/xml_parser.py:102-110 | the tag's declarations are recorded; the first element is a new object and every later one re-initialises the same object with the tag |
| XmlParsers.XmlParser.EndElement | shared/xml_parser.py:111-113 | the current element, the same object, is re-initialised with the closing tag and no attributes |
| Testing.StrLeqTotal | shared/test.py:115 | any two strings are ordered one way or the other by Python's string order |
| Testing.StrLeqAntisymmetric | shared/test.py:115 | two strings each no greater than the other are equal |
| Testing.StrLeqTransitive | shared/test.py:115 | the string order is transitive |
| Testing.InsertSortedSorted | shared/test.py:115 | inserting into a sorted list keeps it sorted |
| Testing.SortStrings | shared/test.py:114-115 | `sort()` of the attribute names gives a sorted permutation of them |
| Testing.SortedUnique | shared/test.py:114-120 | a sorted list without repeats is determined by its elements, so the attribute text does not depend on the document order |
| Testing.UndeclaredNeverIgnored | shared/test.py:80-89 | a tag to ignore whose URI has no declared prefix never matches a non-empty element name |
| Testing.Spaces | shared/test.py:95-96 | `n` spaces, none for a negative count |
| Testing.Names | shared/test.py:114 | the attribute names, in order |
| Testing.IndentFollowsDepth | shared/test.py:104-129 | outside ignored elements the indentation level moves with the nesting depth and the handler never starts ignoring |
| Testing.BalancedDocument | shared/test.py:71-129 | a balanced document with nothing ignored brings the level back to -1 |
| Testing.ShownNamesSpec | shared/test.py:114-120 | the attribute names written are sorted, without repeats, and exactly the element's attributes that are not to be ignored |
| Testing.RemoveSortedSpec | shared/test.py:116-118 | removing one ignored name keeps the list sorted without repeats and drops exactly that name |
| Testing.RemoveAllSpec | shared/test.py:116-118 | removing all the ignored names leaves exactly the others, sorted, without repeats |
| Testing.XmlHandler.constructor | shared/test.py:67-76 | the handler starts with the XML declaration, no namespaces, level -1, not ignoring |
| Testing.XmlHandler.IsIgnorable | shared/test.py:77-90 | the element is ignorable exactly when some tag to ignore has its full name, an undeclared URI giving the empty name |
| Testing.XmlHandler.ManageNamespaces | shared/test.py:97-101 | the `xmlns:` attributes are recorded as URI to prefix, and nothing else changes |
| Testing.XmlHandler.AttributesText | shared/test.py:114-120 | the text of the kept attributes, sorted by name, each as ` name="value"` |
| Testing.XmlHandler.StartElement | shared/test.py:104-121 | the new state is the handler's step for a start tag: ignoring begins at an ignorable tag; otherwise, when not ignoring, the level goes up and the indented tag with its kept attributes is appended |
| Testing.XmlHandler.EndElement | shared/test.py:122-129 | the new state is the handler's step for an end tag: ignoring ends at an ignorable tag; otherwise, when not ignoring, the indented closing tag is appended and the level goes down |
| Testing.XmlHandler.Characters | shared/test.py:130-132 | outside ignored elements the text is appended without its newlines |
| Testing.DiffReportShape | shared/test.py:202-222 | nothing is reported when the files do not differ; otherwise the report opens with the heading and `...` |
| Testing.CompareReport | shared/test.py:202-222 | the result says whether some diff line is a change, and the lines written are the heading, `...` before each run of changes and each changed line |
| Testing.IsExpectedError | shared/test.py:256-265 | true exactly when every expected line occurs in the error dump; otherwise the first missing line is reported |
| Testing.CheckTester | shared/test.py:280-337 | the checks pass exactly when the plan is an existing `.rtf` file, the flavours are a list of strings, the factory is a TestFactory and, with flavours, the one argument is one of them; the chosen flavour is that argument; a non-string flavour is reported as such |
| Testing.ConfigTableName | shared/test.py:309-314 | the configuration table is `Configuration`, suffixed with `.` and the flavour when the flavour is not empty |
| Testing.TestDelta | shared/test.py:343-362 | a test counts once, and is a success only when it is run |
| Testing.SuiteTally | shared/test.py:338-362 | a suite counts all its tests, and successes plus ignored tests never exceed them |
| Testing.SuiteTallySpec | shared/test.py:338-362 | a suite fails exactly when one of its tests has no name, or is run without a description; otherwise the ignored tests are those named with `_` and the successes the run tests that did not fail |
| Testing.SuiteOutcome | shared/test.py:366-387 | a suite's tally keeps successes plus ignored tests within the tests |
| Testing.PlanTally | shared/test.py:363-388 | the tally of the suites keeps successes plus ignored tests within the tests |
| Testing.PlanTallyFail | shared/test.py:363-388 | the plan fails exactly when one of its suites is malformed, missing or has a test that cannot be counted |
| Testing.FinalMessageSpec | shared/test.py:389-396 | the closing line gives the successes over the tests run, and mentions the ignored tests exactly when there are some |
| Testing.Tester.constructor | shared/test.py:318-320 | the counters start at zero |
| Testing.Tester.CountTest | shared/test.py:343-362 | one test adds its delta to the counters, or raises the KeyError |
| Testing.Tester.RunSuite | shared/test.py:338-362 | the counters grow by the suite's tally, or the first KeyError is returned, keeping successes plus ignored tests within the tests |
| Testing.Tester.RunSuiteRow | shared/test.py:366-387 | one suite row: malformed, missing or unequal tables are errors; an ignored suite counts all its tests as ignored; any other is run |
| Testing.Tester.RunSuites | shared/test.py:366-387 | the counters grow by the tally of all suites, or the first error is returned |
| Testing.Tester.Run | shared/test.py:363-396 | without a `TestSuites` table the run fails; otherwise the counters grow by the plan's tally and the result is the closing line |
| SharedData.ParsedLanguagesSpec | shared/data/__init__.py:19-30 | reading the country file succeeds exactly when no non-blank line with a code lacks the code or the name field; then codes and names grow in step, one pair per line with a non-blank third field, in file order, keeping what was there |
| SharedData.LanguagesOfMembers | shared/data/__init__.py:23-29 | a (code, name) pair is recorded exactly when some line carries that code in its third field and that name in its fourth |
| SharedData.Countries.constructor | shared/data/__init__.py:13-17 | a new object starts from empty lists and holds the languages read from the whole file |
| SharedData.Countries.ParseFile | shared/data/__init__.py:19-30 | the lists become those of the line-by-line fold, which stops at the first line short of fields |
| SharedData.Countries.ParseLine | shared/data/__init__.py:23-29 | a blank line or one with a blank third field changes nothing; otherwise the code, then the name, are appended, failing when a field is missing |
| SharedData.Countries.Exists | shared/data/__init__.py:32-34 | a code exists exactly when it is among the recorded codes |
| SharedData.Unquoted | shared/data/__init__.py:62 | the result neither starts nor ends with a double quote |
| SharedData.ParsedCitiesKeys | shared/data/__init__.py:57-62 | reading the cities file succeeds exactly when every non-blank line has two fields and an integer first field; then a postal code is a key exactly when some line gives it |
| SharedData.ParsedCitiesLast | shared/data/__init__.py:57-62 | a postal code maps to the city of the last line that gives it |
| SharedData.BelgianCities.constructor | shared/data/__init__.py:54-56 | a new object holds the map read from the whole file, starting from an empty map |
| SharedData.BelgianCities.ParseFile | shared/data/__init__.py:57-62 | the map becomes that of the line-by-line fold, which stops at the first line that cannot be read |
| SharedData.BelgianCities.ParseLine | shared/data/__init__.py:59-62 | a blank line changes nothing; otherwise the unquoted integer code is bound to the unquoted city name, failing on a short line or a non-integer code |
| SharedData.BelgianCities.Exists | shared/data/__init__.py:63-65 | a postal code exists exactly when it is a key of the map |
| LdapConnectors.ServerUri | appy/shared/ldap_connector.py:57-61 | the URI is `ldap://<server>:` followed by a decimal that reads back as the port, 389 when the port is unset or zero |
| LdapConnectors.LdapConfig.GetServerUri | appy/shared/ldap_connector.py:52-61 | the configuration's URI (also its representation), with the port read back as above |
| LdapConnectors.FilterRoundTrip | appy/shared/ldap_connector.py:255-258 | for names and values free of parentheses (and names free of `=`), the filter `(&(n=v)...)` reads back as exactly the given pairs, in order |
| LdapConnectors.GetFilterInjection | appy/shared/ldap_connector.py:255-258 | as written, the one pair `uid=x)(uid=*` gives the same filter as the two pairs `uid=x` and `uid=*` |
| LdapConnectors.EscapedFilterRoundTrip | appy/shared/ldap_connector.py:255-258 | with values escaped as section 3 of RFC 4515 asks, every pair reads back as one assertion whose value unescapes to the given one |
| LdapConnectors.EscapeRoundTrip | appy/shared/ldap_connector.py:255-258 | unescaping an escaped value gives it back |
| LdapConnectors.LdapConfig.constructor | appy/shared/ldap_connector.py:19-50 | the defaults: no server or port, login attribute `dn`, user classes `top` and `person`, subtree scope, enabled, empty user map |
| LdapConnectors.LdapConfig.GetUserFilterValues | appy/shared/ldap_connector.py:63-70 | the login pair comes first exactly when a login is given, followed by one `objectClass` pair per user class, in order |
| LdapConnectors.WantedMembers | appy/shared/ldap_connector.py:72-79 | an LDAP name is asked for exactly when some attribute of the table is configured with that non-empty name |
| LdapConnectors.LdapConfig.GetUserAttributes | appy/shared/ldap_connector.py:72-79 | the names of the configured attributes, in table order, and only those |
| LdapConnectors.ParamsSpec | appy/shared/ldap_connector.py:81-95 | an Appy field is filled exactly when its row has an Appy name, a configured LDAP name and a non-empty LDAP value, and then with the first value; no other field is filled |
| LdapConnectors.LdapConfig.GetUserParams | appy/shared/ldap_connector.py:81-95 | the loop yields the params of the whole attribute table, with the field-by-field characterisation above |
| LdapConnectors.UpdateAttributes | appy/shared/ldap_connector.py:113-118 | every LDAP attribute is stored and the others kept; the status turns `updated` exactly when some attribute differed from the stored one |
| LdapConnectors.LdapConfig.SetLocalUser | appy/shared/ldap_connector.py:97-144 | an existing user takes the LDAP attributes and a given password and is `updated` or untouched as above; otherwise a new user from source `ldap` is `created` with the groups and roles of its user-map entry |
| LoConverters.GetResultFilter | appy/pod/converter.py:103-113 | an unknown result type is a bad-result-type error; a per-input entry gives the filter of the input type or fails on an input it does not know; a plain entry gives its filter |
| LoConverters.PerInputEntries | appy/pod/converter.py:23-48 | exactly `htm`, `html` and `pdf` choose their filter by input type |
| LoConverters.PdfFromAnyType | appy/pod/converter.py:23-48 | a pdf can be produced from every known type except pdf, and HTML only from the three LibreOffice formats |
| LoConverters.ResultNeverInput | appy/pod/converter.py:115-131 | the result path (`<base>.<type>`, or `<base>.res.<type>` when the types are equal) never names the document being converted |
| LoConverters.GetResultPath | appy/pod/converter.py:127-140 | the result path when the probe can write it, otherwise the cannot-write error naming that path |
| LoConverters.NewConverter | appy/pod/converter.py:74-90 | a missing document, an unknown filter and an unwritable result are reported in that order; otherwise the input type is the lower-cased extension, and the filter and a result path distinct from the document are recorded |
| LoConverters.Props | appy/pod/converter.py:142-152 | one property per pair, with its name and value, in the given order |
| LoConverters.LoadProps | appy/pod/converter.py:226-237 | documents load hidden, with the CSV filter flags exactly when the input is CSV |
| LoConverters.StoreProps | appy/pod/converter.py:248-255 | the result is stored with its filter, plus the CSV options exactly when the result is CSV |
| OdtConverters.GetResultFilter | pod/converter.py:71-77 | known result types map through the table; any other is a bad-result-type error |
| OdtConverters.OnlyOdtUnconverted | pod/converter.py:23-31 | the no-conversion ODT pseudo-filter is chosen exactly for an `odt` result |
| OdtConverters.ResultUrlIsInput | pod/converter.py:78-83 | the result URL names the document exactly when the result type is not `odt` and the document already has that extension |
| OdtConverters.OdtDocumentKept | pod/converter.py:78-83 | an ODT document is never overwritten by its result |
| OdtConverters.FileNameOfResult | pod/converter.py:78-84 | for a `file://` document the probed file name is the result URL without its scheme |
| OdtConverters.GetResultUrlAsWritten | pod/converter.py:78-92 | as written, the result URL when the probe can write it; otherwise the `IOError` of `open` escapes, `except OSError` not catching it |
| OdtConverters.GetResultUrl | pod/converter.py:78-92 | the corrected probe (see Findings): the result URL when it can be written, otherwise the cannot-write error naming it |
| OdtConverters.NewConverterAsWritten | pod/converter.py:55-61 | as written, a missing document and an unknown type are reported in that order, and an unwritable result ends in an uncaught `IOError` |
| OdtConverters.NewConverter | pod/converter.py:55-61 | the corrected constructor: a missing document, an unknown type and an unwritable result are reported in that order; otherwise the table filter and the result URL are recorded |
| OdtConverters.UnwritableResultEscapes | pod/converter.py:85-92 | the constructor as written and the corrected one agree except on an unwritable result, an uncaught `IOError` in one and the cannot-write error in the other |
| OdtConverters.StoreProps | pod/converter.py:170-179 | the ODT pseudo-filter stores with no property, any other filter with exactly its `FilterName` |
| OdtParts.HtmlEscape | pod/parts.py:43-45 | the escaped content holds no `<` or `>` |
| OdtParts.EscapeRoundTrip | pod/parts.py:43-45 | unescaping the entities gives the content back |
| OdtParts.ChosenStyle | pod/parts.py:34-39 | an explicit style wins; otherwise a header cell takes the header style and any other cell the normal one |
| OdtParts.CellContent | pod/parts.py:40-46 | a cell is the cell and paragraph tags, then the escaped content, which adds no markup and reads back unchanged, then the closing tags |
| OdtParts.OdtTable.constructor | pod/parts.py:11-26 | the header styles default to the normal ones and the buffer starts empty |
| OdtParts.OdtTable.DumpCell | pod/parts.py:28-46 | the buffer grows by the cell written with the chosen styles and the escaped content |
| OdtParts.OdtTable.StartRow | pod/parts.py:48-49 | the buffer grows by a row opening tag |
| OdtParts.OdtTable.EndRow | pod/parts.py:51-52 | the buffer grows by a row closing tag |
| OdtParts.OdtTable.StartTable | pod/parts.py:54-57 | the buffer grows by the named table tag and the declaration of `nbOfCols` repeated columns |
| OdtParts.OdtTable.EndTable | pod/parts.py:59-60 | the buffer grows by the table closing tag |
| AppyPackage.ListGeqOrder | __init__.py:16-18 | Python's `>=` on integer lists is reflexive, total, antisymmetric and transitive |
| AppyPackage.VersionNumbers | __init__.py:16-17 | each dot-separated part is read as an integer, failing exactly when some part is not one |
| AppyPackage.VersionIsGreaterThanOrEquals | __init__.py:8-18 | the `dev` version passes every check; otherwise a part that is not a number is an error, and the integer lists are compared lexicographically (the same function is at appy/__init__.py:11-21) |
| AppyPackage.VersionsComparable | __init__.py:8-18 | a readable version is at least itself, and of two readable versions one is at least the other |
| AppyPackage.NumericOrder | __init__.py:16-18 | for all versions, after a common start the smaller number comes first whatever follows (0.9 before 0.10), and a longer version with the same start is greater |
| AppyPackage.Object.constructor | __init__.py:24-26 | the object has exactly the given attributes (the same constructor is at appy/__init__.py:30-32) |
| AppyPackage.Object.Get | __init__.py:41 | the attribute's value, or the default when it is missing (the same method is at appy/__init__.py:50) |
| AppyPackage.Object.GetItem | appy/__init__.py:51 | attribute access: the value, or an attribute error when it is missing |
| AppyPackage.Object.Update | __init__.py:42-45 | the attributes of the other object are copied over and the others kept (the same method is at appy/__init__.py:53-56) |
| AppyPackage.Object.Clone | appy/__init__.py:58-61 | a new object with the same attributes |
| Xhtml2Odt.OutlineLevel | pod/xhtml2odt.py:513-522 | a heading's level is its digit plus the local, else the global, `h*` delta, and never below 1 |
| Xhtml2Odt.FindStyle | pod/xhtml2odt.py:471-526 | a style the local mapping gives the CSS class always wins; no style found means neither mapping knows the element |
| Xhtml2Odt.FindStyleOrder | pod/xhtml2odt.py:471-526 | the style found is the first, in priority order, of the seven places searched |
| Xhtml2Odt.TableLayout | pod/xhtml2odt.py:129-333 | a table's buffer holds its opening, one declaration per counted column, then the first row and the rest in order |
| Xhtml2Odt.DumpsBeforeFirstRow | pod/xhtml2odt.py:255-265 | once a table's buffer is started, everything dumped before its first row ends waits in the temporary buffer |
| Xhtml2Odt.DumpsAfterFirstRow | pod/xhtml2odt.py:255-265 | after the first row, every dump goes straight to the table's buffer |
| Xhtml2Odt.Dumped | pod/xhtml2odt.py:255-267 | a dump goes to the global buffer without an open table, else to the current table's buffer or temporary buffer as its first row dictates; nothing else changes |
| Xhtml2Odt.DumpedTwice | pod/xhtml2odt.py:255-267 | with steady routing two dumps are one dump of the concatenation |
| Xhtml2Odt.CharsDumped | pod/xhtml2odt.py:230-235 | dumping the characters one by one keeps the stacks' shape and the pending content |
| Xhtml2Odt.CharsDumpedAtOnce | pod/xhtml2odt.py:230-235 | dumping the escaped characters one by one is dumping the escaped text at once |
| Xhtml2Odt.ItemStyleKey | pod/xhtml2odt.py:114-157 | the key chosen for an item's style is always one of the four item styles |
| Xhtml2Odt.WithInnerParagraph | pod/xhtml2odt.py:110-127 | a paragraph is opened inside the cell or item on top only when none was, and is then recorded as the tag to close; the stacks keep their shape |
| Xhtml2Odt.InnerParagraphIdempotent | pod/xhtml2odt.py:110-127 | a second addInnerParagraph changes nothing |
| Xhtml2Odt.ContentDumped | pod/xhtml2odt.py:220-236 | content that `unicode.strip()` empties (ASCII blanks, U+00A0 and the other Unicode spaces) changes nothing; other content is dumped and reset, the stacks keeping their shape |
| Xhtml2Odt.StyledElementDumped | pod/xhtml2odt.py:238-253 | the styled tag is dumped without changing the stacks or the pending content |
| Xhtml2Odt.RootParagraphDumped | pod/xhtml2odt.py:199-218 | the root paragraph is handled without changing the stacks' shape; content that `unicode.strip()` empties opens no paragraph |
| Xhtml2Odt.ConflictualElements | pod/xhtml2odt.py:96-108 | the only conflicting element is a paragraph |
| Xhtml2Odt.ParagraphSplitAround | pod/xhtml2odt.py:89-288 | a table or list opened right inside a paragraph closes the paragraph first and reopens it afterwards; otherwise nothing is closed or reopened |
| Xhtml2Odt.StartContentDumped | pod/xhtml2odt.py:270-274 | the first step of a start keeps the stacks' shape |
| Xhtml2Odt.ConflictsClosed | pod/xhtml2odt.py:275-288 | closing the conflicting elements keeps the stacks' shape |
| Xhtml2Odt.MissingOpened | pod/xhtml2odt.py:289-291 | opening a missing paragraph keeps the stacks' shape |
| Xhtml2Odt.Pushed | pod/xhtml2odt.py:292-307 | the new element is pushed with its tags to reopen, a list on the list stack and a table on the table stack; no buffer changes |
| Xhtml2Odt.CellsCounted | pod/xhtml2odt.py:300-307 | a cell of the first row adds its colspan, 1 by default, to the columns counted; later cells add nothing |
| Xhtml2Odt.ElementStarted | pod/xhtml2odt.py:269-307 | the element stack grows by the new element alone, older elements keeping their names, the lists and tables stacks grow by a list and a table |
| Xhtml2Odt.PushedOnTop | pod/xhtml2odt.py:292-307 | pushing on a stack of the same shape leaves the older elements' names in place |
| Xhtml2Odt.EndContentDumped | pod/xhtml2odt.py:310-314 | the first step of an end keeps the stacks' shape |
| Xhtml2Odt.ElementEnded | pod/xhtml2odt.py:309-336 | the element stack loses its top alone, a list leaves the list stack and a table the table stack |
| Xhtml2Odt.TableEndDumpsIntoParent | pod/xhtml2odt.py:318-321 | the end of a table dumps its whole buffer into the global buffer or the enclosing table's |
| Xhtml2Odt.FirstRowEndDeclaresColumns | pod/xhtml2odt.py:322-330 | the end of a table's first row writes one declaration per counted column, then what was held back; later rows change nothing |
| Xhtml2Odt.ListWrappingBalanced | pod/xhtml2odt.py:395-432 | a nested list opens a wrapping item exactly when its end closes one |
| Xhtml2Odt.StartTagsDumped | pod/xhtml2odt.py:383-415 | the markup of a start tag changes only the buffers |
| Xhtml2Odt.EndTagsDumped | pod/xhtml2odt.py:420-441 | the markup of an end tag changes only the buffers |
| Xhtml2Odt.ListNames | pod/xhtml2odt.py:295-317 | the open lists are `ul` or `ol` elements |
| Xhtml2Odt.KeepsValid | pod/xhtml2odt.py:154-178 | the invariant depends only on the names and closing tags of the open elements and the stacks' sizes |
| Xhtml2Odt.ElementStartSpec | pod/xhtml2odt.py:380-415 | a start on a valid environment leaves it valid: the list stack is the open lists, one table buffer per open table |
| Xhtml2Odt.ElementEndSpec | pod/xhtml2odt.py:417-443 | a well-formed end on a valid environment leaves it valid |
| Xhtml2Odt.ListTagsAgree | pod/xhtml2odt.py:292-432 | on a valid environment a list's start opens a wrapping item exactly when its end closes one |
| Xhtml2Odt.LoweredAttrsKeep | pod/xhtml2odt.py:356-369 | every attribute appears under its lowered name, with its value unless a later one lowers to the same name |
| Xhtml2Odt.LoweredAttrsOnly | pod/xhtml2odt.py:356-369 | every lowered name comes from some attribute |
| Xhtml2Odt.XhtmlEnvironment.constructor | pod/xhtml2odt.py:158-177 | empty buffers and stacks, no root paragraph |
| Xhtml2Odt.XhtmlEnvironment.DumpString | pod/xhtml2odt.py:255-267 | the new state is the dump's |
| Xhtml2Odt.XhtmlEnvironment.AddInnerParagraph | pod/xhtml2odt.py:110-127 | the new state is addInnerParagraph's on the top element |
| Xhtml2Odt.XhtmlEnvironment.DumpCurrentContent | pod/xhtml2odt.py:220-236 | the new state is dumpCurrentContent's, content blank for `unicode.strip()` being left pending |
| Xhtml2Odt.XhtmlEnvironment.OpenMissingParagraph | pod/xhtml2odt.py:224-227 | a paragraph is opened in a cell or item on top, else nothing changes |
| Xhtml2Odt.XhtmlEnvironment.DumpChars | pod/xhtml2odt.py:230-235 | the loop dumps each escaped character in turn |
| Xhtml2Odt.XhtmlEnvironment.DumpStyledElement | pod/xhtml2odt.py:238-253 | the new state is dumpStyledElement's |
| Xhtml2Odt.XhtmlEnvironment.StartRootParagraph | pod/xhtml2odt.py:211-213 | the root paragraph is opened when it must start |
| Xhtml2Odt.XhtmlEnvironment.DumpRootParagraph | pod/xhtml2odt.py:199-218 | the new state is dumpRootParagraph's, with the same `unicode.strip()` blank test |
| Xhtml2Odt.XhtmlEnvironment.OnElementStart | pod/xhtml2odt.py:269-307 | the new state is onElementStart's |
| Xhtml2Odt.XhtmlEnvironment.Push | pod/xhtml2odt.py:292-307 | the new state is the push's |
| Xhtml2Odt.XhtmlEnvironment.CloseConflicts | pod/xhtml2odt.py:275-288 | the loop builds the closing tags innermost first and the opening tags outermost first |
| Xhtml2Odt.XhtmlEnvironment.Pop | pod/xhtml2odt.py:315-333 | the new state is the pops' |
| Xhtml2Odt.XhtmlEnvironment.OnElementEnd | pod/xhtml2odt.py:309-336 | the new state and the tags to reopen are onElementEnd's |
| Xhtml2Odt.XhtmlParser.constructor | pod/xhtml2odt.py:346-354 | the parser drives the given environment |
| Xhtml2Odt.XhtmlParser.LowerizeAttrs | pod/xhtml2odt.py:356-369 | the attributes under their lowered names |
| Xhtml2Odt.XhtmlParser.StartElement | pod/xhtml2odt.py:380-415 | the new state is startElement's, and the environment stays valid |
| Xhtml2Odt.XhtmlParser.DumpStartTags | pod/xhtml2odt.py:383-415 | the markup of each start tag is dumped |
| Xhtml2Odt.XhtmlParser.EndElement | pod/xhtml2odt.py:417-443 | the new state is endElement's, and the environment stays valid |
| Xhtml2Odt.XhtmlParser.DumpEndTags | pod/xhtml2odt.py:420-441 | the markup of each end tag is dumped |
| Xhtml2Odt.XhtmlParser.Characters | pod/xhtml2odt.py:445-447 | the text is appended to the pending content and the invariant kept |
| PodActions.BuiltinsConsistent | pod/actions.py:197-208 | a None, boolean or string result is true exactly when it has items, so an empty cell is written only for an empty sequence |
| PodActions.BodiesConcat | pod/actions.py:210-224 | the evaluations of the content written by two runs of events are those of the first followed by those of the second |
| PodActions.TalliedAppend | pod/actions.py:210-248 | counting the cells of a row over two runs of events is counting the second from where the first left off |
| PodActions.TalliedRepeated | pod/actions.py:228-248 | `k` repeated cells add `k` cells to the current row, none when `k` is not positive |
| PodActions.BodiesRepeated | pod/actions.py:228-248 | repeating the cell never evaluates the content |
| PodActions.ExpectedBodiesAt | pod/actions.py:210-224 | the `k`-th evaluation of a loop's content sees the `k`-th item under the iterator name, `loop.<iter>.nb == k` and the loop's length |
| PodActions.BindFrame | pod/actions.py:289-300 | defining the variables adds exactly their names to the context and changes no other name; a failure leaves the other names as they were |
| PodActions.BindStep | pod/actions.py:289-300 | the next definition sees its name with its former value, is evaluated in the context of the earlier ones, and adds that former value to what is hidden |
| PodActions.BindFailedStays | pod/actions.py:289-292 | once a definition fails, the later ones are not evaluated |
| PodActions.RestoredContext | pod/actions.py:302-308 | putting back the hidden values and deleting the names that were not hidden gives exactly the context from before the definitions |
| PodActions.NameIsNew | pod/actions.py:289-300 | with distinct names, a definition's name is not among the earlier ones |
| PodActions.TurnTally | pod/actions.py:210-224 | an iteration on a full row ends it and starts a new one holding one cell; otherwise it adds one cell; every ended row stays full |
| PodActions.PodBuffer.constructor | pod/actions.py:37-58 | a buffer starts with its context, no `loop` object and an empty result |
| PodActions.Action.constructor | pod/actions.py:37-58 | an action keeps its buffer, element, minus flag and source; `else` and variables actions have no expression; both results start as None |
| PodActions.Action.WriteError | pod/actions.py:65-78 | the error is dumped into the result and the context is untouched |
| PodActions.Action.EvaluateExpression | pod/actions.py:80-90 | success gives the value and writes nothing; a failure gives None, flags the error and dumps the expression with the exception line |
| PodActions.Action.EvaluateBuffer | pod/actions.py:104-118 | the buffer is evaluated in the current context, or the `from` expression's value is written, or its error is dumped |
| PodActions.Action.DoIf | pod/actions.py:123-129 | a true result evaluates the content once; a false one writes an empty cell inside a cell and nothing elsewhere |
| PodActions.Action.DoElse | pod/actions.py:141-145 | the result is the negation of the linked `if`'s, and the content is evaluated exactly when the `if`'s was not |
| PodActions.Action.InitialiseLoop | pod/actions.py:155-181 | the `loop` object is created when absent and gets the loop's attribute with the length (0 when `len` raises) and no `nb` |
| PodActions.Action.Iterate | pod/actions.py:210-224 | the item is bound to the iterator name, `nb` becomes `k`, a full row is ended and a new one started before the content is evaluated, and the column advances or restarts at 1 |
| PodActions.Action.RepeatCell | pod/actions.py:228-248 | the cell is repeated `k` times without its content, none for `k <= 0` |
| PodActions.Action.CellsFixed | pod/actions.py:225-248 | after the loop the current row is padded or split so that it ends one cell after the statement's cell, every ended row full, and no content is evaluated |
| PodActions.Action.RowPadded | pod/actions.py:228-232 | a short row is padded with repeated cells, without their content and with the iterator emptied, up to the statement's column |
| PodActions.Action.RowSplit | pod/actions.py:233-248 | a long row is completed, ended and restarted with the cells up to the statement's column, with the iterator emptied |
| PodActions.Action.WalkItems | pod/actions.py:210-224 | the `k`-th evaluation of the content sees the `k`-th item and `nb == k`; the iterator ends on the last item and no ended row is short |
| PodActions.Action.Turn | pod/actions.py:210-224 | one iteration adds exactly the evaluation of the `i`-th iteration's context and keeps every ended row full |
| PodActions.Action.DoFor | pod/actions.py:183-260 | a non-iterable result dumps only the wrong-type error; otherwise the content is evaluated once per item in that item's context, the loop attribute is removed, the iterator is restored or deleted, and a cell's row ends one cell after it with every ended row full |
| PodActions.Action.RunLoop | pod/actions.py:192-260 | the loop over the items evaluates the content once per item and then restores the context it hid |
| PodActions.Action.Walk | pod/actions.py:197-248 | the items are walked, then the row fixed, with the content evaluated once per item |
| PodActions.Action.StartAndWalk | pod/actions.py:197-224 | an empty sequence in a cell writes one empty cell; otherwise the items are walked from the statement's column |
| PodActions.Action.StartLoop | pod/actions.py:197-208 | the loop attribute is set and the column starts at the cell's index; a false result in a cell writes an empty cell |
| PodActions.Action.EndLoop | pod/actions.py:249-260 | the loop attribute is deleted and a hidden iterator value is restored, or the iterator deleted after a true result |
| PodActions.Action.DoNull | pod/actions.py:265-266 | the content is evaluated once in the current context |
| PodActions.Action.DoVariables | pod/actions.py:280-308 | on success the content is evaluated with all the variables defined, each seeing the earlier ones, and the context is then exactly restored; a failure dumps the error and leaves the earlier definitions in the context |
| PodActions.Action.DefineVariables | pod/actions.py:289-300 | the context is the result of the definitions in order, and what is hidden is exactly the former values of the defined names |
| PodActions.Action.Execute | pod/actions.py:92-102 | a multi-cell table with the minus option is refused; an expression that fails dumps its error; otherwise the result is the expression's value and the statement runs with the outcome of its own `do`: an `if` or plain statement writes the content or the empty cell, an `else` the same on the negation of its `if`'s result, a `for` the content once per item with the loop state restored after (or the error for a result that cannot be iterated), a variables statement the content in the context its definitions build (or the error of the first that fails) |
| AjaxPool.FirstFree | gen/ui/appy.js:131-134 | the first free slot of the pool, with every slot before it busy; None exactly when every slot is busy |
| AjaxPool.XhrPool.constructor | gen/ui/appy.js:58 | the pool starts empty, on a page with the given hook elements |
| AjaxPool.XhrPool.AskAjaxChunk | gen/ui/appy.js:111-177 | the request takes the first free slot, or a new one at the end; the pool becomes the one `Acquired` describes, stays consistent, and the hooks are untouched (the Plone skin's copy is gen/plone25/skin/appy.js:83-149) |
| AjaxPool.XhrPool.GetAjaxChunk | gen/ui/appy.js:79-109 | a busy slot at ready state 1 puts the waiting image in its hook; at ready state 4 with status 200 and an existing hook, the answer replaces the hook's content, `onGet` is called when given and the slot is freed; nothing else changes (the Plone skin's copy is gen/plone25/skin/appy.js:51-81) |
| AjaxPool.AcquiredShape | gen/ui/appy.js:131-140 | the pool grows, by exactly one slot, only when every slot is busy; the chosen slot gets the hook and the callback, and every other slot is left alone (the same in the Plone skin, gen/plone25/skin/appy.js:103-112) |
| AjaxPool.AcquiredRequest | gen/ui/appy.js:141-175 | the chosen slot is busy exactly when it has an XMLHttpRequest; a GET carries the parameters after `?` in the URL `<url>/ui/ajax` (`<url>/skyn/ajax` in the Plone skin, gen/plone25/skin/appy.js:113-131), and a POST sends them as its body |
| AjaxPool.AcquiredConsistent | gen/ui/appy.js:130-177 | taking a slot keeps every busy slot with a request under way |
| AjaxPool.FreedOnlyOnSuccess | gen/ui/appy.js:83-106 | a callback changes at most the freed flag of one slot, and frees only the slot it was called for, when that slot was busy, at ready state 4, status 200 and with its hook on the page (the same in the Plone skin, gen/plone25/skin/appy.js:55-78) |
| AjaxPool.AskThenAnswer | gen/ui/appy.js:79-177 | a request followed by its successful answer leaves the free slots as they were (a grown pool has one more free slot) and puts the answer in the hook |
| AjaxPool.ParamsRoundTrip | gen/ui/appy.js:145-149 | when no name or value holds `&` or `=`, splitting the parameter string on `&` gives back `page=`, `macro=` and each `name=value` in order |
| AjaxPool.JoinedFields | gen/ui/appy.js:145-149 | the parameter string is its `name=value` fields joined by `&` |
| JsEscape.HexRoundTrip | gen/ui/appy.js:419 | a number written as `w` hex digits reads back as itself when it fits |
| JsEscape.EscapedIsPlain | gen/ui/appy.js:419 | an escaped value holds no `;`, space or `=`, so it cannot break the cookie string |
| JsEscape.UnescapeByte | gen/ui/appy.js:419-429 | a character below U+0100 that `escape` writes as `%XX` is read back by `unescape` |
| JsEscape.UnescapeUnit | gen/ui/appy.js:419-429 | a character from U+0100 to U+FFFF written as `%uXXXX` is read back |
| JsEscape.UnescapePair | gen/ui/appy.js:419-429 | a character beyond U+FFFF, written as its two UTF-16 halves, is read back as the one character |
| JsEscape.EscapeRoundTrip | gen/ui/appy.js:419-429 | `unescape(escape(s)) == s` for every string |
| BrowserPage.ReadStored | gen/ui/appy.js:421-432 | with plain cookie names, `readCookie` returns the unescaped value of the first cookie of that name, or null when there is none |
| BrowserPage.LookupEntries | gen/ui/appy.js:423-430 | the scan of the `;`-separated pieces, leading spaces removed, finds the first piece that starts with `name=` exactly at the first cookie of that name |
| BrowserPage.SetCookiePlain | gen/ui/appy.js:412-419 | storing a cookie with a plain name and a value without `;` keeps the jar plain |
| BrowserPage.SetCookieSame | gen/ui/appy.js:412-419 | after storing, the cookie of that name holds the new value |
| BrowserPage.SetCookieOther | gen/ui/appy.js:412-419 | storing one cookie leaves every other cookie's value unchanged |
| BrowserPage.ReadAfterCreate | gen/ui/appy.js:412-432 | a value written by `createCookie` is read back as written by `readCookie`, and other cookies read as before |
| BrowserPage.ToggleOnce | gen/ui/appy.js:434-459 | after a toggle the cookie holds `expanded` when it held `collapsed` or nothing readable, else `collapsed` |
| BrowserPage.ToggleReads | gen/ui/appy.js:434-459 | toggling twice brings an `expanded` cookie back to `expanded` and any other state to `collapsed` |
| BrowserPage.HideFromSpec | gen/ui/appy.js:600-607 | the hiding loop of `showTab` runs to its end exactly when every other tab of the group exists; it then hides exactly those tabs and keeps the rest |
| BrowserPage.ShowTabShape | gen/ui/appy.js:592-608 | `showTab` remembers the tab in the cookie `tab_<group>`, keeps the set of tabs, shows its tab and, when it completes, hides every other tab of the group and nothing else (the same in the Plone skin, gen/plone25/skin/appy.js:419-435) |
| BrowserPage.Page.constructor | gen/ui/appy.js:412-615 | a page holds the given cookies, zones, icons and tabs |
| BrowserPage.Page.CreateCookie | gen/ui/appy.js:412-419 | the jar gets the escaped value under the name; nothing else changes |
| BrowserPage.Page.ReadCookie | gen/ui/appy.js:421-432 | the loop over the pieces returns what `Read` gives, the value of the first cookie of that name |
| BrowserPage.Page.ToggleCookie | gen/ui/appy.js:434-459 | a missing or unknown state is first stored as `collapsed`; the zone is shown when the state becomes expanded and hidden otherwise, the icon follows, and the cookie holds the new state; a missing zone or icon stops it at that point (the same in the Plone skin, gen/plone25/skin/appy.js:289-314) |
| BrowserPage.Page.ManageTab | gen/ui/appy.js:570-589 | an existing tab gets the look of a shown or hidden tab; a missing one stops the call with nothing changed (the Plone skin, gen/plone25/skin/appy.js:397-416, uses its `skyn` images) |
| BrowserPage.Page.ShowTab | gen/ui/appy.js:592-608 | the new jar, tabs and completion are those `ShowTabEffect` gives (the same in the Plone skin, gen/plone25/skin/appy.js:419-435) |
| BrowserPage.Page.InitTab | gen/ui/appy.js:611-615 | shows the tab the cookie names, or the default when the cookie is missing or empty (the same in the Plone skin, gen/plone25/skin/appy.js:438-442) |
| Slaves.ListRoundTrip | gen/ui/appy.js:281-292 | a Python list of values without commas or spaces, written as the server writes it, is split back into the same values |
| Slaves.SelectedMembers | gen/ui/appy.js:300-305 | a value is collected exactly when an option with that value is selected |
| Slaves.MasterValuesMeaning | gen/ui/appy.js:278-307 | a checkbox gives `True` or `False`, and a select exactly the values of its selected options |
| Slaves.GetSelected | gen/ui/appy.js:300-305 | the loop collects the selected options' values in order |
| Slaves.SplitList | gen/ui/appy.js:283-290 | the loop splits a `(...)` or `[...]` value into its unquoted items |
| Slaves.GetMasterValues | gen/ui/appy.js:278-307 | the values of a text input, a checkbox or a select, as `MasterValues` describes them |
| Slaves.SlaveCssUnread | gen/ui/appy.js:264-276 | the class `slave*<master>*<values>` that `getSlaveCss` writes never starts with `slave_`, so `getSlaveInfo` as written finds no information in it |
| Slaves.SlaveInfoRoundTrip | gen/ui/appy.js:264-276 | reading the class `getSlaveCss` writes with its own separator gives back the master's name and values |
| Slaves.NoSpaceInCss | fields/__init__.py:817-826 | without spaces in the name and values, the slave class is one class of the `className` |
| Slaves.GetSlaveInfo | gen/ui/appy.js:264-276 | the loop over the classes returns what `SlaveInfo` reads |
| Slaves.AnyCommon | gen/ui/appy.js:338-343 | the nested loops show the slave exactly when one of its values is a master value |
| Slaves.UpdateSlaves | gen/ui/appy.js:330-349 | with slave information read by the corrected reader `SlaveInfo` (the `slave*` classes fields write, see Findings; the reader as written finds none, `SlaveCssUnread`), each slave up to the first one without slave information is shown exactly when one of its values is a master value; the update stops at that slave and leaves the rest |
| Slaves.GetMasterValue | gen/plone25/skin/appy.js:204-218 | a checkbox gives `True` or `False`, a select its selected values in order; a text input, which has no options, makes it fail (None) |
| Slaves.SlaveDisplaysIdempotent | gen/plone25/skin/appy.js:220-233 | updating twice with the same values changes nothing more, and every slave of the type ends the same whatever its display was |
| Slaves.PloneUpdateSlaves | gen/plone25/skin/appy.js:220-233 | every table of class `slave_<id>` is hidden, then shown when it has the class of one of the master values; other tables keep their display |
| Slaves.InitSlaves | gen/plone25/skin/appy.js:235-269 | every `master_<id>` class of every master, in order, updates the slaves of that id with the master's values (a SPAN's id, split when it is a list); the run stops at a master that is neither a SPAN, a checkbox nor a select |
| CalendarScripts.ToggleVisibility | gen/ui/calendar.js:1-9 | a hidden element becomes visible, any other becomes hidden |
| CalendarScripts.FlippedTwice | gen/ui/calendar.js:1-9 | toggling twice restores a hidden or visible element and makes any other visible |
| CalendarScripts.EnabledOptionsSpec | gen/ui/calendar.js:14-44 | every value stays; with `selectFirst` exactly the first enabled option with a value ends selected, without it none; an option ends enabled exactly when its value is listed, or when it has no value and was enabled; a listed option loses its title and an unlisted one gets the message |
| CalendarScripts.DictNames | gen/ui/calendar.js:19-29 | the names `value in d` finds are exactly the listed names and the names every object inherits from `Object.prototype` |
| CalendarScripts.EnableOptions | gen/ui/calendar.js:14-44 | the loops give the options `EnabledOptions` describes for the names `value in d` finds |
| CalendarScripts.PrototypeNameEnabled | gen/ui/calendar.js:29-31 | as written, an option whose value is an inherited name such as `toString` is enabled whatever the list holds |
| CalendarScripts.JsParseIntPrefix | gen/ui/calendar.js:97 | `parseInt` reads the decimal digits a string starts with, whatever follows them |
| CalendarScripts.JsParseIntOfNat | gen/ui/calendar.js:97 | a number written in decimal is read back as itself |
| CalendarScripts.TriggerAcceptsUnreadableSpan | gen/ui/calendar.js:93-102 | as written, the spans `3x` and `1 2` are accepted although the server's `int()` rejects them |
| CalendarScripts.CheckedOutcomeSpec | gen/ui/calendar.js:81-107 | the corrected check sends a new event only with a type and with a span that is empty or that `int()` reads within the maximum; it sends every new event with a type and such a readable span, and every other action |
| CalendarScripts.PartitionSpec | gen/ui/calendar.js:116-120 | every checkbox lands in exactly one of the validated and discarded lists |
| CalendarScripts.CheckboxIdsMembers | gen/ui/calendar.js:116-120 | an id is in a list exactly when a checkbox in that checked state has that id |
| CalendarScripts.ValidatedRoundTrip | gen/ui/calendar.js:121-124 | when no id holds a comma, splitting the `validated` parameter on commas gives back the checked ids in order |
| CalendarScripts.ValidateEvents | gen/ui/calendar.js:110-126 | the loop builds the request parameters `ValidateParams` describes |
| Publish.FullNameSplits | bin/publish.py:48-53 | when no folder name holds `/`, the full name splits on `/` into `.` and the names of the folders on the way down |
| Publish.FullNameKept | bin/publish.py:48-53 | adding folders to the table does not change the full names already there |
| Publish.FullyCompleteBelow | bin/publish.py:58-62 | every folder below a fully complete folder is fully complete |
| Publish.CompleteBelowFully | bin/publish.py:58-62 | a complete folder all of whose descendants are complete is fully complete |
| Publish.FullyCompleteMeaning | bin/publish.py:58-62 | `isFullyComplete` holds exactly when the folder and every folder below it are complete |
| Publish.IncompleteSubFolders | bin/publish.py:64-71 | every folder collected is incomplete, lies below the folder, and every folder between them is complete |
| Publish.IncompleteEmpty | bin/publish.py:64-71 | nothing is collected exactly when every sub-folder is fully complete, so for a complete folder exactly when it is fully complete |
| Publish.IncompleteSubFoldersExact | bin/publish.py:64-71 | a folder is collected exactly when it is incomplete, lies below the folder, and every folder between them is complete |
| Publish.AddedSubFolderSpec | bin/publish.py:54-56 | adding a sub-folder keeps the tree well formed, names the new folder `<parent's full name>/<name>` and keeps the other full names |
| Publish.ClassifyListing | bin/publish.py:117-127 | an `ls` line `perms info name` is ignored when the name is hidden or private (except `__init__.py*`), else is a sub-folder exactly when the permissions start with `d`, and a file otherwise |
| Publish.AnalysedSpec | bin/publish.py:117-127 | analysing one entry keeps the tree well formed and only adds to it |
| Publish.AnalysedAllSpec | bin/publish.py:140-141 | analysing a whole listing keeps the tree well formed and only adds to it |
| Publish.CompletedSpec | bin/publish.py:142 | marking a folder complete keeps the tree well formed and its names |
| Publish.FolderProxies.constructor | bin/publish.py:132-133 | the proxies start with the root `.`, not yet complete |
| Publish.FolderProxies.AddSubFolder | bin/publish.py:54-56 | the new folder is appended as a child of `i` and its full name is `i`'s full name, `/` and its name |
| Publish.FolderProxies.AnalyseFolderEntry | bin/publish.py:117-127 | the table becomes the one `Analysed` gives, still well formed and extending the old one |
| Publish.FolderProxies.Visit | bin/publish.py:138-142 | one turn of the loop: every entry of the listing is analysed in order, then the folder is marked complete; the table stays well formed and only grows |
| Publish.FolderProxies.IsFullyComplete | bin/publish.py:58-62 | the loop and recursion compute `FullyComplete` |
| Publish.FolderProxies.GetIncompleteSubFolders | bin/publish.py:64-71 | the loop and recursion compute `IncompleteSubFolders` |
| Publish.AnswerNormalised | bin/publish.py:261 | only the stripped, lower-cased answer counts |
| Publish.AnswerMeaning | bin/publish.py:251-273 | `y` or `yes` means yes and `n` or `no` means no, whatever the case and surrounding blanks; an empty answer gives the default (yes when it is `y` or `yes` in any case); any other answer means no; in silent mode the answer is yes exactly when the default is `yes` |
| Publish.IsDistExcluded | bin/publish.py:280-286 | the loop excludes exactly the names holding `.bzr` or starting with one of the excluded folders |
| Publish.ExcludedInherited | bin/publish.py:280-286 | everything whose name extends an excluded name is excluded too |
| Publish.BodyNesting | bin/publish.py:204-223 | the loop over the lines leaves exactly one list open when the last kept line was an item, and none otherwise, never closing a list it did not open |
| Publish.StrayCloseAsWritten | bin/publish.py:224 | when the last kept line is not an item, the file as written closes a list that is not open |
| Publish.DocumentWellNested | bin/publish.py:200-226 | closing the last list only when one is open gives a well-nested file, the same as the file as written whenever a list is open at the end |
| Publish.Text2Html.constructor | bin/publish.py:176-180 | a converter holds the text, the first relevant column, the line filter, the title and the prolog, and has written nothing |
| Publish.Text2Html.Run | bin/publish.py:200-226 | appends the head, the prolog, the body built from the kept lines and a closing that closes the last list only when it is open |
| Backups.SplitExt | bin/backup.py:132 | the stem and the extension make up the name, and the extension is empty or starts with `.` |
| Backups.GetDate | bin/backup.py:120-123 | a readable date has six parts |
| Backups.GetDateRoundTrip | bin/backup.py:120-123 | the date in the name repozo gives a backup is read back by `getDate` |
| Backups.NewestFullDefined | bin/backup.py:129-137 | the first loop finds a threshold exactly when every full backup has a readable date |
| Backups.NewestFullSpec | bin/backup.py:129-137 | the threshold is not earlier than 1980/01/01 nor than any full backup, and it is 1980/01/01 or the date of one of the full backups |
| Backups.NewestUnique | bin/backup.py:129-137 | there is only one such newest date |
| Backups.RemovalSpec | bin/backup.py:141-146 | the second loop only removes files; it completes exactly when every file has a readable date, and then keeps exactly the files not older than the threshold |
| Backups.RemovalKeepsAll | bin/backup.py:141-146 | when no file is older than the threshold, nothing is removed |
| Backups.PruneTwice | bin/backup.py:125-146 | a second run after a complete one finds the same threshold and removes nothing |
| Backups.NewestKept | bin/backup.py:141-146 | the newest full backup is never removed |
| Backups.ZodbBackuper.constructor | bin/backup.py:22-25 | the backuper sees the given backup folder listing |
| Backups.ZodbBackuper.RemoveOldBackups | bin/backup.py:125-146 | an unreadable full backup name stops the first loop with nothing removed; otherwise the folder becomes what `Removal` keeps with the newest full backup's date as threshold |
| Backups.ZodbBackuper.RemoveOlderThan | bin/backup.py:141-146 | the loop removes the files older than the threshold, stopping at the first name that is not a date |
| Backups.SplitMax | bin/backup.py:156 | `split(':', 3)` gives at most four parts |
| Backups.SmtpCuts | bin/backup.py:156 | `server:port:login:password` is cut into its four parts, the password kept whole even with colons in it |
| Backups.SmtpRoundTrip | bin/backup.py:156-166 | `server:port` gives that server and port without login, and `server:port:login:password` gives all four |
| Backups.ReadOnlyFolderCrashes | bin/backup.py:294-302 | as written, a backup folder where no file can be created makes the check stop with an uncaught IOError |
| Backups.CheckArgsSpec | bin/backup.py:278-317 | the corrected check passes exactly when every argument and option is valid, never crashes, and reports a folder where no file can be created as a BackupError |
| Backups.CommandAccepted | bin/backup.py:311-317 | a command of four `:`-separated parts, or five with the arguments, passes the format check |

## Left out

Outside the model altogether:

- Zope, Plone, Archetypes and CMF integration: installers, mixins other than the tool's, DC workflow creation, wrappers that only forward to Plone, and migrators. They are calls into frameworks whose code is not part of this model.
- Code generation by reflection and templating: the model and descriptor modules of the templates, `determineAppyType`, `walkModule`, `copyFile` and the many `exec`/`eval` calls. The generator's class order and labels are modelled on descriptor values instead.
- The PX templates and their parser, the ODT templates, and everything that only writes files.
- I/O, network and processes: WebDAV, mail, the LDAP `connect`/`search`/`getUser`/`synchronizeUsers` calls, UNO calls in both converters, zip files, shell commands and the other scripts in `bin/`.
- Floating point: formatted float values, the `%.2f%%` column widths, `OdtTable.dumpFloat`, and the difflib ratios behind `HtmlDiff.isSimilar`. Similarity is a `similar` parameter.
- `DateTime` parsing, catalogue queries, `REQUEST`/`SESSION`, `eval` in POD expressions and the side effects of `Transition.trigger`. They are parameters or uninterpreted functions.
- Browser concerns: `innerHTML` injection, `eval` of the scripts in an answer, popups, row insertion and deletion, and the asynchrony of requests beyond the slot bookkeeping. `onGet` callbacks are recorded, not run.
- Sample applications and the egg setup.

Operations and behaviour the model does not capture:

- Descriptors.WithBases: the depth of base classes is bounded by a `fuel` argument; at fuel 0 a base class contributes no attributes, where Python recurses without bound.
- Descriptors.Ordered: same `fuel` bound as WithBases.
- Descriptors.GetStateNames: requires every ordered attribute name to be an attribute of the class; for any other name the source's `getattr` raises.
- Descriptors.GetTransitionNames: requires every state a transition refers to to have a name in the class (`WellNamed`); the source raises otherwise.
- Descriptors.GetEndStateName: same `WellNamed` requirement as GetTransitionNames.
- Tool.GetUserName: `normalizeString` (shared/utils.py) is a parameter, and the translation of `anonymous` and the search for the user are given as arguments; shared/utils.py is not part of this model.
- Tool.GetDateTime: requires a month within 1..12 and a day of at least 1. Outside that range the source's day-decrementing loop never ends.
- Tool.GetDateTime: `DateTime` is a date and an `HH:MM` time; time zones and the string parsing are not modelled.
- Layout.Table.FromOther: requires a derived type of `view` or `cell`; for any other type `deriveLayout` raises a KeyError, which `DeriveLayout` returns as None.
- Fields.Field.constructor: requires a `mustIndex` that does not make the source raise; `MustIndexError` states when it does.
- Fields.IndexName: requires a non-empty field name; `name[0]` raises on an empty one, and Python attribute names are never empty.
- GenInit.IndexName: same non-empty name requirement as Fields.IndexName.
- AppyWrappers.GetIndexes: requires indexed fields to have non-empty names, for the same reason.
- AppyWrappers.AbstractWrapper.RemoveEvent: the event dicts shared with the workflow history are values here, so the aliasing of the source's in-place update is not captured.
- UserWrappers.Validate: the final `_callCustom('validate', new, errors)` (gen/wrappers/UserWrapper.py:89), which runs the application's own `validate` when its User class defines one and returns that method's result, is not modelled: that code belongs to the application, not to the framework; the model covers the password check that precedes it.
- UserWrappers.Validate: requires `password2` to be submitted whenever `password1` is; the source raises a KeyError otherwise.
- Po.PoFile.constructor: requires a file name the parser can split into application, domain and language; `ParseFileName` returns the IndexError the source raises otherwise.
- Po.PoParser.constructor: same file-name requirement as PoFile.constructor.
- Po.EntryLines: is the corrected entry, with the comments kept; the source's `generate` drops them whenever the default is set (every message here, see Findings), which `MessageTextAsWritten` models.
- Po.MessageText: same correction as EntryLines.
- Po.PoFile.GenerateMessages: writes each message with the corrected MessageText, comments included.
- Po.PoFile.Generate: same correction as GenerateMessages.
- Po.WrittenRead: holds for the corrected text; for the text as written it holds only for messages without comments (AsWrittenLosesComments).
- Po: a `None` default text or msgid is modelled as the empty string. The source writes no default line and keeps the comments for None.
- Po: a file with the same msgid twice keeps one entry per id, as the source's dict does, but its list of messages is not modelled for that case.
- Testing.Tester.RunSuite: requires both tables of the suite to exist with equal lengths; its caller `RunSuiteRow` checks this first and returns the error.
- Testing.CompareReport: difflib's report lines are not modelled; only the comparison that decides equality is.
- Xhtml2Odt.XhtmlParser.StartElement: requires what the source needs not to raise. Examples are a list item inside a list, a cell inside a table and an integer `colspan`.
- Xhtml2Odt.XhtmlParser.EndElement: requires an end tag matching the element being closed; the source raises otherwise.
- Xhtml2Odt: SAX parsing, entities, encodings and the `checkStylesAdequation` step are not modelled. Attributes arrive in `keys()` order, and stacked elements are values.
- PodActions.Action.DoVariables: requires the names of a definition to be distinct; the source's dict keeps the last value, and that case is not modelled.
- PodActions.Action.Execute: same distinct-names requirement as DoVariables.
- HtmlDiffs: `getHtmlDiff` itself is not modelled. It relies on difflib's SequenceMatcher, and only `getSeqDiff` and `getStringDiff` are modelled.
- Css.CssValue: it always raises (it unpacks a match object), so parsed styles carry no width or height.
- Plone25Utils.StringifyValue: `stringify` first evaluates `str(value)` on every scalar, strings included (gen/plone25/utils.py:13), which in Python 2 raises `UnicodeEncodeError` for a unicode string holding a non-ASCII character; the model does not tell unicode from byte strings and writes such a string like any other.
- Plone25Utils: `updateRolesForPermission` (Zope permissions) and `checkTransitionGuard`, which refers to undefined names, are not modelled.
- Plone25Tool.GetReferenceLabel: the shown values come already turned into text. Removing XHTML tags and decoding UTF-8 are not modelled.
- Generators: the class name `getClassName` computes is a parameter of `AddReferer`.
- Generators.Generator.GenerateWorkflow: the confirmation text is a parameter, because the message the source names does not exist (see Findings).
- LdapConnectors: the LDAP attribute dict is read in declaration order. A missing group in `setLocalUser` and the tool's log are not modelled.
- GenInit.RefValidate: translating the message is left out; the message id is returned.
- BrowserPage.Page.CreateCookie: the optional `days` argument and the expiry date derived from it and the clock are not modelled.
- JsEscape: `unescape` of a lone surrogate half yields that code unit; JavaScript strings are sequences of UTF-16 units here.
- BrowserPage.ShowTabShape: a tab count that `Number()` cannot read (NaN) makes the hiding loop run zero times; only decimal digit strings are read as numbers.
- CalendarScripts.EnableOptions: the `select` element is an array of option records; the inherited names are those of `Object.prototype` in ECMAScript 5, without the names a page's own scripts may add to it.
- CalendarScripts.JsParseIntPrefix: before the number, the ASCII blanks and U+00A0, U+FEFF, U+2028 and U+2029 are skipped; the other Unicode space separators `parseInt` also skips are not.
- Slaves.UpdateSlaves: the slaves are given as a list of class names rather than found by a CSS selector on the page.
- AjaxPool.AcquiredRequest: the `for ... in` loop over the parameters object is a list of name and value pairs in order; names inherited from the object's prototype are not modelled.
- Publish.FolderProxies.Visit: models one turn of `createFolderProxies`'s outer loop; the FTP listing it reads is a parameter.
- Publish.FolderProxies.AddSubFolder: adds folders not yet in the table; folders are indices into a table rather than objects.
- Publish: FTP, `__str__`, `clean`, `publish` and `copyFile` are not modelled. An entry name holding spaces keeps only its last word, as in the source.
- Publish.Text2Html.Run: requires every retained line to reach `firstChar`, where the source would raise on a shorter line; `retainLine`, `firstChar`, the title and the prolog are parameters.
- Publish.AskQuestion: the printed question is not modelled, and `Text.Lower` folds ASCII letters only.
- Publish.IsDistExcluded: the None the source returns for a name that is not excluded is read as false, as its caller does.
- Backups.GetDate: only the `YYYYMMDD` digits are cut; `DateTime` range checks are not modelled.
- Backups: logging, `packZodb`, `run`, `backupLogs`, the SMTP dialogue of `sendEmails`, `removeTempFiles` and the time-based name of the temporary file are not modelled.
- Backups.ZodbBackuper.RemoveOldBackups: the directory listing is one parameter, read by both of its loops.
- Backups.CheckArgs: an option given as the empty string counts as not given.

## Findings

| source | as written | input that shows it | evidently intended | confidence | as-written member | corrected member |
|---|---|---|---|---|---|---|
| fields/search.py:396-403 | `showCheckboxes` reads `self.initiator`, which only `setInitiator` creates | a search with checkboxes shown outside a popup (no initiator) raises AttributeError | no initiator means the search's own checkboxes setting applies | medium, not executed | Searches.CheckboxesWithoutInitiatorFail | Searches.UiSearch.ShowCheckboxes |
| fields/calendar.py:759-764 | the recursive call for the next days of a span passes only `handleEventSpan`, so the type is read again from the request | an explicit type, a span of 1 and a request without `eventType` raise KeyError after the first day | every day of the span gets the explicit type | high, not executed | FieldCalendar.CreatedAsWrittenLosesType | FieldCalendar.CreateEvent |
| gen/plone25/mixins/ToolMixin.py:108-130 | an empty intersection is falsy, so the next type restarts the result | types `A,B`, where `A` has no column and `B` has `y`, give `[y]` | the columns every type has in common (here none) | medium, not executed | Plone25Tool.ResultColumnsResetExample | Plone25Tool.ResultColumnsCommon |
| gen/generator.py:900-905 | the label of a confirmed transition uses `PoMessage.CONFIRM`, which gen/po.py does not define | one transition with `confirm=True` makes the generation raise AttributeError | a confirmation label with a defined default text | high, not executed | Generators.ConfirmTransitionFails | Generators.Generator.GenerateWorkflow |
| gen/wrappers/UserWrapper.py:28-36 | `validateLogin` translates `login_in_use` but does not return it | login `jdoe`, already held by one user, is accepted | a login already in use is refused | high, not executed | UserWrappers.LoginInUseAccepted | UserWrappers.ValidateLogin |
| shared/diff.py:60-65 | the first loop indexes both lines until they differ, past the end of the shorter one | similar lines `ab` and `abc` raise IndexError | the loop stops at the shorter line's end | high, not executed | HtmlDiffs.PrefixLineFails | HtmlDiffs.GetStringDiff |
| gen/plone25/utils.py:17-19 | `stringify` escapes quotes and newlines but not backslashes | the value `\n` (backslash, n) reads back as a newline | the written literal reads back as the value | high, not executed | Plone25Utils.BackslashNotKept | Plone25Utils.StringRoundTrip |
| appy/shared/ldap_connector.py:255-258 | values go into the filter unescaped (section 3 of RFC 4515) | the login `x)(uid=*` gives the filter of `uid=x` and `uid=*` | parentheses, backslash and NUL in a value are escaped | medium, not executed | LdapConnectors.GetFilterInjection | LdapConnectors.EscapedFilterRoundTrip |
| bin/publish.py:224 | the page always ends with `</ul>` | a text whose last kept line is not an item gets a `</ul>` with no open list | the last list is closed only when it is open | high, not executed | Publish.StrayCloseAsWritten | Publish.DocumentWellNested |
| gen/ui/calendar.js:93-102 | the span is checked with `parseInt`, which reads a number prefix | spans `3x` and `1 2` are sent, and the server's `int()` rejects them (fields/calendar.py:761) | only spans the server can read are sent | medium, not executed | CalendarScripts.TriggerAcceptsUnreadableSpan | CalendarScripts.CheckedOutcomeSpec |
| gen/ui/appy.js:264-276 | `getSlaveInfo` looks for a class starting with `slave_` | the class `slave*master*v` that fields/__init__.py writes is not found, so `updateSlaves` fails | the class the field writes is read back | high, not executed | Slaves.SlaveCssUnread | Slaves.SlaveInfoRoundTrip |
| bin/backup.py:294-302 | the write check catches only `OSError` | a backup folder where no file can be created stops the script with an uncaught IOError | the failure is reported as a BackupError | medium, not executed | Backups.ReadOnlyFolderCrashes | Backups.CheckArgsSpec |
| pod/converter.py:85-92 | the write probe catches only `OSError` | a document whose result file cannot be created makes the constructor stop with an uncaught IOError | the failure is reported as the `CANNOT_WRITE_RESULT` ConverterError | medium, not executed | OdtConverters.UnwritableResultEscapes | OdtConverters.NewConverter |
| gen/po.py:151-155 | `generate` collects the comments, then `res = ` for the default line replaces them instead of appending to them | a message with the comment `# note` and a default is written without `# note`, and reading the file back loses it | the comments come before the default line, as the parser expects them | high, not executed | Po.AsWrittenLosesComments | Po.WrittenRead |
