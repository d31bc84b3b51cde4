# SQL Workbench/J core, modelled in Dafny

This project models a set of core components of SQL Workbench/J, a
DBMS-independent SQL query tool written in Java, and proves properties of
them. Every Java source file below has its own Dafny module.

- **Connection profiles and groups.**
  - `ProfileKeys`: the key that names a profile, written `{group/path}/name`. Covers its parser, its printed form and its equality.
  - `ProfileGroupMaps`: the bucketing of profiles by group path.
  - `GroupNodes`: the profile tree of the connection dialog. Covers its path and lookup operations and renaming a group.
  - `ProfileLists`: the profile list model. Covers filtering, deleting profiles and copying profiles into a group under unique names.
- **Import statements.**
  - `ImportGates` and `ImportBuilder` model the DML statement builder used by the data importer. It builds INSERT, insert-ignore and upsert/MERGE statements per DBMS.
  - `ImportDml` holds the specification functions.
  - `ImportDmlProps` holds the properties of those statements.
- **Macros.**
  - `MacroGroups`: a macro group with its sort order.
  - `MacroStorages`: the macro storage, which adds, moves, removes and renumbers macros and looks them up by name.
- **Workspaces.**
  - `Workspaces`: the workspace file with its open, save and close life cycle.
  - `WorkspaceTabs`: the per-tab settings stored in the tab properties, and the count of tabs.
- **DBMS-specific source text.**
  - `Db2TableSources`: the tablespace and compression options of a DB2 table's source.
  - `DuckDbSequences`: DuckDB sequence definitions.
- **Parsing helpers.**
  - `DdlObjects`: the type and names of a DDL statement.
  - `PkMappings`: the user-defined primary key mapping.
  - `KeepAlive`: parsing and display of keep-alive intervals.
  - `UnicodeReaders`: byte-order-mark detection.
  - `ZipFiles`: ZIP/GZIP sniffing.
  - `LobFileParameters`: the `{$blobfile=...}` markers of LOB-file statements.
  - `FileEvents`: file events.

Two modules hold shared helpers: `Text` for Java string operations and
`Seqs` for sequence filters, maps and the stable sort.

**Form of the model.**
- Classes whose fields the Java code updates in place are Dafny classes
  with `modifies` frames. These are `ImportDMLStatementBuilder`,
  `MacroGroup`, `MacroStorage`, `ProfileGroupMap`, `ProfileListModel`,
  `WbWorkspace`, `UnicodeReader`, `PkMapping`, `DdlObjectInfo`,
  `LobFileParameterParser` and `FileEvent`.
- Their loop methods are proved equal to specification functions, and the
  properties are proved about those functions.
- Value types are datatypes.
- Java `int` and `long` arithmetic is written out with explicit wrap-around
  where the code relies on it: keep-alive intervals and `String.hashCode`.

**Parameters.** Collaborators that are not part of this model are passed in
as parameters:
- quoting of identifiers;
- the DBMS metadata answers;
- the CSV splitter of group paths;
- the string tokenizer of LOB markers;
- file-system and clipboard answers;
- the bytes a stream delivers.

## Model

| member | source | states |
|---|---|---|
| ConnectionProfiles.WithGroups | workbench/src/main/java/workbench/gui/profiles/GroupNode.java:108 | Regrouping a profile sets its group path; the group-change mark is set exactly when it was already set or the new path differs from the old one; no other field changes. (See also lines ProfileListModel.java:562-566, ProfileListModel.java:646.) |
| ProfileKeys.RemoveLeading | workbench/src/main/java/workbench/gui/profiles/ProfileKey.java:160 | The result is a suffix of the input, all the dropped characters are the given one, and the result does not start with it. |
| ProfileKeys.RemoveTrailing | workbench/src/main/java/workbench/gui/profiles/ProfileKey.java:161 | The result is a prefix of the input, all the dropped characters are the given one, and the result does not end with it. |
| ProfileKeys.ParseGroupPath | workbench/src/main/java/workbench/gui/profiles/ProfileKey.java:155-164 | A blank path yields no groups. |
| ProfileKeys.ParseGroupPathIgnoresLeadingSlash | workbench/src/main/java/workbench/gui/profiles/ProfileKey.java:155-164 | An extra leading `/` on a non-blank path does not change the parsed groups. |
| ProfileKeys.ParseGroupPathIgnoresTrailingSlash | workbench/src/main/java/workbench/gui/profiles/ProfileKey.java:155-164 | An extra trailing `/` on a non-blank path does not change the parsed groups. |
| ProfileKeys.StripAppendSlash | workbench/src/main/java/workbench/gui/profiles/ProfileKey.java:160-161 | Stripping the slashes at both ends gives the same text with or without one more trailing `/`. |
| ProfileKeys.RemoveTrailingAppendSlash | workbench/src/main/java/workbench/gui/profiles/ProfileKey.java:161 | One more trailing `/` is removed along with the others. |
| ProfileKeys.AllSlashes | workbench/src/main/java/workbench/gui/profiles/ProfileKey.java:160 | Text made only of slashes is stripped to nothing. |
| ProfileKeys.RemoveLeadingAppendSlash | workbench/src/main/java/workbench/gui/profiles/ProfileKey.java:160 | If the text holds something other than `/`, the appended `/` survives leading-slash removal. |
| ProfileKeys.EscapeItem | workbench/src/main/java/workbench/gui/profiles/ProfileKey.java:144-150 | An item with neither `/` nor `"` is unchanged; an item with `/` comes out wrapped in double quotes; a non-empty item stays non-empty. |
| ProfileKeys.GetGroupPathEscaped | workbench/src/main/java/workbench/gui/profiles/ProfileKey.java:135-153 | A missing path gives the empty text; otherwise the result is the escaped path. |
| ProfileKeys.AppendEscaped | workbench/src/main/java/workbench/gui/profiles/ProfileKey.java:142-150 | One loop step appends exactly the escaped item. |
| ProfileKeys.EscapedPathJoins | workbench/src/main/java/workbench/gui/profiles/ProfileKey.java:135-153 | If no group name is empty, the escaped path is the escaped items joined by `/`. |
| ProfileKeys.EscapedPathNonEmpty | workbench/src/main/java/workbench/gui/profiles/ProfileKey.java:135-153 | A path whose last group name is non-empty escapes to non-empty text. |
| ProfileKeys.EscapedPathSkipsEmptyFirst | workbench/src/main/java/workbench/gui/profiles/ProfileKey.java:142 | An empty first group name swallows the `/` after it (`["", "a"]` escapes to `a`, whereas joining gives `/a`). |
| ProfileKeys.ParseNameAndGroup | workbench/src/main/java/workbench/gui/profiles/ProfileKey.java:102-128 | The result is an error exactly when `{` has no matching `}`, with that message; without a leading `{` parsing succeeds and the name holds no `/`. |
| ProfileKeys.ParseBraced | workbench/src/main/java/workbench/gui/profiles/ProfileKey.java:107-116 | The braced form fails exactly when `}` is missing, with the missing-brace message. |
| ProfileKeys.ParseUnbraced | workbench/src/main/java/workbench/gui/profiles/ProfileKey.java:117-127 | The name after the last `/` contains no `/`; text without any `/` is the whole name with no groups. |
| ProfileKeys.NewKey | workbench/src/main/java/workbench/gui/profiles/ProfileKey.java:55-59 | A blank name is refused with its own error; the key fails exactly for a blank name or a missing `}`. |
| ProfileKeys.NewKeyWithPath | workbench/src/main/java/workbench/gui/profiles/ProfileKey.java:61-83 | Errors in the name pass through. The path is ignored when it is blank. The path only fills in groups when the name had none. A name whose groups differ from the path is refused. |
| ProfileKeys.NewKeyWithGroups | workbench/src/main/java/workbench/gui/profiles/ProfileKey.java:91-100 | The key fails exactly for a blank name; otherwise the name is trimmed and non-blank, and missing groups mean none. |
| ProfileKeys.GroupOnlyGivesEmptyName | workbench/src/main/java/workbench/gui/profiles/ProfileKey.java:55-59 | `{g}` passes the blank check and yields a key whose name is empty. |
| ProfileKeys.KeyText | workbench/src/main/java/workbench/gui/profiles/ProfileKey.java:182-186 | A key without groups prints as its name; a key with groups prints starting with `{`. |
| ProfileKeys.GroupPathAsString | workbench/src/main/java/workbench/gui/profiles/ProfileKey.java:130-133 | The group names joined by `/`, with no escaping. |
| ProfileKeys.PlainKeyRoundTrip | workbench/src/main/java/workbench/gui/profiles/ProfileKey.java:182-186 | A key without groups, whose name is a plain word, parses back from its printed text. |
| ProfileKeys.GroupedTextAt | workbench/src/main/java/workbench/gui/profiles/ProfileKey.java:185 | Position of each part of `{path}/name` in the printed text. |
| ProfileKeys.GroupedTextParts | workbench/src/main/java/workbench/gui/profiles/ProfileKey.java:109-111 | In `{path}/name` the first `}` and the following `/` are found right after the path. |
| ProfileKeys.NoCloseBefore | workbench/src/main/java/workbench/gui/profiles/ProfileKey.java:109 | If the path holds no `}`, nothing before the closing brace is a `}`. |
| ProfileKeys.BracedParse | workbench/src/main/java/workbench/gui/profiles/ProfileKey.java:107-116 | `{path}/name` parses to the trimmed name and the parsed path. |
| ProfileKeys.PlainPathParse | workbench/src/main/java/workbench/gui/profiles/ProfileKey.java:155-164 | A path with no slashes or white space at its ends reaches the splitter unchanged. |
| ProfileKeys.GroupedKeyRoundTrip | workbench/src/main/java/workbench/gui/profiles/ProfileKey.java:182-186 | A key with groups whose path prints and parses back reads back from its printed text. |
| ProfileKeys.KeyEqualsReflexiveSymmetric | workbench/src/main/java/workbench/gui/profiles/ProfileKey.java:195-209 | Key equality is reflexive and symmetric. |
| ProfileKeys.KeyEquals | workbench/src/main/java/workbench/gui/profiles/ProfileKey.java:195-209 | Keys are equal exactly when the names agree case-sensitively and either key has no groups or both have the same groups. |
| ProfileKeys.KeyHashAsWritten | workbench/src/main/java/workbench/gui/profiles/ProfileKey.java:189-192 | The hash code is `String.hashCode` of the printed key, groups included. |
| ProfileKeys.KeyEqualsNotTransitive | workbench/src/main/java/workbench/gui/profiles/ProfileKey.java:195-209 | Key equality is not transitive: a key without groups equals two keys in different groups that differ from each other. |
| ProfileKeys.JavaHash | workbench/src/main/java/workbench/gui/profiles/ProfileKey.java:189-192 | `String.hashCode` modelled as an unsigned 32-bit value. |
| ProfileKeys.EqualKeysHashApart | workbench/src/main/java/workbench/gui/profiles/ProfileKey.java:189-209 | As written, two keys that are equal can have different hash codes. |
| ProfileKeys.KeyHashAgreesWithEquals | workbench/src/main/java/workbench/gui/profiles/ProfileKey.java:195-209 | Under the corrected hash (the name's hash), equal keys hash alike. |
| ConnectionProfiles.SetNew | workbench/src/main/java/workbench/gui/profiles/ProfileListModel.java:645 | A profile marked new counts as changed; no other field changes. |
| ProfileGroupMaps.IntCompare | workbench/src/main/java/workbench/db/ProfileGroupMap.java:59 | `Integer.compare` is negative exactly when the first is smaller, zero exactly when they are equal, and lies in -1..1. |
| ProfileGroupMaps.ComparePaths | workbench/src/main/java/workbench/db/ProfileGroupMap.java:47-61 | The comparator loop computes the path comparison function. |
| ProfileGroupMaps.SamePathEquivalence | workbench/src/main/java/workbench/db/ProfileGroupMap.java:47-61 | Equality of paths ignoring case is reflexive, symmetric and transitive. |
| ProfileGroupMaps.SamePathStep | workbench/src/main/java/workbench/db/ProfileGroupMap.java:51-58 | Two non-empty paths are equal ignoring case iff their heads are and their tails are. |
| ProfileGroupMaps.PathCompareZero | workbench/src/main/java/workbench/db/ProfileGroupMap.java:47-61 | The comparator returns zero exactly for paths equal ignoring case. |
| ProfileGroupMaps.PathCompareAntisym | workbench/src/main/java/workbench/db/ProfileGroupMap.java:47-61 | Swapping the arguments negates the comparator's value. |
| ProfileGroupMaps.PathCompareCongruent | workbench/src/main/java/workbench/db/ProfileGroupMap.java:47-61 | Paths equal ignoring case compare alike against any third path. |
| ProfileGroupMaps.PathCompareTrans | workbench/src/main/java/workbench/db/ProfileGroupMap.java:47-61 | The comparator's ordering is transitive. |
| ProfileGroupMaps.PathCompareStrictTrans | workbench/src/main/java/workbench/db/ProfileGroupMap.java:47-61 | Sorting strictly before is transitive through a non-strict step. |
| ProfileGroupMaps.PrefixSortsFirst | workbench/src/main/java/workbench/db/ProfileGroupMap.java:59 | A proper prefix sorts before each of its extensions (the size comparison decides). |
| ProfileGroupMaps.NoBucketBelow | workbench/src/main/java/workbench/db/ProfileGroupMap.java:33-45 | A path that sorts before every key has no bucket. |
| ProfileGroupMaps.AboveFirstKey | workbench/src/main/java/workbench/db/ProfileGroupMap.java:33-45 | In sorted buckets, a bound below the first key is below every key. |
| ProfileGroupMaps.AddToAbove | workbench/src/main/java/workbench/db/ProfileGroupMap.java:42-43 | Adding a profile keeps every key above a bound that the old keys and the new path are above. |
| ProfileGroupMaps.AddToSorted | workbench/src/main/java/workbench/db/ProfileGroupMap.java:42-43 | Adding a profile keeps the bucket keys sorted by the comparator. |
| ProfileGroupMaps.AddToKeyedByFirst | workbench/src/main/java/workbench/db/ProfileGroupMap.java:42-43 | Adding a profile keeps each bucket keyed by the path of its first member. |
| ProfileGroupMaps.AddToMembersAt | workbench/src/main/java/workbench/db/ProfileGroupMap.java:42-43 | Adding a profile appends it to exactly the bucket of its path (ignoring case) and to no other. |
| ProfileGroupMaps.AddToTotal | workbench/src/main/java/workbench/db/ProfileGroupMap.java:42-43 | Adding a profile raises the total number of members by one. |
| ProfileGroupMaps.MembersAtKey | workbench/src/main/java/workbench/db/ProfileGroupMap.java:33-45 | In sorted buckets, looking up a bucket's own key finds that bucket. |
| ProfileGroupMaps.MembersAtFound | workbench/src/main/java/workbench/db/ProfileGroupMap.java:33-45 | A profile found under a path sits in a bucket whose key equals that path ignoring case. |
| ProfileGroupMaps.GroupedWellFormed | workbench/src/main/java/workbench/db/ProfileGroupMap.java:36-45 | The map built from a profile list has sorted keys, each keyed by its first member. |
| ProfileGroupMaps.GroupedMembers | workbench/src/main/java/workbench/db/ProfileGroupMap.java:36-45 | Under any path the map holds exactly the input profiles on that path (ignoring case), in input order. |
| ProfileGroupMaps.GroupedTotal | workbench/src/main/java/workbench/db/ProfileGroupMap.java:36-45 | The bucket sizes add up to the number of input profiles. |
| ProfileGroupMaps.BucketContents | workbench/src/main/java/workbench/db/ProfileGroupMap.java:36-45 | Each bucket holds exactly the input profiles on its key's path, in input order. |
| ProfileGroupMaps.ExactlyOneBucket | workbench/src/main/java/workbench/db/ProfileGroupMap.java:36-45 | Every input profile sits in exactly one bucket. |
| ProfileGroupMaps.OnlyBucketOf | workbench/src/main/java/workbench/db/ProfileGroupMap.java:36-45 | Two buckets holding the same profile are the same bucket. |
| ProfileGroupMaps.SamePathSameBucket | workbench/src/main/java/workbench/db/ProfileGroupMap.java:36-45 | Profiles whose paths differ only in case share a bucket. |
| ProfileGroupMaps.ProfileGroupMap.constructor | workbench/src/main/java/workbench/db/ProfileGroupMap.java:36-45 | The constructor puts every profile into the bucket of its path, in list order. |
| ProfileGroupMaps.ProfileGroupMap.Add | workbench/src/main/java/workbench/db/ProfileGroupMap.java:41-43 | `computeIfAbsent(...).add(profile)` updates the buckets as the insertion function does. |
| ProfileGroupMaps.FindSlot | workbench/src/main/java/workbench/db/ProfileGroupMap.java:42 | The tree-map search stops at the first key the path does not sort after, and reports the comparison there. |
| ProfileGroupMaps.AddToSplit | workbench/src/main/java/workbench/db/ProfileGroupMap.java:42 | Adding skips every leading key the path sorts after. |
| ProfileGroupMaps.AddToPast | workbench/src/main/java/workbench/db/ProfileGroupMap.java:42 | Adding passes over one key the path sorts after. |
| ProfileGroupMaps.AddToAt | workbench/src/main/java/workbench/db/ProfileGroupMap.java:42-43 | Where the search stopped: an equal key gets the profile appended; otherwise a new bucket is inserted there. |
| GroupNodes.GetGroupPath | workbench/src/main/java/workbench/gui/profiles/GroupNode.java:265-284 | The loop builds exactly the path function: the ancestors' names outermost first, skipping dummy roots, then the group's own name. |
| GroupNodes.GroupPathEndsWithName | workbench/src/main/java/workbench/gui/profiles/GroupNode.java:265-268 | A group path is never empty and ends with the group's own name. |
| GroupNodes.ChildPathExtendsParent | workbench/src/main/java/workbench/gui/profiles/GroupNode.java:270-282 | A child's path is its parent's path plus its own name; below a dummy root the dummy's name is not part of it. |
| GroupNodes.TopLevelPath | workbench/src/main/java/workbench/gui/profiles/GroupNode.java:276-279 | A group directly below the dummy root has only its own name as path. |
| GroupNodes.GetFirstProfileIndex | workbench/src/main/java/workbench/gui/profiles/GroupNode.java:55-64 | The result is the index of the first child that is a profile, every earlier child being a group, and -1 exactly when all children are groups. |
| GroupNodes.ContainsGroup | workbench/src/main/java/workbench/gui/profiles/GroupNode.java:141-154 | True exactly when a name is given and some direct child group carries exactly that name. |
| GroupNodes.ContainsProfile | workbench/src/main/java/workbench/gui/profiles/GroupNode.java:156-173 | True exactly when a profile is given and it is one of the direct profile children. |
| GroupNodes.ChildGroupIndex | workbench/src/main/java/workbench/gui/profiles/GroupNode.java:191-207 | The index of the first direct child group with exactly that name, or -1 when none has it. |
| GroupNodes.FindChildGroup | workbench/src/main/java/workbench/gui/profiles/GroupNode.java:191-207 | The scan over the children returns the first child group with that name, or -1. |
| GroupNodes.ProfilesInOrder | workbench/src/main/java/workbench/gui/profiles/GroupNode.java:74-91 | The profiles of child i come after those of the earlier children and before those of the later ones. |
| GroupNodes.CollectProfiles | workbench/src/main/java/workbench/gui/profiles/GroupNode.java:69-91 | The recursive collection returns every profile below the group, depth first in child order. |
| GroupNodes.FindFirstProfileIsFirst | workbench/src/main/java/workbench/gui/profiles/GroupNode.java:117-139 | A profile that `findFirstProfile` returns is the first of all profiles below the group. |
| GroupNodes.EmptyFirstGroupHidesProfiles | workbench/src/main/java/workbench/gui/profiles/GroupNode.java:133-136 | Because the loop returns on the first sub-group, an empty first sub-group makes it find nothing although a profile follows. |
| GroupNodes.PathAtReachesGroup | workbench/src/main/java/workbench/gui/profiles/GroupNode.java:241-284 | An address reaches a path exactly when it reaches a group, and that path is the group's own group path. |
| GroupNodes.Locate | workbench/src/main/java/workbench/gui/profiles/GroupNode.java:178-183 | The first child group with that name is reused; only when none exists is a new ordinary group appended, and the other children are unchanged. |
| GroupNodes.LocateFound | workbench/src/main/java/workbench/gui/profiles/GroupNode.java:178-183 | An existing child group with that name leaves the children as they are and is found at its index. |
| GroupNodes.GetOrCreatePath | workbench/src/main/java/workbench/gui/profiles/GroupNode.java:175-189 | Nothing for an empty path; otherwise the group keeps its name and kind and the address has one step per path name. |
| GroupNodes.GetOrCreateReachesPath | workbench/src/main/java/workbench/gui/profiles/GroupNode.java:175-189 | The group reached carries the receiver's own path extended by the requested names. |
| GroupNodes.GetOrCreateNoDummy | workbench/src/main/java/workbench/gui/profiles/GroupNode.java:181 | Every group `getOrCreatePath` creates is an ordinary (non-dummy) group. |
| GroupNodes.GetOrCreateFromRoot | workbench/src/main/java/workbench/gui/profiles/GroupNode.java:175-189 | Called on the dummy root, the group reached has exactly the requested path. |
| GroupNodes.GetOrCreateIdempotent | workbench/src/main/java/workbench/gui/profiles/GroupNode.java:175-189 | Asking again for the same path changes nothing and reaches the same group. |
| GroupNodes.FindGroupNodeSound | workbench/src/main/java/workbench/gui/profiles/GroupNode.java:241-263 | A group that `findGroupNode` returns has exactly the requested path. |
| GroupNodes.FindGroupNodeComplete | workbench/src/main/java/workbench/gui/profiles/GroupNode.java:241-263 | Without dummy groups below, every group strictly below the receiver is found by its own path. |
| GroupNodes.PathAtLength | workbench/src/main/java/workbench/gui/profiles/GroupNode.java:265-284 | Below an ordinary group every address step adds exactly one name to the path. |
| GroupNodes.LastProfileIndex | workbench/src/main/java/workbench/gui/profiles/GroupNode.java:224-236 | The scan keeps the last direct child equal to the profile, and -1 exactly when there is none. |
| GroupNodes.GetProfilePath | workbench/src/main/java/workbench/gui/profiles/GroupNode.java:217-239 | Nothing for a missing profile or a group path that is not found; otherwise the address of the found group followed by the last matching child, which equals the profile. |
| GroupNodes.AssignGroupsProfiles | workbench/src/main/java/workbench/gui/profiles/GroupNode.java:98-115 | The as-written update keeps the profiles in place and gives every one of them the same path, however deep it lies. |
| GroupNodes.NestedProfileLosesSubgroup | workbench/src/main/java/workbench/gui/profiles/GroupNode.java:98-115 | As written, a profile in sub-group b of a receives the path [a] although its group's path is [a, b]. |
| GroupNodes.RegroupPlacesProfiles | workbench/src/main/java/workbench/gui/profiles/GroupNode.java:98-115 | The corrected update keeps the profiles in place with all other fields, and each carries the path of the group that holds it. |
| GroupNodes.NestedProfileKeepsSubgroup | workbench/src/main/java/workbench/gui/profiles/GroupNode.java:98-115 | With the corrected update the profile in sub-group b of a receives [a, b]. |
| GroupNodes.SetName | workbench/src/main/java/workbench/gui/profiles/GroupNode.java:49-53 | The renamed group has the new name and keeps its kind. |
| GroupNodes.SetNameFlattensPaths | workbench/src/main/java/workbench/gui/profiles/GroupNode.java:49-53 | As written, after a rename every profile below, however deep, receives the renamed group's own path. |
| GroupNodes.SetNameCorrected | workbench/src/main/java/workbench/gui/profiles/GroupNode.java:49-53 | The renamed group has the new name and keeps its kind, with the corrected profile update. |
| GroupNodes.SetNameMovesProfiles | workbench/src/main/java/workbench/gui/profiles/GroupNode.java:49-53 | After the corrected rename every profile below carries the path of its group under the new name, all else unchanged. |
| ProfileLists.ResetFlags | workbench/src/main/java/workbench/gui/profiles/ProfileListModel.java:461-468 | A reset profile is neither edited, nor regrouped, nor new, so it no longer counts as changed; its other fields are unchanged. |
| ProfileLists.Split | workbench/src/main/java/workbench/gui/profiles/ProfileListModel.java:176-222 | One pass keeps, in order, the profiles the test accepts and moves the others, in order, to the second list; together they are a permutation of the input. |
| ProfileLists.ProfileListModel.constructor | workbench/src/main/java/workbench/gui/profiles/ProfileListModel.java:72-81 | The model holds the given profiles, nothing hidden and nothing deleted. |
| ProfileLists.ProfileListModel.GetAllProfiles | workbench/src/main/java/workbench/gui/profiles/ProfileListModel.java:470-482 | The visible profiles followed by the hidden ones, nothing else. |
| ProfileLists.ProfileListModel.IsFiltered | workbench/src/main/java/workbench/gui/profiles/ProfileListModel.java:149-152 | The list is filtered exactly when some profile is hidden. |
| ProfileLists.ProfileListModel.IsChanged | workbench/src/main/java/workbench/gui/profiles/ProfileListModel.java:225-246 | Changed exactly when a profile was deleted or some visible or hidden profile is edited, new or regrouped. |
| ProfileLists.ProfileListModel.ResetFilter | workbench/src/main/java/workbench/gui/profiles/ProfileListModel.java:169-174 | Every hidden profile becomes visible after the visible ones; the model is then unfiltered and holds the same profiles. |
| ProfileLists.ProfileListModel.ApplyTagFilter | workbench/src/main/java/workbench/gui/profiles/ProfileListModel.java:176-194 | After restoring, a missing or empty tag set hides nothing; otherwise exactly the profiles lacking one of the tags are hidden, in order, and the model still holds the same profiles. |
| ProfileLists.ProfileListModel.ApplyNameFilter | workbench/src/main/java/workbench/gui/profiles/ProfileListModel.java:196-223 | After restoring, a missing or blank value hides nothing; otherwise exactly the profiles whose lower-cased name (or, where the settings say so, URL or user) does not contain the lower-cased value are hidden, in order. |
| ProfileLists.ProfileListModel.DeleteProfile | workbench/src/main/java/workbench/gui/profiles/ProfileListModel.java:370-378 | The first equal visible profile is removed; the deletion flag is set exactly when one was there; hidden profiles are unchanged. |
| ProfileLists.ProfileListModel.ResetChanged | workbench/src/main/java/workbench/gui/profiles/ProfileListModel.java:461-468 | The visible profiles' flags are cleared and the deletion flag reset; hidden profiles keep theirs, so the model is changed afterwards exactly when a hidden profile is. |
| ProfileLists.ProfileListModel.CopyProfilesToGroup | workbench/src/main/java/workbench/gui/profiles/ProfileListModel.java:633-663 | Nothing for an empty list or a missing group. Otherwise the group gains one renamed copy per present profile, each marked new and carrying the group's path, and the visible list gains the same copies. The first copy is returned, and when there is one the list counts as changed. |
| ProfileLists.CopySuffixStart | workbench/src/main/java/workbench/gui/profiles/ProfileListModel.java:600-606 | A match is a parenthesised single digit or `+` closing the name. |
| ProfileLists.CountPrefixed | workbench/src/main/java/workbench/gui/profiles/ProfileListModel.java:608-623 | The loop counts the profile children whose lower-cased name starts with the plain name. |
| ProfileLists.AdjustCopiedProfileName | workbench/src/main/java/workbench/gui/profiles/ProfileListModel.java:594-631 | The copy is renamed against the group's children as the renaming function says. |
| ProfileLists.Adjusted | workbench/src/main/java/workbench/gui/profiles/ProfileListModel.java:594-631 | The renamed copy has a name and differs from the copy in nothing else. |
| ProfileLists.AddedCopies | workbench/src/main/java/workbench/gui/profiles/ProfileListModel.java:641-660 | The copies are the present dropped profiles, in order. Each is marked new and carries the group's path, with the group-change mark `setGroups` gives it. Apart from its name, each copy is its original after `setNew` and `setGroups`. |
| ProfileLists.CopiesFor | workbench/src/main/java/workbench/gui/profiles/ProfileListModel.java:641-660 | The loop produces exactly the copies the specification function describes. |
| ProfileLists.NoMatchKeepsName | workbench/src/main/java/workbench/gui/profiles/ProfileListModel.java:625-630 | With no child name starting with the plain name the copy keeps its name. |
| ProfileLists.RenamedEndsWithCount | workbench/src/main/java/workbench/gui/profiles/ProfileListModel.java:625-630 | A renamed copy ends with the count in parentheses, replacing a recognised suffix or appended after a blank. |
| ProfileLists.LongCountNotRecognised | workbench/src/main/java/workbench/gui/profiles/ProfileListModel.java:600 | Counts from ten on are not recognised as a copy suffix when the copy is copied again. |
| ProfileLists.ShortCountRecognised | workbench/src/main/java/workbench/gui/profiles/ProfileListModel.java:600-606 | A single-digit count is recognised as a copy suffix, so copying a copy replaces it. |
| ProfileLists.CopyNameMayRepeat | workbench/src/main/java/workbench/gui/profiles/ProfileListModel.java:594-631 | With "Foo" and "Foo (2)" in the group a copy of "Foo" is also named "Foo (2)": the renamed copy is not always new. |
| ProfileLists.CopyIsNewRegrouped | workbench/src/main/java/workbench/gui/profiles/ProfileListModel.java:643-646 | A copy is its original marked new and then regrouped to the path, so it counts as changed and carries the path. |
| ProfileLists.CopiesAreNew | workbench/src/main/java/workbench/gui/profiles/ProfileListModel.java:643-647 | Every copy added to the group counts as changed. |
| ProfileLists.CopyFields | workbench/src/main/java/workbench/gui/profiles/ProfileListModel.java:643-646 | Renaming a copy keeps the path, the new mark and every field except the name. (See also line 659.) |
| ProfileLists.CopiesSnoc | workbench/src/main/java/workbench/gui/profiles/ProfileListModel.java:641-660 | One more present profile adds one more copy with the path and the new mark, matching the original apart from its name. |
| MacroGroups.Renumbered | workbench/src/main/java/workbench/sql/macros/MacroGroup.java:171-175 | After renumbering, each macro's sort order is its position, nothing else changed. |
| MacroGroups.OrderLeTotal | workbench/src/main/java/workbench/sql/macros/MacroGroup.java:171 | The `Sorter` order on sort orders is total, so sorting by it is well defined. |
| MacroGroups.NameLeTotal | workbench/src/main/java/workbench/sql/macros/MacroGroup.java:144-150 | The case-insensitive name comparator of `sortByName` is total. |
| MacroGroups.RenumberedKeepsMacros | workbench/src/main/java/workbench/sql/macros/MacroGroup.java:171-175 | Renumbering changes only the sort orders: the same macros, in the same order. |
| MacroGroups.ArrangedSpec | workbench/src/main/java/workbench/sql/macros/MacroGroup.java:164-176 | After `applySort` the orders are exactly 0..n-1, the macros are a permutation of the input up to their order, and they follow the input's sort orders. |
| MacroGroups.ArrangedIdempotent | workbench/src/main/java/workbench/sql/macros/MacroGroup.java:164-176 | A second `applySort` leaves a sorted, renumbered list as it is. |
| MacroGroups.AddedIsListed | workbench/src/main/java/workbench/sql/macros/MacroGroup.java:129-134 | After `addMacro` the group has one more macro, numbered by position, and the new macro is among them. |
| MacroGroups.ReorderedPlacesLast | workbench/src/main/java/workbench/sql/macros/MacroGroup.java:106-110 | Giving a macro of a numbered list the order one past the list's size changes only that macro's order and puts it after every other macro. |
| MacroGroups.AddedSortsLast | workbench/src/main/java/workbench/sql/macros/MacroGroup.java:129-134 | A macro added to a group and then given the order one past the group's new size is listed with that order and sorts after every other macro of the group. (See also lines 380-383.) |
| MacroGroups.ArrangedByNameSpec | workbench/src/main/java/workbench/sql/macros/MacroGroup.java:142-157 | `sortByName` leaves the macros in case-insensitive name order, numbered by position, a permutation of the input. |
| MacroGroups.SortedPermutationOfNumbered | workbench/src/main/java/workbench/sql/macros/MacroGroup.java:164-176 | A list numbered 0..n-1 has only one sorted order: any sorted permutation of it is the list itself. |
| MacroGroups.FilterThenArrange | workbench/src/main/java/workbench/sql/macros/MacroGroup.java:403-432 | Splitting a renumbered list and sorting the two parts together again gives the list back. |
| MacroGroups.VisibleSizeCoversVisibleList | workbench/src/main/java/workbench/sql/macros/MacroGroup.java:358-373 | `getVisibleMacroSize` never undercounts `getVisibleMacros`, and overcounts whenever a visible macro is a DbTree macro. |
| MacroGroups.Renumber | workbench/src/main/java/workbench/sql/macros/MacroGroup.java:172-175 | The loop computes the renumbering function. |
| MacroGroups.Arrange | workbench/src/main/java/workbench/sql/macros/MacroGroup.java:169-176 | `applySort` on a list of its own yields the sorted, renumbered list. |
| MacroGroups.Select | workbench/src/main/java/workbench/sql/macros/MacroGroup.java:187-220 | The collecting loop keeps exactly the macros passing the test, in list order. |
| MacroGroups.Split | workbench/src/main/java/workbench/sql/macros/MacroGroup.java:421-431 | The loop keeps the macros whose lower-cased name contains the filter and moves the others, both in order. |
| MacroGroups.SplitKeepsAll | workbench/src/main/java/workbench/sql/macros/MacroGroup.java:415-432 | Filtering loses no macro: the two parts are a permutation of the list and sort back into it. |
| MacroGroups.FilterOutcomeSpec | workbench/src/main/java/workbench/sql/macros/MacroGroup.java:403-432 | Filtering hides macros but loses none, so `getTotalSize` and `getAllMacros` stay the same; a blank filter shows everything, any other exactly the matching macros. |
| MacroGroups.MacroGroup.constructor | workbench/src/main/java/workbench/sql/macros/MacroGroup.java:61-64 | A new group has the given name, no macros, and the default flags. |
| MacroGroups.MacroGroup.SetTooltip | workbench/src/main/java/workbench/sql/macros/MacroGroup.java:71-75 | The tooltip becomes the trimmed value (none when blank); the group is modified when it was or when the value differs; nothing else changes. |
| MacroGroups.MacroGroup.SetVisibleInMenu | workbench/src/main/java/workbench/sql/macros/MacroGroup.java:82-86 | The flag is set; the group is modified when it was or when the flag changed; nothing else changes. |
| MacroGroups.MacroGroup.SetVisibleInPopup | workbench/src/main/java/workbench/sql/macros/MacroGroup.java:93-97 | The flag is set; the group is modified when it was or when the flag changed; nothing else changes. |
| MacroGroups.MacroGroup.SetSortOrder | workbench/src/main/java/workbench/sql/macros/MacroGroup.java:106-110 | The order is set; the group is modified when it was or when the order changed; nothing else changes. |
| MacroGroups.MacroGroup.SetName | workbench/src/main/java/workbench/sql/macros/MacroGroup.java:123-127 | The name is set; the group is modified when it was or when the name changed; nothing else changes. |
| MacroGroups.MacroGroup.ApplySort | workbench/src/main/java/workbench/sql/macros/MacroGroup.java:164-167 | The visible macros are sorted and renumbered; nothing else changes. |
| MacroGroups.MacroGroup.AddMacro | workbench/src/main/java/workbench/sql/macros/MacroGroup.java:129-134 | The macro is added, the list sorted and renumbered, and the group marked modified. |
| MacroGroups.MacroGroup.ReorderMacro | workbench/src/main/java/workbench/sql/macros/MacroStorage.java:426 | The group's entries for that macro take the given order; nothing else changes. |
| MacroGroups.MacroGroup.SortByName | workbench/src/main/java/workbench/sql/macros/MacroGroup.java:142-157 | The visible macros end in case-insensitive name order, numbered by position; nothing else changes. |
| MacroGroups.MacroGroup.VisibleMacros | workbench/src/main/java/workbench/sql/macros/MacroGroup.java:187-198 | Exactly the visible macros shown in the menu that are not DbTree macros, in order. |
| MacroGroups.MacroGroup.MacrosForPopup | workbench/src/main/java/workbench/sql/macros/MacroGroup.java:209-220 | Exactly the visible macros shown in the popup that are not DbTree macros, in order. |
| MacroGroups.MacroGroup.SetMacros | workbench/src/main/java/workbench/sql/macros/MacroGroup.java:230-237 | The group holds the given macros sorted and renumbered, nothing hidden, and is not modified. |
| MacroGroups.MacroGroup.AllMacros | workbench/src/main/java/workbench/sql/macros/MacroGroup.java:254-261 | Visible and hidden macros together, sorted and renumbered, in a list of their own. |
| MacroGroups.MacroGroup.RemoveMacro | workbench/src/main/java/workbench/sql/macros/MacroGroup.java:268-275 | A macro that is listed is removed once, recorded as deleted and the group marked modified; otherwise nothing changes. |
| MacroGroups.MacroGroup.IsModified | workbench/src/main/java/workbench/sql/macros/MacroGroup.java:333-341 | True exactly when the group's flag or some visible macro's flag is set. |
| MacroGroups.MacroGroup.ResetModified | workbench/src/main/java/workbench/sql/macros/MacroGroup.java:348-356 | All flags are cleared and the deleted list emptied, so the group is no longer modified. |
| MacroGroups.MacroGroup.VisibleMacroSize | workbench/src/main/java/workbench/sql/macros/MacroGroup.java:365-373 | The count of menu macros, DbTree macros included, which is at least the size of the visible list. |
| MacroGroups.MacroGroup.TotalSize | workbench/src/main/java/workbench/sql/macros/MacroGroup.java:375-378 | The number of visible macros plus the number hidden by the filter. |
| MacroGroups.MacroGroup.IsFiltered | workbench/src/main/java/workbench/sql/macros/MacroGroup.java:410-413 | The group is filtered exactly when the filter hid at least one macro. |
| MacroGroups.MacroGroup.SameGroup | workbench/src/main/java/workbench/sql/macros/MacroGroup.java:386-394 | Two groups are equal exactly when their names agree ignoring case. |
| MacroGroups.MacroGroup.ResetFilter | workbench/src/main/java/workbench/sql/macros/MacroGroup.java:403-408 | The hidden macros rejoin the visible ones, sorted and renumbered; nothing is hidden. |
| MacroGroups.MacroGroup.ApplyFilter | workbench/src/main/java/workbench/sql/macros/MacroGroup.java:415-432 | The visible and hidden lists are the filter outcome over all macros of the group. |
| MacroGroups.MacroGroup.HideMisses | workbench/src/main/java/workbench/sql/macros/MacroGroup.java:421-431 | Macros whose lower-cased name lacks the filter move, in order, to the hidden list; the others stay, in order. |
| MacroStorages.FirstHolding | workbench/src/main/java/workbench/sql/macros/MacroStorage.java:397-414 | The position of the first group, in list order, showing a macro of that name ignoring case; none when no group shows one. |
| MacroStorages.Source | workbench/src/main/java/workbench/sql/macros/MacroStorage.java:397-414 | The group found is a listed group showing a macro of that name. |
| MacroStorages.FirstIsFound | workbench/src/main/java/workbench/sql/macros/MacroStorage.java:397-414 | A group showing the macro, with no earlier group showing it, is the one found. |
| MacroStorages.PutAllKeys | workbench/src/main/java/workbench/sql/macros/MacroStorage.java:309-326 | After putting a list of macros, the map's names are the old ones and the listed macros' names, each mapped to a listed macro of that name or to its old entry. |
| MacroStorages.MacroMapKeys | workbench/src/main/java/workbench/sql/macros/MacroStorage.java:309-326 | The rebuilt map holds exactly the names (ignoring case) of the groups' visible macros, each mapped to a visible macro of that name. |
| MacroStorages.ByOrderPermutes | workbench/src/main/java/workbench/sql/macros/MacroStorage.java:294 | Sorting the groups by sort order only reorders them. |
| MacroStorages.ByOrderKeepsSorted | workbench/src/main/java/workbench/sql/macros/MacroStorage.java:294 | Groups already in ascending sort order keep their order under the stable sort. |
| MacroStorages.ByOrderAppendLast | workbench/src/main/java/workbench/sql/macros/MacroStorage.java:497-504 | A group appended with an order above the last one stays last after sorting, and the others keep their places. |
| MacroStorages.RemoveSameName | workbench/src/main/java/workbench/sql/macros/MacroStorage.java:110-114 | `List.remove` with name equality ignoring case: one group fewer when one of that name is listed, the list unchanged otherwise, and no group added. |
| MacroStorages.RenumberGroups | workbench/src/main/java/workbench/sql/macros/MacroStorage.java:295-299 | After the loop each group's sort order is its position and each group's macros are sorted and renumbered; every group keeps its name, tooltip, menu flags and hidden and deleted lists. |
| MacroStorages.NotListed | workbench/src/main/java/workbench/sql/macros/MacroStorage.java:495-502 | A group whose name is not listed is not itself listed, so appending it keeps the list free of duplicates. |
| MacroStorages.WithMacroNamed | workbench/src/main/java/workbench/sql/macros/MacroStorage.java:446-468 | With a group name, every group of that name ignoring case gains the macro, all other groups keep theirs, and only when none has the name is a new group holding the macro appended. |
| MacroStorages.WithMacroFirst | workbench/src/main/java/workbench/sql/macros/MacroStorage.java:469-472 | Without a group name, the first group gains the macro and nothing else changes. |
| MacroStorages.AddToGroupsNamed | workbench/src/main/java/workbench/sql/macros/MacroStorage.java:453-461 | The loop adds the macro to every group of that name, and reports an addition exactly when such a group was listed. |
| MacroStorages.MacroStorage.constructor | workbench/src/main/java/workbench/sql/macros/MacroStorage.java:70-72 | A new storage holds no groups, an empty map, no filter and is not modified. |
| MacroStorages.MacroStorage.GetSize | workbench/src/main/java/workbench/sql/macros/MacroStorage.java:116-124 | The sum of the groups' visible macro counts. |
| MacroStorages.MacroStorage.GetMacro | workbench/src/main/java/workbench/sql/macros/MacroStorage.java:94-97 | The macro mapped under the lower-cased key, none when the key is not mapped. |
| MacroStorages.MacroStorage.IsFiltered | workbench/src/main/java/workbench/sql/macros/MacroStorage.java:621-625 | The storage is filtered exactly when a filter text is set. |
| MacroStorages.MacroStorage.ContainsGroup | workbench/src/main/java/workbench/sql/macros/MacroStorage.java:479-489 | True exactly when a listed group has that name ignoring case. |
| MacroStorages.MacroStorage.FindMacroGroup | workbench/src/main/java/workbench/sql/macros/MacroStorage.java:397-414 | The first listed group showing a macro of that name ignoring case, or null. |
| MacroStorages.RenumberGroup | workbench/src/main/java/workbench/sql/macros/MacroStorage.java:296-297 | The group's sort order becomes its position, its macros are sorted and renumbered, and it keeps its name, tooltip, menu flags and hidden and deleted lists. |
| MacroStorages.MacroStorage.ApplySort | workbench/src/main/java/workbench/sql/macros/MacroStorage.java:290-302 | The groups are stably sorted by sort order, renumbered 0..n-1 and each group's macros sorted; the same groups remain, each keeping its name, tooltip, flags and hidden and deleted lists, and the storage is modified. |
| MacroStorages.MacroStorage.AddGroup | workbench/src/main/java/workbench/sql/macros/MacroStorage.java:491-508 | Nothing changes when a group of that name ignoring case is listed: the list, the flag and every listed group stay as they were. Otherwise the group is appended with the order after the last (1 for an empty list), the list re-sorted, every listed group's macros sorted and renumbered with its name and settings kept, and the storage modified. |
| MacroStorages.MacroStorage.AppendGroup | workbench/src/main/java/workbench/sql/macros/MacroStorage.java:497-505 | The new group gets the order after the last, is appended and the list re-sorted; the groups are the old ones plus this one, and every previously listed group has its macros sorted and renumbered with its name and settings kept. |
| MacroStorages.MacroStorage.Enlist | workbench/src/main/java/workbench/sql/macros/MacroStorage.java:497-502 | The new group takes the order and is appended after the listed groups, which stay as they were. |
| MacroStorages.MacroStorage.MoveMacro | workbench/src/main/java/workbench/sql/macros/MacroStorage.java:379-395 | Nothing changes when the group showing the macro is the target by name. Otherwise the macro leaves that group (if any), which records it in its deleted list and is marked modified when it held it; the macro joins the target, which is marked modified; and the storage is modified. |
| MacroStorages.MacroStorage.AddMacroTo | workbench/src/main/java/workbench/sql/macros/MacroStorage.java:416-430 | The group is listed afterwards (added only when no group of its name was), the macro is moved into it and given the order one past the group's size, and the map holds the macro under its name. |
| MacroStorages.MacroStorage.MoveAndPlace | workbench/src/main/java/workbench/sql/macros/MacroStorage.java:420-427 | The macro is moved into the group, takes the order one past the group's size there, and the map holds it under its name. |
| MacroStorages.MacroStorage.AddMacroToGroup | workbench/src/main/java/workbench/sql/macros/MacroStorage.java:446-477 | The groups change as the group-by-group function says and the map is rebuilt from them. |
| MacroStorages.MacroStorage.Rebuild | workbench/src/main/java/workbench/sql/macros/MacroStorage.java:474-475 | The map is rebuilt from the groups and the storage marked modified; the groups are unchanged. |
| MacroStorages.MacroStorage.AddToNamedGroups | workbench/src/main/java/workbench/sql/macros/MacroStorage.java:453-467 | With a matching group every group of that name gains the macro; otherwise a new group holding just the macro is appended. |
| MacroStorages.MacroStorage.AppendNewGroup | workbench/src/main/java/workbench/sql/macros/MacroStorage.java:462-467 | A new group of the given name holding just the macro is appended. |
| MacroStorages.MacroStorage.AddToFirstGroup | workbench/src/main/java/workbench/sql/macros/MacroStorage.java:469-472 | The first group gains the macro. |
| MacroStorages.MacroStorage.RemoveMacro | workbench/src/main/java/workbench/sql/macros/MacroStorage.java:432-444 | The name leaves the map and the macro the map held under it is removed from every group; with no such entry no group changes; the storage is modified. |
| MacroStorages.MacroStorage.RemoveGroup | workbench/src/main/java/workbench/sql/macros/MacroStorage.java:110-114 | The first group of that name ignoring case is removed, and the storage is modified. |
| MacroStorages.MacroStorage.IsModified | workbench/src/main/java/workbench/sql/macros/MacroStorage.java:570-581 | True exactly when the storage's flag or some group's modified state is set. |
| MacroStorages.MacroStorage.ResetModified | workbench/src/main/java/workbench/sql/macros/MacroStorage.java:558-568 | Every flag is cleared, every group's deleted list emptied, and the storage is no longer modified. |
| MacroStorages.MacroStorage.ResetFilter | workbench/src/main/java/workbench/sql/macros/MacroStorage.java:601-609 | Every group shows all its macros again, the filter is cleared and the map rebuilt. |
| MacroStorages.MacroStorage.ApplyFilter | workbench/src/main/java/workbench/sql/macros/MacroStorage.java:611-619 | The filter is remembered (so the storage is filtered exactly when one is given), every group is filtered and the map rebuilt. |
| MacroStorages.MacroStorage.UpdateMap | workbench/src/main/java/workbench/sql/macros/MacroStorage.java:309-326 | The map is rebuilt from the groups' visible macros; nothing else changes. |
| MacroStorages.MacroStorage.FilterGroups | workbench/src/main/java/workbench/sql/macros/MacroStorage.java:614-617 | Each listed group ends with the visible and hidden macros that filtering its whole list gives. |
| ImportGates.NativeIgnoreIsSupported | workbench/src/main/java/workbench/db/importer/ImportDMLStatementBuilder.java:99-158 | Every DBMS with a native insert-ignore is among those supporting insert-ignore. |
| ImportGates.InsertIgnoreImpliesUpsert | workbench/src/main/java/workbench/db/importer/ImportDMLStatementBuilder.java:131-198 | Every DBMS that supports insert-ignore also supports upsert. |
| ImportGates.UpsertWithoutIgnore | workbench/src/main/java/workbench/db/importer/ImportDMLStatementBuilder.java:131-198 | H2, HANA and Firebird 2.1 support upsert but no insert-ignore. |
| ImportGates.OverrideIdentityOnlyPostgres | workbench/src/main/java/workbench/db/importer/ImportDMLStatementBuilder.java:99-119 | Overriding identity values is offered exactly for Postgres 9.5 on, where the native Postgres ignore is. |
| ImportGates.RequiresPKSets | workbench/src/main/java/workbench/db/importer/ImportDMLStatementBuilder.java:61-62 | Every DBMS whose insert-ignore needs a real primary key also needs one for upsert; only HANA and H2 need it for upsert alone. |
| ImportBuilder.ImportDmlStatementBuilder.constructor | workbench/src/main/java/workbench/db/importer/ImportDMLStatementBuilder.java:67-72 | The builder keeps, in order, the columns the column filter does not ignore, with no keys, expressions or override. |
| ImportBuilder.ImportDmlStatementBuilder.SetOverrideStrategy | workbench/src/main/java/workbench/db/importer/ImportDMLStatementBuilder.java:74-77 | The override strategy is set; nothing else changes. |
| ImportBuilder.ImportDmlStatementBuilder.SetColumnExpressions | workbench/src/main/java/workbench/db/importer/ImportDMLStatementBuilder.java:79-86 | The expressions are cleared and then hold every given entry under a case-insensitive name; a missing map leaves none. |
| ImportBuilder.ImportDmlStatementBuilder.SetKeyColumns | workbench/src/main/java/workbench/db/importer/ImportDMLStatementBuilder.java:269-280 | The key list holds the given keys, or is empty for a missing list; nothing else changes. |
| ImportBuilder.ImportDmlStatementBuilder.GetPkColumns | workbench/src/main/java/workbench/db/importer/ImportDMLStatementBuilder.java:850-861 | The target columns flagged as primary key, in order. |
| ImportBuilder.ImportDmlStatementBuilder.GetKeyColumns | workbench/src/main/java/workbench/db/importer/ImportDMLStatementBuilder.java:844-848 | The explicit keys when any are set, otherwise the PK-flagged target columns. |
| ImportBuilder.ImportDmlStatementBuilder.HasRealPK | workbench/src/main/java/workbench/db/importer/ImportDMLStatementBuilder.java:863-872 | True exactly when there are key columns and every one is flagged as primary key. |
| ImportBuilder.ImportDmlStatementBuilder.SupportsUpsert | workbench/src/main/java/workbench/db/importer/ImportDMLStatementBuilder.java:212-224 | On DBMS needing a primary key, a real primary key decides; elsewhere keys must exist and the DBMS must support upsert. |
| ImportBuilder.ImportDmlStatementBuilder.IsModeSupported | workbench/src/main/java/workbench/db/importer/ImportDMLStatementBuilder.java:238-259 | The mode gate: insert-ignore by the PK rule or the DBMS table, the three update modes by the upsert gate, every other mode refused. |
| ImportBuilder.ImportDmlStatementBuilder.QuotedList | workbench/src/main/java/workbench/db/importer/ImportDMLStatementBuilder.java:510-516 | The quoted display names joined by commas. |
| ImportBuilder.ImportDmlStatementBuilder.CreateInsertStatement | workbench/src/main/java/workbench/db/importer/ImportDMLStatementBuilder.java:303-369 | The INSERT: the first non-blank opening, table, target and constant column names, OVERRIDING clause, and one value per column (expression, DML placeholder, function literal or `?`). |
| ImportBuilder.ImportDmlStatementBuilder.InsertStatementWith | workbench/src/main/java/workbench/db/importer/ImportDMLStatementBuilder.java:303-369 | The INSERT text with the given opening of its value clause. |
| ImportBuilder.ImportDmlStatementBuilder.OverrideClause | workbench/src/main/java/workbench/db/importer/ImportDMLStatementBuilder.java:371-383 | OVERRIDING SYSTEM VALUE or OVERRIDING USER VALUE for those modes, nothing otherwise. |
| ImportBuilder.ImportDmlStatementBuilder.CreatePostgresUpsert | workbench/src/main/java/workbench/db/importer/ImportDMLStatementBuilder.java:493-547 | The Postgres INSERT ... ON CONFLICT statement as the text function describes. |
| ImportBuilder.ImportDmlStatementBuilder.CreateMySqlUpsert | workbench/src/main/java/workbench/db/importer/ImportDMLStatementBuilder.java:817-842 | The MySQL INSERT ... ON DUPLICATE KEY UPDATE statement as the text function describes. |
| ImportBuilder.ImportDmlStatementBuilder.CreateOracleInsertIgnore | workbench/src/main/java/workbench/db/importer/ImportDMLStatementBuilder.java:469-482 | The Oracle INSERT with the ignore-duplicates hint as the text function describes. |
| ImportBuilder.ImportDmlStatementBuilder.CreateHanaUpsert | workbench/src/main/java/workbench/db/importer/ImportDMLStatementBuilder.java:484-491 | The HANA UPSERT ... WITH PRIMARY KEY statement as the text function describes. |
| ImportBuilder.ImportDmlStatementBuilder.CreateH2Upsert | workbench/src/main/java/workbench/db/importer/ImportDMLStatementBuilder.java:549-554 | The H2 MERGE INTO ... KEY statement as the text function describes. |
| ImportBuilder.ImportDmlStatementBuilder.CreateFirebirdUpsert | workbench/src/main/java/workbench/db/importer/ImportDMLStatementBuilder.java:556-576 | The Firebird UPDATE OR INSERT ... MATCHING statement as the text function describes. |
| ImportBuilder.ImportDmlStatementBuilder.CreateSqlAnywhereStatement | workbench/src/main/java/workbench/db/importer/ImportDMLStatementBuilder.java:455-467 | The SQL Anywhere statement as written: the INSERT with the ON EXISTING replacement applied. |
| ImportBuilder.ImportDmlStatementBuilder.CreateSqlAnywhereStatementCorrected | workbench/src/main/java/workbench/db/importer/ImportDMLStatementBuilder.java:455-467 | The SQL Anywhere statement with ON EXISTING SKIP or UPDATE right before the value clause. |
| ImportBuilder.ImportDmlStatementBuilder.CreateStandardMerge | workbench/src/main/java/workbench/db/importer/ImportDMLStatementBuilder.java:598-650 | The standard MERGE as written, as the text function describes. |
| ImportBuilder.ImportDmlStatementBuilder.CreateStandardMergeCorrected | workbench/src/main/java/workbench/db/importer/ImportDMLStatementBuilder.java:598-650 | The standard MERGE with the constants' values and names carried in the source row. |
| ImportBuilder.ImportDmlStatementBuilder.CorrectedMergeRow | workbench/src/main/java/workbench/db/importer/ImportDMLStatementBuilder.java:608-622 | One value marker per target column, then each constant's value. |
| ImportBuilder.ImportDmlStatementBuilder.CorrectedMergeVals | workbench/src/main/java/workbench/db/importer/ImportDMLStatementBuilder.java:623-632 | The `vals` column names: quoted target names, then the constant column names. |
| ImportBuilder.ImportDmlStatementBuilder.KeyConditions | workbench/src/main/java/workbench/db/importer/ImportDMLStatementBuilder.java:634-646 | The key conditions `tg.k = vals.k`, in key order, joined by AND. |
| ImportBuilder.ImportDmlStatementBuilder.MergeMatchClauses | workbench/src/main/java/workbench/db/importer/ImportDMLStatementBuilder.java:652-744 | WHEN MATCHED with the SET list unless insert-only, then WHEN NOT MATCHED with the INSERT lists. |
| ImportBuilder.ImportDmlStatementBuilder.MergeSetList | workbench/src/main/java/workbench/db/importer/ImportDMLStatementBuilder.java:657-693 | The SET list assigns every non-key target and every non-key constant column from `vals`. |
| ImportBuilder.ImportDmlStatementBuilder.CreateOracleMerge | workbench/src/main/java/workbench/db/importer/ImportDMLStatementBuilder.java:746-803 | The Oracle MERGE as the text function describes. |
| ImportBuilder.ImportDmlStatementBuilder.CreateInsertIgnore | workbench/src/main/java/workbench/db/importer/ImportDMLStatementBuilder.java:385-415 | The insert-ignore statement chosen by DBMS, as the dispatch function describes (none for DBMS without one). |
| ImportBuilder.ImportDmlStatementBuilder.InsertIgnoreStatement | workbench/src/main/java/workbench/db/importer/ImportDMLStatementBuilder.java:385-415 | The MERGE and clause-bearing INSERT cases of the insert-ignore dispatch. |
| ImportBuilder.ImportDmlStatementBuilder.CreateUpsertStatement | workbench/src/main/java/workbench/db/importer/ImportDMLStatementBuilder.java:417-453 | The upsert statement chosen by DBMS, as the dispatch function describes (none for DBMS without one). |
| ImportBuilder.ImportDmlStatementBuilder.UpsertMergeStatement | workbench/src/main/java/workbench/db/importer/ImportDMLStatementBuilder.java:417-453 | The MERGE and clause-bearing INSERT cases of the upsert dispatch. |
| ImportBuilder.AppendExcluded | workbench/src/main/java/workbench/db/importer/ImportDMLStatementBuilder.java:521-545 | The `c = EXCLUDED.c` assignments for exactly the non-key columns, in order, separated after the first. |
| ImportBuilder.AppendInsertNames | workbench/src/main/java/workbench/db/importer/ImportDMLStatementBuilder.java:695-730 | Each column's quoted name in the INSERT list and `vals.` plus that name in the VALUES list, in order. |
| ImportBuilder.AppendSetAssignments | workbench/src/main/java/workbench/db/importer/ImportDMLStatementBuilder.java:657-693 | The `tg.c = vals.c` assignments for exactly the non-key columns, in order, separated after the first. |
| ImportDml.IgnoreMergeCases | workbench/src/main/java/workbench/db/importer/ImportDMLStatementBuilder.java:385-415 | HSQLDB, DB2 LUW, DB2 z/OS and SQL Server insert-ignore build the standard MERGE without WHEN MATCHED, each with its USING keyword. (See also lines 578-596.) |
| ImportDml.IgnoreInsertCases | workbench/src/main/java/workbench/db/importer/ImportDMLStatementBuilder.java:407-410 | SQLite's insert-ignore is the INSERT opened by INSERT OR IGNORE; SQL Anywhere's is its ON EXISTING SKIP statement. |
| ImportDml.UpsertMergeCases | workbench/src/main/java/workbench/db/importer/ImportDMLStatementBuilder.java:417-453 | HSQLDB, DB2 LUW, DB2 z/OS and SQL Server upserts build the full standard MERGE, each with its USING keyword. (See also lines 578-596.) |
| ImportDml.UpsertInsertCases | workbench/src/main/java/workbench/db/importer/ImportDMLStatementBuilder.java:447-450 | SQLite's upsert is the INSERT opened by INSERT OR REPLACE; SQL Anywhere's is its ON EXISTING UPDATE statement. |
| ImportDmlProps.ResolvedKeysMembers | workbench/src/main/java/workbench/db/importer/ImportDMLStatementBuilder.java:844-861 | The keys are the explicit ones when any are set, otherwise exactly the PK-flagged targets. |
| ImportDmlProps.ImplicitKeysRealPk | workbench/src/main/java/workbench/db/importer/ImportDMLStatementBuilder.java:863-872 | Without explicit keys there is a real primary key exactly when some target is PK-flagged. |
| ImportDmlProps.ExplicitNonPkKeys | workbench/src/main/java/workbench/db/importer/ImportDMLStatementBuilder.java:212-259 | Explicit keys not all flagged as primary key make upsert, and on the PK-requiring DBMS insert-ignore, unavailable there. |
| ImportDmlProps.LookupLastWins | workbench/src/main/java/workbench/db/importer/ImportDMLStatementBuilder.java:79-86 | An expression is found for a name exactly when an entry's name equals it ignoring case, and then it is the last such entry's value. |
| ImportDmlProps.LookupIgnoresCase | workbench/src/main/java/workbench/db/importer/ImportDMLStatementBuilder.java:64 | Names differing only in case find the same expression. |
| ImportDmlProps.ModeSupportedTable | workbench/src/main/java/workbench/db/importer/ImportDMLStatementBuilder.java:238-259 | Plain insert and update are never reported; the three update modes agree; an upsert needs keys, and outside SQL Anywhere a supporting DBMS. |
| ImportDmlProps.AnywhereUpsertIgnoresVersion | workbench/src/main/java/workbench/db/importer/ImportDMLStatementBuilder.java:212-224 | For SQL Anywhere the primary key alone decides, so a server before version 10 passes the upsert gate. |
| ImportDmlProps.IgnoreSupportedGivesStatement | workbench/src/main/java/workbench/db/importer/ImportDMLStatementBuilder.java:385-415 | A supported insert-ignore yields a statement whenever there are keys and target columns. |
| ImportDmlProps.UpsertSupportedGivesStatement | workbench/src/main/java/workbench/db/importer/ImportDMLStatementBuilder.java:417-453 | A supported upsert always yields a statement. |
| ImportDmlProps.OldPostgresFallsThrough | workbench/src/main/java/workbench/db/importer/ImportDMLStatementBuilder.java:387-396 | Postgres before 9.5 falls through to the MySQL statements, where the mode gate already refuses both modes. |
| ImportDmlProps.MissingStatements | workbench/src/main/java/workbench/db/importer/ImportDMLStatementBuilder.java:385-453 | DBMS without an upsert or insert-ignore case get no statement (MariaDB does get an insert-ignore). |
| ImportDmlProps.InsertOpening | workbench/src/main/java/workbench/db/importer/ImportDMLStatementBuilder.java:309-310 | The INSERT opens with the caller's start text, else the DBMS's import insert, else INSERT INTO, the first that is not blank. |
| ImportDmlProps.InsertListsAlign | workbench/src/main/java/workbench/db/importer/ImportDMLStatementBuilder.java:318-357 | Column names and values pair up: one per target then one per constant, in the same order. |
| ImportDmlProps.PostgresAssignments | workbench/src/main/java/workbench/db/importer/ImportDMLStatementBuilder.java:493-547 | Without keys there is no Postgres statement; DO UPDATE assigns exactly the target and constant columns that are not keys. |
| ImportDmlProps.MySqlAssignments | workbench/src/main/java/workbench/db/importer/ImportDMLStatementBuilder.java:817-842 | The ignore form fails exactly without target columns; the upsert form sets every target column `c` to `VALUES(c)`. |
| ImportDmlProps.MergeUpdatesNonKeys | workbench/src/main/java/workbench/db/importer/ImportDMLStatementBuilder.java:657-693 | WHEN MATCHED updates exactly the columns that are not keys: every non-key target and every non-key constant column has its quoted name in the SET list, which has at most one entry per column. |
| ImportDmlProps.SetNameOfTarget | workbench/src/main/java/workbench/db/importer/ImportDMLStatementBuilder.java:660-673 | A target column that is neither PK-flagged nor a key has its quoted display name in the SET list. |
| ImportDmlProps.SetNameOfConstant | workbench/src/main/java/workbench/db/importer/ImportDMLStatementBuilder.java:676-692 | A constant column that is not a key has its quoted name in the SET list. |
| ImportDmlProps.SqlAnywhereDropsClause | workbench/src/main/java/workbench/db/importer/ImportDMLStatementBuilder.java:364 | As written, the replacement never matches, so the SQL Anywhere statement is the plain INSERT without its ON EXISTING clause. (See also lines 460-466.) |
| ImportDmlProps.SqlAnywhereCorrectedClause | workbench/src/main/java/workbench/db/importer/ImportDMLStatementBuilder.java:455-467 | Corrected, the ON EXISTING clause stands right before the value clause. |
| ImportDmlProps.MergeConstantsAsWritten | workbench/src/main/java/workbench/db/importer/ImportDMLStatementBuilder.java:598-650 | As written, with one target and one function-call constant, the constant's literal fills the target's slot and `vals` lacks the constant's column. |
| ImportDmlProps.MergeConstantMisplaced | workbench/src/main/java/workbench/db/importer/ImportDMLStatementBuilder.java:598-650 | As written, the `vals` column of target i receives the literal of function-call constant i. |
| ImportDmlProps.MergeAsWrittenShort | workbench/src/main/java/workbench/db/importer/ImportDMLStatementBuilder.java:598-650 | As written, with any constant the INSERT names more columns than `vals` has. |
| ImportDmlProps.MergeCorrectedConsistent | workbench/src/main/java/workbench/db/importer/ImportDMLStatementBuilder.java:598-650 | Corrected, every `vals` column has a value and every `vals.x` the match clauses read is one of them. |
| Db2TableSources.CompressClauseShape | workbench/src/main/java/workbench/db/ibm/Db2TableSourceBuilder.java:200-217 | The compression clause starts with `COMPRESS YES` and ends with ` VALUE COMPRESSION` exactly for value compression (`B`). |
| Db2TableSources.AppendLine | workbench/src/main/java/workbench/db/ibm/Db2TableSourceBuilder.java:194-241 | Each clause is appended on a line of its own. |
| Db2TableSources.SpaceOptions | workbench/src/main/java/workbench/db/ibm/Db2TableSourceBuilder.java:174-186 | The tablespace line as written and the tablespace settings of the row. |
| Db2TableSources.AppendOrganize | workbench/src/main/java/workbench/db/ibm/Db2TableSourceBuilder.java:188-196 | `ORGANIZE BY COLUMN` and its setting exactly when the 20th character of `PROPERTY` is `Y`. |
| Db2TableSources.CompressDefinition | workbench/src/main/java/workbench/db/ibm/Db2TableSourceBuilder.java:198-217 | The compression clause and the settings recorded while it is built. |
| Db2TableSources.AppendCompress | workbench/src/main/java/workbench/db/ibm/Db2TableSourceBuilder.java:198-219 | The compression line and settings for row or value compression, nothing otherwise. |
| Db2TableSources.AppendCapture | workbench/src/main/java/workbench/db/ibm/Db2TableSourceBuilder.java:221-225 | `DATA CAPTURE CHANGES` and its setting when changes are captured. |
| Db2TableSources.AppendCcsid | workbench/src/main/java/workbench/db/ibm/Db2TableSourceBuilder.java:227-236 | `CCSID ASCII` or `CCSID UNICODE` and its setting for the encoding scheme `A` or `U`. |
| Db2TableSources.AppendDropRule | workbench/src/main/java/workbench/db/ibm/Db2TableSourceBuilder.java:238-242 | `WITH RESTRICT ON DROP` and its setting for the drop rule `R`. |
| Db2TableSources.TablespaceOptions | workbench/src/main/java/workbench/db/ibm/Db2TableSourceBuilder.java:161-243 | The option text of one row, clause after clause, with each setting recorded as its clause is written. |
| Db2TableSources.ReadTablespaceInfo | workbench/src/main/java/workbench/db/ibm/Db2TableSourceBuilder.java:132-254 | No option text when reading is switched off or there is no row; otherwise the text and settings of that row. |
| Db2TableSources.SpaceLineStartsWithIn | workbench/src/main/java/workbench/db/ibm/Db2TableSourceBuilder.java:175 | The tablespace line, as written and corrected, starts with `IN` and the quoted tablespace. |
| Db2TableSources.OptionStartsWithIn | workbench/src/main/java/workbench/db/ibm/Db2TableSourceBuilder.java:175-243 | The whole option text, as written and corrected, starts with `IN` and the quoted tablespace. |
| Db2TableSources.IndexInIff | workbench/src/main/java/workbench/db/ibm/Db2TableSourceBuilder.java:164 | ` INDEX IN` follows the tablespace exactly when the trimmed index tablespace is not empty; otherwise the long tablespace clause, if any, follows directly. (See also lines 177-186.) |
| Db2TableSources.OrganizeIff | workbench/src/main/java/workbench/db/ibm/Db2TableSourceBuilder.java:188-196 | `ORGANIZE BY COLUMN` is among the lines exactly for a column-organised table. |
| Db2TableSources.CompressIff | workbench/src/main/java/workbench/db/ibm/Db2TableSourceBuilder.java:200-219 | A compression line is among the lines exactly for row or value compression. |
| Db2TableSources.CaptureIff | workbench/src/main/java/workbench/db/ibm/Db2TableSourceBuilder.java:221-225 | `DATA CAPTURE CHANGES` is among the lines exactly when the capture flag is `Y`. |
| Db2TableSources.CcsidIff | workbench/src/main/java/workbench/db/ibm/Db2TableSourceBuilder.java:227-236 | `CCSID ASCII` and `CCSID UNICODE` are among the lines exactly for the schemes `A` and `U`. |
| Db2TableSources.DropRuleIff | workbench/src/main/java/workbench/db/ibm/Db2TableSourceBuilder.java:238-242 | `WITH RESTRICT ON DROP` is among the lines exactly for the drop rule `R`. |
| Db2TableSources.SettingKeysDistinct | workbench/src/main/java/workbench/db/ibm/Db2TableSourceBuilder.java:174-241 | No setting key is recorded twice for a row. |
| Db2TableSources.ValueCompressionIff | workbench/src/main/java/workbench/db/ibm/Db2TableSourceBuilder.java:213-217 | Value compression is recorded exactly for the compression `B`. |
| Db2TableSources.LongInIgnoresLongSpace | workbench/src/main/java/workbench/db/ibm/Db2TableSourceBuilder.java:185 | As written, the ` LONG IN` clause does not depend on the long tablespace, and without an index tablespace it quotes a null name. |
| Db2TableSources.LongInNamesLongSpace | workbench/src/main/java/workbench/db/ibm/Db2TableSourceBuilder.java:182-186 | Corrected, the line ends with ` LONG IN` and the quoted long tablespace. |
| Db2TableSources.ShouldIncludeIndex | workbench/src/main/java/workbench/db/ibm/Db2TableSourceBuilder.java:267-286 | With the system procedure the indexes are added unless the setting says the procedure includes them or, without a setting, the server is 7.4 or later; otherwise the generic decision. |
| Db2TableSources.ShouldIncludeFK | workbench/src/main/java/workbench/db/ibm/Db2TableSourceBuilder.java:289-296 | Foreign keys are added only without the system procedure, by the generic decision. |
| Db2TableSources.ShouldIncludeGrants | workbench/src/main/java/workbench/db/ibm/Db2TableSourceBuilder.java:299-306 | Grants are added only without the system procedure, by the generic decision. |
| Db2TableSources.ShouldIncludeCommentAsWritten | workbench/src/main/java/workbench/db/ibm/Db2TableSourceBuilder.java:309-316 | As written, the comment decision is the grants decision. |
| Db2TableSources.ShouldIncludeComment | workbench/src/main/java/workbench/db/ibm/Db2TableSourceBuilder.java:309-316 | Corrected, comments are added only without the system procedure, by the generic comment decision. |
| Db2TableSources.CommentsFollowGrants | workbench/src/main/java/workbench/db/ibm/Db2TableSourceBuilder.java:315 | As written, a builder that adds comments but not grants leaves the comments out. |
| Db2TableSources.CommentIndependentOfGrants | workbench/src/main/java/workbench/db/ibm/Db2TableSourceBuilder.java:309-316 | The corrected comment decision does not depend on the grants decision. |
| DdlObjects.NextAt | workbench/src/main/java/workbench/util/DdlObjectInfo.java:111-165 | The i-th token read is the end of input, a token or an error, as the token sequence says. |
| DdlObjects.TypeScan | workbench/src/main/java/workbench/util/DdlObjectInfo.java:123-134 | The search stops at a token naming a known type. |
| DdlObjects.TypeScanFirst | workbench/src/main/java/workbench/util/DdlObjectInfo.java:123-136 | Every token passed over is read without error and names no known type; a failed search passes over everything, and a raising one meets a faulty token. |
| DdlObjects.NameStart | workbench/src/main/java/workbench/util/DdlObjectInfo.java:141-157 | The name token follows the type, after at most PostgreSQL's `CONCURRENTLY` and one of IF NOT EXISTS, IF EXISTS, EDITIONABLE, and nothing else is passed over. |
| DdlObjects.NameList | workbench/src/main/java/workbench/util/DdlObjectInfo.java:165-190 | At most one name, and none exactly for the unnamed `CREATE INDEX ON`. |
| DdlObjects.DropStopFirst | workbench/src/main/java/workbench/util/DdlObjectInfo.java:205-210 | The drop list stops at its first end word, or at the end of the input. |
| DdlObjects.DropFoldRejoins | workbench/src/main/java/workbench/util/DdlObjectInfo.java:201-222 | The loop loses no text: the completed names and the current one, joined with commas, give back every text read. |
| DdlObjects.DropFoldCounts | workbench/src/main/java/workbench/util/DdlObjectInfo.java:212-216 | Every comma completes one name. |
| DdlObjects.DropNamesRejoin | workbench/src/main/java/workbench/util/DdlObjectInfo.java:201-227 | A DROP list has one name more than commas when the last is not blank, and then the names rejoin into the list; as many as commas otherwise. |
| DdlObjects.TypeIsFirstKnown | workbench/src/main/java/workbench/util/DdlObjectInfo.java:108-136 | A statement has a type only when its first token is a DDL verb; the type is the upper-cased first later token naming a known type. |
| DdlObjects.InvalidHasNoNames | workbench/src/main/java/workbench/util/DdlObjectInfo.java:112-136 | A statement without a type has no names. |
| DdlObjects.OneNameUnlessPgDrop | workbench/src/main/java/workbench/util/DdlObjectInfo.java:159-190 | Only a PostgreSQL DROP names more than one object. |
| DdlObjects.NoFaultTypeIff | workbench/src/main/java/workbench/util/DdlObjectInfo.java:108-136 | Without errors, a statement has a type exactly when it starts with a DDL verb and a later token names a known type. |
| DdlObjects.FaultAfterTypeClears | workbench/src/main/java/workbench/util/DdlObjectInfo.java:141 | An error reading the token after the type clears the type found and the names. (See also lines 193-198.) |
| DdlObjects.DotTakesLast | workbench/src/main/java/workbench/util/DdlObjectInfo.java:165-170 | `schema . name` names `name`. |
| DdlObjects.TrailingDotJoins | workbench/src/main/java/workbench/util/DdlObjectInfo.java:182-185 | A name ending in `.` is joined with the token after it. |
| DdlObjects.UnnamedIndex | workbench/src/main/java/workbench/util/DdlObjectInfo.java:172-179 | The unnamed `CREATE INDEX ON t` names nothing. |
| DdlObjects.ScanDropNames | workbench/src/main/java/workbench/util/DdlObjectInfo.java:201-227 | The loop computes the drop names up to the first end word, and reports an error exactly when a token raises first. |
| DdlObjects.ReadNameToken | workbench/src/main/java/workbench/util/DdlObjectInfo.java:141-157 | Reads the name token as the name-start function describes. |
| DdlObjects.ReadSingleName | workbench/src/main/java/workbench/util/DdlObjectInfo.java:165-190 | Reads the single name as the name-list function describes, and reports an error exactly when a token raises. |
| DdlObjects.DdlObjectInfo.constructor | workbench/src/main/java/workbench/util/DdlObjectInfo.java:49-62 | The parsed type and names are those the statement's parse gives. |
| DdlObjects.DdlObjectInfo.ClearOnError | workbench/src/main/java/workbench/util/DdlObjectInfo.java:193-198 | The error handler leaves no names and no type. |
| DdlObjects.DdlObjectInfo.ParseSql | workbench/src/main/java/workbench/util/DdlObjectInfo.java:108-199 | The type and names after `parseSQL` are those the parse function gives. |
| DdlObjects.DdlObjectInfo.ParseNames | workbench/src/main/java/workbench/util/DdlObjectInfo.java:139-191 | The type and names after the name part are those the function gives for the type found. |
| DdlObjects.DdlObjectInfo.ParsePgDropNames | workbench/src/main/java/workbench/util/DdlObjectInfo.java:201-227 | The DROP names are appended, and an error is reported exactly when a token raises first. |
| DdlObjects.DdlObjectInfo.SetObjectType | workbench/src/main/java/workbench/util/DdlObjectInfo.java:70-73 | The type is set; the names are unchanged. |
| DdlObjects.DdlObjectInfo.IsValid | workbench/src/main/java/workbench/util/DdlObjectInfo.java:80-83 | Valid exactly when a type was found. |
| DdlObjects.DdlObjectInfo.GetObjectName | workbench/src/main/java/workbench/util/DdlObjectInfo.java:95-100 | None without names, the only name, or all names separated by `, `. |
| DuckDbSequences.LongText | workbench/src/main/java/workbench/db/duckdb/DuckDBSequenceReader.java:225-227 | A number appends its decimal text, a missing one `null`. |
| DuckDbSequences.GetSequenceSource | workbench/src/main/java/workbench/db/duckdb/DuckDBSequenceReader.java:190-247 | Nothing for no definition; otherwise the source text the clause functions describe. |
| DuckDbSequences.AppendDrop | workbench/src/main/java/workbench/db/duckdb/DuckDBSequenceReader.java:207-216 | The drop statement is appended when a drop is asked for. |
| DuckDbSequences.AppendCreateLine | workbench/src/main/java/workbench/db/duckdb/DuckDBSequenceReader.java:217-223 | The create line is appended. |
| DuckDbSequences.AppendOption | workbench/src/main/java/workbench/db/duckdb/DuckDBSequenceReader.java:224-233 | An option line is appended. |
| DuckDbSequences.AppendCycle | workbench/src/main/java/workbench/db/duckdb/DuckDBSequenceReader.java:234-240 | The cycle option is appended. |
| DuckDbSequences.HeadFirst | workbench/src/main/java/workbench/db/duckdb/DuckDBSequenceReader.java:207-240 | The text starts with whatever is written first. |
| DuckDbSequences.DropTextShape | workbench/src/main/java/workbench/db/duckdb/DuckDBSequenceReader.java:207-216 | No drop text for no drop; otherwise `DROP SEQUENCE IF EXISTS` with the name, `CASCADE` for a cascading drop. |
| DuckDbSequences.CreateLineShape | workbench/src/main/java/workbench/db/duckdb/DuckDBSequenceReader.java:217-223 | A temporary sequence is created with `CREATE TEMPORARY SEQUENCE`; any other with two blanks between `CREATE` and `SEQUENCE`. |
| DuckDbSequences.ScriptStart | workbench/src/main/java/workbench/db/duckdb/DuckDBSequenceReader.java:207-223 | The script starts with the drop statement when a drop is chosen, the create line directly after it. |
| DuckDbSequences.CycleTextEnding | workbench/src/main/java/workbench/db/duckdb/DuckDBSequenceReader.java:234-240 | The cycle option ends with `CYCLE;`, and with `NO CYCLE;` exactly when the sequence does not cycle. |
| DuckDbSequences.CompleteEnding | workbench/src/main/java/workbench/db/duckdb/DuckDBSequenceReader.java:228-240 | With a maximum the text is complete and ends with `NO CYCLE;` exactly when the sequence does not cycle or the flag is missing. |
| DuckDbSequences.MaxValueLine | workbench/src/main/java/workbench/db/duckdb/DuckDBSequenceReader.java:228-233 | The largest `long` as maximum is left out; any other maximum stands between the minimum and the cycle option. |
| DuckDbSequences.MissingMaxTruncates | workbench/src/main/java/workbench/db/duckdb/DuckDBSequenceReader.java:199 | Without a maximum the text stops right after the minimum: no cycle option and no final semicolon. (See also lines 228-246.) |
| FileEvents.FileEvent.constructor | workbench/src/main/java/workbench/util/FileEvent.java:33-36 | A new event has seen no event yet and records the file's current modification time. |
| FileEvents.FileEvent.SetLastEventTime | workbench/src/main/java/workbench/util/FileEvent.java:69-72 | The event time is set; the file time is unchanged. |
| FileEvents.FileEvent.SetLastFileModifiedTime | workbench/src/main/java/workbench/util/FileEvent.java:79-82 | The file time is set; the event time is unchanged. |
| FileEvents.FileEvent.EventOccurred | workbench/src/main/java/workbench/util/FileEvent.java:63-67 | Records the file time and the clock; the same file state is then no longer a change, nothing is relevant at the same instant, and a newer file state becomes relevant once the quiet period has passed. |
| FileEvents.FileEvent.IsFileChanged | workbench/src/main/java/workbench/util/FileEvent.java:48-51 | The file counts as changed exactly when its current modification time is later than the recorded one. |
| FileEvents.FileEvent.IsInThePast | workbench/src/main/java/workbench/util/FileEvent.java:53-56 | The quiet period is over exactly when the clock has reached the last event time plus 100 ms, the addition wrapping like a Java `long`. |
| FileEvents.FileEvent.IsRelevant | workbench/src/main/java/workbench/util/FileEvent.java:43-46 | An event is relevant exactly when the quiet period is over and the file changed. |
| FileEvents.FreshEventRelevance | workbench/src/main/java/workbench/util/FileEvent.java:43-56 | With no event yet, a newer file counts as soon as the clock has reached 100 ms, and nothing counts before. |
| FileEvents.QuietPeriodExact | workbench/src/main/java/workbench/util/FileEvent.java:53-56 | Unless the `long` addition wraps, the event is in the past exactly 100 ms after the last one. |
| FileEvents.WrappedQuietPeriod | workbench/src/main/java/workbench/util/FileEvent.java:55 | Near the top of the `long` range the addition wraps, so every non-negative clock reading counts as in the past. |
| KeepAlive.LongValue | workbench/src/main/java/workbench/db/KeepAliveDaemon.java:147 | The number the trimmed text spells as a Java `long`, or the default when it spells none. (See also lines 152, 157, 161.) |
| KeepAlive.ParseTimeInterval | workbench/src/main/java/workbench/db/KeepAliveDaemon.java:137-164 | Blank or absent text is 0, and every result is a Java `long`. |
| KeepAlive.TimeDisplay | workbench/src/main/java/workbench/db/KeepAliveDaemon.java:166-175 | Empty for 0; below a minute the truncated whole seconds with `s`, otherwise the truncated whole minutes with `m`. |
| KeepAlive.ParseSeconds | workbench/src/main/java/workbench/db/KeepAliveDaemon.java:144-148 | A number followed by `s` is that many seconds in milliseconds, wrapping like Java `long`. |
| KeepAlive.ParseMinutes | workbench/src/main/java/workbench/db/KeepAliveDaemon.java:149-153 | A number followed by `m` is that many minutes in milliseconds, wrapping like Java `long`. |
| KeepAlive.ParseHours | workbench/src/main/java/workbench/db/KeepAliveDaemon.java:154-158 | A number followed by `h` is that many hours in milliseconds, wrapping like Java `long`. |
| KeepAlive.ParsePlainMillis | workbench/src/main/java/workbench/db/KeepAliveDaemon.java:159-162 | A plain number is read as milliseconds. |
| KeepAlive.DisplayThenParse | workbench/src/main/java/workbench/db/KeepAliveDaemon.java:137-175 | Reading back a displayed value gives it cut down to whole seconds below a minute and to whole minutes from a minute on. |
| KeepAlive.WholeUnitsRoundTrip | workbench/src/main/java/workbench/db/KeepAliveDaemon.java:137-175 | Whole seconds below a minute and whole minutes survive display and parse unchanged. |
| KeepAlive.PartialUnitsLost | workbench/src/main/java/workbench/db/KeepAliveDaemon.java:137-175 | Any other positive value comes back smaller: the part below the displayed unit is lost. |
| LobFileParameters.Find | workbench/src/main/java/workbench/util/LobFileStatement.java:59 | The search reports the first position from where it starts at which a marker matches, or -1. (See also line LobFileParameterParser.java:52.) |
| LobFileParameters.FindFirst | workbench/src/main/java/workbench/util/LobFileParameterParser.java:52 | No marker matches before the position the search reports. |
| LobFileParameters.MatchEnd | workbench/src/main/java/workbench/util/LobFileStatement.java:59 | A match ends just past the first `}` after its fixed beginning. |
| LobFileParameters.TokenArg | workbench/src/main/java/workbench/util/LobFileParameterParser.java:66-71 | The text before the first `=`, none without one. |
| LobFileParameters.TokenValue | workbench/src/main/java/workbench/util/LobFileParameterParser.java:66-71 | The text after the first `=`, none without one. |
| LobFileParameters.TokenSplit | workbench/src/main/java/workbench/util/LobFileParameterParser.java:66-71 | A token with `=` is its argument, `=` and its value. |
| LobFileParameters.ApplyToken | workbench/src/main/java/workbench/util/LobFileParameterParser.java:72-80 | `encoding=x` sets the encoding; any other token sets the file name to its value and makes the parameter binary exactly when its argument is `blobfile`. |
| LobFileParameters.LastTokensDecide | workbench/src/main/java/workbench/util/LobFileParameterParser.java:61-81 | Later tokens override earlier ones: the encoding is the last encoding token's, file name and binary flag the last other token's, and what no token sets keeps its value. |
| LobFileParameters.TokenWithoutEquals | workbench/src/main/java/workbench/util/LobFileParameterParser.java:64-80 | A last file token without `=` leaves no file name and no binary flag. |
| LobFileParameters.UpperCaseBlobfileNotBinary | workbench/src/main/java/workbench/util/LobFileParameterParser.java:44 | The marker matches in any case but the binary test is exact, so `BLOBFILE=x` names a file that is not binary. (See also line 79.) |
| LobFileParameters.MarkersMatch | workbench/src/main/java/workbench/util/LobFileStatement.java:59 | Every marker reported matches where it starts and ends at the first brace after its beginning. (See also lines LobFileParameterParser.java:52-55.) |
| LobFileParameters.MarkerBodies | workbench/src/main/java/workbench/util/LobFileStatement.java:59 | The body of every marker starts with `clobfile=` or `blobfile=` in any case and holds no `}`. (See also line LobFileParameterParser.java:58.) |
| LobFileParameters.MarkerEnd | workbench/src/main/java/workbench/util/LobFileParameterParser.java:55 | The brace searched for from the character after `{` is the marker's own closing brace. |
| LobFileParameters.MatchesClosed | workbench/src/main/java/workbench/util/LobFileParameterParser.java:55-56 | Every match is closed by the brace the constructor searches for, so none is skipped. |
| LobFileParameters.ParseParameter | workbench/src/main/java/workbench/util/LobFileParameterParser.java:59-81 | The tokenizer loop yields the parameter its tokens, applied in order, describe. |
| LobFileParameters.ParseMarkers | workbench/src/main/java/workbench/util/LobFileParameterParser.java:52-84 | One parameter per marker, in order, each parsed from the text between `{$` and the closing brace. |
| LobFileParameters.ParseMatches | workbench/src/main/java/workbench/util/LobFileParameterParser.java:54-83 | For the matches given in order, one parameter each, parsed from its body. |
| LobFileParameters.LobFileParameterParser.constructor | workbench/src/main/java/workbench/util/LobFileParameterParser.java:47-85 | The parser holds one parameter per marker of the statement, in order. |
| LobFileParameters.LobFileParameterParser.GetParameters | workbench/src/main/java/workbench/util/LobFileParameterParser.java:92-95 | The parameters parsed, unchanged. |
| LobFileParameters.LobFileParameterParser.GetParameterCount | workbench/src/main/java/workbench/util/LobFileParameterParser.java:87-90 | As many as the parameters listed. |
| LobFileParameters.NoBraceNoMarkers | workbench/src/main/java/workbench/util/LobFileStatement.java:59 | A statement without `{` has no markers. |
| PkMappings.NonEmptyEntries | workbench/src/main/java/workbench/storage/PkMapping.java:139-151 | Exactly the entries whose column list is not empty, with their values. |
| PkMappings.Added | workbench/src/main/java/workbench/storage/PkMapping.java:168-174 | Nothing changes for an empty table or column list; otherwise the lowercased table is bound to the columns and every other entry is kept. |
| PkMappings.Removed | workbench/src/main/java/workbench/storage/PkMapping.java:154-158 | The key exactly as given is gone and every other entry is kept. |
| PkMappings.Lookup | workbench/src/main/java/workbench/storage/PkMapping.java:176-194 | Found exactly when the lowercased table name or the lowercased full expression is mapped; the name wins. |
| PkMappings.EntryLinesHaveEveryEntry | workbench/src/main/java/workbench/storage/PkMapping.java:93-108 | Every listed entry has its `table=columns` line in the text. |
| PkMappings.PkColumnTextJoins | workbench/src/main/java/workbench/storage/PkMapping.java:239-249 | With no empty PK column name the text is the comma-joined PK column names, in order, and empty exactly without PK columns. |
| PkMappings.NoPkColumnNoText | workbench/src/main/java/workbench/storage/PkMapping.java:239-249 | Without a PK-flagged column the loop builds nothing. |
| PkMappings.EmptyLeadingNameDropsSeparator | workbench/src/main/java/workbench/storage/PkMapping.java:246 | A comma is added only once the text is non-empty, so a leading PK column with an empty name leaves no trace. |
| PkMappings.PkMapping.constructor | workbench/src/main/java/workbench/storage/PkMapping.java:75-78 | An empty map filled from the mapping file: nothing for a missing file, the non-empty entries read otherwise. |
| PkMappings.PkMapping.Clear | workbench/src/main/java/workbench/storage/PkMapping.java:85-91 | The map is empty. |
| PkMappings.PkMapping.LoadMapping | workbench/src/main/java/workbench/storage/PkMapping.java:110-152 | A missing file changes nothing; a failed read clears the map first; then every entry read with a non-empty column list is stored under its key as written. |
| PkMappings.PkMapping.MergeEntries | workbench/src/main/java/workbench/storage/PkMapping.java:139-151 | The loop stores every non-empty entry read. |
| PkMappings.PutNonEmpty | workbench/src/main/java/workbench/storage/PkMapping.java:139-151 | Putting the entries one at a time gives the map with every non-empty entry added. |
| PkMappings.PkMapping.RemoveMapping | workbench/src/main/java/workbench/storage/PkMapping.java:154-158 | The key exactly as given is removed; an absent one changes nothing. |
| PkMappings.PkMapping.AddMapping | workbench/src/main/java/workbench/storage/PkMapping.java:168-174 | The map after adding as the add function says. |
| PkMappings.PkMapping.AddTableMapping | workbench/src/main/java/workbench/storage/PkMapping.java:160-163 | Adds under the table's full expression. |
| PkMappings.PkMapping.AddColumnMapping | workbench/src/main/java/workbench/storage/PkMapping.java:239-254 | Nothing without PK-flagged columns; otherwise the comma-joined PK column names are added under the table's full expression. |
| PkMappings.PkMapping.GetMappingAsText | workbench/src/main/java/workbench/storage/PkMapping.java:93-108 | Nothing for an empty map; otherwise one `table=columns` line per entry, in the map's iteration order, each entry exactly once. |
| PkMappings.MappingText | workbench/src/main/java/workbench/storage/PkMapping.java:95-107 | The text loop yields one line per entry in the visiting order. |
| PkMappings.AddThenLookup | workbench/src/main/java/workbench/storage/PkMapping.java:168-181 | A table added in any capitalisation is found by its bare name in any capitalisation. |
| PkMappings.AddExpressionThenLookup | workbench/src/main/java/workbench/storage/PkMapping.java:160-186 | A table added by its full expression is found through it when the bare name is not mapped. |
| PkMappings.RemoveIsCaseSensitive | workbench/src/main/java/workbench/storage/PkMapping.java:154-158 | Removing "Person" does not remove the mapping stored as "person", which still answers lookups. (See also line 172.) |
| PkMappings.LoadedMixedCaseNotFound | workbench/src/main/java/workbench/storage/PkMapping.java:149 | Keys read from the file are stored as written while lookups lowercase, so an entry written "Person" is never found. (See also lines 179-185.) |
| UnicodeReaders.EncodingFor | workbench/src/main/java/workbench/util/UnicodeReader.java:70-103 | Each mark selects its encoding; without a mark the default encoding is used. |
| UnicodeReaders.Buffer | workbench/src/main/java/workbench/util/UnicodeReader.java:66-68 | The read-ahead buffer holds the bytes delivered, then the zeros of a fresh array. |
| UnicodeReaders.MarkRecognised | workbench/src/main/java/workbench/util/UnicodeReader.java:70-90 | Each mark except UTF-32LE is recognised as itself whatever follows it. |
| UnicodeReaders.Utf32LEUnreachable | workbench/src/main/java/workbench/util/UnicodeReader.java:80-96 | The UTF-16LE test comes first and the UTF-32LE mark begins with the UTF-16LE mark, so a UTF-32LE mark is taken for UTF-16LE and the UTF-32LE branch is never taken. |
| UnicodeReaders.NoMarkExactly | workbench/src/main/java/workbench/util/UnicodeReader.java:70-103 | A buffer is taken to hold no mark exactly when it starts with none of the five marks. |
| UnicodeReaders.MarkWithinDelivered | workbench/src/main/java/workbench/util/UnicodeReader.java:66-96 | A mark is recognised only within the bytes actually delivered, never in the zero padding. |
| UnicodeReaders.UnreadRange | workbench/src/main/java/workbench/util/UnicodeReader.java:73-105 | The push-back count is never below -1, so the branch for fewer than -1 is dead; with a mark it is the number of bytes read after the mark. |
| UnicodeReaders.AfterMark | workbench/src/main/java/workbench/util/UnicodeReader.java:57-60 | What the decoder reads is the input without a recognised mark, in order. |
| UnicodeReaders.PushedBackIsAfterMark | workbench/src/main/java/workbench/util/UnicodeReader.java:104 | The bytes pushed back followed by the unread rest of the stream are exactly what follows the mark. |
| UnicodeReaders.UnicodeReader.constructor | workbench/src/main/java/workbench/util/UnicodeReader.java:61-116 | After construction the stream holds what follows the mark, the mark flag says whether one was found, and the decoder uses the mark's encoding or the default. |
| UnicodeReaders.UnicodeReader.Init | workbench/src/main/java/workbench/util/UnicodeReader.java:61-116 | Nothing happens once a decoder exists; otherwise the mark is skipped, the other bytes pushed back and the charset chosen by the mark. |
| UnicodeReaders.UnicodeReader.PushBack | workbench/src/main/java/workbench/util/UnicodeReader.java:104 | The pushed-back bytes are placed before the rest of the stream. |
| UnicodeReaders.UnicodeReader.GetEncoding | workbench/src/main/java/workbench/util/UnicodeReader.java:46-50 | None before `init`, otherwise the decoder's charset. |
| UnicodeReaders.CharsetOf | workbench/src/main/java/workbench/util/UnicodeReader.java:107-115 | The platform default for no encoding, the named charset otherwise. |
| UnicodeReaders.MarkedStreamSkipsMark | workbench/src/main/java/workbench/util/UnicodeReader.java:57-116 | A stream starting with a UTF-8, UTF-16 or UTF-32BE mark is decoded from the byte after it. |
| Workspaces.PersistenceFor | workbench/src/main/java/workbench/workspace/WbWorkspace.java:96-103 | Directory storage exactly when allowed and the target is a directory (an existing one, or a name without extension). (See also lines 191-198.) |
| Workspaces.WbWorkspace.constructor | workbench/src/main/java/workbench/workspace/WbWorkspace.java:89-94 | A new workspace is closed and empty, with the storage chosen by the target. |
| Workspaces.WbWorkspace.SetFilename | workbench/src/main/java/workbench/workspace/WbWorkspace.java:177-199 | A missing name is refused and changes nothing; otherwise the name is taken and the storage chosen anew, whatever the state. |
| Workspaces.WbWorkspace.Close | workbench/src/main/java/workbench/workspace/WbWorkspace.java:327-331 | The workspace always ends closed; nothing else changes. |
| Workspaces.WbWorkspace.Clear | workbench/src/main/java/workbench/workspace/WbWorkspace.java:344-350 | Drops tool properties, variables, tab info and editor histories, but not the execution histories. |
| Workspaces.WbWorkspace.OpenForReading | workbench/src/main/java/workbench/workspace/WbWorkspace.java:149-175 | Success ends in `reading` with the tab count and typed tab info read; failure records the message and ends closed; the result says which. |
| Workspaces.WbWorkspace.ReadOpened | workbench/src/main/java/workbench/workspace/WbWorkspace.java:158-165 | Reading sets the tab info, tool properties, variables and tab count, and the state `reading`. |
| Workspaces.WbWorkspace.CountTabs | workbench/src/main/java/workbench/workspace/WbWorkspace.java:159 | The tab count and typed tab info are those of the count function. (See also line 163.) |
| Workspaces.WbWorkspace.Save | workbench/src/main/java/workbench/workspace/WbWorkspace.java:306-324 | Always ends closed; the histories are dropped only when writing succeeded. |
| Workspaces.WbWorkspace.GetEntryCount | workbench/src/main/java/workbench/workspace/WbWorkspace.java:250-257 | -1 unless open for reading, then the tab count. |
| Workspaces.WbWorkspace.ReadHistory | workbench/src/main/java/workbench/workspace/WbWorkspace.java:272-290 | Allowed exactly while open for reading. |
| Workspaces.WbWorkspace.GetVariables | workbench/src/main/java/workbench/workspace/WbWorkspace.java:226-231 | A copy of the variables. |
| Workspaces.WbWorkspace.SetVariables | workbench/src/main/java/workbench/workspace/WbWorkspace.java:233-240 | The variables are replaced; none given leaves them empty. |
| Workspaces.WbWorkspace.PrepareForSaving | workbench/src/main/java/workbench/workspace/WbWorkspace.java:338-342 | Tab info and editor histories are emptied; nothing else changes. |
| Workspaces.WbWorkspace.AddEditorHistory | workbench/src/main/java/workbench/workspace/WbWorkspace.java:216-219 | The editor history of that tab is recorded. |
| Workspaces.WbWorkspace.AddExecutionHistory | workbench/src/main/java/workbench/workspace/WbWorkspace.java:221-224 | The execution history of that tab is recorded. |
| Workspaces.WbWorkspace.SetEntryCount | workbench/src/main/java/workbench/workspace/WbWorkspace.java:211-214 | The total tab count is stored. |
| Workspaces.WbWorkspace.SetTabInt | workbench/src/main/java/workbench/workspace/WbWorkspace.java:542-546 | One number is stored under the tab's key. (See also lines 566-570, 607-611.) |
| Workspaces.WbWorkspace.SetSelectedTab | workbench/src/main/java/workbench/workspace/WbWorkspace.java:492-495 | The selected tab is stored. |
| Workspaces.WbWorkspace.SetExternalFileEncoding | workbench/src/main/java/workbench/workspace/WbWorkspace.java:620-625 | No encoding changes nothing; otherwise it is stored for the tab. |
| Workspaces.OpenThenCount | workbench/src/main/java/workbench/workspace/WbWorkspace.java:386-387 | A workspace saved with a positive total tab count is counted by that total on opening. |
| WorkspaceTabs.ParsePanelType | workbench/src/main/java/workbench/workspace/WbWorkspace.java:259-270 | The panel type the name spells, falling back to an SQL panel for any unknown name. |
| WorkspaceTabs.IntOr | workbench/src/main/java/workbench/workspace/WbWorkspace.java:548-588 | The stored number, or the default when the key is absent or the text is no `int`. |
| WorkspaceTabs.MaxRows | workbench/src/main/java/workbench/workspace/WbWorkspace.java:572-588 | The stored maximum row count, 0 when it is absent or no `int`. |
| WorkspaceTabs.QueryTimeout | workbench/src/main/java/workbench/workspace/WbWorkspace.java:548-564 | The stored query timeout, 0 when it is absent or no `int`. |
| WorkspaceTabs.CursorPos | workbench/src/main/java/workbench/workspace/WbWorkspace.java:523-540 | The stored cursor position of the external file, -1 when it is absent or no `int`. |
| WorkspaceTabs.SelectedTab | workbench/src/main/java/workbench/workspace/WbWorkspace.java:497-500 | The stored selected tab, 0 when it is absent. |
| WorkspaceTabs.IsSelectedTabExplorer | workbench/src/main/java/workbench/workspace/WbWorkspace.java:502-506 | True exactly when the selected tab is typed as a DbExplorer panel. |
| WorkspaceTabs.StoredIntReadBack | workbench/src/main/java/workbench/workspace/WbWorkspace.java:542-588 | A number stored as text is read back. |
| WorkspaceTabs.PanelTypeOf | workbench/src/main/java/workbench/workspace/WbWorkspace.java:259-270 | An SQL panel unless the tab's type names the DbExplorer. |
| WorkspaceTabs.FileEncoding | workbench/src/main/java/workbench/workspace/WbWorkspace.java:598-605 | The stored encoding when present and not empty, otherwise the default. |
| WorkspaceTabs.TabIntRoundTrip | workbench/src/main/java/workbench/workspace/WbWorkspace.java:492-588 | What the setters for max rows, timeout, cursor position and selected tab store is read back. |
| WorkspaceTabs.EncodingRoundTrip | workbench/src/main/java/workbench/workspace/WbWorkspace.java:598-625 | A stored non-empty encoding is read back; an empty one falls back to the default. |
| WorkspaceTabs.KeyIndexOf | workbench/src/main/java/workbench/workspace/WbWorkspace.java:394-401 | A key built for tab n names tab n. |
| WorkspaceTabs.TabKeyInjective | workbench/src/main/java/workbench/workspace/WbWorkspace.java:394-401 | Keys of different tabs never collide. |
| WorkspaceTabs.ConsecutiveTabs | workbench/src/main/java/workbench/workspace/WbWorkspace.java:390-409 | The first index without a tab: the number of consecutive tabs counted. |
| WorkspaceTabs.TabCount | workbench/src/main/java/workbench/workspace/WbWorkspace.java:383-420 | The tab count is never negative, and a positive stored total is the count. |
| WorkspaceTabs.TypedInfo | workbench/src/main/java/workbench/workspace/WbWorkspace.java:390-418 | The tab properties after counting: unchanged with a positive stored total, otherwise with the legacy and explorer tabs typed. |
| WorkspaceTabs.CountedTabsTyped | workbench/src/main/java/workbench/workspace/WbWorkspace.java:383-420 | After counting without a total, every counted tab has a type: explorer tabs `dbExplorer`, tabs with legacy keys `sqlPanel`, others their own. |
| WorkspaceTabs.LegacyTypeKept | workbench/src/main/java/workbench/workspace/WbWorkspace.java:394-404 | A counted tab has a type after typing: `sqlPanel` with legacy keys, otherwise its own. |
| WorkspaceTabs.StoredTotalWins | workbench/src/main/java/workbench/workspace/WbWorkspace.java:386-387 | A positive stored total is the count and nothing is typed. |
| WorkspaceTabs.EmptyInfoNoTabs | workbench/src/main/java/workbench/workspace/WbWorkspace.java:383-420 | Without tab keys, a total or explorer tabs the count is 0. |
| WorkspaceTabs.CountLegacyTabs | workbench/src/main/java/workbench/workspace/WbWorkspace.java:390-409 | The first loop counts consecutive tabs and types those with legacy keys. |
| WorkspaceTabs.TypeExplorerTabs | workbench/src/main/java/workbench/workspace/WbWorkspace.java:411-418 | The second loop types `count` explorer tabs after the counted ones. |
| WorkspaceTabs.CalculateTabCount | workbench/src/main/java/workbench/workspace/WbWorkspace.java:383-420 | The count and typed tab info are those of the count function. |
| ZipFiles.ArchiveType | workbench/src/main/java/workbench/util/ZipUtil.java:63-102 | The clipboard stand-in, a missing file and a failed read are no archive; otherwise the first four bytes decide. |
| ZipFiles.IsZipFile | workbench/src/main/java/workbench/util/ZipUtil.java:58-61 | A file is a ZIP file exactly when its archive type is ZIP, so never for GZIP. |
| ZipFiles.HeaderTypeExactly | workbench/src/main/java/workbench/util/ZipUtil.java:78-91 | ZIP exactly for the four signature bytes; GZIP exactly for four bytes starting with the two identification bytes. |
| ZipFiles.ZipRecognised | workbench/src/main/java/workbench/util/ZipUtil.java:58-61 | A file starting with the ZIP signature is a ZIP file whatever follows. (See also lines 81-85.) |
| ZipFiles.GzipRecognised | workbench/src/main/java/workbench/util/ZipUtil.java:52 | A GZIP stream is recognised as GZIP and is not a ZIP file. (See also lines 86-90.) |
| ZipFiles.ShortReadNoArchive | workbench/src/main/java/workbench/util/ZipUtil.java:79 | Fewer than four bytes are never an archive. |

## Left out

Java library semantics and collaborators that are not part of this model:

- `Text.LowerChar`: case mapping is ASCII-only. Java's `toLowerCase`, `toUpperCase` and `equalsIgnoreCase` use Unicode case mapping. This affects the key lookups of the import builder, the type lookup of `DdlObjectInfo` (DdlObjectInfo.java:130), and the comparison of profile, group and macro names. The same holds for `Text.Upper` and `Text.EqualsIgnoreCase`.
- `Text.ParseLong`: accepts only the ASCII digits `0`-`9`, and so does `Text.ParseInt`. Java's `Long.parseLong` and `Integer.parseInt` accept any Unicode decimal digit (`Character.digit`), so a keep-alive interval or a workspace number written in other digits (for example Arabic-Indic `١٠s`, which Java reads as 10 seconds) falls back to the default in this model.
- `Text.IsBlank`: treats every character up to `' '` as white space, like `String.trim`. `String.isBlank` (DdlObjectInfo.java:223) uses `Character.isWhitespace`, which differs outside ASCII.
- `StringUtil`, `CsvLineParser`, `WbStringTokenizer`, `SQLLexer`, `ConnectionProfile` and `MacroDefinition` are not part of this model. Their behaviour is written out where the code depends on it (trim, index, join, compare, number parsing), or taken as a parameter.
- `LobFileParameters.ParameterOf`: the tokenizer that splits a marker body (`WbStringTokenizer`) is a parameter with no contract. The parsed parameter is therefore proved only in terms of the tokens it returns.
- `ImportDml.RowEntryAsWritten`: an out-of-range `ConstantColumnValues.isFunctionCall(i)` is modelled as false. `ConstantColumnValues` is not part of this model.
- `adjustColumnNameCase` and `createColumnList` (ImportDMLStatementBuilder.java:880-902) are not modelled. Column names reach the builder already in the case the statement uses.
- `PkMappings.Lookup`: returns the stored column-list text. The split of that text into a list (`StringUtil.stringToList`, PkMapping.java:190) is left out.
- `DdlObjects.Parse`: requires that the first lexer read succeeds (`FirstReadable`). In the source, an exception in that read (DdlObjectInfo.java:111) escapes the constructor before the error handling starts. The known and nameless type sets and `removeObjectQuotes` are parameters. The `EDITIONABLE` skip word is modelled by `IsSkipWord`, with `OracleUtils.KEYWORD_EDITIONABLE` taken to be "EDITIONABLE"; `OracleUtils` is not part of this model. `getDisplayType` and `toString` are left out.
- `DdlObjects.DdlObjectInfo.ParseSql`: has the same `FirstReadable` requirement as `DdlObjects.Parse`.

Error paths excluded by a precondition:

- `MacroStorages.MacroStorage.AddMacroToGroup`: requires a group to exist when no group name is given. Java's `groups.get(0)` (MacroStorage.java:471) throws on an empty storage; that error path is not modelled.
- `MacroStorages.MacroStorage.AddToFirstGroup`: has the same non-empty requirement as `AddMacroToGroup`.
- `ProfileLists.ProfileListModel.CopyProfilesToGroup`: requires every copied profile and every profile of the target group to have a name (`LeafNamesPresent`). A profile without a name makes the Java code fail with a null dereference.
- `ProfileLists.AdjustCopiedProfileName`: has the same requirement for the copy and the group's children.

Values instead of objects:

- `MacroStorages.MacroStorage.AddMacroTo`: a `MacroDefinition` is a value, and two entries stand for the same definition when `SameMacro` holds, that is when they agree in every field but the sort order. Aliasing of a definition shared between groups is not modelled. When the macro is already in the group, it is stored once with its final sort order. `Reordered` identifies it by `SameMacro`, and the outcome of the move is stated as one of two cases.
- `MacroGroups.MacroGroup.AllMacros`: returns the sorted and renumbered list of visible and hidden macros, but does not write the new sort orders back into the group's own lists. In the source, `applySort` calls `setSortOrder` on the shared definitions (MacroGroup.java:169-176, 254-261), so the group's macros take those orders too. Macros are values here, so that aliasing effect is not modelled.
- `ConnectionProfiles`: `ConnectionProfile` is not part of this model. Three behaviours are assumed from how the list model uses it: `setGroups` marks the group as changed when the path differs; `setNew` makes the profile count as changed; `resetChangedFlags` clears the edited, regrouped and new marks. `createCopy` is taken to copy every field. A profile's tags are a set of strings tested by exact membership, as if `getTags` held them exactly as given; any normalisation of tags inside `ConnectionProfile` is not modelled. Profiles are compared by value equality of all their fields (`ProfileListModel.deleteProfile`, GroupNode's profile search), where the source uses `ConnectionProfile.equals`, which is not part of this model.
- `WbWorkspace` tab titles and external file names (`setTabTitle`, `getTabTitle`, `setExternalFileName`, `getExternalFileName`, WbWorkspace.java:508-620) are not modelled: they store values through `StringUtil.escapeText` and read them through `StringUtil.decodeUnicode`, which are not part of this model.
- `WorkspaceTabs.IntOr`: parses the property value as written. `StringUtil.getIntValue` is not part of this model, so any trimming of surrounding blanks it may do is not modelled.
- `MacroStorages.MacroStorage.MoveMacro`: the same value model of `MacroDefinition` applies. The `modified` flag of the individual definitions changed by renumbering is not tracked; the group-level effects (the source's deleted list and modified flag, the target's modified flag) are modelled.
- `Workspaces.WbWorkspace.OpenForReading`: a failure is modelled as happening before anything is read. In the source, an exception thrown after `readTabInfo` has run leaves the tab info read so far in place.

Operations not modelled:

- Macros: `sortGroupsByName`, `getVisibleGroups`, `getDbTreeMacros`, `clearAll`, `copyFrom`, `createCopy`, loading and saving the macro file, the group info file, and the change listeners. They are file I/O or listener notification.
- `ProfileListModel`: building the Swing tree (`buildTree`, `addProfile`, `addGroup`, `moveProfiles`) and the tree-model events are left out. The model covers the profile lists and the operations on them.
- Db2 source text:
  - the object-name quoting is a parameter;
  - SQL exceptions are not modelled;
  - `readPeriods`, `retrieveTableSource`, `getNativeTableSource` and the SQL catalog queries are left out;
  - the answers of the base class's decisions are parameters.
- DuckDB sequences: the catalog query is left out. Its rows are the input.
- `UnicodeReaders.UnicodeReader.Init`: stream I/O is replaced by the bytes the stream delivers. Character decoding itself is not modelled.
- `ZipFiles.ArchiveType`: the file-system checks (clipboard stand-in, existence, read failure) are parameters.
- Workspace persistence: the ZIP and directory formats are left out. Reading the workspace is given as its outcome.
- Threads and synchronisation are not modelled: the keep-alive daemon thread and the `synchronized` blocks of the macro storage and the workspace.
- `LobFileParameter` fields not set by a marker keep the constructor's defaults.
- Logging (`LogMgr`) is not modelled.

## Findings

| source | as written | input that shows it | evidently intended | confidence | as-written member | corrected member |
|---|---|---|---|---|---|---|
| workbench/src/main/java/workbench/db/importer/ImportDMLStatementBuilder.java:460-466 | The SQL Anywhere insert replaces `") VALUES ("`, but `createInsertStatement` writes `")\nVALUES \n("` (line 364). The replacement never matches, and the `ON EXISTING SKIP`/`UPDATE` clause is lost. | Any SQL Anywhere insert-ignore or upsert | The clause stands right before `VALUES` | high, not executed | ImportDmlProps.SqlAnywhereDropsClause | ImportDmlProps.SqlAnywhereCorrectedClause |
| workbench/src/main/java/workbench/db/importer/ImportDMLStatementBuilder.java:598-650 | In the standard MERGE, the `vals` row takes function-call constant i in the slot of target column i. The column list and the ON clause name the constant columns separately. | Targets `[a]` with a function-call constant `c = now()` | Each constant's literal in its own `vals` column | medium, not executed | ImportDmlProps.MergeConstantMisplaced | ImportDmlProps.MergeCorrectedConsistent |
| workbench/src/main/java/workbench/gui/profiles/GroupNode.java:98-115 | Renaming a group gives every profile below it the renamed group's own path, including profiles in sub-groups. | Group `a` holding sub-group `b` with profile `p`, renamed to `a2` | `p` gets `[a2, b]` | high, not executed | GroupNodes.NestedProfileLosesSubgroup | GroupNodes.RegroupPlacesProfiles |
| workbench/src/main/java/workbench/db/ibm/Db2TableSourceBuilder.java:185 | `LONG IN` is followed by the quoted index tablespace. | Index tablespace null, long tablespace `L` | `LONG IN L` | high, not executed | Db2TableSources.LongInIgnoresLongSpace | Db2TableSources.LongInNamesLongSpace |
| workbench/src/main/java/workbench/db/ibm/Db2TableSourceBuilder.java:315 | The comment decision returns the grants decision. | A builder that includes comments but not grants | Comments included | medium, not executed | Db2TableSources.CommentsFollowGrants | Db2TableSources.CommentIndependentOfGrants |
| workbench/src/main/java/workbench/gui/profiles/ProfileKey.java:189-209 | `hashCode` hashes the printed key, which includes the group path, but `equals` ignores the groups when either key has none. | `p` and `{g}/p` | Equal keys hash alike (name-only hash) | high, not executed | ProfileKeys.EqualKeysHashApart | ProfileKeys.KeyHashAgreesWithEquals |
