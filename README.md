# Drive UI navigation core, in Dafny

This project models the logic behind the mock file-storage page of the
Vault web application. The page shows a folder of a static, hand-written
drive together with a breadcrumb trail from "My Drive" to that folder. Two
pieces of that page have behaviour:

- **Folder navigation** (`navigateToFolder`). The page keeps the open folder
  and a breadcrumb trail. Navigating to an identifier that is already on the
  trail cuts the trail back to its first entry for that identifier. Any other
  identifier is pushed as a new entry. The open folder then becomes the
  target, whatever the target is.
- **The listing** (`folderContents`). The open folder is looked up in the
  store. The listing is empty when the entry is absent or is a file.
  Otherwise the listing holds the folder's children, looked up in the store
  and kept in stored order. Children that do not resolve are dropped.

Files:

- `items.dfy`, module `DriveItems`: files, folders, the `type` tag, the
  `isFolder` type guard, and the store with its lookup.
- `listing.dfy`, module `FolderListing`: the listing as a `map` step
  (`LookupAll`) followed by a `filter` step (`Present`). `ResolvingPositions`
  is an independent description of the listing: the increasing positions of
  the children that resolve. The lemmas tie the two together.
- `navigation.dfy`, module `Navigation`: the breadcrumb trail and its
  invariant. `FirstIndex` specifies `findIndex`, and `FindIndex` is the
  scanning loop proved against it. The class `NavigationState` holds the two
  state slots of the page, and its `Navigate` method is `navigateToFolder`.
- `sample.dfy`, module `SampleDrive`: the page's sample data and scenarios
  over it.

The trail invariant (`TrailInvariant`) holds in every reachable state. It
says that the trail is non-empty, that it starts with the root entry
`("root", "My Drive")`, that it ends with the open folder, and that no
identifier occurs twice on it.

## Model

| member | source | states |
|---|---|---|
| `DriveItems.IsFolder` | src/app/page.tsx:61-63 | The guard tests the `type` tag only, and it holds exactly for items of the folder shape, so reading `children` after it is safe. |
| `DriveItems.Tag` | src/app/page.tsx:40-49 | The `type` field is "folder" exactly for items of the folder shape; for a file it is the file's content kind. |
| `DriveItems.Lookup` | src/app/page.tsx:183 | Indexing the store yields a value exactly when the identifier is a key, and that value is the item stored under the key. An absent key gives "absent", never a fault. |
| `FolderListing.LookupAll` | src/app/page.tsx:187 | The `map` step keeps one entry per child identifier, and entry k is the lookup of child k. |
| `FolderListing.Present` | src/app/page.tsx:188 | The `filter` step is never longer than its input, and it keeps only values that were present in the input. |
| `FolderListing.FolderContents` | src/app/page.tsx:183-189 | The listing is empty for an absent identifier and for a file. For a folder it has at most as many entries as the folder has children. Every listed entry is an item of the store. |
| `FolderListing.ResolvingPositions` | src/app/page.tsx:186-188 | The positions of the children that resolve: strictly increasing, each in range and resolving, and every resolving child's position is included. |
| `FolderListing.PresentAppend` | src/app/page.tsx:188 | Filtering distributes over concatenation, so the filter keeps the relative order of what it keeps. |
| `FolderListing.PresentLookupAllAtPositions` | src/app/page.tsx:186-188 | Map then filter yields one entry per resolving child. Entry k is the store item of the k-th child that resolves. |
| `FolderListing.FolderContentsExact` | src/app/page.tsx:183-189 | A folder's listing is exactly the store items of its resolving children, in the children's order, and nothing else. |
| `FolderListing.ResolvedChildListed` | src/app/page.tsx:186-188 | Every child that resolves has its item in the listing, so none is dropped except the unresolved ones. |
| `FolderListing.PresentAllResolve` | src/app/page.tsx:186-188 | When every identifier resolves, map then filter yields the identifiers mapped through the store, one to one and in order. |
| `FolderListing.FolderContentsAllResolve` | src/app/page.tsx:183-189 | When all children of a folder resolve, its listing is its children mapped through the store, in order. |
| `FolderListing.EmptyFolderListsNothing` | src/app/page.tsx:184-189 | A folder with no children lists nothing. |
| `Navigation.FirstIndex` | src/app/page.tsx:166-168 | The result is -1 exactly when no trail entry has the identifier. Otherwise it is the position of the first entry that has it. |
| `Navigation.NextTrail` | src/app/page.tsx:166-176 | The trail after a navigation always ends at the target, and it is a prefix of the old trail with the entry (target, name) appended: a cut-back or a one-entry push. |
| `Navigation.FindIndex` | src/app/page.tsx:166-168 | The front-to-back scan returns the first matching position, or -1 when nothing matches. |
| `Navigation.NavigateBack` | src/app/page.tsx:170-173 | When the target is on the trail, the new trail is a non-empty prefix of the old one. It ends at the target, and the target occurs nowhere earlier in it. |
| `Navigation.NavigateForward` | src/app/page.tsx:174-176 | When the target is not on the trail, the new trail is the old one with the entry (target, name) appended, and every earlier entry is unchanged. |
| `Navigation.NameIgnoredOnMatch` | src/app/page.tsx:170-173 | When the target is on the trail, the name passed has no effect. The stored entry keeps its original name. |
| `Navigation.NextTrailKeepsInvariant` | src/app/page.tsx:164-180 | From any state that satisfies the trail invariant, navigating to any identifier gives a state that satisfies it, with the target as the open folder. |
| `Navigation.NavigateToCurrentIsNoOp` | src/app/page.tsx:166-173 | In a valid state, navigating to the open folder leaves the trail unchanged. |
| `Navigation.Session` | src/app/page.tsx:158-180 | The state after any sequence of navigations from the initial state has a non-empty trail that starts at the root entry and ends at the open folder. |
| `Navigation.SessionKeepsInvariant` | src/app/page.tsx:158-180 | Every state reached from the initial state by any sequence of navigations satisfies the trail invariant. |
| `Navigation.NavigationState.constructor` | src/app/page.tsx:158-161 | The initial state is the root folder with the one-entry trail `("root", "My Drive")`, and it satisfies the invariant. |
| `Navigation.NavigationState.Navigate` | src/app/page.tsx:164-180 | The new trail is the cut-back-or-push of the old trail. The open folder becomes the target unconditionally. The trail invariant is preserved. |
| `SampleDrive.MockEntries` | src/app/page.tsx:66-155 | A helper fact for the scenarios below: each sample identifier indexes the item written under it. |
| `SampleDrive.RootListing` | src/app/page.tsx:67-72 | The root lists Documents, Images, and the three top-level files, in that order. |
| `SampleDrive.Folder3Listing` | src/app/page.tsx:85-90 | The "Work" folder lists exactly the one file "Report.pdf", a pdf of 3.5 MB. |
| `SampleDrive.NonFolderListings` | src/app/page.tsx:183-189 | A file identifier and an unknown identifier both give an empty listing. |
| `SampleDrive.DescendScenario` | src/app/page.tsx:164-180 | From the start, opening Documents and then Work gives the trail root, Documents, Work, with Work open. |
| `SampleDrive.CompactionScenario` | src/app/page.tsx:170-173 | Opening two folders and then clicking the root crumb gives back the one-entry trail, with root open. |
| `SampleDrive.RepeatScenario` | src/app/page.tsx:170-173 | Clicking the open folder again, even under another name, leaves the trail as it was. |

## Left out

- `getFileIcon` (src/app/page.tsx:192-207) is left out. It only picks a decorative icon and colour.
- All JSX rendering is left out. This covers the header, the breadcrumb buttons, the file rows and the empty-folder message. The upload dialog, the Download/Rename/Move/Delete menu items and the fixed storage bar are left out too. None of them has backing logic.
- src/components/SideBar.tsx is not part of this model. It is static markup.
- The `url`, `size` and `modified` fields are kept as uninterpreted strings. They are display data with no behaviour.
- React state plumbing is left out. The two `useState` slots are plain fields of `NavigationState`, and every call of `Navigate` sees the latest state. In React, a handler reads the snapshot taken at render time. Two navigations inside one handler would therefore both start from the same trail. The model does not capture this.
- The `as FolderItem | undefined` cast at src/app/page.tsx:183 has no effect at run time. The model decides with the type guard alone.
- `navigateToFolder` does not check that the target names a folder: it accepts any identifier, and a file or an unknown identifier lists nothing. The model follows the code.
- DriveItems.Lookup: the store is modelled as a map, so an identifier that is not a key is absent. In the source the store is a plain object literal, and indexing it also finds inherited properties such as "constructor" or "toString", which are truthy and would pass the filter. Inherited property names are not modelled, so the "absent" and "exactly the store items" promises hold only for identifiers that are not inherited property names. The sample data never uses such an identifier.
