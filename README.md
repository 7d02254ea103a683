# FileBrowser navigation, modelled in Dafny

FileBrowser is an Android app that shows the device's external storage as a
list. You tap a directory to enter it and press Back to go up. When the
storage permission is missing, the app asks for it and then opens the
directory it was trying to open. All of this logic is in `MainActivity`. It
keeps three fields:

- the back stack of opened directories, `mDirectoryBackStack`;
- the displayed listing, `mDisplayedFiles`, which is null while the list
  view shows a message;
- the directory to open once the permission arrives, `mFileToOpen`.

Four event handlers change these fields: `openDirectory`, the list item
click handler, `onBackPressed`, and the permission request and its result.

The project has four modules:

- `FileOrder` (`file_order.dfy`): the natural order of `java.io.File` on
  Unix, which is lexicographic order on pathnames, and proofs that it is a
  total order.
- `Listings` (`listings.dfy`): the filter that drops hidden children, and a
  sort. The sort is proved to return a sorted permutation of its input.
  Because `SortedUnique` shows that a sorted permutation is unique, the
  model's listing is whatever `Collections.sort` produces. The sort's
  algorithm is not modelled.
- `Navigation` (`navigation.dfy`): each handler as a step function on the
  value `Nav(stack, displayed, pending)`. A step returns the new state and
  what the user sees, as `Effect` tags. The properties are lemmas about
  these functions: `OpenStep`, `ClickStep`, `BackStep`,
  `PermissionResultStep`, `RequestStep` and `RationaleOkStep`.
- `Activity` (`activity.dfy`): class `MainActivity`, whose fields are
  `stack`, `displayed` and `pending`. It has one method per handler, and each
  method updates the fields in place, as the Java code does. Each method
  ensures that its new state and effects equal its step function applied to
  the old state. Each method also keeps the invariant `Valid()`: a displayed
  listing is sorted.

The outside world is passed in as inputs:

- `Storage`: a snapshot of the file system. `children` maps a path to the
  result of `listFiles()`; a missing path means `listFiles()` returned null.
  It also holds the set of directories (`isDirectory`) and the set of hidden
  paths (`isHidden`).
- `Device`: whether the permission is granted, whether storage is
  `MEDIA_MOUNTED` or `MEDIA_MOUNTED_READ_ONLY`, and whether a rationale
  should be shown.

Some of the code's behaviour is easy to miss:

- Going back from a stack of size N > 1 does not always leave N - 1
  entries. It pops two entries and then reopens the parent. If that reopen
  is blocked (no permission, storage not mounted, or the parent cannot be
  listed), the stack ends at N - 2 (`BackWithoutPermission`,
  `BackToUnlistableParent`). The stack is back at N - 1 only if the parent
  is opened later.
- Permission is a yes/no answer from `checkSelfPermission`, and an entry is
  hidden when `File.isHidden` says so.
- The listing is sorted by full pathname (`File.compareTo`), not by name.
  All entries of one directory share the same parent prefix, so the two
  orders agree: a shared prefix keeps the order (`PathLeCommonPrefix`) and
  removing it keeps the order too (`PathLeStripPrefix`).
- When storage is not mounted, or the directory cannot be listed, the code
  shows no message, and the model shows none either.

## Model

| member | source | states |
|---|---|---|
| FileOrder.PathLe | app/src/main/java/com/filebrowser/MainActivity.java:145 | the order `File.compareTo` gives pathnames, defined character by character and characterised by the lemmas below; a pathname sorts no later than every extension of it |
| FileOrder.PathLeReflexive | app/src/main/java/com/filebrowser/MainActivity.java:145 | every pathname sorts no later than itself |
| FileOrder.PathLeAntisymmetric | app/src/main/java/com/filebrowser/MainActivity.java:145 | two pathnames that each sort no later than the other are equal |
| FileOrder.PathLeTransitive | app/src/main/java/com/filebrowser/MainActivity.java:145 | the pathname order is transitive |
| FileOrder.PathLeTotal | app/src/main/java/com/filebrowser/MainActivity.java:145 | any two pathnames are comparable, so the order `Collections.sort` uses is total |
| FileOrder.PathLeCommonPrefix | app/src/main/java/com/filebrowser/MainActivity.java:145 | putting the same parent path in front of two names keeps their order, so siblings sort by name |
| FileOrder.PathLeStripPrefix | app/src/main/java/com/filebrowser/MainActivity.java:145 | removing a shared parent path keeps the order, so the order of two siblings is the order of their names |
| Listings.Visible | app/src/main/java/com/filebrowser/MainActivity.java:138-143 | the filtered listing holds exactly the children that are not hidden, each as often as in `listFiles()`, and no hidden one |
| Listings.Insert | app/src/main/java/com/filebrowser/MainActivity.java:145 | placing one file into a sorted listing gives a sorted listing holding the old entries plus that file |
| Listings.Sort | app/src/main/java/com/filebrowser/MainActivity.java:145 | the sorted listing is in non-decreasing File order and is a permutation of its input |
| Listings.SortedUnique | app/src/main/java/com/filebrowser/MainActivity.java:145 | two sorted permutations of the same entries are equal |
| Listings.SortIsTheSortedPermutation | app/src/main/java/com/filebrowser/MainActivity.java:145 | any sorted permutation of a listing is what `Sort` returns, whatever algorithm produced it |
| Navigation.Listable | app/src/main/java/com/filebrowser/MainActivity.java:135 | the test that `directory.isDirectory()` holds and `listFiles()` is not null; a definition used by `OpenStep` and the lemmas below |
| Navigation.ListingOf | app/src/main/java/com/filebrowser/MainActivity.java:138-145 | the listing shown for a directory: sorted, holding exactly its children that are not hidden, each as often as `listFiles` reports it |
| Navigation.RequestStep | app/src/main/java/com/filebrowser/MainActivity.java:222-251 | `requestStoragePermission` never touches the stack or the listing; the pending file becomes the requested one only when no rationale is shown |
| Navigation.RationaleOkStep | app/src/main/java/com/filebrowser/MainActivity.java:232-240 | the rationale dialog's OK leaves the stack and the listing alone, records its file as pending and requests the permission |
| Navigation.OpenStep | app/src/main/java/com/filebrowser/MainActivity.java:115-161 | `openDirectory` either leaves the stack alone or pushes exactly the given directory; the listing changes only together with that push; the pending file changes only to that directory, when the permission is missing and no rationale is shown; the lemmas below give each case exactly |
| Navigation.ClickStep | app/src/main/java/com/filebrowser/MainActivity.java:62-107 | the click handler either leaves the stack alone or pushes exactly the clicked row; the pending file changes only when the permission is missing and no rationale is shown; the lemmas below give each case exactly |
| Navigation.BackStep | app/src/main/java/com/filebrowser/MainActivity.java:192-215 | at the top level Back changes nothing; below it the stack ends as the old stack minus its top one or top two entries |
| Navigation.PermissionResultStep | app/src/main/java/com/filebrowser/MainActivity.java:257-280 | a permission result either leaves the stack alone or pushes exactly the pending file; anything but a first grant leaves the whole state unchanged |
| Navigation.OpenNullOnlyShowsError | app/src/main/java/com/filebrowser/MainActivity.java:119-122 | `openDirectory(null)` leaves the stack, the listing and the pending file unchanged and only shows `error_reading_storage` |
| Navigation.OpenWithoutPermission | app/src/main/java/com/filebrowser/MainActivity.java:126-128 | without the permission, `openDirectory(d)` does not push or change the listing; it records `d` as pending and requests the permission, or shows the rationale dialog and leaves the pending file unchanged |
| Navigation.OpenListable | app/src/main/java/com/filebrowser/MainActivity.java:131-154 | granted, mounted and listable: the stack grows by `d` on top of the unchanged stack; the listing is sorted, holds no hidden entry, and holds exactly the visible children of `d` with their multiplicities; the pending file is unchanged |
| Navigation.OpenShowsAnySortedVisiblePermutation | app/src/main/java/com/filebrowser/MainActivity.java:138-145 | the displayed listing equals every sorted permutation of the visible children |
| Navigation.OpenBlocked | app/src/main/java/com/filebrowser/MainActivity.java:131-135 | granted but unmounted, not a directory, or `listFiles()` null: nothing changes and nothing is shown |
| Navigation.OpenPushesIffListed | app/src/main/java/com/filebrowser/MainActivity.java:115-161 | `openDirectory` changes the stack if and only if it lists the directory, and then pushes exactly that directory |
| Navigation.OpenedListingIsClean | app/src/main/java/com/filebrowser/MainActivity.java:138-151 | after any open that pushed, the listing is sorted and has no hidden entry |
| Navigation.BackAtTopLevel | app/src/main/java/com/filebrowser/MainActivity.java:193-214 | with at most one stack entry, Back changes nothing and only shows the exit prompt |
| Navigation.BackReopensParent | app/src/main/java/com/filebrowser/MainActivity.java:193-198 | with more than one entry, Back is `openDirectory` of the second entry from the top, applied after both top entries are popped |
| Navigation.BackToListableParent | app/src/main/java/com/filebrowser/MainActivity.java:193-198 | when the parent can be reopened, the stack is the old stack minus its top, with the parent relisted |
| Navigation.BackWithoutPermission | app/src/main/java/com/filebrowser/MainActivity.java:193-198 | when the reopen waits for the permission with no rationale, the stack has lost both entries, the listing is unchanged and the parent is pending |
| Navigation.BackToUnlistableParent | app/src/main/java/com/filebrowser/MainActivity.java:193-198 | when the parent cannot be listed, the stack has lost both entries and nothing else changes |
| Navigation.BackUndoesOpen | app/src/main/java/com/filebrowser/MainActivity.java:135-151 | opening a directory and then going back restores the stack exactly and relists the previous directory |
| Navigation.ClickWithoutListing | app/src/main/java/com/filebrowser/MainActivity.java:67-75 | with no listing, a click never touches the stack; it requests the permission for the storage root only when the permission is not granted, and otherwise does nothing |
| Navigation.ClickOnFile | app/src/main/java/com/filebrowser/MainActivity.java:101-105 | clicking a file changes no state and only shows the `file_selected_error` toast |
| Navigation.ClickOnUnlistableDirectory | app/src/main/java/com/filebrowser/MainActivity.java:81-90 | clicking a directory whose `listFiles` is null fails before any state changes |
| Navigation.ClickOnNonEmptyDirectory | app/src/main/java/com/filebrowser/MainActivity.java:88-91 | clicking a directory with visible children is `openDirectory` on it |
| Navigation.ClickOnEmptyDirectory | app/src/main/java/com/filebrowser/MainActivity.java:90-100 | clicking a directory with no visible children pushes it and clears the listing, whatever the permission and mount state |
| Navigation.GrantedOpensPending | app/src/main/java/com/filebrowser/MainActivity.java:262-265 | a granted result behaves exactly as `openDirectory` of the pending file |
| Navigation.DeniedClearsView | app/src/main/java/com/filebrowser/MainActivity.java:266-277 | a denied or empty result leaves the state as `openDirectory(null)` does, and shows the error dialog, the storage error and an empty path label |
| Navigation.OtherRequestCodeIgnored | app/src/main/java/com/filebrowser/MainActivity.java:259-260 | a result for another request code changes nothing |
| Navigation.PermissionRoundTrip | app/src/main/java/com/filebrowser/MainActivity.java:245-249 | asking for the permission with no rationale and then being granted it ends as opening the directory with the permission would, with that directory pending |
| Navigation.RationaleRoundTrip | app/src/main/java/com/filebrowser/MainActivity.java:226-242 | with the rationale path, nothing changes until the dialog's OK; after OK and a grant, the result is as for a direct open |
| Navigation.DenialRoundTrip | app/src/main/java/com/filebrowser/MainActivity.java:266-277 | asking for the permission and being refused leaves the stack and the listing as they were |
| Navigation.StepsKeepListingSorted | app/src/main/java/com/filebrowser/MainActivity.java:144-145 | every handler keeps the displayed listing sorted |
| Navigation.SelectDirectoryOfTwo | app/src/main/java/com/filebrowser/MainActivity.java:78-91 | selecting a subdirectory whose two visible files come out of order lists them in order and pushes it |
| Navigation.SelectPhotos | app/src/main/java/com/filebrowser/MainActivity.java:78-91 | from `/sdcard`, selecting `/sdcard/Photos`, which holds `b.jpg` and `a.jpg`, lists `a.jpg` first and makes the stack `[/sdcard, /sdcard/Photos]` |
| Navigation.PhotosInNameOrder | app/src/main/java/com/filebrowser/MainActivity.java:145 | `/sdcard/Photos/a.jpg` sorts before `/sdcard/Photos/b.jpg` |
| Activity.MainActivity.constructor | app/src/main/java/com/filebrowser/MainActivity.java:41-47 | the activity starts with an empty stack, no listing and no pending file |
| Activity.MainActivity.OnCreate | app/src/main/java/com/filebrowser/MainActivity.java:55-58 | start-up is `openDirectory` of the storage root |
| Activity.MainActivity.OpenDirectory | app/src/main/java/com/filebrowser/MainActivity.java:115-161 | the fields become the `openDirectory` step of their old values, and the listing stays sorted |
| Activity.MainActivity.RequestStoragePermission | app/src/main/java/com/filebrowser/MainActivity.java:222-251 | records the file as pending and requests the permission, or only shows the rationale dialog |
| Activity.MainActivity.OnRationaleOk | app/src/main/java/com/filebrowser/MainActivity.java:232-240 | the dialog's OK records its file as pending and requests the permission |
| Activity.MainActivity.OnItemClick | app/src/main/java/com/filebrowser/MainActivity.java:62-107 | the fields become the click step of their old values for the clicked row |
| Activity.MainActivity.OnBackPressed | app/src/main/java/com/filebrowser/MainActivity.java:192-215 | two pops in place and then `openDirectory` of the parent, or the exit prompt |
| Activity.MainActivity.OnRequestPermissionsResult | app/src/main/java/com/filebrowser/MainActivity.java:257-280 | the fields become the permission-result step of their old values |

## Left out

- Rendering: the list adapters, `FileListAdapter`, toasts, dialog construction and the path label. Each thing the user would see is an `Effect` tag in the order it is shown.
- The permission framework and `Environment` mount queries: the model gets their answers as `Device` values and does not cover how the OS decides them.
- File system I/O: one `Storage` snapshot is used for each event, so the two `listFiles` calls in `openDirectory` always agree.
- `Collections.sort` sorts the list in place (MainActivity.java:145). The model sorts a value and proves only that the result is sorted and a permutation, which determines it.
- Character order: Java compares UTF-16 code units; Dafny's `char` is a Unicode scalar value. The two orders differ only for characters outside the Basic Multilingual Plane.
- The exit dialog's OK runs `finish()` and its cancel does nothing. `ExitPromptShown` is the terminal output; nothing after it is modelled.
- The rationale dialog has only an OK button. Dismissing it starts no event. Its OK is the separate event `OnRationaleOk`.
- At MainActivity.java:90, a directory whose filtered `listFiles` returns null makes the handler dereference null. The model reports this as the `ListingFailed` effect with the state unchanged, and adds no recovery.
- The `file != null` test at MainActivity.java:79 is not modelled, because listing entries are never null here.
- Clicks are limited to rows of the displayed listing (`position < |displayed|`). The list view can show the single `error_reading_storage` row while `mDisplayedFiles` still holds an older listing. In that case the row at position 0 stands for that listing's first file. If the older listing is empty, the Java code would index out of bounds; the model does not cover that case.
- Activity re-creation by the OS (the fields are not saved) and the `permissions` argument of `onRequestPermissionsResult`, which the code never reads.
