/** The directory-navigation state machine of the file browser's main
    activity, as functions on its state: the back stack of opened
    directories, the displayed listing (absent when the activity shows a
    message instead) and the one directory waiting for the storage
    permission. Each event of the activity is one step function; the
    Android framework and the file system are inputs. */
module Navigation {
  import opened FileOrder
  import opened Listings

  datatype Option<T> = None | Some(value: T)

  /** A snapshot of the storage as java.io.File reports it. A path missing
      from children is one whose listFiles() returns null; a directory can
      be unlistable (an I/O error) and a plain file is never listable. */
  datatype Storage = Storage(
    children: map<Path, seq<Path>>,
    directories: set<Path>,
    hidden: set<Path>)

  /** The framework's answers at the time of an event: whether the
      READ_EXTERNAL_STORAGE permission is granted, whether the external
      storage state is MEDIA_MOUNTED or MEDIA_MOUNTED_READ_ONLY, and
      whether a rationale should be shown before asking. */
  datatype Device = Device(granted: bool, mounted: bool, showRationale: bool)

  /** PackageManager.PERMISSION_GRANTED and PERMISSION_DENIED. */
  const PermissionGranted: int := 0
  const PermissionDenied: int := -1

  /** The request code the activity passes to requestPermissions. */
  const ReadExternalStorageRequest: int := 1

  /** What an event makes visible to the user, in order. */
  datatype Effect =
    | ListingShown(dir: Path)           // the listing in the list view, dir in the path label
    | StorageErrorShown                 // error_reading_storage as the only list item
    | EmptyDirectoryShown(dir: Path)    // directory_is_empty as the only list item, dir in the path label
    | FileSelectedToast                 // file_selected_error
    | RationaleDialogShown(file: Path)  // its OK button asks for the permission to open file
    | PermissionRequested               // the framework's permission dialog
    | ExitPromptShown                   // its OK button finishes the activity
    | PermissionErrorDialogShown
    | PathLabelCleared
    | ListingFailed                     // the click handler dereferences a null listFiles result

  /** mDirectoryBackStack (top last), mDisplayedFiles, mFileToOpen. */
  datatype Nav = Nav(stack: seq<Path>, displayed: Option<seq<Path>>, pending: Option<Path>)

  /** The state after an event and what the event showed. */
  datatype Step = Step(next: Nav, effects: seq<Effect>)

  /** The directory can be opened: File.isDirectory() holds and
      File.listFiles() is not null. */
  predicate Listable(fs: Storage, d: Path) {
    d in fs.directories && d in fs.children
  }

  /** The listing openDirectory displays for d. */
  function ListingOf(fs: Storage, d: Path): (r: seq<Path>)
    requires d in fs.children
    ensures Sorted(r)
    ensures forall p :: p in r <==> p in fs.children[d] && p !in fs.hidden
    ensures multiset(r) == multiset(Visible(fs.children[d], fs.hidden))
  {
    Sort(Visible(fs.children[d], fs.hidden))
  }

  /** The displayed listing, if any, is in File order. */
  predicate ListingSorted(s: Nav) {
    s.displayed.Some? ==> Sorted(s.displayed.value)
  }

  /** requestStoragePermission(file). */
  function RequestStep(s: Nav, file: Path, dev: Device): (r: Step)
    ensures r.next.stack == s.stack && r.next.displayed == s.displayed
    ensures r.next.pending == (if dev.showRationale then s.pending else Some(file))
  {
    if dev.showRationale then Step(s, [RationaleDialogShown(file)])
    else Step(s.(pending := Some(file)), [PermissionRequested])
  }

  /** The OK button of the rationale dialog shown for file. */
  function RationaleOkStep(s: Nav, file: Path): (r: Step)
    ensures r.next.stack == s.stack && r.next.displayed == s.displayed
    ensures r.next.pending == Some(file) && r.effects == [PermissionRequested]
  {
    Step(s.(pending := Some(file)), [PermissionRequested])
  }

  /** openDirectory(dir), where None stands for a null File. */
  function OpenStep(s: Nav, dir: Option<Path>, fs: Storage, dev: Device): (r: Step)
    ensures r.next.stack == s.stack || (dir.Some? && r.next.stack == s.stack + [dir.value])
    ensures r.next.displayed == s.displayed || (dir.Some? && r.next.stack == s.stack + [dir.value])
    ensures r.next.pending != s.pending ==> dir.Some? && r.next.pending == dir && !dev.granted && !dev.showRationale
  {
    match dir
    case None => Step(s, [StorageErrorShown])
    case Some(d) =>
      if !dev.granted then RequestStep(s, d, dev)
      else if dev.mounted && Listable(fs, d) then
        Step(s.(stack := s.stack + [d], displayed := Some(ListingOf(fs, d))), [ListingShown(d)])
      else Step(s, [])
  }

  /** The list view's item click handler for the row at position; the
      list view only reports rows of the listing it shows. */
  function ClickStep(s: Nav, position: nat, storageRoot: Path, fs: Storage, dev: Device): (r: Step)
    requires s.displayed.Some? ==> position < |s.displayed.value|
    ensures r.next.stack == s.stack ||
      (s.displayed.Some? && r.next.stack == s.stack + [s.displayed.value[position]])
    ensures r.next.pending != s.pending ==> !dev.granted && !dev.showRationale
  {
    match s.displayed
    case None =>
      if !dev.granted then RequestStep(s, storageRoot, dev) else Step(s, [])
    case Some(files) =>
      var file := files[position];
      if file !in fs.directories then Step(s, [FileSelectedToast])
      else if file !in fs.children then Step(s, [ListingFailed])
      else if |Visible(fs.children[file], fs.hidden)| > 0 then OpenStep(s, Some(file), fs, dev)
      else Step(s.(stack := s.stack + [file], displayed := None), [EmptyDirectoryShown(file)])
  }

  /** onBackPressed: pop the current directory, pop its parent and reopen
      it; at the top level only prompt for exit. */
  function BackStep(s: Nav, fs: Storage, dev: Device): (r: Step)
    ensures |s.stack| <= 1 ==> r.next == s
    ensures |s.stack| > 1 ==>
      r.next.stack == s.stack[..|s.stack| - 2] || r.next.stack == s.stack[..|s.stack| - 1]
  {
    var n := |s.stack|;
    if n > 1 then OpenStep(s.(stack := s.stack[..n - 2]), Some(s.stack[n - 2]), fs, dev)
    else Step(s, [ExitPromptShown])
  }

  /** onRequestPermissionsResult(requestCode, permissions, grantResults);
      an empty grantResults means the request was cancelled. */
  function PermissionResultStep(s: Nav, requestCode: int, grantResults: seq<int>, fs: Storage, dev: Device): (r: Step)
    ensures r.next.stack == s.stack || (s.pending.Some? && r.next.stack == s.stack + [s.pending.value])
    ensures !(|grantResults| > 0 && grantResults[0] == PermissionGranted) ==> r.next == s
  {
    if requestCode != ReadExternalStorageRequest then Step(s, [])
    else if |grantResults| > 0 && grantResults[0] == PermissionGranted then OpenStep(s, s.pending, fs, dev)
    else
      var cleared := OpenStep(s, None, fs, dev);
      Step(cleared.next, [PermissionErrorDialogShown] + cleared.effects + [PathLabelCleared])
  }

  // ---------------------------------------------------------------------
  // openDirectory

  lemma OpenNullOnlyShowsError(s: Nav, fs: Storage, dev: Device)
    ensures OpenStep(s, None, fs, dev).next == s
    ensures OpenStep(s, None, fs, dev).effects == [StorageErrorShown]
  {
  }

  lemma OpenWithoutPermission(s: Nav, d: Path, fs: Storage, dev: Device)
    requires !dev.granted
    ensures var r := OpenStep(s, Some(d), fs, dev).next;
      r.stack == s.stack && r.displayed == s.displayed &&
      r.pending == (if dev.showRationale then s.pending else Some(d))
    ensures OpenStep(s, Some(d), fs, dev).effects ==
      (if dev.showRationale then [RationaleDialogShown(d)] else [PermissionRequested])
  {
  }

  /** A successful open shows exactly the visible children of d, each once,
      sorted, and pushes d on top of the unchanged stack. */
  lemma OpenListable(s: Nav, d: Path, fs: Storage, dev: Device)
    requires dev.granted && dev.mounted && Listable(fs, d)
    ensures var r := OpenStep(s, Some(d), fs, dev);
      r.next.stack == s.stack + [d] && r.next.pending == s.pending &&
      r.next.displayed.Some? && r.effects == [ListingShown(d)]
    ensures var files := OpenStep(s, Some(d), fs, dev).next.displayed.value;
      Sorted(files) &&
      (forall p :: p in files ==> p !in fs.hidden) &&
      (forall p :: p in files <==> p in fs.children[d] && p !in fs.hidden) &&
      multiset(files) == multiset(Visible(fs.children[d], fs.hidden))
  {
  }

  /** Whatever sorting algorithm orders the visible children, the listing
      openDirectory shows is that sorted result. */
  lemma OpenShowsAnySortedVisiblePermutation(s: Nav, d: Path, fs: Storage, dev: Device, sorted: seq<Path>)
    requires dev.granted && dev.mounted && Listable(fs, d)
    requires Sorted(sorted) && multiset(sorted) == multiset(Visible(fs.children[d], fs.hidden))
    ensures OpenStep(s, Some(d), fs, dev).next.displayed == Some(sorted)
  {
    SortIsTheSortedPermutation(Visible(fs.children[d], fs.hidden), sorted);
  }

  lemma OpenBlocked(s: Nav, d: Path, fs: Storage, dev: Device)
    requires dev.granted && !(dev.mounted && Listable(fs, d))
    ensures OpenStep(s, Some(d), fs, dev) == Step(s, [])
  {
  }

  /** openDirectory pushes if and only if it lists the directory, and then
      by exactly one entry. */
  lemma OpenPushesIffListed(s: Nav, dir: Option<Path>, fs: Storage, dev: Device)
    ensures var r := OpenStep(s, dir, fs, dev).next;
      (r.stack != s.stack <==> dir.Some? && dev.granted && dev.mounted && Listable(fs, dir.value)) &&
      (r.stack == s.stack || r.stack == s.stack + [dir.value])
  {
    var r := OpenStep(s, dir, fs, dev).next;
    if dir.Some? && dev.granted && dev.mounted && Listable(fs, dir.value) {
      assert |r.stack| == |s.stack| + 1;
    }
  }

  /** After any open that pushed, the listing has no hidden entry and is in
      non-decreasing File order. */
  lemma OpenedListingIsClean(s: Nav, dir: Option<Path>, fs: Storage, dev: Device)
    requires OpenStep(s, dir, fs, dev).next.stack != s.stack
    ensures var r := OpenStep(s, dir, fs, dev).next;
      r.displayed.Some? && Sorted(r.displayed.value) &&
      forall p :: p in r.displayed.value ==> p !in fs.hidden
  {
    OpenPushesIffListed(s, dir, fs, dev);
  }

  // ---------------------------------------------------------------------
  // onBackPressed

  lemma BackAtTopLevel(s: Nav, fs: Storage, dev: Device)
    requires |s.stack| <= 1
    ensures BackStep(s, fs, dev) == Step(s, [ExitPromptShown])
  {
  }

  lemma BackReopensParent(s: Nav, fs: Storage, dev: Device)
    requires |s.stack| > 1
    ensures var n := |s.stack|;
      BackStep(s, fs, dev) == OpenStep(s.(stack := s.stack[..n - 2]), Some(s.stack[n - 2]), fs, dev)
  {
  }

  /** When the parent can be listed again, going back leaves one entry
      fewer, with the parent on top. */
  lemma BackToListableParent(s: Nav, fs: Storage, dev: Device)
    requires |s.stack| > 1
    requires dev.granted && dev.mounted && Listable(fs, s.stack[|s.stack| - 2])
    ensures var r := BackStep(s, fs, dev).next;
      r.stack == s.stack[..|s.stack| - 1] &&
      r.displayed == Some(ListingOf(fs, s.stack[|s.stack| - 2])) &&
      r.pending == s.pending
    ensures BackStep(s, fs, dev).effects == [ListingShown(s.stack[|s.stack| - 2])]
  {
    var n := |s.stack|;
    assert s.stack[..n - 2] + [s.stack[n - 2]] == s.stack[..n - 1];
  }

  /** When the reopen waits for the permission, both entries are gone and
      the parent is the directory to open once it is granted. */
  lemma BackWithoutPermission(s: Nav, fs: Storage, dev: Device)
    requires |s.stack| > 1 && !dev.granted && !dev.showRationale
    ensures var r := BackStep(s, fs, dev).next;
      r.stack == s.stack[..|s.stack| - 2] &&
      r.displayed == s.displayed &&
      r.pending == Some(s.stack[|s.stack| - 2])
  {
  }

  /** When the parent cannot be listed, both entries are gone and the
      former listing stays on screen. */
  lemma BackToUnlistableParent(s: Nav, fs: Storage, dev: Device)
    requires |s.stack| > 1 && dev.granted && !(dev.mounted && Listable(fs, s.stack[|s.stack| - 2]))
    ensures BackStep(s, fs, dev) == Step(s.(stack := s.stack[..|s.stack| - 2]), [])
  {
  }

  /** Going back undoes opening a directory: the stack is as before and the
      previous directory is listed afresh. */
  lemma {:induction false} BackUndoesOpen(s: Nav, d: Path, fs: Storage, dev: Device)
    requires s.stack != [] && dev.granted && dev.mounted
    requires Listable(fs, d) && Listable(fs, s.stack[|s.stack| - 1])
    ensures var back := BackStep(OpenStep(s, Some(d), fs, dev).next, fs, dev);
      back.next == s.(displayed := Some(ListingOf(fs, s.stack[|s.stack| - 1]))) &&
      back.effects == [ListingShown(s.stack[|s.stack| - 1])]
  {
    var n := |s.stack|;
    var pushed := s.stack + [d];
    assert pushed[..n - 1] + [pushed[n - 1]] == s.stack;
  }

  // ---------------------------------------------------------------------
  // The click handler

  lemma ClickWithoutListing(s: Nav, position: nat, storageRoot: Path, fs: Storage, dev: Device)
    requires s.displayed.None?
    ensures ClickStep(s, position, storageRoot, fs, dev).next.stack == s.stack
    ensures ClickStep(s, position, storageRoot, fs, dev) ==
      if dev.granted then Step(s, []) else RequestStep(s, storageRoot, dev)
  {
  }

  lemma ClickOnFile(s: Nav, position: nat, storageRoot: Path, fs: Storage, dev: Device)
    requires s.displayed.Some? && position < |s.displayed.value|
    requires s.displayed.value[position] !in fs.directories
    ensures ClickStep(s, position, storageRoot, fs, dev) == Step(s, [FileSelectedToast])
  {
  }

  lemma ClickOnUnlistableDirectory(s: Nav, position: nat, storageRoot: Path, fs: Storage, dev: Device)
    requires s.displayed.Some? && position < |s.displayed.value|
    requires var file := s.displayed.value[position]; file in fs.directories && file !in fs.children
    ensures ClickStep(s, position, storageRoot, fs, dev) == Step(s, [ListingFailed])
  {
  }

  lemma ClickOnNonEmptyDirectory(s: Nav, position: nat, storageRoot: Path, fs: Storage, dev: Device)
    requires s.displayed.Some? && position < |s.displayed.value|
    requires var file := s.displayed.value[position];
      Listable(fs, file) && |Visible(fs.children[file], fs.hidden)| > 0
    ensures ClickStep(s, position, storageRoot, fs, dev) ==
      OpenStep(s, Some(s.displayed.value[position]), fs, dev)
  {
  }

  /** An empty directory is entered without consulting the permission or
      the mount state: it is pushed and no listing is displayed. */
  lemma ClickOnEmptyDirectory(s: Nav, position: nat, storageRoot: Path, fs: Storage, dev: Device, other: Device)
    requires s.displayed.Some? && position < |s.displayed.value|
    requires var file := s.displayed.value[position];
      Listable(fs, file) && Visible(fs.children[file], fs.hidden) == []
    ensures var file := s.displayed.value[position];
      ClickStep(s, position, storageRoot, fs, dev) ==
      Step(Nav(s.stack + [file], None, s.pending), [EmptyDirectoryShown(file)])
    ensures ClickStep(s, position, storageRoot, fs, dev) == ClickStep(s, position, storageRoot, fs, other)
  {
  }

  // ---------------------------------------------------------------------
  // Permission results

  lemma GrantedOpensPending(s: Nav, grantResults: seq<int>, fs: Storage, dev: Device)
    requires |grantResults| > 0 && grantResults[0] == PermissionGranted
    ensures PermissionResultStep(s, ReadExternalStorageRequest, grantResults, fs, dev) ==
      OpenStep(s, s.pending, fs, dev)
  {
  }

  lemma DeniedClearsView(s: Nav, grantResults: seq<int>, fs: Storage, dev: Device)
    requires grantResults == [] || grantResults[0] != PermissionGranted
    ensures var r := PermissionResultStep(s, ReadExternalStorageRequest, grantResults, fs, dev);
      r.next == s && r.next == OpenStep(s, None, fs, dev).next &&
      r.effects == [PermissionErrorDialogShown, StorageErrorShown, PathLabelCleared]
  {
  }

  lemma OtherRequestCodeIgnored(s: Nav, requestCode: int, grantResults: seq<int>, fs: Storage, dev: Device)
    requires requestCode != ReadExternalStorageRequest
    ensures PermissionResultStep(s, requestCode, grantResults, fs, dev) == Step(s, [])
  {
  }

  /** Opening a directory without the permission and then being granted it
      ends where opening it with the permission would have, except that the
      directory stays recorded as the pending one. */
  lemma {:induction false} PermissionRoundTrip(s: Nav, d: Path, fs: Storage, before: Device, after: Device)
    requires !before.granted && !before.showRationale
    ensures var asked := OpenStep(s, Some(d), fs, before).next;
      PermissionResultStep(asked, ReadExternalStorageRequest, [PermissionGranted], fs, after) ==
      OpenStep(s.(pending := Some(d)), Some(d), fs, after)
  {
    var asked := OpenStep(s, Some(d), fs, before).next;
    assert asked == s.(pending := Some(d));
  }

  /** The same through the rationale dialog, once its OK button is pressed. */
  lemma {:induction false} RationaleRoundTrip(s: Nav, d: Path, fs: Storage, before: Device, after: Device)
    requires !before.granted && before.showRationale
    ensures var shown := OpenStep(s, Some(d), fs, before);
      shown.next == s && shown.effects == [RationaleDialogShown(d)] &&
      PermissionResultStep(RationaleOkStep(shown.next, d).next, ReadExternalStorageRequest,
        [PermissionGranted], fs, after) ==
      OpenStep(s.(pending := Some(d)), Some(d), fs, after)
  {
    var shown := OpenStep(s, Some(d), fs, before);
    assert shown.next == s;
  }

  /** Asking for the permission and being refused leaves the stack and the
      listing as they were. */
  lemma {:induction false} DenialRoundTrip(s: Nav, d: Path, fs: Storage, before: Device, after: Device)
    requires !before.granted && !before.showRationale
    ensures var asked := OpenStep(s, Some(d), fs, before);
      asked.effects == [PermissionRequested] &&
      var r := PermissionResultStep(asked.next, ReadExternalStorageRequest, [PermissionDenied], fs, after);
      r.next.stack == s.stack && r.next.displayed == s.displayed &&
      r.effects == [PermissionErrorDialogShown, StorageErrorShown, PathLabelCleared]
  {
    var asked := OpenStep(s, Some(d), fs, before);
    assert asked.next == s.(pending := Some(d));
  }

  // ---------------------------------------------------------------------
  // The displayed listing stays sorted

  lemma StepsKeepListingSorted(s: Nav, dir: Option<Path>, file: Path, position: nat, storageRoot: Path,
                               requestCode: int, grantResults: seq<int>, fs: Storage, dev: Device)
    requires ListingSorted(s)
    ensures ListingSorted(OpenStep(s, dir, fs, dev).next)
    ensures ListingSorted(RequestStep(s, file, dev).next)
    ensures ListingSorted(RationaleOkStep(s, file).next)
    ensures s.displayed.Some? ==> position < |s.displayed.value| ==>
      ListingSorted(ClickStep(s, position, storageRoot, fs, dev).next)
    ensures ListingSorted(BackStep(s, fs, dev).next)
    ensures ListingSorted(PermissionResultStep(s, requestCode, grantResults, fs, dev).next)
  {
    OpenKeepsListingSorted(s, dir, fs, dev);
    OpenKeepsListingSorted(s, s.pending, fs, dev);
    if s.displayed.Some? && position < |s.displayed.value| {
      OpenKeepsListingSorted(s, Some(s.displayed.value[position]), fs, dev);
    }
    var n := |s.stack|;
    if n > 1 {
      OpenKeepsListingSorted(s.(stack := s.stack[..n - 2]), Some(s.stack[n - 2]), fs, dev);
    }
  }

  lemma OpenKeepsListingSorted(s: Nav, dir: Option<Path>, fs: Storage, dev: Device)
    requires ListingSorted(s)
    ensures ListingSorted(OpenStep(s, dir, fs, dev).next)
  {
  }

  // ---------------------------------------------------------------------
  // A walk through storage

  /** From the top directory, selecting a subdirectory that holds two
      visible files, given by the file system out of order, lists them in
      order and pushes the subdirectory. */
  lemma SelectDirectoryOfTwo(root: Path, dir: Path, a: Path, b: Path, fs: Storage, dev: Device)
    requires Listable(fs, dir) && fs.children[dir] == [b, a]
    requires a !in fs.hidden && b !in fs.hidden
    requires PathLe(a, b) && dev.granted && dev.mounted
    ensures ClickStep(Nav([root], Some([dir]), None), 0, root, fs, dev) ==
      Step(Nav([root, dir], Some([a, b]), None), [ListingShown(dir)])
  {
    assert Visible([b, a], fs.hidden) == [b, a] by {
      assert [b, a][1..] == [a];
      assert Visible([a], fs.hidden) == [a];
    }
    SortIsTheSortedPermutation([b, a], [a, b]);
  }

  /** Selecting "Photos", which holds b.jpg and a.jpg, from the storage
      root lists a.jpg first. */
  lemma SelectPhotos(fs: Storage, dev: Device)
    requires fs == Storage(map["/sdcard" := ["/sdcard/Photos"],
                               "/sdcard/Photos" := ["/sdcard/Photos/b.jpg", "/sdcard/Photos/a.jpg"]],
                           {"/sdcard", "/sdcard/Photos"}, {})
    requires dev.granted && dev.mounted
    ensures ClickStep(Nav(["/sdcard"], Some(["/sdcard/Photos"]), None), 0, "/sdcard", fs, dev) ==
      Step(Nav(["/sdcard", "/sdcard/Photos"], Some(["/sdcard/Photos/a.jpg", "/sdcard/Photos/b.jpg"]), None),
           [ListingShown("/sdcard/Photos")])
  {
    var root: Path, dir: Path := "/sdcard", "/sdcard/Photos";
    var a: Path, b: Path := "/sdcard/Photos/a.jpg", "/sdcard/Photos/b.jpg";
    PhotosInNameOrder();
    assert root != dir;
    assert Listable(fs, dir);
    assert fs.children[dir] == [b, a];
    SelectDirectoryOfTwo(root, dir, a, b, fs, dev);
  }

  lemma PhotosInNameOrder()
    ensures PathLe("/sdcard/Photos/a.jpg", "/sdcard/Photos/b.jpg")
  {
    PathLeCommonPrefix("/sdcard/Photos/", "a.jpg", "b.jpg");
    assert "/sdcard/Photos/" + "a.jpg" == "/sdcard/Photos/a.jpg";
    assert "/sdcard/Photos/" + "b.jpg" == "/sdcard/Photos/b.jpg";
  }
}
