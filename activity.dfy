/** The main activity as an object: the three fields its event handlers
    update in place, and one method per handler. Each method's new state
    and effects are the corresponding step of module Navigation applied
    to the old state, and every method keeps the displayed listing sorted. */
module Activity {
  import opened FileOrder
  import opened Listings
  import opened Navigation

  class MainActivity {
    /** The external storage directory opened at start-up; the click
        handler asks for the permission to open it. */
    const storageRoot: Path

    /** mDirectoryBackStack, top last. */
    var stack: seq<Path>
    /** mDisplayedFiles; None when it is null. */
    var displayed: Option<seq<Path>>
    /** mFileToOpen; None when it is null. */
    var pending: Option<Path>

    function State(): Nav
      reads this
    {
      Nav(stack, displayed, pending)
    }

    ghost predicate Valid()
      reads this
    {
      ListingSorted(State())
    }

    constructor (storageRoot: Path)
      ensures this.storageRoot == storageRoot
      ensures State() == Nav([], None, None) && Valid()
    {
      this.storageRoot := storageRoot;
      stack := [];
      displayed := None;
      pending := None;
    }

    /** onCreate opens the storage root. */
    method OnCreate(fs: Storage, dev: Device) returns (effects: seq<Effect>)
      requires Valid()
      modifies this
      ensures Valid()
      ensures Step(State(), effects) == OpenStep(old(State()), Some(storageRoot), fs, dev)
    {
      effects := OpenDirectory(Some(storageRoot), fs, dev);
    }

    method OpenDirectory(dir: Option<Path>, fs: Storage, dev: Device) returns (effects: seq<Effect>)
      requires Valid()
      modifies this
      ensures Valid()
      ensures Step(State(), effects) == OpenStep(old(State()), dir, fs, dev)
    {
      if dir.None? {
        effects := [StorageErrorShown];
        return;
      }
      var directory := dir.value;
      if dev.granted {
        if dev.mounted && directory in fs.directories && directory in fs.children {
          var visibleFiles := Visible(fs.children[directory], fs.hidden);
          displayed := Some(Sort(visibleFiles));
          stack := stack + [directory];
          effects := [ListingShown(directory)];
        } else {
          effects := [];
        }
      } else {
        effects := RequestStoragePermission(directory, dev);
      }
    }

    method RequestStoragePermission(file: Path, dev: Device) returns (effects: seq<Effect>)
      requires Valid()
      modifies this
      ensures Valid()
      ensures Step(State(), effects) == RequestStep(old(State()), file, dev)
    {
      if dev.showRationale {
        effects := [RationaleDialogShown(file)];
      } else {
        pending := Some(file);
        effects := [PermissionRequested];
      }
    }

    /** The OK button of the rationale dialog shown for file. */
    method OnRationaleOk(file: Path) returns (effects: seq<Effect>)
      requires Valid()
      modifies this
      ensures Valid()
      ensures Step(State(), effects) == RationaleOkStep(old(State()), file)
    {
      pending := Some(file);
      effects := [PermissionRequested];
    }

    method OnItemClick(position: nat, fs: Storage, dev: Device) returns (effects: seq<Effect>)
      requires Valid()
      requires displayed.Some? ==> position < |displayed.value|
      modifies this
      ensures Valid()
      ensures Step(State(), effects) == ClickStep(old(State()), position, storageRoot, fs, dev)
    {
      if displayed.None? {
        if !dev.granted {
          effects := RequestStoragePermission(storageRoot, dev);
        } else {
          effects := [];
        }
        return;
      }
      var file := displayed.value[position];
      if file in fs.directories {
        if file !in fs.children {
          effects := [ListingFailed];
        } else if |Visible(fs.children[file], fs.hidden)| > 0 {
          effects := OpenDirectory(Some(file), fs, dev);
        } else {
          displayed := None;
          stack := stack + [file];
          effects := [EmptyDirectoryShown(file)];
        }
      } else {
        effects := [FileSelectedToast];
      }
    }

    method OnBackPressed(fs: Storage, dev: Device) returns (effects: seq<Effect>)
      requires Valid()
      modifies this
      ensures Valid()
      ensures Step(State(), effects) == BackStep(old(State()), fs, dev)
    {
      if |stack| > 1 {
        ghost var n := |stack|;
        stack := stack[..|stack| - 1];
        var parent := stack[|stack| - 1];
        stack := stack[..|stack| - 1];
        assert stack == old(stack)[..n - 2] && parent == old(stack)[n - 2];
        effects := OpenDirectory(Some(parent), fs, dev);
      } else {
        effects := [ExitPromptShown];
      }
    }

    method OnRequestPermissionsResult(requestCode: int, grantResults: seq<int>, fs: Storage, dev: Device)
      returns (effects: seq<Effect>)
      requires Valid()
      modifies this
      ensures Valid()
      ensures Step(State(), effects) == PermissionResultStep(old(State()), requestCode, grantResults, fs, dev)
    {
      if requestCode == ReadExternalStorageRequest {
        if |grantResults| > 0 && grantResults[0] == PermissionGranted {
          effects := OpenDirectory(pending, fs, dev);
        } else {
          var shown := OpenDirectory(None, fs, dev);
          effects := [PermissionErrorDialogShown] + shown + [PathLabelCleared];
        }
      } else {
        effects := [];
      }
    }
  }
}
