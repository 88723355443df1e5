/**
 * The output-directory setting of `core/path_manager.py`: a text file
 * holding one path, checked against the directories that exist.
 */
module OutputPath {
  import opened Wrappers
  import opened Text

  /** The path the stored file names: its stripped content, when it has any. */
  function StoredPath(stored: Option<string>): (r: Option<string>)
    ensures r.Some? <==> NonBlank(stored)
    ensures r.Some? ==> r.value != [] && !IsSpace(r.value[0]) && !IsSpace(r.value[|r.value| - 1])
  {
    if NonBlank(stored) then Some(Strip(stored.value)) else None
  }

  /** What `get_output_path` returns: the stored path, only while it is an existing directory. */
  function CurrentPath(stored: Option<string>, dirs: set<string>): (r: Option<string>)
    ensures r.Some? ==> r.value in dirs && r == StoredPath(stored)
    ensures r.None? <==> StoredPath(stored).None? || StoredPath(stored).value !in dirs
  {
    match StoredPath(stored)
    case Some(p) => if p in dirs then Some(p) else None
    case None => None
  }

  /** A path is stored, but it no longer names an existing directory. */
  predicate IsStale(stored: Option<string>, dirs: set<string>) {
    StoredPath(stored).Some? && StoredPath(stored).value !in dirs
  }

  /** The stored file after `get_output_path`: removed when it was stale, kept otherwise. */
  function AfterGet(stored: Option<string>, dirs: set<string>): (after: Option<string>)
    ensures after == None || after == stored
    ensures after != stored <==> StoredPath(stored).Some? && CurrentPath(stored, dirs).None?
  {
    if IsStale(stored, dirs) then None else stored
  }

  /**
   * `output / name` with POSIX paths: an absolute name replaces the output
   * path, an empty one leaves it as it is, and any other is appended after
   * a `/`, which an output path such as the root `/` already ends with.
   */
  function Join(output: string, name: string): (sub: string)
    ensures name == [] ==> sub == output
    ensures name != [] && name[0] == '/' ==> sub == name
    ensures name != [] && name[0] != '/' ==>
      && |name| < |sub|
      && sub[|sub| - |name|..] == name
      && sub[..|sub| - |name|] == if output != [] && output[|output| - 1] == '/' then output else output + "/"
  {
    if name == [] then output
    else if name[0] == '/' then name
    else if output != [] && output[|output| - 1] == '/' then output + name
    else output + "/" + name
  }

  /**
   * Reading the path twice gives the same answer, and the second read
   * changes nothing more: only a stale path is cleared, and a cleared file
   * names no path at all.
   */
  lemma GetIsIdempotent(stored: Option<string>, dirs: set<string>)
    ensures CurrentPath(AfterGet(stored, dirs), dirs) == CurrentPath(stored, dirs)
    ensures AfterGet(AfterGet(stored, dirs), dirs) == AfterGet(stored, dirs)
    ensures !NonBlank(AfterGet(stored, dirs)) <==> CurrentPath(stored, dirs).None?
  {
  }

  /**
   * A saved path that has no surrounding whitespace is read back as it was
   * saved, and the read keeps it stored.
   */
  lemma SaveThenGet(path: string, dirs: set<string>)
    requires path != [] && !IsSpace(path[0]) && !IsSpace(path[|path| - 1])
    ensures CurrentPath(Some(path), dirs + {path}) == Some(path)
    ensures AfterGet(Some(path), dirs + {path}) == Some(path)
  {
    StripUnchanged(path);
  }

  datatype Subdirectory = Created(path: string) | NoOutputPath | MkdirRaised

  /**
   * The `PathManager` object with the part of the file system it touches:
   * the content of `output_path.txt` (`None` when absent), the directories
   * that exist, and the paths where creating a directory raises (an
   * existing file, say).
   */
  class PathManager {
    var stored: Option<string>
    var dirs: set<string>
    var blocked: set<string>

    ghost predicate Valid()
      reads this
    {
      dirs !! blocked
    }

    constructor (stored: Option<string>, dirs: set<string>, blocked: set<string>)
      requires dirs !! blocked
      ensures Valid()
      ensures this.stored == stored && this.dirs == dirs && this.blocked == blocked
    {
      this.stored := stored;
      this.dirs := dirs;
      this.blocked := blocked;
    }

    /** `has_output_path`. */
    function HasOutputPath(): (b: bool)
      reads this
      ensures b <==> StoredPath(stored).Some?
    {
      NonBlank(stored)
    }

    /** `get_output_path`: the stored path if it is a directory; a stale path is cleared. */
    method GetOutputPath() returns (r: Option<string>)
      modifies this`stored
      ensures r == CurrentPath(old(stored), dirs)
      ensures stored == AfterGet(old(stored), dirs)
      ensures r.None? ==> !HasOutputPath()
    {
      if !HasOutputPath() {
        return None;
      }
      var path := Strip(stored.value);
      if path in dirs {
        r := Some(path);
      } else {
        var _ := ClearOutputPath();
        r := None;
      }
    }

    /** `save_output_path`: creates the directory, then stores the path; fails if creation raises. */
    method SaveOutputPath(path: string) returns (ok: bool)
      requires Valid()
      modifies this`stored, this`dirs
      ensures Valid()
      ensures ok <==> path !in blocked
      ensures ok ==> dirs == old(dirs) + {path} && stored == Some(path)
      ensures !ok ==> dirs == old(dirs) && stored == old(stored)
      ensures ok && path != [] && !IsSpace(path[0]) && !IsSpace(path[|path| - 1]) ==>
        CurrentPath(stored, dirs) == Some(path)
    {
      if path in blocked {
        return false;
      }
      dirs := dirs + {path};
      stored := Some(path);
      ok := true;
      if path != [] && !IsSpace(path[0]) && !IsSpace(path[|path| - 1]) {
        SaveThenGet(path, old(dirs));
      }
    }

    /** `clear_output_path`: removes the file whether or not it exists and reports success. */
    method ClearOutputPath() returns (ok: bool)
      modifies this`stored
      ensures ok && stored == None && !HasOutputPath()
    {
      stored := None;
      ok := true;
    }

    /**
     * `create_subdirectory`: reads the output path (clearing it when stale)
     * and, if there is one, creates `output/name`; an error creating it
     * propagates.
     */
    method CreateSubdirectory(name: string) returns (r: Subdirectory)
      requires Valid()
      modifies this`stored, this`dirs
      ensures Valid()
      ensures stored == AfterGet(old(stored), old(dirs))
      ensures CurrentPath(old(stored), old(dirs)).None? ==> r == NoOutputPath && dirs == old(dirs)
      ensures CurrentPath(old(stored), old(dirs)).Some? ==>
        var sub := Join(CurrentPath(old(stored), old(dirs)).value, name);
        if sub in blocked then r == MkdirRaised && dirs == old(dirs)
        else r == Created(sub) && dirs == old(dirs) + {sub}
    {
      var output := GetOutputPath();
      if output.None? {
        return NoOutputPath;
      }
      var sub := Join(output.value, name);
      if sub in blocked {
        return MkdirRaised;
      }
      dirs := dirs + {sub};
      r := Created(sub);
    }
  }
}
