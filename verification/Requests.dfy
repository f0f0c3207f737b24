/** What the formatter is asked to do: paths, requests, and the errors it may
    answer with. */
module Requests {
  import opened Basics
  import opened OnDisk
  import opened Extents
  import opened Trees
  import opened Contents

  const MAX_LINKS: nat := 65000
  const DIR_0755: nat := 0x41ED

  datatype FormatError =
    | NotDirectory
    | NotFile
    | NotFound
    | UnsupportedFiletype
    | MaximumLinksExceeded
    | FileTooBig
    | CannotHardlinkDirectory
    | InsufficientSpaceForGroupDescriptorBlocks
    /** Not an error of the code: its 32-bit numbers overflow here. */
    | NumbersOverflow

  function ParentOf(path: Path): Path {
    if path == [] then [] else path[..|path| - 1]
  }

  function Basename(path: Path): Name {
    if path == [] then SLASH else path[|path| - 1]
  }

  predicate Canonical(path: Path) {
    forall k :: 0 <= k < |path| ==> ValidName(path[k])
  }

  /** What `create` is asked to make, once the mode has been looked at. */
  function Wanted(mode: nat, link: Option<seq<byte>>, data: Option<seq<byte>>): Result<Content, FormatError> {
    if IsDirMode(mode) then Ok(Directory)
    else if link.Some? then Ok(Symlink(link.value))
    else if !IsRegMode(mode) then Err(UnsupportedFiletype)
    else
      var d := if data.Some? then data.value else [];
      if |d| > MAX_FILE_BLOCKS * 4096 then Err(FileTooBig) else Ok(File(d))
  }

  /** A symlink target comes with a symlink's mode, and is no longer than a file
      may be. */
  predicate Sensible(mode: nat, link: Option<seq<byte>>) {
    && mode < 0x1_0000
    && (link.Some? ==> (IsLinkMode(mode) || IsDirMode(mode)) && |link.value| <= MAX_FILE_BLOCKS * 4096)
  }

  lemma SensibleMode(mode: nat, link: Option<seq<byte>>)
    requires Sensible(mode, link)
    ensures mode < 0x1_0000
  {
  }

  /** The arguments of one `create` call besides the path. */
  datatype Request = Request(mode: nat, link: Option<seq<byte>>, data: Option<seq<byte>>, uid: Option<nat>, gid: Option<nat>)

  /** The request `create` makes for a missing parent. */
  const PARENT := Request(DIR_0755, None, None, None, None)

  /** Owners are 32-bit numbers. */
  predicate Owned(uid: Option<nat>, gid: Option<nat>) {
    && (uid.Some? ==> uid.value < 0x1_0000_0000)
    && (gid.Some? ==> gid.value < 0x1_0000_0000)
  }

  /** `mode | 0o777`. */
  function WithAllPerms(mode: nat): nat { mode / 512 * 512 + 511 }

  lemma AllPermsKeepsType(mode: nat)
    ensures TypeBits(WithAllPerms(mode)) == TypeBits(mode)
    ensures mode < 0x1_0000 ==> WithAllPerms(mode) < 0x1_0000
  {
    assert WithAllPerms(mode) / 512 == mode / 512;
    assert mode / 0x1000 == mode / 512 / 8 && WithAllPerms(mode) / 0x1000 == WithAllPerms(mode) / 512 / 8;
  }

  lemma ParentRequest(path: Path)
    ensures Sensible(DIR_0755, None) && Owned(None, None) && IsDirMode(DIR_0755) && !IsLinkMode(DIR_0755)
    ensures Canonical(path) ==> Canonical(ParentOf(path))
    ensures path != [] ==> |ParentOf(path)| < |path|
  {
  }
}
