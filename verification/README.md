# Verification of vmbuild's ext4 writer, reader and image stores

A Dafny model of the in-process ext4 writer and reader (`src/arcbox_ext4`) and of
cache eviction in the two image stores (`src/store.rs`, `src/zfs.rs`), with proofs.
`dafny verify dfyconfig.toml` checks all of it.

The `Formatter` is a class with the fields of the original (inodes, file tree,
deferred and deleted block ranges, size, and an image file with a cursor); its methods
take the same branches in the same order. `FileTree`, `Reader`, `XattrState` and `Store`
are classes too. What the methods compute is said by functions on values, and the main
results are theorems about those. From the bottom up:

| modules | what they hold |
|---|---|
| Basics, Image, Bitmaps, OnDisk | bytes, little-endian numbers, the image file, bitmaps, inodes, group descriptors and superblock at their true offsets |
| Extents, Directory, Xattr | printers and parsers |
| Trees, Namespace, Unlinking | the file tree with its index, and the invariant of tree, inodes and block ranges |
| Sums, Contents, Writing, Requests, Views, Formatting, Verdicts, Tallies | the calls `create`, `link`, `unlink`: what they keep, what they answer, what they cost, and what the user then sees |
| Layout, Groups, Traversal, Listing, Committing, Closing, Accounting, Finish | `close`: sizes, directories, inode table, bitmaps, counts |
| Reading, ImageReader, Recovery, Opening, Volumes | `Reader::new` and what it brings back |
| Resolving, NameLookup, Following, FileRead | path resolution, by inode and by name, and reading files |
| EndToEnd, Runs, Witnesses | closing and opening again; whole runs of calls; runs that show where the code falls short |
| StoreGc, ZfsPins, HardLinks | cache eviction, clone pinning, hard-link maps of archives |

The central invariant, `Namespace.Inv`, is kept by every call: sibling names are unique
and every node has a smaller parent; a non-directory inode's link count is the number
of its attached names; every block range ever recorded is held by exactly one of an
attached node, the deferred ranges of an inode with links left, or the deleted ranges;
only directories (or the placeholder of a hard link) have children. `Contents.OnDiskOk`
adds that every inode in use has its contents on disk, in blocks of its own.

## Findings

Where a property one would expect is false of the code, the model keeps the code, gives
an input, and proves exactly when the property holds.

- **A failed `link` leaks a link** (formatter.rs:712-731). The target's count is raised
  before the parent is looked up. `LinkAnswer` says exactly when the call fails after
  that, the contract of `Link` what is then left behind; `FailedLink` is an input.
- **`link` does not ask what the parent is** (formatter.rs:722-742). A link made below a
  file is an entry that `close` never lists. After a successful call the invariant holds
  if and only if `ParentIsDir` held before; `LinkedBelowFile` is an input.
- **Hard links look like directories** (formatter.rs:388-411, 734). The node of a hard link
  carries the root's inode number, and `create` looks at that inode. A directory asked
  for in the place of a hard link reports success, changes mode and owner of the root,
  and leaves the link as it was: `Made` states that the path is a directory exactly when
  no hard link stood there, and `LinkTakenForDirectory` is an input. Entries created below
  a hard link are never listed by `close`; `PlainAfterCreated` says exactly when a call
  makes one: when a hard link lies on the way. `close` and the end-to-end results ask for
  a tree without such entries (`Plain`).
- **Removing a hard link takes a link from its directory** (formatter.rs:788-799), for the
  same reason. `HardLinkRemoval`: the counts stay right if and only if the directory has
  exactly two links; `MiscountedRoot` is an input. `CountsSeen` is the law for runs
  without such removals.
- **The inode of a removed directory is never freed** (formatter.rs:527, 811-838). It starts
  with two links and loses one: `DirectoryNeverFreed`.
- **A ragged size can miss a group** (formatter.rs:924-963). The groups are counted before
  the size is rounded up to whole blocks. `DescriptorsMatch` is the exact condition,
  `MissAGroup` an input; `WholeBlocksAreRegular` says that whole-block requests are
  safe.
- **An image that outgrows its descriptor table marks live data free**
  (formatter.rs:317-318, 1044-1068). The reservation is counted twice, from the first and
  from the last size. `LiveTakenIff` is the exact condition for a block, `Outgrow` an
  input.
- **A descriptor table that outgrows its reservation overwrites data**
  (formatter.rs:317-318, 976-980, 1195-1201). `close` compares the table with the reservation for the
  last size, not with what the constructor skipped. `TableReaches` is the exact condition,
  `Overwrite` an input.
- **Some symlinks make an image unreadable** (reader.rs:66-131, extent.rs:279-292). The
  traversal parses the extents of every inode, short symlinks included, whose target lies
  where the extents would. `ShortLinkParses` and `ParsesIffHarmless` are the exact
  condition, `UnreadableTarget` a target.
- **`stat_no_follow` stops at symlinks in the middle of a path**
  (reader_io.rs:35-39, 152-170). Its documentation speaks of the last component only.
  `NoFollowStopsAtLinks` and `DiffersIff` are the exact condition, `LinkInTheMiddle` and
  `StoppedAtTheLink` an input.
- **Attribute names of 256 bytes and more are lost** (xattr.rs:332-345). `PackedReadsBack` is
  the exact condition, `LongNameLost` an attribute.
- **A put can lose its metadata to a gc** (zfs.rs:176-216, 347-360). A put that falls between
  a gc's removal of the dataset and that of the metadata has its new metadata removed.
  `StepKeepsHalves` and `RunKeepsHalves` are the exact condition, `MetadataLost` a run.

## Model

| member | source | states |
|---|---|---|
| `Runs.BuildAndRead` | src/ext4/mod.rs:155-249 | for every list of create, link and unlink calls followed by close: the run stops at a call if and only if the state reached refuses it, with just that error, or the call is outside the model (a link below a file, or to a file with 65535 links), and short of the limit on links the names alone say so; it is not closed exactly if it is too big for 32 bits; and else, if no more descriptor blocks are needed than were reserved, every path, with dots and symlinks, followed or not, leads the reader exactly where the names say, to number, mode, owner and contents; link counts are those the names say; the image opens if and only if no short symlink looks like extents, with exactly those names |
| `Tallies.CountsSeen` | src/arcbox_ext4/formatter.rs:524-853 | link counts after any run, told from the names: a file has as many as names; a directory two and one for each subdirectory, unless a hard link was removed or built upon |
| `Runs.PlainAfterCreated` | src/arcbox_ext4/formatter.rs:388-445 | a successful create leaves every hard link without entries below it if and only if no hard link lay on the way to the path |
| `Runs.PlainIff` | src/arcbox_ext4/formatter.rs:729-742 | the tree has no entry below a hard link exactly if no path lies below the path of one |
| `Runs.LinkTakenForDirectory` | src/arcbox_ext4/formatter.rs:394-411 | create file /f, link /l to it, create directory /l for user 5: /l stays a hard link to the file, and the root directory has the new mode and owner |
| `EndToEnd.CloseAndOpen` | src/arcbox_ext4/formatter.rs:864-1270 | close fails exactly if the image gets too big for 32-bit numbers; else closing and opening brings back exactly the attached names with their inode numbers, and opening fails if and only if some short symlink looks like extents, given that the last size needs no more descriptor blocks than were reserved |
| `EndToEnd.ParsesIffHarmless` | src/arcbox_ext4/reader.rs:66-131 | the traversal of `Reader::new` can parse every extent tree it meets if and only if no symlink shorter than 60 bytes has a target that looks like an extent header |
| `EndToEnd.ShortLinkParses` | src/arcbox_ext4/extent.rs:274-315 | a short symlink stops the parser exactly when its target starts with the bytes 0A F3, for every text target |
| `EndToEnd.UnreadableTarget` | src/arcbox_ext4/extent.rs:280-292 | the five-byte target line feed, U+C0000 is such a symlink target, and valid UTF-8 |
| `Formatting.WithOptions` | src/arcbox_ext4/formatter.rs:255-345 | making a formatter succeeds; it holds exactly the root and /lost+found, and everything that must hold between calls holds |
| `Formatting.Formatter.Create` | src/arcbox_ext4/formatter.rs:374-635 | the exact answer, told from the state before; stored bytes, files and entries keep what they were; the cursor moves by exactly the blocks of the contents; and on success all names, as their user sees them, are those of the specification `AfterCreate` (a fresh entry with the contents asked for, missing parents made, whatever stood there gone) |
| `Formatting.Formatter.Link` | src/arcbox_ext4/formatter.rs:699-745 | the exact answer, told from the state before; after success the invariant holds if and only if the parent, if there is one, is a directory, and then the path is a hard link to the target, every other name, inode and entry is kept, and all names are those of `AfterLink`, even when the link replaces the last name of its own target; a failure after the count was raised leaves the target exactly one link ahead and the invariant broken |
| `Formatting.Formatter.Unlink` | src/arcbox_ext4/formatter.rs:753-856 | the path and everything below it is gone and nothing else, or only what is below it for a directory whiteout; a missing path is no error; counts, ranges and kinds stay right |
| `Verdicts.AnswerSeen` | src/arcbox_ext4/formatter.rs:388-445 | short of the limit on links, create is refused exactly when the names say so: a non-directory on the way or in the place of a directory, a directory in the place of a file, an unknown type, or too much data |
| `Verdicts.LinkAnswerSeen` | src/arcbox_ext4/formatter.rs:699-728 | short of the limit on links, link is refused exactly for a missing target, a target that is a directory or a hard link, or a missing parent |
| `Views.AttachSeen` | src/arcbox_ext4/formatter.rs:610-632 | entering a new inode under a free name adds that name with its contents, mode and (inherited) owner to what the user sees, and changes nothing else |
| `Views.ClearSeen` | src/arcbox_ext4/formatter.rs:753-856 | after clearing a path the user sees every other name with unchanged contents, mode and owner |
| `Views.ChownSeen` | src/arcbox_ext4/formatter.rs:403-411 | asking again for a directory with an owner changes mode and owner of every name of that inode, and nothing else |
| `Namespace.Conservation` | src/arcbox_ext4/formatter.rs:610-630 | the block ranges of attached nodes, of deferred_blocks and of deleted_blocks are together exactly the ranges ever recorded, each counted once: no leak and no double free |
| `Namespace.AttachKeeps` | src/arcbox_ext4/formatter.rs:518-632 | entering a new inode keeps the state invariant: link counts of files equal their names, ranges are partitioned, kinds are right |
| `Namespace.AddLinkKeeps` | src/arcbox_ext4/formatter.rs:713-742 | adding the name after the count was raised restores the invariant that was one link ahead |
| `Namespace.DetachKeeps` | src/arcbox_ext4/formatter.rs:788-853 | removing one name keeps the invariant: its ranges go to deleted_blocks with the last name and to deferred_blocks before it |
| `Unlinking.HardLinkRemoval` | src/arcbox_ext4/formatter.rs:788-799 | removing a hard-link entry keeps directory link counts right if and only if the directory it was in has exactly two links |
| `Witnesses.MiscountedRoot` | src/arcbox_ext4/formatter.rs:788-799 | create /f, link /l to it, unlink /l: the link count of the root is wrong |
| `Witnesses.FailedLink` | src/arcbox_ext4/formatter.rs:712-731 | create /f, link /d/l to it: the call fails for want of /d and leaves /f one link ahead of its names |
| `Witnesses.LinkedBelowFile` | src/arcbox_ext4/formatter.rs:722-742 | create /f, link /f/l to it: the call succeeds and breaks the invariant |
| `Formatting.DirectoryNeverFreed` | src/arcbox_ext4/formatter.rs:524-528 | a directory inode, once handed out, keeps at least one link and is never in the deleted state |
| `Trees.FileTree.Lookup` | src/arcbox_ext4/file_tree.rs:93-113 | the hash index answers what scanning the child lists for the first match answers |
| `Trees.FileTree.AddChild` | src/arcbox_ext4/file_tree.rs:116-131 | the node is appended, last among its siblings, and the index still agrees with the scan |
| `Trees.FileTree.RemoveChild` | src/arcbox_ext4/file_tree.rs:133-158 | the first child of that name is detached and the index agrees with the scan again, also when siblings share the name |
| `Trees.FileTree.NodePath` | src/arcbox_ext4/file_tree.rs:161-180 | the walk up the parents ends and gives the path of the node |
| `Trees.LookupOfPath` | src/arcbox_ext4/file_tree.rs:93-180 | with unique sibling names the path of an attached node leads back to it |
| `Trees.PathOfLookup` | src/arcbox_ext4/file_tree.rs:93-180 | whatever a lookup finds is attached and has exactly that path |
| `Layout.OptimizeBlockGroupLayout` | src/arcbox_ext4/formatter.rs:1457-1483 | the fewest groups over all candidate table sizes, and the smallest table that gets by with them |
| `Layout.GroupsAreExact` | src/arcbox_ext4/formatter.rs:1457-1470 | the group count of a candidate is the larger of what the blocks and what the inodes need, rounded up |
| `Layout.LayoutFits` | src/arcbox_ext4/formatter.rs:1436-1439 | data, inode tables and bitmaps fit into that many groups and the inodes into the tables: the padding of the table is never negative |
| `Layout.SizeIsTight` | src/arcbox_ext4/formatter.rs:884-964 | with a short last group allowed, the final size is the least number of blocks that covers request, minimum disk and written data and leaves a last group that is full or holds its own metadata |
| `Layout.WholeGroups` | src/arcbox_ext4/formatter.rs:941-949 | with whole groups only, the final size is that many whole groups unless the request ends less than a block behind a group boundary |
| `Layout.DescriptorsMatch` | src/arcbox_ext4/formatter.rs:924-963 | the number of group descriptors equals the number of groups of the final size if and only if the requested size does not end inside the first block of a group; otherwise it is one short |
| `Witnesses.MissAGroup` | src/arcbox_ext4/formatter.rs:924-963 | ask for 128 MiB and one byte and close at once: the image has more blocks than its one group |
| `Layout.EnoughDescriptors` | src/arcbox_ext4/formatter.rs:889-925 | no group that holds data is without a descriptor |
| `Traversal.BreadthFirst` | src/arcbox_ext4/formatter.rs:1278-1310 | the queue loop ends and meets every attached name below the root exactly once, parents before children, with the node it hangs under |
| `Listing.SortSorts` | src/arcbox_ext4/formatter.rs:1345-1347 | the sorted children are the same children in order of their inode numbers |
| `Listing.SortKeepsTies` | src/arcbox_ext4/formatter.rs:1345-1347 | children under the same number (all hard links) stay in order |
| `Listing.DirListFits` | src/arcbox_ext4/formatter.rs:1312-1388 | every entry of every directory listing fits the record format, provided names are at most 255 bytes |
| `Committing.CommitDirectory` | src/arcbox_ext4/formatter.rs:1312-1415 | one directory is written at the cursor with exactly `.`, `..` for its real parent and its attached children, and nothing written before changes |
| `Committing.CommitDirectories` | src/arcbox_ext4/formatter.rs:1278-1415 | every attached directory is written exactly once with exactly its entries, in blocks of its own, and nothing below the cursor changes |
| `Closing.CommitInodeTable` | src/arcbox_ext4/formatter.rs:1421-1453 | every inode lies at its place in the table, the rest of the table is zero, and nothing below it changes |
| `Closing.WriteDataGroups` | src/arcbox_ext4/formatter.rs:986-1122 | block and inode bitmaps and descriptors of all groups with data are those the specification names, and nothing below them changes |
| `Closing.WriteEmptyGroups` | src/arcbox_ext4/formatter.rs:1124-1194 | bitmaps and descriptors of the groups behind the data are those the specification names, and no block written earlier changes |
| `Accounting.FreeBlocksConserved` | src/arcbox_ext4/formatter.rs:986-1219 | each group's free count is the number of clear bits among the blocks it has, the sizes add up to blocks_count and the free counts to the superblock's, and no subtraction saturates |
| `Accounting.FreeInodesAreRest` | src/arcbox_ext4/formatter.rs:1070-1121 | used and free inodes of the groups add up to all inode slots |
| `Accounting.LiveDataIsTaken` | src/arcbox_ext4/formatter.rs:995-1068 | no block of a live file or symlink, extent index blocks included, is marked free, if close reserves as many descriptor blocks as the constructor did |
| `Accounting.MetadataIsTaken` | src/arcbox_ext4/formatter.rs:995-1068 | no block behind the file data, of a directory, inode table or bitmap, is marked free |
| `Accounting.GroupMetadataIsTaken` | src/arcbox_ext4/formatter.rs:1124-1194 | the inode table and bitmaps of every group, with data or behind it, lie where its descriptor says in blocks marked as taken |
| `Accounting.EmptyGroupTaken` | src/arcbox_ext4/formatter.rs:1124-1194 | of the blocks of a group behind the data exactly those its descriptor names are marked as taken |
| `Finish.LiveTakenIff` | src/arcbox_ext4/formatter.rs:1044-1068 | a block of live file data is marked as taken if and only if it does not lie among the descriptor blocks that close counts as reserved |
| `Witnesses.Outgrow` | src/arcbox_ext4/formatter.rs:1044-1068 | ask for 4096 bytes, create one file of 4194268 blocks, close: the blocks 33 to 64, which that live file owns, are marked free |
| `Finish.TableReaches` | src/arcbox_ext4/formatter.rs:976-1201 | the descriptor table reaches the blocks handed out for data if and only if there are more than 128 groups per block set aside for it; a descriptor then lies there |
| `Witnesses.Overwrite` | src/arcbox_ext4/formatter.rs:976-1201 | ask for 4096 bytes, create four files of 128 GiB full of FF, close: the first file no longer holds its data, which starts where a descriptor now lies |
| `Finish.SuperblockCounts` | src/arcbox_ext4/formatter.rs:1204-1266 | the superblock's totals of blocks, free blocks, inodes and free inodes are the sums over the group descriptors |
| `Finish.RegularUnlessMissed` | src/arcbox_ext4/formatter.rs:924-963 | every group has its descriptor exactly when the group count did not miss one |
| `Finish.LayOut` | src/arcbox_ext4/formatter.rs:869-963 | layout and inode table succeed if and only if nothing gets too big for 32 bits |
| `Finish.WholeBlocksAreRegular` | src/arcbox_ext4/formatter.rs:924-963 | a request in whole blocks never misses a group |
| `Finish.Close` | src/arcbox_ext4/formatter.rs:864-1270 | close fails if and only if cursor, block count or inode slots get too big for 32 bits, and never for want of descriptor space; else it lays the image out with the fewest groups, from the cursor the directories end at, and the finished image holds every inode, directory, file and symlink in its place, with the bitmaps, descriptors and superblock that belong to them |
| `Extents.FillExtentLeaves` | src/arcbox_ext4/extent.rs:27-52 | the running counters produce the leaves that tile the run |
| `Extents.RangesTile` | src/arcbox_ext4/extent.rs:27-52 | the extents of a run tile exactly that run |
| `Extents.TreeIsShallow` | src/arcbox_ext4/extent.rs:66-103 | a file of up to 128 GiB needs at most four index entries |
| `Extents.Parse` | src/arcbox_ext4/extent.rs:274-363 | the parser computes the specification function for every block and file, errors included |
| `Extents.ExtentRoundTrip` | src/arcbox_ext4/extent.rs:66-363 | parsing a stored tree, inline or indexed, gives consecutive ranges of at most 32768 blocks that tile exactly the run stored |
| `Directory.WriteDirEntry` | src/arcbox_ext4/dir.rs:40-92 | one record is appended, with the rest of the block closed first if it does not fit; at least 12 bytes are left |
| `Directory.FinishBlock` | src/arcbox_ext4/dir.rs:97-131 | the terminating record fills the block and the counter starts afresh |
| `Directory.DirectoryRoundTrip` | src/arcbox_ext4/dir.rs:40-167 | the output is whole blocks, each a chain of records that ends exactly at its end, and parsing it gives the entries back in order |
| `OnDisk.InodeRoundTrip` | src/arcbox_ext4/types.rs:783-865 | an inode reads back as written, all fields the model has, for all values that fit |
| `OnDisk.DescriptorRoundTrip` | src/arcbox_ext4/types.rs:610-645 | a group descriptor reads back as written |
| `OnDisk.SuperRoundTrip` | src/arcbox_ext4/types.rs:343-580 | a superblock reads back as written, for the fields the model has |
| `Opening.Open` | src/arcbox_ext4/reader.rs:42-139 | the traversal ends on every image; on the image of a file system it succeeds if and only if all extents parse, and then brings back exactly its names with their inodes, the first name of an inode in the tree and the others as hard links |
| `Volumes.InodeAddress` | src/arcbox_ext4/reader.rs:198-213 | the address the reader computes for inode n from group and index is where the inode table put it |
| `Volumes.ClosedReads` | src/arcbox_ext4/reader.rs:173-256 | an image that close finished reads as the file system it was made from: inodes, directories and extents |
| `ImageReader.Reader.GetInode` | src/arcbox_ext4/reader.rs:198-228 | the cached inode is the one in the image |
| `ImageReader.Reader.GetDirEntries` | src/arcbox_ext4/reader.rs:230-258 | the entries are those in the image, through the cache |
| `Resolving.ResolvePath` | src/arcbox_ext4/reader_io.rs:110-209 | the splicing loop ends on every image and gives exactly what the recursive path walk gives, errors included |
| `Resolving.WalkConcat` | src/arcbox_ext4/reader_io.rs:122-199 | walking two component lists one after the other is walking their concatenation, with the symlinks met so far carried along |
| `Resolving.Spliced` | src/arcbox_ext4/reader_io.rs:165-199 | splicing a symlink target into the components is walking the target first |
| `NameLookup.WalksAreGrounded` | src/arcbox_ext4/reader_io.rs:132-150 | on the image of a file system the walk is at the root exactly when no directory has been entered, so that `..` never falls back on the entry of that name |
| `Following.ResolvesByName` | src/arcbox_ext4/reader_io.rs:110-209 | on the image of a file system the reader resolves every path, with dots, symlinks, loops and errors, exactly as a walk over the names does |
| `Following.PathReadsBack` | src/arcbox_ext4/reader_io.rs:31-89 | every path, followed or not, gives number, attributes and contents of the name it leads to, or just the error the names call for |
| `Following.StraightLeads` | src/arcbox_ext4/reader_io.rs:110-209 | a path of names without following leads to its own name if there is one and nowhere otherwise |
| `Following.DiffersIff` | src/arcbox_ext4/reader_io.rs:35-39 | following nothing differs from following all but the last component if and only if a symlink lies on the way and the rest of the path is found from where the first such symlink leads |
| `Following.NoFollowStopsAtLinks` | src/arcbox_ext4/reader_io.rs:110-209 | on the image of a file system `stat_no_follow` reports NotADirectory for every path with a symlink before its last component, and misses what the documented walk finds exactly under that condition |
| `Runs.LinkInTheMiddle` | src/arcbox_ext4/reader_io.rs:35-39 | create /d/f and the symlink /l to d: l/f leads nowhere without following, and to /d/f when all but the last component is followed |
| `Runs.StoppedAtTheLink` | src/arcbox_ext4/reader_io.rs:35-39 | the same of every image such a run ends with |
| `NameLookup.ComponentsOfJoin` | src/arcbox_ext4/reader_io.rs:322-333 | a path is taken apart into the names it was put together from |
| `FileRead.ReadWindow` | src/arcbox_ext4/reader_io.rs:219-287 | the loop over extents computes the specification function, whatever extents it is given |
| `FileRead.WindowIsSlice` | src/arcbox_ext4/reader_io.rs:219-287 | any window of stored bytes reads back as exactly that slice |
| `FileRead.FileReadsBack` | src/arcbox_ext4/reader_io.rs:59-87 | reading a file gives exactly the requested slice of its contents clipped to its size; reading anything else is refused |
| `FileRead.ReadFile` | src/arcbox_ext4/reader_io.rs:59-87 | the method computes that for the inode a path was resolved to |
| `FileRead.TargetReadsBack` | src/arcbox_ext4/reader_io.rs:289-315 | a symlink target reads back, from the inode or from data blocks |
| `Xattr.CompressName` | src/arcbox_ext4/xattr.rs:68-82 | the longest known prefix is stripped, and decompressing puts it back, for every name |
| `Xattr.XattrState.Add` | src/arcbox_ext4/xattr.rs:193-212 | an attribute goes into the inode if it fits there, else into the block, and is refused only if it fits in neither |
| `Xattr.WriteEntries` | src/arcbox_ext4/xattr.rs:231-345 | entries growing forward and values growing backward never meet, at least four zero bytes end the list, and the malformed-buffer error is never reported |
| `Xattr.XattrState.WriteInline` | src/arcbox_ext4/xattr.rs:231-272 | the area in the inode reads back as the attributes put into it if and only if all names are shorter than 256 bytes |
| `Xattr.XattrState.WriteBlock` | src/arcbox_ext4/xattr.rs:277-328 | the same for the block, with the attributes sorted |
| `Xattr.PackedReadsBack` | src/arcbox_ext4/xattr.rs:332-358 | a packed area reads back as exactly the attributes packed if and only if no name is longer than its length byte can say |
| `Xattr.SortedSorts` | src/arcbox_ext4/xattr.rs:289-296 | the sorted attributes are the same attributes, ordered by index, name length and name |
| `Xattr.LongNameLost` | src/arcbox_ext4/xattr.rs:332-345 | a name of 256 bytes fits into the block and is lost there |
| `StoreGc.Store.Gc` | src/store.rs:473-568 | gc makes of blobs, metadata and report what the sweep over the entries, oldest first, makes of them, and that sweep keeps all of the following |
| `StoreGc.SweepKeeps` | src/store.rs:473-568 | every sweep, for every order, policy, free-space reading and removal failure, satisfies the invariants the next five results rest on |
| `StoreGc.LinkedStay` | src/store.rs:500-507 | no blob with more than one link is touched |
| `StoreGc.MetadataStays` | src/store.rs:509-530 | every blob left keeps its metadata |
| `StoreGc.BytesConserved` | src/store.rs:473-560 | freed bytes plus what remains is the starting total |
| `StoreGc.FitsOrKept` | src/store.rs:473-560 | without an early stop the total fits the policy or every survivor is linked, busy or could not be removed |
| `StoreGc.ShortestPrefix` | src/store.rs:473-560 | with a size budget alone the evicted entries are the shortest sufficient prefix of the evictable ones, oldest first |
| `ZfsPins.RunKeepsBacked` | src/zfs.rs:251-370 | over every interleaving of put, materialize, release and gc steps, every clone keeps the image it came from |
| `ZfsPins.MaterializedStays` | src/zfs.rs:251-370 | until it is released or materialized anew a destination keeps its clone, its image, and that image's metadata unless a gc had destroyed and not yet forgotten the image |
| `ZfsPins.StepKeepsHalves` | src/zfs.rs:176-216 | only a put of an image whose removal is unfinished puts metadata at risk, and each such put does |
| `ZfsPins.RunKeepsHalves` | src/zfs.rs:176-216 | over every interleaving, metadata is never at risk if and only if no put ever brings back an image whose removal is unfinished |
| `ZfsPins.ForgottenNext` | src/zfs.rs:347-360 | in that state the next step of the gc takes the metadata of an image that is cloned |
| `ZfsPins.MetadataLost` | src/zfs.rs:347-360 | an eight-step interleaving from a sound state that ends with a clone whose image has no metadata |
| `ZfsPins.Reclaimed` | src/zfs.rs:320-370 | over every interleaving from the start of a gc on: once the entries before it are done, an image that is wanted, still there and without a clone loses its dataset in the next step of that gc |
| `ZfsPins.ReclaimedWhole` | src/zfs.rs:347-360 | whatever others do before the gc goes on, its next step takes the metadata too, and the image stays away unless put again |
| `ZfsPins.GetsThere` | src/zfs.rs:320-370 | a gc left alone gets to every entry of its list, or gives up because a dataset is gone |
| `ZfsPins.PinnedSurvives` | src/zfs.rs:340-346 | over every interleaving no step of a gc touches dataset or metadata of an image that was pinned when it began, nor of any image in a dry run |
| `HardLinks.CheckAcyclic` | src/arcbox_ext4/unpack.rs:195-209 | true exactly when the link map has no cycle, and the loop ends on every finite map |
| `HardLinks.ResolveHardLink` | src/arcbox_ext4/unpack.rs:212-225 | the one path that the chain of a link ends at, and nothing else; without cycles there is one for every link |
| `HardLinks.EndIsUnique` | src/arcbox_ext4/unpack.rs:212-225 | a chain ends at one path only |

## Left out

- Formatting.Formatter.Create: takes no extended attributes, which no caller in the repository passes, so the areas of `Xattr` are proved on their own and do not meet the image; contents arrive as one byte string; a symlink at `/` is excluded; the answer is exact for every request except one that removes an entry while some hard link has entries below it.
- Formatting.Formatter.Link: when the parent is not a directory it promises the broken invariant and nothing about names; it asks that the 16-bit count of a file can still be raised; its answer is exact as long as no hard link has entries below it.
- Runs.BuildAndRead: asks that the calls leave no name below a hard link and only symlink targets that are UTF-8; links below a file or to a file with 65535 links end a run as not covered, more than 0x1FF_FFF0 tree nodes as too many; what the reader finds is promised when the last size needs no more descriptor blocks than were reserved; link counts of directories when no call removed or built upon a hard link; whether the limit of 65000 links is met is told from the state, not from the names.
- EndToEnd.CloseAndOpen: the same about descriptor blocks and names; `NumbersOverflow` stands for the code's 32-bit wrap-around or panic, and comes exactly when `TooBig` says.
- Finish.Close: what the code does once block or inode numbers exceed 32 bits is not modelled beyond that it is reported.
- Listing.DirListFits: names longer than 255 bytes, which the code truncates to a byte of length, are excluded by `ValidName`.
- Opening.Open: asks for the geometry the formatter writes (4096-byte blocks, 256-byte inodes); other block sizes are not modelled.
- Layout.OptimizeBlockGroupLayout: asks for arguments whose sums stay within 32 bits.
- Paths are lists of names; splitting strings at slashes is modelled for the reader (`normalize_path`) only.
- Symlink requests carry a symlink's or a directory's mode, as all callers' do; a regular file's mode with a link target is excluded.
- Names and targets are byte strings; conversion of invalid UTF-8 is not part of this model.
- Timestamps, epoch, UUID, label, feature flags, checksums and the attribute hash are left out or given as parameters.
- `set_owner`, `set_permissions`, `list_dir`, `exists` and `is_dir` of the formatter, and `list_dir`, `exists` and `read_file_into` of the reader, would add easy members only.
- I/O errors of the image file are left out: reads and writes succeed, short reads of a file's window included.
- Tar decoding, archive whiteouts and the dispatch over archive entries in unpack.rs and ext4/mod.rs are left out; a run is a list of calls.
- In the stores: `sparse_copy`, FICLONE, `install`, locks, permissions, JSON; free space, link counts and failures to remove are parameters.
- In zfs.rs: argument strings and error classification (`is_busy`), and the clone token, taken to be injective.
- Sizing by floating-point factors, the e2fsprogs steps, Docker, BuildKit, CLI and doctor are left out.
