# kindle-mtp in Dafny

A model of the core of `kindle-mtp`, a command-line tool and terminal file browser for
Amazon Kindle e-readers over MTP, with proofs about that model.

It covers these parts of the tool:

- **Device layer** (`Kindle`, src/device/kindle.rs):
  - choosing the Kindle among the attached USB devices by Amazon's vendor id 0x1949, and mapping enumeration failures to errors;
  - the "No storage found" guard of every storage operation;
  - resolving a slash-separated path to an MTP object id. `ResolvePath` does this imperatively, one segment at a time from the root. It is proved equal to the functional specification `Resolve`/`Walk`.
  - listing the root or a resolved folder;
  - the error mapping of a download.

  The device is a pool of storages. The first storage maps every parent (`Root` or `Folder(id)`) to its children in device order.
- **Error taxonomy** (`Errors`, src/error.rs, src/main.rs): the closed error enum, its messages, its exit codes, and the process exit status of a command's outcome.
- **`ls`** (`Ls`, src/commands/ls.rs):
  - converting listed entries;
  - the short rendering: "(empty)", or one name per line with folders marked by a trailing `/`;
  - the long rendering: type column, right-aligned size column, name;
  - the choice between JSON, long and short output.
- **`pull`** (`Pull`, src/commands/pull.rs):
  - refusing recursive pulls before touching the device;
  - choosing the local destination (inside a directory, the text after the last `/` of the remote path);
  - the download;
  - the byte count, which defaults to 0.
- **Terminal browser** (`Tui`, src/tui.rs):
  - the `App` state machine: connection, stack of folder names, listing sorted folders-first and then by lower-cased name, wrap-around cursor, status line and quit flag;
  - key gating.

  Every operation is a function from state to state (`State`, `After...`). The class `App` updates its fields step by step, and each of its methods is proved to agree with the matching function.
- **String operations** (`Strings`, `Wrappers`): the parts of Rust's standard library that the code relies on (`split`, `join`, `rsplit().next()`, `trim_start_matches`, `contains`, decimal formatting, padding, ASCII lower-casing, the order of `str`).

Calls into the MTP library and the filesystem are inputs of the model:

- the enumeration of raw devices, and the device each one opens to (`Enumeration`, `RawDevice.connection`);
- the outcome of a file transfer (`fetch`);
- whether the local path is a directory (`localIsDir`);
- the destination's metadata (`metadata`);
- the one-decimal floating-point rendering of large sizes (`oneDecimal`).

## Model

| member | source | states |
|---|---|---|
| `Wrappers.FindIndex` | src/device/kindle.rs:49-52 | the index found is of the first element satisfying the predicate; none is found exactly when no element satisfies it |
| `Strings.Split` | src/device/kindle.rs:132 | splitting always yields at least one piece, and no piece contains the separator |
| `Strings.JoinSplit` | src/device/kindle.rs:132 | joining the pieces of a split with the separator gives back the original string |
| `Strings.Join` | src/tui.rs:61 | the pieces with the separator between consecutive ones; pinned down by `JoinSplit`, `SplitJoin` and `Kindle.SegmentsOfJoin` |
| `Strings.SplitJoin` | src/device/kindle.rs:132 | splitting a join of separator-free pieces gives back exactly those pieces |
| `Strings.SplitCount` | src/commands/ls.rs:44 | a split yields one more piece than there are separators |
| `Strings.SplitAppend` | src/device/kindle.rs:132 | splitting at one separator occurrence gives the pieces before it followed by the pieces after it |
| `Strings.RsplitNext` | src/commands/pull.rs:31-34 | the first piece of `rsplit` always exists, and it is the separator-free text after the last separator (the whole string when there is none) |
| `Strings.LastPieceUnique` | src/commands/pull.rs:31-34 | only one text can follow the last separator |
| `Strings.NonEmpty` | src/device/kindle.rs:132 | filtering out empty pieces keeps only non-empty pieces of the input and changes nothing when none is empty |
| `Strings.NonEmptyAppend` | src/device/kindle.rs:132 | the filter distributes over concatenation: each part keeps exactly its own non-empty pieces, in order |
| `Strings.NonEmptySingle` | src/device/kindle.rs:132 | a single piece is kept exactly when it is not empty |
| `Strings.TrimStart` | src/device/kindle.rs:127 | the result is a suffix that does not start with the character, and everything removed was that character |
| `Strings.TrimStartAppend` | src/device/kindle.rs:127 | trimming a concatenation stops inside the first part unless that part is only the trimmed character, in which case it trims the second part |
| `Strings.Contains` | src/device/kindle.rs:42 | true exactly when the text occurs at some position |
| `Strings.NatToString` | src/commands/ls.rs:81 | decimal digits without leading zeros; one digit below 10, at most three below 1000 |
| `Strings.ParseNatToString` | src/commands/ls.rs:81 | reading the decimal rendering back gives the number |
| `Strings.PadLeft` | src/commands/ls.rs:66 | right-aligned: the width is reached, the text is the suffix, and the padding is spaces |
| `Strings.LowerChar` | src/tui.rs:75 | the result is never a capital; a capital ASCII letter becomes the small letter at the same alphabet position; every other character is kept |
| `Strings.Lower` | src/tui.rs:75 | same length, and each character is lower-cased as `LowerChar` states |
| `Strings.LowerIgnoresCase` | src/tui.rs:75 | strings that differ only in the case of ASCII letters lower-case to the same string |
| `Strings.LexLeTotal` | src/tui.rs:75 | any two strings are ordered one way or the other |
| `Strings.LexLeReflexive` | src/tui.rs:75 | every string is ordered before itself |
| `Strings.LexLeTransitive` | src/tui.rs:75 | the string order is transitive |
| `Strings.LexLeAntisymmetric` | src/tui.rs:75 | strings ordered both ways are equal |
| `Errors.ExitCode` | src/error.rs:32-43 | DeviceNotFound gives 2, FileNotFound 3, PermissionDenied 4, StorageFull 5, TransferFailed 6, and Mtp, Io and InvalidPath 1, each an if-and-only-if; the code always lies in 1..6 |
| `Errors.ExitCodeIgnoresPayload` | src/error.rs:34-41 | errors of the same variant have the same exit code whatever message they carry |
| `Errors.ProcessExit` | src/main.rs:25-33 | the exit status is 0 exactly when the command succeeded, and otherwise the error's exit code |
| `Errors.Describe` | src/error.rs:3-30 | every error displays as a non-empty message, and a variant with a payload shows that payload at the end, after a non-empty prefix |
| `Errors.DescribeInjective` | src/error.rs:3-30 | two errors that display the same message are the same error, variant and payload |
| `Kindle.Detect` | src/device/kindle.rs:39-57 | an enumeration error mentioning NoDeviceAttached becomes DeviceNotFound, and any other becomes Mtp with its text; otherwise detection succeeds exactly when the first Amazon device opens, gives that device, and every other failure is DeviceNotFound |
| `Kindle.FirstStorage` | src/device/kindle.rs:95-99 | the first storage of the pool, or Mtp "No storage found" exactly when the pool is empty |
| `Kindle.GetStorageInfo` | src/device/kindle.rs:80-92 | the first storage's capacity and free space, with its description or "Internal Storage"; the "No storage found" error when there is no storage |
| `Kindle.Lookup` | src/device/kindle.rs:136-137 | an object found for a name has exactly that name |
| `Kindle.LookupFirst` | src/device/kindle.rs:136-137 | the lookup fails exactly when no child has the name, and otherwise it returns the first child in device order that has it |
| `Kindle.Segments` | src/device/kindle.rs:127-132 | the segments of a path are non-empty and free of `/` |
| `Kindle.TrimmedPathHasSegment` | src/device/kindle.rs:127-132 | a path still non-empty once its leading slashes are trimmed has at least one segment |
| `Kindle.NoSegmentsIffTrimmedEmpty` | src/device/kindle.rs:127-132 | the trimmed path is empty exactly when the path has no segments |
| `Kindle.TrimmedEmptyIffOnlySlashes` | src/device/kindle.rs:127-130 | the trimmed path is empty exactly when the path is empty or made only of `/` |
| `Kindle.SegmentsOfEmpty` | src/device/kindle.rs:127-132 | the empty path has no segments |
| `Kindle.SegmentsOfName` | src/device/kindle.rs:127-132 | a non-empty name without `/` is a path of exactly that one segment |
| `Kindle.FilteredSplitIgnoresLeadingSlashes` | src/device/kindle.rs:127-132 | leading slashes only add empty pieces, which the filter drops |
| `Kindle.SegmentsAfterSlashes` | src/device/kindle.rs:127-132 | a path made only of slashes adds no segments in front of another path |
| `Kindle.TrimOfNamedConcat` | src/device/kindle.rs:127 | the trim of a path that has segments, followed by `/` and more text, stops inside the first path |
| `Kindle.SegmentsAfterNamed` | src/device/kindle.rs:127-132 | after a path with segments, `/` and a second path, the second path's segments follow the first's |
| `Kindle.SegmentsConcat` | src/device/kindle.rs:127-132 | the segments of `p/q` are the segments of `p` followed by those of `q`, whatever slashes either carries |
| `Kindle.SegmentsAfterSlash` | src/device/kindle.rs:127-132 | a leading `/` does not change the segments |
| `Kindle.SegmentsBeforeSlashes` | src/device/kindle.rs:127-132 | two trailing slashes do not change the segments |
| `Kindle.SlashVariantsAgree` | src/device/kindle.rs:127-132 | for every non-empty name `n` without `/`, the paths `n`, `/n` and `//n//` all have the single segment `n` |
| `Kindle.SegmentsOfJoin` | src/device/kindle.rs:127-132 | non-empty `/`-free names joined by `/` have exactly those names as segments |
| `Kindle.NormalizeIdempotent` | src/device/kindle.rs:127-132 | normalising the segments a second time changes nothing |
| `Kindle.Resolve` | src/device/kindle.rs:120-159 | with no storage, "No storage found"; with no segments (an empty or all-slash path), InvalidPath "Cannot resolve root path to ID" before any listing; success only for paths with segments |
| `Kindle.ResolveDependsOnSegments` | src/device/kindle.rs:127-132 | paths with the same segments resolve alike |
| `Kindle.ResolveNormalized` | src/device/kindle.rs:127-132 | resolving a path and resolving its normalised form give the same outcome |
| `Kindle.Walk` | src/device/kindle.rs:133-158 | a lookup per segment from the given parent, descending into folders; pinned down by `WalkOkIff`, `WalkNotFoundIff`, `WalkNotDirectoryIff`, `WalkErrorKinds` and `WalkSegments` |
| `Kindle.ResolvePath` | src/device/kindle.rs:120-132 | the storage and root-path guards followed by the walk compute `Resolve` |
| `Kindle.WalkSegments` | src/device/kindle.rs:133-158 | the segment-by-segment loop with early returns computes `Walk` from the root; its fall-through at line 158 is proved unreachable |
| `Kindle.ChainSpellsSegments` | src/device/kindle.rs:133-150 | every object of a chain of folders is a folder named by its segment |
| `Kindle.ChainCons` | src/device/kindle.rs:141-150 | a first folder step followed by a chain is a chain |
| `Kindle.WalkAlongChain` | src/device/kindle.rs:133-150 | after a chain of folders over the first segments, the walk continues from the folder the chain ends in |
| `Kindle.WalkOkChain` | src/device/kindle.rs:133-143 | a successful walk yields the folders it passes through and its final object, whose id it returns |
| `Kindle.WalkOkHasChain` | src/device/kindle.rs:133-143 | a successful walk reaches its object through a chain of folders |
| `Kindle.ReachesViaCons` | src/device/kindle.rs:141-150 | a first folder step followed by a successful walk is a successful walk |
| `Kindle.ReachesGivesWalk` | src/device/kindle.rs:133-143 | reaching an object through folders makes the walk return its id |
| `Kindle.WalkOkIff` | src/device/kindle.rs:133-150 | a walk returns an id exactly when folders named by all but the last segment lead to an object with that id, named by the last segment, file or folder |
| `Kindle.WalkNotFoundChain` | src/device/kindle.rs:152-154 | a "not found" failure yields the segment it stops at, named in the message, and the folders leading to it |
| `Kindle.WalkNotFoundHasChain` | src/device/kindle.rs:152-154 | a "not found" failure names a segment that folders lead to and that has no child of that name |
| `Kindle.WalkNotFoundIff` | src/device/kindle.rs:152-154 | the walk fails with FileNotFound "'seg' not found in path" exactly when folders lead to segment seg and no child has that name |
| `Kindle.WalkNotDirectoryChain` | src/device/kindle.rs:144-149 | a "not a directory" failure yields the segment it stops at, named in the message, the folders before it and the non-folder found there |
| `Kindle.WalkNotDirectoryHasChain` | src/device/kindle.rs:144-149 | a "not a directory" failure names a segment, not the last one, whose first match is not a folder |
| `Kindle.WalkNotDirectoryIff` | src/device/kindle.rs:144-149 | the walk fails with InvalidPath "'seg' is not a directory" exactly when it meets a non-folder before the last segment |
| `Kindle.WalkErrorKinds` | src/device/kindle.rs:133-158 | a walk only fails with FileNotFound or InvalidPath |
| `Kindle.WalkErrorIgnoresLaterSegments` | src/device/kindle.rs:152-154 | once a walk fails, appending further segments does not change the outcome |
| `Kindle.ResolveOkIff` | src/device/kindle.rs:120-159 | a path resolves to an id exactly when there is a storage, the path has segments, and folders named by the segments lead from the root to an object with that id |
| `Kindle.ToEntries` | src/device/kindle.rs:109-117 | the entries mirror the objects one for one in order: name, size and id are copied, and the folder flag is set exactly for the folder file type |
| `Kindle.ListFiles` | src/device/kindle.rs:94-118 | "No storage found" without storage; "/" and "" list the root; any other path propagates the resolution error, and otherwise lists, in device order, what the device reports under `Folder(id)` for the id the resolution returns, a file's id included |
| `Kindle.ListDoubleSlashFails` | src/device/kindle.rs:101-106 | "//" is not treated as the root: listing it fails with "Cannot resolve root path to ID" |
| `Kindle.DownloadFile` | src/device/kindle.rs:161-175 | resolution errors propagate; otherwise the transfer's outcome is Ok, or TransferFailed with the library's text |
| `Ls.FromFileEntry` | src/commands/ls.rs:19-27 | the name, size and folder flag are copied |
| `Ls.FromFileEntryDropsOnlyId` | src/commands/ls.rs:19-27 | two entries convert alike exactly when they differ at most in their id |
| `Ls.ToHuman` | src/commands/ls.rs:29-33 | an empty listing renders exactly as "(empty)" |
| `Ls.ShortLineRoundTrip` | src/commands/ls.rs:37-41 | for a name that does not end in `/`, a short line gives back the entry's name and kind: folders carry a trailing `/`, files the bare name |
| `Ls.ToHumanLines` | src/commands/ls.rs:34-44 | for names without a newline, a non-empty listing renders one short line per entry in order, with one newline fewer than entries |
| `Ls.SmallSizeRoundTrip` | src/commands/ls.rs:80-81 | under 1000 bytes the size is exactly the decimal byte count (no leading zeros) followed by "B", and reads back as the count |
| `Ls.FormatSize` | src/commands/ls.rs:73-83 | the size ends in G, M, K or B by the 10^9, 10^6 and 10^3 thresholds; from 1000 bytes up the text before the unit is the one-decimal rendering of the size in that unit; below, `SmallSizeRoundTrip` applies |
| `Ls.Unit` | src/commands/ls.rs:74-79 | the unit of a size of 1000 bytes or more is the largest of 10^9, 10^6 and 10^3 not above it |
| `Ls.LongLineColumns` | src/commands/ls.rs:60-66 | a long line has the type ('d' or '-') at column 0, the size right-aligned in 10 columns ("-" for folders, the byte count and "B" for small files), two spaces, then the name |
| `Ls.LongLineNoNewline` | src/commands/ls.rs:59-67 | a long line holds no newline when the name and the size rendering hold none |
| `Ls.ToHumanLong` | src/commands/ls.rs:51-55 | an empty long listing renders exactly as "(empty)" |
| `Ls.ToHumanLongLines` | src/commands/ls.rs:56-69 | for names and size renderings without a newline, a non-empty long listing renders one long line per entry in order |
| `Ls.RunLs` | src/commands/ls.rs:85-105 | detection and listing errors propagate; otherwise the entries are converted one for one from the listing, in order; JSON when the output is JSON, the long form only when `long` is set and the output is not JSON, else the short form |
| `Pull.JoinPath` | src/commands/pull.rs:35 | joining keeps the base as a prefix and ends in the name, with a `/` in between exactly when the base is non-empty and does not already end in one; an absolute name replaces the base |
| `Pull.JoinPathLastPiece` | src/commands/pull.rs:35 | a `/`-free name joined onto a directory is the text after the last `/` of the result |
| `Pull.DestinationPath` | src/commands/pull.rs:28-38 | never fails (the "Invalid remote path" branch is unreachable); the local path unchanged when it is not a directory, else the directory joined with the text after the last `/` of the remote |
| `Pull.DestinationKeepsFileName` | src/commands/pull.rs:29-35 | a destination inside a directory has the same last `/`-piece as the remote path |
| `Pull.DestinationOfBareName` | src/commands/pull.rs:31-35 | a remote path without `/` is used whole as the file name |
| `Pull.DestinationOfTrailingSlash` | src/commands/pull.rs:31-35 | a remote path ending in `/` yields an empty file name |
| `Pull.RunPull` | src/commands/pull.rs:20-55 | a recursive pull fails with Mtp "Recursive download not yet implemented" (exit code 1) whatever the device; otherwise detection and download errors propagate, and success reports the remote, the destination, and the destination's size or 0 |
| `Tui.EntryLeTotal` | src/tui.rs:71-77 | the comparator orders any two entries one way or the other |
| `Tui.EntryLeTransitive` | src/tui.rs:71-77 | the comparator is transitive |
| `Tui.EntryLeIgnoresCase` | src/tui.rs:71-77 | two entries of one kind whose names differ only in the case of ASCII letters may go in either order |
| `Tui.EntryLe` | src/tui.rs:71-77 | folders before files, then lower-cased names in code-point order; pinned down as a total preorder by `EntryLeTotal` and `EntryLeTransitive`, and by `EntryLeIgnoresCase` |
| `Tui.Insert` | src/tui.rs:71-77 | inserting into a sorted listing keeps it sorted and adds exactly the one entry |
| `Tui.SortEntries` | src/tui.rs:70-77 | the sorted listing is ordered by the comparator and is a permutation of the listing |
| `Tui.SortedFoldersFirst` | src/tui.rs:72-74 | a sorted listing is all its folders followed by all its files |
| `Tui.SortedByNameWithinKind` | src/tui.rs:75 | within each kind, a sorted listing is in lower-cased name order |
| `Tui.PathString` | src/tui.rs:57-63 | "/" for an empty stack; otherwise "/" followed by the names joined with "/" |
| `Tui.SegmentsOfPathString` | src/tui.rs:57-63 | the path string of proper folder names has exactly those names as segments |
| `Tui.PathStringIsRoot` | src/tui.rs:57-68 | for proper folder names, the path is one `list_files` treats as the root exactly when the stack is empty |
| `Tui.StackPathResolvesByWalk` | src/tui.rs:65-68 | the folder listed for a non-empty stack is found by walking exactly the stack's names from the root |
| `Tui.NextSelection` | src/tui.rs:111-126 | with entries, no selection goes to 0, an in-range i goes to (i + 1) mod len, an out-of-range one wraps to 0; the result is in range |
| `Tui.PreviousSelection` | src/tui.rs:128-143 | with entries, no selection goes to 0, and an in-range i goes to (i + len - 1) mod len, staying in range |
| `Tui.SelectionInverse` | src/tui.rs:111-143 | moving down then up, or up then down, restores an in-range cursor |
| `Tui.NextTimesAdd` | src/tui.rs:111-126 | a+b moves down are a moves followed by b moves |
| `Tui.NextTimesAdvance` | src/tui.rs:115-125 | k moves down from i reach i + k while that is in range |
| `Tui.NextTimesCycle` | src/tui.rs:115-125 | moving down past the last entry lands on the first, and len moves come back to the start |
| `Tui.Initial` | src/tui.rs:23-32 | a new browser has no device, an empty stack, an empty listing and no cursor, is not quitting, shows "Press 'c' to connect to Kindle" and satisfies the invariant |
| `Tui.AfterRefresh` | src/tui.rs:65-91 | disconnected, nothing changes; on success the entries are the listing sorted folders-first and by lower-cased name (a permutation), the cursor is on 0 or nowhere, and the status reports the path and count; on failure only the status changes, to the error |
| `Tui.AfterConnect` | src/tui.rs:34-47 | on detection the device is kept and the result is exactly a refresh of the state with that device and the "Connected" status: the folder is listed and sorted, the cursor is on 0 or nowhere, the status reports the listing, and a failed listing keeps the entries and cursor; on failure the device is cleared and the status says why; the stack is unchanged |
| `Tui.AfterDisconnect` | src/tui.rs:49-55 | the device, entries, stack and cursor are cleared, and the status says to reconnect |
| `Tui.AfterEnter` | src/tui.rs:93-102 | when the cursor is on an in-range folder, the result is a refresh of the state with that folder's name pushed; otherwise nothing changes |
| `Tui.AfterGoUp` | src/tui.rs:104-109 | a non-empty stack loses exactly its last name and the result is a refresh at the parent path; an empty stack changes nothing |
| `Tui.AfterNext` | src/tui.rs:111-126 | only the cursor changes, and only when there are entries; it becomes `NextSelection` of the old cursor and lands in range |
| `Tui.AfterPrevious` | src/tui.rs:128-143 | only the cursor changes, and only when there are entries; it becomes `PreviousSelection` of the old cursor and, under the invariant, lands in range |
| `Tui.KeyAction` | src/tui.rs:146-166 | which arm of `handle_key` a key selects: 'q', 'c', 'd' and 'r' their own, Up/k, Down/j, Enter/Right/l and Backspace/Left/h the four moves, and every other key none |
| `Tui.AfterKey` | src/tui.rs:145-169 | 'q' sets only the quit flag; 'c' connects while disconnected and does nothing while connected; 'd' disconnects and 'r' refreshes while connected, and both do nothing while disconnected; Up/k moves up, Down/j moves down, Enter/Right/l opens the selected folder and Backspace/Left/h goes back; unmapped keys change nothing |
| `Tui.RefreshKeepsInv` | src/tui.rs:65-91 | a refresh keeps the cursor within the listing |
| `Tui.ConnectKeepsInv` | src/tui.rs:34-47 | a connection attempt from a disconnected browser keeps the invariant |
| `Tui.EnterKeepsInv` | src/tui.rs:93-102 | opening a folder keeps the invariant |
| `Tui.GoUpKeepsInv` | src/tui.rs:104-109 | going back keeps the invariant |
| `Tui.KeyKeepsInv` | src/tui.rs:145-169 | every key press keeps the cursor on an entry and keeps a disconnected browser empty |
| `Tui.ReachableInv` | src/tui.rs:145-169 | every state reachable from a new browser by key presses satisfies the invariant |
| `Tui.OnlyConnectKeysChangeConnection` | src/tui.rs:148-157 | only 'c' while disconnected and 'd' while connected change the connection |
| `Tui.QuitOnlyByQ` | src/tui.rs:147 | the quit flag is set after a key exactly when it was set before or the key is 'q' |
| `Tui.PathChangesOnlyByNavigation` | src/tui.rs:163-166 | the stack changes only by opening a folder, going back from a non-empty stack, or disconnecting |
| `Tui.EnterThenGoUp` | src/tui.rs:93-109 | opening a folder and then going back restores the stack |
| `Tui.App.constructor` | src/tui.rs:23-32 | the fields start as the initial state, which satisfies the invariant |
| `Tui.App.RefreshListing` | src/tui.rs:65-91 | the fields become the refreshed state, and the invariant is kept |
| `Tui.App.Connect` | src/tui.rs:34-47 | the fields become the state after a connection attempt; from a disconnected browser the invariant is kept |
| `Tui.App.Disconnect` | src/tui.rs:49-55 | the fields become the disconnected state, and the invariant is kept |
| `Tui.App.EnterDirectory` | src/tui.rs:93-102 | the fields become the state after opening the selected folder, and the invariant is kept |
| `Tui.App.GoUp` | src/tui.rs:104-109 | the fields become the state after going back, and the invariant is kept |
| `Tui.App.SelectNext` | src/tui.rs:111-126 | the fields become the state after moving down, and the invariant is kept |
| `Tui.App.SelectPrevious` | src/tui.rs:128-143 | the fields become the state after moving up, and the invariant is kept |
| `Tui.App.HandleKey` | src/tui.rs:145-169 | the fields become the state after the key, and the invariant is kept |

## Left out

- Calls into the MTP library are inputs, not models: the raw-device enumeration (`detect_raw_devices`), `open_uncached`, the storage pool, `files_and_folders` and `get_file_to_path`. So is the text of their errors.
- `Kindle::info` and `KindleInfo` are left out: they only read the library's string getters and apply defaults.
- The `status` and `info` commands (src/commands/status.rs, src/commands/info.rs) are left out. So are argument parsing (src/cli/args.rs), printing with quiet and JSON suppression (src/cli/output.rs), and re-exports (src/commands/mod.rs).
- `Ls.RunLs` returns what would be printed: the listing itself when the output is JSON, or the human text. The JSON serialisation is not modelled.
- `Pull.RunPull` returns the `PullOutput` that `run_pull` prints. The "Downloaded ... bytes" line and the printing are not modelled.
- The terminal drawing `ui`, the `main` event loop of src/tui.rs and the TUI's `format_size` are left out: they are rendering and I/O.
- `Ls.ToHumanLines`, `Ls.ToHumanLongLines`, `Ls.ShortLineRoundTrip`: stated only for names without a newline, and for the round trip a name that does not end in `/`. The long form also needs a size rendering without a newline. A name with a newline splits into two lines; a file named "a/" reads back as the folder "a".
- `Ls.FormatSize`: sizes of 1000 bytes and up are formatted as floating point with one decimal. The model takes that rendering as the `oneDecimal` parameter and proves nothing about its digits.
- `Strings.Lower`: lower-cases ASCII letters only. Rust's `to_lowercase` applies full Unicode case mapping.
- `Tui.SortEntries`: proved sorted and a permutation of the listing. The stability of Rust's `sort_by` (entries that compare equal keep their device order) is not proved. The listing is replaced by a sorted copy rather than sorted in place.
- `Tui.StackPathResolvesByWalk`, `Tui.SegmentsOfPathString`, `Tui.PathStringIsRoot`: stated only for stacks of non-empty names without `/`. A folder named "" or containing `/` would make the TUI's path string name a different folder.
- `Pull.JoinPath`: models Unix `Path::join` for the plain strings `run_pull` builds. Windows prefixes and `Path::display` lossiness are not modelled.
- `Tui.ConnectKeepsInv`, `Tui.App.Connect`: the invariant is stated only from a disconnected browser, the only state in which `handle_key` calls `connect`.
- The code has no directory cache, no recursive pull or delete, no mkdir, no atomic temporary-file writes and no error for several connected Kindles, so neither does the model. Recursive pull is refused outright.
- Two behaviours one might expect that the code does not have, and the model follows the code:
  - A non-folder in the middle of a path is `InvalidPath` with exit code 1. It is not a separate "not a directory" kind with exit code 3.
  - The TUI sorts folders first and then case-insensitively. The `ls` command does not sort at all.
  - `ls` of a path that names a file is not an error. It lists whatever the device reports as that object's children.
- The browser keeps the device it detected as one value from connect to disconnect, so every refresh within a connection lists the same object tree. `refresh_listing` queries the live device on each call, which may have changed in between.
- `Io` errors carry their rendered text rather than a `std::io::Error`.
