/**
 * The file browser's state machine (the `App` of src/tui.rs, without the
 * drawing): the connection, the stack of folder names being browsed, the sorted
 * listing of the current folder, the cursor, the status line and the quit flag.
 *
 * Each operation is specified by a function from the state before to the state
 * after (`State` and the `After...` functions); the class `App` holds the same
 * fields and its methods update them step by step, proved to agree with those
 * functions. Detecting the device is the `Enumeration` a connection attempt sees.
 */
module Tui {
  import opened Wrappers
  import opened Strings
  import opened Errors
  import opened Kindle

  // ---------------------------------------------------------------------------
  // The listing order: folders first, then by lower-cased name

  /** `a` may precede `b`: the comparator of `refresh_listing` does not answer `Greater`. */
  predicate EntryLe(a: FileEntry, b: FileEntry) {
    if a.isFolder != b.isFolder then a.isFolder else LexLe(Lower(a.name), Lower(b.name))
  }

  lemma EntryLeTotal(a: FileEntry, b: FileEntry)
    ensures EntryLe(a, b) || EntryLe(b, a)
  {
    if a.isFolder == b.isFolder {
      LexLeTotal(Lower(a.name), Lower(b.name));
    }
  }

  /** Two entries of one kind whose names differ only in the case of ASCII letters may go in either order. */
  lemma EntryLeIgnoresCase(a: FileEntry, b: FileEntry)
    requires a.isFolder == b.isFolder && SameIgnoringAsciiCase(a.name, b.name)
    ensures EntryLe(a, b) && EntryLe(b, a)
  {
    LowerIgnoresCase(a.name, b.name);
    LexLeReflexive(Lower(a.name));
  }

  lemma EntryLeTransitive(a: FileEntry, b: FileEntry, c: FileEntry)
    requires EntryLe(a, b) && EntryLe(b, c)
    ensures EntryLe(a, c)
  {
    if a.isFolder == b.isFolder && b.isFolder == c.isFolder {
      LexLeTransitive(Lower(a.name), Lower(b.name), Lower(c.name));
    }
  }

  predicate Sorted(s: seq<FileEntry>) {
    forall i, j :: 0 <= i < j < |s| ==> EntryLe(s[i], s[j])
  }

  /** Putting `a` in front of a sorted sequence whose every element it may precede keeps it sorted. */
  lemma ConsSorted(a: FileEntry, t: seq<FileEntry>)
    requires Sorted(t)
    requires forall k :: 0 <= k < |t| ==> EntryLe(a, t[k])
    ensures Sorted([a] + t)
  {
    var s := [a] + t;
    forall i, j | 0 <= i < j < |s| ensures EntryLe(s[i], s[j]) {
      if i == 0 {
        assert s[j] == t[j - 1];
      } else {
        assert s[i] == t[i - 1] && s[j] == t[j - 1];
      }
    }
  }

  lemma InsertFrontSorted(x: FileEntry, s: seq<FileEntry>)
    requires Sorted(s) && |s| > 0 && EntryLe(x, s[0])
    ensures Sorted([x] + s)
  {
    forall k | 0 <= k < |s| ensures EntryLe(x, s[k]) {
      if k > 0 {
        EntryLeTransitive(x, s[0], s[k]);
      }
    }
    ConsSorted(x, s);
  }

  lemma HeadBelowInsert(x: FileEntry, s: seq<FileEntry>, rest: seq<FileEntry>)
    requires Sorted(s) && |s| > 0 && !EntryLe(x, s[0])
    requires multiset(rest) == multiset(s[1..]) + multiset{x}
    ensures forall k :: 0 <= k < |rest| ==> EntryLe(s[0], rest[k])
  {
    EntryLeTotal(x, s[0]);
    forall k | 0 <= k < |rest| ensures EntryLe(s[0], rest[k]) {
      assert rest[k] in multiset(rest);
      if rest[k] != x {
        assert rest[k] in multiset(s[1..]);
        var m :| 0 <= m < |s[1..]| && s[1..][m] == rest[k];
        assert s[m + 1] == rest[k];
      }
    }
  }

  /** `x` inserted into a sorted sequence before the first element it may precede. */
  function Insert(x: FileEntry, s: seq<FileEntry>): (r: seq<FileEntry>)
    requires Sorted(s)
    ensures Sorted(r)
    ensures multiset(r) == multiset(s) + multiset{x}
    decreases |s|
  {
    if s == [] then [x]
    else if EntryLe(x, s[0]) then
      InsertFrontSorted(x, s);
      [x] + s
    else
      var rest := Insert(x, s[1..]);
      HeadBelowInsert(x, s, rest);
      ConsSorted(s[0], rest);
      assert s == [s[0]] + s[1..];
      [s[0]] + rest
  }

  /** The listing in browsing order (`sort_by` with the folders-first comparator). */
  function SortEntries(s: seq<FileEntry>): (r: seq<FileEntry>)
    ensures Sorted(r)
    ensures multiset(r) == multiset(s)
    ensures |r| == |s|
    decreases |s|
  {
    if s == [] then []
    else
      assert s == [s[0]] + s[1..];
      var r := Insert(s[0], SortEntries(s[1..]));
      assert |r| == |multiset(r)|;
      r
  }

  /** The first `k` entries are folders and the rest are files. */
  predicate FoldersThenFiles(s: seq<FileEntry>, k: nat) {
    && k <= |s|
    && (forall i :: 0 <= i < k ==> s[i].isFolder)
    && (forall i :: k <= i < |s| ==> !s[i].isFolder)
  }

  /** A sorted listing is every folder, then every file. */
  lemma SortedFoldersFirst(s: seq<FileEntry>)
    requires Sorted(s)
    ensures exists k: nat :: FoldersThenFiles(s, k)
  {
    match FindIndex(s, (e: FileEntry) => !e.isFolder)
    case None =>
      assert FoldersThenFiles(s, |s|);
    case Some(k) =>
      forall i | k <= i < |s| ensures !s[i].isFolder {
        if i > k {
          assert EntryLe(s[k], s[i]);
        }
      }
      assert FoldersThenFiles(s, k);
  }

  /** Within each kind, a sorted listing is in lower-cased name order. */
  lemma SortedByNameWithinKind(s: seq<FileEntry>, i: nat, j: nat)
    requires Sorted(s) && i < j < |s| && s[i].isFolder == s[j].isFolder
    ensures LexLe(Lower(s[i].name), Lower(s[j].name))
  {
    assert EntryLe(s[i], s[j]);
  }

  // ---------------------------------------------------------------------------
  // The current path (`current_path_string`)

  /** "/" for the root, else "/" and the folder names joined by "/". */
  function PathString(stack: seq<string>): (r: string)
    ensures |r| > 0 && r[0] == '/'
    ensures stack == [] ==> r == "/"
    ensures stack != [] ==> r[1..] == Join(stack, '/')
  {
    if stack == [] then "/" else "/" + Join(stack, '/')
  }

  /** Folder names fit for a path: non-empty and without `/`. */
  predicate WellFormed(stack: seq<string>) {
    forall i :: 0 <= i < |stack| ==> stack[i] != "" && '/' !in stack[i]
  }

  /** The path string of a stack of proper folder names has exactly those names as its segments. */
  lemma SegmentsOfPathString(stack: seq<string>)
    requires WellFormed(stack)
    ensures Segments(PathString(stack)) == stack
  {
    if stack == [] {
      assert TrimStart("/", '/') == [];
      assert Split("", '/') == [""];
    } else {
      var joined := Join(stack, '/');
      JoinStartsWith(stack, '/');
      assert ("/" + joined)[1..] == joined;
      assert TrimStart("/" + joined, '/') == TrimStart(joined, '/');
      SegmentsOfJoin(stack);
    }
  }

  /** The path string of proper folder names is one `list_files` treats as the root exactly when the stack is empty. */
  lemma PathStringIsRoot(stack: seq<string>)
    requires WellFormed(stack)
    ensures IsRootPath(PathString(stack)) <==> stack == []
  {
    if stack != [] {
      JoinStartsWith(stack, '/');
    }
  }

  // ---------------------------------------------------------------------------
  // Cursor movement (`select_next`, `select_previous`)

  /** The cursor after moving down a non-empty listing of `len` entries. */
  function NextSelection(sel: Option<nat>, len: nat): (r: Option<nat>)
    requires len > 0
    ensures r.Some? && r.value < len
    ensures sel.None? ==> r == Some(0)
    ensures sel.Some? && sel.value < len ==> r == Some((sel.value + 1) % len)
    ensures sel.Some? && sel.value >= len ==> r == Some(0)
  {
    match sel
    case None => Some(0)
    case Some(i) =>
      if i >= len - 1 then
        ModSelf(len);
        Some(0)
      else
        ModSmall(i + 1, len);
        Some(i + 1)
  }

  /** The cursor after moving up a non-empty listing of `len` entries. */
  function PreviousSelection(sel: Option<nat>, len: nat): (r: Option<nat>)
    requires len > 0
    ensures sel.None? ==> r == Some(0)
    ensures sel.Some? && sel.value < len ==> r.Some? && r.value < len && r == Some((sel.value + len - 1) % len)
  {
    match sel
    case None => Some(0)
    case Some(i) =>
      if i == 0 then
        ModSmall(len - 1, len);
        Some(len - 1)
      else if i < len then
        ModPlusLen(i - 1, len);
        Some(i - 1)
      else
        Some(i - 1)
  }

  lemma ModSmall(x: nat, len: nat)
    requires x < len
    ensures x % len == x
  {
  }

  lemma ModPlusLen(x: nat, len: nat)
    requires x < len
    ensures (x + len) % len == x
  {
  }

  lemma ModSelf(len: nat)
    requires len > 0
    ensures len % len == 0
  {
  }

  /** Moving down then up, or up then down, puts an in-range cursor back where it was. */
  lemma SelectionInverse(i: nat, len: nat)
    requires i < len
    ensures PreviousSelection(NextSelection(Some(i), len), len) == Some(i)
    ensures NextSelection(PreviousSelection(Some(i), len), len) == Some(i)
  {
  }

  /** The cursor after `k` moves down. */
  function NextTimes(sel: Option<nat>, len: nat, k: nat): Option<nat>
    requires len > 0
    decreases k
  {
    if k == 0 then sel else NextSelection(NextTimes(sel, len, k - 1), len)
  }

  /** `a + b` moves are `a` moves followed by `b` moves. */
  lemma {:induction false} NextTimesAdd(sel: Option<nat>, len: nat, a: nat, b: nat)
    requires len > 0
    ensures NextTimes(sel, len, a + b) == NextTimes(NextTimes(sel, len, a), len, b)
    decreases b
  {
    if b > 0 {
      NextTimesAdd(sel, len, a, b - 1);
    }
  }

  /** From entry `i`, `k` moves down reach entry `i + k` while that is still in the listing. */
  lemma {:induction false} NextTimesAdvance(i: nat, len: nat, k: nat)
    requires i + k < len
    ensures NextTimes(Some(i), len, k) == Some(i + k)
    decreases k
  {
    if k > 0 {
      NextTimesAdvance(i, len, k - 1);
    }
  }

  /** `len` moves down from any entry come back to it; the move past the last entry lands on the first. */
  lemma NextTimesCycle(i: nat, len: nat)
    requires i < len
    ensures NextTimes(Some(i), len, len - i) == Some(0)
    ensures NextTimes(Some(i), len, len) == Some(i)
  {
    NextTimesAdvance(i, len, len - i - 1);
    assert NextTimes(Some(i), len, len - i) == NextSelection(Some(len - 1), len);
    NextTimesAdd(Some(i), len, len - i, i);
    NextTimesAdvance(0, len, i);
  }

  // ---------------------------------------------------------------------------
  // The browser state and its transitions

  const InitialMessage := "Press 'c' to connect to Kindle"
  const ConnectingMessage := "Connecting to Kindle..."
  const ConnectedMessage := "Connected! Loading files..."
  const DisconnectedMessage := "Disconnected. Press 'c' to reconnect."

  function ListedMessage(path: string, count: nat): string {
    "Path: " + path + " (" + NatToString(count) + " items)"
  }

  function ListErrorMessage(e: Error): string {
    "Error listing files: " + Describe(e)
  }

  function ConnectErrorMessage(e: Error): string {
    "Connection failed: " + Describe(e)
  }

  /** The fields of `App`; `selected` is the list cursor. */
  datatype State = State(
    kindle: Option<Device>,
    path: seq<string>,
    entries: seq<FileEntry>,
    selected: Option<nat>,
    status: string,
    quit: bool)

  /** The cursor is on an entry, if anywhere; while disconnected nothing is listed and the stack is empty. */
  predicate Inv(s: State) {
    && (s.selected.Some? ==> s.selected.value < |s.entries|)
    && (s.kindle.None? ==> s.entries == [] && s.selected.None? && s.path == [])
  }

  /** The state of a freshly started browser (`App::new`). */
  function Initial(): (r: State)
    ensures Inv(r) && !r.quit && r.status == InitialMessage
    ensures r.kindle.None? && r.path == [] && r.entries == [] && r.selected.None?
  {
    State(None, [], [], None, InitialMessage, false)
  }

  /** `refresh_listing`: re-lists the current folder of a connected device. */
  function AfterRefresh(s: State): (r: State)
    ensures s.kindle.None? ==> r == s
    ensures r.kindle == s.kindle && r.path == s.path && r.quit == s.quit
    ensures s.kindle.Some? ==>
      var listing := ListFiles(s.kindle.value, PathString(s.path));
      && (listing.Ok? ==>
            && Sorted(r.entries)
            && multiset(r.entries) == multiset(listing.value)
            && r.selected == (if listing.value == [] then None else Some(0))
            && r.status == ListedMessage(PathString(s.path), |listing.value|))
      && (listing.Err? ==>
            && r.entries == s.entries
            && r.selected == s.selected
            && r.status == ListErrorMessage(listing.error))
  {
    match s.kindle
    case None => s
    case Some(dev) => Relisted(s, PathString(s.path), ListFiles(dev, PathString(s.path)))
  }

  /** The state once the listing of `path` has come back. */
  function Relisted(s: State, path: string, listing: Result<seq<FileEntry>>): State {
    match listing
    case Ok(files) =>
      var sorted := SortEntries(files);
      s.(entries := sorted, selected := if sorted == [] then None else Some(0),
         status := ListedMessage(path, |sorted|))
    case Err(e) => s.(status := ListErrorMessage(e))
  }

  /** `connect`: detects the Kindle and lists the current folder, or reports why it failed. */
  function AfterConnect(s: State, en: Enumeration): (r: State)
    ensures r.path == s.path && r.quit == s.quit
    ensures Detect(en).Err? ==> r == s.(kindle := None, status := ConnectErrorMessage(Detect(en).error))
    ensures Detect(en).Ok? ==>
      var listing := ListFiles(Detect(en).value, PathString(s.path));
      && r.kindle == Some(Detect(en).value)
      && (listing.Ok? ==> Sorted(r.entries) && multiset(r.entries) == multiset(listing.value))
      && r.status == (match listing
                      case Ok(files) => ListedMessage(PathString(s.path), |files|)
                      case Err(e) => ListErrorMessage(e))
      && (listing.Ok? ==> r.selected == (if listing.value == [] then None else Some(0)))
      && (listing.Err? ==> r.entries == s.entries && r.selected == s.selected)
    ensures Detect(en).Ok? ==> r == AfterRefresh(s.(kindle := Some(Detect(en).value), status := ConnectedMessage))
  {
    match Detect(en)
    case Ok(dev) => AfterRefresh(s.(kindle := Some(dev), status := ConnectedMessage))
    case Err(e) => s.(kindle := None, status := ConnectErrorMessage(e))
  }

  /** `disconnect`: forgets the device, the listing, the stack and the cursor. */
  function AfterDisconnect(s: State): (r: State)
    ensures r.kindle.None? && r.path == [] && r.entries == [] && r.selected.None?
    ensures r.status == DisconnectedMessage && r.quit == s.quit
  {
    s.(kindle := None, entries := [], path := [], selected := None, status := DisconnectedMessage)
  }

  /** The cursor is on a folder of the listing: `enter_directory` will open it. */
  predicate CanEnter(s: State) {
    s.selected.Some? && s.selected.value < |s.entries| && s.entries[s.selected.value].isFolder
  }

  /** `enter_directory`: pushes the selected folder's name and re-lists, or does nothing. */
  function AfterEnter(s: State): (r: State)
    ensures !CanEnter(s) ==> r == s
    ensures CanEnter(s) ==>
      && r.path == s.path + [s.entries[s.selected.value].name]
      && r.kindle == s.kindle && r.quit == s.quit
    ensures CanEnter(s) ==> r == AfterRefresh(s.(path := s.path + [s.entries[s.selected.value].name]))
  {
    if CanEnter(s) then AfterRefresh(s.(path := s.path + [s.entries[s.selected.value].name]))
    else s
  }

  /** `go_up`: pops the stack and re-lists, or does nothing at the root. */
  function AfterGoUp(s: State): (r: State)
    ensures s.path == [] ==> r == s
    ensures s.path != [] ==>
      && s.path == r.path + [s.path[|s.path| - 1]]
      && r.kindle == s.kindle && r.quit == s.quit
    ensures s.path != [] ==> r == AfterRefresh(s.(path := s.path[..|s.path| - 1]))
  {
    if s.path != [] then AfterRefresh(s.(path := s.path[..|s.path| - 1])) else s
  }

  /** `select_next`: moves the cursor down, wrapping to the top; nothing happens on an empty listing. */
  function AfterNext(s: State): (r: State)
    ensures s.entries == [] ==> r == s
    ensures s.entries != [] ==> r.selected.Some? && r.selected.value < |s.entries|
    ensures s.entries != [] ==> r.selected == NextSelection(s.selected, |s.entries|)
    ensures r.(selected := s.selected) == s
  {
    if s.entries == [] then s else s.(selected := NextSelection(s.selected, |s.entries|))
  }

  /** `select_previous`: moves the cursor up, wrapping to the bottom; nothing happens on an empty listing. */
  function AfterPrevious(s: State): (r: State)
    ensures s.entries == [] ==> r == s
    ensures Inv(s) && s.entries != [] ==> r.selected.Some? && r.selected.value < |s.entries|
    ensures s.entries != [] ==> r.selected == PreviousSelection(s.selected, |s.entries|)
    ensures r.(selected := s.selected) == s
  {
    if s.entries == [] then s else s.(selected := PreviousSelection(s.selected, |s.entries|))
  }

  /** The keys the browser reads. */
  datatype Key = Char(c: char) | Up | Down | Left | Right | Enter | Backspace | OtherKey

  predicate MovesUp(key: Key) { key == Up || key == Char('k') }
  predicate MovesDown(key: Key) { key == Down || key == Char('j') }
  predicate Opens(key: Key) { key == Enter || key == Right || key == Char('l') }
  predicate GoesBack(key: Key) { key == Backspace || key == Left || key == Char('h') }

  /** Whether `handle_key` has an action for the key at all. */
  predicate Mapped(key: Key) {
    key in {Char('q'), Char('c'), Char('d'), Char('r')} || MovesUp(key) || MovesDown(key) || Opens(key) || GoesBack(key)
  }

  /** What `handle_key` does for a key. */
  datatype Action = Quit | ConnectDevice | DisconnectDevice | Relist | Previous | Next | Open | Back | Ignore

  /** The arms of `handle_key`'s match. */
  function KeyAction(key: Key): (a: Action)
    ensures a == Quit <==> key == Char('q')
    ensures a == ConnectDevice <==> key == Char('c')
    ensures a == DisconnectDevice <==> key == Char('d')
    ensures a == Relist <==> key == Char('r')
    ensures a == Previous <==> MovesUp(key)
    ensures a == Next <==> MovesDown(key)
    ensures a == Open <==> Opens(key)
    ensures a == Back <==> GoesBack(key)
    ensures a == Ignore <==> !Mapped(key)
  {
    match key
    case Char(c) =>
      if c == 'q' then Quit
      else if c == 'c' then ConnectDevice
      else if c == 'd' then DisconnectDevice
      else if c == 'r' then Relist
      else if c == 'k' then Previous
      else if c == 'j' then Next
      else if c == 'l' then Open
      else if c == 'h' then Back
      else Ignore
    case Up => Previous
    case Down => Next
    case Enter => Open
    case Right => Open
    case Backspace => Back
    case Left => Back
    case OtherKey => Ignore
  }

  /** `handle_key`: the state after one key press. */
  function AfterKey(s: State, key: Key, en: Enumeration): (r: State)
    ensures key == Char('q') ==> r == s.(quit := true)
    ensures !Mapped(key) ==> r == s
    ensures key == Char('c') && s.kindle.Some? ==> r == s
    ensures (key == Char('d') || key == Char('r')) && s.kindle.None? ==> r == s
    ensures key == Char('c') && s.kindle.None? ==> r == AfterConnect(s, en)
    ensures key == Char('d') && s.kindle.Some? ==> r == AfterDisconnect(s)
    ensures key == Char('r') && s.kindle.Some? ==> r == AfterRefresh(s)
    ensures MovesUp(key) ==> r == AfterPrevious(s)
    ensures MovesDown(key) ==> r == AfterNext(s)
    ensures Opens(key) ==> r == AfterEnter(s)
    ensures GoesBack(key) ==> r == AfterGoUp(s)
  {
    match KeyAction(key)
    case Quit => s.(quit := true)
    case ConnectDevice => if s.kindle.None? then AfterConnect(s, en) else s
    case DisconnectDevice => if s.kindle.Some? then AfterDisconnect(s) else s
    case Relist => if s.kindle.Some? then AfterRefresh(s) else s
    case Previous => AfterPrevious(s)
    case Next => AfterNext(s)
    case Open => AfterEnter(s)
    case Back => AfterGoUp(s)
    case Ignore => s
  }

  // ---------------------------------------------------------------------------
  // What the transitions promise

  /** A refresh keeps the cursor on an entry and, while connected, nothing else about the invariant can break. */
  lemma RefreshKeepsInv(s: State)
    requires Inv(s)
    ensures Inv(AfterRefresh(s))
  {
    if s.kindle.Some? {
      var listing := ListFiles(s.kindle.value, PathString(s.path));
      if listing.Ok? {
        var r := AfterRefresh(s);
        assert |r.entries| == |multiset(listing.value)| == |listing.value|;
      }
    }
  }

  /** A connection attempt from a disconnected browser keeps the invariant (`handle_key` makes no other). */
  lemma ConnectKeepsInv(s: State, en: Enumeration)
    requires Inv(s) && s.kindle.None?
    ensures Inv(AfterConnect(s, en))
  {
    if Detect(en).Ok? {
      RefreshKeepsInv(s.(kindle := Some(Detect(en).value), status := ConnectedMessage));
    }
  }

  lemma EnterKeepsInv(s: State)
    requires Inv(s)
    ensures Inv(AfterEnter(s))
  {
    if CanEnter(s) {
      RefreshKeepsInv(s.(path := s.path + [s.entries[s.selected.value].name]));
    }
  }

  lemma GoUpKeepsInv(s: State)
    requires Inv(s)
    ensures Inv(AfterGoUp(s))
  {
    if s.path != [] {
      RefreshKeepsInv(s.(path := s.path[..|s.path| - 1]));
    }
  }

  /** Every key press keeps the invariant. */
  lemma KeyKeepsInv(s: State, key: Key, en: Enumeration)
    requires Inv(s)
    ensures Inv(AfterKey(s, key, en))
  {
    if key == Char('q') {
    } else if key == Char('c') {
      if s.kindle.None? {
        ConnectKeepsInv(s, en);
      }
    } else if key == Char('d') {
    } else if key == Char('r') {
      RefreshKeepsInv(s);
    } else if MovesUp(key) {
    } else if MovesDown(key) {
    } else if Opens(key) {
      EnterKeepsInv(s);
    } else if GoesBack(key) {
      GoUpKeepsInv(s);
    }
  }

  /** Every state reachable by key presses from the start satisfies the invariant. */
  lemma {:induction false} ReachableInv(keys: seq<Key>, ens: seq<Enumeration>)
    requires |keys| == |ens|
    ensures Inv(Run(Initial(), keys, ens))
    decreases |keys|
  {
    if |keys| > 0 {
      ReachableInv(keys[..|keys| - 1], ens[..|ens| - 1]);
      KeyKeepsInv(Run(Initial(), keys[..|keys| - 1], ens[..|ens| - 1]), keys[|keys| - 1], ens[|ens| - 1]);
    }
  }

  /** The state after a sequence of key presses; `ens[i]` is what detection sees at the `i`-th press. */
  function Run(s: State, keys: seq<Key>, ens: seq<Enumeration>): State
    requires |keys| == |ens|
    decreases |keys|
  {
    if keys == [] then s
    else AfterKey(Run(s, keys[..|keys| - 1], ens[..|ens| - 1]), keys[|keys| - 1], ens[|ens| - 1])
  }

  /** Only 'c' while disconnected and 'd' while connected can change the connection. */
  lemma OnlyConnectKeysChangeConnection(s: State, key: Key, en: Enumeration)
    requires AfterKey(s, key, en).kindle != s.kindle
    ensures (key == Char('c') && s.kindle.None?) || (key == Char('d') && s.kindle.Some?)
  {
  }

  /** Only 'q' sets the quit flag, and nothing clears it. */
  lemma QuitOnlyByQ(s: State, key: Key, en: Enumeration)
    ensures AfterKey(s, key, en).quit <==> s.quit || key == Char('q')
  {
  }

  /** Only the open and back keys, 'd' and a connection attempt can change the stack. */
  lemma PathChangesOnlyByNavigation(s: State, key: Key, en: Enumeration)
    requires AfterKey(s, key, en).path != s.path
    ensures (Opens(key) && CanEnter(s)) || (GoesBack(key) && s.path != []) || (key == Char('d') && s.kindle.Some?)
  {
  }

  /** Opening a folder and then going back restores the stack. */
  lemma EnterThenGoUp(s: State)
    requires CanEnter(s)
    ensures AfterGoUp(AfterEnter(s)).path == s.path
  {
    var t := AfterEnter(s);
    assert t.path[..|t.path| - 1] == s.path;
  }

  /**
   * The path a browser with a non-empty stack of proper folder names lists is not
   * one `list_files` treats as the root, and it resolves by walking exactly that
   * stack from the root.
   */
  lemma StackPathResolvesByWalk(dev: Device, stack: seq<string>)
    requires WellFormed(stack) && stack != [] && |dev.storagePool| > 0
    ensures !IsRootPath(PathString(stack))
    ensures Resolve(dev, PathString(stack)) == Walk(dev.storagePool[0], Root, stack)
  {
    PathStringIsRoot(stack);
    SegmentsOfPathString(stack);
    NoSegmentsIffTrimmedEmpty(PathString(stack));
  }

  // ---------------------------------------------------------------------------
  // The application object

  class App {
    var kindle: Option<Device>
    var currentPath: seq<string>
    var entries: seq<FileEntry>
    var selected: Option<nat>
    var statusMessage: string
    var shouldQuit: bool

    /** The fields as a value. */
    function Snapshot(): State
      reads this
    {
      State(kindle, currentPath, entries, selected, statusMessage, shouldQuit)
    }

    predicate Valid()
      reads this
    {
      Inv(Snapshot())
    }

    constructor()
      ensures Snapshot() == Initial() && Valid()
    {
      kindle := None;
      currentPath := [];
      entries := [];
      selected := None;
      statusMessage := InitialMessage;
      shouldQuit := false;
    }

    method RefreshListing()
      modifies this
      ensures Snapshot() == AfterRefresh(old(Snapshot()))
      ensures old(Valid()) ==> Valid()
    {
      ghost var before := Snapshot();
      if kindle.Some? {
        var path := PathString(currentPath);
        var listing := ListFiles(kindle.value, path);
        assert AfterRefresh(before) == Relisted(before, path, listing);
        match listing {
          case Ok(files) =>
            entries := SortEntries(files);
            if entries != [] {
              selected := Some(0);
            } else {
              selected := None;
            }
            statusMessage := ListedMessage(path, |entries|);
          case Err(e) =>
            statusMessage := ListErrorMessage(e);
        }
      }
      if Inv(before) {
        RefreshKeepsInv(before);
      }
    }

    method Connect(en: Enumeration)
      modifies this
      ensures Snapshot() == AfterConnect(old(Snapshot()), en)
      ensures old(Valid()) && old(kindle).None? ==> Valid()
    {
      ghost var before := Snapshot();
      statusMessage := ConnectingMessage;
      match Detect(en) {
        case Ok(dev) =>
          kindle := Some(dev);
          statusMessage := ConnectedMessage;
          RefreshListing();
        case Err(e) =>
          statusMessage := ConnectErrorMessage(e);
          kindle := None;
      }
      if Inv(before) && before.kindle.None? {
        ConnectKeepsInv(before, en);
      }
    }

    method Disconnect()
      modifies this
      ensures Snapshot() == AfterDisconnect(old(Snapshot()))
      ensures old(Valid()) ==> Valid()
    {
      kindle := None;
      entries := [];
      currentPath := [];
      selected := None;
      statusMessage := DisconnectedMessage;
    }

    method EnterDirectory()
      modifies this
      ensures Snapshot() == AfterEnter(old(Snapshot()))
      ensures old(Valid()) ==> Valid()
    {
      ghost var before := Snapshot();
      if selected.Some? && selected.value < |entries| {
        var entry := entries[selected.value];
        if entry.isFolder {
          currentPath := currentPath + [entry.name];
          RefreshListing();
        }
      }
      if Inv(before) {
        EnterKeepsInv(before);
      }
    }

    method GoUp()
      modifies this
      ensures Snapshot() == AfterGoUp(old(Snapshot()))
      ensures old(Valid()) ==> Valid()
    {
      ghost var before := Snapshot();
      if currentPath != [] {
        currentPath := currentPath[..|currentPath| - 1];
        RefreshListing();
      }
      if Inv(before) {
        GoUpKeepsInv(before);
      }
    }

    method SelectNext()
      modifies this
      ensures Snapshot() == AfterNext(old(Snapshot()))
      ensures old(Valid()) ==> Valid()
    {
      if entries == [] {
        return;
      }
      var i := match selected
        case Some(i) => if i >= |entries| - 1 then 0 else i + 1
        case None => 0;
      selected := Some(i);
    }

    method SelectPrevious()
      modifies this
      ensures Snapshot() == AfterPrevious(old(Snapshot()))
      ensures old(Valid()) ==> Valid()
    {
      if entries == [] {
        return;
      }
      var i := match selected
        case Some(i) => if i == 0 then |entries| - 1 else i - 1
        case None => 0;
      selected := Some(i);
    }

    method HandleKey(key: Key, en: Enumeration)
      modifies this
      ensures Snapshot() == AfterKey(old(Snapshot()), key, en)
      ensures old(Valid()) ==> Valid()
    {
      ghost var before := Snapshot();
      match KeyAction(key) {
        case Quit =>
          shouldQuit := true;
        case ConnectDevice =>
          if kindle.None? {
            Connect(en);
          }
        case DisconnectDevice =>
          if kindle.Some? {
            Disconnect();
          }
        case Relist =>
          if kindle.Some? {
            RefreshListing();
          }
        case Previous =>
          SelectPrevious();
        case Next =>
          SelectNext();
        case Open =>
          EnterDirectory();
        case Back =>
          GoUp();
        case Ignore =>
      }
      if Inv(before) {
        KeyKeepsInv(before, key, en);
      }
    }
  }
}
