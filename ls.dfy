/**
 * The `ls` command (src/commands/ls.rs): converting listed objects, rendering a
 * listing in the short form (names, folders with a trailing slash) and in the
 * long form (type column, right-aligned size column, name), and choosing the
 * renderer.
 */
module Ls {
  import opened Strings
  import opened Errors
  import opened Kindle

  /** A listed object as `ls` reports it: the device id is dropped. */
  datatype LsEntry = LsEntry(name: string, size: U64, isFolder: bool)

  /** A listing of one path. */
  datatype LsOutput = LsOutput(path: string, entries: seq<LsEntry>)

  /** What `run_ls` prints: the listing serialised as JSON, or a human-readable text. */
  datatype Printed = Json(output: LsOutput) | Human(text: string)

  const EmptyListing := "(empty)"

  /** `From<FileEntry> for LsEntry`. */
  function FromFileEntry(f: FileEntry): (e: LsEntry)
    ensures e.name == f.name && e.size == f.size && e.isFolder == f.isFolder
  {
    LsEntry(f.name, f.size, f.isFolder)
  }

  /** Two entries convert alike exactly when they differ at most in their ids. */
  lemma FromFileEntryDropsOnlyId(f: FileEntry, g: FileEntry)
    ensures FromFileEntry(f) == FromFileEntry(g) <==> f == g.(id := f.id)
  {
  }

  // ---------------------------------------------------------------------------
  // Short form (`LsOutput::to_human`)

  function ShortLine(e: LsEntry): string {
    if e.isFolder then e.name + "/" else e.name
  }

  function ShortLines(es: seq<LsEntry>): (r: seq<string>)
    ensures |r| == |es|
  {
    seq(|es|, i requires 0 <= i < |es| => ShortLine(es[i]))
  }

  function ToHuman(o: LsOutput): (r: string)
    ensures o.entries == [] ==> r == EmptyListing
  {
    if o.entries == [] then EmptyListing else Join(ShortLines(o.entries), '\n')
  }

  /** Reading a short line back: a trailing slash marks a folder. */
  function ParseShortLine(line: string): (string, bool) {
    if |line| > 0 && line[|line| - 1] == '/' then (line[..|line| - 1], true) else (line, false)
  }

  /** A short line gives back the entry's name and kind, for names that do not end in a slash. */
  lemma ShortLineRoundTrip(e: LsEntry)
    requires e.name == [] || e.name[|e.name| - 1] != '/'
    ensures ParseShortLine(ShortLine(e)) == (e.name, e.isFolder)
  {
    if e.isFolder {
      assert (e.name + "/")[..|e.name|] == e.name;
    }
  }

  predicate NoNewline(es: seq<LsEntry>) {
    forall i :: 0 <= i < |es| ==> '\n' !in es[i].name
  }

  /**
   * A non-empty listing renders one line per entry, in order: splitting the text at
   * newlines gives the entries' short lines, and there are one fewer newlines than entries.
   */
  lemma ToHumanLines(o: LsOutput)
    requires o.entries != [] && NoNewline(o.entries)
    ensures Split(ToHuman(o), '\n') == ShortLines(o.entries)
    ensures Count(ToHuman(o), '\n') == |o.entries| - 1
  {
    var lines := ShortLines(o.entries);
    forall i | 0 <= i < |lines| ensures '\n' !in lines[i] {
      assert '\n' !in o.entries[i].name;
    }
    SplitJoin(lines, '\n');
    SplitCount(ToHuman(o), '\n');
  }

  // ---------------------------------------------------------------------------
  // Long form (`LsOutputLong::to_human`)

  /**
   * The size column of a file. `oneDecimal(bytes, unit)` stands for the
   * floating-point rendering of `bytes / unit` with one decimal.
   */
  function FormatSize(bytes: U64, oneDecimal: (nat, nat) -> string): (r: string)
    ensures |r| > 0
    ensures r[|r| - 1] == (if bytes >= 1_000_000_000 then 'G' else if bytes >= 1_000_000 then 'M'
                           else if bytes >= 1_000 then 'K' else 'B')
    ensures bytes >= 1_000 ==> r[..|r| - 1] == oneDecimal(bytes, Unit(bytes))
  {
    if bytes >= 1_000_000_000 then oneDecimal(bytes, 1_000_000_000) + "G"
    else if bytes >= 1_000_000 then oneDecimal(bytes, 1_000_000) + "M"
    else if bytes >= 1_000 then oneDecimal(bytes, 1_000) + "K"
    else NatToString(bytes) + "B"
  }

  /** The unit a size of at least 1000 bytes is shown in: the largest of 10^9, 10^6 and 10^3 not above it. */
  function Unit(bytes: U64): (r: nat)
    requires bytes >= 1_000
    ensures r == 1_000 || r == 1_000_000 || r == 1_000_000_000
    ensures r <= bytes && (r == 1_000_000_000 || bytes < r * 1_000)
  {
    if bytes >= 1_000_000_000 then 1_000_000_000 else if bytes >= 1_000_000 then 1_000_000 else 1_000
  }

  /** Below 1000 bytes the size column is the decimal byte count and "B", which reads back as the count. */
  lemma SmallSizeRoundTrip(bytes: U64, oneDecimal: (nat, nat) -> string)
    requires bytes < 1000
    ensures var s := FormatSize(bytes, oneDecimal);
      && 2 <= |s| <= 4
      && s[|s| - 1] == 'B'
      && (forall i :: 0 <= i < |s| - 1 ==> IsDigit(s[i]))
      && ParseDecimal(s[..|s| - 1]) == bytes
    ensures FormatSize(bytes, oneDecimal) == NatToString(bytes) + "B"
  {
    var s := FormatSize(bytes, oneDecimal);
    assert s[..|s| - 1] == NatToString(bytes);
    ParseNatToString(bytes);
  }

  function TypeColumn(e: LsEntry): string {
    if e.isFolder then "d" else "-"
  }

  function SizeColumn(e: LsEntry, oneDecimal: (nat, nat) -> string): string {
    if e.isFolder then "-" else FormatSize(e.size, oneDecimal)
  }

  /** `format!("{} {:>10}  {}", type_char, size_str, name)`. */
  function LongLine(e: LsEntry, oneDecimal: (nat, nat) -> string): string {
    TypeColumn(e) + " " + PadLeft(SizeColumn(e, oneDecimal), 10) + "  " + e.name
  }

  function LongLines(es: seq<LsEntry>, oneDecimal: (nat, nat) -> string): (r: seq<string>)
    ensures |r| == |es|
  {
    seq(|es|, i requires 0 <= i < |es| => LongLine(es[i], oneDecimal))
  }

  function ToHumanLong(o: LsOutput, oneDecimal: (nat, nat) -> string): (r: string)
    ensures o.entries == [] ==> r == EmptyListing
  {
    if o.entries == [] then EmptyListing else Join(LongLines(o.entries, oneDecimal), '\n')
  }

  /**
   * A long line of a folder or of a file under 1000 bytes has fixed columns: the
   * type at 0 ('d' or '-'), the size right-aligned in 2..12 ("-" for a folder,
   * the byte count and "B" for a file), two spaces, then the name from 14 on.
   */
  lemma LongLineColumns(e: LsEntry, oneDecimal: (nat, nat) -> string)
    requires e.isFolder || e.size < 1000
    ensures var line := LongLine(e, oneDecimal);
      && |line| == 14 + |e.name|
      && line[0] == (if e.isFolder then 'd' else '-')
      && line[1] == ' ' && line[12..14] == "  "
      && line[2..12] == PadLeft(if e.isFolder then "-" else NatToString(e.size) + "B", 10)
      && line[14..] == e.name
  {
    var col := PadLeft(SizeColumn(e, oneDecimal), 10);
    if !e.isFolder {
      SmallSizeRoundTrip(e.size, oneDecimal);
    }
    assert |col| == 10;
    var line := LongLine(e, oneDecimal);
    assert line == TypeColumn(e) + " " + col + "  " + e.name;
  }

  /** A long line holds a newline only if the name or the float rendering does. */
  lemma LongLineNoNewline(e: LsEntry, oneDecimal: (nat, nat) -> string)
    requires '\n' !in e.name
    requires forall n: nat, u: nat :: '\n' !in oneDecimal(n, u)
    ensures '\n' !in LongLine(e, oneDecimal)
  {
    var col := SizeColumn(e, oneDecimal);
    if !e.isFolder && e.size < 1000 {
      var digits := NatToString(e.size);
      assert col == digits + "B";
      assert forall j :: 0 <= j < |digits| ==> IsDigit(digits[j]);
    }
    assert '\n' !in col;
    var padded := PadLeft(col, 10);
    assert forall j :: 0 <= j < |padded| - |col| ==> padded[j] == ' ';
    assert padded == padded[..|padded| - |col|] + col;
    assert '\n' !in padded;
  }

  /** A non-empty long listing has one line per entry, in order. */
  lemma ToHumanLongLines(o: LsOutput, oneDecimal: (nat, nat) -> string)
    requires o.entries != [] && NoNewline(o.entries)
    requires forall n: nat, u: nat :: '\n' !in oneDecimal(n, u)
    ensures Split(ToHumanLong(o, oneDecimal), '\n') == LongLines(o.entries, oneDecimal)
  {
    var lines := LongLines(o.entries, oneDecimal);
    forall i | 0 <= i < |lines| ensures '\n' !in lines[i] {
      LongLineNoNewline(o.entries[i], oneDecimal);
    }
    SplitJoin(lines, '\n');
  }

  // ---------------------------------------------------------------------------
  // The command (`run_ls`)

  /** `entries` convert `files` one for one, in the same order. */
  ghost predicate Converts(files: seq<FileEntry>, entries: seq<LsEntry>) {
    |entries| == |files| && forall i :: 0 <= i < |files| ==> entries[i] == FromFileEntry(files[i])
  }

  /**
   * Detects the device, lists the path and prints the listing: as JSON when the
   * output is JSON, else in the long form when `long` is set, else in the short form.
   */
  function RunLs(en: Enumeration, path: string, long: bool, json: bool, oneDecimal: (nat, nat) -> string): (r: Result<Printed>)
    ensures Detect(en).Err? ==> r == Err(Detect(en).error)
    ensures Detect(en).Ok? && ListFiles(Detect(en).value, path).Err? ==>
      r == Err(ListFiles(Detect(en).value, path).error)
    ensures r.Ok? <==> Detect(en).Ok? && ListFiles(Detect(en).value, path).Ok?
    ensures r.Ok? ==>
      var files := ListFiles(Detect(en).value, path).value;
      exists entries :: Converts(files, entries) &&
        r.value == if json then Json(LsOutput(path, entries))
                   else if long then Human(ToHumanLong(LsOutput(path, entries), oneDecimal))
                   else Human(ToHuman(LsOutput(path, entries)))
  {
    var kindle :- Detect(en);
    var files :- ListFiles(kindle, path);
    var entries := seq(|files|, i requires 0 <= i < |files| => FromFileEntry(files[i]));
    assert Converts(files, entries);
    var lsOutput := LsOutput(path, entries);
    if long then
      if json then Ok(Json(lsOutput)) else Ok(Human(ToHumanLong(lsOutput, oneDecimal)))
    else
      if json then Ok(Json(lsOutput)) else Ok(Human(ToHuman(lsOutput)))
  }
}
