/**
 * The `pull` command (src/commands/pull.rs): refusing recursive pulls, choosing
 * the local destination, downloading, and reporting the destination's size.
 *
 * Whether the local path is a directory and the size the filesystem reports for
 * the destination are inputs: `localIsDir` and `metadata`.
 */
module Pull {
  import opened Wrappers
  import opened Strings
  import opened Errors
  import opened Kindle

  /** What a successful pull reports. */
  datatype PullOutput = PullOutput(remote: string, local: string, bytes: U64)

  const RecursiveMessage := "Recursive download not yet implemented"
  const InvalidRemoteMessage := "Invalid remote path"

  /**
   * `base` joined with `name` as a Unix `Path::join` does: an absolute `name`
   * replaces `base`; otherwise a `/` is put in between unless `base` is empty or
   * already ends in one.
   */
  function JoinPath(base: string, name: string): (r: string)
    ensures |name| > 0 && name[0] == '/' ==> r == name
    ensures !(|name| > 0 && name[0] == '/') ==>
      && IsPrefix(base, r)
      && |name| <= |r| && r[|r| - |name|..] == name
      && (|r| == |base| + |name| <==> base == [] || base[|base| - 1] == '/')
      && (|r| != |base| + |name| ==> r == base + "/" + name)
  {
    if |name| > 0 && name[0] == '/' then name
    else if base == [] || base[|base| - 1] == '/' then base + name
    else base + "/" + name
  }

  /** A `/`-free name joined onto any directory is the text after the last `/` of the result. */
  lemma JoinPathLastPiece(base: string, name: string)
    requires '/' !in name
    ensures IsLastPiece(JoinPath(base, name), '/', name)
  {
    var r := JoinPath(base, name);
    if |name| < |r| {
      if base == [] || base[|base| - 1] == '/' {
        assert r[|r| - |name| - 1] == base[|base| - 1];
      } else {
        assert r[|r| - |name| - 1] == '/';
      }
    }
  }

  /**
   * The local destination (the `dest_path` of `run_pull`): inside a directory,
   * the text after the last `/` of the remote path; otherwise the local path itself.
   */
  function DestinationPath(remote: string, local: string, localIsDir: bool): (r: Result<string>)
    ensures r.Ok?
    ensures !localIsDir ==> r.value == local
    ensures localIsDir ==> exists name :: IsLastPiece(remote, '/', name) && r.value == JoinPath(local, name)
  {
    if localIsDir then
      match RsplitNext(remote, '/')
      case None => Err(InvalidPath(InvalidRemoteMessage))
      case Some(filename) => Ok(JoinPath(local, filename))
    else
      Ok(local)
  }

  /** A destination inside a directory keeps the remote file's name. */
  lemma DestinationKeepsFileName(remote: string, local: string)
    ensures RsplitNext(DestinationPath(remote, local, true).value, '/') == RsplitNext(remote, '/')
  {
    var dest := DestinationPath(remote, local, true).value;
    var name :| IsLastPiece(remote, '/', name) && dest == JoinPath(local, name);
    JoinPathLastPiece(local, name);
    LastPieceUnique(dest, '/', name, RsplitNext(dest, '/').value);
    LastPieceUnique(remote, '/', name, RsplitNext(remote, '/').value);
  }

  /** A remote path without `/` is used whole as the file name. */
  lemma DestinationOfBareName(remote: string, local: string)
    requires '/' !in remote
    ensures DestinationPath(remote, local, true) == Ok(JoinPath(local, remote))
  {
    var dest := DestinationPath(remote, local, true).value;
    var name :| IsLastPiece(remote, '/', name) && dest == JoinPath(local, name);
    assert IsLastPiece(remote, '/', remote);
    LastPieceUnique(remote, '/', name, remote);
  }

  /** A remote path ending in `/` gives an empty file name: the destination is the directory joined with "". */
  lemma DestinationOfTrailingSlash(remote: string, local: string)
    requires |remote| > 0 && remote[|remote| - 1] == '/'
    ensures DestinationPath(remote, local, true) == Ok(JoinPath(local, ""))
  {
    var dest := DestinationPath(remote, local, true).value;
    var name :| IsLastPiece(remote, '/', name) && dest == JoinPath(local, name);
    assert IsLastPiece(remote, '/', "");
    LastPieceUnique(remote, '/', name, "");
  }

  /**
   * `run_pull`: refuses a recursive pull before touching the device, then detects
   * the Kindle, downloads the remote file to the destination and reports the
   * destination's size, or 0 when it cannot be read.
   */
  function RunPull(
    remote: string, local: string, recursive: bool, en: Enumeration, localIsDir: bool,
    fetch: (ObjectId, string) -> Option<string>, metadata: string -> Option<U64>): (r: Result<PullOutput>)
    ensures recursive ==> r == Err(Mtp(RecursiveMessage)) && ProcessExit(r) == 1
    ensures !recursive && Detect(en).Err? ==> r == Err(Detect(en).error)
    ensures !recursive && Detect(en).Ok? ==>
      var dest := DestinationPath(remote, local, localIsDir).value;
      var download := DownloadFile(Detect(en).value, remote, dest, fetch);
      && (download.Err? ==> r == Err(download.error))
      && (download.Ok? ==> r.Ok? && r.value.remote == remote && r.value.local == dest)
      && (download.Ok? && metadata(dest).Some? ==> r.value.bytes == metadata(dest).value)
      && (download.Ok? && metadata(dest).None? ==> r.value.bytes == 0)
  {
    if recursive then Err(Mtp(RecursiveMessage))
    else
      var kindle :- Detect(en);
      match DestinationPath(remote, local, localIsDir)
      case Err(e) => Err(e)
      case Ok(dest) =>
        var _ :- DownloadFile(kindle, remote, dest, fetch);
        Ok(PullOutput(remote, dest, metadata(dest).GetOr(0)))
  }
}
