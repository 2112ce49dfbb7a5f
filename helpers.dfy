/** The helpers of helpers.go: rclone's "remote:path" notation, and what
    ListFiles, ListRemotes and CheckDuplicates make of the text an rclone
    listing prints. The subprocess is not modelled: its result (the text
    it printed, or the error it failed with) is an argument. */
module Helpers {
  import opened Wrappers
  import opened Text
  import opened Errors

  // -------------------------------------------------------------------------
  // Remote paths (helpers.go:107-128)
  // -------------------------------------------------------------------------

  /** IsRemotePath: the path names a remote exactly when it has a colon. */
  function IsRemotePath(path: string): (r: bool)
    ensures r <==> ':' in path
  {
    var r := Contains(path, ":");
    assert r ==> ':' in path by {
      if r {
        var i: nat :| OccursAt(path, ":", i);
        assert path[i..i + 1] == ":";
        assert path[i] == ':';
      }
    }
    assert ':' in path ==> r by {
      if ':' in path {
        var i :| 0 <= i < |path| && path[i] == ':';
        assert path[i..i + 1] == ":";
        ContainsAt(path, ":", i);
      }
    }
    r
  }

  /** SplitRemotePath: cut at the first colon into the remote and the path
      within it; with no colon there is no remote and the whole is the path. */
  function SplitRemotePath(remotePath: string): (r: (string, string))
    ensures ':' in remotePath ==> ':' !in r.0 && r.0 + ":" + r.1 == remotePath
    ensures ':' !in remotePath ==> r == ("", remotePath)
  {
    match IndexOf(remotePath, ':')
    case Some(i) =>
      assert remotePath[..i] + ":" + remotePath[i + 1..] == remotePath;
      (remotePath[..i], remotePath[i + 1..])
    case None => ("", remotePath)
  }

  /** JoinRemotePath: the path alone when there is no remote, otherwise
      remote, colon, path. */
  function JoinRemotePath(remote: string, path: string): (r: string)
    ensures remote == "" ==> r == path
    ensures remote != "" ==> r == remote + ":" + path
  {
    if remote == "" then path else remote + ":" + path
  }

  /** Splitting then joining gives the input back, except exactly when the
      input starts with a colon: its remote part is then empty, so the join
      drops that colon. */
  lemma JoinSplit(p: string)
    ensures var (remote, path) := SplitRemotePath(p);
      JoinRemotePath(remote, path) == p <==> !(|p| > 0 && p[0] == ':')
  {
    var (remote, path) := SplitRemotePath(p);
    if ':' in p && |p| > 0 && p[0] == ':' {
      assert |JoinRemotePath(remote, path)| < |p|;
    }
  }

  /** Joining then splitting gives the parts back when the remote has no
      colon and is not empty, or when it is empty and the path has no colon. */
  lemma SplitJoin(remote: string, path: string)
    requires ':' !in remote
    requires remote == "" ==> ':' !in path
    ensures SplitRemotePath(JoinRemotePath(remote, path)) == (remote, path)
  {
    if remote != "" {
      var p := JoinRemotePath(remote, path);
      assert p[|remote|] == ':';
      var r := SplitRemotePath(p);
      assert r.0 == p[..|remote|] == remote;
      assert r.1 == p[|remote| + 1..] == path;
    }
  }

  // -------------------------------------------------------------------------
  // Listing post-processing (helpers.go:10-54)
  // -------------------------------------------------------------------------

  /** The lines kept from a listing, in order: each line that is not empty,
      trimmed of surrounding white space. */
  function KeptLines(lines: seq<string>): seq<string> {
    if lines == [] then []
    else
      var last := lines[|lines| - 1];
      KeptLines(lines[..|lines| - 1]) + (if last != "" then [TrimSpace(last)] else [])
  }

  /** The lines of a listing's output: the output trimmed, then cut at every
      line feed. */
  function OutputLines(output: string): seq<string> {
    SplitOn(TrimSpace(output), '\n')
  }

  /** What ListFiles yields for the printed output. */
  function Listed(output: string): seq<string> {
    KeptLines(OutputLines(output))
  }

  /** The arguments ListFiles runs rclone with: "lsf" and the path, and one
      directory level only unless asked to recurse. */
  function ListFilesArgs(path: string, recursive: bool): (args: seq<string>)
    ensures |args| == (if recursive then 2 else 4)
    ensures args[..2] == ["lsf", path]
    ensures !recursive ==> args[2..] == ["--max-depth", "1"]
  {
    ["lsf", path] + (if !recursive then ["--max-depth", "1"] else [])
  }

  /** ListFiles (helpers.go:10-32): the arguments it runs rclone with, and
      the file names, or the failure wrapped as "failed to list files: ". */
  method ListFiles(path: string, recursive: bool, output: Result<string, Error>)
    returns (args: seq<string>, files: Result<seq<string>, Error>)
    ensures args == ListFilesArgs(path, recursive)
    ensures output.Err? ==> files == Err(Wrapped("failed to list files: ", output.error))
    ensures output.Ok? ==> files == Ok(Listed(output.value))
  {
    args := ["lsf", path];
    if !recursive {
      args := args + ["--max-depth", "1"];
    }
    if output.Err? {
      return args, Err(Wrapped("failed to list files: ", output.error));
    }
    var lines := OutputLines(output.value);
    var kept: seq<string> := [];
    for k := 0 to |lines|
      invariant kept == KeptLines(lines[..k])
    {
      KeptSnoc(lines, k);
      if lines[k] != "" {
        kept := kept + [TrimSpace(lines[k])];
      }
    }
    assert lines[..|lines|] == lines;
    files := Ok(kept);
  }

  /** The remotes kept from a listing: like KeptLines, with one trailing
      colon cut off each. */
  function KeptRemotes(lines: seq<string>): seq<string> {
    if lines == [] then []
    else
      var last := lines[|lines| - 1];
      KeptRemotes(lines[..|lines| - 1]) + (if last != "" then [TrimSuffix(TrimSpace(last), ":")] else [])
  }

  /** ListRemotes (helpers.go:34-54): the remote names, or the failure
      wrapped as "failed to list remotes: ". */
  method ListRemotes(output: Result<string, Error>) returns (remotes: Result<seq<string>, Error>)
    ensures output.Err? ==> remotes == Err(Wrapped("failed to list remotes: ", output.error))
    ensures output.Ok? ==> remotes == Ok(KeptRemotes(OutputLines(output.value)))
  {
    if output.Err? {
      return Err(Wrapped("failed to list remotes: ", output.error));
    }
    var lines := OutputLines(output.value);
    var kept: seq<string> := [];
    for k := 0 to |lines|
      invariant kept == KeptRemotes(lines[..k])
    {
      KeptSnoc(lines, k);
      if lines[k] != "" {
        var remote := TrimSpace(lines[k]);
        remote := TrimSuffix(remote, ":");
        kept := kept + [remote];
      }
    }
    assert lines[..|lines|] == lines;
    remotes := Ok(kept);
  }

  /** One more line read: the line is kept, trimmed (and for a remote cut of
      one trailing colon), exactly when it is not empty. */
  lemma KeptSnoc(lines: seq<string>, k: nat)
    requires k < |lines|
    ensures KeptLines(lines[..k + 1]) ==
              KeptLines(lines[..k]) + (if lines[k] != "" then [TrimSpace(lines[k])] else [])
    ensures KeptRemotes(lines[..k + 1]) ==
              KeptRemotes(lines[..k]) + (if lines[k] != "" then [TrimSuffix(TrimSpace(lines[k]), ":")] else [])
  {
    assert lines[..k + 1][..k] == lines[..k];
  }

  /** Each kept remote is its line's kept entry with at most one colon cut
      off the end. */
  lemma {:induction false} RemotesAreLines(lines: seq<string>)
    ensures |KeptRemotes(lines)| == |KeptLines(lines)|
    ensures forall k :: 0 <= k < |KeptLines(lines)| ==>
              KeptRemotes(lines)[k] == TrimSuffix(KeptLines(lines)[k], ":")
  {
    if lines != [] {
      RemotesAreLines(lines[..|lines| - 1]);
    }
  }

  /** A kept line is trimmed and holds no line feed. One caveat: a line of
      white space only is not empty, so it is kept, as the empty string. */
  lemma {:induction false} KeptLinesTrimmed(lines: seq<string>)
    requires forall k :: 0 <= k < |lines| ==> '\n' !in lines[k]
    ensures forall k :: 0 <= k < |KeptLines(lines)| ==>
              var f := KeptLines(lines)[k];
              '\n' !in f && (f == [] || (!IsSpace(f[0]) && !IsSpace(f[|f| - 1])))
  {
    if lines != [] {
      KeptLinesTrimmed(lines[..|lines| - 1]);
      var last := lines[|lines| - 1];
      var t := TrimSpace(last);
      assert '\n' !in t;
    }
  }

  /** Everything ListFiles yields is trimmed and free of line feeds. */
  lemma ListedTrimmed(output: string)
    ensures forall k :: 0 <= k < |Listed(output)| ==>
              var f := Listed(output)[k];
              '\n' !in f && (f == [] || (!IsSpace(f[0]) && !IsSpace(f[|f| - 1])))
  {
    KeptLinesTrimmed(OutputLines(output));
  }

  /** A name a listing can print on a line of its own and read back as it
      is: not empty, no line feed, no white space at either end. */
  predicate PlainName(n: string) {
    n != [] && '\n' !in n && !IsSpace(n[0]) && !IsSpace(n[|n| - 1])
  }

  /** The output of a listing of `names`: each name on a line of its own. */
  function ListingOf(names: seq<string>): string {
    if names == [] then [] else JoinWith(names, '\n') + "\n"
  }

  /** Reading a listing back: ListFiles yields exactly the names listed, in
      order, whenever each is a plain name. */
  lemma ListedRoundTrip(names: seq<string>)
    requires forall k :: 0 <= k < |names| ==> PlainName(names[k])
    ensures Listed(ListingOf(names)) == names
  {
    if names == [] {
      assert TrimSpace([]) == [];
      assert SplitOn([], '\n') == [[]];
      assert KeptLines([[]]) == KeptLines([]) + [];
    } else {
      var body := JoinWith(names, '\n');
      JoinWithEnds(names);
      TrimLineFeed(body);
      SplitOnJoin(names, '\n');
      KeptPlain(names);
    }
  }

  /** The output of `rclone listremotes`: each remote name with a colon. */
  function RemoteListing(names: seq<string>): string {
    ListingOf(seq(|names|, i requires 0 <= i < |names| => names[i] + ":"))
  }

  /** Reading the remotes back: ListRemotes yields exactly the names listed,
      in order, with their colons cut off, whenever each name is not empty,
      holds no line feed and does not start with white space. */
  lemma RemotesRoundTrip(names: seq<string>)
    requires forall k :: 0 <= k < |names| ==> names[k] != [] && '\n' !in names[k] && !IsSpace(names[k][0])
    ensures KeptRemotes(OutputLines(RemoteListing(names))) == names
  {
    var withColons := seq(|names|, i requires 0 <= i < |names| => names[i] + ":");
    forall k | 0 <= k < |withColons|
      ensures PlainName(withColons[k])
    {
      assert withColons[k][0] == names[k][0];
    }
    ListedRoundTrip(withColons);
    var lines := OutputLines(ListingOf(withColons));
    RemotesAreLines(lines);
    forall k | 0 <= k < |names|
      ensures KeptRemotes(lines)[k] == names[k]
    {
      assert HasSuffix(withColons[k], ":");
    }
  }

  /** The joined names begin with the first name's first character and end
      with the last name's last character. */
  lemma {:induction false} JoinWithEnds(names: seq<string>)
    requires |names| >= 1 && forall k :: 0 <= k < |names| ==> names[k] != []
    ensures var s := JoinWith(names, '\n');
      |s| >= 1 && s[0] == names[0][0] && s[|s| - 1] == names[|names| - 1][|names[|names| - 1]| - 1]
  {
    if |names| > 1 {
      JoinWithEnds(names[1..]);
    }
  }

  /** Cutting white space off text that starts and ends with a non-space,
      followed by one line feed, leaves the text. */
  lemma TrimLineFeed(s: string)
    requires s != [] && !IsSpace(s[0]) && !IsSpace(s[|s| - 1])
    ensures TrimSpace(s + "\n") == s
  {
    var t := s + "\n";
    assert TrimLeft(t) == t;
    assert t[..|t| - 1] == s;
    assert TrimRight(t) == TrimRight(s);
  }

  /** strings.Split undoes a join with a separator that no piece contains. */
  lemma {:induction false} SplitOnJoin(pieces: seq<string>, sep: char)
    requires |pieces| >= 1
    requires forall k :: 0 <= k < |pieces| ==> sep !in pieces[k]
    ensures SplitOn(JoinWith(pieces, sep), sep) == pieces
  {
    var s := JoinWith(pieces, sep);
    if |pieces| == 1 {
      assert IndexOf(s, sep) == None;
    } else {
      var head := pieces[0];
      SplitOnJoin(pieces[1..], sep);
      assert s[|head|] == sep;
      IndexOfAfter(head, sep, JoinWith(pieces[1..], sep));
      assert s[..|head|] == head;
      assert s[|head| + 1..] == JoinWith(pieces[1..], sep);
      assert [head] + pieces[1..] == pieces;
    }
  }

  /** The first `c` in a + [c] + b, when a has none, is the one after a. */
  lemma {:induction false} IndexOfAfter(a: string, c: char, b: string)
    requires c !in a
    ensures IndexOf(a + [c] + b, c) == Some(|a|)
  {
    if a != [] {
      IndexOfAfter(a[1..], c, b);
      assert (a + [c] + b)[1..] == a[1..] + [c] + b;
    }
  }

  /** Plain names are all kept, each unchanged by the trim. */
  lemma {:induction false} KeptPlain(names: seq<string>)
    requires forall k :: 0 <= k < |names| ==> PlainName(names[k])
    ensures KeptLines(names) == names
  {
    if names != [] {
      var init, last := names[..|names| - 1], names[|names| - 1];
      PlainPrefix(names, init);
      KeptPlain(init);
      KeptPlainLast(init, last);
      assert init + [last] == names;
    }
  }

  /** The names before the last are all plain when every name is. */
  lemma PlainPrefix(names: seq<string>, init: seq<string>)
    requires names != [] && init == names[..|names| - 1]
    requires forall k :: 0 <= k < |names| ==> PlainName(names[k])
    ensures forall k :: 0 <= k < |init| ==> PlainName(init[k])
    ensures PlainName(names[|names| - 1])
  {
  }

  /** One more plain name is kept unchanged. */
  lemma KeptPlainLast(init: seq<string>, last: string)
    requires PlainName(last)
    ensures KeptLines(init + [last]) == KeptLines(init) + [last]
  {
    var names := init + [last];
    assert names[..|names| - 1] == init;
    TrimSpaceOfTrimmed(last);
  }

  /** A line of white space only is not empty, so it is kept, and it is
      kept as an empty name. */
  lemma BlankLineKept(lines: seq<string>, k: nat)
    requires k < |lines| && lines[k] != []
    requires forall i :: 0 <= i < |lines[k]| ==> IsSpace(lines[k][i])
    ensures KeptLines(lines[..k + 1]) == KeptLines(lines[..k]) + [""]
  {
    KeptSnoc(lines, k);
  }

  // -------------------------------------------------------------------------
  // CheckDuplicates (helpers.go:78-105)
  // -------------------------------------------------------------------------

  /** The given names that the listing holds, each mapped to true. */
  function Duplicates(filenames: seq<string>, existing: seq<string>): map<string, bool> {
    map f | f in filenames && f in existing :: true
  }

  /** CheckDuplicates: with no names, an empty map and no listing at all
      (so no arguments); otherwise the one-level listing of `destination`,
      and the names it holds, or the listing's failure wrapped as "failed to
      list destination: ". */
  method CheckDuplicates(destination: string, filenames: seq<string>, output: Result<string, Error>)
    returns (args: seq<string>, duplicates: Result<map<string, bool>, Error>)
    ensures filenames == [] ==> args == [] && duplicates == Ok(map[])
    ensures filenames != [] ==> args == ListFilesArgs(destination, false)
    ensures filenames != [] && output.Err? ==>
              duplicates == Err(Wrapped("failed to list destination: ", Wrapped("failed to list files: ", output.error)))
    ensures filenames != [] && output.Ok? ==>
              duplicates == Ok(Duplicates(filenames, Listed(output.value)))
  {
    if |filenames| == 0 {
      return [], Ok(map[]);
    }
    var files;
    args, files := ListFiles(destination, false, output);
    if files.Err? {
      return args, Err(Wrapped("failed to list destination: ", files.error));
    }
    var existing := Existing(files.value);
    var found := Found(filenames, existing, files.value);
    duplicates := Ok(found);
  }

  /** CheckDuplicates' first loop: every listed name, mapped to true. */
  method Existing(files: seq<string>) returns (existing: map<string, bool>)
    ensures existing == map f | f in files :: true
  {
    existing := map[];
    for k := 0 to |files|
      invariant existing == map f | f in files[..k] :: true
    {
      assert files[..k + 1] == files[..k] + [files[k]];
      existing := existing[files[k] := true];
    }
    assert files[..|files|] == files;
  }

  /** CheckDuplicates' second loop: each given name the listing holds. */
  method Found(filenames: seq<string>, existing: map<string, bool>, ghost files: seq<string>)
    returns (found: map<string, bool>)
    requires existing == map f | f in files :: true
    ensures found == Duplicates(filenames, files)
  {
    found := map[];
    for k := 0 to |filenames|
      invariant found == map f | f in filenames[..k] && f in existing && existing[f] :: true
    {
      assert filenames[..k + 1] == filenames[..k] + [filenames[k]];
      var filename := filenames[k];
      if filename in existing && existing[filename] {
        found := found[filename := true];
      }
    }
    assert filenames[..|filenames|] == filenames;
    assert found == Duplicates(filenames, files);
  }

  /** The duplicates are exactly the given names the listing holds, each
      flagged true; a name listed twice or given twice appears once. */
  lemma DuplicatesExactly(filenames: seq<string>, existing: seq<string>, f: string)
    ensures f in Duplicates(filenames, existing) <==> f in filenames && f in existing
    ensures f in Duplicates(filenames, existing) ==> Duplicates(filenames, existing)[f]
  {
  }
}
