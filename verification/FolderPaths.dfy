// Folder paths (inbox/util/misc.py): "/"-delimited paths to and from IMAP mailbox names, whose
// hierarchy delimiter is one character (section 5.1.1 of RFC 3501).
module FolderPaths {
  import opened Common

  // str.split and str.join with a one-character separator.
  function Split(s: string, c: char): (parts: seq<string>)
    ensures |parts| >= 1
  {
    if s == "" then [""]
    else
      var rest := Split(s[1..], c);
      if s[0] == c then [""] + rest else [[s[0]] + rest[0]] + rest[1..]
  }

  function Join(parts: seq<string>, c: char): string {
    if parts == [] then "" else if |parts| == 1 then parts[0] else parts[0] + [c] + Join(parts[1..], c)
  }

  predicate StartsWith(s: string, prefix: string) { prefix <= s }

  function NonEmpty(parts: seq<string>): seq<string> {
    if parts == [] then [] else (if parts[0] != "" then [parts[0]] else []) + NonEmpty(parts[1..])
  }

  function Folders(path: string): seq<string> { NonEmpty(Split(path, '/')) }

  function ImapFolderPath(path: string, separator: char, prefix: string): Option<string> {
    var folders := Folders(path);
    if folders == [] then None
    else
      var res := Join(folders, separator);
      if prefix != "" && !StartsWith(res, prefix) then
        if prefix[|prefix| - 1] != separator then Some(prefix + [separator] + res) else Some(prefix + res)
      else Some(res)
  }

  function StripPrefix(path: string, prefix: string): string {
    if StartsWith(path, prefix) then path[|prefix|..] else path
  }

  function FsFolderPath(path: string, separator: char, prefix: string): string {
    var folders := Split(if prefix != "" then StripPrefix(path, prefix) else path, separator);
    Join(if folders[0] == "" then folders[1..] else folders, '/')
  }

  // ----- splitting and joining -----

  predicate Free(parts: seq<string>, c: char) { forall i :: 0 <= i < |parts| ==> c !in parts[i] }

  lemma {:induction false} SplitIsFree(s: string, c: char)
    ensures Free(Split(s, c), c)
  {
    if s != "" { SplitIsFree(s[1..], c); }
  }

  lemma {:induction false} JoinSplit(s: string, c: char)
    ensures Join(Split(s, c), c) == s
  {
    if s != "" {
      JoinSplit(s[1..], c);
      var rest := Split(s[1..], c);
      if s[0] == c {
        assert ([""] + rest)[1..] == rest;
      } else if |rest| > 1 {
        assert ([[s[0]] + rest[0]] + rest[1..])[1..] == rest[1..];
      }
    }
  }

  lemma {:induction false} SplitFree(s: string, c: char)
    requires c !in s
    ensures Split(s, c) == [s]
  {
    if s != "" {
      SplitFree(s[1..], c);
      assert s == [s[0]] + s[1..];
    }
  }

  lemma {:induction false} SplitFirst(s: string, t: string, c: char)
    requires c !in s
    ensures Split(s + [c] + t, c) == [s] + Split(t, c)
  {
    if s == "" {
      assert s + [c] + t == [c] + t;
    } else {
      assert (s + [c] + t)[1..] == s[1..] + [c] + t;
      SplitFirst(s[1..], t, c);
      assert s == [s[0]] + s[1..] && (s + [c] + t)[0] == s[0] && s[0] != c;
    }
  }

  lemma {:induction false} SplitJoin(parts: seq<string>, c: char)
    requires parts != [] && Free(parts, c)
    ensures Split(Join(parts, c), c) == parts
  {
    if |parts| == 1 {
      SplitFree(parts[0], c);
    } else {
      SplitJoin(parts[1..], c);
      SplitFirst(parts[0], Join(parts[1..], c), c);
    }
  }

  function Replaced(s: string, c: char, d: char): (r: string)
    ensures |r| == |s|
  {
    if s == "" then "" else [if s[0] == c then d else s[0]] + Replaced(s[1..], c, d)
  }

  // Splitting at one character and joining with another replaces it.
  lemma {:induction false} JoinReplaces(s: string, c: char, d: char)
    ensures Join(Split(s, c), d) == Replaced(s, c, d)
  {
    if s != "" {
      JoinReplaces(s[1..], c, d);
      var rest := Split(s[1..], c);
      if s[0] == c {
        assert ([""] + rest)[1..] == rest;
      } else if |rest| > 1 {
        assert ([[s[0]] + rest[0]] + rest[1..])[1..] == rest[1..];
      }
    }
  }

  lemma {:induction false} ReplacedIsFree(s: string, c: char, d: char)
    requires c != d
    ensures c !in Replaced(s, c, d)
  {
    if s != "" { ReplacedIsFree(s[1..], c, d); }
  }

  // What fs_folder_path does to any path: drop the prefix, drop one leading separator, and replace
  // the separators.
  lemma FsIsReplacement(path: string, separator: char, prefix: string)
    ensures var rest := StripPrefix(path, prefix);
      FsFolderPath(path, separator, prefix) ==
        Replaced(if rest != "" && rest[0] == separator then rest[1..] else rest, separator, '/')
  {
    var rest := StripPrefix(path, prefix);
    JoinReplaces(rest, separator, '/');
    if rest != "" {
      if rest[0] == separator { JoinReplaces(rest[1..], separator, '/'); }
      assert Split(rest, separator)[0] == "" <==> rest[0] == separator;
    }
  }

  // ----- folder lists -----

  // Dropping the empty parts: piece by piece, and of one piece it is that piece unless it is empty.
  lemma {:induction false} NonEmptyIsFilter(a: seq<string>, b: seq<string>, x: string)
    ensures NonEmpty(a + b) == NonEmpty(a) + NonEmpty(b)
    ensures NonEmpty([x]) == if x == "" then [] else [x]
  {
    assert [x][1..] == [];
    if a == [] {
      assert a + b == b;
    } else {
      assert (a + b)[1..] == a[1..] + b;
      NonEmptyIsFilter(a[1..], b, x);
    }
  }

  lemma {:induction false} NonEmptyKeeps(parts: seq<string>, c: char)
    requires Free(parts, c)
    ensures Free(NonEmpty(parts), c) && forall i :: 0 <= i < |NonEmpty(parts)| ==> NonEmpty(parts)[i] != ""
  {
    if parts != [] { NonEmptyKeeps(parts[1..], c); }
  }

  lemma {:induction false} NonEmptyOfNonEmpty(parts: seq<string>)
    requires forall i :: 0 <= i < |parts| ==> parts[i] != ""
    ensures NonEmpty(parts) == parts
  {
    if parts != [] { NonEmptyOfNonEmpty(parts[1..]); }
  }

  lemma FoldersAreNames(path: string)
    ensures Free(Folders(path), '/') && forall i :: 0 <= i < |Folders(path)| ==> Folders(path)[i] != ""
  {
    SplitIsFree(path, '/');
    NonEmptyKeeps(Split(path, '/'), '/');
  }

  // Joining the folders again gives a path with the same folders.
  lemma FoldersOfJoin(path: string)
    requires Folders(path) != []
    ensures Folders(Join(Folders(path), '/')) == Folders(path)
  {
    FoldersAreNames(path);
    SplitJoin(Folders(path), '/');
    NonEmptyOfNonEmpty(Folders(path));
  }

  lemma {:induction false} JoinLength(parts: seq<string>, c: char, d: char)
    ensures |Join(parts, c)| == |Join(parts, d)|
  {
    if |parts| > 1 { JoinLength(parts[1..], c, d); }
  }

  lemma {:induction false} JoinContains(parts: seq<string>, c: char, d: char)
    requires !Free(parts, c)
    ensures c in Join(parts, d)
  {
    if |parts| > 1 && c !in parts[0] {
      assert !Free(parts[1..], c) by {
        var i :| 0 <= i < |parts| && c in parts[i];
        assert parts[1..][i - 1] == parts[i];
      }
      JoinContains(parts[1..], c, d);
    }
  }

  // What an IMAP path looks like: it starts with the prefix, and the names, joined by the separator,
  // follow it after exactly one separator, unless they start with the prefix by themselves.
  lemma ImapPathShape(path: string, separator: char, prefix: string)
    requires Folders(path) != []
    ensures ImapFolderPath(path, separator, prefix).Some?
    ensures var (res, joined) := (ImapFolderPath(path, separator, prefix).value, Join(Folders(path), separator));
      && prefix <= res
      && (prefix <= joined ==> res == joined)
      && (!(prefix <= joined) ==> exists stem :: (prefix == stem || prefix == stem + [separator]) && res == stem + [separator] + joined)
      && (!(prefix <= joined) && prefix[|prefix| - 1] == separator ==> res == prefix + joined)
  {
    var joined := Join(Folders(path), separator);
    if !(prefix <= joined) {
      if prefix[|prefix| - 1] == separator {
        var stem := prefix[..|prefix| - 1];
        assert prefix == stem + [separator];
      } else {
        assert prefix + [separator] + joined == prefix + ([separator] + joined);
      }
    }
  }

  // ----- the round trip -----

  // Without the prefix, what comes back from an IMAP path.
  lemma BackFromImap(path: string, separator: char, prefix: string)
    requires Folders(path) != []
    requires prefix == "" || !StartsWith(Join(Folders(path), separator), prefix)
    ensures ImapFolderPath(path, separator, prefix).Some?
    ensures var joined := Join(Folders(path), separator);
      var rest := StripPrefix(ImapFolderPath(path, separator, prefix).value, prefix);
      rest == joined || rest == [separator] + joined
  {
    var joined := Join(Folders(path), separator);
    if prefix != "" {
      assert (prefix + joined)[|prefix|..] == joined;
      assert prefix + [separator] + joined == prefix + ([separator] + joined);
      assert (prefix + ([separator] + joined))[|prefix|..] == [separator] + joined;
    }
  }

  predicate RoundTrips(path: string, separator: char, prefix: string) {
    var folders := Folders(path);
    && (separator == '/' || Free(folders, separator))
    && (prefix == "" || !StartsWith(Join(folders, separator), prefix))
  }

  lemma JoinedStart(folders: seq<string>, separator: char)
    requires folders != [] && Free(folders, separator) && folders[0] != ""
    ensures Join(folders, separator) != "" && Join(folders, separator)[0] != separator
  {
    assert folders[0][0] in folders[0];
  }

  lemma RoundTripHolds(path: string, separator: char, prefix: string)
    requires Folders(path) != [] && RoundTrips(path, separator, prefix)
    ensures ImapFolderPath(path, separator, prefix).Some?
    ensures FsFolderPath(ImapFolderPath(path, separator, prefix).value, separator, prefix) == Join(Folders(path), '/')
  {
    var folders := Folders(path);
    var joined := Join(folders, separator);
    FoldersAreNames(path);
    BackFromImap(path, separator, prefix);
    JoinedStart(folders, separator);
    FsIsReplacement(ImapFolderPath(path, separator, prefix).value, separator, prefix);
    assert ([separator] + joined)[1..] == joined;
    JoinReplaces(joined, separator, '/');
    SplitJoin(folders, separator);
  }

  // A folder name with the separator in it comes back without.
  lemma SeparatorInName(path: string, separator: char, prefix: string)
    requires Folders(path) != [] && separator != '/' && !Free(Folders(path), separator)
    ensures ImapFolderPath(path, separator, prefix).Some?
    ensures FsFolderPath(ImapFolderPath(path, separator, prefix).value, separator, prefix) != Join(Folders(path), '/')
  {
    var mailbox := ImapFolderPath(path, separator, prefix).value;
    var rest := StripPrefix(mailbox, prefix);
    FsIsReplacement(mailbox, separator, prefix);
    ReplacedIsFree(if rest != "" && rest[0] == separator then rest[1..] else rest, separator, '/');
    JoinContains(Folders(path), separator, '/');
  }

  // A path that starts with the prefix already comes back without it.
  lemma PrefixInPath(path: string, separator: char, prefix: string)
    requires Folders(path) != [] && prefix != "" && StartsWith(Join(Folders(path), separator), prefix)
    ensures ImapFolderPath(path, separator, prefix).Some?
    ensures FsFolderPath(ImapFolderPath(path, separator, prefix).value, separator, prefix) != Join(Folders(path), '/')
  {
    FsIsReplacement(Join(Folders(path), separator), separator, prefix);
    JoinLength(Folders(path), separator, '/');
  }

  // Converting to an IMAP path and back gives the path without its empty segments, if and only if
  // no folder name contains the separator and the joined path does not already start with the
  // prefix. A path without folders has no IMAP path.
  lemma FolderPathRoundTrip(path: string, separator: char, prefix: string)
    ensures ImapFolderPath(path, separator, prefix).None? <==> Folders(path) == []
    ensures ImapFolderPath(path, separator, prefix).Some? ==>
      (FsFolderPath(ImapFolderPath(path, separator, prefix).value, separator, prefix) == Join(Folders(path), '/')
       <==> RoundTrips(path, separator, prefix))
  {
    if Folders(path) != [] {
      if RoundTrips(path, separator, prefix) {
        RoundTripHolds(path, separator, prefix);
      } else if separator != '/' && !Free(Folders(path), separator) {
        SeparatorInName(path, separator, prefix);
      } else {
        PrefixInPath(path, separator, prefix);
      }
    }
  }

  // So the IMAP path itself survives a trip to a "/"-delimited path and back.
  lemma ImapPathRoundTrip(path: string, separator: char, prefix: string)
    requires Folders(path) != [] && RoundTrips(path, separator, prefix)
    ensures ImapFolderPath(path, separator, prefix).Some?
    ensures var mailbox := ImapFolderPath(path, separator, prefix);
      ImapFolderPath(FsFolderPath(mailbox.value, separator, prefix), separator, prefix) == mailbox
  {
    RoundTripHolds(path, separator, prefix);
    FoldersOfJoin(path);
  }
}
