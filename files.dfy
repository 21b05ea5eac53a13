/** File-name helpers: stripping an extension and searching a file tree by name. */
module Files {
  import opened Wrappers
  import opened JsString

  // ---------------------------------------------------------------- removeFileExtension

  predicate AllDots(s: string) {
    s != [] && forall i :: 0 <= i < |s| ==> s[i] == '.'
  }

  /** `/^[a-z][a-z0-9]*$/i`: a letter followed by letters and digits. */
  predicate IsExtension(e: string) {
    e != [] && IsAsciiLetter(e[0]) && forall i :: 1 <= i < |e| ==> IsAsciiLetter(e[i]) || IsDigit(e[i])
  }

  function Max(a: int, b: int): int { if a < b then b else a }

  /** The position of the last path separator, `/` or `\`, or -1. */
  function LastSeparator(file: string): (r: int)
    ensures r == -1 || (0 <= r < |file| && (file[r] == '/' || file[r] == '\\'))
    ensures forall k :: r < k < |file| ==> file[k] != '/' && file[k] != '\\'
  {
    Max(LastIndexOfChar(file, '/'), LastIndexOfChar(file, '\\'))
  }

  /** `removeFileExtension`: drop the last `.ext` when it follows the last separator and `ext`
   *  is a letter followed by letters or digits; a name made only of dots is kept. */
  function RemoveFileExtension(file: string): (r: string)
    ensures |r| <= |file| && r == file[..|r|]
    ensures r != file ==> file[|r|] == '.' && IsExtension(file[|r| + 1..])
    ensures r != file ==> forall k :: |r| < k < |file| ==> file[k] != '.' && file[k] != '/' && file[k] != '\\'
  {
    var dot := LastIndexOfChar(file, '.');
    var separator := LastSeparator(file);
    if AllDots(file) then file
    else if dot > separator && IsExtension(file[dot + 1..]) then file[..dot]
    else file
  }

  /** Adding an extension after a name and removing it again gives the name back. */
  lemma RemoveAddedExtension(stem: string, ext: string)
    requires IsExtension(ext)
    ensures RemoveFileExtension(stem + "." + ext) == stem
  {
    var file := stem + "." + ext;
    var dot := |stem|;
    assert file[dot] == '.';
    assert file[dot + 1..] == ext;
    ExtensionTail(file, dot);
    LastIndexOfCharAt(file, '.', dot);
    assert LastSeparator(file) < dot;
    assert !AllDots(file) by { assert file[dot + 1] == ext[0]; }
    assert file[..dot] == stem;
  }

  /** An extension holds neither a dot nor a path separator. */
  lemma ExtensionTail(file: string, dot: nat)
    requires dot < |file| && IsExtension(file[dot + 1..])
    ensures forall k :: dot < k < |file| ==> file[k] != '.' && file[k] != '/' && file[k] != '\\'
  {
    forall k | dot < k < |file|
      ensures file[k] != '.' && file[k] != '/' && file[k] != '\\'
    {
      assert file[k] == file[dot + 1..][k - dot - 1];
    }
  }

  /** Without a dot after the last separator the input is returned unchanged. */
  lemma NoDotAfterSeparator(file: string)
    requires forall k :: LastSeparator(file) < k < |file| ==> file[k] != '.'
    ensures RemoveFileExtension(file) == file
  {
  }

  /** A name of dots only, the empty name and a numeric extension are kept; only the last of
   *  two extensions is removed. */
  lemma KeptNames(dots: string)
    requires AllDots(dots)
    ensures RemoveFileExtension(dots) == dots
    ensures RemoveFileExtension("") == ""
    ensures RemoveFileExtension("4-0025.3") == "4-0025.3"
    ensures RemoveFileExtension("a.tar.gz") == "a.tar"
  {
    NumericExtensionKept();
    RemoveAddedExtension("a.tar", "gz");
    assert "a.tar" + "." + "gz" == "a.tar.gz";
  }

  lemma NumericExtensionKept()
    ensures RemoveFileExtension("4-0025.3") == "4-0025.3"
  {
    var n := "4-0025.3";
    assert !AllDots(n) by { assert n[0] == '4'; }
    assert LastIndexOfChar(n, '.') == 6;
    assert n[7..] == "3";
    assert !IsExtension(n[7..]);
  }

  // ---------------------------------------------------------------- findFileInTree

  /** A directory listing: each entry has a name and a subtree (null for a file). */
  datatype FileTree = Dir(entries: seq<Entry>)
  datatype Entry = Entry(name: string, child: Option<FileTree>)

  /** The options object; an absent flag defaults to false. */
  datatype SearchOptions = SearchOptions(recursive: Option<bool>, ignoreCase: Option<bool>)

  function Flag(b: Option<bool>): bool { b.Some? && b.value }

  function Fold(s: string, ignoreCase: bool): string {
    if ignoreCase then ToLower(s) else s
  }

  /** The comparison of an entry name with the name searched for. */
  predicate NameMatches(name: string, file: string, ignoreCase: bool) {
    Fold(name, ignoreCase) == Fold(file, ignoreCase)
  }

  function ChildPath(path: string, name: string): string {
    if path == "" then name else path + "/" + name
  }

  /** The paths found in a listing, in depth-first pre-order of entry order. */
  function FoundIn(entries: seq<Entry>, path: string, file: string, recursive: bool, ignoreCase: bool): seq<string>
    decreases entries, 1
  {
    if entries == [] then []
    else FoundAt(entries[0], path, file, recursive, ignoreCase) + FoundIn(entries[1..], path, file, recursive, ignoreCase)
  }

  /** The paths found at one entry: the entry itself if its name matches, then its subtree. */
  function FoundAt(e: Entry, path: string, file: string, recursive: bool, ignoreCase: bool): seq<string>
    decreases e, 0
  {
    var current := ChildPath(path, e.name);
    (if NameMatches(e.name, file, ignoreCase) then [current] else [])
      + (if recursive && e.child.Some? then FoundIn(e.child.value.entries, current, file, recursive, ignoreCase) else [])
  }

  /** The inner `search`: appends what it finds under `tree` to `result`. */
  method Search(tree: Option<FileTree>, path: string, file: string, recursive: bool, ignoreCase: bool, result: seq<string>)
    returns (found: seq<string>)
    ensures found == result + (if tree.None? then [] else FoundIn(tree.value.entries, path, file, recursive, ignoreCase))
    decreases tree, 1
  {
    found := result;
    if tree.None? {
      return;
    }
    var entries := tree.value.entries;
    var i := 0;
    while i < |entries|
      invariant 0 <= i <= |entries|
      invariant found + FoundIn(entries[i..], path, file, recursive, ignoreCase) == result + FoundIn(entries, path, file, recursive, ignoreCase)
      decreases |entries| - i
    {
      assert entries[i..][1..] == entries[i + 1..];
      ghost var before := found;
      found := SearchEntry(entries[i], path, file, recursive, ignoreCase, found);
      Associative(before, FoundAt(entries[i], path, file, recursive, ignoreCase), FoundIn(entries[i + 1..], path, file, recursive, ignoreCase));
      i := i + 1;
    }
    assert entries[|entries|..] == [];
  }

  /** One iteration of the entry loop of `search`. */
  method SearchEntry(e: Entry, path: string, file: string, recursive: bool, ignoreCase: bool, result: seq<string>)
    returns (found: seq<string>)
    ensures found == result + FoundAt(e, path, file, recursive, ignoreCase)
    decreases e, 0
  {
    found := result;
    var current := ChildPath(path, e.name);
    ghost var own: seq<string> := [];
    if NameMatches(e.name, file, ignoreCase) {
      found := found + [current];
      own := [current];
    }
    ghost var sub: seq<string> := [];
    if recursive && e.child.Some? {
      found := Search(e.child, current, file, recursive, ignoreCase, found);
      sub := FoundIn(e.child.value.entries, current, file, recursive, ignoreCase);
    }
    assert found == (result + own) + sub;
    Associative(result, own, sub);
  }

  lemma Associative(a: seq<string>, b: seq<string>, c: seq<string>)
    ensures (a + b) + c == a + (b + c)
  {
  }

  /** `findFileInTree`. The options object is required: without it the destructuring of its
   *  flags fails. */
  method FindFileInTree(file: string, tree: FileTree, options: Option<SearchOptions>) returns (r: Result<seq<string>>)
    ensures options.None? <==> r.Err?
    ensures options.Some? ==>
      r.value == FoundIn(tree.entries, "", file, Flag(options.value.recursive), Flag(options.value.ignoreCase))
  {
    if options.None? {
      return Err("Cannot destructure property 'recursive' of 'options' as it is undefined.");
    }
    var found := Search(Some(tree), "", file, Flag(options.value.recursive), Flag(options.value.ignoreCase), []);
    return Ok(found);
  }

  /** Every path found ends with the name searched for (compared lower-cased when
   *  `ignoreCase`). */
  predicate EndsWithName(p: string, file: string, ignoreCase: bool) {
    |p| >= |file| && Fold(p[|p| - |file|..], ignoreCase) == Fold(file, ignoreCase)
  }

  lemma {:induction false} FoundInEndsWithName(entries: seq<Entry>, path: string, file: string, recursive: bool, ignoreCase: bool)
    ensures forall p :: p in FoundIn(entries, path, file, recursive, ignoreCase) ==> EndsWithName(p, file, ignoreCase)
    decreases entries, 1
  {
    if entries != [] {
      FoundAtEndsWithName(entries[0], path, file, recursive, ignoreCase);
      FoundInEndsWithName(entries[1..], path, file, recursive, ignoreCase);
    }
  }

  lemma {:induction false} FoundAtEndsWithName(e: Entry, path: string, file: string, recursive: bool, ignoreCase: bool)
    ensures forall p :: p in FoundAt(e, path, file, recursive, ignoreCase) ==> EndsWithName(p, file, ignoreCase)
    decreases e, 0
  {
    var current := ChildPath(path, e.name);
    if NameMatches(e.name, file, ignoreCase) {
      assert |e.name| == |file| by {
        assert |Fold(e.name, ignoreCase)| == |e.name| && |Fold(file, ignoreCase)| == |file|;
      }
      assert current[|current| - |file|..] == e.name;
    }
    if recursive && e.child.Some? {
      FoundInEndsWithName(e.child.value.entries, current, file, recursive, ignoreCase);
    }
  }

  /** Without `recursive` only the top-level names are compared: the result is the matching
   *  names themselves, in entry order. */
  lemma {:induction false} TopLevelOnly(entries: seq<Entry>, file: string, ignoreCase: bool)
    ensures FoundIn(entries, "", file, false, ignoreCase)
      == MatchingNames(entries, file, ignoreCase)
  {
    if entries != [] {
      TopLevelOnly(entries[1..], file, ignoreCase);
      assert ChildPath("", entries[0].name) == entries[0].name;
    }
  }

  function MatchingNames(entries: seq<Entry>, file: string, ignoreCase: bool): seq<string> {
    if entries == [] then []
    else
      var head := if NameMatches(entries[0].name, file, ignoreCase) then [entries[0].name] else [];
      head + MatchingNames(entries[1..], file, ignoreCase)
  }

  /** No entry name, at any depth of the listing, contains a `/`. */
  predicate NoSlashNames(entries: seq<Entry>)
    decreases entries, 1
  {
    forall i :: 0 <= i < |entries| ==> NoSlashEntry(entries[i])
  }

  predicate NoSlashEntry(e: Entry)
    decreases e, 0
  {
    && (forall k :: 0 <= k < |e.name| ==> e.name[k] != '/')
    && (e.child.Some? ==> NoSlashNames(e.child.value.entries))
  }

  /** A case-sensitive search for a name holding a `/` finds nothing in a listing whose names
   *  hold none: names are compared whole, never as paths. */
  lemma {:induction false} SlashedNameNotFound(entries: seq<Entry>, path: string, file: string, recursive: bool)
    requires NoSlashNames(entries) && exists k :: 0 <= k < |file| && file[k] == '/'
    ensures FoundIn(entries, path, file, recursive, false) == []
    decreases entries, 1
  {
    if entries != [] {
      SlashedNameNotFoundAt(entries[0], path, file, recursive);
      assert NoSlashNames(entries[1..]) by {
        forall i | 0 <= i < |entries[1..]| ensures NoSlashEntry(entries[1..][i]) {
          assert entries[1..][i] == entries[i + 1];
        }
      }
      SlashedNameNotFound(entries[1..], path, file, recursive);
    }
  }

  lemma {:induction false} SlashedNameNotFoundAt(e: Entry, path: string, file: string, recursive: bool)
    requires NoSlashEntry(e) && exists k :: 0 <= k < |file| && file[k] == '/'
    ensures FoundAt(e, path, file, recursive, false) == []
    decreases e, 0
  {
    var k :| 0 <= k < |file| && file[k] == '/';
    assert !NameMatches(e.name, file, false) by {
      assert k >= |e.name| || e.name[k] != file[k];
    }
    if recursive && e.child.Some? {
      SlashedNameNotFound(e.child.value.entries, ChildPath(path, e.name), file, recursive);
    }
  }

  /** An empty tree yields no paths, and a null subtree is never searched. */
  lemma EmptyTree(file: string, recursive: bool, ignoreCase: bool, name: string)
    ensures FoundIn([], "", file, recursive, ignoreCase) == []
    ensures FoundAt(Entry(name, None), "", file, recursive, ignoreCase) == (if NameMatches(name, file, ignoreCase) then [name] else [])
  {
  }
}
