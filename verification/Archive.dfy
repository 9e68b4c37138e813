/**
  The portable backup: what an export lists (export.go:131-239) and what an import accepts
  (archive.go:87-268). Encryption, compression and the tar framing carry the entries unchanged; the manifest's
  encoding, the digest and the installation record are parameters.
 */
module BackupArchive {
  import opened Text
  import opened Manifest

  const MAX_EXPANDED_BYTES := 0x1_0000_0000
  const MAX_FILES := 100000
  const MAX_MANIFEST_BYTES := 0x100_0000

  const ROOTS: seq<string> :=
    ["rootguard/unbound/", "rootguard/adguard/", "rootguard/adguard-auth/", "rootguard/installation/",
     "services/adguard/config/", "services/adguard/work/", "services/unbound/state/"]

  const STATUS_FILE := "rootguard/installation/status.json"

  const REQUIRED: seq<string> :=
    ["rootguard/adguard/credentials.json", "services/adguard/config/AdGuardHome.yaml", STATUS_FILE]

  const MANIFEST_NAME := "manifest.json"

  datatype Entry = Dir(name: string) | File(name: string, data: string) | Other(name: string)

  type Tree = map<string, string>

  // ---------- names ----------

  /** What `path.Clean` leaves alone, for a relative path. */
  predicate IsClean(name: string) {
    var parts := SplitOn(name, '/');
    name == "." ||
    forall i | 0 <= i < |parts| ::
      parts[i] != "" && parts[i] != "." && (parts[i] == ".." ==> forall j | 0 <= j < i :: parts[j] == "..")
  }

  predicate IsSafe(name: string) {
    name != "" && '\0' !in name && !HasPrefix(name, "/") && IsClean(name) && name != "." && !HasPrefix(name, "../")
  }

  function SafeName(raw: string): Option<string> {
    var name := TrimSuffix(raw, "/");
    if IsSafe(name) then Some(name) else None
  }

  predicate AllowedPath(name: string) {
    exists i | 0 <= i < |ROOTS| :: HasPrefix(name, ROOTS[i]) || TrimSuffix(ROOTS[i], "/") == TrimSuffix(name, "/")
  }

  predicate AllowedDirectory(raw: string) {
    var name := TrimSuffix(raw, "/");
    exists i | 0 <= i < |ROOTS| :: NearRoot(name, TrimSuffix(ROOTS[i], "/"))
  }

  /** The root itself, a directory above it, or one below it. */
  predicate NearRoot(name: string, root: string) {
    name == root || HasPrefix(root, name + "/") || HasPrefix(name, root + "/")
  }

  // ---------- reading the entries ----------

  datatype Staged = Staged(files: Tree, seen: set<string>, manifest: string, expanded: int, count: int)

  const NOTHING_STAGED := Staged(map[], {}, "", 0, 0)

  /** A file stands where a directory is needed, or the other way round. */
  predicate Blocked(files: Tree, name: string) {
    name in files || exists f | f in files :: HasPrefix(name, f + "/") || HasPrefix(f, name + "/")
  }

  function ReadEntry(s: Staged, e: Entry): Option<Staged> {
    match SafeName(e.name)
    case None => None
    case Some(name) =>
      var counted := s.(count := s.count + 1, seen := s.seen + {name});
      if s.count + 1 > MAX_FILES || name in s.seen then None
      else
        match e
        case Dir(_) => if name != MANIFEST_NAME && !AllowedDirectory(name) then None else Some(counted)
        case Other(_) => None
        case File(_, data) =>
          var sized := counted.(expanded := s.expanded + |data|);
          if sized.expanded > MAX_EXPANDED_BYTES then None
          else if name == MANIFEST_NAME then
            if |data| > MAX_MANIFEST_BYTES then None else Some(sized.(manifest := data))
          else if !AllowedPath(name) || Blocked(s.files, name) then None
          else Some(sized.(files := s.files[name := data]))
  }

  function ReadAll(entries: seq<Entry>): Option<Staged> {
    if entries == [] then Some(NOTHING_STAGED)
    else
      match ReadAll(entries[..|entries| - 1])
      case None => None
      case Some(s) => ReadEntry(s, entries[|entries| - 1])
  }

  lemma {:induction false} ReadAllFails(entries: seq<Entry>, k: nat)
    requires k <= |entries| && ReadAll(entries[..k]).None?
    ensures ReadAll(entries).None?
  {
    hide ReadEntry;
    if k == |entries| {
      assert entries[..k] == entries;
    } else {
      assert entries[..|entries| - 1][..k] == entries[..k];
      ReadAllFails(entries[..|entries| - 1], k);
    }
  }

  // ---------- the manifest ----------

  /** Manifest decoding with its version and format checks, its encoding, the digest, and the status record's check. */
  datatype Codec = Codec(
    encode: seq<FileSum> -> string,
    decode: string -> Option<seq<FileSum>>,
    digest: string -> string,
    installed: string -> bool
  )

  function SumOf(codec: Codec, path: string, data: string): FileSum { FileSum(path, |data|, codec.digest(data)) }

  /** A walk of the tree: every file once, with its sums. */
  ghost predicate IsInventory(codec: Codec, files: Tree, inventory: seq<FileSum>) {
    DistinctPaths(inventory) &&
    (forall f | f in inventory :: f.path in files && f == SumOf(codec, f.path, files[f.path])) &&
    (forall path | path in files :: SumOf(codec, path, files[path]) in inventory)
  }

  predicate HasRequired(codec: Codec, files: Tree) {
    (forall i | 0 <= i < |REQUIRED| :: REQUIRED[i] in files) && STATUS_FILE in files &&
    codec.installed(files[STATUS_FILE])
  }

  /** The staged files are exactly the recorded ones, all allowed, with the required files among them. */
  ghost predicate Restorable(codec: Codec, s: Staged, recorded: seq<FileSum>, actual: seq<FileSum>) {
    s.manifest != "" && codec.decode(s.manifest) == Some(recorded) && multiset(recorded) == multiset(actual) &&
    (forall f | f in recorded :: AllowedPath(f.path)) && HasRequired(codec, s.files)
  }

  method ValidateManifest(codec: Codec, s: Staged, actual: seq<FileSum>) returns (ok: bool)
    requires IsInventory(codec, s.files, actual)
    ensures ok <==> exists recorded :: Restorable(codec, s, recorded, actual)
  {
    hide AllowedPath, Sorted, IsInventory;
    InventoryIsDistinct(codec, s.files, actual);
    if |s.manifest| == 0 {
      return false;
    }
    var manifest := codec.decode(s.manifest);
    if manifest.None? {
      return false;
    }
    var recorded := manifest.value;
    var same := CompareInStep(recorded, actual, (p: string) => AllowedPath(p));
    InStepExactly(recorded, actual);
    if !same {
      return false;
    }
    for i := 0 to |REQUIRED|
      invariant forall j | 0 <= j < i :: REQUIRED[j] in s.files
    {
      if REQUIRED[i] !in s.files {
        return false;
      }
    }
    if STATUS_FILE !in s.files || !codec.installed(s.files[STATUS_FILE]) {
      return false;
    }
    assert Restorable(codec, s, recorded, actual);
    return true;
  }

  lemma InventoryIsDistinct(codec: Codec, files: Tree, inventory: seq<FileSum>)
    requires IsInventory(codec, files, inventory)
    ensures DistinctPaths(inventory)
  {
  }

  method Extract(entries: seq<Entry>) returns (r: Option<Staged>)
    ensures r == ReadAll(entries)
  {
    hide IsSafe, AllowedPath, AllowedDirectory, Blocked;
    var s := NOTHING_STAGED;
    assert entries[..0] == [];
    for i := 0 to |entries|
      invariant ReadAll(entries[..i]) == Some(s)
    {
      assert entries[..i + 1][..i] == entries[..i];
      if ReadEntry(s, entries[i]).None? {
        ReadAllFails(entries, i + 1);
      }
      s := s.(count := s.count + 1);
      if s.count > MAX_FILES {
        return None;
      }
      var safe := SafeName(entries[i].name);
      if safe.None? {
        return None;
      }
      var name := safe.value;
      if name in s.seen {
        return None;
      }
      s := s.(seen := s.seen + {name});
      match entries[i] {
        case Dir(_) =>
          if name != MANIFEST_NAME && !AllowedDirectory(name) {
            return None;
          }
        case Other(_) =>
          return None;
        case File(_, data) =>
          s := s.(expanded := s.expanded + |data|);
          if s.expanded > MAX_EXPANDED_BYTES {
            return None;
          }
          if name == MANIFEST_NAME {
            if |data| > MAX_MANIFEST_BYTES {
              return None;
            }
            s := s.(manifest := data);
          } else {
            if !AllowedPath(name) || Blocked(s.files, name) {
              return None;
            }
            s := s.(files := s.files[name := data]);
          }
      }
    }
    assert entries[..|entries|] == entries;
    return Some(s);
  }

  // ---------- what acceptance implies ----------

  function NameOf(e: Entry): string { TrimSuffix(e.name, "/") }

  /** A regular file other than the manifest. */
  predicate IsPayload(e: Entry) { e.File? && NameOf(e) != MANIFEST_NAME }

  /** The files the entries hold, by name. */
  function FilesOf(entries: seq<Entry>): Tree {
    if entries == [] then map[]
    else
      var last := entries[|entries| - 1];
      var before := FilesOf(entries[..|entries| - 1]);
      if IsPayload(last) then before[NameOf(last) := last.data] else before
  }

  function TotalSize(entries: seq<Entry>): int {
    if entries == [] then 0
    else
      TotalSize(entries[..|entries| - 1]) + SizeOf(entries[|entries| - 1])
  }

  /** The entry's name and kind are acceptable on their own. */
  ghost predicate Acceptable(e: Entry) {
    IsSafe(NameOf(e)) &&
    match e
    case Dir(_) => NameOf(e) == MANIFEST_NAME || AllowedDirectory(NameOf(e))
    case File(_, data) => if NameOf(e) == MANIFEST_NAME then |data| <= MAX_MANIFEST_BYTES else AllowedPath(NameOf(e))
    case Other(_) => false
  }

  ghost predicate DistinctNames(entries: seq<Entry>) {
    forall i, j | 0 <= i < j < |entries| :: NameOf(entries[i]) != NameOf(entries[j])
  }

  ghost predicate Mirrors(s: Staged, entries: seq<Entry>) {
    s.files == FilesOf(entries) && s.expanded == TotalSize(entries) && s.count == |entries| &&
    SeenExactly(s.seen, entries)
  }

  function SizeOf(e: Entry): int { match e case File(_, data) => |data| case _ => 0 }

  lemma OneMoreEntry(entries: seq<Entry>, e: Entry)
    ensures FilesOf(entries + [e]) == if IsPayload(e) then FilesOf(entries)[NameOf(e) := e.data] else FilesOf(entries)
    ensures TotalSize(entries + [e]) == TotalSize(entries) + SizeOf(e)
  {
    assert (entries + [e])[..|entries|] == entries;
  }

  ghost predicate SeenExactly(seen: set<string>, entries: seq<Entry>) {
    forall n :: n in seen <==> exists i | 0 <= i < |entries| :: NameOf(entries[i]) == n
  }

  lemma SeenNext(seen: set<string>, entries: seq<Entry>, e: Entry)
    requires SeenExactly(seen, entries)
    ensures SeenExactly(seen + {NameOf(e)}, entries + [e])
  {
    hide NameOf;
    var all := entries + [e];
    forall n ensures n in seen + {NameOf(e)} <==> exists i | 0 <= i < |all| :: NameOf(all[i]) == n {
      if n == NameOf(e) {
        assert NameOf(all[|entries|]) == n;
      } else if n in seen {
        var i :| 0 <= i < |entries| && NameOf(entries[i]) == n;
        assert NameOf(all[i]) == n;
      }
    }
  }

  lemma MirrorsNext(s: Staged, entries: seq<Entry>, e: Entry)
    requires Mirrors(s, entries) && ReadEntry(s, e).Some?
    ensures Mirrors(ReadEntry(s, e).value, entries + [e]) && Acceptable(e)
    ensures forall i | 0 <= i < |entries| :: NameOf(entries[i]) != NameOf(e)
    ensures s.expanded <= MAX_EXPANDED_BYTES ==> ReadEntry(s, e).value.expanded <= MAX_EXPANDED_BYTES
  {
    OneMoreEntry(entries, e);
    SeenNext(s.seen, entries, e);
    hide IsSafe, AllowedPath, AllowedDirectory, Blocked, FilesOf, TotalSize;
  }

  /**
    An accepted stream has distinct safe names, only allowed paths, stays within the limits, and stages exactly
    its files.
   */
  lemma {:induction false} AcceptedEntries(entries: seq<Entry>)
    requires ReadAll(entries).Some?
    ensures Mirrors(ReadAll(entries).value, entries) && DistinctNames(entries)
    ensures forall i | 0 <= i < |entries| :: Acceptable(entries[i])
    ensures |entries| <= 100000 && TotalSize(entries) <= 4294967296
  {
    hide ReadEntry, Acceptable, Mirrors;
    if entries == [] {
      MirrorsNothing();
    } else {
      var n := |entries| - 1;
      AcceptedEntries(entries[..n]);
      var s := ReadAll(entries[..n]).value;
      MirrorsNext(s, entries[..n], entries[n]);
      assert entries[..n] + [entries[n]] == entries;
      MirrorsCounts(s, entries[..n]);
      MirrorsCounts(ReadAll(entries).value, entries);
      CountLimit(s, entries[n]);
      forall i, j | 0 <= i < j < |entries| ensures NameOf(entries[i]) != NameOf(entries[j]) {
        assert entries[..n][i] == entries[i];
        assert j < n ==> entries[..n][j] == entries[j];
      }
      forall i | 0 <= i < |entries| ensures Acceptable(entries[i]) {
        assert i < n ==> entries[..n][i] == entries[i];
      }
    }
  }

  lemma MirrorsNothing()
    ensures Mirrors(NOTHING_STAGED, [])
  {
  }

  lemma MirrorsCounts(s: Staged, entries: seq<Entry>)
    requires Mirrors(s, entries)
    ensures s.count == |entries| && s.expanded == TotalSize(entries)
  {
  }

  lemma CountLimit(s: Staged, e: Entry)
    requires ReadEntry(s, e).Some?
    ensures s.count + 1 <= MAX_FILES
  {
    hide IsSafe, AllowedPath, AllowedDirectory, Blocked;
  }

  // ---------- no accepted name leads out of the stage ----------

  /** Where a relative path leads from a directory, one segment after the other. */
  function Walk(dir: seq<string>, parts: seq<string>): seq<string>
    decreases |parts|
  {
    if parts == [] then dir
    else if parts[0] == "" || parts[0] == "." then Walk(dir, parts[1..])
    else if parts[0] == ".." then Walk(if dir == [] then [] else dir[..|dir| - 1], parts[1..])
    else Walk(dir + [parts[0]], parts[1..])
  }

  /** Below one of the seven directories of a backup, or one of them. */
  predicate InBackupRoot(name: string) {
    HasPrefix(name, "rootguard/unbound/") || name == "rootguard/unbound" ||
    HasPrefix(name, "rootguard/adguard/") || name == "rootguard/adguard" ||
    HasPrefix(name, "rootguard/adguard-auth/") || name == "rootguard/adguard-auth" ||
    HasPrefix(name, "rootguard/installation/") || name == "rootguard/installation" ||
    HasPrefix(name, "services/adguard/config/") || name == "services/adguard/config" ||
    HasPrefix(name, "services/adguard/work/") || name == "services/adguard/work" ||
    HasPrefix(name, "services/unbound/state/") || name == "services/unbound/state"
  }

  ghost predicate PlainSegments(name: string) {
    forall part | part in SplitOn(name, '/') :: part != "" && part != "." && part != ".."
  }

  lemma {:induction false} PlainWalk(dir: seq<string>, parts: seq<string>)
    requires forall part | part in parts :: part != "" && part != "." && part != ".."
    ensures Walk(dir, parts) == dir + parts
    decreases |parts|
  {
    if parts != [] {
      assert parts[0] in parts && forall part | part in parts[1..] :: part in parts;
      PlainWalk(dir + [parts[0]], parts[1..]);
      assert dir + [parts[0]] + parts[1..] == dir + parts;
    }
  }

  lemma RootsStart(i: nat)
    requires i < |ROOTS|
    ensures |ROOTS[i]| > 3 && ROOTS[i][0] != '.'
  {
  }

  lemma TrimmedRoot(root: string)
    requires |root| > 3
    ensures |TrimSuffix(root, "/")| >= 3 && TrimSuffix(root, "/")[0] == root[0]
  {
  }

  lemma NotUp()
    ensures !AllowedPath("..") && !AllowedDirectory("..") && MANIFEST_NAME != ".."
  {
    forall i | 0 <= i < |ROOTS|
      ensures |ROOTS[i]| > 3 && |TrimSuffix(ROOTS[i], "/")| >= 3 && TrimSuffix(ROOTS[i], "/")[0] != '.'
    {
      RootsStart(i);
      TrimmedRoot(ROOTS[i]);
    }
    assert TrimSuffix("..", "/") == ".." by { assert ".."[1..] == "." && "."[0] != '/'; }
    assert (".." + "/")[0] == '.';
  }

  lemma FirstSegment(name: string)
    ensures SplitOn(name, '/')[0] == ".." ==> name == ".." || HasPrefix(name, "../")
  {
    var k := FirstIndex(name, '/');
    assert SplitOn(name, '/')[0] == name[..k];
    assert k < |name| ==> name[..k + 1] == name[..k] + "/";
  }

  lemma SafeSegments(name: string)
    requires IsSafe(name) && name != ".."
    ensures PlainSegments(name)
  {
    FirstSegment(name);
    var parts := SplitOn(name, '/');
    assert forall i | 0 < i < |parts| && parts[i] == ".." :: parts[0] == "..";
    forall part | part in parts ensures part != "" && part != "." && part != ".." {
      var i :| 0 <= i < |parts| && parts[i] == part;
    }
  }

  /** The safe names, exactly: no empty, `.` or `..` segment and no NUL; `..` alone is let through here only. */
  lemma SafeExactly(name: string)
    ensures IsSafe(name) && name != ".." <==> PlainSegments(name) && '\0' !in name
  {
    if IsSafe(name) && name != ".." {
      SafeSegments(name);
    }
    if PlainSegments(name) {
      PlainIsClean(name);
    }
  }

  lemma PlainIsClean(name: string)
    requires PlainSegments(name)
    ensures IsClean(name) && name != "" && name != "." && name != ".." && !HasPrefix(name, "/")
    ensures !HasPrefix(name, "../")
  {
    var parts := SplitOn(name, '/');
    assert forall i | 0 <= i < |parts| :: parts[i] in parts;
    var k := FirstIndex(name, '/');
    assert parts[0] == name[..k];
    DotsAreOneSegment();
    UpFirst(name);
  }

  lemma UpFirst(name: string)
    ensures HasPrefix(name, "../") ==> SplitOn(name, '/')[0] == ".."
  {
    if HasPrefix(name, "../") {
      assert name[..2] == ".." && name[2] == '/';
      FirstIndexIs(name, '/', 2);
    }
  }

  lemma DotsAreOneSegment()
    ensures SplitOn("", '/') == [""] && SplitOn(".", '/') == ["."] && SplitOn("..", '/') == [".."]
  {
    SplitOnStep("", '/', 0);
    SplitOnStep(".", '/', 1);
    SplitOnStep("..", '/', 2);
  }

  lemma RootIsAllowed(name: string)
    requires InBackupRoot(name)
    ensures AllowedPath(name)
  {
    RootNames();
    hide HasSuffix;
    assert ROOTS[0] == "rootguard/unbound/" && ROOTS[1] == "rootguard/adguard/";
    assert ROOTS[2] == "rootguard/adguard-auth/" && ROOTS[3] == "rootguard/installation/";
    assert ROOTS[4] == "services/adguard/config/" && ROOTS[5] == "services/adguard/work/";
    assert ROOTS[6] == "services/unbound/state/";
    NoSlashAtEnd();
  }

  lemma NoSlashAtEnd()
    ensures TrimSuffix("rootguard/unbound", "/") == "rootguard/unbound"
    ensures TrimSuffix("rootguard/adguard", "/") == "rootguard/adguard"
    ensures TrimSuffix("rootguard/adguard-auth", "/") == "rootguard/adguard-auth"
    ensures TrimSuffix("rootguard/installation", "/") == "rootguard/installation"
    ensures TrimSuffix("services/adguard/config", "/") == "services/adguard/config"
    ensures TrimSuffix("services/adguard/work", "/") == "services/adguard/work"
    ensures TrimSuffix("services/unbound/state", "/") == "services/unbound/state"
  {
  }

  /** A directory on the way to one of the seven. */
  predicate AboveRoot(name: string) {
    name == "rootguard" || name == "services" || name == "services/adguard" || name == "services/unbound"
  }

  predicate IsRootName(root: string) {
    root == "rootguard/unbound" || root == "rootguard/adguard" || root == "rootguard/adguard-auth" ||
    root == "rootguard/installation" || root == "services/adguard/config" || root == "services/adguard/work" ||
    root == "services/unbound/state"
  }

  lemma SlashesIn()
    ensures forall k | 0 <= k < 17 && "rootguard/unbound"[k] == '/' :: k == 9
    ensures forall k | 0 <= k < 17 && "rootguard/adguard"[k] == '/' :: k == 9
    ensures forall k | 0 <= k < 22 && "rootguard/adguard-auth"[k] == '/' :: k == 9
    ensures forall k | 0 <= k < 22 && "rootguard/installation"[k] == '/' :: k == 9
    ensures forall k | 0 <= k < 23 && "services/adguard/config"[k] == '/' :: k == 8 || k == 16
    ensures forall k | 0 <= k < 21 && "services/adguard/work"[k] == '/' :: k == 8 || k == 16
    ensures forall k | 0 <= k < 22 && "services/unbound/state"[k] == '/' :: k == 8 || k == 16
  {
  }

  lemma CutAt(root: string, name: string)
    requires HasPrefix(root, name + "/")
    ensures |name| < |root| && root[|name|] == '/' && name == root[..|name|]
  {
    assert (name + "/")[|name|] == '/' && root[..|name|] == (name + "/")[..|name|];
  }

  lemma AboveIsKnown(name: string, root: string)
    requires IsRootName(root)
    requires HasPrefix(root, name + "/")
    ensures AboveRoot(name)
  {
    SlashesIn();
    CutAt(root, name);
    assert "rootguard/unbound"[..9] == "rootguard" && "rootguard/adguard"[..9] == "rootguard";
    assert "rootguard/adguard-auth"[..9] == "rootguard" && "rootguard/installation"[..9] == "rootguard";
    assert "services/adguard/config"[..8] == "services" && "services/adguard/config"[..16] == "services/adguard";
    assert "services/adguard/work"[..8] == "services" && "services/adguard/work"[..16] == "services/adguard";
    assert "services/unbound/state"[..8] == "services" && "services/unbound/state"[..16] == "services/unbound";
  }

  lemma RootIsNamed(i: nat)
    requires i < |ROOTS|
    ensures IsRootName(TrimSuffix(ROOTS[i], "/"))
  {
    RootNames();
    hide TrimSuffix;
  }

  lemma AtOrBelow(name: string, root: string)
    requires IsRootName(root) && (name == root || HasPrefix(name, root + "/"))
    ensures InBackupRoot(name)
  {
    SlashAppended(root);
  }

  lemma DirectoryIsKnown(name: string)
    requires AllowedDirectory(name) && !HasSuffix(name, "/")
    ensures InBackupRoot(name) || AboveRoot(name)
  {
    hide IsRootName, InBackupRoot, AboveRoot;
    assert TrimSuffix(name, "/") == name;
    var i :| 0 <= i < |ROOTS| && NearRoot(name, TrimSuffix(ROOTS[i], "/"));
    RootIsNamed(i);
    var root := TrimSuffix(ROOTS[i], "/");
    if HasPrefix(root, name + "/") {
      AboveIsKnown(name, root);
    } else {
      AtOrBelow(name, root);
    }
  }

  lemma SlashAppended(root: string)
    requires IsRootName(root)
    ensures root + "/" == "rootguard/unbound/" || root + "/" == "rootguard/adguard/" ||
            root + "/" == "rootguard/adguard-auth/" || root + "/" == "rootguard/installation/" ||
            root + "/" == "services/adguard/config/" || root + "/" == "services/adguard/work/" ||
            root + "/" == "services/unbound/state/"
  {
  }

  lemma AllowedInRoot(name: string)
    requires AllowedPath(name) && !HasSuffix(name, "/")
    ensures InBackupRoot(name)
  {
    assert TrimSuffix(name, "/") == name;
    var i :| 0 <= i < |ROOTS| && (HasPrefix(name, ROOTS[i]) || TrimSuffix(ROOTS[i], "/") == TrimSuffix(name, "/"));
    RootsEndInSlash(i);
    RootNames();
    hide HasSuffix, TrimSuffix;
    assert ROOTS[i] == "rootguard/unbound/" || ROOTS[i] == "rootguard/adguard/" ||
           ROOTS[i] == "rootguard/adguard-auth/" || ROOTS[i] == "rootguard/installation/" ||
           ROOTS[i] == "services/adguard/config/" || ROOTS[i] == "services/adguard/work/" ||
           ROOTS[i] == "services/unbound/state/";
  }

  lemma RootNames()
    ensures TrimSuffix("rootguard/unbound/", "/") == "rootguard/unbound"
    ensures TrimSuffix("rootguard/adguard/", "/") == "rootguard/adguard"
    ensures TrimSuffix("rootguard/adguard-auth/", "/") == "rootguard/adguard-auth"
    ensures TrimSuffix("rootguard/installation/", "/") == "rootguard/installation"
    ensures TrimSuffix("services/adguard/config/", "/") == "services/adguard/config"
    ensures TrimSuffix("services/adguard/work/", "/") == "services/adguard/work"
    ensures TrimSuffix("services/unbound/state/", "/") == "services/unbound/state"
  {
  }

  lemma TrailingSlash(name: string)
    ensures HasSuffix(name, "/") ==> "" in SplitOn(name, '/')
  {
    if HasSuffix(name, "/") {
      var n := |name| - 1;
      assert name == name[..n] + ['/'] + "";
      SplitOnConcat(name[..n], '/', "");
    }
  }

  /**
    Every name of an accepted stream is relative, has no empty, `.` or `..` segment, and so leads from any directory
    to a place below it; and a file other than the manifest is in one of the seven backup directories.
   */
  lemma AcceptedNamesStay(entries: seq<Entry>, i: nat, stage: seq<string>)
    requires ReadAll(entries).Some? && i < |entries|
    ensures var name := NameOf(entries[i]);
            name != "" && name[0] != '/' && '\0' !in name && PlainSegments(name) &&
            Walk(stage, SplitOn(name, '/')) == stage + SplitOn(name, '/') && !entries[i].Other? &&
            (entries[i].File? ==> name == "manifest.json" || InBackupRoot(name)) &&
            (entries[i].Dir? ==> name == "manifest.json" || InBackupRoot(name) || AboveRoot(name))
  {
    hide ReadAll, AllowedDirectory, IsClean, InBackupRoot, AboveRoot, Mirrors, NameOf;
    AcceptedEntries(entries);
    var name := NameOf(entries[i]);
    assert Acceptable(entries[i]);
    hide AllowedPath;
    NotUp();
    SafeSegments(name);
    PlainWalk(stage, SplitOn(name, '/'));
    TrailingSlash(name);
    if entries[i].File? && name != "manifest.json" {
      AllowedInRoot(name);
    } else if name != "manifest.json" {
      DirectoryIsKnown(name);
    }
  }

  /** No staged file lies inside another. */
  lemma {:induction false} AcceptedFilesApart(entries: seq<Entry>, f: string, g: string)
    requires ReadAll(entries).Some?
    requires f in ReadAll(entries).value.files && g in ReadAll(entries).value.files
    ensures !HasPrefix(f, g + "/")
  {
    hide IsSafe, AllowedPath, AllowedDirectory;
    if entries != [] {
      var n := |entries| - 1;
      var s := ReadAll(entries[..n]).value;
      if f in s.files && g in s.files {
        AcceptedFilesApart(entries[..n], f, g);
      }
    }
  }

  /** No file's name is another's with more segments behind it. */
  ghost predicate Apart(entries: seq<Entry>) {
    forall i, j | 0 <= i < |entries| && 0 <= j < |entries| && IsPayload(entries[i]) && IsPayload(entries[j]) ::
      !HasPrefix(NameOf(entries[i]), NameOf(entries[j]) + "/")
  }

  lemma NotBlocked(before: seq<Entry>, e: Entry)
    requires Apart(before + [e]) && DistinctNames(before + [e]) && IsPayload(e)
    ensures !Blocked(FilesOf(before), NameOf(e))
  {
    hide NameOf, IsPayload, HasPrefix, FilesOf;
    var all := before + [e];
    assert all[|before|] == e && forall i | 0 <= i < |before| :: all[i] == before[i];
    forall f | f in FilesOf(before)
      ensures f != NameOf(e) && !HasPrefix(NameOf(e), f + "/") && !HasPrefix(f, NameOf(e) + "/")
    {
      FilesComeFrom(before, f);
      var i :| 0 <= i < |before| && NameOf(before[i]) == f && IsPayload(before[i]);
      assert NameOf(all[i]) == f && IsPayload(all[i]);
    }
  }

  lemma NotSeen(seen: set<string>, before: seq<Entry>, e: Entry)
    requires SeenExactly(seen, before) && DistinctNames(before + [e])
    ensures NameOf(e) !in seen
  {
    hide NameOf;
    var all := before + [e];
    assert all[|before|] == e && forall i | 0 <= i < |before| :: all[i] == before[i];
  }

  /** An entry whose name is acceptable, new and apart is read, within the limits. */
  lemma EntryIsRead(s: Staged, before: seq<Entry>, e: Entry)
    requires Mirrors(s, before) && Acceptable(e) && Apart(before + [e]) && DistinctNames(before + [e])
    requires |before| < MAX_FILES && TotalSize(before + [e]) <= MAX_EXPANDED_BYTES
    ensures ReadEntry(s, e).Some?
  {
    hide IsSafe, AllowedPath, AllowedDirectory, FilesOf, TotalSize, Apart, DistinctNames, SeenExactly, Blocked;
    OneMoreEntry(before, e);
    NotSeen(s.seen, before, e);
    if IsPayload(e) {
      NotBlocked(before, e);
    }
  }

  /**
    What the import reads, exactly: streams within the limits whose entries are acceptable one by one, with distinct
    names, and no file inside another.
   */
  lemma {:induction false} AcceptedExactly(entries: seq<Entry>)
    ensures ReadAll(entries).Some? <==>
            |entries| <= 100000 && TotalSize(entries) <= 4294967296 && DistinctNames(entries) && Apart(entries) &&
            forall i | 0 <= i < |entries| :: Acceptable(entries[i])
  {
    hide ReadEntry, Acceptable, Mirrors, TotalSize, NameOf, IsPayload, HasPrefix;
    if ReadAll(entries).Some? {
      AcceptedEntries(entries);
      AcceptedApart(entries);
    } else if entries != [] {
      var n := |entries| - 1;
      if |entries| <= 100000 && TotalSize(entries) <= 4294967296 && DistinctNames(entries) && Apart(entries) &&
         forall i | 0 <= i < |entries| :: Acceptable(entries[i]) {
        assert entries == entries[..n] + [entries[n]];
        TotalSizeGrows(entries, n);
        assert DistinctNames(entries[..n]) && Apart(entries[..n]);
        AcceptedExactly(entries[..n]);
        AcceptedEntries(entries[..n]);
        EntryIsRead(ReadAll(entries[..n]).value, entries[..n], entries[n]);
        assert false;
      }
    }
  }

  lemma AcceptedApart(entries: seq<Entry>)
    requires ReadAll(entries).Some?
    ensures Apart(entries)
  {
    hide ReadAll, NameOf, IsPayload, HasPrefix;
    AcceptedEntries(entries);
    MirrorsFiles(ReadAll(entries).value, entries);
    forall i, j | 0 <= i < |entries| && 0 <= j < |entries| && IsPayload(entries[i]) && IsPayload(entries[j])
      ensures !HasPrefix(NameOf(entries[i]), NameOf(entries[j]) + "/")
    {
      FilesHold(entries, i);
      FilesHold(entries, j);
      AcceptedFilesApart(entries, NameOf(entries[i]), NameOf(entries[j]));
    }
  }

  /** What a restorable backup holds. */
  lemma RestorableHolds(codec: Codec, s: Staged, recorded: seq<FileSum>, actual: seq<FileSum>)
    requires Restorable(codec, s, recorded, actual)
    ensures "rootguard/adguard/credentials.json" in s.files && "services/adguard/config/AdGuardHome.yaml" in s.files
    ensures "rootguard/installation/status.json" in s.files
    ensures codec.installed(s.files["rootguard/installation/status.json"])
  {
    hide AllowedPath;
    assert REQUIRED[0] in s.files && REQUIRED[1] in s.files;
  }

  // ---------- exporting a tree ----------

  /** A path as a walk reports it. */
  predicate IsTreePath(path: string) { IsSafe(path) && !HasSuffix(path, "/") }

  /** A directory on the way to a file, or inside an allowed root. */
  ghost predicate IsTreeDirectory(files: Tree, d: string) {
    IsTreePath(d) && d !in files && d != MANIFEST_NAME &&
    ((exists f | f in files :: HasPrefix(f, d + "/")) ||
     exists i | 0 <= i < |ROOTS| :: d == TrimSuffix(ROOTS[i], "/") || HasPrefix(d, ROOTS[i]))
  }

  /** A staged tree: allowed files, none of them inside another, and its directories. */
  ghost predicate Exportable(files: Tree, dirs: set<string>) {
    (forall f | f in files :: IsTreePath(f) && AllowedPath(f) && f != MANIFEST_NAME) &&
    (forall f, g | f in files && g in files :: !HasPrefix(f, g + "/")) &&
    forall d | d in dirs :: IsTreeDirectory(files, d)
  }

  /** The entries are the tree's directories and files and the manifest, each once, in any order. */
  ghost predicate Lists(entries: seq<Entry>, files: Tree, dirs: set<string>, manifest: string) {
    DistinctNames(entries) &&
    (forall i | 0 <= i < |entries| :: IsListed(entries[i], files, dirs, manifest)) &&
    (forall f | f in files :: File(f, files[f]) in entries) && File(MANIFEST_NAME, manifest) in entries
  }

  ghost predicate IsListed(e: Entry, files: Tree, dirs: set<string>, manifest: string) {
    match e
    case Dir(n) => n in dirs
    case File(n, data) => (n == MANIFEST_NAME && data == manifest) || (n in files && data == files[n])
    case Other(_) => false
  }

  lemma RootsEndInSlash(i: nat)
    requires i < |ROOTS|
    ensures HasSuffix(ROOTS[i], "/") && ROOTS[i] == TrimSuffix(ROOTS[i], "/") + "/"
  {
    var r := ROOTS[i];
    assert r[|r| - 1] == '/';
    assert r[|r| - 1..] == "/";
  }

  /** Of two directories above the same file, one is above the other. */
  lemma PrefixesNest(a: string, b: string, f: string)
    requires HasPrefix(f, a) && HasPrefix(f, b)
    ensures HasPrefix(a, b) || HasPrefix(b, a)
  {
  }

  /** Every directory of an exportable tree is one the import expects. */
  lemma DirectoryAllowed(files: Tree, dirs: set<string>, d: string)
    requires Exportable(files, dirs) && d in dirs
    ensures AllowedDirectory(d)
  {
    hide IsSafe;
    assert IsTreeDirectory(files, d) && TrimSuffix(d, "/") == d;
    if f :| f in files && HasPrefix(f, d + "/") {
      assert AllowedPath(f) && TrimSuffix(f, "/") == f;
      var i :| 0 <= i < |ROOTS| && (HasPrefix(f, ROOTS[i]) || TrimSuffix(ROOTS[i], "/") == TrimSuffix(f, "/"));
      RootsEndInSlash(i);
      var root := TrimSuffix(ROOTS[i], "/");
      if HasPrefix(f, ROOTS[i]) {
        PrefixesNest(d + "/", root + "/", f);
        SlashNest(d, root);
      }
      assert NearRoot(d, root);
    } else {
      var i :| 0 <= i < |ROOTS| && (d == TrimSuffix(ROOTS[i], "/") || HasPrefix(d, ROOTS[i]));
      RootsEndInSlash(i);
      assert NearRoot(d, TrimSuffix(ROOTS[i], "/"));
    }
  }

  lemma SlashNest(d: string, root: string)
    requires HasPrefix(d + "/", root + "/") || HasPrefix(root + "/", d + "/")
    ensures NearRoot(d, root)
  {
    if |d| == |root| {
      assert d == (d + "/")[..|d|] && root == (root + "/")[..|d|];
    } else if |d| < |root| {
      assert (d + "/") == (root + "/")[..|d| + 1];
      assert root[..|d| + 1] == (root + "/")[..|d| + 1];
    } else {
      assert (root + "/") == (d + "/")[..|root| + 1];
      assert d[..|root| + 1] == (d + "/")[..|root| + 1];
    }
  }

  lemma OnePartIsClean(name: string)
    requires '/' !in name && |name| > 2
    ensures IsClean(name)
  {
    FirstIndexIs(name, '/', |name|);
    var parts := SplitOn(name, '/');
    assert parts == [name];
  }

  lemma ManifestNameIsSafe()
    ensures IsSafe(MANIFEST_NAME) && TrimSuffix(MANIFEST_NAME, "/") == MANIFEST_NAME
  {
    assert '/' !in MANIFEST_NAME;
    OnePartIsClean(MANIFEST_NAME);
    hide IsClean;
    assert MANIFEST_NAME[0] == 'm' && MANIFEST_NAME[|MANIFEST_NAME| - 1] == 'n';
    assert !HasSuffix(MANIFEST_NAME, "/") by {
      assert MANIFEST_NAME[|MANIFEST_NAME| - 1..] == "n" && "n"[0] == 'n' && "/"[0] == '/';
    }
  }

  lemma DirectoryRead(s: Staged, d: string, files: Tree, dirs: set<string>)
    requires Exportable(files, dirs) && d in dirs && d !in s.seen && s.count < MAX_FILES
    ensures ReadEntry(s, Dir(d)) == Some(s.(count := s.count + 1, seen := s.seen + {d}))
  {
    hide IsSafe, AllowedDirectory, AllowedPath, Blocked, Exportable, IsTreeDirectory, HasSuffix;
    DirectoryAllowed(files, dirs, d);
    DirectoryName(files, dirs, d);
  }

  lemma DirectoryName(files: Tree, dirs: set<string>, d: string)
    requires Exportable(files, dirs) && d in dirs
    ensures IsSafe(d) && TrimSuffix(d, "/") == d
  {
    hide IsSafe, AllowedPath;
    assert IsTreeDirectory(files, d);
  }

  lemma FileRead(s: Staged, f: string, data: string, files: Tree, dirs: set<string>)
    requires Exportable(files, dirs) && f in files && f !in s.seen && f !in s.files && s.count < MAX_FILES
    requires s.expanded + |data| <= MAX_EXPANDED_BYTES && forall g | g in s.files :: g in files
    ensures ReadEntry(s, File(f, data)) ==
            Some(Staged(s.files[f := data], s.seen + {f}, s.manifest, s.expanded + |data|, s.count + 1))
  {
    hide IsSafe, AllowedPath, AllowedDirectory;
    assert IsTreePath(f) && AllowedPath(f) && f != MANIFEST_NAME;
    assert !Blocked(s.files, f);
  }

  lemma ManifestRead(s: Staged, data: string)
    requires MANIFEST_NAME !in s.seen && s.count < MAX_FILES && |data| <= MAX_MANIFEST_BYTES
    requires s.expanded + |data| <= MAX_EXPANDED_BYTES
    ensures ReadEntry(s, File(MANIFEST_NAME, data)) ==
            Some(Staged(s.files, s.seen + {MANIFEST_NAME}, data, s.expanded + |data|, s.count + 1))
  {
    ManifestNameIsSafe();
    hide IsSafe, AllowedPath, AllowedDirectory;
  }

  lemma ListedName(e: Entry, files: Tree, dirs: set<string>, manifest: string)
    requires Exportable(files, dirs) && IsListed(e, files, dirs, manifest)
    ensures NameOf(e) == e.name
  {
    ManifestNameIsSafe();
    hide IsSafe, AllowedPath;
    match e
    case Dir(d) => assert IsTreeDirectory(files, d);
    case File(f, _) => assert f != MANIFEST_NAME ==> IsTreePath(f);
  }

  /** One more entry of a listed tree is accepted, whatever came before it. */
  lemma ListedAccepted(s: Staged, before: seq<Entry>, e: Entry, files: Tree, dirs: set<string>, manifest: string)
    requires Mirrors(s, before) && Exportable(files, dirs) && |manifest| <= MAX_MANIFEST_BYTES
    requires IsListed(e, files, dirs, manifest) && forall i | 0 <= i < |before| :: NameOf(before[i]) != NameOf(e)
    requires |before| < MAX_FILES && TotalSize(before + [e]) <= MAX_EXPANDED_BYTES
    requires forall f | f in s.files :: f in files
    ensures ReadEntry(s, e).Some?
    ensures ReadEntry(s, e).value.manifest == if e == File(MANIFEST_NAME, manifest) then manifest else s.manifest
    ensures forall f | f in ReadEntry(s, e).value.files :: f in files
  {
    OneMoreEntry(before, e);
    ListedName(e, files, dirs, manifest);
    assert NameOf(e) !in s.seen;
    if e.name in s.files {
      FilesComeFrom(before, e.name);
      assert false;
    }
    hide Exportable, ReadEntry, IsTreeDirectory, FilesOf, TotalSize;
    match e
    case Dir(d) => DirectoryRead(s, d, files, dirs);
    case File(n, data) =>
      if n == MANIFEST_NAME && n !in files {
        ManifestRead(s, data);
      } else {
        NotTheManifest(files, dirs, n);
        FileRead(s, n, data, files, dirs);
      }
  }

  lemma NotTheManifest(files: Tree, dirs: set<string>, f: string)
    requires Exportable(files, dirs) && f in files
    ensures f != MANIFEST_NAME
  {
  }

  lemma {:induction false} FilesComeFrom(entries: seq<Entry>, name: string)
    requires name in FilesOf(entries)
    ensures exists i | 0 <= i < |entries| ::
              NameOf(entries[i]) == name && IsPayload(entries[i]) && FilesOf(entries)[name] == entries[i].data
  {
    var n := |entries| - 1;
    if !(IsPayload(entries[n]) && NameOf(entries[n]) == name) {
      FilesComeFrom(entries[..n], name);
      var i :| 0 <= i < n && NameOf(entries[..n][i]) == name && IsPayload(entries[..n][i]) &&
        FilesOf(entries[..n])[name] == entries[..n][i].data;
      assert entries[i] == entries[..n][i];
    }
  }

  lemma {:induction false} FilesHold(entries: seq<Entry>, i: nat)
    requires DistinctNames(entries) && i < |entries| && IsPayload(entries[i])
    ensures NameOf(entries[i]) in FilesOf(entries) && FilesOf(entries)[NameOf(entries[i])] == entries[i].data
  {
    var n := |entries| - 1;
    if i < n {
      FilesHold(entries[..n], i);
      assert entries[..n][i] == entries[i];
    }
  }

  lemma {:induction false} TotalSizeGrows(entries: seq<Entry>, k: nat)
    requires k <= |entries|
    ensures TotalSize(entries[..k]) <= TotalSize(entries)
  {
    if k < |entries| {
      TotalSizeGrows(entries[..|entries| - 1], k);
      assert entries[..|entries| - 1][..k] == entries[..k];
    } else {
      assert entries[..k] == entries;
    }
  }

  /** The entries read so far: accepted, with only the tree's files staged. */
  ghost predicate PrefixRead(before: seq<Entry>, files: Tree, manifest: string) {
    match ReadAll(before)
    case None => false
    case Some(s) =>
      Mirrors(s, before) && (forall f | f in s.files :: f in files) &&
      s.manifest == if File(MANIFEST_NAME, manifest) in before then manifest else ""
  }

  lemma PrefixStep(before: seq<Entry>, e: Entry, files: Tree, dirs: set<string>, manifest: string)
    requires PrefixRead(before, files, manifest) && Exportable(files, dirs) && |manifest| <= MAX_MANIFEST_BYTES
    requires IsListed(e, files, dirs, manifest) && forall i | 0 <= i < |before| :: NameOf(before[i]) != NameOf(e)
    requires |before| < MAX_FILES && TotalSize(before + [e]) <= MAX_EXPANDED_BYTES
    ensures PrefixRead(before + [e], files, manifest)
  {
    hide *;
    var s := PrefixState(before, files, manifest);
    ReadAllSnoc(before, e);
    ListedAccepted(s, before, e, files, dirs, manifest);
    MirrorsNext(s, before, e);
    ManifestAppears(before, e, manifest);
    PrefixIs(before + [e], files, manifest, ReadEntry(s, e).value);
  }

  lemma PrefixState(before: seq<Entry>, files: Tree, manifest: string) returns (s: Staged)
    requires PrefixRead(before, files, manifest)
    ensures ReadAll(before) == Some(s) && Mirrors(s, before) && forall f | f in s.files :: f in files
    ensures s.manifest == if File(MANIFEST_NAME, manifest) in before then manifest else ""
  {
    hide ReadAll, Mirrors;
    s := ReadAll(before).value;
  }

  lemma PrefixIs(before: seq<Entry>, files: Tree, manifest: string, s: Staged)
    requires ReadAll(before) == Some(s) && Mirrors(s, before) && forall f | f in s.files :: f in files
    requires s.manifest == if File(MANIFEST_NAME, manifest) in before then manifest else ""
    ensures PrefixRead(before, files, manifest)
  {
    hide ReadAll, Mirrors;
  }

  lemma ManifestAppears(before: seq<Entry>, e: Entry, manifest: string)
    ensures File(MANIFEST_NAME, manifest) in before + [e] <==>
            File(MANIFEST_NAME, manifest) in before || e == File(MANIFEST_NAME, manifest)
  {
  }

  lemma ReadAllSnoc(before: seq<Entry>, e: Entry)
    requires ReadAll(before).Some?
    ensures ReadAll(before + [e]) == ReadEntry(ReadAll(before).value, e)
  {
    hide ReadEntry;
    assert (before + [e])[..|before|] == before;
  }

  lemma {:induction false} ListedPrefix(entries: seq<Entry>, files: Tree, dirs: set<string>, manifest: string, k: nat)
    requires Lists(entries, files, dirs, manifest) && Exportable(files, dirs) && k <= |entries|
    requires |entries| <= MAX_FILES && TotalSize(entries) <= MAX_EXPANDED_BYTES && |manifest| <= MAX_MANIFEST_BYTES
    ensures PrefixRead(entries[..k], files, manifest)
  {
    hide PrefixRead, Exportable, IsListed, TotalSize, NameOf;
    if k == 0 {
      assert entries[..0] == [];
      NothingRead(files, manifest);
    } else {
      ListedPrefix(entries, files, dirs, manifest, k - 1);
      assert entries[..k] == entries[..k - 1] + [entries[k - 1]];
      TotalSizeGrows(entries, k);
      PrefixStep(entries[..k - 1], entries[k - 1], files, dirs, manifest);
    }
  }

  lemma NothingRead(files: Tree, manifest: string)
    ensures PrefixRead([], files, manifest)
  {
    MirrorsNothing();
  }

  /** Two walks of the same tree list the same files. */
  lemma InventoriesAgree(codec: Codec, files: Tree, a: seq<FileSum>, b: seq<FileSum>)
    requires IsInventory(codec, files, a) && IsInventory(codec, files, b)
    ensures multiset(a) == multiset(b)
  {
    forall i, j | 0 <= i < j < |a| ensures a[i] != a[j] { assert a[i].path != a[j].path; }
    forall f ensures f in a <==> f in b { }
    SameFilesExactly(a, b);
  }

  /**
    The round trip: whatever order the tree was walked in, the import accepts the exported entries, stages
    exactly the exported files, and finds the manifest to match.
   */
  lemma ExportThenExtract(codec: Codec, files: Tree, dirs: set<string>, inventory: seq<FileSum>, entries: seq<Entry>,
                          actual: seq<FileSum>)
    requires Exportable(files, dirs) && HasRequired(codec, files) && IsInventory(codec, files, inventory)
    requires Lists(entries, files, dirs, codec.encode(inventory))
    requires codec.decode(codec.encode(inventory)) == Some(inventory) &&
             0 < |codec.encode(inventory)| <= MAX_MANIFEST_BYTES
    requires |entries| <= MAX_FILES && TotalSize(entries) <= MAX_EXPANDED_BYTES
    requires IsInventory(codec, files, actual)
    ensures ReadAll(entries).Some? && ReadAll(entries).value.files == files
    ensures Restorable(codec, ReadAll(entries).value, inventory, actual)
  {
    hide ReadAll, AllowedPath, IsSafe, TotalSize, Lists, Exportable, IsInventory, DistinctPaths, Mirrors, HasRequired;
    ListedPrefix(entries, files, dirs, codec.encode(inventory), |entries|);
    assert entries[..|entries|] == entries;
    ListedFiles(entries, files, dirs, codec.encode(inventory));
    MirrorsFiles(ReadAll(entries).value, entries);
    InventoriesAgree(codec, files, inventory, actual);
    RecordedAllowed(codec, files, dirs, inventory);
  }

  lemma MirrorsFiles(s: Staged, entries: seq<Entry>)
    requires Mirrors(s, entries)
    ensures s.files == FilesOf(entries)
  {
  }

  lemma RecordedAllowed(codec: Codec, files: Tree, dirs: set<string>, inventory: seq<FileSum>)
    requires Exportable(files, dirs) && IsInventory(codec, files, inventory)
    ensures forall f | f in inventory :: AllowedPath(f.path)
  {
    hide AllowedPath, IsSafe;
  }

  /** The files of the listing are the tree's. */
  lemma ListedFiles(entries: seq<Entry>, files: Tree, dirs: set<string>, manifest: string)
    requires Lists(entries, files, dirs, manifest) && Exportable(files, dirs)
    ensures FilesOf(entries) == files && File(MANIFEST_NAME, manifest) in entries
  {
    hide Exportable, FilesOf;
    var got := FilesOf(entries);
    forall f | f in files ensures f in got && got[f] == files[f] {
      var i :| 0 <= i < |entries| && entries[i] == File(f, files[f]);
      ListedName(entries[i], files, dirs, manifest);
      NotTheManifest(files, dirs, f);
      FilesHold(entries, i);
    }
    forall f | f in got ensures f in files {
      FilesComeFrom(entries, f);
      var i :| 0 <= i < |entries| && NameOf(entries[i]) == f && IsPayload(entries[i]);
      ListedName(entries[i], files, dirs, manifest);
      assert IsListed(entries[i], files, dirs, manifest);
    }
  }
}
