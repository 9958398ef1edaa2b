/**
 * What Beacon keeps: the `images` table and the files on its volumes.
 *
 * A path is an ISO (or archive) in the image folder, the .part file of one being
 * downloaded, or a file in one of the three trees an image's run fills under its
 * own id: os/<id>, nfs/<id> and smb/<id>. No image's own name ends in ".part". A
 * file is represented by its size; a directory exists through the files beneath it.
 */
module Store {
  import opened Text

  datatype Option<+T> = None | Some(value: T)

  datatype Status = Pending | Processing | Ready | Error | NeedsReprocess | Deleting
  datatype Source = FromIso | FromCatalog
  datatype Variant = Installer | Live
  datatype Family = Linux | Windows | Xcpng

  /** A word of the kernel command line, as far as Beacon looks at it again. */
  datatype Arg =
    | NetbootNfs                             // netboot=nfs
    | InstSource(repo: bool, nfs: bool)      // inst.repo=... or inst.stage2=...
    | Own(key: string, id: Id)               // names this image's own folder on the server
    | RdLiveImage                            // rd.live.image
    | ArchisoBasedir(dir: string)            // archisobasedir=<dir>
    | Word(text: string)                     // anything else

  type Id = int
  /** A path below an image's own folder, one component an element. */
  type Rel = seq<string>

  datatype Tree = Os | Nfs | Smb
  datatype Path =
    | IsoFile(name: string)
    | PartFile(name: string)                 // <name>.part
    | Derived(tree: Tree, id: Id, rel: Rel)
    | Elsewhere(place: string)               // anywhere else on the server
  type Files = map<Path, nat>

  datatype Image = Image(
    filename: string,
    source: Source,
    variant: Variant,
    catalogId: string,
    release: string,
    sourceUrl: string,
    family: Family,
    status: Status,
    kernelPath: Rel,        // below os/<id>; empty when unset
    initrdPath: Rel,
    bootArgs: seq<Arg>,
    enabled: bool)

  type Rows = map<Id, Image>

  /** The statuses Reprocess leaves alone. */
  predicate InFlight(status: Status) {
    status == Pending || status == Processing
  }

  predicate Busy(status: Status) {
    InFlight(status) || status == Deleting
  }

  /** Nothing is being done about the row, and nothing is waiting to be. */
  predicate Resting(status: Status) {
    status == Ready || status == Error || status == NeedsReprocess
  }

  /**
   * The file name `iso_path` uses: the last path component, so that a name from
   * a restored backup cannot leave the image folder.
   */
  function IsoName(filename: string): (name: string)
    ensures name != "" && name != "." && name != ".." && '/' !in name
  {
    var parts := Components(filename);
    if parts == [] then "invalid-name"
    else
      var last := parts[|parts| - 1];
      assert last in parts;
      if last == ".." then "invalid-name" else last
  }

  lemma {:induction false} LastSplit(dir: string, name: string)
    requires '/' !in name
    ensures var parts := Split(dir + "/" + name, '/'); |parts| > 1 && parts[|parts| - 1] == name
  {
    var s := dir + "/" + name;
    if dir == "" {
      assert s[1..] == name;
      SplitNoSeparator(name, '/');
    } else {
      assert s[1..] == dir[1..] + "/" + name && s[0] == dir[0];
      LastSplit(dir[1..], name);
    }
  }

  lemma {:induction false} KeepsLast(parts: seq<string>)
    requires parts != [] && var last := parts[|parts| - 1]; last != "" && last != "."
    ensures var kept := KeepNamed(parts); kept != [] && kept[|kept| - 1] == parts[|parts| - 1]
  {
    if |parts| > 1 {
      KeepsLast(parts[1..]);
    } else {
      assert parts[1..] == [];
    }
  }

  /** Whatever folders come before it, a plain name is what counts. */
  lemma IsoNameIsLast(dir: string, name: string)
    requires '/' !in name && name != "" && name != "." && name != ".."
    ensures IsoName(dir + "/" + name) == name && PlainName(name)
  {
    LastSplit(dir, name);
    KeepsLast(Split(dir + "/" + name, '/'));
    SplitNoSeparator(name, '/');
    KeepsLast([name]);
  }

  /** A name that is its own last component, as every name Beacon makes is. */
  predicate PlainName(filename: string) {
    IsoName(filename) == filename
  }

  predicate DerivedOf(p: Path, id: Id) {
    p.Derived? && p.id == id
  }

  /** `_clean_derived_data`: drop os/<id>, nfs/<id> and smb/<id>. */
  function Clean(files: Files, id: Id): (r: Files)
    ensures forall p :: p in r <==> p in files && !DerivedOf(p, id)
    ensures forall p | p in r :: r[p] == files[p]
  {
    map p | p in files && !DerivedOf(p, id) :: files[p]
  }

  /** `iso_path(filename).unlink(missing_ok=True)`. */
  function Unlink(files: Files, filename: string): (r: Files)
    ensures forall p :: p in r <==> p in files && p != IsoFile(IsoName(filename))
    ensures forall p | p in r :: r[p] == files[p]
  {
    files - {IsoFile(IsoName(filename))}
  }

  /** `_remove_files`: the ISO and everything derived from it. */
  function RemoveFiles(files: Files, id: Id, filename: string): (r: Files)
    ensures forall p :: p in r <==>
              p in files && !DerivedOf(p, id) && p != IsoFile(IsoName(filename))
    ensures forall p | p in r :: r[p] == files[p]
  {
    Clean(Unlink(files, filename), id)
  }

  predicate StrictlyBelow(p: Path, dir: Path) {
    p.Derived? && dir.Derived? && p.tree == dir.tree && p.id == dir.id && dir.rel < p.rel
  }

  /** `_exists_nonempty`: a file with content, or a folder with something in it. */
  predicate ExistsNonempty(files: Files, p: Path) {
    || (p in files && files[p] > 0)
    || exists q | q in files :: StrictlyBelow(q, p)
  }
}
