/** Bytes, jar files and the part of the default file system the prelaunch code touches. */
module FileSystem {
  import opened Wrappers
  import opened Paths

  newtype Byte = b: int | 0 <= b < 256

  type Bytes = seq<Byte>

  /** A jar: its manifest main attributes and its entries by name. */
  datatype Jar = Jar(attributes: map<string, string>, entries: map<string, Bytes>)

  /** An IOException raised for the given path. */
  datatype IoError = IoFailure(path: Path)

  /**
   * The file system as regular files with contents and directories. Operations on a path in
   * `failing` throw IOException; this stands for every environmental failure (permissions, full
   * disk) the code cannot prevent. A copy into a path in `interrupted` throws after writing that
   * many bytes, when there are more to write.
   */
  datatype Disk = Disk(files: map<Path, Bytes>, dirs: set<Path>, failing: set<Path>, interrupted: map<Path, nat>)

  /** `p` and each of its non-empty prefixes. */
  function Ancestors(p: Path): (r: set<Path>)
    ensures p != [] ==> p in r
    ensures forall q :: q in r ==> 0 < |q| <= |p| && q == p[..|q|]
  {
    var r := set k | 1 <= k <= |p| :: p[..k];
    assert p[..|p|] == p;
    assert p != [] ==> p[..|p|] in r;
    r
  }

  /** `Files.exists(p)`: the lookup of `p` finds a file or a directory. */
  predicate Exists(d: Disk, p: Path) {
    p in d.files || p in d.dirs
  }

  /** `p` or one of its ancestors is a regular file, so no directory can be made at `p`. */
  predicate FileOnPath(files: map<Path, Bytes>, p: Path) {
    exists k :: 1 <= k <= |p| && p[..k] in files
  }

  /**
   * `Files.notExists(p)`: the lookup of `p` fails with NoSuchFileException. When a regular file
   * sits on the way to `p` the lookup fails with "Not a directory" instead, and then neither
   * `Files.exists` nor `Files.notExists` holds.
   */
  predicate NotExists(d: Disk, p: Path) {
    !Exists(d, p) && (|p| == 0 || !FileOnPath(d.files, p[..|p| - 1]))
  }

  /** A regular file strictly above `p` makes `Files.notExists(p)` false. */
  lemma FileAboveNotNotExists(d: Disk, p: Path, k: nat)
    requires 1 <= k < |p| && p[..k] in d.files
    ensures !NotExists(d, p)
  {
    assert p[..|p| - 1][..k] == p[..k];
  }

  /** No path is both a regular file and a directory. */
  predicate Consistent(d: Disk) {
    forall q :: q in d.files ==> q !in d.dirs
  }

  /**
   * `Files.createDirectories(p)`: creates `p` and its missing parents, or throws; a regular file
   * at `p` or at one of its ancestors ("Not a directory") makes it throw.
   */
  function CreateDirectories(d: Disk, p: Path): (r: Result<Disk, IoError>)
    ensures r.Ok? <==> p !in d.failing && forall a :: a in Ancestors(p) ==> a !in d.files
    ensures r.Ok? ==> r.value.files == d.files && r.value.failing == d.failing &&
                      d.dirs <= r.value.dirs && (p != [] ==> p in r.value.dirs)
  {
    if p in d.failing || FileOnPath(d.files, p) then Err(IoFailure(p))
    else Ok(d.(dirs := d.dirs + Ancestors(p)))
  }

  /**
   * `File.mkdirs()`: like CreateDirectories but reports failure as `false` instead of throwing,
   * and also answers `false` when `p` already exists.
   */
  function Mkdirs(d: Disk, p: Path): (r: (bool, Disk))
    ensures r.0 <==> p !in d.failing && !Exists(d, p) && forall a :: a in Ancestors(p) ==> a !in d.files
    ensures !r.0 ==> r.1 == d
    ensures r.0 ==> r.1.files == d.files && d.dirs <= r.1.dirs && (p != [] ==> p in r.1.dirs)
  {
    if p in d.failing || Exists(d, p) || FileOnPath(d.files, p) then (false, d)
    else (true, d.(dirs := d.dirs + Ancestors(p)))
  }


  /**
   * `Files.newOutputStream(p)` can open `p`: it is not the root, not failing, not a directory, and
   * its parent is the root or a directory. Opening creates the file, or truncates it.
   */
  predicate CanCreate(d: Disk, p: Path) {
    p != [] && p !in d.failing && p !in d.dirs && (|p| == 1 || p[..|p| - 1] in d.dirs)
  }

  /** How many bytes of `data` a copy into `p` gets written before it stops. */
  function Copied(d: Disk, p: Path, data: Bytes): (n: nat)
    ensures n <= |data|
    ensures n == |data| <==> !(p in d.interrupted && d.interrupted[p] < |data|)
  {
    if p in d.interrupted && d.interrupted[p] < |data| then d.interrupted[p] else |data|
  }

  /**
   * `Files.newOutputStream(p)` followed by `IOUtils.copy` of `data` into it. When the stream
   * cannot be opened nothing changes; otherwise `p` holds what was copied, the whole of `data`
   * exactly when the copy completes, and the cut-off prefix when it throws.
   */
  function WriteFile(d: Disk, p: Path, data: Bytes): (r: (Result<(), IoError>, Disk))
    ensures r.0.Ok? <==> CanCreate(d, p) && !(p in d.interrupted && d.interrupted[p] < |data|)
    ensures r.0.Err? ==> r.0.error == IoFailure(p)
    ensures !CanCreate(d, p) ==> r.1 == d
    ensures CanCreate(d, p) ==>
      p in r.1.files && r.1.files[p] <= data && r.1 == d.(files := d.files[p := r.1.files[p]])
    ensures r.0.Ok? ==> r.1 == d.(files := d.files[p := data])
    ensures CanCreate(d, p) && r.0.Err? ==> |r.1.files[p]| == d.interrupted[p] < |data|
  {
    if !CanCreate(d, p) then (Err(IoFailure(p)), d)
    else
      var n := Copied(d, p, data);
      var d1 := d.(files := d.files[p := data[..n]]);
      if n < |data| then (Err(IoFailure(p)), d1)
      else
        assert data[..n] == data;
        (Ok(()), d1)
  }

  /**
   * No operation makes a path both a regular file and a directory: creating directories refuses a
   * file on the way, and a file is only opened where no directory is.
   */
  lemma OperationsKeepConsistent(d: Disk, p: Path, data: Bytes)
    requires Consistent(d)
    ensures CreateDirectories(d, p).Ok? ==> Consistent(CreateDirectories(d, p).value)
    ensures Consistent(Mkdirs(d, p).1)
    ensures Consistent(WriteFile(d, p, data).1)
  {
  }

  /** The mutable file system that the prelaunch objects share. */
  class FileSystem {
    var files: map<Path, Bytes>
    var dirs: set<Path>
    const failing: set<Path>
    const interrupted: map<Path, nat>

    function State(): Disk
      reads this
    {
      Disk(files, dirs, failing, interrupted)
    }

    constructor (d: Disk)
      ensures State() == d
    {
      files := d.files;
      dirs := d.dirs;
      failing := d.failing;
      interrupted := d.interrupted;
    }

    method PathNotExists(p: Path) returns (b: bool)
      ensures b == NotExists(State(), p)
    {
      b := p !in files && p !in dirs && (|p| == 0 || !FileOnPath(files, p[..|p| - 1]));
    }

    method CreateDirectoriesAt(p: Path) returns (r: Result<(), IoError>)
      modifies this
      ensures var o := CreateDirectories(old(State()), p);
        (o.Ok? ==> r.Ok? && State() == o.value) && (o.Err? ==> r == Err(o.error) && State() == old(State()))
    {
      if p in failing || FileOnPath(files, p) {
        return Err(IoFailure(p));
      }
      dirs := dirs + Ancestors(p);
      return Ok(());
    }

    method MkdirsAt(p: Path) returns (created: bool)
      modifies this
      ensures (created, State()) == Mkdirs(old(State()), p)
    {
      if p in failing || p in files || p in dirs || FileOnPath(files, p) {
        return false;
      }
      dirs := dirs + Ancestors(p);
      return true;
    }

    method Write(p: Path, data: Bytes) returns (r: Result<(), IoError>)
      modifies this
      ensures (r, State()) == WriteFile(old(State()), p, data)
    {
      if p == [] || p in failing || p in dirs || (|p| > 1 && p[..|p| - 1] !in dirs) {
        return Err(IoFailure(p));
      }
      var n := |data|;
      if p in interrupted && interrupted[p] < |data| {
        n := interrupted[p];
      }
      files := files[p := data[..n]];
      if n < |data| {
        return Err(IoFailure(p));
      }
      return Ok(());
    }
  }
}
