/**
 * The scripting host's compiled-script cache (script/host/CoremodScriptHostConfiguration.kt of
 * the dev.su5ed tree): where the cache lives and how a compiled script's jar is named from a
 * digest of its text and compilation settings.
 */
module ScriptHost {
  import opened Wrappers
  import opened Paths
  import opened FileSystem
  import Directories

  const COMPILED_SCRIPTS_CACHE_DIR_PROPERTY := "dev.su5ed.koremods.core.kts.compiled.scripts.cache.dir"
  const COMPILED_SCRIPTS_CACHE_DIR_ENV_VAR := "DEV_SU5ED_KOREMODS_COMPILED_SCRIPTS_CACHE_DIR"
  const COMPILED_SCRIPTS_CACHE_DIR := "dev.su5ed.koremods.compiled.cache"
  const COMPILED_SCRIPTS_CACHE_VERSION := 1

  const TWO_32 := 0x1_0000_0000
  const INT_MAX_EXCLUSIVE := 0x8000_0000

  /** A Kotlin `Int`. */
  predicate IsInt(n: int) {
    -INT_MAX_EXCLUSIVE <= n < INT_MAX_EXCLUSIVE
  }

  /** `Int.toByteArray()`: the two's-complement value in four bytes, most significant first (`ByteBuffer.putInt`). */
  function IntToBytes(n: int): (r: Bytes)
    requires IsInt(n)
    ensures |r| == 4
  {
    var u := n % TWO_32;
    var q1 := u / 0x100;
    var q2 := q1 / 0x100;
    [(q2 / 0x100) as Byte, (q2 % 0x100) as Byte, (q1 % 0x100) as Byte, (u % 0x100) as Byte]
  }

  /** `ByteBuffer.getInt`: four bytes, most significant first, read as a two's-complement value. */
  function BytesToInt(b: Bytes): (n: int)
    requires |b| == 4
    ensures IsInt(n)
  {
    var u := ((b[0] as int * 0x100 + b[1] as int) * 0x100 + b[2] as int) * 0x100 + b[3] as int;
    if u >= INT_MAX_EXCLUSIVE then u - TWO_32 else u
  }

  lemma IntBytesRoundTrip(n: int)
    requires IsInt(n)
    ensures BytesToInt(IntToBytes(n)) == n
  {
    var u := n % TWO_32;
    var q1 := u / 0x100;
    var q2 := q1 / 0x100;
    assert u == q1 * 0x100 + u % 0x100;
    assert q1 == q2 * 0x100 + q1 % 0x100;
    assert q2 == (q2 / 0x100) * 0x100 + q2 % 0x100;
    assert n == u || n == u - TWO_32;
  }

  /** A lower-case hexadecimal digit. */
  function HexDigit(k: int): (c: char)
    requires 0 <= k < 16
    ensures '0' <= c <= '9' || 'a' <= c <= 'f'
  {
    if k < 10 then ('0' as int + k) as char else ('a' as int + k - 10) as char
  }

  /** `"%02x".format(b)` on a byte: two lower-case hexadecimal digits. */
  function HexByte(b: Byte): (r: string)
    ensures |r| == 2
  {
    [HexDigit(b as int / 16), HexDigit(b as int % 16)]
  }

  /** `toHexString()`: `joinToString("")` of the two-digit forms. */
  function ToHexString(bytes: Bytes): (r: string)
    ensures |r| == 2 * |bytes|
  {
    if |bytes| == 0 then "" else HexByte(bytes[0]) + ToHexString(bytes[1..])
  }

  /** The value of a lower-case hexadecimal digit, or -1. */
  function HexValue(c: char): (v: int)
    ensures -1 <= v < 16
    ensures v >= 0 ==> HexDigit(v) == c
    ensures v == -1 <==> !('0' <= c <= '9' || 'a' <= c <= 'f')
  {
    if '0' <= c <= '9' then c as int - '0' as int
    else if 'a' <= c <= 'f' then c as int - 'a' as int + 10
    else -1
  }

  lemma HexValueOfDigit(k: int)
    requires 0 <= k < 16
    ensures HexValue(HexDigit(k)) == k
  {
  }

  function FromHexString(s: string): Option<Bytes>
    decreases |s|
  {
    if |s| == 0 then Some([])
    else if |s| == 1 then None
    else
      var hi, lo := HexValue(s[0]), HexValue(s[1]);
      if hi < 0 || lo < 0 then None
      else match FromHexString(s[2..])
        case None => None
        case Some(rest) => Some([(hi * 16 + lo) as Byte] + rest)
  }

  /** The hexadecimal text gives back the bytes it was made from. */
  lemma {:induction false} HexRoundTrip(bytes: Bytes)
    ensures FromHexString(ToHexString(bytes)) == Some(bytes)
  {
    if |bytes| > 0 {
      var s := ToHexString(bytes);
      var b := bytes[0] as int;
      assert s[0] == HexDigit(b / 16) && s[1] == HexDigit(b % 16);
      HexValueOfDigit(b / 16);
      HexValueOfDigit(b % 16);
      assert s[2..] == ToHexString(bytes[1..]);
      HexRoundTrip(bytes[1..]);
      assert (b / 16 * 16 + b % 16) as Byte == bytes[0];
      assert bytes == [bytes[0]] + bytes[1..];
    }
  }

  /** A JVM `ByteArray`: its size is an `Int`, so it holds fewer than 2^31 bytes. */
  type ByteArray = b: Bytes | |b| < INT_MAX_EXCLUSIVE witness []

  /** `String.toByteArray()` (UTF-8). */
  type Encoder = string -> ByteArray

  /** `addToDigest(chunk)`: the byte count as an `Int`, then the bytes. */
  function Frame(chunk: ByteArray): (r: Bytes)
    ensures |r| == 4 + |chunk|
  {
    IntToBytes(|chunk|) + chunk
  }

  function Frames(chunks: seq<ByteArray>): Bytes
  {
    if |chunks| == 0 then [] else Frame(chunks[0]) + Frames(chunks[1..])
  }

  lemma {:induction false} FramesAppend(a: seq<ByteArray>, b: seq<ByteArray>)
    ensures Frames(a + b) == Frames(a) + Frames(b)
  {
    if |a| == 0 {
      assert a + b == b;
    } else {
      assert (a + b)[1..] == a[1..] + b;
      FramesAppend(a[1..], b);
    }
  }

  /** Reads length-prefixed chunks back; None when the bytes are not such a sequence. */
  function Unframe(bytes: Bytes): Option<seq<ByteArray>>
    decreases |bytes|
  {
    if |bytes| == 0 then Some([])
    else if |bytes| < 4 then None
    else
      var n := BytesToInt(bytes[..4]);
      if n < 0 || 4 + n > |bytes| then None
      else match Unframe(bytes[4 + n..])
        case None => None
        case Some(rest) => Some([bytes[4..4 + n]] + rest)
  }

  /** Length-prefix framing is unambiguous: the framed bytes give back the chunks. */
  lemma {:induction false} UnframeFrames(chunks: seq<ByteArray>)
    ensures Unframe(Frames(chunks)) == Some(chunks)
  {
    if |chunks| > 0 {
      var c := chunks[0];
      var bytes := Frames(chunks);
      IntBytesRoundTrip(|c|);
      assert bytes[..4] == IntToBytes(|c|);
      assert bytes[4..4 + |c|] == c;
      assert bytes[4 + |c|..] == Frames(chunks[1..]);
      UnframeFrames(chunks[1..]);
      assert BytesToInt(bytes[..4]) == |c|;
      assert chunks == [c] + chunks[1..];
    }
  }

  /** A configuration entry: the key's name and the value's text. */
  type Entry = (string, string)

  /** The chunks fed after the version: the script text, then name and value of each entry in turn. */
  function Chunks(text: string, entries: seq<Entry>, utf8: Encoder): (r: seq<ByteArray>)
    ensures |r| == 1 + 2 * |entries|
    ensures r[0] == utf8(text)
  {
    if |entries| == 0 then [utf8(text)]
    else
      var n := |entries| - 1;
      Chunks(text, entries[..n], utf8) + [utf8(entries[n].0), utf8(entries[n].1)]
  }

  /** The chunk of an entry's name and of its value. */
  lemma {:induction false} ChunksAt(text: string, entries: seq<Entry>, utf8: Encoder, i: nat)
    requires i < |entries|
    ensures Chunks(text, entries, utf8)[1 + 2 * i] == utf8(entries[i].0)
    ensures Chunks(text, entries, utf8)[2 + 2 * i] == utf8(entries[i].1)
    decreases |entries|
  {
    var n := |entries| - 1;
    if i < n {
      ChunksAt(text, entries[..n], utf8, i);
    }
  }

  /** The framed name and value of each entry in turn. */
  function EntryFrames(entries: seq<Entry>, utf8: Encoder): Bytes
  {
    if |entries| == 0 then []
    else
      var n := |entries| - 1;
      EntryFrames(entries[..n], utf8) + Frame(utf8(entries[n].0)) + Frame(utf8(entries[n].1))
  }

  /** Everything the digest is fed: version 1, then the script text and the entries, each framed with its length. */
  function DigestInput(text: string, sorted: seq<Entry>, utf8: Encoder): Bytes
  {
    IntToBytes(COMPILED_SCRIPTS_CACHE_VERSION) + Frame(utf8(text)) + EntryFrames(sorted, utf8)
  }

  lemma FramesPair(a: ByteArray, b: ByteArray)
    ensures Frames([a, b]) == Frame(a) + Frame(b)
  {
    assert [a, b][1..] == [b];
    assert [b][1..] == [];
    assert Frames([b]) == Frame(b) + Frames([]);
  }

  /** The digest input is the framing of the chunk sequence. */
  lemma {:induction false} ChunksFrames(text: string, entries: seq<Entry>, utf8: Encoder)
    ensures Frames(Chunks(text, entries, utf8)) == Frame(utf8(text)) + EntryFrames(entries, utf8)
    decreases |entries|
  {
    if |entries| == 0 {
      assert Chunks(text, entries, utf8)[1..] == [];
    } else {
      var n := |entries| - 1;
      var e := entries[n];
      var pair := [utf8(e.0), utf8(e.1)];
      var before := Chunks(text, entries[..n], utf8);
      ChunksFrames(text, entries[..n], utf8);
      FramesAppend(before, pair);
      FramesPair(utf8(e.0), utf8(e.1));
      assert Chunks(text, entries, utf8) == before + pair;
      assert Frames(Chunks(text, entries, utf8)) == Frames(before) + (Frame(utf8(e.0)) + Frame(utf8(e.1)));
      assert EntryFrames(entries, utf8) == EntryFrames(entries[..n], utf8) + Frame(utf8(e.0)) + Frame(utf8(e.1));
    }
  }

  /** An encoder that maps distinct strings to distinct bytes (UTF-8 does). */
  ghost predicate Injective(utf8: Encoder) {
    forall a, b :: utf8(a) == utf8(b) ==> a == b
  }

  /** Equal digest inputs mean the same script text and the same entries, in the same order. */
  lemma DigestInputDetermines(t1: string, e1: seq<Entry>, t2: string, e2: seq<Entry>, utf8: Encoder)
    requires Injective(utf8)
    requires DigestInput(t1, e1, utf8) == DigestInput(t2, e2, utf8)
    ensures t1 == t2 && e1 == e2
  {
    var c1, c2 := Chunks(t1, e1, utf8), Chunks(t2, e2, utf8);
    DigestInputFramesChunks(t1, e1, utf8);
    DigestInputFramesChunks(t2, e2, utf8);
    UnframeFrames(c1);
    UnframeFrames(c2);
    ChunksDetermine(t1, e1, t2, e2, utf8);
  }

  /** After the version come the framed chunks. */
  lemma DigestInputFramesChunks(text: string, entries: seq<Entry>, utf8: Encoder)
    ensures DigestInput(text, entries, utf8)[4..] == Frames(Chunks(text, entries, utf8))
  {
    ChunksFrames(text, entries, utf8);
    var v := IntToBytes(COMPILED_SCRIPTS_CACHE_VERSION);
    assert DigestInput(text, entries, utf8) == v + (Frame(utf8(text)) + EntryFrames(entries, utf8));
  }

  /** With an injective encoder, the chunks give back the text and the entries. */
  lemma ChunksDetermine(t1: string, e1: seq<Entry>, t2: string, e2: seq<Entry>, utf8: Encoder)
    requires Injective(utf8)
    requires Chunks(t1, e1, utf8) == Chunks(t2, e2, utf8)
    ensures t1 == t2 && e1 == e2
  {
    var c := Chunks(t1, e1, utf8);
    assert |e1| == |e2|;
    forall i | 0 <= i < |e1|
      ensures e1[i] == e2[i]
    {
      ChunksAt(t1, e1, utf8, i);
      ChunksAt(t2, e2, utf8, i);
    }
  }

  /**
   * Lexicographic order of names, character by character (`sortedBy { it.key.name }`). Kotlin
   * compares UTF-16 units and this compares code points; the two orders differ only between a
   * supplementary character and one in U+E000..U+FFFF, which ASCII key names never contain.
   */
  predicate Below(a: string, b: string)
    decreases |a|
  {
    if |a| == 0 then |b| > 0
    else if |b| == 0 then false
    else if a[0] != b[0] then a[0] < b[0]
    else Below(a[1..], b[1..])
  }

  lemma {:induction false} BelowIrreflexive(a: string)
    ensures !Below(a, a)
  {
    if |a| > 0 {
      BelowIrreflexive(a[1..]);
    }
  }

  lemma {:induction false} BelowTransitive(a: string, b: string, c: string)
    requires Below(a, b) && Below(b, c)
    ensures Below(a, c)
    decreases |a|
  {
    if |a| > 0 && |b| > 0 && |c| > 0 && a[0] == b[0] && b[0] == c[0] {
      BelowTransitive(a[1..], b[1..], c[1..]);
    }
  }

  lemma {:induction false} BelowTotal(a: string, b: string)
    requires a != b
    ensures Below(a, b) || Below(b, a)
    decreases |a|
  {
    if |a| > 0 && |b| > 0 && a[0] == b[0] {
      assert a == [a[0]] + a[1..] && b == [b[0]] + b[1..];
      BelowTotal(a[1..], b[1..]);
    }
  }

  lemma BelowAsymmetric(a: string, b: string)
    requires Below(a, b)
    ensures !Below(b, a)
  {
    if Below(b, a) {
      BelowTransitive(a, b, a);
      BelowIrreflexive(a);
    }
  }

  /** Inserts an entry before the first entry whose name is not below its own. */
  function Insert(e: Entry, sorted: seq<Entry>): (r: seq<Entry>)
    ensures multiset(r) == multiset(sorted) + multiset{e}
  {
    if |sorted| == 0 then [e]
    else if Below(sorted[0].0, e.0) then
      assert sorted == [sorted[0]] + sorted[1..];
      [sorted[0]] + Insert(e, sorted[1..])
    else [e] + sorted
  }

  /** Sorting by name. */
  function SortByName(entries: seq<Entry>): (r: seq<Entry>)
    ensures multiset(r) == multiset(entries)
  {
    if |entries| == 0 then []
    else
      assert entries == [entries[0]] + entries[1..];
      Insert(entries[0], SortByName(entries[1..]))
  }

  predicate StrictlySorted(s: seq<Entry>) {
    forall i, j :: 0 <= i < j < |s| ==> Below(s[i].0, s[j].0)
  }

  predicate DistinctNames(s: seq<Entry>) {
    forall i, j :: 0 <= i < j < |s| ==> s[i].0 != s[j].0
  }

  lemma {:induction false} InsertSorted(e: Entry, sorted: seq<Entry>)
    requires StrictlySorted(sorted)
    requires forall i :: 0 <= i < |sorted| ==> sorted[i].0 != e.0
    ensures StrictlySorted(Insert(e, sorted))
  {
    if |sorted| > 0 {
      if Below(sorted[0].0, e.0) {
        InsertSorted(e, sorted[1..]);
        var r := Insert(e, sorted);
        var t := Insert(e, sorted[1..]);
        assert r == [sorted[0]] + t;
        forall j | 1 <= j < |r|
          ensures Below(r[0].0, r[j].0)
        {
          assert r[j] in multiset(t);
          assert r[j] in multiset(sorted[1..]) + multiset{e};
          if r[j] == e {
          } else {
            assert r[j] in sorted[1..];
            var k :| 0 <= k < |sorted[1..]| && sorted[1..][k] == r[j];
            assert sorted[k + 1] == r[j];
          }
        }
      } else {
        BelowTotal(sorted[0].0, e.0);
        forall j | 0 <= j < |sorted|
          ensures Below(e.0, sorted[j].0)
        {
          if j > 0 {
            BelowTransitive(e.0, sorted[0].0, sorted[j].0);
          }
        }
      }
    }
  }

  lemma {:induction false} SortByNameSorted(entries: seq<Entry>)
    requires DistinctNames(entries)
    ensures StrictlySorted(SortByName(entries))
  {
    if |entries| > 0 {
      var rest := entries[1..];
      SortByNameSorted(rest);
      var s := SortByName(rest);
      forall i | 0 <= i < |s|
        ensures s[i].0 != entries[0].0
      {
        assert s[i] in multiset(rest);
        var k :| 0 <= k < |rest| && rest[k] == s[i];
        assert entries[k + 1] == s[i];
      }
      InsertSorted(entries[0], s);
    }
  }

  /** Two strictly sorted lists with the same elements are the same list. */
  lemma {:induction false} SortedUnique(a: seq<Entry>, b: seq<Entry>)
    requires StrictlySorted(a) && StrictlySorted(b)
    requires forall x :: x in a <==> x in b
    ensures a == b
  {
    if |a| > 0 {
      assert a[0] in a;
    }
    if |b| > 0 {
      assert b[0] in b;
    }
    if |a| > 0 && |b| > 0 {
      assert a[0] in b && b[0] in a;
      var i :| 0 <= i < |b| && b[i] == a[0];
      var j :| 0 <= j < |a| && a[j] == b[0];
      if i > 0 {
        assert Below(b[0].0, a[0].0);
        if j > 0 {
          assert Below(a[0].0, b[0].0);
          BelowAsymmetric(a[0].0, b[0].0);
        } else {
          BelowIrreflexive(a[0].0);
        }
      }
      assert a[0] == b[0];
      forall x
        ensures x in a[1..] ==> x in b[1..]
      {
        if x in a[1..] {
          TailMember(a, b, x);
        }
      }
      forall x
        ensures x in b[1..] ==> x in a[1..]
      {
        if x in b[1..] {
          TailMember(b, a, x);
        }
      }
      SortedUnique(a[1..], b[1..]);
      assert a == [a[0]] + a[1..] && b == [b[0]] + b[1..];
    }
  }

  lemma TailMember(a: seq<Entry>, b: seq<Entry>, x: Entry)
    requires StrictlySorted(a) && |a| > 0 && |b| > 0 && a[0] == b[0]
    requires x in a[1..] && x in b
    ensures x in b[1..]
  {
    var k :| 0 <= k < |a[1..]| && a[1..][k] == x;
    assert a[k + 1] == x;
    if x == a[0] {
      BelowIrreflexive(x.0);
    }
    var m :| 0 <= m < |b| && b[m] == x;
    assert b[1..][m - 1] == x;
  }

  /** `order` lists the entries of `m`, each once, in some iteration order. */
  predicate Enumerates(order: seq<Entry>, m: map<string, string>) {
    DistinctNames(order) &&
    (forall i :: 0 <= i < |order| ==> order[i].0 in m && m[order[i].0] == order[i].1) &&
    (forall k :: k in m ==> exists i :: 0 <= i < |order| && order[i].0 == k)
  }

  /** Whatever order the map yields its entries in, sorting by name gives the same list. */
  lemma SortIgnoresIterationOrder(m: map<string, string>, o1: seq<Entry>, o2: seq<Entry>)
    requires Enumerates(o1, m) && Enumerates(o2, m)
    ensures SortByName(o1) == SortByName(o2)
  {
    var s1, s2 := SortByName(o1), SortByName(o2);
    SortByNameSorted(o1);
    SortByNameSorted(o2);
    forall x
      ensures x in s1 <==> x in s2
    {
      assert x in s1 <==> x in multiset(o1);
      assert x in s2 <==> x in multiset(o2);
      if x in o1 {
        var i :| 0 <= i < |o1| && o1[i] == x;
        var j :| 0 <= j < |o2| && o2[j].0 == x.0;
        assert o2[j] == x;
      }
      if x in o2 {
        var i :| 0 <= i < |o2| && o2[i] == x;
        var j :| 0 <= j < |o1| && o1[j].0 == x.0;
        assert o1[j] == x;
      }
    }
    SortedUnique(s1, s2);
  }

  /** The `MessageDigest` being fed: what it has received so far. */
  class Digest {
    var fed: Bytes

    constructor()
      ensures fed == []
    {
      fed := [];
    }

    /** `update(bytes)` */
    method Update(bytes: Bytes)
      modifies this
      ensures fed == old(fed) + bytes
    {
      fed := fed + bytes;
    }
  }

  /**
   * `compiledScriptUniqueName`: the hexadecimal digest (`sha256`) of the version, the script text
   * and the entries sorted by name, each framed with its length.
   */
  method CompiledScriptUniqueName(text: string, order: seq<Entry>, utf8: Encoder, sha256: Bytes -> Bytes)
    returns (name: string)
    ensures name == ToHexString(sha256(DigestInput(text, SortByName(order), utf8)))
  {
    var sorted := SortByName(order);
    var digest := new Digest();
    digest.Update(IntToBytes(COMPILED_SCRIPTS_CACHE_VERSION));
    assert digest.fed == IntToBytes(COMPILED_SCRIPTS_CACHE_VERSION);
    digest.Update(Frame(utf8(text)));
    ghost var header := digest.fed;
    FeedEntries(digest, sorted, utf8);
    assert digest.fed == header + EntryFrames(sorted, utf8);
    name := ToHexString(sha256(digest.fed));
  }

  /** The loop of `compiledScriptUniqueName` over the sorted entries: name, then value, each framed. */
  method FeedEntries(digest: Digest, sorted: seq<Entry>, utf8: Encoder)
    modifies digest
    ensures digest.fed == old(digest.fed) + EntryFrames(sorted, utf8)
  {
    var i := 0;
    while i < |sorted|
      invariant 0 <= i <= |sorted|
      invariant digest.fed == old(digest.fed) + EntryFrames(sorted[..i], utf8)
    {
      assert sorted[..i + 1][..i] == sorted[..i];
      digest.Update(Frame(utf8(sorted[i].0)));
      digest.Update(Frame(utf8(sorted[i].1)));
      i := i + 1;
    }
    assert sorted[..i] == sorted;
  }

  /** The two names of the same script and settings are the same, however the settings map iterates. */
  lemma UniqueNameIgnoresIterationOrder(text: string, m: map<string, string>, o1: seq<Entry>, o2: seq<Entry>,
                                        utf8: Encoder, sha256: Bytes -> Bytes)
    requires Enumerates(o1, m) && Enumerates(o2, m)
    ensures DigestInput(text, SortByName(o1), utf8) == DigestInput(text, SortByName(o2), utf8)
  {
    SortIgnoresIterationOrder(m, o1, o2);
  }

  /** `File.mkdir()`: creates one directory whose parent is a directory; false otherwise. */
  function Mkdir(d: Disk, p: Path): (r: (bool, Disk))
    ensures r.0 ==> r.1 == d.(dirs := d.dirs + {p})
    ensures !r.0 ==> r.1 == d
  {
    if |p| == 0 || p in d.failing || Exists(d, p) || p[..|p| - 1] !in d.dirs then (false, d)
    else (true, d.(dirs := d.dirs + {p}))
  }

  /** `exists() && isDirectory` */
  predicate IsDirectory(d: Disk, p: Path) {
    p in d.dirs
  }

  /** The cache directory setting: the system property if set, else the environment variable. */
  function CacheSetting(props: map<string, string>, env: map<string, string>): Option<string> {
    if COMPILED_SCRIPTS_CACHE_DIR_PROPERTY in props then Some(props[COMPILED_SCRIPTS_CACHE_DIR_PROPERTY])
    else Directories.Lookup(env, COMPILED_SCRIPTS_CACHE_DIR_ENV_VAR)
  }

  /** `getDefaultCacheDir()`, with the disk it leaves behind. */
  function DefaultCacheDir(props: map<string, string>, env: map<string, string>, d: Disk): (Option<Path>, Disk) {
    match CacheSetting(props, env)
    case None =>
      (match Directories.Cache(props, env)
       case None => (None, d)
       case Some(c) =>
         if !IsDirectory(d, c) then (None, d)
         else
           var p := c + [COMPILED_SCRIPTS_CACHE_DIR];
           var d2 := Mkdir(d, p).1;
           (if IsDirectory(d2, p) then Some(p) else None, d2))
    case Some(s) =>
      if Directories.IsBlank(s) then (None, d)
      else (if IsDirectory(d, [s]) then Some([s]) else None, d)
  }

  /** The default cache directory, when there is one, is an existing directory. */
  lemma DefaultCacheDirIsDirectory(props: map<string, string>, env: map<string, string>, d: Disk)
    ensures var r := DefaultCacheDir(props, env, d); r.0.Some? ==> IsDirectory(r.1, r.0.value)
  {
  }

  /** A blank setting switches the cache off, whatever the system's cache directory. */
  lemma BlankSettingDisablesCache(props: map<string, string>, env: map<string, string>, d: Disk)
    requires CacheSetting(props, env).Some? && Directories.IsBlank(CacheSetting(props, env).value)
    ensures DefaultCacheDir(props, env, d) == (None, d)
  {
  }

  /** The system property wins: with it set, the environment plays no part. */
  lemma PropertyWinsOverEnvironment(props: map<string, string>, env1: map<string, string>, env2: map<string, string>, d: Disk)
    requires COMPILED_SCRIPTS_CACHE_DIR_PROPERTY in props
    ensures DefaultCacheDir(props, env1, d) == DefaultCacheDir(props, env2, d)
  {
  }

  /** At most the cache sub-directory is created; nothing else on disk changes. */
  lemma DefaultCacheDirCreatesAtMostSubdirectory(props: map<string, string>, env: map<string, string>, d: Disk)
    ensures var r := DefaultCacheDir(props, env, d);
      r.1.files == d.files && r.1.failing == d.failing &&
      (r.1.dirs == d.dirs || (CacheSetting(props, env).None? && Directories.Cache(props, env).Some? &&
                              r.1.dirs == d.dirs + {Directories.Cache(props, env).value + [COMPILED_SCRIPTS_CACHE_DIR]}))
  {
  }

  /** `getDefaultCacheDir()` over the shared file system. */
  method GetDefaultCacheDir(fs: FileSystem, props: map<string, string>, env: map<string, string>) returns (r: Option<Path>)
    modifies fs
    ensures (r, fs.State()) == DefaultCacheDir(props, env, old(fs.State()))
  {
    var setting := CacheSetting(props, env);
    if setting.None? {
      var c := Directories.Cache(props, env);
      if c.None? || c.value !in fs.dirs {
        return None;
      }
      var p := c.value + [COMPILED_SCRIPTS_CACHE_DIR];
      if !(p in fs.failing || p in fs.files || p in fs.dirs || c.value !in fs.dirs) {
        fs.dirs := fs.dirs + {p};
      }
      r := if p in fs.dirs then Some(p) else None;
    } else if Directories.IsBlank(setting.value) {
      r := None;
    } else {
      r := if [setting.value] in fs.dirs then Some([setting.value]) else None;
    }
  }

  /**
   * The host configuration's cache directory: `KoremodsBlackboard.cacheDir`, or else the default
   * one, kept only when it is an existing directory; without it no compilation cache is configured.
   */
  method ConfiguredCacheDir(fs: FileSystem, blackboardDir: Option<Path>, props: map<string, string>, env: map<string, string>)
    returns (r: Option<Path>)
    modifies fs
    ensures blackboardDir.Some? ==> fs.State() == old(fs.State()) &&
                                    r == (if IsDirectory(old(fs.State()), blackboardDir.value) then blackboardDir else None)
    ensures blackboardDir.None? ==> (r, fs.State()) == DefaultCacheDir(props, env, old(fs.State()))
    ensures r.Some? ==> IsDirectory(fs.State(), r.value)
  {
    var dir := blackboardDir;
    if dir.None? {
      dir := GetDefaultCacheDir(fs, props, env);
      DefaultCacheDirIsDirectory(props, env, old(fs.State()));
    }
    r := if dir.Some? && dir.value in fs.dirs then dir else None;
  }

  /** The cached jar of a compiled script: the unique name plus ".jar", inside the cache directory. */
  function CacheJar(dir: Path, uniqueName: string): (r: Path)
    ensures |r| == |dir| + 1 && r[..|dir|] == dir && r[|dir|] == uniqueName + ".jar"
  {
    dir + [uniqueName + ".jar"]
  }

  /** With a 32-byte digest, the jar name is 64 hexadecimal digits followed by ".jar". */
  lemma JarNameLength(dir: Path, digest: Bytes)
    requires |digest| == 32
    ensures |CacheJar(dir, ToHexString(digest))[|dir|]| == 68
  {
  }
}
