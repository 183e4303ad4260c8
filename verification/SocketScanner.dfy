/** Discovery of Unix sockets on the host (`src/host/socket_scanner.rs`) and the table of forwarded
    sockets that `run_socket_scanner` keeps from it (`src/host/mod.rs`). */
module SocketScanning {
  import opened Cardinality
  import opened Text
  import Utf8
  import opened Wrappers

  const MAX_UNIX_SOCKET_PATH: nat := 108

  type Path = string
  type SocketId = nat   // a version 4 UUID; fresh ids are taken from a counter

  /** `target` is the path of the mirror socket inside the containers. */
  datatype Info = Info(id: SocketId, path: Path, target: Path)

  /** The last component of a path. */
  function FileName(path: Path): Path
  {
    if path == "" || path[|path| - 1] == '/' then "" else FileName(path[..|path| - 1]) + [path[|path| - 1]]
  }

  /** `Path::join` with a relative path. */
  function Join(directory: Path, name: Path): Path {
    if directory == "" || directory[|directory| - 1] == '/' then directory + name else directory + "/" + name
  }

  /** `compute_container_path`: the file name under the configured prefix, or the host's own path. */
  function ContainerPath(prefix: Option<Path>, path: Path): Path {
    if prefix.Some? then Join(prefix.value, FileName(path)) else path
  }

  lemma {:induction false} FileNameIs(directory: Path, name: Path)
    requires '/' !in name
    ensures FileName(directory + "/" + name) == name
    decreases |name|
  {
    var path := directory + "/" + name;
    if name != "" {
      assert path[..|path| - 1] == directory + "/" + name[..|name| - 1];
      FileNameIs(directory, name[..|name| - 1]);
      assert name == name[..|name| - 1] + [name[|name| - 1]];
    }
  }

  /** A prefix replaces the directory and leaves the name, with one slash between them whether or not the
      prefix ends in one; without a prefix nothing changes. */
  lemma MirrorIsUnderPrefix(prefix: Path, directory: Path, name: Path)
    requires '/' !in name && prefix != "" && prefix[|prefix| - 1] != '/'
    ensures ContainerPath(Some(prefix), directory + "/" + name) == prefix + "/" + name
    ensures ContainerPath(Some(prefix + "/"), directory + "/" + name) == prefix + "/" + name
    ensures ContainerPath(None, directory + "/" + name) == directory + "/" + name
  {
    FileNameIs(directory, name);
  }

  /** Which host sockets end up on one path inside the containers. */
  lemma SharedContainerPathIff(prefix: Option<Path>, a: Path, b: Path)
    ensures ContainerPath(prefix, a) == ContainerPath(prefix, b)
       <==> if prefix.Some? then FileName(a) == FileName(b) else a == b
  {
    if prefix.Some? {
      var directory := Join(prefix.value, "");
      assert forall name :: Join(prefix.value, name) == directory + name;
      assert (directory + FileName(a))[|directory|..] == FileName(a);
      assert (directory + FileName(b))[|directory|..] == FileName(b);
    }
  }

  /** What one glob entry turns out to be. */
  datatype Entry = Unreadable | Match(path: Path, isSocket: bool)

  /** What one watch pattern expands to. */
  datatype Expansion = InvalidPattern | Entries(entries: seq<Entry>)

  predicate Usable(e: Entry) {
    e.Match? && e.isSocket && ByteLength(e.path) <= MAX_UNIX_SOCKET_PATH
  }

  /** A path is current when some pattern's expansion has a usable entry for it. */
  ghost predicate IsCurrent(expansions: seq<Expansion>, path: Path) {
    exists x, e :: x in expansions && x.Entries? && e in x.entries && Usable(e) && e.path == path
  }

  /** Put differently: some pattern found it as a socket, and in UTF-8 it has at most 108 bytes. */
  lemma CurrentIff(expansions: seq<Expansion>, path: Path)
    ensures IsCurrent(expansions, path)
       <==> |Utf8.EncodeText(Scalars(path))| <= 108
            && exists x :: x in expansions && x.Entries? && Match(path, true) in x.entries
  {
    ByteLengthIsEncodedLength(path);
    if IsCurrent(expansions, path) {
      var x, e :| x in expansions && x.Entries? && e in x.entries && Usable(e) && e.path == path;
      assert e == Match(path, true);
    }
    if x :| x in expansions && x.Entries? && Match(path, true) in x.entries && ByteLength(path) <= 108 {
      assert Usable(Match(path, true));
    }
  }

  type Known = map<Path, Info>

  /** What the scanner keeps true between scans: entries are filed under their path, with ids that
      are distinct and below `nextId`, and there are at most `max` of them. */
  ghost predicate ScannerOk(known: Known, nextId: SocketId, max: nat) {
    && (forall p | p in known :: known[p].path == p && known[p].id < nextId)
    && (forall p, q | p in known && q in known && known[p].id == known[q].id :: p == q)
    && |known| <= max
  }

  /** The infos of a list are filed under distinct paths. */
  predicate DistinctPaths(infos: seq<Info>) {
    forall i, j | 0 <= i < j < |infos| :: infos[i].path != infos[j].path
  }

  ghost predicate Lists(infos: seq<Info>, known: Known) {
    && DistinctPaths(infos)
    && (forall info | info in infos :: info.path in known && known[info.path] == info)
    && (forall p | p in known :: known[p] in infos)
  }

  /** `m` agrees with `m'` wherever `m` is defined. */
  ghost predicate Within(m: Known, m': Known) {
    forall p | p in m :: p in m' && m'[p] == m[p]
  }

  /** What a scan that sees the paths `current` does: the known sockets that are gone are removed and
      no others, survivors keep their entries, the new ones are current sockets not known before with
      ids never given out before, and they are as many as the limit allows. */
  ghost predicate IsScan(known: Known, nextId: SocketId, max: nat, current: set<Path>,
                         known': Known, nextId': SocketId, newlyFound: seq<Info>, removed: seq<Info>)
  {
    && Lists(removed, known - current)
    && Within(known - (known.Keys - current), known')
    && known'.Keys <= current
    && Lists(newlyFound, known' - known.Keys)
    && nextId <= nextId' && (forall info | info in newlyFound :: nextId <= info.id < nextId')
    && ScannerOk(known', nextId', max)
    && (known'.Keys == current || |known'| == max)
  }

  class SocketScanner {
    const containerPathPrefix: Option<Path>
    const maxSocketForwards: nat
    var known: Known
    var nextId: SocketId

    ghost predicate Valid() reads this { ScannerOk(known, nextId, maxSocketForwards) }

    constructor (containerPathPrefix: Option<Path>, maxSocketForwards: nat)
      ensures Valid() && known == map[] && this.maxSocketForwards == maxSocketForwards
      ensures this.containerPathPrefix == containerPathPrefix
    {
      this.containerPathPrefix := containerPathPrefix;
      this.maxSocketForwards := maxSocketForwards;
      known, nextId := map[], 0;
    }

    /** The sockets the patterns find. */
    method FindCurrent(expansions: seq<Expansion>) returns (current: set<Path>)
      ensures forall p :: p in current <==> IsCurrent(expansions, p)
    {
      current := {};
      for i := 0 to |expansions|
        invariant forall p :: p in current <==> IsCurrent(expansions[..i], p)
      {
        ghost var before := current;
        if expansions[i].Entries? {
          var entries := expansions[i].entries;
          for j := 0 to |entries|
            invariant forall p :: p in current <==> p in before || IsCurrent([Entries(entries[..j])], p)
          {
            ghost var seen := current;
            if Usable(entries[j]) {
              current := current + {entries[j].path};
            }
            EntryAdds(entries, j);
          }
          assert entries[..|entries|] == entries;
        }
        ExpansionAdds(expansions, i);
      }
      assert expansions[..|expansions|] == expansions;
    }

    method Scan(expansions: seq<Expansion>)
      returns (newlyFound: seq<Info>, removed: seq<Info>, ghost current: set<Path>)
      requires Valid()
      modifies this`known, this`nextId
      ensures Valid()
      ensures forall p :: p in current <==> IsCurrent(expansions, p)
      ensures IsScan(old(known), old(nextId), maxSocketForwards, current, known, nextId, newlyFound, removed)
      ensures forall info | info in newlyFound :: info.target == ContainerPath(containerPathPrefix, info.path)
    {
      hide ScannerOk, Lists, Within, IsCurrent, ContainerPath;
      var currentPaths := FindCurrent(expansions);
      current := currentPaths;
      ghost var before := known;
      removed := RemoveMissing(currentPaths);
      ghost var kept := known;
      newlyFound := AddNew(currentPaths);
      NewIsNotBefore(before, kept, known, current);
    }

    method RemoveMissing(currentPaths: set<Path>) returns (removed: seq<Info>)
      requires Valid()
      modifies this`known
      ensures Valid()
      ensures known == old(known) - (old(known).Keys - currentPaths) && Lists(removed, old(known) - currentPaths)
    {
      hide ScannerOk, Lists, Within, IsSplit;
      ghost var before, gone := known, map[];
      SplitNone(before);
      var missing := known.Keys - currentPaths;
      removed := [];
      EmptyIsListed();
      while missing != {}
        invariant missing == known.Keys - currentPaths && IsSplit(before, known, gone) && gone.Keys !! currentPaths
        invariant Lists(removed, gone) && Valid()
        decreases missing
      {
        var path :| path in missing;
        var info := known[path];
        FiledByPath(known, path, nextId, maxSocketForwards);
        FewerIsOk(known, path, nextId, maxSocketForwards);
        SplitMore(before, known, gone, path);
        ListsMore(removed, gone, info);
        removed := removed + [info];
        gone := gone[path := info];
        known, missing := known - {path}, missing - {path};
      }
      assert forall p | p in known.Keys :: p !in missing;
      SplitEnds(before, known, gone, currentPaths);
    }

    method AddNew(currentPaths: set<Path>) returns (newlyFound: seq<Info>)
      requires Valid() && known.Keys <= currentPaths
      modifies this`known, this`nextId
      ensures Valid() && known.Keys <= currentPaths && Within(old(known), known)
      ensures Lists(newlyFound, known - old(known).Keys)
      ensures old(nextId) <= nextId && forall info | info in newlyFound :: old(nextId) <= info.id < nextId
      ensures forall info | info in newlyFound :: info.target == ContainerPath(containerPathPrefix, info.path)
      ensures known.Keys == currentPaths || |known| == maxSocketForwards
    {
      hide ScannerOk, Lists, Within, IsSplit, ContainerPath;
      ghost var before, added := known, map[];
      SplitNone(before);
      var remaining := currentPaths;
      newlyFound := [];
      EmptyIsListed();
      while remaining != {}
        invariant remaining <= currentPaths && known.Keys <= currentPaths && currentPaths - remaining <= known.Keys
        invariant Valid() && old(nextId) <= nextId
        invariant IsSplit(known, before, added) && Lists(newlyFound, added)
        invariant forall info | info in newlyFound :: old(nextId) <= info.id < nextId
        invariant forall info | info in newlyFound :: info.target == ContainerPath(containerPathPrefix, info.path)
        decreases remaining
      {
        var path :| path in remaining;
        if path !in known {
          if |known| >= maxSocketForwards {
            break;
          }
          var info := Info(nextId, path, ContainerPath(containerPathPrefix, path));
          OneMoreIsOk(known, info, nextId, maxSocketForwards);
          SplitGrows(known, before, added, info);
          ListsMore(newlyFound, added, info);
          newlyFound := newlyFound + [info];
          added := added[path := info];
          known, nextId := known[path := info], nextId + 1;
        }
        remaining := remaining - {path};
      }
      SplitIsDifference(known, before, added);
      SubsetCount(known.Keys, currentPaths);
      WithinLimit(known, nextId, maxSocketForwards);
      assert |known| < maxSocketForwards ==> known.Keys == currentPaths;
    }
  }

  /** `whole` is split into two parts. */
  ghost predicate IsSplit(whole: Known, part: Known, other: Known) {
    && whole.Keys == part.Keys + other.Keys && part.Keys !! other.Keys
    && Within(part, whole) && Within(other, whole)
  }

  lemma NewIsNotBefore(before: Known, kept: Known, known: Known, current: set<Path>)
    requires kept == before - (before.Keys - current) && known.Keys <= current
    ensures known - before.Keys == known - kept.Keys
  {
    forall p | p in known ensures p in before <==> p in kept {}
  }

  lemma SplitNone(whole: Known)
    ensures IsSplit(whole, whole, map[])
  {
  }

  lemma SplitMore(whole: Known, part: Known, other: Known, p: Path)
    requires IsSplit(whole, part, other) && p in part
    ensures p !in other
    ensures IsSplit(whole, part - {p}, other[p := part[p]])
  {
  }

  lemma SplitGrows(whole: Known, part: Known, other: Known, info: Info)
    requires IsSplit(whole, part, other) && info.path !in whole
    ensures info.path !in other
    ensures IsSplit(whole[info.path := info], part, other[info.path := info])
  {
  }

  lemma SplitEnds(whole: Known, part: Known, other: Known, current: set<Path>)
    requires IsSplit(whole, part, other) && part.Keys <= current && other.Keys !! current
    ensures other == whole - current && part == whole - (whole.Keys - current)
  {
    forall p | p in whole ensures p in other <==> p !in current {}
  }

  lemma SplitIsDifference(whole: Known, part: Known, other: Known)
    requires IsSplit(whole, part, other)
    ensures other == whole - part.Keys && Within(part, whole)
  {
  }

  lemma FiledByPath(known: Known, path: Path, nextId: SocketId, max: nat)
    requires ScannerOk(known, nextId, max) && path in known
    ensures known[path].path == path
  {
  }

  lemma EmptyIsListed()
    ensures Lists([], map[])
  {
  }

  lemma ListsMore(infos: seq<Info>, known: Known, info: Info)
    requires Lists(infos, known) && info.path !in known
    ensures Lists(infos + [info], known[info.path := info])
  {
    var known' := known[info.path := info];
    forall p | p in known' ensures known'[p] in infos + [info] {
      assert p in known ==> known[p] in infos;
    }
  }

  lemma FewerIsOk(known: Known, path: Path, nextId: SocketId, max: nat)
    requires ScannerOk(known, nextId, max)
    ensures ScannerOk(known - {path}, nextId, max)
  {
    SubsetCount((known - {path}).Keys, known.Keys);
  }

  lemma OneMoreIsOk(known: Known, info: Info, nextId: SocketId, max: nat)
    requires ScannerOk(known, nextId, max) && info.path !in known && |known| < max && info.id == nextId
    ensures ScannerOk(known[info.path := info], nextId + 1, max)
  {
  }

  lemma WithinLimit(known: Known, nextId: SocketId, max: nat)
    requires ScannerOk(known, nextId, max)
    ensures |known.Keys| == |known| <= max
  {
  }

  lemma EntryAdds(entries: seq<Entry>, j: nat)
    requires j < |entries|
    ensures forall p ::
      IsCurrent([Entries(entries[..j + 1])], p)
      <==> (IsCurrent([Entries(entries[..j])], p) || (entries[j].Match? && Usable(entries[j]) && entries[j].path == p))
  {
    hide Usable;
    assert entries[..j + 1] == entries[..j] + [entries[j]];
    forall p
      ensures IsCurrent([Entries(entries[..j + 1])], p)
         <==> IsCurrent([Entries(entries[..j])], p) || (entries[j].Match? && Usable(entries[j]) && entries[j].path == p)
    {
      EntryInOne(entries[..j + 1], p);
      EntryInOne(entries[..j], p);
    }
  }

  lemma EntryInOne(entries: seq<Entry>, p: Path)
    ensures IsCurrent([Entries(entries)], p) <==> exists e :: e in entries && e.Match? && Usable(e) && e.path == p
  {
    hide ByteLength;
    if IsCurrent([Entries(entries)], p) {
      var x, e :| x in [Entries(entries)] && x.Entries? && e in x.entries && Usable(e) && e.path == p;
      assert e in entries;
    }
    if e :| e in entries && e.Match? && Usable(e) && e.path == p {
      var x := Entries(entries);
      assert x in [x] && x.Entries? && e in x.entries;
    }
  }

  lemma ExpansionAdds(expansions: seq<Expansion>, i: nat)
    requires i < |expansions|
    ensures forall p ::
      IsCurrent(expansions[..i + 1], p) <==> IsCurrent(expansions[..i], p) || IsCurrent([expansions[i]], p)
  {
    hide Usable;
    assert expansions[..i + 1] == expansions[..i] + [expansions[i]];
    assert expansions[i] in [expansions[i]];
  }
}
