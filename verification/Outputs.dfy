/** Collecting a job's outputs: each top-level match is attempted once, and announced when all its files are up. */
module Outputs {
  import opened Options
  import Keys
  import Text

  // ---------------------------------------------------------------------
  // Globs
  // ---------------------------------------------------------------------

  const WILDCARDS := "*?["

  /** The number of characters before the first wildcard. */
  function ScanEnd(glob: string): (n: nat)
    ensures n <= |glob|
    ensures forall i :: 0 <= i < n ==> glob[i] !in WILDCARDS
    ensures n < |glob| ==> glob[n] in WILDCARDS
  {
    if glob == "" || glob[0] in WILDCARDS then 0 else 1 + ScanEnd(glob[1..])
  }

  /** The number of characters up to and including the last separator. */
  function AfterLastSlash(s: string): (n: nat)
    ensures n <= |s|
    ensures n > 0 ==> s[n - 1] == '/'
    ensures forall i :: n <= i < |s| ==> s[i] != '/'
  {
    if s == "" then 0 else if s[|s| - 1] == '/' then |s| else AfterLastSlash(s[..|s| - 1])
  }

  /** The wildcard-free base of a glob and the pattern that follows. */
  function SplitGlob(glob: string): (string, string) {
    var cut := AfterLastSlash(glob[..ScanEnd(glob)]);
    (glob[..cut], glob[cut..])
  }

  /** The base has no wildcard and ends in a separator or is empty; no separator stands before the pattern's first wildcard. */
  lemma SplitGlobParts(glob: string, base: string, pattern: string)
    requires SplitGlob(glob) == (base, pattern)
    ensures glob == base + pattern
    ensures forall i :: 0 <= i < |base| ==> base[i] !in "*?["
    ensures base == "" || base[|base| - 1] == '/'
    ensures forall i :: 0 <= i < |pattern| && pattern[i] == '/' ==> exists w :: 0 <= w < i && pattern[w] in "*?["
  {
    var end := ScanEnd(glob);
    var cut := AfterLastSlash(glob[..end]);
    forall i | 0 <= i < |pattern| && pattern[i] == '/'
      ensures exists w :: 0 <= w < i && pattern[w] in WILDCARDS
    {
      assert forall k :: cut <= k < end ==> glob[k] == glob[..end][k] != '/';
      assert pattern[i] == glob[cut + i] && cut + i >= end;
      assert pattern[end - cut] == glob[end] && glob[end] in WILDCARDS && '/' !in WILDCARDS;
    }
  }

  /** `*` stands for any run of characters; a pattern without it matches itself. */
  predicate MatchesPattern(pattern: string, name: string) {
    var halves := Text.SplitOnce(pattern, '*');
    if halves.None? then pattern == name
    else
      && |name| >= |halves.value.0| + |halves.value.1|
      && halves.value.0 <= name
      && Text.StripSuffix(halves.value.1, name).Some?
  }

  /** A pattern without a star matches itself alone. */
  lemma PlainMatches(pattern: string, name: string)
    requires '*' !in pattern
    ensures MatchesPattern(pattern, name) <==> name == pattern
  {
  }

  /** A pattern with a star matches exactly the names that put something in its place. */
  lemma StarMatches(before: string, after: string, name: string)
    requires '*' !in before
    ensures MatchesPattern(before + "*" + after, name) <==> exists run :: name == before + run + after
  {
    Text.SplitOnceAt(before, '*', after);
    assert before + "*" + after == before + ['*'] + after;
    if MatchesPattern(before + "*" + after, name) {
      var run := name[|before|..|name| - |after|];
      assert name == before + run + after;
    }
    if run :| name == before + run + after {
      assert name == (before + run) + after;
      Text.StripSuffixOf(before + run, after);
      assert before <= name;
    }
  }

  // ---------------------------------------------------------------------
  // The file tree
  // ---------------------------------------------------------------------

  datatype Tree = File(path: string) | Dir(path: string, children: seq<Tree>)

  function FilesOf(t: Tree): set<string>
    decreases t, 0
  {
    match t
    case File(path) => {path}
    case Dir(_, children) => FilesOfAll(children)
  }

  function FilesOfAll(ts: seq<Tree>): set<string>
    decreases ts
  {
    if ts == [] then {} else FilesOf(ts[0]) + FilesOfAll(ts[1..])
  }

  /** A tree's files: a file itself, and those of a directory's children. */
  lemma {:induction false} FilesOfTree(path: string, children: seq<Tree>, f: string)
    ensures FilesOf(File(path)) == {path}
    ensures f in FilesOf(Dir(path, children)) <==> exists i :: 0 <= i < |children| && f in FilesOf(children[i])
  {
    if children != [] {
      FilesOfTree(path, children[1..], f);
      assert FilesOf(Dir(path, children[1..])) == FilesOfAll(children[1..]);
      assert forall i :: 0 < i < |children| ==> children[i] == children[1..][i - 1];
    }
  }

  function Size(t: Tree): nat
    decreases t, 0
  {
    match t
    case File(_) => 1
    case Dir(_, children) => 1 + SizeAll(children)
  }

  function SizeAll(ts: seq<Tree>): nat
    decreases ts
  {
    if ts == [] then 0 else Size(ts[0]) + SizeAll(ts[1..])
  }

  lemma {:induction false} JoinAll(ts: seq<Tree>, more: seq<Tree>)
    ensures FilesOfAll(ts + more) == FilesOfAll(ts) + FilesOfAll(more)
    ensures SizeAll(ts + more) == SizeAll(ts) + SizeAll(more)
  {
    if ts == [] {
      assert ts + more == more;
    } else {
      JoinAll(ts[1..], more);
      assert (ts + more)[1..] == ts[1..] + more;
    }
  }

  /** Every file at or under a path, sorted: a walk that keeps the paths still to visit on a stack. */
  method FilesUnder(root: Tree) returns (files: seq<string>)
    ensures Text.Ascending(files)
    ensures forall f :: f in files <==> f in FilesOf(root)
  {
    var found: seq<string> := [];
    var stack := [root];
    JoinAll([root], []);
    assert FilesOfAll([root]) == FilesOf(root) + FilesOfAll([root][1..]);
    while stack != []
      invariant forall f :: f in FilesOf(root) <==> f in found || f in FilesOfAll(stack)
      decreases SizeAll(stack)
    {
      var top := stack[|stack| - 1];
      var rest := stack[..|stack| - 1];
      assert stack == rest + [top];
      JoinAll(rest, [top]);
      assert [top][1..] == [];
      assert FilesOfAll([top]) == FilesOf(top) && SizeAll([top]) == Size(top);
      match top {
        case Dir(_, children) =>
          JoinAll(rest, children);
          stack := rest + children;
        case File(path) =>
          found := found + [path];
          stack := rest;
      }
    }
    files := Text.InsertAll([], found);
  }

  // ---------------------------------------------------------------------
  // The collector
  // ---------------------------------------------------------------------

  /** A top-level entry under the rule's base: paths in its tree are relative to the base; `names` are a directory's own entries. */
  datatype Entry = Entry(name: string, tree: Tree, names: set<string>)

  /** One attempt at a match: whether its marker was there, its files, the uploads that succeeded, and whether it was announced. */
  datatype Attempt = Attempt(name: string, ready: bool, files: seq<string>, uploaded: seq<string>, announced: bool)

  predicate MarkerPresent(marker: Option<string>, e: Entry) {
    marker.Some? && e.tree.Dir? ==> marker.value in e.names
  }

  /** Not collected before, of a name the pattern matches, and with its marker. */
  predicate ReadyWith(pattern: string, marker: Option<string>, collected: set<string>, e: Entry) {
    e.name !in collected && MatchesPattern(pattern, e.name) && MarkerPresent(marker, e)
  }

  /** Some entry of that name is ready: it matches, was not collected before, and is a file or holds the marker, if one is asked for. */
  predicate Wanted(entries: seq<Entry>, name: string, pattern: string, marker: Option<string>, collected: set<string>) {
    exists e :: e in entries && e.name == name && name !in collected && MatchesPattern(pattern, name)
                && (marker == None || e.tree.File? || marker.value in e.names)
  }

  predicate SomeReady(entries: seq<Entry>, name: string, pattern: string, marker: Option<string>, collected: set<string>) {
    exists e :: e in entries && e.name == name && ReadyWith(pattern, marker, collected, e)
  }

  lemma WantedIsReady(entries: seq<Entry>, pattern: string, marker: Option<string>, collected: set<string>)
    ensures forall name :: SomeReady(entries, name, pattern, marker, collected) <==> Wanted(entries, name, pattern, marker, collected)
  {
    forall name
      ensures SomeReady(entries, name, pattern, marker, collected) <==> Wanted(entries, name, pattern, marker, collected)
    {
    }
  }

  /** Matches are announced exactly when every file of theirs was uploaded, under the rule's prefix. */
  predicate AttemptOk(prefix: string, pattern: string, a: Attempt) {
    && a.ready && MatchesPattern(pattern, a.name)
    && |a.uploaded| <= |a.files| && (forall f :: f in a.files ==> Under(a.name, f))
    && (forall i :: 0 <= i < |a.uploaded| ==> a.uploaded[i] == Keys.UploadKey(prefix, a.files[i]))
    && (a.announced <==> |a.uploaded| == |a.files|)
  }

  predicate DistinctNames(attempts: seq<Attempt>) {
    forall i, j :: 0 <= i < j < |attempts| ==> attempts[i].name != attempts[j].name
  }

  /** A path at a top-level entry, or under it. */
  predicate Under(name: string, path: string) {
    path == name || (name + "/") <= path
  }

  predicate Rooted(e: Entry) {
    forall f :: f in FilesOf(e.tree) ==> Under(e.name, f)
  }

  /** A listing names each entry once, with the paths below it. */
  predicate Listing(entries: seq<Entry>) {
    && (forall i, j :: 0 <= i < j < |entries| ==> entries[i].name != entries[j].name)
    && (forall e :: e in entries ==> Rooted(e))
  }

  function Find(entries: seq<Entry>, name: string): (e: Entry)
    requires exists e :: e in entries && e.name == name
    ensures e in entries && e.name == name
  {
    if entries[0].name == name then entries[0] else
      assert entries == [entries[0]] + entries[1..];
      Find(entries[1..], name)
  }

  lemma OneEntry(entries: seq<Entry>, e: Entry, other: Entry)
    requires Listing(entries) && e in entries && other in entries && e.name == other.name
    ensures e == other
  {
  }

  class OutputCollector {
    const pattern: string
    const prefix: string
    const marker: Option<string>
    var collected: set<string>
    var artifacts: seq<string>       // uris announced
    ghost var attempts: seq<Attempt>

    constructor (pattern: string, prefix: string, marker: Option<string>)
      ensures Valid() && attempts == [] && this.pattern == pattern && this.prefix == prefix && this.marker == marker
    {
      this.pattern, this.prefix, this.marker := pattern, prefix, marker;
      collected, artifacts, attempts := {}, [], [];
    }

    /** Every attempt was made on a ready match, no match twice; an artifact is announced exactly when all its files went up. */
    ghost predicate Valid()
      reads this
    {
      && DistinctNames(attempts)
      && (forall name :: name in collected <==> exists a :: a in attempts && a.name == name)
      && (forall a :: a in attempts ==> AttemptOk(prefix, pattern, a))
      && (forall uri :: uri in artifacts <==> exists a :: a in attempts && a.announced && uri == prefix + "/" + a.name)
    }

    predicate Ready(e: Entry)
      reads this
    {
      ReadyWith(pattern, marker, collected, e)
    }

    /** The matches to collect now, sorted by name. */
    method Pending(entries: seq<Entry>) returns (names: seq<string>)
      ensures Text.Ascending(names)
      ensures forall name :: name in names <==> Wanted(entries, name, pattern, marker, collected)
    {
      var ready: seq<string> := [];
      var i := 0;
      while i < |entries|
        invariant 0 <= i <= |entries|
        invariant forall name :: name in ready <==> SomeReady(entries[..i], name, pattern, marker, collected)
      {
        assert entries[..i + 1] == entries[..i] + [entries[i]];
        if Ready(entries[i]) {
          ready := ready + [entries[i].name];
        }
        i := i + 1;
      }
      assert entries[..i] == entries;
      WantedIsReady(entries, pattern, marker, collected);
      names := Text.InsertAll([], ready);
    }

    /** Upload every file of a match, stopping at the first that fails. */
    method UploadMatch(e: Entry, uploads: string -> bool) returns (uploaded: bool, files: seq<string>, keys: seq<string>)
      ensures Text.Ascending(files) && forall f :: f in files <==> f in FilesOf(e.tree)
      ensures |keys| <= |files| && forall i :: 0 <= i < |keys| ==> keys[i] == Keys.UploadKey(prefix, files[i]) && uploads(keys[i])
      ensures uploaded <==> |keys| == |files|
      ensures !uploaded ==> !uploads(Keys.UploadKey(prefix, files[|keys|]))
    {
      files := FilesUnder(e.tree);
      keys := [];
      while |keys| < |files|
        invariant |keys| <= |files|
        invariant forall i :: 0 <= i < |keys| ==> keys[i] == Keys.UploadKey(prefix, files[i]) && uploads(keys[i])
        decreases |files| - |keys|
      {
        var key := Keys.UploadKey(prefix, files[|keys|]);
        if !uploads(key) {
          return false, files, keys;
        }
        keys := keys + [key];
      }
      uploaded := true;
    }

    /** One attempt: mark the match collected whatever comes of it, and announce it if all its files went up. */
    method CollectOne(e: Entry, uploads: string -> bool)
      requires Valid() && Ready(e) && Rooted(e)
      modifies this
      ensures Valid() && collected == old(collected) + {e.name}
      ensures |attempts| == |old(attempts)| + 1 && attempts[..|old(attempts)|] == old(attempts)
      ensures var a := attempts[|old(attempts)|];
              && a.name == e.name && (forall f :: f in a.files <==> f in FilesOf(e.tree))
              && (a.announced <==> forall f :: f in FilesOf(e.tree) ==> uploads(prefix + "/" + f))
              && artifacts == old(artifacts) + if a.announced then [prefix + "/" + e.name] else []
    {
      var uploaded, files, keys := UploadMatch(e, uploads);
      ghost var a := Attempt(e.name, MarkerPresent(marker, e), files, keys, uploaded);
      ghost var before := attempts;
      collected := collected + {e.name};
      if uploaded {
        artifacts := artifacts + [prefix + "/" + e.name];
      }
      attempts := attempts + [a];
      assert forall b :: b in attempts <==> b in before || b == a;
      assert DistinctNames(attempts) by {
        forall i | 0 <= i < |before|
          ensures before[i].name != e.name
        {
          assert before[i] in before;
        }
      }
    }

    /** One scan: every ready match of the listing is attempted, in name order, and nothing else is. */
    method Collect(entries: seq<Entry>, uploads: string -> bool)
      requires Valid() && Listing(entries)
      modifies this
      ensures Valid() && old(attempts) <= attempts
      ensures forall name :: name in collected <==>
                name in old(collected) || Wanted(entries, name, pattern, marker, old(collected))
    {
      var names := Pending(entries);
      WantedIsReady(entries, pattern, marker, old(collected));
      var i := 0;
      while i < |names|
        invariant 0 <= i <= |names| && Valid() && old(attempts) <= attempts
        invariant forall name :: name in names ==> SomeReady(entries, name, pattern, marker, old(collected))
        invariant collected == old(collected) + set n | n in names[..i]
      {
        assert names[i] in names && SomeReady(entries, names[i], pattern, marker, old(collected));
        ghost var wanted :| wanted in entries && wanted.name == names[i] && ReadyWith(pattern, marker, old(collected), wanted);
        var e := Find(entries, names[i]);
        OneEntry(entries, e, wanted);
        NotYet(names, i);
        CollectOne(e, uploads);
        assert names[..i + 1] == names[..i] + [names[i]];
        i := i + 1;
      }
      assert names[..i] == names;
    }
  }

  lemma NotYet(names: seq<string>, i: nat)
    requires Text.Ascending(names) && i < |names|
    ensures names[i] !in names[..i]
  {
    forall j | 0 <= j < i
      ensures names[j] != names[i]
    {
      Text.LessTotal(names[j], names[i]);
    }
  }

  /**
   * What a train job uploads, over any scans: each file of a step directory to the place the checkpoint layout gives it,
   * and every file to a key that its own run's grant covers, exactly when the file's path is safe, and no other
   * slash-free run's grant does.
   */
  lemma CheckpointUploads(c: OutputCollector, run: string, a: Attempt, i: nat, step: nat, g: Keys.Grant)
    requires c.Valid() && c.prefix == Keys.JobPrefix(run) && a in c.attempts && i < |a.uploaded|
    requires '/' !in run && '/' !in g.run
    ensures a.name == Keys.StepName(step) && a.files[i] != a.name ==>
              exists file :: a.files[i] == a.name + "/" + file && a.uploaded[i] == Keys.CheckpointFile(run, step, file)
    ensures a.uploaded[i] == "ckpt-hot/" + run + "/" + a.files[i]
    ensures Keys.MayWrite(g, a.uploaded[i]) <==> g.run == run && Keys.SafeSegment(run) && Keys.IsSafeKey(a.files[i])
  {
    var path := a.files[i];
    assert AttemptOk(c.prefix, c.pattern, a) && path in a.files;
    if a.name == Keys.StepName(step) && path != a.name {
      var file := path[|a.name| + 1..];
      assert path == a.name + "/" + file;
      Keys.UploadsMatchLayout(run, step, file);
    }
    assert a.uploaded[i] == Keys.TreeOf(Keys.CKPT_HOT_PREFIX, run) + path;
    if g.run == run {
      Keys.CoversOwn(g, Keys.CKPT_HOT_PREFIX, path);
      Keys.SafeName(run);
    } else {
      Keys.CoversNoOther(g, Keys.CKPT_HOT_PREFIX, run, path);
    }
  }
}
