/** Store keys: the checkpoint layout, the traversal guard, and what a run's upload grant covers. */
module Keys {
  import opened Options
  import Numbers
  import Text

  const CKPT_HOT_PREFIX := "ckpt-hot"
  const CKPT_FINAL_PREFIX := "ckpt-final"
  const RUNS_PREFIX := "runs"
  const CHECKPOINT_DIR_PREFIX := "step_"

  function StepName(step: nat): string {
    CHECKPOINT_DIR_PREFIX + Numbers.Digits(step)
  }

  function CheckpointDir(run: string, step: nat): string {
    CKPT_HOT_PREFIX + "/" + run + "/" + StepName(step)
  }

  function CheckpointFile(run: string, step: nat, filename: string): string {
    CheckpointDir(run, step) + "/" + filename
  }

  /** A path segment that stays where it is. */
  predicate SafeSegment(segment: string) {
    segment != "" && segment != "." && segment != ".."
  }

  /** Neither empty, nor absolute, nor able to climb. */
  predicate IsSafeKey(key: string) {
    && key != "" && !("/" <= key)
    && forall segment :: segment in Text.Split(key, '/') ==> SafeSegment(segment)
  }

  datatype Code = Code(name: string, sha: string)

  datatype Grant = Grant(run: string, code: Code, expires: real)

  function RunPrefixes(run: string): set<string> {
    {RUNS_PREFIX + "/" + run + "/", CKPT_HOT_PREFIX + "/" + run + "/", CKPT_FINAL_PREFIX + "/" + run + "/"}
  }

  predicate MayWrite(g: Grant, key: string) {
    IsSafeKey(key) && exists p :: p in RunPrefixes(g.run) && p <= key
  }

  function CodeUnitDir(code: Code): string {
    "artifacts/code/" + code.name + "/" + code.sha
  }

  predicate MayRead(g: Grant, key: string) {
    IsSafeKey(key) && ((exists p :: p in RunPrefixes(g.run) && p <= key) || (CodeUnitDir(g.code) + "/") <= key)
  }

  // ---------------------------------------------------------------------
  // Safe keys
  // ---------------------------------------------------------------------

  /** The first two tests add nothing to the last. */
  lemma {:induction false} SafeIsSegments(key: string)
    ensures IsSafeKey(key) <==> forall segment :: segment in Text.Split(key, '/') ==> SafeSegment(segment)
  {
    assert key == "" || "/" <= key ==> Text.Split(key, '/')[0] == "";
    assert Text.Split(key, '/')[0] in Text.Split(key, '/');
  }

  /** A key made of two around a separator is safe exactly when both are. */
  lemma SafeJoin(a: string, b: string)
    ensures IsSafeKey(a + "/" + b) <==> IsSafeKey(a) && IsSafeKey(b)
  {
    SafeIsSegments(a);
    SafeIsSegments(b);
    SafeIsSegments(a + "/" + b);
    Text.SplitAtSeparator(a, '/', b);
    assert a + "/" + b == a + ['/'] + b;
    forall segment
      ensures segment in Text.Split(a, '/') + Text.Split(b, '/') <==> segment in Text.Split(a, '/') || segment in Text.Split(b, '/')
    {
    }
  }

  /** A name without separators is safe exactly when it is a safe segment. */
  lemma SafeName(name: string)
    requires '/' !in name
    ensures IsSafeKey(name) <==> SafeSegment(name)
  {
    SafeIsSegments(name);
    Text.NoSeparator(name, '/');
  }

  lemma NotAround(name: string, a: string, b: string)
    requires !IsSafeKey(name)
    ensures !IsSafeKey(name + "/" + b) && !IsSafeKey(a + "/" + name) && !IsSafeKey(a + "/" + name + "/" + b)
  {
    SafeJoin(name, b);
    SafeJoin(a, name);
    SafeJoin(a + "/" + name, b);
  }

  /** No safe key has an empty part, or starts or ends with a separator. */
  lemma NoEmptyPart(a: string, b: string)
    ensures !IsSafeKey("") && !IsSafeKey("/" + b) && !IsSafeKey(a + "/") && !IsSafeKey(a + "//" + b)
  {
    NotAround("", a, b);
    assert "" + "/" + b == "/" + b && a + "/" + "" == a + "/" && a + "/" + "" + "/" + b == a + "//" + b;
  }

  /** No safe key has a part that stays, or one that climbs. */
  lemma NothingClimbs(a: string, b: string)
    ensures !IsSafeKey(".") && !IsSafeKey("./" + b) && !IsSafeKey(a + "/.") && !IsSafeKey(a + "/./" + b)
    ensures !IsSafeKey("..") && !IsSafeKey("../" + b) && !IsSafeKey(a + "/..") && !IsSafeKey(a + "/../" + b)
  {
    SafeName(".");
    SafeName("..");
    NotAround(".", a, b);
    NotAround("..", a, b);
    AroundDots(a, b);
  }

  lemma AroundDots(a: string, b: string)
    ensures "." + "/" + b == "./" + b && a + "/" + "." == a + "/." && a + "/" + "." + "/" + b == a + "/./" + b
    ensures ".." + "/" + b == "../" + b && a + "/" + ".." == a + "/.." && a + "/" + ".." + "/" + b == a + "/../" + b
  {
  }

  /** Any other name without separators is a safe key. */
  lemma NamesAreSafe(name: string)
    requires '/' !in name
    ensures IsSafeKey(name) <==> name != "" && name != "." && name != ".."
  {
    SafeName(name);
  }

  lemma StepIsSafe(step: nat)
    ensures '/' !in StepName(step) && IsSafeKey(StepName(step))
  {
    assert StepName(step)[0] == 's';
    SafeName(StepName(step));
  }

  // ---------------------------------------------------------------------
  // What a grant covers
  // ---------------------------------------------------------------------

  /** A run's tree under one of the top-level prefixes. */
  function TreeOf(top: string, run: string): string {
    top + "/" + run + "/"
  }

  predicate IsTop(top: string) {
    top == RUNS_PREFIX || top == CKPT_HOT_PREFIX || top == CKPT_FINAL_PREFIX
  }

  lemma TopIsName(top: string)
    requires IsTop(top)
    ensures '/' !in top && SafeSegment(top) && top[0] != 'a'
  {
  }

  /** A grant covers a key of its own run's trees exactly when the run and the rest of the key are safe. */
  lemma CoversOwn(g: Grant, top: string, rest: string)
    requires IsTop(top)
    ensures MayWrite(g, TreeOf(top, g.run) + rest) <==> IsSafeKey(g.run) && IsSafeKey(rest)
  {
    var key := TreeOf(top, g.run) + rest;
    TopIsName(top);
    SafeName(top);
    SafeJoin(top, g.run);
    SafeJoin(top + "/" + g.run, rest);
    assert key == (top + "/" + g.run) + "/" + rest;
    assert TreeOf(top, g.run) in RunPrefixes(g.run) && TreeOf(top, g.run) <= key;
  }

  /** The trees a grant writes, by name, and what else it reads. */
  lemma GrantByName(g: Grant, key: string)
    ensures MayWrite(g, key)
       <==> IsSafeKey(key)
            && (("runs/" + g.run + "/") <= key || ("ckpt-hot/" + g.run + "/") <= key || ("ckpt-final/" + g.run + "/") <= key)
    ensures MayRead(g, key)
       <==> MayWrite(g, key) || (IsSafeKey(key) && ("artifacts/code/" + g.code.name + "/" + g.code.sha + "/") <= key)
  {
    assert RUNS_PREFIX + "/" + g.run + "/" == "runs/" + g.run + "/";
    assert CKPT_HOT_PREFIX + "/" + g.run + "/" == "ckpt-hot/" + g.run + "/";
    assert CKPT_FINAL_PREFIX + "/" + g.run + "/" == "ckpt-final/" + g.run + "/";
    assert RunPrefixes(g.run) == {"runs/" + g.run + "/", "ckpt-hot/" + g.run + "/", "ckpt-final/" + g.run + "/"};
    assert CodeUnitDir(g.code) + "/" == "artifacts/code/" + g.code.name + "/" + g.code.sha + "/";
  }

  /** Two trees that share a key are one tree, when the run ids hold no separator. */
  lemma TreesApart(top: string, run: string, rest: string, other: string, run': string)
    requires IsTop(top) && IsTop(other) && '/' !in run && '/' !in run'
    requires TreeOf(other, run') <= TreeOf(top, run) + rest
    ensures top == other && run == run'
  {
    var key := TreeOf(top, run) + rest;
    var tail := key[|TreeOf(other, run')|..];
    assert key == TreeOf(other, run') + tail;
    TopIsName(top);
    TopIsName(other);
    assert key == top + ['/'] + (run + ['/'] + rest);
    assert key == other + ['/'] + (run' + ['/'] + tail);
    Text.SplitOnceAt(top, '/', run + ['/'] + rest);
    Text.SplitOnceAt(other, '/', run' + ['/'] + tail);
    Text.SplitOnceAt(run, '/', rest);
    Text.SplitOnceAt(run', '/', tail);
  }

  /** No other run's grant covers a key of a run's trees, when the run ids hold no separator. */
  lemma CoversNoOther(g: Grant, top: string, run: string, rest: string)
    requires IsTop(top) && '/' !in run && '/' !in g.run && g.run != run
    ensures !MayWrite(g, TreeOf(top, run) + rest)
  {
    if MayWrite(g, TreeOf(top, run) + rest) {
      var p :| p in RunPrefixes(g.run) && p <= TreeOf(top, run) + rest;
      var other := if p == TreeOf(RUNS_PREFIX, g.run) then RUNS_PREFIX
                   else if p == TreeOf(CKPT_HOT_PREFIX, g.run) then CKPT_HOT_PREFIX else CKPT_FINAL_PREFIX;
      TreesApart(top, run, rest, other, g.run);
    }
  }

  /** What a grant covers lies in one of its run's trees. */
  lemma CoveredInTree(g: Grant, key: string) returns (top: string, rest: string)
    requires MayWrite(g, key)
    ensures IsTop(top) && key == TreeOf(top, g.run) + rest && IsSafeKey(g.run) && IsSafeKey(rest)
  {
    var p :| p in RunPrefixes(g.run) && p <= key;
    top := if p == TreeOf(RUNS_PREFIX, g.run) then RUNS_PREFIX
           else if p == TreeOf(CKPT_HOT_PREFIX, g.run) then CKPT_HOT_PREFIX else CKPT_FINAL_PREFIX;
    rest := key[|p|..];
    assert key == p + rest;
    CoversOwn(g, top, rest);
  }

  /** One text is the other followed by a separator and more. */
  predicate Beneath(a: string, b: string) {
    a + "/" <= b
  }

  lemma SharedStart(a: string, x: string, b: string, y: string)
    requires a + ['/'] + x == b + ['/'] + y
    ensures a == b || Beneath(a, b) || Beneath(b, a)
  {
    var s := a + ['/'] + x;
    assert a == s[..|a|] && b == s[..|b|] && s[|a|] == '/' && s[|b|] == '/';
    if |a| < |b| {
      assert a + "/" == s[..|a| + 1] == b[..|a| + 1];
    } else if |b| < |a| {
      assert b + "/" == s[..|b| + 1] == a[..|b| + 1];
    }
  }

  lemma BeneathCovered(g: Grant, h: Grant)
    requires IsSafeKey(g.run) && IsSafeKey(h.run) && (g.run == h.run || Beneath(g.run, h.run))
    ensures exists key :: MayWrite(g, key) && MayWrite(h, key)
  {
    var key := TreeOf(RUNS_PREFIX, h.run) + "f";
    SafeName("f");
    CoversOwn(h, RUNS_PREFIX, "f");
    if g.run != h.run {
      var more := h.run[|g.run| + 1..];
      assert h.run == g.run + "/" + more;
      SafeJoin(g.run, more);
      SafeJoin(more, "f");
      CoversOwn(g, RUNS_PREFIX, more + "/" + "f");
      assert key == TreeOf(RUNS_PREFIX, g.run) + (more + "/" + "f");
    }
    assert MayWrite(g, key) && MayWrite(h, key);
  }

  lemma {:induction false} TreeSplit(top: string, run: string, rest: string)
    requires IsTop(top)
    ensures Text.SplitOnce(TreeOf(top, run) + rest, '/') == Some((top, run + ['/'] + rest))
  {
    TopIsName(top);
    assert TreeOf(top, run) + rest == top + ['/'] + (run + ['/'] + rest);
    Text.SplitOnceAt(top, '/', run + ['/'] + rest);
  }

  lemma SharedIsBeneath(g: Grant, h: Grant, key: string)
    requires MayWrite(g, key) && MayWrite(h, key)
    ensures IsSafeKey(g.run) && IsSafeKey(h.run) && (g.run == h.run || Beneath(g.run, h.run) || Beneath(h.run, g.run))
  {
    var top, rest := CoveredInTree(g, key);
    var other, rest' := CoveredInTree(h, key);
    TreeSplit(top, g.run, rest);
    TreeSplit(other, h.run, rest');
    SharedStart(g.run, rest, h.run, rest');
  }

  /** When two grants share a key, whatever the run ids: when one id, both being safe, is the other or lies beneath it. */
  lemma SeparatorsOverlap(g: Grant, h: Grant)
    ensures (exists key :: MayWrite(g, key) && MayWrite(h, key))
       <==> IsSafeKey(g.run) && IsSafeKey(h.run) && (g.run == h.run || Beneath(g.run, h.run) || Beneath(h.run, g.run))
  {
    if key :| MayWrite(g, key) && MayWrite(h, key) {
      SharedIsBeneath(g, h, key);
    } else if IsSafeKey(g.run) && IsSafeKey(h.run) {
      if g.run == h.run || Beneath(g.run, h.run) {
        BeneathCovered(g, h);
      } else if Beneath(h.run, g.run) {
        BeneathCovered(h, g);
      }
    }
  }

  // ---------------------------------------------------------------------
  // Code units
  // ---------------------------------------------------------------------

  lemma CodeKeyParts(code: Code, rest: string)
    ensures CodeUnitDir(code) + "/" + rest == "artifacts" + ['/'] + ("code" + ['/'] + (code.name + ['/'] + (code.sha + ['/'] + rest)))
  {
    assert "artifacts/code/" == "artifacts" + ['/'] + ("code" + ['/']);
  }

  /** Nobody writes code units. */
  lemma CodeNeverWritten(g: Grant, code: Code, rest: string)
    ensures !MayWrite(g, CodeUnitDir(code) + "/" + rest)
  {
    assert (CodeUnitDir(code) + "/" + rest)[0] == 'a';
    assert forall p :: p in RunPrefixes(g.run) ==> p[0] != 'a';
  }

  predicate IsCode(code: Code) {
    '/' !in code.name && '/' !in code.sha
  }

  /** Two code units that share a key are one. */
  lemma CodeApart(code: Code, rest: string, other: Code, more: string)
    requires IsCode(code) && IsCode(other)
    requires CodeUnitDir(code) + "/" + rest == CodeUnitDir(other) + "/" + more
    ensures code == other
  {
    CodeKeyParts(code, rest);
    CodeKeyParts(other, more);
    Text.SplitOnceAt("artifacts", '/', "code" + ['/'] + (code.name + ['/'] + (code.sha + ['/'] + rest)));
    Text.SplitOnceAt("artifacts", '/', "code" + ['/'] + (other.name + ['/'] + (other.sha + ['/'] + more)));
    Text.SplitOnceAt("code", '/', code.name + ['/'] + (code.sha + ['/'] + rest));
    Text.SplitOnceAt("code", '/', other.name + ['/'] + (other.sha + ['/'] + more));
    Text.SplitOnceAt(code.name, '/', code.sha + ['/'] + rest);
    Text.SplitOnceAt(other.name, '/', other.sha + ['/'] + more);
    Text.SplitOnceAt(code.sha, '/', rest);
    Text.SplitOnceAt(other.sha, '/', more);
  }

  /** A grant reads a code unit's file exactly when the unit is its own, and the key is safe. */
  lemma ReadsOwnCode(g: Grant, code: Code, rest: string)
    requires IsCode(code) && IsCode(g.code)
    ensures MayRead(g, CodeUnitDir(code) + "/" + rest) <==> g.code == code && IsSafeKey(CodeUnitDir(code) + "/" + rest)
  {
    var key := CodeUnitDir(code) + "/" + rest;
    CodeNeverWritten(g, code, rest);
    if (CodeUnitDir(g.code) + "/") <= key {
      var more := key[|CodeUnitDir(g.code) + "/"|..];
      assert key == CodeUnitDir(g.code) + "/" + more;
      CodeApart(code, rest, g.code, more);
    }
  }

  /** In the trees of runs a grant reads what it may write. */
  lemma ReadsAsWrites(g: Grant, top: string, run: string, rest: string)
    requires IsTop(top)
    ensures MayRead(g, TreeOf(top, run) + rest) <==> MayWrite(g, TreeOf(top, run) + rest)
  {
    TopIsName(top);
    assert (TreeOf(top, run) + rest)[0] == top[0] != 'a';
    assert (CodeUnitDir(g.code) + "/")[0] == 'a';
  }

  // ---------------------------------------------------------------------
  // The keys an output rule uploads to
  // ---------------------------------------------------------------------

  /** A train job's key prefix. */
  function JobPrefix(run: string): string {
    CKPT_HOT_PREFIX + "/" + run
  }

  /** The key of a file: the rule's prefix and the file's path under the rule's base. */
  function UploadKey(prefix: string, rel: string): string {
    prefix + "/" + rel
  }

  /** The checkpoint layout by name. */
  lemma {:induction false} LayoutByName(run: string, step: nat, file: string)
    ensures CheckpointFile(run, step, file) == "ckpt-hot/" + run + "/step_" + Numbers.Digits(step) + "/" + file
  {
  }

  /** A step directory's files land where the checkpoint layout puts them. */
  lemma UploadsMatchLayout(run: string, step: nat, file: string)
    ensures UploadKey(JobPrefix(run), StepName(step) + "/" + file) == CheckpointFile(run, step, file)
  {
  }

  /**
   * For a slash-free run id: a step directory's file may be uploaded under the run's grant exactly when the run
   * id and the file's path are safe, and under no other slash-free run's grant.
   */
  lemma UploadsCovered(g: Grant, run: string, step: nat, file: string)
    requires '/' !in run && '/' !in g.run
    ensures MayWrite(g, UploadKey(JobPrefix(run), StepName(step) + "/" + file))
       <==> g.run == run && SafeSegment(run) && IsSafeKey(file)
  {
    var rest := StepName(step) + "/" + file;
    assert UploadKey(JobPrefix(run), rest) == TreeOf(CKPT_HOT_PREFIX, run) + rest;
    if g.run == run {
      CoversOwn(g, CKPT_HOT_PREFIX, rest);
      SafeName(run);
      StepIsSafe(step);
      SafeJoin(StepName(step), file);
    } else {
      CoversNoOther(g, CKPT_HOT_PREFIX, run, rest);
    }
  }

  // ---------------------------------------------------------------------
  // The table of grants
  // ---------------------------------------------------------------------

  class GrantTable {
    var grants: map<string, Grant>
    const ttl: real

    /** The capability a token stands for at time `now`, if any. */
    function At(token: string, now: real): Option<Grant>
      reads this
    {
      if token in grants && now < grants[token].expires then Some(grants[token]) else None
    }

    constructor (ttl: real)
      ensures grants == map[] && this.ttl == ttl
    {
      grants, this.ttl := map[], ttl;
    }

    /** Bind a new token to a run. */
    method Mint(token: string, run: string, code: Code, now: real)
      requires token !in grants
      modifies this
      ensures grants == old(grants)[token := Grant(run, code, now + ttl)]
    {
      grants := grants[token := Grant(run, code, now + ttl)];
    }

    /** The token's grant while it is valid; an expired one is dropped, and no token changes its meaning. */
    method Resolve(token: string, now: real) returns (g: Option<Grant>)
      modifies this
      ensures g == old(At(token, now))
      ensures g.Some? <==> token in old(grants) && now < old(grants)[token].expires
      ensures g.Some? ==> g.value == old(grants)[token]
      ensures forall t, later :: later >= now ==> At(t, later) == old(At(t, later))
      ensures g.None? ==> token !in grants
    {
      if token !in grants {
        return None;
      }
      if now < grants[token].expires {
        return Some(grants[token]);
      }
      grants := grants - {token};
      g := None;
    }

    /** Drop every grant of a run, and no other. */
    method RevokeRun(run: string)
      modifies this
      ensures forall t, now :: At(t, now) == if old(At(t, now)).Some? && old(At(t, now)).value.run == run then None else old(At(t, now))
    {
      grants := map t | t in grants && grants[t].run != run :: grants[t];
    }
  }
}
