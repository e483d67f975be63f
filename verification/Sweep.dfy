/** Sweep fan-out: the cartesian product of a template over its axes, and the inverse read back from a child alone. */
module Sweep {
  import opened Options
  import Text

  datatype Value =
    | Null
    | Bool(flag: bool)
    | Int(number: int)
    | Float(fraction: real)
    | Str(text: string)
    | List(items: seq<Value>)
    | Object(members: map<string, Value>)

  /** A training spec: its seed, its overrides, and the fields no axis reaches. */
  datatype TrainSpec = TrainSpec(seed: Option<int>, overrides: Value, rest: string)

  datatype Axis = Axis(path: string, values: seq<Value>)

  type Assignment = map<string, Value>

  datatype Child = Child(assignment: Assignment, spec: TrainSpec)

  datatype Error = NoAxes | BadPath(path: string) | NoValues(path: string) | TooMany(total: nat) | BadSeed(value: Value) | BadOverrides

  datatype Result<T> = Ok(value: T) | Err(error: Error)

  const AXIS_SEED := "seed"
  const AXIS_OVERRIDES_PREFIX := "overrides."
  const MAX_SWEEP_CHILDREN: nat := 256

  /** Axes as a sorted map lists them. */
  predicate Ordered(axes: seq<Axis>) {
    forall i, j :: 0 <= i < j < |axes| ==> Text.Less(axes[i].path, axes[j].path)
  }

  lemma OrderedDistinct(axes: seq<Axis>)
    requires Ordered(axes)
    ensures forall i, j :: 0 <= i < |axes| && 0 <= j < |axes| && axes[i].path == axes[j].path ==> i == j
  {
    forall i, j | 0 <= i < j < |axes|
      ensures axes[i].path != axes[j].path
    {
      Text.LessTotal(axes[i].path, axes[j].path);
    }
  }

  function OverrideKey(path: string): Option<string> {
    Text.StripPrefix(AXIS_OVERRIDES_PREFIX, path)
  }

  predicate ValidPath(path: string) {
    path == AXIS_SEED || (OverrideKey(path).Some? && OverrideKey(path).value != "")
  }

  function AsI64(value: Value): Option<int> {
    if value.Int? && -0x8000_0000_0000_0000 <= value.number < 0x8000_0000_0000_0000 then Some(value.number) else None
  }

  // ---------------------------------------------------------------------
  // Applying and reading back one axis
  // ---------------------------------------------------------------------

  function Apply(spec: TrainSpec, path: string, value: Value): Result<TrainSpec>
    requires ValidPath(path)
  {
    if path == AXIS_SEED then
      var seed := AsI64(value);
      if seed.Some? then Ok(spec.(seed := seed)) else Err(BadSeed(value))
    else
      var key := OverrideKey(path).value;
      match spec.overrides
      case Null => Ok(spec.(overrides := Object(map[key := value])))
      case Object(members) => Ok(spec.(overrides := Object(members[key := value])))
      case _ => Err(BadOverrides)
  }

  function OverrideOf(spec: TrainSpec, key: string): Option<Value> {
    if spec.overrides.Object? && key in spec.overrides.members then Some(spec.overrides.members[key]) else None
  }

  /** The value a spec carries on an axis path. */
  function ValueAt(spec: TrainSpec, path: string): Option<Value> {
    if path == AXIS_SEED then (if spec.seed.Some? then Some(Int(spec.seed.value)) else None)
    else
      var key := OverrideKey(path);
      if key.Some? then OverrideOf(spec, key.value) else None
  }

  function AssignmentOf(spec: TrainSpec, axes: seq<Axis>): Assignment {
    if axes == [] then map[]
    else
      var last := |axes| - 1;
      var value := ValueAt(spec, axes[last].path);
      if value.Some? then AssignmentOf(spec, axes[..last])[axes[last].path := value.value]
      else AssignmentOf(spec, axes[..last])
  }

  /** The template can take a value on this axis. */
  predicate Takes(template: TrainSpec, axis: Axis, value: Value) {
    if axis.path == AXIS_SEED then AsI64(value).Some? else template.overrides.Null? || template.overrides.Object?
  }

  predicate Expandable(template: TrainSpec, axes: seq<Axis>) {
    && axes != []
    && (forall a :: a in axes ==> ValidPath(a.path) && a.values != [])
    && ProductTo(axes, |axes|) <= MAX_SWEEP_CHILDREN
    && (forall a :: a in axes ==> forall v :: v in a.values ==> Takes(template, a, v))
  }

  /** What a sweep asks of its axes, by name and number: paths, seeds that fit 64 bits, overrides that can hold keys, and no more than 256 children. */
  lemma {:induction false} ExpandableByName(template: TrainSpec, axes: seq<Axis>)
    ensures Expandable(template, axes)
       <==> && axes != [] && ProductTo(axes, |axes|) <= 256
            && forall a :: a in axes ==>
                 && (a.path == "seed" || exists key :: key != "" && a.path == "overrides." + key)
                 && a.values != []
                 && (a.path == "seed" ==> forall v :: v in a.values ==>
                       v.Int? && -9_223_372_036_854_775_808 <= v.number <= 9_223_372_036_854_775_807)
                 && (a.path != "seed" ==> template.overrides == Null || template.overrides.Object?)
  {
    forall a | a in axes
      ensures ValidPath(a.path) <==> a.path == "seed" || exists key :: key != "" && a.path == "overrides." + key
    {
      PathByName(a.path);
    }
    forall a | a in axes && a.values != []
      ensures a.values[0] in a.values
    {
    }
  }

  lemma PathByName(path: string)
    ensures ValidPath(path) <==> path == "seed" || exists key :: key != "" && path == "overrides." + key
    ensures forall key :: OverrideKey("overrides." + key) == Some(key)
  {
    forall key
      ensures OverrideKey("overrides." + key) == Some(key)
    {
      Text.StripPrefixOf("overrides.", key);
    }
  }

  // ---------------------------------------------------------------------
  // The order of the children
  // ---------------------------------------------------------------------

  function ProductTo(axes: seq<Axis>, k: nat): nat
    requires k <= |axes|
  {
    if k == 0 then 1 else ProductTo(axes, k - 1) * |axes[k - 1].values|
  }

  /** One value index per axis. */
  predicate IsChoice(axes: seq<Axis>, choice: seq<nat>) {
    |choice| <= |axes| && forall j :: 0 <= j < |choice| ==> choice[j] < |axes[j].values|
  }

  /** The choice at a position: the last axis varies fastest. */
  function ChoiceAt(axes: seq<Axis>, k: nat, i: nat): (choice: seq<nat>)
    requires k <= |axes| && i < ProductTo(axes, k)
    ensures |choice| == k && IsChoice(axes, choice)
  {
    if k == 0 then []
    else
      var n := |axes[k - 1].values|;
      Quotient(i, n, ProductTo(axes, k - 1));
      ChoiceAt(axes, k - 1, i / n) + [i % n]
  }

  lemma Cancel(a: int, b: int, n: nat)
    requires a * n < b * n
    ensures n > 0 && a < b
  {
  }

  lemma Quotient(i: nat, n: nat, m: nat)
    requires i < m * n
    ensures n > 0 && i / n < m && i == i / n * n + i % n
  {
    Cancel(0, m, n);
    Cancel(i / n, m, n);
  }

  lemma Recompose(q: nat, n: nat, r: nat)
    requires r < n
    ensures (q * n + r) / n == q && (q * n + r) % n == r
  {
    var x := q * n + r;
    assert x == x / n * n + x % n;
    assert (x / n) * n < (q + 1) * n && q * n < (x / n + 1) * n;
    Cancel(x / n, q + 1, n);
    Cancel(q, x / n + 1, n);
  }

  lemma Bounded(q: nat, m: nat, n: nat, r: nat)
    requires q < m && r < n
    ensures q * n + r < m * n
  {
    assert (q + 1) * n <= m * n;
  }

  /** One more axis appends one more value index. */
  lemma ChoiceStep(axes: seq<Axis>, k: nat, q: nat, r: nat)
    requires k < |axes| && q < ProductTo(axes, k) && r < |axes[k].values|
    ensures q * |axes[k].values| + r < ProductTo(axes, k + 1)
    ensures ChoiceAt(axes, k + 1, q * |axes[k].values| + r) == ChoiceAt(axes, k, q) + [r]
  {
    Bounded(q, ProductTo(axes, k), |axes[k].values|, r);
    Recompose(q, |axes[k].values|, r);
  }

  /** The position of a choice. */
  function PositionOf(axes: seq<Axis>, choice: seq<nat>): nat
    requires IsChoice(axes, choice)
    decreases |choice|
  {
    if choice == [] then 0
    else
      var k := |choice| - 1;
      PositionOf(axes, choice[..k]) * |axes[k].values| + choice[k]
  }

  /** Positions and choices correspond one to one. */
  lemma {:induction false} ChoiceHasPosition(axes: seq<Axis>, choice: seq<nat>)
    requires IsChoice(axes, choice)
    ensures PositionOf(axes, choice) < ProductTo(axes, |choice|)
    ensures ChoiceAt(axes, |choice|, PositionOf(axes, choice)) == choice
    decreases |choice|
  {
    if choice != [] {
      var k := |choice| - 1;
      ChoiceHasPosition(axes, choice[..k]);
      ChoiceStep(axes, k, PositionOf(axes, choice[..k]), choice[k]);
      assert choice == choice[..k] + [choice[k]];
    }
  }

  lemma {:induction false} PositionHasChoice(axes: seq<Axis>, k: nat, i: nat)
    requires k <= |axes| && i < ProductTo(axes, k)
    ensures PositionOf(axes, ChoiceAt(axes, k, i)) == i
  {
    if k > 0 {
      var n := |axes[k - 1].values|;
      Quotient(i, n, ProductTo(axes, k - 1));
      PositionHasChoice(axes, k - 1, i / n);
      assert ChoiceAt(axes, k, i)[..k - 1] == ChoiceAt(axes, k - 1, i / n);
    }
  }

  /** The assignment a choice stands for. */
  function Chosen(axes: seq<Axis>, choice: seq<nat>): (assignment: Assignment)
    requires IsChoice(axes, choice)
    decreases |choice|
  {
    if choice == [] then map[]
    else
      var k := |choice| - 1;
      Chosen(axes, choice[..k])[axes[k].path := axes[k].values[choice[k]]]
  }

  /** It gives every axis so far the chosen value, and nothing else a value. */
  lemma {:induction false} ChosenValues(axes: seq<Axis>, choice: seq<nat>)
    requires Ordered(axes) && IsChoice(axes, choice)
    ensures forall j :: 0 <= j < |choice| ==>
              axes[j].path in Chosen(axes, choice) && Chosen(axes, choice)[axes[j].path] == axes[j].values[choice[j]]
    ensures forall path :: path in Chosen(axes, choice) ==> exists j :: 0 <= j < |choice| && axes[j].path == path
    decreases |choice|
  {
    if choice != [] {
      ChosenValues(axes, choice[..|choice| - 1]);
      OrderedDistinct(axes);
    }
  }

  // ---------------------------------------------------------------------
  // Applying a whole assignment
  // ---------------------------------------------------------------------

  predicate HasAxis(axes: seq<Axis>, k: nat, path: string)
    requires k <= |axes|
  {
    exists j :: 0 <= j < k && axes[j].path == path
  }

  /** After the first `k` axes: each carries its value, and every field and override key not on one of them is the template's. */
  ghost predicate Carries(template: TrainSpec, spec: TrainSpec, axes: seq<Axis>, k: nat, assignment: Assignment)
    requires k <= |axes|
  {
    && spec.rest == template.rest
    && (forall j :: 0 <= j < k ==> axes[j].path in assignment && ValueAt(spec, axes[j].path) == Some(assignment[axes[j].path]))
    && (!HasAxis(axes, k, AXIS_SEED) ==> spec.seed == template.seed)
    && (forall key :: !HasAxis(axes, k, AXIS_OVERRIDES_PREFIX + key) ==> OverrideOf(spec, key) == OverrideOf(template, key))
    && (spec.overrides == template.overrides || (spec.overrides.Object? && (template.overrides.Null? || template.overrides.Object?)))
  }

  /** Different axis paths reach different places. */
  lemma ApplyTouchesOne(spec: TrainSpec, path: string, value: Value, other: string)
    requires ValidPath(path) && ValidPath(other)
    requires Apply(spec, path, value).Ok?
    ensures ValueAt(Apply(spec, path, value).value, path) == Some(value)
    ensures other != path ==> ValueAt(Apply(spec, path, value).value, other) == ValueAt(spec, other)
  {
    if other != path && OverrideKey(other).Some? && OverrideKey(path).Some? {
      assert OverrideKey(other).value != OverrideKey(path).value;
    }
  }

  lemma ApplyKeepsKeys(spec: TrainSpec, path: string, value: Value, key: string)
    requires ValidPath(path) && Apply(spec, path, value).Ok? && path != AXIS_OVERRIDES_PREFIX + key
    ensures OverrideOf(Apply(spec, path, value).value, key) == OverrideOf(spec, key)
  {
  }

  lemma CarriesStep(template: TrainSpec, spec: TrainSpec, axes: seq<Axis>, k: nat, assignment: Assignment)
    requires Ordered(axes) && k < |axes| && ValidPath(axes[k].path) && axes[k].path in assignment
    requires forall j :: 0 <= j < k ==> ValidPath(axes[j].path)
    requires Carries(template, spec, axes, k, assignment)
    requires Apply(spec, axes[k].path, assignment[axes[k].path]).Ok?
    ensures Carries(template, Apply(spec, axes[k].path, assignment[axes[k].path]).value, axes, k + 1, assignment)
  {
    var path, value := axes[k].path, assignment[axes[k].path];
    var after := Apply(spec, path, value).value;
    OrderedDistinct(axes);
    assert HasAxis(axes, k + 1, path);
    forall p | HasAxis(axes, k, p)
      ensures HasAxis(axes, k + 1, p)
    {
    }
    forall j | 0 <= j < k + 1
      ensures ValueAt(after, axes[j].path) == Some(assignment[axes[j].path])
    {
      ApplyTouchesOne(spec, path, value, axes[j].path);
    }
    forall key | !HasAxis(axes, k + 1, AXIS_OVERRIDES_PREFIX + key)
      ensures OverrideOf(after, key) == OverrideOf(template, key)
    {
      ApplyKeepsKeys(spec, path, value, key);
    }
  }

  lemma {:induction false} ReadsBack(spec: TrainSpec, axes: seq<Axis>, choice: seq<nat>)
    requires IsChoice(axes, choice)
    requires forall j :: 0 <= j < |choice| ==> ValueAt(spec, axes[j].path) == Some(axes[j].values[choice[j]])
    ensures AssignmentOf(spec, axes[..|choice|]) == Chosen(axes, choice)
    decreases |choice|
  {
    if choice != [] {
      var k := |choice| - 1;
      ReadsBack(spec, axes, choice[..k]);
      assert axes[..|choice|][..k] == axes[..k] && axes[..|choice|][k] == axes[k];
    }
  }

  /** The inverse: the assignment of a child made of a choice is read back, exactly, from its spec alone. */
  lemma {:induction false} ChildGivesBack(template: TrainSpec, spec: TrainSpec, axes: seq<Axis>, choice: seq<nat>)
    requires Ordered(axes) && IsChoice(axes, choice) && |choice| == |axes|
    requires Carries(template, spec, axes, |axes|, Chosen(axes, choice))
    ensures AssignmentOf(spec, axes) == Chosen(axes, choice)
  {
    ChosenValues(axes, choice);
    ReadsBack(spec, axes, choice);
    assert axes[..|axes|] == axes;
  }

  // ---------------------------------------------------------------------
  // Expansion
  // ---------------------------------------------------------------------

  /** Axis `i` is the first that is malformed or has no values. */
  predicate FirstBad(axes: seq<Axis>, i: nat, error: Error)
    requires i < |axes|
  {
    && (forall j :: 0 <= j < i ==> ValidPath(axes[j].path) && axes[j].values != [])
    && ((!ValidPath(axes[i].path) && error == BadPath(axes[i].path))
        || (ValidPath(axes[i].path) && axes[i].values == [] && error == NoValues(axes[i].path)))
  }

  method Validate(axes: seq<Axis>) returns (error: Option<Error>)
    ensures error.None? <==> forall a :: a in axes ==> ValidPath(a.path) && a.values != []
    ensures error.Some? ==> exists i :: 0 <= i < |axes| && FirstBad(axes, i, error.value)
  {
    var i := 0;
    while i < |axes|
      invariant 0 <= i <= |axes|
      invariant forall j :: 0 <= j < i ==> ValidPath(axes[j].path) && axes[j].values != []
    {
      assert axes[i] in axes;
      if !ValidPath(axes[i].path) {
        assert FirstBad(axes, i, BadPath(axes[i].path));
        return Some(BadPath(axes[i].path));
      }
      if axes[i].values == [] {
        assert FirstBad(axes, i, NoValues(axes[i].path));
        return Some(NoValues(axes[i].path));
      }
      i := i + 1;
    }
    error := None;
  }

  /** The first combinations over the first `k` axes, in order. */
  predicate Combos(axes: seq<Axis>, k: nat, combos: seq<Assignment>)
    requires k <= |axes|
  {
    |combos| <= ProductTo(axes, k) && forall i :: 0 <= i < |combos| ==> combos[i] == Chosen(axes, ChoiceAt(axes, k, i))
  }

  lemma NextCombo(axes: seq<Axis>, k: nat, combos: seq<Assignment>, next: seq<Assignment>, c: nat, v: nat)
    requires k < |axes| && Combos(axes, k, combos) && c < |combos| && v < |axes[k].values|
    requires Combos(axes, k + 1, next) && |next| == c * |axes[k].values| + v
    ensures Combos(axes, k + 1, next + [combos[c][axes[k].path := axes[k].values[v]]])
  {
    ChoiceStep(axes, k, c, v);
    var choice := ChoiceAt(axes, k + 1, |next|);
    assert choice[..k] == ChoiceAt(axes, k, c);
  }

  /** Every combination so far with every value of one more axis. */
  method Extend(axes: seq<Axis>, k: nat, combos: seq<Assignment>) returns (next: seq<Assignment>)
    requires k < |axes| && Combos(axes, k, combos) && |combos| == ProductTo(axes, k)
    ensures Combos(axes, k + 1, next) && |next| == ProductTo(axes, k + 1)
  {
    var n := |axes[k].values|;
    next := [];
    var c := 0;
    while c < |combos|
      invariant 0 <= c <= |combos| && |next| == c * n && Combos(axes, k + 1, next)
    {
      var v := 0;
      while v < n
        invariant 0 <= v <= n && |next| == c * n + v && Combos(axes, k + 1, next)
      {
        NextCombo(axes, k, combos, next, c, v);
        next := next + [combos[c][axes[k].path := axes[k].values[v]]];
        v := v + 1;
      }
      assert (c + 1) * n == c * n + n;
      c := c + 1;
    }
  }

  /** The template refuses a value: a seed that is not an integer, or overrides that are no object. */
  predicate Refuses(template: TrainSpec, error: Error) {
    (error.BadSeed? && AsI64(error.value).None?)
    || (error.BadOverrides? && !template.overrides.Null? && !template.overrides.Object?)
  }

  /** What an error says is so. */
  ghost predicate Explains(template: TrainSpec, axes: seq<Axis>, error: Error) {
    match error
    case NoAxes => axes == []
    case TooMany(total) => total == ProductTo(axes, |axes|) && total > MAX_SWEEP_CHILDREN
    case BadSeed(_) => Refuses(template, error)
    case BadOverrides => Refuses(template, error)
    case _ => exists i :: 0 <= i < |axes| && FirstBad(axes, i, error)
  }

  /** Whether an axis value can be applied depends on the template alone. */
  lemma AppliesIffTaken(template: TrainSpec, spec: TrainSpec, axes: seq<Axis>, k: nat, assignment: Assignment, value: Value)
    requires k < |axes| && ValidPath(axes[k].path) && Carries(template, spec, axes, k, assignment)
    ensures Apply(spec, axes[k].path, value).Ok? <==> Takes(template, axes[k], value)
    ensures Apply(spec, axes[k].path, value).Err? ==> Refuses(template, Apply(spec, axes[k].path, value).error)
  {
  }

  /** The template takes the assigned values of the first `k` axes. */
  predicate TakesUpTo(template: TrainSpec, axes: seq<Axis>, k: nat, assignment: Assignment)
    requires k <= |axes|
  {
    forall j :: 0 <= j < k ==> axes[j].path in assignment && Takes(template, axes[j], assignment[axes[j].path])
  }

  predicate Assigned(axes: seq<Axis>, assignment: Assignment) {
    forall j :: 0 <= j < |axes| ==> ValidPath(axes[j].path) && axes[j].path in assignment
  }

  /** Apply a whole assignment, axis by axis in key order. */
  method ApplyAll(template: TrainSpec, axes: seq<Axis>, assignment: Assignment) returns (r: Result<TrainSpec>)
    requires Ordered(axes) && Assigned(axes, assignment)
    ensures r.Ok? <==> TakesUpTo(template, axes, |axes|, assignment)
    ensures r.Ok? ==> Carries(template, r.value, axes, |axes|, assignment)
    ensures r.Err? ==> Refuses(template, r.error)
  {
    var spec := template;
    var k := 0;
    while k < |axes|
      invariant 0 <= k <= |axes|
      invariant TakesUpTo(template, axes, k, assignment)
      invariant Carries(template, spec, axes, k, assignment)
    {
      AppliesIffTaken(template, spec, axes, k, assignment, assignment[axes[k].path]);
      var applied := Apply(spec, axes[k].path, assignment[axes[k].path]);
      if applied.Err? {
        return Err(applied.error);
      }
      CarriesStep(template, spec, axes, k, assignment);
      spec := applied.value;
      k := k + 1;
    }
    r := Ok(spec);
  }

  method Total(axes: seq<Axis>) returns (total: nat)
    ensures total == ProductTo(axes, |axes|)
  {
    total := 1;
    var k := 0;
    while k < |axes|
      invariant 0 <= k <= |axes| && total == ProductTo(axes, k)
    {
      total := total * |axes[k].values|;
      k := k + 1;
    }
  }

  /** All combinations: one axis after the other, in key order. */
  method Combine(axes: seq<Axis>) returns (combos: seq<Assignment>)
    ensures Combos(axes, |axes|, combos) && |combos| == ProductTo(axes, |axes|)
  {
    combos := [map[]];
    var k := 0;
    while k < |axes|
      invariant 0 <= k <= |axes| && Combos(axes, k, combos) && |combos| == ProductTo(axes, k)
    {
      combos := Extend(axes, k, combos);
      k := k + 1;
    }
  }

  /** The child at a position of the product. */
  ghost predicate IsChildAt(template: TrainSpec, axes: seq<Axis>, i: nat, child: Child)
    requires i < ProductTo(axes, |axes|)
  {
    && child.assignment == Chosen(axes, ChoiceAt(axes, |axes|, i))
    && AllTaken(template, axes, ChoiceAt(axes, |axes|, i))
    && Carries(template, child.spec, axes, |axes|, child.assignment)
    && AssignmentOf(child.spec, axes) == child.assignment
  }

  /** Some choice takes any given value of any given axis. */
  lemma SomeChoiceTakes(axes: seq<Axis>, j: nat, v: nat) returns (i: nat)
    requires (forall a :: a in axes ==> a.values != []) && j < |axes| && v < |axes[j].values|
    ensures i < ProductTo(axes, |axes|) && ChoiceAt(axes, |axes|, i)[j] == v
  {
    var choice: seq<nat> := seq(|axes|, (m: nat) => if m == j then v else 0);
    forall m | 0 <= m < |axes|
      ensures choice[m] < |axes[m].values|
    {
      assert axes[m] in axes;
    }
    ChoiceHasPosition(axes, choice);
    i := PositionOf(axes, choice);
  }

  /**
   * The expansion: one child for each choice of one value per axis, in the order of their positions, each carrying
   * its assignment and otherwise the template; or a refusal, exactly when the template and the axes do not allow it,
   * that says why.
   */
  method Expand(template: TrainSpec, axes: seq<Axis>) returns (r: Result<seq<Child>>)
    requires Ordered(axes)
    ensures r.Ok? <==> Expandable(template, axes)
    ensures r.Ok? ==> |r.value| == ProductTo(axes, |axes|) && Children(template, axes, r.value)
    ensures r.Err? ==> Explains(template, axes, r.error)
  {
    if axes == [] {
      return Err(NoAxes);
    }
    assert forall j :: 0 <= j < |axes| ==> axes[j] in axes;
    var bad := Validate(axes);
    if bad.Some? {
      return Err(bad.value);
    }
    var total := Total(axes);
    if total > MAX_SWEEP_CHILDREN {
      return Err(TooMany(total));
    }
    var combos := Combine(axes);
    r := Build(template, axes, combos);
    if r.Ok? {
      AllTakenIsExpandable(template, axes, r.value);
    }
  }

  /** The children at the first positions, every value of which the template takes. */
  ghost predicate Children(template: TrainSpec, axes: seq<Axis>, children: seq<Child>) {
    && |children| <= ProductTo(axes, |axes|)
    && (forall i :: 0 <= i < |children| ==> IsChildAt(template, axes, i, children[i]))
  }

  lemma {:induction false} MakesChild(template: TrainSpec, axes: seq<Axis>, i: nat, assignment: Assignment, spec: TrainSpec)
    requires Ordered(axes) && i < ProductTo(axes, |axes|)
    requires forall j :: 0 <= j < |axes| ==> ValidPath(axes[j].path)
    requires assignment == Chosen(axes, ChoiceAt(axes, |axes|, i))
    requires TakesUpTo(template, axes, |axes|, assignment) && Carries(template, spec, axes, |axes|, assignment)
    ensures IsChildAt(template, axes, i, Child(assignment, spec))
  {
    ChosenIsAssigned(template, axes, ChoiceAt(axes, |axes|, i));
    ChildGivesBack(template, spec, axes, ChoiceAt(axes, |axes|, i));
  }

  lemma {:induction false} NextChild(template: TrainSpec, axes: seq<Axis>, children: seq<Child>, child: Child)
    requires Children(template, axes, children) && |children| < ProductTo(axes, |axes|)
    requires IsChildAt(template, axes, |children|, child)
    ensures Children(template, axes, children + [child])
  {
    forall i | 0 <= i < |children| + 1
      ensures IsChildAt(template, axes, i, (children + [child])[i])
    {
    }
  }

  lemma {:induction false} RefusedChild(template: TrainSpec, axes: seq<Axis>, i: nat)
    requires Ordered(axes) && i < ProductTo(axes, |axes|)
    requires forall j :: 0 <= j < |axes| ==> ValidPath(axes[j].path)
    ensures Assigned(axes, Chosen(axes, ChoiceAt(axes, |axes|, i)))
    ensures !TakesUpTo(template, axes, |axes|, Chosen(axes, ChoiceAt(axes, |axes|, i))) ==> !Expandable(template, axes)
  {
    var choice := ChoiceAt(axes, |axes|, i);
    ChosenIsAssigned(template, axes, choice);
    if !AllTaken(template, axes, choice) {
      NotExpandable(template, axes, choice);
    }
  }

  /** The children of all combinations, unless the template refuses a value. */
  method Build(template: TrainSpec, axes: seq<Axis>, combos: seq<Assignment>) returns (r: Result<seq<Child>>)
    requires Ordered(axes) && Combos(axes, |axes|, combos) && |combos| == ProductTo(axes, |axes|)
    requires forall j :: 0 <= j < |axes| ==> ValidPath(axes[j].path)
    ensures r.Err? ==> !Expandable(template, axes) && Refuses(template, r.error)
    ensures r.Ok? ==> |r.value| == |combos| && Children(template, axes, r.value)
  {
    var children: seq<Child> := [];
    while |children| < |combos|
      invariant Children(template, axes, children)
      decreases |combos| - |children|
    {
      var assignment := combos[|children|];
      RefusedChild(template, axes, |children|);
      var spec := ApplyAll(template, axes, assignment);
      if spec.Err? {
        return Err(spec.error);
      }
      MakesChild(template, axes, |children|, assignment, spec.value);
      NextChild(template, axes, children, Child(assignment, spec.value));
      children := children + [Child(assignment, spec.value)];
    }
    r := Ok(children);
  }

  lemma {:induction false} ChosenIsAssigned(template: TrainSpec, axes: seq<Axis>, choice: seq<nat>)
    requires Ordered(axes) && IsChoice(axes, choice) && |choice| == |axes|
    requires forall j :: 0 <= j < |axes| ==> ValidPath(axes[j].path)
    ensures Assigned(axes, Chosen(axes, choice))
    ensures TakesUpTo(template, axes, |axes|, Chosen(axes, choice)) <==> AllTaken(template, axes, choice)
  {
    ChosenValues(axes, choice);
  }

  predicate AllTaken(template: TrainSpec, axes: seq<Axis>, choice: seq<nat>)
    requires IsChoice(axes, choice) && |choice| == |axes|
  {
    forall j :: 0 <= j < |axes| ==> Takes(template, axes[j], axes[j].values[choice[j]])
  }

  lemma NotExpandable(template: TrainSpec, axes: seq<Axis>, choice: seq<nat>)
    requires IsChoice(axes, choice) && |choice| == |axes| && !AllTaken(template, axes, choice)
    ensures !Expandable(template, axes)
  {
    var j :| 0 <= j < |axes| && !Takes(template, axes[j], axes[j].values[choice[j]]);
    assert axes[j] in axes && axes[j].values[choice[j]] in axes[j].values;
  }

  lemma {:induction false} AllTakenIsExpandable(template: TrainSpec, axes: seq<Axis>, children: seq<Child>)
    requires axes != [] && (forall a :: a in axes ==> ValidPath(a.path) && a.values != [])
    requires ProductTo(axes, |axes|) <= MAX_SWEEP_CHILDREN
    requires Children(template, axes, children) && |children| == ProductTo(axes, |axes|)
    ensures Expandable(template, axes)
  {
    forall a, value | a in axes && value in a.values
      ensures Takes(template, a, value)
    {
      var j :| 0 <= j < |axes| && axes[j] == a;
      var v :| 0 <= v < |a.values| && a.values[v] == value;
      var i := SomeChoiceTakes(axes, j, v);
      assert IsChildAt(template, axes, i, children[i]);
    }
  }
}
