/** Gate expressions: a closed grammar of three forms, and their evaluation over a metric's history. */
module Gate {
  import opened Options
  import opened Text

  // ---------------------------------------------------------------------
  // Values, some of which are not finite
  // ---------------------------------------------------------------------

  datatype Float = Finite(value: real) | PosInf | NegInf | NaN

  /** Comparisons are false on a NaN. */
  predicate AtMost(a: Float, b: Float) {
    !a.NaN? && !b.NaN? && (a.NegInf? || b.PosInf? || (a.Finite? && b.Finite? && a.value <= b.value))
  }

  predicate Below(a: Float, b: Float) {
    AtMost(a, b) && !AtMost(b, a)
  }

  /** The lesser of two values; a NaN gives way to the other. */
  function FMin(a: Float, b: Float): Float {
    if a.NaN? then b else if b.NaN? then a else if AtMost(a, b) then a else b
  }

  // ---------------------------------------------------------------------
  // Trimming
  // ---------------------------------------------------------------------

  predicate IsSpace(c: char) {
    c == ' ' || ('\t' <= c <= '\r') || c == '\U{85}' || c == '\U{A0}' || c == '\U{1680}' || ('\U{2000}' <= c <= '\U{200A}')
    || c == '\U{2028}' || c == '\U{2029}' || c == '\U{202F}' || c == '\U{205F}' || c == '\U{3000}'
  }

  /** Among the first 128 characters: blank, tab, line feed, vertical tab, form feed and carriage return. */
  lemma SpacesByName(c: char)
    requires c as int < 128
    ensures IsSpace(c) <==> c == ' ' || c as int == 9 || c as int == 10 || c as int == 11 || c as int == 12 || c as int == 13
  {
  }

  predicate Spaces(s: string) {
    forall i :: 0 <= i < |s| ==> IsSpace(s[i])
  }

  predicate Trimmed(s: string) {
    s == "" || (!IsSpace(s[0]) && !IsSpace(s[|s| - 1]))
  }

  function TrimStart(s: string): string {
    if s != "" && IsSpace(s[0]) then TrimStart(s[1..]) else s
  }

  function TrimEnd(s: string): string {
    if s != "" && IsSpace(s[|s| - 1]) then TrimEnd(s[..|s| - 1]) else s
  }

  function Trim(s: string): string {
    TrimEnd(TrimStart(s))
  }

  lemma {:induction false} TrimStartCuts(s: string) returns (before: string)
    ensures s == before + TrimStart(s) && Spaces(before)
    ensures TrimStart(s) == "" || !IsSpace(TrimStart(s)[0])
  {
    before := "";
    if s != "" && IsSpace(s[0]) {
      var rest := TrimStartCuts(s[1..]);
      before := [s[0]] + rest;
    }
  }

  lemma {:induction false} TrimEndCuts(s: string) returns (after: string)
    ensures s == TrimEnd(s) + after && Spaces(after)
    ensures TrimEnd(s) == "" || !IsSpace(TrimEnd(s)[|TrimEnd(s)| - 1])
  {
    after := "";
    if s != "" && IsSpace(s[|s| - 1]) {
      var rest := TrimEndCuts(s[..|s| - 1]);
      after := rest + [s[|s| - 1]];
      assert s == s[..|s| - 1] + [s[|s| - 1]];
    }
  }

  /** Trimming takes spaces off both ends and leaves none there. */
  lemma {:induction false} TrimCuts(s: string) returns (before: string, after: string)
    ensures s == before + Trim(s) + after && Spaces(before) && Spaces(after) && Trimmed(Trim(s))
  {
    before := TrimStartCuts(s);
    after := TrimEndCuts(TrimStart(s));
    if Trim(s) != "" {
      assert TrimStart(s)[0] == Trim(s)[0];
    }
  }

  lemma {:induction false} TrimStartOf(before: string, core: string)
    requires Spaces(before) && (core == "" || !IsSpace(core[0]))
    ensures TrimStart(before + core) == core
  {
    if before == "" {
      assert before + core == core;
    } else {
      assert (before + core)[0] == before[0] && (before + core)[1..] == before[1..] + core;
      TrimStartOf(before[1..], core);
    }
  }

  lemma {:induction false} TrimEndOf(core: string, after: string)
    requires Spaces(after) && (core == "" || !IsSpace(core[|core| - 1]))
    ensures TrimEnd(core + after) == core
  {
    if after == "" {
      assert core + after == core;
    } else {
      var last := |after| - 1;
      assert (core + after)[..|core + after| - 1] == core + after[..last];
      TrimEndOf(core, after[..last]);
    }
  }

  /** Padding is trimmed off. */
  lemma {:induction false} TrimOf(before: string, core: string, after: string)
    requires Spaces(before) && Spaces(after) && Trimmed(core)
    ensures Trim(before + core + after) == core
  {
    if core == "" {
      var all := before + after;
      assert before + core + after == all && all + "" == all;
      TrimStartOf(all, "");
      assert TrimEnd("") == "";
    } else {
      assert before + core + after == before + (core + after);
      TrimStartOf(before, core + after);
      TrimEndOf(core, after);
    }
  }

  // ---------------------------------------------------------------------
  // Parsing
  // ---------------------------------------------------------------------

  datatype CmpOp = Gt | Ge | Lt | Le

  datatype GateExpr =
    | IsNan(key: string)
    | NoImprove(key: string, windowMin: real)
    | Threshold(key: string, op: CmpOp, value: Float)

  datatype ParseError =
    | MalformedIsNan | MalformedNoImprove | NoWindow | MalformedThreshold | InvalidKey(key: string)
    | NotMinutes | NotANumber | NotPositive | UnknownOperator | Unrecognised

  datatype Result = Ok(expr: GateExpr) | Err(error: ParseError)

  const ISNAN_PREFIX := "isnan(last("
  const ISNAN_SUFFIX := "))"
  const NO_IMPROVE_PREFIX := "no_improve("
  const NO_IMPROVE_SUFFIX := ")"
  const LAST_PREFIX := "last("
  const MINUTES_SUFFIX := "min"

  predicate KeyChar(c: char) {
    'a' <= c <= 'z' || 'A' <= c <= 'Z' || '0' <= c <= '9' || c == '_' || c == '-' || c == '/' || c == '.'
  }

  predicate ValidKey(key: string) {
    key != "" && forall i :: 0 <= i < |key| ==> KeyChar(key[i])
  }

  function OpText(op: CmpOp): string {
    match op
    case Gt => ">"
    case Ge => ">="
    case Lt => "<"
    case Le => "<="
  }

  /** The operator a comparison starts with, the longer ones first, and the rest. */
  function TakeOp(comparison: string): Option<(CmpOp, string)> {
    if ">=" <= comparison then Some((Ge, comparison[2..]))
    else if "<=" <= comparison then Some((Le, comparison[2..]))
    else if ">" <= comparison then Some((Gt, comparison[1..]))
    else if "<" <= comparison then Some((Lt, comparison[1..]))
    else None
  }

  function ParseIsNan(rest: string): Result {
    var inner := StripSuffix(ISNAN_SUFFIX, rest);
    if inner.None? then Err(MalformedIsNan)
    else
      var key := Trim(inner.value);
      if ValidKey(key) then Ok(IsNan(key)) else Err(InvalidKey(key))
  }

  function ParseNoImprove(number: string -> Option<Float>, rest: string): Result {
    var inner := StripSuffix(NO_IMPROVE_SUFFIX, rest);
    if inner.None? then Err(MalformedNoImprove)
    else
      var halves := SplitOnce(inner.value, ',');
      if halves.None? then Err(NoWindow)
      else
        var key := Trim(halves.value.0);
        if !ValidKey(key) then Err(InvalidKey(key))
        else
          var minutes := StripSuffix(MINUTES_SUFFIX, Trim(halves.value.1));
          if minutes.None? then Err(NotMinutes)
          else
            var window := number(Trim(minutes.value));
            if window.None? then Err(NotANumber)
            else if window.value.Finite? && window.value.value > 0.0 then Ok(NoImprove(key, window.value.value))
            else Err(NotPositive)
  }

  function ParseThreshold(number: string -> Option<Float>, rest: string): Result {
    var halves := SplitOnce(rest, ')');
    if halves.None? then Err(MalformedThreshold)
    else
      var key := Trim(halves.value.0);
      if !ValidKey(key) then Err(InvalidKey(key))
      else
        var compared := TakeOp(Trim(halves.value.1));
        if compared.None? then Err(UnknownOperator)
        else
          var value := number(Trim(compared.value.1));
          if value.None? then Err(NotANumber) else Ok(Threshold(key, compared.value.0, value.value))
  }

  /** The parse of a text without its surrounding spaces. */
  function ParseTrimmed(number: string -> Option<Float>, s: string): Result {
    var isnan, noImprove, last := StripPrefix(ISNAN_PREFIX, s), StripPrefix(NO_IMPROVE_PREFIX, s), StripPrefix(LAST_PREFIX, s);
    if isnan.Some? then ParseIsNan(isnan.value)
    else if noImprove.Some? then ParseNoImprove(number, noImprove.value)
    else if last.Some? then ParseThreshold(number, last.value)
    else Err(Unrecognised)
  }

  /** How a number reads is a parameter. */
  function Parse(number: string -> Option<Float>, expr: string): Result {
    ParseTrimmed(number, Trim(expr))
  }

  // ---------------------------------------------------------------------
  // Rendering
  // ---------------------------------------------------------------------

  /** A key between spaces. */
  datatype Padded = Padded(before: string, key: string, after: string)

  /** An expression as it may be written: keys and numbers with spaces around them. */
  datatype Written =
    | WrittenIsNan(name: Padded)
    | WrittenNoImprove(name: Padded, lead: string, number: string, gap: string, tail: string)
    | WrittenThreshold(name: Padded, lead: string, op: CmpOp, gap: string, number: string)

  function KeyText(name: Padded): string {
    name.before + name.key + name.after
  }

  predicate KeyOk(name: Padded) {
    Spaces(name.before) && ValidKey(name.key) && Spaces(name.after)
  }

  function WindowText(number: string, gap: string): string {
    number + gap + MINUTES_SUFFIX
  }

  function ComparisonText(op: CmpOp, gap: string, number: string): string {
    OpText(op) + (gap + number)
  }

  function TextOf(w: Written): string {
    match w
    case WrittenIsNan(name) => ISNAN_PREFIX + (KeyText(name) + ISNAN_SUFFIX)
    case WrittenNoImprove(name, lead, number, gap, tail) =>
      NO_IMPROVE_PREFIX + ((KeyText(name) + [','] + (lead + WindowText(number, gap) + tail)) + NO_IMPROVE_SUFFIX)
    case WrittenThreshold(name, lead, op, gap, number) =>
      LAST_PREFIX + (KeyText(name) + [')'] + (lead + ComparisonText(op, gap, number)))
  }

  /** The number is written without spaces around it and reads as one. */
  predicate NumberOk(number: string -> Option<Float>, text: string) {
    text != "" && Trimmed(text) && number(text).Some?
  }

  predicate WellWritten(number: string -> Option<Float>, w: Written) {
    && KeyOk(w.name)
    && match w
       case WrittenIsNan(_) => true
       case WrittenNoImprove(_, lead, text, gap, tail) =>
         Spaces(lead) && Spaces(gap) && Spaces(tail) && NumberOk(number, text)
         && number(text).value.Finite? && number(text).value.value > 0.0
       case WrittenThreshold(_, lead, op, gap, text) =>
         Spaces(lead) && Spaces(gap) && NumberOk(number, text)
         && (op == Gt || op == Lt ==> (gap + text)[0] != '=')
  }

  /** What a rendering means. */
  function ExprOf(number: string -> Option<Float>, w: Written): GateExpr
    requires WellWritten(number, w)
  {
    match w
    case WrittenIsNan(name) => IsNan(name.key)
    case WrittenNoImprove(name, _, text, _, _) => NoImprove(name.key, number(text).value.value)
    case WrittenThreshold(name, _, op, _, text) => Threshold(name.key, op, number(text).value)
  }

  // ---------------------------------------------------------------------
  // Round trips
  // ---------------------------------------------------------------------

  lemma {:induction false} KeyTrims(name: Padded)
    requires KeyOk(name)
    ensures Trim(KeyText(name)) == name.key
    ensures ',' !in KeyText(name) && ')' !in KeyText(name)
  {
    TrimOf(name.before, name.key, name.after);
  }

  lemma {:induction false} ReadIsNan(name: Padded)
    requires KeyOk(name)
    ensures ParseIsNan(KeyText(name) + ISNAN_SUFFIX) == Ok(IsNan(name.key))
  {
    KeyTrims(name);
    StripSuffixOf(KeyText(name), ISNAN_SUFFIX);
  }

  lemma {:induction false} ReadNoImprove(number: string -> Option<Float>, w: Written)
    requires w.WrittenNoImprove? && WellWritten(number, w)
    ensures ParseNoImprove(number, (KeyText(w.name) + [','] + (w.lead + WindowText(w.number, w.gap) + w.tail)) + NO_IMPROVE_SUFFIX)
         == Ok(ExprOf(number, w))
  {
    var window := w.lead + WindowText(w.number, w.gap) + w.tail;
    var inner := KeyText(w.name) + [','] + window;
    KeyTrims(w.name);
    StripSuffixOf(inner, NO_IMPROVE_SUFFIX);
    SplitOnceAt(KeyText(w.name), ',', window);
    assert Trimmed(WindowText(w.number, w.gap));
    TrimOf(w.lead, WindowText(w.number, w.gap), w.tail);
    assert WindowText(w.number, w.gap) == (w.number + w.gap) + MINUTES_SUFFIX;
    StripSuffixOf(w.number + w.gap, MINUTES_SUFFIX);
    assert w.number + w.gap == "" + w.number + w.gap;
    TrimOf("", w.number, w.gap);
  }

  lemma {:induction false} ReadOp(op: CmpOp, rest: string)
    requires op == Gt || op == Lt ==> rest != "" && rest[0] != '='
    ensures TakeOp(OpText(op) + rest) == Some((op, rest))
  {
    var s := OpText(op) + rest;
    assert s[|OpText(op)|..] == rest && s[..|OpText(op)|] == OpText(op);
    match op
    case Gt => assert s[1] == rest[0] && ">=" != s[..2];
    case Ge => assert ">=" <= s;
    case Lt => assert s[1] == rest[0] && "<=" != s[..2];
    case Le => assert "<=" <= s && s[0] == '<';
  }

  lemma {:induction false} ReadThreshold(number: string -> Option<Float>, w: Written)
    requires w.WrittenThreshold? && WellWritten(number, w)
    ensures ParseThreshold(number, KeyText(w.name) + [')'] + (w.lead + ComparisonText(w.op, w.gap, w.number))) == Ok(ExprOf(number, w))
  {
    var comparison := ComparisonText(w.op, w.gap, w.number);
    KeyTrims(w.name);
    SplitOnceAt(KeyText(w.name), ')', w.lead + comparison);
    assert Trimmed(comparison);
    assert w.lead + comparison == w.lead + comparison + "";
    TrimOf(w.lead, comparison, "");
    ReadOp(w.op, w.gap + w.number);
    assert w.gap + w.number == w.gap + w.number + "";
    TrimOf(w.gap, w.number, "");
  }

  lemma {:induction false} TextTrimmed(number: string -> Option<Float>, w: Written)
    requires WellWritten(number, w)
    ensures Trimmed(TextOf(w))
  {
    match w
    case WrittenIsNan(name) =>
      EndsTrimmed(ISNAN_PREFIX, KeyText(name), ISNAN_SUFFIX);
    case WrittenNoImprove(name, lead, text, gap, tail) =>
      EndsTrimmed(NO_IMPROVE_PREFIX, KeyText(name) + [','] + (lead + WindowText(text, gap) + tail), NO_IMPROVE_SUFFIX);
    case WrittenThreshold(name, lead, op, gap, text) =>
      EndsTrimmed(LAST_PREFIX, KeyText(name) + [')'] + (lead + (OpText(op) + gap)), text);
      RegroupNumber(KeyText(name) + [')'], lead, OpText(op), gap, text);
  }

  lemma EndsTrimmed(first: string, middle: string, last: string)
    requires first != "" && !IsSpace(first[0]) && last != "" && !IsSpace(last[|last| - 1])
    ensures Trimmed(first + (middle + last))
  {
  }

  lemma RegroupNumber(key: string, lead: string, op: string, gap: string, text: string)
    ensures key + (lead + (op + gap)) + text == key + (lead + (op + (gap + text)))
  {
  }

  /** Rendering any expression, spaced in any way, and parsing it gives the expression back. */
  lemma {:induction false} RenderedParses(number: string -> Option<Float>, w: Written, before: string, after: string)
    requires WellWritten(number, w) && Spaces(before) && Spaces(after)
    ensures Parse(number, before + TextOf(w) + after) == Ok(ExprOf(number, w))
  {
    TextTrimmed(number, w);
    TrimOf(before, TextOf(w), after);
    TextParses(number, w);
  }

  lemma {:induction false} TextParses(number: string -> Option<Float>, w: Written)
    requires WellWritten(number, w)
    ensures ParseTrimmed(number, TextOf(w)) == Ok(ExprOf(number, w))
  {
    match w
    case WrittenIsNan(name) =>
      ReadIsNan(name);
      StripPrefixOf(ISNAN_PREFIX, KeyText(name) + ISNAN_SUFFIX);
    case WrittenNoImprove(_, _, _, _, _) =>
      ReadNoImprove(number, w);
      NotPrefixed(NO_IMPROVE_PREFIX, (KeyText(w.name) + [','] + (w.lead + WindowText(w.number, w.gap) + w.tail)) + NO_IMPROVE_SUFFIX, ISNAN_PREFIX);
    case WrittenThreshold(_, _, _, _, _) =>
      ReadThreshold(number, w);
      NotPrefixed(LAST_PREFIX, KeyText(w.name) + [')'] + (w.lead + ComparisonText(w.op, w.gap, w.number)), ISNAN_PREFIX);
      NotPrefixed(LAST_PREFIX, KeyText(w.name) + [')'] + (w.lead + ComparisonText(w.op, w.gap, w.number)), NO_IMPROVE_PREFIX);
  }

  /** Texts that start with different letters have different prefixes. */
  lemma NotPrefixed(prefix: string, rest: string, other: string)
    requires prefix != "" && other != "" && prefix[0] != other[0]
    ensures StripPrefix(other, prefix + rest).None? && StripPrefix(prefix, prefix + rest) == Some(rest)
  {
    StripPrefixOf(prefix, rest);
    assert (prefix + rest)[0] == prefix[0];
  }

  lemma {:induction false} PadKey(s: string) returns (name: Padded)
    requires ValidKey(Trim(s))
    ensures KeyOk(name) && KeyText(name) == s && name.key == Trim(s)
  {
    var before, after := TrimCuts(s);
    name := Padded(before, Trim(s), after);
  }

  /** A window that is accepted is a number before its unit, with spaces around both. */
  lemma {:induction false} CutWindow(number: string -> Option<Float>, window: string, minutes: string)
    returns (lead: string, text: string, gap: string, tail: string)
    requires StripSuffix(MINUTES_SUFFIX, Trim(window)) == Some(minutes)
    requires number(Trim(minutes)).Some? && number("").None?
    ensures window == lead + WindowText(text, gap) + tail && text == Trim(minutes)
    ensures Spaces(lead) && Spaces(gap) && Spaces(tail) && NumberOk(number, text)
  {
    lead, tail := TrimCuts(window);
    text := Trim(minutes);
    var start;
    start, gap := TrimCuts(minutes);
    assert minutes[0] == Trim(window)[0];
    assert start == "";
    assert minutes == text + gap;
  }

  lemma {:induction false} WriteNoImprove(number: string -> Option<Float>, rest: string) returns (w: Written)
    requires ParseNoImprove(number, rest).Ok? && number("").None?
    ensures w.WrittenNoImprove? && WellWritten(number, w) && TextOf(w) == NO_IMPROVE_PREFIX + rest
    ensures ParseNoImprove(number, rest) == Ok(ExprOf(number, w))
  {
    var inner := StripSuffix(NO_IMPROVE_SUFFIX, rest).value;
    var halves := SplitOnce(inner, ',').value;
    var name := PadKey(halves.0);
    var lead, text, gap, tail := CutWindow(number, halves.1, StripSuffix(MINUTES_SUFFIX, Trim(halves.1)).value);
    w := WrittenNoImprove(name, lead, text, gap, tail);
  }

  /** A comparison that is accepted is an operator before a number, with spaces around both. */
  lemma {:induction false} CutComparison(number: string -> Option<Float>, half: string, op: CmpOp, value: string)
    returns (lead: string, gap: string, text: string, after: string)
    requires TakeOp(Trim(half)) == Some((op, value))
    requires number(Trim(value)).Some? && number("").None?
    ensures half == lead + ComparisonText(op, gap, text) + after && text == Trim(value)
    ensures Spaces(lead) && Spaces(gap) && Spaces(after) && NumberOk(number, text)
    ensures op == Gt || op == Lt ==> (gap + text)[0] != '='
  {
    lead, after := TrimCuts(half);
    text := Trim(value);
    var tail;
    gap, tail := TrimCuts(value);
    OpCuts(Trim(half), op, value);
    assert value[|value| - 1] == Trim(half)[|Trim(half)| - 1];
    assert tail == "";
    assert value == gap + text;
  }

  lemma {:induction false} OpCuts(comparison: string, op: CmpOp, rest: string)
    requires TakeOp(comparison) == Some((op, rest))
    ensures comparison == OpText(op) + rest
    ensures op == Gt || op == Lt ==> rest == "" || rest[0] != '='
  {
    match op
    case Gt => assert rest != "" && rest[0] == '=' ==> ">=" <= comparison;
    case Ge =>
    case Lt => assert rest != "" && rest[0] == '=' ==> "<=" <= comparison;
    case Le =>
  }

  lemma {:induction false} WriteThreshold(number: string -> Option<Float>, rest: string) returns (w: Written, after: string)
    requires ParseThreshold(number, rest).Ok? && number("").None?
    ensures w.WrittenThreshold? && WellWritten(number, w)
    ensures Spaces(after) && TextOf(w) + after == LAST_PREFIX + rest
    ensures ParseThreshold(number, rest) == Ok(ExprOf(number, w))
  {
    var halves := SplitOnce(rest, ')').value;
    var name := PadKey(halves.0);
    var compared := TakeOp(Trim(halves.1)).value;
    var lead, gap, text;
    lead, gap, text, after := CutComparison(number, halves.1, compared.0, compared.1);
    w := WrittenThreshold(name, lead, compared.0, gap, text);
    RegroupThreshold(KeyText(name), lead + ComparisonText(compared.0, gap, text), after);
  }

  lemma RegroupThreshold(key: string, comparison: string, after: string)
    ensures LAST_PREFIX + (key + [')'] + comparison) + after == LAST_PREFIX + (key + [')'] + (comparison + after))
  {
  }

  lemma {:induction false} WriteIsNan(rest: string) returns (w: Written)
    requires ParseIsNan(rest).Ok?
    ensures w.WrittenIsNan? && KeyOk(w.name) && TextOf(w) == ISNAN_PREFIX + rest
    ensures ParseIsNan(rest) == Ok(IsNan(w.name.key))
  {
    var inner := StripSuffix(ISNAN_SUFFIX, rest).value;
    var name := PadKey(inner);
    w := WrittenIsNan(name);
  }

  lemma {:induction false} WriteTrimmed(number: string -> Option<Float>, s: string) returns (w: Written, after: string)
    requires ParseTrimmed(number, s).Ok? && number("").None?
    ensures WellWritten(number, w) && Spaces(after) && s == TextOf(w) + after
    ensures ParseTrimmed(number, s) == Ok(ExprOf(number, w))
  {
    var isnan, noImprove, last := StripPrefix(ISNAN_PREFIX, s), StripPrefix(NO_IMPROVE_PREFIX, s), StripPrefix(LAST_PREFIX, s);
    after := "";
    if isnan.Some? {
      w := WriteIsNan(isnan.value);
    } else if noImprove.Some? {
      w := WriteNoImprove(number, noImprove.value);
    } else {
      w, after := WriteThreshold(number, last.value);
    }
  }

  /** Every accepted text is a rendering of the expression it is read as, with spaces around it. */
  lemma {:induction false} AcceptedIsRendered(number: string -> Option<Float>, expr: string) returns (before: string, w: Written, after: string)
    requires Parse(number, expr).Ok? && number("").None?
    ensures WellWritten(number, w) && Spaces(before) && Spaces(after) && expr == before + TextOf(w) + after
    ensures Parse(number, expr) == Ok(ExprOf(number, w))
  {
    before, after := TrimCuts(expr);
    var more;
    w, more := WriteTrimmed(number, Trim(expr));
    Regroup(before, TextOf(w), more, after);
    after := more + after;
  }

  /** Two renderings of one text mean the same: the three forms never overlap. */
  lemma {:induction false} RenderingsAgree(
      number: string -> Option<Float>, w: Written, before: string, after: string, other: Written, before': string, after': string)
    requires WellWritten(number, w) && Spaces(before) && Spaces(after)
    requires WellWritten(number, other) && Spaces(before') && Spaces(after')
    requires before + TextOf(w) + after == before' + TextOf(other) + after'
    ensures ExprOf(number, w) == ExprOf(number, other)
  {
    RenderedParses(number, w, before, after);
    RenderedParses(number, other, before', after');
  }

  /** What a key is made of, by character codes: small and capital letters, digits, and four marks. */
  lemma KeysByCode(key: string)
    ensures ValidKey(key) <==>
              key != "" && forall i :: 0 <= i < |key| ==>
                var c := key[i] as int;
                97 <= c <= 122 || 65 <= c <= 90 || 48 <= c <= 57 || key[i] == '_' || key[i] == '-' || key[i] == '/' || key[i] == '.'
  {
  }

  /** The three forms word for word, as they are documented. */
  lemma {:induction false} IsNanByName(number: string -> Option<Float>, key: string)
    requires ValidKey(key)
    ensures Parse(number, "isnan(last(" + key + "))") == Ok(IsNan(key))
  {
    var name := Padded("", key, "");
    PlainKey(name);
    PlainParses(number, WrittenIsNan(name), "isnan(last(" + (key + "))"));
    assert "isnan(last(" + (key + "))") == "isnan(last(" + key + "))";
  }

  lemma PlainKey(name: Padded)
    requires name.before == "" && name.after == ""
    ensures KeyText(name) == name.key
  {
  }

  lemma {:induction false} NoImproveByName(number: string -> Option<Float>, key: string, text: string, minutes: real)
    requires ValidKey(key) && NumberOk(number, text) && number(text) == Some(Finite(minutes)) && minutes > 0.0
    ensures Parse(number, "no_improve(" + key + ", " + text + "min)") == Ok(NoImprove(key, minutes))
  {
    var name := Padded("", key, "");
    NoImproveText(name, text);
    PlainParses(number, WrittenNoImprove(name, " ", text, "", ""), "no_improve(" + key + ", " + text + "min)");
  }

  lemma {:induction false} OneOpParses(number: string -> Option<Float>, key: string, op: CmpOp, text: string)
    requires ValidKey(key) && NumberOk(number, text)
    ensures Parse(number, "last(" + key + ") " + OpText(op) + " " + text) == Ok(Threshold(key, op, number(text).value))
  {
    var name := Padded("", key, "");
    ThresholdText(name, op, text);
    PlainParses(number, WrittenThreshold(name, " ", op, " ", text), "last(" + key + ") " + OpText(op) + " " + text);
  }

  lemma {:induction false} ThresholdByName(number: string -> Option<Float>, key: string, text: string)
    requires ValidKey(key) && NumberOk(number, text)
    ensures Parse(number, "last(" + key + ") " + "> " + text) == Ok(Threshold(key, Gt, number(text).value))
    ensures Parse(number, "last(" + key + ") " + ">= " + text) == Ok(Threshold(key, Ge, number(text).value))
    ensures Parse(number, "last(" + key + ") " + "< " + text) == Ok(Threshold(key, Lt, number(text).value))
    ensures Parse(number, "last(" + key + ") " + "<= " + text) == Ok(Threshold(key, Le, number(text).value))
  {
    OpsByName("last(" + key + ") ", text);
    OneOpParses(number, key, Gt, text);
    OneOpParses(number, key, Ge, text);
    OneOpParses(number, key, Lt, text);
    OneOpParses(number, key, Le, text);
  }

  lemma OpsByName(lead: string, text: string)
    ensures lead + OpText(Gt) + " " + text == lead + "> " + text && lead + OpText(Ge) + " " + text == lead + ">= " + text
    ensures lead + OpText(Lt) + " " + text == lead + "< " + text && lead + OpText(Le) + " " + text == lead + "<= " + text
  {
  }

  lemma NoImproveText(name: Padded, text: string)
    requires name.before == "" && name.after == ""
    ensures TextOf(WrittenNoImprove(name, " ", text, "", "")) == "no_improve(" + name.key + ", " + text + "min)"
  {
  }

  lemma ThresholdText(name: Padded, op: CmpOp, text: string)
    requires name.before == "" && name.after == ""
    ensures TextOf(WrittenThreshold(name, " ", op, " ", text)) == "last(" + name.key + ") " + OpText(op) + " " + text
  {
  }

  lemma {:induction false} PlainParses(number: string -> Option<Float>, w: Written, text: string)
    requires WellWritten(number, w) && text == TextOf(w)
    ensures Parse(number, text) == Ok(ExprOf(number, w))
  {
    assert "" + text + "" == text;
    RenderedParses(number, w, "", "");
  }

  // ---------------------------------------------------------------------
  // Evaluation
  // ---------------------------------------------------------------------

  datatype Observation = Observation(ts: real, value: Float)

  const SECS_PER_MIN := 60.0

  predicate Compare(op: CmpOp, left: Float, right: Float) {
    match op
    case Gt => Below(right, left)
    case Ge => AtMost(right, left)
    case Lt => Below(left, right)
    case Le => AtMost(left, right)
  }

  /** The least value observed on one side of the cutoff. */
  function Best(history: seq<Observation>, cutoff: real, within: bool): Float {
    if history == [] then PosInf
    else
      var last := history[|history| - 1];
      var best := Best(history[..|history| - 1], cutoff, within);
      if (last.ts >= cutoff) == within then FMin(best, last.value) else best
  }

  predicate Tripped(expr: GateExpr, history: seq<Observation>, now: real) {
    match expr
    case IsNan(_) => history != [] && !history[|history| - 1].value.Finite?
    case Threshold(_, op, value) => history != [] && Compare(op, history[|history| - 1].value, value)
    case NoImprove(_, window) =>
      var cutoff := now - window * SECS_PER_MIN;
      var before := Best(history, cutoff, false);
      before.Finite? && AtMost(before, Best(history, cutoff, true))
  }

  /** The two forms that look at the latest value alone; without observations neither trips. */
  lemma LatestDecides(key: string, op: CmpOp, bound: Float, history: seq<Observation>, o: Observation, now: real)
    ensures !Tripped(IsNan(key), [], now) && !Tripped(Threshold(key, op, bound), [], now)
    ensures Tripped(IsNan(key), history + [o], now) <==> o.value == NaN || o.value == PosInf || o.value == NegInf
    ensures o.value == NaN || bound == NaN ==> !Tripped(Threshold(key, op, bound), history + [o], now)
    ensures o.value.Finite? && bound.Finite? ==>
              var v, x, trips := o.value.value, bound.value, Tripped(Threshold(key, op, bound), history + [o], now);
              && (op == Gt ==> (trips <==> v > x)) && (op == Ge ==> (trips <==> v >= x))
              && (op == Lt ==> (trips <==> v < x)) && (op == Le ==> (trips <==> v <= x))
    ensures bound.Finite? && o.value == PosInf ==>
              (Tripped(Threshold(key, op, bound), history + [o], now) <==> op == Gt || op == Ge)
    ensures bound.Finite? && o.value == NegInf ==>
              (Tripped(Threshold(key, op, bound), history + [o], now) <==> op == Lt || op == Le)
  {
    assert (history + [o])[|history + [o]| - 1] == o;
  }

  /** The best value is a lower bound of the values on its side, NaNs apart, and one of them unless there are none. */
  lemma {:induction false} BestIsLeast(history: seq<Observation>, cutoff: real, within: bool)
    ensures var best := Best(history, cutoff, within);
            && !best.NaN?
            && (forall o :: o in history && (o.ts >= cutoff) == within && !o.value.NaN? ==> AtMost(best, o.value))
            && (best.PosInf? || exists o :: o in history && (o.ts >= cutoff) == within && o.value == best)
  {
    if history != [] {
      var rest := history[..|history| - 1];
      BestIsLeast(rest, cutoff, within);
      assert history == rest + [history[|history| - 1]];
      assert forall o :: o in history <==> o in rest || o == history[|history| - 1];
    }
  }

  /**
   * A no-improve gate trips exactly when there is a finite baseline before the window and no value in the window is
   * below every value before it. Values that are no numbers take no part; a value of minus infinity before the
   * window leaves no baseline.
   */
  lemma {:induction false} NoImproveTripsIff(key: string, window: real, history: seq<Observation>, now: real)
    ensures var cutoff := now - window * 60.0;
            Tripped(NoImprove(key, window), history, now)
            <==> && (exists o :: o in history && o.ts < cutoff && o.value.Finite?)
                 && (forall o :: o in history && o.ts < cutoff ==> !o.value.NegInf?)
                 && (forall o :: o in history && o.ts >= cutoff && !o.value.NaN?
                      ==> exists b :: b in history && b.ts < cutoff && AtMost(b.value, o.value))
  {
    var cutoff := now - window * SECS_PER_MIN;
    BestIsLeast(history, cutoff, false);
    BestIsLeast(history, cutoff, true);
  }

  /** On finite values: a gate trips exactly when a baseline exists and no value in the window beats every earlier one. */
  lemma {:induction false} NoImproveOnFinite(key: string, window: real, history: seq<Observation>, now: real)
    requires forall o :: o in history ==> o.value.Finite?
    ensures var cutoff := now - window * 60.0;
            Tripped(NoImprove(key, window), history, now)
            <==> && (exists o :: o in history && o.ts < cutoff)
                 && !exists o :: o in history && o.ts >= cutoff && Beats(history, cutoff, o)
  {
    NoImproveTripsIff(key, window, history, now);
  }

  predicate Beats(history: seq<Observation>, cutoff: real, o: Observation) {
    forall b :: b in history && b.ts < cutoff ==> Below(o.value, b.value)
  }
}
