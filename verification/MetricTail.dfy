/** The incremental tail over a job's metrics file. */
module MetricTail {
  import opened Options
  import Text

  datatype Record = Record(step: nat, values: map<string, real>)

  /** The newline-terminated lines of a text; what follows the last newline is held back. */
  function CompleteLines(content: string): seq<string> {
    var parts := Text.Split(content, '\n');
    parts[..|parts| - 1]
  }

  /** The records of some lines: those that parse and carry a value. How a line parses is a parameter. */
  function Records(parse: string -> Option<Record>, lines: seq<string>): seq<Record> {
    if lines == [] then []
    else
      var last := |lines| - 1;
      var record := parse(lines[last]);
      Records(parse, lines[..last]) + if record.Some? && record.value.values != map[] then [record.value] else []
  }

  lemma {:induction false} RecordsJoin(parse: string -> Option<Record>, lines: seq<string>, more: seq<string>)
    ensures Records(parse, lines + more) == Records(parse, lines) + Records(parse, more)
    decreases |more|
  {
    if more == [] {
      assert lines + more == lines;
    } else {
      RecordsJoin(parse, lines, more[..|more| - 1]);
      assert (lines + more)[..|lines + more| - 1] == lines + more[..|more| - 1];
    }
  }

  /** A line that parses and carries a value. */
  predicate Carries(parse: string -> Option<Record>, line: string) {
    parse(line).Some? && parse(line).value.values != map[]
  }

  /** These records are those of the lines at these places, in order, each once: exactly the lines that parse and carry a value. */
  predicate KeptAt(parse: string -> Option<Record>, lines: seq<string>, records: seq<Record>, at: seq<nat>) {
    && |records| == |at| && (forall i, j :: 0 <= i < j < |at| ==> at[i] < at[j])
    && (forall k :: 0 <= k < |at| ==> at[k] < |lines| && parse(lines[at[k]]) == Some(records[k]))
    && (forall i :: 0 <= i < |lines| ==> (i in at <==> Carries(parse, lines[i])))
  }

  lemma {:induction false} KeptOneMore(parse: string -> Option<Record>, lines: seq<string>, records: seq<Record>, at: seq<nat>, line: string)
    requires KeptAt(parse, lines, records, at)
    ensures Carries(parse, line) ==> KeptAt(parse, lines + [line], records + [parse(line).value], at + [|lines|])
    ensures !Carries(parse, line) ==> KeptAt(parse, lines + [line], records, at)
  {
    assert forall i :: 0 <= i < |lines| ==> (lines + [line])[i] == lines[i];
  }

  /** Which records are streamed, and in which order. */
  lemma {:induction false} RecordsKept(parse: string -> Option<Record>, lines: seq<string>) returns (at: seq<nat>)
    ensures KeptAt(parse, lines, Records(parse, lines), at)
  {
    at := [];
    if lines != [] {
      var last := |lines| - 1;
      at := RecordsKept(parse, lines[..last]);
      KeptOneMore(parse, lines[..last], Records(parse, lines[..last]), at, lines[last]);
      assert lines == lines[..last] + [lines[last]];
      if Carries(parse, lines[last]) {
        at := at + [last];
      }
    }
  }

  function Skip(lines: seq<string>, n: nat): seq<string> {
    if n <= |lines| then lines[n..] else []
  }

  /** What is appended to a file never changes the complete lines before it. */
  lemma LinesGrow(content: string, longer: string)
    requires content <= longer
    ensures CompleteLines(content) <= CompleteLines(longer)
  {
    assert longer == content + longer[|content|..];
    Text.SplitGrows(content, longer[|content|..], '\n');
  }

  /** The complete lines and the part held back make up the text; no line is torn or joined to another. */
  lemma LinesMakeUpText(content: string) returns (held: string)
    ensures content == Text.Join(CompleteLines(content) + [held], '\n')
    ensures '\n' !in held && forall line :: line in CompleteLines(content) ==> '\n' !in line
  {
    var parts := Text.Split(content, '\n');
    held := parts[|parts| - 1];
    Text.SplitRejoins(content, '\n');
    assert parts == CompleteLines(content) + [held];
    assert held in parts;
  }

  class MetricTail {
    const parse: string -> Option<Record>
    var processed: nat
    var sent: seq<Record>

    constructor (parse: string -> Option<Record>)
      ensures processed == 0 && sent == [] && this.parse == parse
    {
      this.parse, processed, sent := parse, 0, [];
    }

    /** Everything in this content, and nothing else, has been streamed, once and in order. */
    predicate UpTo(content: string)
      reads this
    {
      processed == |CompleteLines(content)| && sent == Records(parse, CompleteLines(content))
    }

    /** Stream what has been appended since the last pass; a file that cannot be read is left for the next. */
    method Drain(read: Option<string>)
      modifies this
      ensures read.None? ==> processed == old(processed) && sent == old(sent)
      ensures read.Some? ==>
        && processed == |CompleteLines(read.value)|
        && sent == old(sent) + Records(parse, Skip(CompleteLines(read.value), old(processed)))
    {
      if read.None? {
        return;
      }
      var lines := CompleteLines(read.value);
      var unseen := Skip(lines, processed);
      var i := 0;
      while i < |unseen|
        invariant 0 <= i <= |unseen| && processed == old(processed)
        invariant sent == old(sent) + Records(parse, unseen[..i])
      {
        var record := parse(unseen[i]);
        assert unseen[..i + 1][..i] == unseen[..i];
        if record.Some? && record.value.values != map[] {
          sent := sent + [record.value];
        }
        i := i + 1;
      }
      assert unseen[..i] == unseen;
      processed := |lines|;
    }

    /** A pass over a file that has only been appended to streams exactly what is new. */
    method DrainMore(content: string, longer: string)
      requires UpTo(content) && content <= longer
      modifies this
      ensures UpTo(longer)
    {
      LinesGrow(content, longer);
      var lines := CompleteLines(longer);
      assert lines == CompleteLines(content) + lines[|CompleteLines(content)|..];
      RecordsJoin(parse, CompleteLines(content), lines[|CompleteLines(content)|..]);
      Drain(Some(longer));
    }

    /**
     * Any number of passes over a file that is only appended to, cut anywhere, some of them unreadable: the
     * records streamed are those of the complete lines of the last content read.
     */
    method Follow(contents: seq<Option<string>>) returns (last: string)
      requires UpTo("") && Growing(contents)
      modifies this
      ensures UpTo(last) && last == LastRead(contents)
    {
      last := "";
      var i := 0;
      while i < |contents|
        invariant 0 <= i <= |contents| && last == LastRead(contents[..i]) && UpTo(last)
      {
        assert contents[..i + 1] == contents[..i] + [contents[i]];
        assert contents[..i + 1][..i] == contents[..i];
        if contents[i].Some? {
          LastReadGrows(contents, i);
          DrainMore(last, contents[i].value);
          last := contents[i].value;
        } else {
          Drain(None);
        }
        i := i + 1;
      }
      assert contents[..i] == contents;
    }
  }

  /** The contents read only ever grow at their ends. */
  predicate Growing(contents: seq<Option<string>>) {
    forall i, j :: 0 <= i < j < |contents| && contents[i].Some? && contents[j].Some? ==> contents[i].value <= contents[j].value
  }

  function LastRead(contents: seq<Option<string>>): string {
    if contents == [] then ""
    else if contents[|contents| - 1].Some? then contents[|contents| - 1].value
    else LastRead(contents[..|contents| - 1])
  }

  lemma {:induction false} LastReadGrows(contents: seq<Option<string>>, i: nat)
    requires Growing(contents) && i < |contents| && contents[i].Some?
    ensures LastRead(contents[..i]) <= contents[i].value
  {
    LastReadIs(contents, i);
  }

  lemma {:induction false} LastReadIs(contents: seq<Option<string>>, i: nat)
    requires i <= |contents|
    ensures LastRead(contents[..i]) == "" || exists j :: 0 <= j < i && contents[j] == Some(LastRead(contents[..i]))
  {
    if i > 0 && contents[i - 1].None? {
      LastReadIs(contents, i - 1);
      assert contents[..i][..i - 1] == contents[..i - 1];
    }
  }
}
