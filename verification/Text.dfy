/** Strings as the rest of the model needs them: prefixes and the order of sorted collections. */
module Text {
  import opened Options

  function StripPrefix(prefix: string, s: string): (rest: Option<string>)
    ensures rest.Some? <==> prefix <= s
    ensures rest.Some? ==> s == prefix + rest.value
  {
    if prefix <= s then Some(s[|prefix|..]) else None
  }

  lemma StripPrefixOf(prefix: string, rest: string)
    ensures StripPrefix(prefix, prefix + rest) == Some(rest)
  {
  }

  /** Strict lexicographic order. */
  predicate Less(a: string, b: string)
    decreases |a|
  {
    if b == "" then false
    else if a == "" then true
    else a[0] < b[0] || (a[0] == b[0] && Less(a[1..], b[1..]))
  }

  lemma {:induction false} LessTotal(a: string, b: string)
    ensures Less(a, b) || Less(b, a) || a == b
    ensures Less(a, b) ==> a != b && !Less(b, a)
    decreases |a|
  {
    if a != "" && b != "" {
      LessTotal(a[1..], b[1..]);
      assert a == [a[0]] + a[1..] && b == [b[0]] + b[1..];
    }
  }

  lemma {:induction false} LessTransitive(a: string, b: string, c: string)
    requires Less(a, b) && Less(b, c)
    ensures Less(a, c)
    decreases |a|
  {
    if a != "" && a[0] == b[0] == c[0] {
      LessTransitive(a[1..], b[1..], c[1..]);
    }
  }

  /** Strictly ascending: the way a sorted set lists its members. */
  predicate Ascending(s: seq<string>) {
    forall i, j :: 0 <= i < j < |s| ==> Less(s[i], s[j])
  }

  /** Insertion into a sorted set. */
  function Insert(s: seq<string>, x: string): (r: seq<string>)
    requires Ascending(s)
    ensures Ascending(r)
    ensures forall y :: y in r <==> y in s || y == x
  {
    if s == [] then [x]
    else if x == s[0] then s
    else if Less(x, s[0]) then
      assert forall j :: 0 < j < |s| ==> Less(x, s[j]) by {
        forall j | 0 < j < |s| ensures Less(x, s[j]) { LessTransitive(x, s[0], s[j]); }
      }
      [x] + s
    else
      LessTotal(x, s[0]);
      var rest := Insert(s[1..], x);
      assert forall y :: y in rest ==> Less(s[0], y);
      assert s == [s[0]] + s[1..];
      [s[0]] + rest
  }

  function InsertAll(s: seq<string>, xs: seq<string>): (r: seq<string>)
    requires Ascending(s)
    ensures Ascending(r)
    ensures forall y :: y in r <==> y in s || y in xs
    decreases |xs|
  {
    if xs == [] then s else
      assert xs == [xs[0]] + xs[1..];
      InsertAll(Insert(s, xs[0]), xs[1..])
  }

  /** The parts between separators; there is always at least one. */
  function Split(s: string, separator: char): (parts: seq<string>)
    ensures |parts| >= 1
  {
    if s == "" then [""]
    else if s[0] == separator then [""] + Split(s[1..], separator)
    else
      var rest := Split(s[1..], separator);
      [[s[0]] + rest[0]] + rest[1..]
  }

  function Join(parts: seq<string>, separator: char): string {
    if parts == [] then "" else if |parts| == 1 then parts[0] else parts[0] + [separator] + Join(parts[1..], separator)
  }

  /** No part holds the separator, and the parts rejoin to the text. */
  lemma {:induction false} SplitRejoins(s: string, separator: char)
    ensures Join(Split(s, separator), separator) == s
    ensures forall part :: part in Split(s, separator) ==> separator !in part
  {
    if s != "" {
      SplitRejoins(s[1..], separator);
      var rest := Split(s[1..], separator);
      if s[0] == separator {
        assert Split(s, separator)[1..] == rest;
      } else {
        assert Split(s, separator)[1..] == rest[1..];
        assert rest == [rest[0]] + rest[1..];
        assert s == [s[0]] + Join(rest, separator);
      }
    }
  }

  /** Splitting at a separator splits the parts there. */
  lemma {:induction false} SplitAtSeparator(a: string, separator: char, b: string)
    ensures Split(a + [separator] + b, separator) == Split(a, separator) + Split(b, separator)
  {
    var s := a + [separator] + b;
    if a == "" {
      assert s[1..] == b;
    } else {
      assert s[1..] == a[1..] + [separator] + b;
      SplitAtSeparator(a[1..], separator, b);
    }
  }

  /** Text that is added changes the last part at most, and adds parts behind it. */
  lemma {:induction false} SplitGrows(a: string, more: string, separator: char)
    ensures var parts, longer := Split(a, separator), Split(a + more, separator);
            |parts| <= |longer| && longer[..|parts| - 1] == parts[..|parts| - 1]
  {
    if a == "" {
      assert a + more == more;
    } else {
      SplitGrows(a[1..], more, separator);
      assert (a + more)[1..] == a[1..] + more && (a + more)[0] == a[0];
      var parts, longer := Split(a, separator), Split(a + more, separator);
      forall i | 0 <= i < |parts| - 1
        ensures parts[i] == longer[i]
      {
        if a[0] == separator && i > 0 {
          assert parts[i] == Split(a[1..], separator)[i - 1];
        }
      }
    }
  }

  lemma {:induction false} NoSeparator(s: string, separator: char)
    requires separator !in s
    ensures Split(s, separator) == [s]
  {
    if s != "" {
      assert s[0] in s && s == [s[0]] + s[1..];
      NoSeparator(s[1..], separator);
    }
  }

  /** What comes before and after the first separator. */
  function SplitOnce(s: string, separator: char): (halves: Option<(string, string)>)
    ensures halves.Some? ==> s == halves.value.0 + [separator] + halves.value.1 && separator !in halves.value.0
    ensures halves.None? ==> separator !in s
  {
    if s == "" then None
    else if s[0] == separator then Some(("", s[1..]))
    else
      var rest := SplitOnce(s[1..], separator);
      if rest.Some? then Some(([s[0]] + rest.value.0, rest.value.1)) else None
  }

  lemma {:induction false} SplitOnceAt(a: string, separator: char, b: string)
    requires separator !in a
    ensures SplitOnce(a + [separator] + b, separator) == Some((a, b))
  {
    var s := a + [separator] + b;
    if a == "" {
      assert s[1..] == b;
    } else {
      assert a[0] in a && a == [a[0]] + a[1..] && s[0] == a[0];
      assert s[1..] == a[1..] + [separator] + b;
      SplitOnceAt(a[1..], separator, b);
    }
  }

  function StripSuffix(suffix: string, s: string): (rest: Option<string>)
    ensures rest.Some? ==> s == rest.value + suffix
  {
    if |suffix| <= |s| && s[|s| - |suffix|..] == suffix then Some(s[..|s| - |suffix|]) else None
  }

  lemma StripSuffixOf(rest: string, suffix: string)
    ensures StripSuffix(suffix, rest + suffix) == Some(rest)
  {
  }

  lemma Regroup(a: string, b: string, c: string, d: string)
    ensures a + (b + c) + d == a + b + (c + d)
  {
  }
}
