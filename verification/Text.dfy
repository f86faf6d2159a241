/** The string operations of Python that the printed texts use: strip, split, join and clip. */
module Text {
  import opened Sequences

  /** `str.isspace`. */
  predicate IsSpace(c: char) {
    var n := c as int;
    || 0x09 <= n <= 0x0d || 0x1c <= n <= 0x20 || n == 0x85 || n == 0xa0 || n == 0x1680
    || 0x2000 <= n <= 0x200a || n == 0x2028 || n == 0x2029 || n == 0x202f || n == 0x205f || n == 0x3000
  }

  const ELLIPSIS := '\U{2026}'

  function RStrip(s: string): (r: string)
    ensures r <= s && (r == "" || !IsSpace(r[|r| - 1]))
    ensures forall i :: |r| <= i < |s| ==> IsSpace(s[i])
  {
    if |s| > 0 && IsSpace(s[|s| - 1]) then RStrip(s[..|s| - 1]) else s
  }

  /** A long value loses what is beyond the limit, and then only the white space in front of the cut. */
  function Clip(value: string, limit: nat): (r: string)
    requires limit >= 1
    ensures |r| <= limit
    ensures |value| <= limit ==> r == value
    ensures |value| > limit ==> r != "" && r[|r| - 1] == ELLIPSIS && r[..|r| - 1] <= value
    ensures |value| > limit ==> |r| == 1 || !IsSpace(r[|r| - 2])
    ensures |value| > limit ==> forall i :: |r| - 1 <= i < limit - 1 ==> IsSpace(value[i])
  {
    if |value| <= limit then value else RStrip(value[..limit - 1]) + [ELLIPSIS]
  }

  predicate OneLine(s: string) { '\n' !in s }

  lemma ClipKeepsOneLine(value: string, limit: nat)
    requires limit >= 1 && OneLine(value)
    ensures OneLine(Clip(value, limit))
  {
    var r := Clip(value, limit);
    if |value| > limit {
      assert r == r[..|r| - 1] + [ELLIPSIS];
    }
  }

  // ---- split and join ----

  /** `sep.join(parts)` */
  function Join(sep: string, parts: seq<string>): string {
    if |parts| == 0 then "" else if |parts| == 1 then parts[0] else parts[0] + sep + Join(sep, parts[1..])
  }

  /** The position of the first `c`, or the length. */
  function Find(c: char, s: string): (n: nat)
    ensures n <= |s| && (n < |s| ==> s[n] == c) && forall i :: 0 <= i < n ==> s[i] != c
  {
    if |s| == 0 || s[0] == c then 0 else Find(c, s[1..]) + 1
  }

  /** `s.split(c)` for a one-character separator. */
  function Split(c: char, s: string): (parts: seq<string>)
    ensures |parts| >= 1 && forall i :: 0 <= i < |parts| ==> c !in parts[i]
    decreases |s|
  {
    var n := Find(c, s);
    if n == |s| then [s] else [s[..n]] + Split(c, s[n + 1..])
  }

  lemma FindInPart(c: char, part: string, rest: string)
    requires c !in part
    ensures Find(c, part + [c] + rest) == |part|
    ensures Find(c, part) == |part|
  {
    var s := part + [c] + rest;
    assert s[|part|] == c;
    assert forall i :: 0 <= i < |part| ==> s[i] == part[i] && part[i] in part;
  }

  /** The parts, split one by one. */
  function Flat(c: char, parts: seq<string>): seq<string> {
    if |parts| == 0 then [] else Split(c, parts[0]) + Flat(c, parts[1..])
  }

  lemma {:induction false} SplitAppend(c: char, a: string, b: string)
    ensures Split(c, a + [c] + b) == Split(c, a) + Split(c, b)
    decreases |a|
  {
    var n := Find(c, a);
    var s := a + [c] + b;
    if n == |a| {
      FindInPart(c, a, b);
      assert s[..|a|] == a && s[|a| + 1..] == b;
    } else {
      var head, tail := a[..n], a[n + 1..];
      assert s == head + [c] + (tail + [c] + b);
      FindInPart(c, head, tail + [c] + b);
      assert s[..n] == head && s[n + 1..] == tail + [c] + b;
      SplitAppend(c, tail, b);
    }
  }

  /** Splitting joined parts splits each of them. */
  lemma {:induction false} SplitOfJoinFlat(c: char, parts: seq<string>)
    requires |parts| >= 1
    ensures Split(c, Join([c], parts)) == Flat(c, parts)
  {
    if |parts| == 1 {
      assert parts[1..] == [];
    } else {
      SplitAppend(c, parts[0], Join([c], parts[1..]));
      SplitOfJoinFlat(c, parts[1..]);
    }
  }

  lemma {:induction false} FlatConcat(c: char, a: seq<string>, b: seq<string>)
    ensures Flat(c, a + b) == Flat(c, a) + Flat(c, b)
  {
    if |a| == 0 {
      assert a + b == b;
    } else {
      assert (a + b)[1..] == a[1..] + b;
      FlatConcat(c, a[1..], b);
    }
  }

  lemma {:induction false} FlatLines(c: char, parts: seq<string>)
    requires forall i :: 0 <= i < |parts| ==> c !in parts[i]
    ensures Flat(c, parts) == parts
  {
    if |parts| > 0 {
      FindInPart(c, parts[0], "");
      FlatLines(c, parts[1..]);
    }
  }

  /** Main result: splitting recovers the joined lines when none of them contains the separator. */
  lemma SplitOfJoin(c: char, parts: seq<string>)
    requires |parts| >= 1 && forall i :: 0 <= i < |parts| ==> c !in parts[i]
    ensures Split(c, Join([c], parts)) == parts
  {
    SplitOfJoinFlat(c, parts);
    FlatLines(c, parts);
  }

  // ---- normalised whitespace ----

  /** The first run of non-space characters, for `s` that starts with one. */
  function WordEnd(s: string): (n: nat)
    ensures n <= |s| && (n < |s| ==> IsSpace(s[n])) && forall i :: 0 <= i < n ==> !IsSpace(s[i])
  {
    if |s| == 0 || IsSpace(s[0]) then 0 else WordEnd(s[1..]) + 1
  }

  /** `s.split()` */
  function Words(s: string): (words: seq<string>)
    ensures forall i :: 0 <= i < |words| ==> words[i] != "" && forall j :: 0 <= j < |words[i]| ==> !IsSpace(words[i][j])
    decreases |s|
  {
    if |s| == 0 then []
    else if IsSpace(s[0]) then Words(s[1..])
    else [s[..WordEnd(s)]] + Words(s[WordEnd(s)..])
  }

  /** `" ".join(s.split())` */
  function Normalized(s: string): string { Join(" ", Words(s)) }

  lemma {:induction false} JoinedCharacters(sep: string, parts: seq<string>, c: char)
    requires c !in sep && forall i :: 0 <= i < |parts| ==> c !in parts[i]
    ensures c !in Join(sep, parts)
  {
    if |parts| > 1 {
      JoinedCharacters(sep, parts[1..], c);
    }
  }

  /** Normalising leaves no white space but single blanks, so no line break either. */
  lemma NormalizedIsOneLine(s: string)
    ensures OneLine(Normalized(s))
  {
    assert IsSpace('\n');
    JoinedCharacters(" ", Words(s), '\n');
  }
}
