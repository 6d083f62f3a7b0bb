/** Byte strings as Go's `string` type holds them, and the few operations of
    Go's `strings` package that the handler relies on: `TrimSpace`, `Fields`,
    `ReplaceAll` of a newline, and joining/splitting around a separator. */
module Text {

  newtype byte = b: int | 0 <= b < 256

  /** A Go string: its `len` and slicing count bytes, not characters. */
  type Bytes = seq<byte>

  /** The bytes of an ASCII string literal (each character's low byte). */
  function Ascii(s: string): (r: Bytes)
    ensures |r| == |s|
    ensures forall i | 0 <= i < |s| :: s[i] as int < 256 ==> r[i] as int == s[i] as int
  {
    seq(|s|, i requires 0 <= i < |s| => (s[i] as int % 256) as byte)
  }

  const Newline: byte := 0x0A
  const Space: byte := 0x20
  const Slash: byte := 0x2F

  /** The bytes Go's `strings.TrimSpace` and `strings.Fields` treat as white
      space among the ASCII range: tab, newline, vertical tab, form feed,
      carriage return and space. */
  predicate IsSpace(b: byte) {
    b == 0x09 || b == 0x0A || b == 0x0B || b == 0x0C || b == 0x0D || b == 0x20
  }

  predicate AllSpace(s: Bytes) {
    forall i | 0 <= i < |s| :: IsSpace(s[i])
  }

  predicate NoSpace(s: Bytes) {
    forall i | 0 <= i < |s| :: !IsSpace(s[i])
  }

  /** Neither begins nor ends with white space. */
  predicate Trimmed(s: Bytes) {
    s == [] || (!IsSpace(s[0]) && !IsSpace(s[|s| - 1]))
  }

  // ---------------------------------------------------------------------
  // strings.TrimSpace

  /** Length of the longest all-space prefix. */
  function LeadingSpaces(s: Bytes): (n: nat)
    ensures n <= |s|
    ensures AllSpace(s[..n])
    ensures n < |s| ==> !IsSpace(s[n])
  {
    if s != [] && IsSpace(s[0]) then
      var m := LeadingSpaces(s[1..]);
      assert s[..m + 1] == [s[0]] + s[1..][..m];
      m + 1
    else 0
  }

  /** Length of the longest all-space suffix. */
  function TrailingSpaces(s: Bytes): (n: nat)
    ensures n <= |s|
    ensures AllSpace(s[|s| - n..])
    ensures n < |s| ==> !IsSpace(s[|s| - 1 - n])
  {
    if s != [] && IsSpace(s[|s| - 1]) then
      var m := TrailingSpaces(s[..|s| - 1]);
      assert s[|s| - (m + 1)..] == s[..|s| - 1][|s| - 1 - m..] + [s[|s| - 1]];
      m + 1
    else 0
  }

  lemma {:induction false} LeadingSpacesUnique(s: Bytes, n: nat)
    requires n <= |s| && AllSpace(s[..n]) && (n < |s| ==> !IsSpace(s[n]))
    ensures LeadingSpaces(s) == n
  {
    if n > 0 {
      assert s[..n][0] == s[0];
      assert s[1..][..n - 1] == s[..n][1..];
      LeadingSpacesUnique(s[1..], n - 1);
    }
  }

  lemma {:induction false} TrailingSpacesUnique(s: Bytes, n: nat)
    requires n <= |s| && AllSpace(s[|s| - n..]) && (n < |s| ==> !IsSpace(s[|s| - 1 - n]))
    ensures TrailingSpaces(s) == n
  {
    if n > 0 {
      var s' := s[..|s| - 1];
      assert s[|s| - n..][n - 1] == s[|s| - 1];
      assert s'[|s'| - (n - 1)..] == s[|s| - n..][..n - 1];
      TrailingSpacesUnique(s', n - 1);
    }
  }

  function TrimLeft(s: Bytes): Bytes {
    s[LeadingSpaces(s)..]
  }

  /** Go's `strings.TrimSpace`: the text between the leading and the
      trailing run of white space. */
  function TrimSpace(s: Bytes): (r: Bytes)
    ensures Trimmed(r)
    ensures |r| <= |s|
    ensures var i := LeadingSpaces(s);
      i + |r| <= |s| && r == s[i..i + |r|] && AllSpace(s[..i]) && AllSpace(s[i + |r|..])
    ensures r == [] <==> AllSpace(s)
  {
    var t := TrimLeft(s);
    var r := t[..|t| - TrailingSpaces(t)];
    assert s[LeadingSpaces(s) + |r|..] == t[|t| - TrailingSpaces(t)..];
    assert r == [] ==> s == s[..LeadingSpaces(s)] + s[LeadingSpaces(s) + |r|..];
    assert r != [] ==> r[0] == t[0] && r[|r| - 1] == t[|t| - 1 - TrailingSpaces(t)];
    assert r != [] ==> !AllSpace(s) by {
      if r != [] { assert s[LeadingSpaces(s)] == r[0]; }
    }
    r
  }

  /** Trimming what is already trimmed changes nothing. */
  lemma {:induction false} TrimSpaceOfTrimmed(s: Bytes)
    requires Trimmed(s)
    ensures TrimSpace(s) == s
  {
    if s != [] {
      LeadingSpacesUnique(s, 0);
      assert TrimLeft(s) == s;
      TrailingSpacesUnique(s, 0);
    }
  }

  /** `TrimSpace` is idempotent. */
  lemma TrimSpaceIdempotent(s: Bytes)
    ensures TrimSpace(TrimSpace(s)) == TrimSpace(s)
  {
    TrimSpaceOfTrimmed(TrimSpace(s));
  }

  /** Trailing white space after trimmed text is exactly what `TrimSpace`
      removes. */
  lemma {:induction false} TrimSpaceDropsSuffix(x: Bytes, p: Bytes)
    requires Trimmed(x) && AllSpace(p)
    ensures TrimSpace(x + p) == x
  {
    var s := x + p;
    if x == [] {
      assert s == p;
    } else {
      LeadingSpacesUnique(s, 0);
      assert TrimLeft(s) == s;
      assert s[|s| - |p|..] == p;
      TrailingSpacesUnique(s, |p|);
      assert s[..|s| - |p|] == x;
    }
  }

  // ---------------------------------------------------------------------
  // strings.Fields

  /** Length of the longest prefix free of white space. */
  function TokenLength(s: Bytes): (n: nat)
    ensures n <= |s|
    ensures NoSpace(s[..n])
    ensures n < |s| ==> IsSpace(s[n])
  {
    if s != [] && !IsSpace(s[0]) then
      var m := TokenLength(s[1..]);
      assert s[..m + 1] == [s[0]] + s[1..][..m];
      m + 1
    else 0
  }

  lemma {:induction false} TokenLengthUnique(s: Bytes, n: nat)
    requires n <= |s| && NoSpace(s[..n]) && (n < |s| ==> IsSpace(s[n]))
    ensures TokenLength(s) == n
  {
    if n > 0 {
      assert s[..n][0] == s[0];
      assert s[1..][..n - 1] == s[..n][1..];
      TokenLengthUnique(s[1..], n - 1);
    }
  }

  /** Go's `strings.Fields`: the maximal runs of non-space bytes, in order. */
  function Fields(s: Bytes): (r: seq<Bytes>)
    ensures forall t | t in r :: t != [] && NoSpace(t)
    decreases |s|
  {
    var t := TrimLeft(s);
    if t == [] then []
    else
      var n := TokenLength(t);
      [t[..n]] + Fields(t[n..])
  }

  /** Leading white space does not change the fields. */
  lemma {:induction false} TrimLeftSkipsSpace(p: Bytes, x: Bytes)
    requires AllSpace(p)
    ensures TrimLeft(p + x) == TrimLeft(x)
  {
    var s := p + x;
    var n := LeadingSpaces(x);
    assert s[..|p| + n] == p + x[..n];
    assert |p| + n < |s| ==> s[|p| + n] == x[n];
    LeadingSpacesUnique(s, |p| + n);
    assert s[|p| + n..] == x[n..];
  }

  /** Tokens joined by `sep`. */
  function Join(ts: seq<Bytes>, sep: Bytes): (r: Bytes)
  {
    if ts == [] then []
    else if |ts| == 1 then ts[0]
    else ts[0] + sep + Join(ts[1..], sep)
  }

  /** Appending a token to a joined list puts one more separator before it. */
  lemma {:induction false} JoinSnoc(xs: seq<Bytes>, x: Bytes, sep: Bytes)
    requires xs != []
    ensures Join(xs + [x], sep) == Join(xs, sep) + sep + x
  {
    var ys := xs + [x];
    assert ys[0] == xs[0] && ys[1..] == xs[1..] + [x];
    if |xs| > 1 {
      JoinSnoc(xs[1..], x, sep);
    } else {
      assert ys[1..] == [x];
    }
  }

  /** Joined non-empty tokens begin with the first token's first byte and end
      with the last token's last byte. */
  lemma {:induction false} JoinEnds(ts: seq<Bytes>, sep: Bytes)
    requires ts != [] && forall t | t in ts :: t != []
    ensures ts[0] != [] && ts[|ts| - 1] != []
    ensures var j := Join(ts, sep);
      j != [] && j[0] == ts[0][0] && j[|j| - 1] == ts[|ts| - 1][|ts[|ts| - 1]| - 1]
  {
    assert ts[0] in ts && ts[|ts| - 1] in ts;
    if |ts| > 1 {
      assert forall t | t in ts[1..] :: t in ts;
      JoinEnds(ts[1..], sep);
    }
  }

  /** A token followed by nothing or by white space is the first field. */
  lemma FieldsOfToken(t: Bytes, rest: Bytes)
    requires t != [] && NoSpace(t)
    requires rest == [] || IsSpace(rest[0])
    ensures Fields(t + rest) == [t] + Fields(rest)
  {
    var j := t + rest;
    assert j[0] == t[0];
    LeadingSpacesUnique(j, 0);
    assert TrimLeft(j) == j;
    assert j[..|t|] == t;
    TokenLengthUnique(j, |t|);
    assert j[|t|..] == rest;
  }

  /** Splitting on white space undoes joining non-empty, space-free tokens
      with any non-empty white-space separator. */
  lemma {:induction false} FieldsOfJoin(ts: seq<Bytes>, sep: Bytes)
    requires sep != [] && AllSpace(sep)
    requires forall t | t in ts :: t != [] && NoSpace(t)
    ensures Fields(Join(ts, sep)) == ts
  {
    if ts != [] {
      assert ts[0] in ts;
      if |ts| == 1 {
        FieldsOfToken(ts[0], []);
        assert ts[0] + [] == ts[0];
        assert Fields([]) == [];
        assert ts == [ts[0]];
      } else {
        var rest := Join(ts[1..], sep);
        assert Join(ts, sep) == ts[0] + (sep + rest);
        FieldsOfToken(ts[0], sep + rest);
        TrimLeftSkipsSpace(sep, rest);
        assert Fields(sep + rest) == Fields(rest);
        assert forall t | t in ts[1..] :: t in ts;
        FieldsOfJoin(ts[1..], sep);
      }
    }
  }

  /** There are no fields exactly when the input is all white space. */
  lemma FieldsEmpty(s: Bytes)
    ensures Fields(s) == [] <==> AllSpace(s)
  {
    var n := LeadingSpaces(s);
    if AllSpace(s) {
      LeadingSpacesUnique(s, |s|);
    } else {
      assert n < |s|;
    }
    assert s[..|s|] == s;
  }

  /** White space before the input does not change its fields. */
  lemma FieldsSkipLeadingSpace(p: Bytes, s: Bytes)
    requires AllSpace(p)
    ensures Fields(p + s) == Fields(s)
  {
    TrimLeftSkipsSpace(p, s);
  }

  /** White space after the input does not change its fields. */
  lemma {:induction false} FieldsDropTrailingSpace(s: Bytes, p: Bytes)
    requires AllSpace(p)
    ensures Fields(s + p) == Fields(s)
    decreases |s|
  {
    var k := LeadingSpaces(s);
    var t := s[k..];
    var sp := s + p;
    if t == [] {
      assert AllSpace(s) by { assert s[..k] == s; }
      FieldsEmpty(s);
      FieldsEmpty(sp);
    } else {
      assert sp[..k] == s[..k] && sp[k] == t[0];
      LeadingSpacesUnique(sp, k);
      assert TrimLeft(sp) == t + p;
      var n := TokenLength(t);
      assert t[0] == s[k];
      var tp := t + p;
      assert tp[..n] == t[..n];
      assert n < |tp| ==> IsSpace(tp[n]) by {
        if n < |t| { assert tp[n] == t[n]; } else if n < |tp| { assert tp[n] == p[n - |t|]; }
      }
      TokenLengthUnique(tp, n);
      assert tp[n..] == t[n..] + p;
      FieldsDropTrailingSpace(t[n..], p);
    }
  }

  /** Tokens laid out between white-space gaps: `gaps[0] ts[0] gaps[1] ...
      ts[k-1] gaps[k]`. */
  function Interleave(gaps: seq<Bytes>, ts: seq<Bytes>): Bytes
    requires |gaps| == |ts| + 1
  {
    if ts == [] then gaps[0] else gaps[0] + ts[0] + Interleave(gaps[1..], ts[1..])
  }

  /** A layout whose first gap is white space, non-empty when a token
      follows, is empty or begins with white space. */
  lemma InterleaveStart(gaps: seq<Bytes>, ts: seq<Bytes>)
    requires |gaps| == |ts| + 1 && AllSpace(gaps[0])
    requires ts != [] ==> gaps[0] != []
    ensures var r := Interleave(gaps, ts); r == [] || IsSpace(r[0])
  {
    if ts != [] {
      assert Interleave(gaps, ts)[0] == gaps[0][0];
    }
  }

  /** The first token of a layout is its first field. */
  lemma FieldsOfInterleaveStep(gaps: seq<Bytes>, ts: seq<Bytes>)
    requires |gaps| == |ts| + 1 && ts != []
    requires AllSpace(gaps[0]) && AllSpace(gaps[1]) && (|ts| > 1 ==> gaps[1] != [])
    requires ts[0] != [] && NoSpace(ts[0])
    ensures Fields(Interleave(gaps, ts)) == [ts[0]] + Fields(Interleave(gaps[1..], ts[1..]))
  {
    var rest := Interleave(gaps[1..], ts[1..]);
    assert Interleave(gaps, ts) == gaps[0] + (ts[0] + rest);
    FieldsSkipLeadingSpace(gaps[0], ts[0] + rest);
    InterleaveStart(gaps[1..], ts[1..]);
    FieldsOfToken(ts[0], rest);
  }

  /** Go's `strings.Fields` returns the white-space separated tokens in order,
      whatever white space surrounds and separates them: any run of white
      space, possibly empty at either end and non-empty between two tokens. */
  lemma {:induction false} FieldsOfInterleave(gaps: seq<Bytes>, ts: seq<Bytes>)
    requires |gaps| == |ts| + 1
    requires forall i | 0 <= i < |gaps| :: AllSpace(gaps[i])
    requires forall i | 1 <= i < |ts| :: gaps[i] != []
    requires forall i | 0 <= i < |ts| :: ts[i] != [] && NoSpace(ts[i])
    ensures Fields(Interleave(gaps, ts)) == ts
  {
    if ts == [] {
      FieldsEmpty(gaps[0]);
    } else {
      FieldsOfInterleaveStep(gaps, ts);
      var gs, us := gaps[1..], ts[1..];
      assert forall i | 0 <= i < |gs| :: gs[i] == gaps[i + 1];
      assert forall i | 0 <= i < |us| :: us[i] == ts[i + 1];
      FieldsOfInterleave(gs, us);
    }
  }

  // ---------------------------------------------------------------------
  // Splitting on one byte (the inverse of Join with a one-byte separator)

  function IndexOf(s: Bytes, c: byte): (i: nat)
    ensures i <= |s|
    ensures i < |s| ==> s[i] == c
    ensures forall k | 0 <= k < i :: s[k] != c
  {
    if s == [] then 0 else if s[0] == c then 0 else 1 + IndexOf(s[1..], c)
  }

  lemma {:induction false} IndexOfUnique(s: Bytes, c: byte, n: nat)
    requires n <= |s| && (forall k | 0 <= k < n :: s[k] != c) && (n < |s| ==> s[n] == c)
    ensures IndexOf(s, c) == n
  {
    if n > 0 {
      assert s[0] != c;
      IndexOfUnique(s[1..], c, n - 1);
    }
  }

  /** The parts of `s` between occurrences of `c`. */
  function Split(s: Bytes, c: byte): (r: seq<Bytes>)
    ensures |r| >= 1
    decreases |s|
  {
    var i := IndexOf(s, c);
    if i == |s| then [s] else [s[..i]] + Split(s[i + 1..], c)
  }

  /** Splitting on `c` undoes joining parts that do not contain `c`. */
  lemma {:induction false} SplitOfJoin(parts: seq<Bytes>, c: byte)
    requires |parts| >= 1
    requires forall p | p in parts :: c !in p
    ensures Split(Join(parts, [c]), c) == parts
  {
    var p := parts[0];
    assert p in parts;
    var j := Join(parts, [c]);
    forall k | 0 <= k < |p| ensures p[k] != c {
      assert p[k] in p;
    }
    if |parts| == 1 {
      assert j == p;
      IndexOfUnique(j, c, |j|);
    } else {
      var rest := Join(parts[1..], [c]);
      assert j == p + [c] + rest;
      IndexOfUnique(j, c, |p|);
      assert j[..|p|] == p && j[|p| + 1..] == rest;
      SplitOfJoin(parts[1..], c);
    }
  }

  // ---------------------------------------------------------------------
  // strings.ReplaceAll(s, "\n", "\n\n")

  function NewlineCount(s: Bytes): (n: nat)
    ensures n <= |s|
  {
    if s == [] then 0 else (if s[0] == Newline then 1 else 0) + NewlineCount(s[1..])
  }

  /** Go's `strings.ReplaceAll(s, "\n", "\n\n")`: every newline doubled. */
  function DoubleNewlines(s: Bytes): (r: Bytes)
    ensures |r| == |s| + NewlineCount(s)
    ensures NewlineCount(s) == 0 ==> r == s
  {
    if s == [] then []
    else (if s[0] == Newline then [Newline, Newline] else [s[0]]) + DoubleNewlines(s[1..])
  }

  /** Reads a newline-doubled text back: each pair of newlines stands for one. */
  function HalveNewlines(s: Bytes): Bytes
  {
    if s == [] then []
    else if |s| >= 2 && s[0] == Newline && s[1] == Newline then [Newline] + HalveNewlines(s[2..])
    else [s[0]] + HalveNewlines(s[1..])
  }

  /** No information is lost by doubling newlines. */
  lemma {:induction false} HalveDoubleNewlines(s: Bytes)
    ensures HalveNewlines(DoubleNewlines(s)) == s
  {
    if s != [] {
      var d := DoubleNewlines(s);
      HalveDoubleNewlines(s[1..]);
      if s[0] == Newline {
        assert d[2..] == DoubleNewlines(s[1..]);
      } else {
        assert d[1..] == DoubleNewlines(s[1..]);
      }
    }
  }
}
