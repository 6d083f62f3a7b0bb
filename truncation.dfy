/** The length budget the handler puts on the two free-form texts of a card:
    the check output and the event's annotations. Lengths are Go `len`
    values, i.e. bytes, so a cut may fall inside a multi-byte character. */
module Truncation {
  import opened Text
  import Utf8

  const MaxOutputLength: nat := 500
  const TruncationBanner: Bytes := Ascii("Output truncated because it was too long, check Event log in sensu: \n")
  const TruncationMarker: Bytes := Ascii("\n[...]")

  /** The cut shared by both texts: a text within the budget is kept; a longer
      one becomes the banner, as many of its first bytes as the budget leaves
      beside the banner (431), and the marker. */
  function Truncate(text: Bytes): (r: Bytes)
    ensures |text| <= MaxOutputLength ==> r == text
    ensures |text| > MaxOutputLength ==>
      && |r| == 506
      && r[..69] == TruncationBanner
      && r[69..500] == text[..431]
      && r[500..] == TruncationMarker
    ensures |r| <= MaxOutputLength <==> |text| <= MaxOutputLength
    ensures |r| <= 506
  {
    if |text| > MaxOutputLength then
      TruncationBanner + text[..MaxOutputLength - |TruncationBanner|] + TruncationMarker
    else
      text
  }

  /** The check output as the card shows it: trimmed, every newline doubled,
      then cut. Within the budget nothing is lost: halving the newlines gives
      back the trimmed output. */
  function OutputTruncated(output: Bytes): (r: Bytes)
    ensures var t := TrimSpace(output);
      var n := |t| + NewlineCount(t);
      && (n <= MaxOutputLength ==> |r| == n && HalveNewlines(r) == t)
      && (n > MaxOutputLength ==> |r| == 506 && r[69..500] == DoubleNewlines(t)[..431])
  {
    HalveDoubleNewlines(TrimSpace(output));
    Truncate(DoubleNewlines(TrimSpace(output)))
  }

  /** A trimmed output without newlines is cut as it is. */
  lemma OutputTruncatedPlain(output: Bytes)
    requires Trimmed(output) && NewlineCount(output) == 0
    ensures OutputTruncated(output) == Truncate(output)
  {
    TrimSpaceOfTrimmed(output);
  }

  /** The cut counts bytes: when a three-byte character starts at byte 430 of
      an over-long output, the result keeps only its lead byte and follows it
      with the marker's newline, which is not valid UTF-8. */
  lemma CutSplitsCharacter(output: Bytes)
    requires Trimmed(output) && NewlineCount(output) == 0
    requires |output| > MaxOutputLength && Utf8.LeadWidth(output[430]) == 3
    ensures var r := OutputTruncated(output);
      |r| == 506 && r[499] == output[430] && Utf8.LeadWidth(r[499]) == 3 && r[500] == Newline
  {
    OutputTruncatedPlain(output);
  }

  // ---------------------------------------------------------------------
  // Annotations

  /** An annotation: key and value. */
  type Annotation = (Bytes, Bytes)

  /** One annotation as the card shows it: key, newline, value, blank line. */
  function AnnotationText(a: Annotation): Bytes {
    a.0 + [Newline] + a.1 + [Newline, Newline]
  }

  /** The annotations' text before the cut, in the order they are visited. */
  function RenderAnnotations(annotations: seq<Annotation>): Bytes {
    if annotations == [] then []
    else RenderAnnotations(annotations[..|annotations| - 1]) + AnnotationText(annotations[|annotations| - 1])
  }

  /** Bytes one annotation takes: key, value and three newlines. */
  function PairSize(a: Annotation): nat {
    |a.0| + |a.1| + 3
  }

  function TotalSize(annotations: seq<Annotation>): nat {
    if annotations == [] then 0 else PairSize(annotations[0]) + TotalSize(annotations[1..])
  }

  lemma {:induction false} TotalSizeAppend(x: seq<Annotation>, y: seq<Annotation>)
    ensures TotalSize(x + y) == TotalSize(x) + TotalSize(y)
  {
    if x != [] {
      var xy := x + y;
      assert xy[0] == x[0] && xy[1..] == x[1..] + y;
      TotalSizeAppend(x[1..], y);
      assert TotalSize(xy) == PairSize(x[0]) + TotalSize(x[1..] + y);
    } else {
      assert x + y == y;
    }
  }

  /** The rendered text takes the sum of the annotations' sizes. */
  lemma {:induction false} RenderedLength(annotations: seq<Annotation>)
    ensures |RenderAnnotations(annotations)| == TotalSize(annotations)
  {
    if annotations != [] {
      var init := annotations[..|annotations| - 1];
      var last := annotations[|annotations| - 1];
      RenderedLength(init);
      assert annotations == init + [last];
      TotalSizeAppend(init, [last]);
      assert TotalSize([last]) == PairSize(last) + TotalSize([]);
    }
  }

  /** Taking one annotation out of a sequence takes its size off the total. */
  lemma {:induction false} TotalSizeRemove(b: seq<Annotation>, j: nat)
    requires j < |b|
    ensures TotalSize(b) == PairSize(b[j]) + TotalSize(b[..j] + b[j + 1..])
  {
    var left, right := b[..j], b[j + 1..];
    assert b == left + ([b[j]] + right);
    TotalSizeAppend(left, [b[j]] + right);
    TotalSizeAppend([b[j]], right);
    TotalSizeAppend(left, right);
    assert TotalSize([b[j]]) == PairSize(b[j]) + TotalSize([]);
  }

  /** Taking one annotation out of a sequence takes it out of its multiset. */
  lemma {:induction false} MultisetRemove(b: seq<Annotation>, j: nat)
    requires j < |b|
    ensures multiset(b[..j] + b[j + 1..]) == multiset(b) - multiset{b[j]}
  {
    assert b == b[..j] + [b[j]] + b[j + 1..];
  }

  /** The total size does not depend on the order of the annotations. */
  lemma {:induction false} TotalSizeOrderIndependent(a: seq<Annotation>, b: seq<Annotation>)
    requires multiset(a) == multiset(b)
    ensures TotalSize(a) == TotalSize(b)
    decreases |a|
  {
    if a != [] {
      assert a == [a[0]] + a[1..];
      assert a[0] in multiset(b);
      var j :| 0 <= j < |b| && b[j] == a[0];
      TotalSizeRemove(b, j);
      MultisetRemove(b, j);
      assert multiset(a[1..]) == multiset(a) - multiset{a[0]};
      TotalSizeOrderIndependent(a[1..], b[..j] + b[j + 1..]);
    }
  }

  /** Go visits a map in an unspecified order. Whatever order is taken, the
      shown text has the same length, and it is cut or not alike. */
  lemma AnnotationsLengthOrderIndependent(a: seq<Annotation>, b: seq<Annotation>)
    requires multiset(a) == multiset(b)
    ensures |Truncate(RenderAnnotations(a))| == |Truncate(RenderAnnotations(b))|
    ensures |RenderAnnotations(a)| > MaxOutputLength <==> |RenderAnnotations(b)| > MaxOutputLength
  {
    RenderedLength(a);
    RenderedLength(b);
    TotalSizeOrderIndependent(a, b);
  }

  /** The annotations text the card shows: each annotation appended in turn,
      then the same cut as the check output. */
  method AnnotationsTruncated(annotations: seq<Annotation>) returns (output: Bytes)
    ensures output == Truncate(RenderAnnotations(annotations))
  {
    output := [];
    for i := 0 to |annotations|
      invariant output == RenderAnnotations(annotations[..i])
    {
      output := output + annotations[i].0 + [Newline] + annotations[i].1 + [Newline, Newline];
      assert annotations[..i + 1][..i] == annotations[..i];
    }
    assert annotations[..|annotations|] == annotations;
    if |output| > MaxOutputLength {
      output := TruncationBanner + output[..MaxOutputLength - |TruncationBanner|] + TruncationMarker;
    }
  }
}
