/** Rewriting the generated section of a document, between two marker comments that must each appear
    exactly once and in order. */
module Splice {
  import opened Wrappers

  datatype Error = NeedsOneOfEach | TextHasMarker | EndBeforeBegin

  datatype Markers = Markers(begin: string, end: string)

  const FINDINGS := Markers("<!-- BEGIN GENERATED FINDINGS -->", "<!-- END GENERATED FINDINGS -->")

  // ---- The library calls the splice is written with ----

  predicate At(s: string, m: string, i: int) {
    0 <= i && i + |m| <= |s| && forall t :: 0 <= t < |m| ==> s[i + t] == m[t]
  }

  /** First occurrence at or after i, or |s| + 1 when there is none. */
  function IndexFrom(s: string, m: string, i: nat): (k: nat)
    requires i <= |s| + 1
    ensures k == |s| + 1 || (i <= k && At(s, m, k))
    ensures forall j :: i <= j < k ==> !At(s, m, j)
    decreases |s| + 1 - i
  {
    if i == |s| + 1 || At(s, m, i) then i else IndexFrom(s, m, i + 1)
  }

  predicate Contains(s: string, m: string) {
    IndexFrom(s, m, 0) <= |s|
  }

  /** Non-overlapping occurrences, counted from the left. */
  function CountFrom(s: string, m: string, i: nat): nat
    requires |m| > 0 && i <= |s| + 1
    decreases |s| + 1 - i
  {
    var k := IndexFrom(s, m, i);
    if k > |s| then 0 else 1 + CountFrom(s, m, k + |m|)
  }

  function Count(s: string, m: string): nat
    requires |m| > 0
  {
    CountFrom(s, m, 0)
  }

  /** The text before and after the first occurrence. */
  function Cut(s: string, m: string): (string, string)
    requires Contains(s, m)
  {
    var k := IndexFrom(s, m, 0);
    (s[..k], s[k + |m|..])
  }

  /** The document with new text between its first begin marker and the first end marker after it. */
  function Section(k: Markers, doc: string, generated: string): Result<string, Error>
    requires Contains(doc, k.begin)
  {
    var (before, rest) := Cut(doc, k.begin);
    if !Contains(rest, k.end) then Failure(EndBeforeBegin)
    else
      var (_, after) := Cut(rest, k.end);
      Success(before + k.begin + "\n" + generated + k.end + after)
  }

  function Replace(k: Markers, doc: string, generated: string): Result<string, Error>
    requires |k.begin| > 0 && |k.end| > 0
  {
    if Count(doc, k.begin) != 1 || Count(doc, k.end) != 1 then Failure(NeedsOneOfEach)
    else if Contains(generated, k.begin) || Contains(generated, k.end) then Failure(TextHasMarker)
    else Section(k, doc, generated)
  }

  function ReplaceGenerated(doc: string, generated: string): Result<string, Error> {
    Replace(FINDINGS, doc, generated)
  }

  // ---- What the calls mean ----

  lemma ContainsMeans(s: string, m: string)
    ensures Contains(s, m) <==> exists i :: At(s, m, i)
  {
    if i :| At(s, m, i) {
      assert i <= |s|;
    }
  }

  /** A marker's first character appears nowhere else in it, so two copies never overlap. */
  ghost predicate Unbordered(m: string) {
    |m| > 0 && forall j :: 0 < j < |m| ==> m[j] != m[0]
  }

  ghost predicate OnlyAt(s: string, m: string, i: int) {
    At(s, m, i) && forall j :: At(s, m, j) ==> j == i
  }

  /** What the laws need of a marker pair; FindingsMarkers shows the real one has it. */
  ghost predicate Good(k: Markers) {
    && Unbordered(k.begin) && Unbordered(k.end)
    && k.begin[0] == k.end[0] != '\n'
    && exists j :: 0 <= j < |k.begin| && j < |k.end| && k.begin[j] != k.end[j]
  }

  lemma BeginUnbordered()
    ensures Unbordered(FINDINGS.begin)
  {
  }

  lemma EndUnbordered()
    ensures Unbordered(FINDINGS.end)
  {
  }

  lemma FindingsMarkers()
    ensures Good(FINDINGS)
  {
    BeginUnbordered();
    EndUnbordered();
    assert FINDINGS.begin[5] != FINDINGS.end[5];
  }

  lemma CharAt(s: string, m: string, i: int, p: int)
    requires At(s, m, i) && i <= p < i + |m|
    ensures s[p] == m[p - i]
  {
    assert s[i + (p - i)] == m[p - i];
  }

  /** Two markers that share their only opening character never overlap. */
  lemma NoOverlap(s: string, m: string, x: string, i: int, j: int)
    requires Unbordered(m) && |x| > 0 && x[0] == m[0] && At(s, m, i) && At(s, x, j) && i < j
    ensures i + |m| <= j
  {
    CharAt(s, x, j, j);
    if j < i + |m| {
      CharAt(s, m, i, j);
    }
  }

  lemma CountOne(s: string, m: string)
    requires Unbordered(m)
    ensures Count(s, m) == 1 <==> exists i :: OnlyAt(s, m, i)
    ensures Count(s, m) == 1 ==> OnlyAt(s, m, IndexFrom(s, m, 0))
  {
    var k := IndexFrom(s, m, 0);
    if k <= |s| {
      forall j | At(s, m, j) && k != j
        ensures k + |m| <= j
      {
        NoOverlap(s, m, m, k, j);
      }
      var l := IndexFrom(s, m, k + |m|);
      assert Count(s, m) == 1 + CountFrom(s, m, k + |m|);
      assert l > |s| ==> OnlyAt(s, m, k) && CountFrom(s, m, k + |m|) == 0;
      assert l <= |s| ==> At(s, m, l) && l != k;
    }
  }

  // ---- No marker forms across a seam ----

  /** When v starts with x's first character, an occurrence of x in u + v is in u or in v. */
  lemma SeamKeepsApart(u: string, v: string, x: string, i: int)
    requires Unbordered(x) && v != "" && v[0] == x[0] && At(u + v, x, i)
    ensures At(u, x, i) || At(v, x, i - |u|)
  {
    if i < |u| < i + |x| {
      CharAt(u + v, x, i, |u|);
    }
  }

  /** In m + rest, x can only start where m does, or in rest. */
  lemma PastMarker(m: string, rest: string, x: string, i: int)
    requires Unbordered(m) && Unbordered(x) && x[0] == m[0] && At(m + rest, x, i)
    ensures i == 0 || At(rest, x, i - |m|)
  {
    CharAt(m + rest, x, i, i);
  }

  /** Neither marker starts where the other does. */
  lemma MarkersDiffer(m: string, x: string, rest: string, j: int)
    requires 0 <= j < |m| && j < |x| && m[j] != x[j]
    ensures !At(m + rest, x, 0)
  {
    if At(m + rest, x, 0) {
      CharAt(m + rest, x, 0, j);
    }
  }

  function Assembled(k: Markers, before: string, generated: string, after: string): string {
    before + (k.begin + (("\n" + generated) + (k.end + after)))
  }

  ghost predicate Free(s: string, m: string) {
    forall i :: !At(s, m, i)
  }

  lemma NewlineFirst(generated: string, x: string)
    requires |x| > 0 && x[0] != '\n' && Free(generated, x)
    ensures Free("\n" + generated, x)
  {
    var s := "\n" + generated;
    forall i
      ensures !At(s, x, i)
    {
      assert !At(generated, x, i - 1);
      if At(s, x, i) {
        CharAt(s, x, i, i);
      }
    }
  }

  /** x in section + end + after, when the pieces are free of it, is the end marker itself. */
  lemma InTail(section: string, end: string, after: string, x: string, i: int)
    requires Unbordered(x) && Unbordered(end) && x[0] == end[0] && Free(section, x) && Free(after, x)
    requires At(section + (end + after), x, i)
    ensures i == |section| && At(end + after, x, 0)
  {
    SeamKeepsApart(section, end + after, x, i);
    PastMarker(end, after, x, i - |section|);
  }

  /** x in before + begin + rest is the begin marker itself, or in rest. */
  lemma InHead(before: string, begin: string, rest: string, x: string, i: int)
    requires Unbordered(x) && Unbordered(begin) && x[0] == begin[0] && Free(before, x)
    requires At(before + (begin + rest), x, i)
    ensures (i == |before| && At(begin + rest, x, 0)) || At(rest, x, i - |before| - |begin|)
  {
    SeamKeepsApart(before, begin + rest, x, i);
    PastMarker(begin, rest, x, i - |before|);
  }

  /** Where either marker can be in an assembled document. */
  lemma AssembledMarkers(k: Markers, before: string, generated: string, after: string, x: string, i: int)
    requires Good(k) && (x == k.begin || x == k.end)
    requires Free(before, x) && Free(generated, x) && Free(after, x)
    requires At(Assembled(k, before, generated, after), x, i)
    ensures i == if x == k.begin then |before| else |before| + |k.begin| + 1 + |generated|
  {
    var d :| 0 <= d < |k.begin| && d < |k.end| && k.begin[d] != k.end[d];
    var section, tail := "\n" + generated, k.end + after;
    NewlineFirst(generated, x);
    MarkersDiffer(k.begin, k.end, section + tail, d);
    MarkersDiffer(k.end, k.begin, after, d);
    InHead(before, k.begin, section + tail, x, i);
    if At(section + tail, x, i - |before| - |k.begin|) {
      InTail(section, k.end, after, x, i - |before| - |k.begin|);
    }
  }

  lemma AssembledOnce(k: Markers, before: string, generated: string, after: string)
    requires Good(k) && Clean(k, before) && Clean(k, generated) && Clean(k, after)
    ensures InOrder(k, Assembled(k, before, generated, after), |before|, |before| + |k.begin| + 1 + |generated|)
  {
    var r := Assembled(k, before, generated, after);
    var e := |before| + |k.begin| + 1 + |generated|;
    forall i | At(r, k.begin, i) {
      AssembledMarkers(k, before, generated, after, k.begin, i);
    }
    forall i | At(r, k.end, i) {
      AssembledMarkers(k, before, generated, after, k.end, i);
    }
  }

  // ---- The laws of the splice ----

  ghost predicate InOrder(k: Markers, doc: string, b: int, e: int) {
    OnlyAt(doc, k.begin, b) && OnlyAt(doc, k.end, e) && b < e
  }

  ghost predicate Clean(k: Markers, s: string) {
    Free(s, k.begin) && Free(s, k.end)
  }

  lemma Within(doc: string, lo: nat, hi: nat, x: string, i: int)
    requires lo <= hi <= |doc| && At(doc[lo..hi], x, i)
    ensures At(doc, x, lo + i)
  {
    forall t | 0 <= t < |x|
      ensures doc[lo + i + t] == x[t]
    {
      assert doc[lo..hi][i + t] == x[t];
    }
  }

  lemma OutsideClean(k: Markers, doc: string, b: int, e: int)
    requires Good(k) && InOrder(k, doc, b, e)
    ensures Clean(k, doc[..b]) && Clean(k, doc[e + |k.end|..])
  {
    NoOverlap(doc, k.begin, k.end, b, e);
    var hi := e + |k.end|;
    assert doc[..b] == doc[0..b] && doc[hi..] == doc[hi..|doc|];
    forall i
      ensures !At(doc[0..b], k.begin, i) && !At(doc[hi..|doc|], k.begin, i)
      ensures !At(doc[0..b], k.end, i) && !At(doc[hi..|doc|], k.end, i)
    {
      OnlyOutside(doc, k.begin, 0, b, b, i);
      OnlyOutside(doc, k.begin, hi, |doc|, b, i);
      OnlyOutside(doc, k.end, 0, b, e, i);
      OnlyOutside(doc, k.end, hi, |doc|, e, i);
    }
  }

  lemma OnlyOutside(doc: string, x: string, lo: nat, hi: nat, only: int, i: int)
    requires |x| > 0 && lo <= hi <= |doc| && OnlyAt(doc, x, only) && !(lo <= only && only + |x| <= hi)
    ensures !At(doc[lo..hi], x, i)
  {
    if At(doc[lo..hi], x, i) {
      Within(doc, lo, hi, x, i);
    }
  }

  /** Cutting at the first marker finds the only one. */
  lemma FirstIsOnly(s: string, m: string, i: nat)
    requires OnlyAt(s, m, i)
    ensures IndexFrom(s, m, 0) == i && Contains(s, m)
  {
  }

  lemma EndAfterBegin(k: Markers, doc: string, b: int, e: int)
    requires Good(k) && InOrder(k, doc, b, e)
    ensures b + |k.begin| <= e && OnlyAt(doc[b + |k.begin|..], k.end, e - b - |k.begin|)
  {
    NoOverlap(doc, k.begin, k.end, b, e);
    var lo := b + |k.begin|;
    var rest := doc[lo..|doc|];
    assert doc[lo..] == rest;
    assert At(rest, k.end, e - lo);
    forall j | At(rest, k.end, j)
      ensures j == e - lo
    {
      Within(doc, lo, |doc|, k.end, j);
    }
  }

  lemma SectionUnfolds(k: Markers, doc: string, generated: string, b: nat, j: nat)
    requires b == IndexFrom(doc, k.begin, 0) <= |doc|
    requires j == IndexFrom(doc[b + |k.begin|..], k.end, 0) <= |doc[b + |k.begin|..]|
    ensures Section(k, doc, generated)
         == Success(doc[..b] + k.begin + "\n" + generated + k.end + doc[b + |k.begin|..][j + |k.end|..])
  {
  }

  lemma Rejoined(doc: string, m: string, x: string, middle: string, b: nat, e: nat)
    requires At(doc, m, b) && At(doc, x, e) && b + |m| <= e
    ensures doc[..b] + m + "\n" + middle + x + doc[b + |m|..][e - b - |m| + |x|..]
         == doc[..b + |m|] + "\n" + middle + doc[e..]
  {
    assert doc[..b + |m|] == doc[..b] + m;
    assert doc[b + |m|..][e - b - |m| + |x|..] == doc[e + |x|..];
    assert doc[e..] == x + doc[e + |x|..];
  }

  lemma SectionAt(k: Markers, doc: string, generated: string, b: nat, e: nat)
    requires At(doc, k.begin, b) && At(doc, k.end, e) && b + |k.begin| <= e
    requires b == IndexFrom(doc, k.begin, 0)
    requires e - b - |k.begin| == IndexFrom(doc[b + |k.begin|..], k.end, 0)
    ensures Contains(doc, k.begin)
    ensures Section(k, doc, generated) == Success(doc[..b + |k.begin|] + "\n" + generated + doc[e..])
  {
    SectionUnfolds(k, doc, generated, b, e - b - |k.begin|);
    Rejoined(doc, k.begin, k.end, generated, b, e);
  }

  lemma SectionBetween(k: Markers, doc: string, generated: string, b: int, e: int)
    requires Good(k) && InOrder(k, doc, b, e)
    ensures b + |k.begin| <= e && Contains(doc, k.begin)
    ensures Section(k, doc, generated) == Success(doc[..b + |k.begin|] + "\n" + generated + doc[e..])
  {
    FirstIsOnly(doc, k.begin, b);
    EndAfterBegin(k, doc, b, e);
    FirstIsOnly(doc[b + |k.begin|..], k.end, e - b - |k.begin|);
    SectionAt(k, doc, generated, b, e);
  }

  lemma Guarded(k: Markers, doc: string, generated: string)
    requires Good(k)
    ensures (exists b :: OnlyAt(doc, k.begin, b)) ==> Contains(doc, k.begin)
    ensures Replace(k, doc, generated) ==
              if !((exists b :: OnlyAt(doc, k.begin, b)) && exists e :: OnlyAt(doc, k.end, e)) then
                Failure(NeedsOneOfEach)
              else if !Clean(k, generated) then Failure(TextHasMarker)
              else Section(k, doc, generated)
  {
    CountOne(doc, k.begin);
    CountOne(doc, k.end);
    ContainsMeans(generated, k.begin);
    ContainsMeans(generated, k.end);
  }

  /** With one marker of each kind in order, the text up to and including the first and from the second on is kept. */
  lemma ReplaceBetween(k: Markers, doc: string, generated: string, b: int, e: int)
    requires Good(k) && InOrder(k, doc, b, e)
    ensures b + |k.begin| <= e
    ensures Replace(k, doc, generated) ==
              if Clean(k, generated) then Success(doc[..b + |k.begin|] + "\n" + generated + doc[e..])
              else Failure(TextHasMarker)
  {
    Guarded(k, doc, generated);
    SectionBetween(k, doc, generated, b, e);
  }

  lemma SectionFound(k: Markers, doc: string, generated: string)
    requires |k.begin| > 0 && Contains(doc, k.begin) && Section(k, doc, generated).Success?
    ensures exists b, e :: At(doc, k.begin, b) && At(doc, k.end, e) && b < e
  {
    var b := IndexFrom(doc, k.begin, 0);
    var lo := b + |k.begin|;
    var j := IndexFrom(doc[lo..], k.end, 0);
    assert doc[lo..] == doc[lo..|doc|];
    Within(doc, lo, |doc|, k.end, j);
    assert At(doc, k.begin, b) && At(doc, k.end, lo + j);
  }

  /** It accepts exactly the documents with one marker of each kind, in order, and marker-free text. */
  lemma ReplaceAccepts(k: Markers, doc: string, generated: string)
    requires Good(k)
    ensures Replace(k, doc, generated).Success? <==> Clean(k, generated) && exists b, e :: InOrder(k, doc, b, e)
  {
    if b, e :| InOrder(k, doc, b, e) {
      ReplaceBetween(k, doc, generated, b, e);
    }
    Guarded(k, doc, generated);
    if Replace(k, doc, generated).Success? {
      CountOne(doc, k.begin);
      SectionFound(k, doc, generated);
      var b, e :| At(doc, k.begin, b) && At(doc, k.end, e) && b < e;
      assert InOrder(k, doc, b, e);
    }
  }

  lemma AssembledIs(k: Markers, doc: string, generated: string, b: nat, e: nat)
    requires At(doc, k.begin, b) && At(doc, k.end, e) && b + |k.begin| <= e
    ensures var r, e' := doc[..b + |k.begin|] + "\n" + generated + doc[e..], b + |k.begin| + 1 + |generated|;
            && r == Assembled(k, doc[..b], generated, doc[e + |k.end|..])
            && r[b + |k.begin|..e'] == "\n" + generated
            && r[..b + |k.begin|] == doc[..b + |k.begin|]
            && r[e'..] == doc[e..]
  {
    assert doc[..b + |k.begin|] == doc[..b] + k.begin && doc[e..] == k.end + doc[e + |k.end|..];
  }

  ghost predicate Shaped(k: Markers, doc: string, generated: string, r: string, b: int, e: int) {
    var lo, e' := b + |k.begin|, b + |k.begin| + 1 + |generated|;
    && InOrder(k, r, b, e') && 0 <= lo <= e <= |doc| && e' <= |r|
    && r[lo..e'] == "\n" + generated && r[..lo] == doc[..lo] && r[e'..] == doc[e..]
  }

  lemma ShapeAt(k: Markers, doc: string, generated: string, b: int, e: int)
    requires Good(k) && InOrder(k, doc, b, e) && Clean(k, generated) && b + |k.begin| <= e
    ensures Shaped(k, doc, generated, doc[..b + |k.begin|] + "\n" + generated + doc[e..], b, e)
  {
    OutsideClean(k, doc, b, e);
    AssembledOnce(k, doc[..b], generated, doc[e + |k.end|..]);
    AssembledIs(k, doc, generated, b, e);
  }

  /** The result again has one marker of each kind, the new text exactly between them, and the rest as it was. */
  lemma ReplaceKeepsShape(k: Markers, doc: string, generated: string, b: int, e: int)
    requires Good(k) && InOrder(k, doc, b, e) && Clean(k, generated)
    ensures Replace(k, doc, generated).Success? && Shaped(k, doc, generated, Replace(k, doc, generated).value, b, e)
  {
    ReplaceBetween(k, doc, generated, b, e);
    ShapeAt(k, doc, generated, b, e);
  }

  lemma SameAround(k: Markers, doc: string, r: string, last: string, b: int, e: int, e': int, v: Result<string, Error>)
    requires Good(k) && InOrder(k, doc, b, e) && InOrder(k, r, b, e')
    requires 0 <= b + |k.begin| <= e <= |doc| && b + |k.begin| <= e' <= |r|
    requires r[..b + |k.begin|] == doc[..b + |k.begin|] && r[e'..] == doc[e..]
    requires v == Replace(k, doc, last)
    ensures Replace(k, r, last) == v
  {
    var head, tail := doc[..b + |k.begin|], doc[e..];
    assert v == if Clean(k, last) then Success(head + "\n" + last + tail) else Failure(TextHasMarker) by {
      ReplaceBetween(k, doc, last, b, e);
    }
    ReplaceBetween(k, r, last, b, e');
  }

  /** Replacing twice is replacing once with the last text, refusals included. */
  lemma ReplaceTwice(k: Markers, doc: string, first: string, last: string)
    requires Good(k) && Replace(k, doc, first).Success?
    ensures Replace(k, Replace(k, doc, first).value, last) == Replace(k, doc, last)
  {
    ReplaceAccepts(k, doc, first);
    var b, e :| InOrder(k, doc, b, e);
    ReplaceKeepsShape(k, doc, first, b, e);
    SameAround(k, doc, Replace(k, doc, first).value, last, b, e, b + |k.begin| + 1 + |first|, Replace(k, doc, last));
  }

  /** So the findings section can be regenerated any number of times. */
  lemma RegenerateTwice(doc: string, first: string, last: string)
    requires ReplaceGenerated(doc, first).Success?
    ensures ReplaceGenerated(ReplaceGenerated(doc, first).value, last) == ReplaceGenerated(doc, last)
  {
    FindingsMarkers();
    ReplaceTwice(FINDINGS, doc, first, last);
  }
}
