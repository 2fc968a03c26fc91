/** Huginn's filter for the Prometheus text format: which lines pass, how labels are split on commas
    outside quoted values, and how the host label is added. */
module Textfile {
  import opened Wrappers

  // ---- Character classes and the three line patterns ----

  predicate Digit(c: char) { '0' <= c <= '9' }
  predicate Alpha(c: char) { 'a' <= c <= 'z' || 'A' <= c <= 'Z' || c == '_' }
  predicate LabelChar(c: char) { Alpha(c) || Digit(c) }
  predicate NameChar(c: char) { LabelChar(c) || c == ':' }
  predicate Gap(c: char) { c == ' ' || c == '\t' }
  predicate Plain(c: char) { c != '{' && c != '}' }

  /** unicode.IsSpace */
  predicate Space(c: char) {
    || '\t' <= c <= '\r' || c == ' ' || c == '\U{85}' || c == '\U{A0}' || c == '\U{1680}'
    || '\U{2000}' <= c <= '\U{200a}' || c == '\U{2028}' || c == '\U{2029}' || c == '\U{202f}'
    || c == '\U{205f}' || c == '\U{3000}'
  }

  predicate All(s: string, p: char -> bool) {
    forall i :: 0 <= i < |s| ==> p(s[i])
  }

  /** Length of the longest prefix inside a class: what a greedy class repetition takes. */
  function Span(s: string, p: char -> bool): (n: nat)
    ensures n <= |s|
  {
    if s == "" || !p(s[0]) then 0 else 1 + Span(s[1..], p)
  }

  lemma {:induction false} SpanMeans(s: string, p: char -> bool)
    ensures All(s[..Span(s, p)], p) && (Span(s, p) < |s| ==> !p(s[Span(s, p)]))
  {
    if s != "" && p(s[0]) {
      SpanMeans(s[1..], p);
      assert s[..Span(s, p)] == [s[0]] + s[1..][..Span(s, p) - 1];
    }
  }

  predicate IsName(s: string) {
    s != "" && !Digit(s[0]) && All(s, NameChar)
  }

  predicate IsLabelName(s: string) {
    s != "" && !Digit(s[0]) && All(s, LabelChar)
  }

  predicate Digits(s: string) {
    s != "" && All(s, Digit)
  }

  predicate IsMantissa(s: string) {
    var n := Span(s, Digit);
    Digits(s) || (n < |s| && s[n] == '.' && Digits(s[n + 1..]))
  }

  function Unsigned(s: string): string {
    if s != "" && (s[0] == '-' || s[0] == '+') then s[1..] else s
  }

  predicate Decimal(c: char) { Digit(c) || c == '.' }

  predicate IsNumber(s: string) {
    var n := Span(s, Decimal);
    IsMantissa(s[..n]) && (n == |s| || ((s[n] == 'e' || s[n] == 'E') && Digits(Unsigned(s[n + 1..]))))
  }

  predicate IsWord(s: string, a: char, b: char, c: char) {
    |s| == 3 && s[0] == a && s[1] == b && s[2] == c
  }

  predicate IsValue(s: string) {
    var u := Unsigned(s);
    IsWord(u, 'I', 'n', 'f') || IsWord(u, 'N', 'a', 'N') || IsNumber(u)
  }

  predicate IsBlock(s: string) {
    |s| >= 2 && s[0] == '{' && s[|s| - 1] == '}' && All(s[1..|s| - 1], Plain)
  }

  /** The inside of a quoted value: plain characters and backslash pairs. */
  predicate IsBody(s: string) {
    || s == ""
    || (s[0] != '"' && s[0] != '\\' && IsBody(s[1..]))
    || (s[0] == '\\' && |s| >= 2 && s[1] != '\n' && IsBody(s[2..]))
  }

  predicate IsLabel(s: string) {
    var n := Span(s, LabelChar);
    && IsLabelName(s[..n])
    && |s| >= n + 3 && s[n] == '=' && s[n + 1] == '"' && s[|s| - 1] == '"'
    && IsBody(s[n + 2..|s| - 1])
  }

  // ---- Splitting on commas outside quoted values ----

  datatype Scan = Scan(done: seq<string>, cur: string, inQuote: bool, esc: bool)

  function Feed(st: Scan, c: char): Scan {
    if !st.esc && c == ',' && !st.inQuote then Scan(st.done + [st.cur], "", false, false)
    else
      var esc := !st.esc && c == '\\' && st.inQuote;
      var inQuote := if !st.esc && !esc && c == '"' then !st.inQuote else st.inQuote;
      Scan(st.done, st.cur + [c], inQuote, esc)
  }

  function FeedAll(st: Scan, s: string): Scan
    decreases |s|
  {
    if s == "" then st else FeedAll(Feed(st, s[0]), s[1..])
  }

  const START := Scan([], "", false, false)

  predicate Blank(s: string) {
    All(s, Space)
  }

  function Pieces(st: Scan): seq<string> {
    if Blank(st.cur) then st.done else st.done + [st.cur]
  }

  function Split(s: string): seq<string> {
    Pieces(FeedAll(START, s))
  }

  function Join(ps: seq<string>): string {
    if ps == [] then "" else if |ps| == 1 then ps[0] else ps[0] + "," + Join(ps[1..])
  }

  lemma {:induction false} FeedAllConcat(st: Scan, a: string, b: string)
    ensures FeedAll(st, a + b) == FeedAll(FeedAll(st, a), b)
    decreases |a|
  {
    if a == "" {
      assert a + b == b;
    } else {
      assert (a + b)[1..] == a[1..] + b;
      FeedAllConcat(Feed(st, a[0]), a[1..], b);
    }
  }

  method SplitLabels(s: string) returns (out: seq<string>)
    ensures out == Split(s)
  {
    out := [];
    var b: string := "";
    var inQuote, esc := false, false;
    for i := 0 to |s|
      invariant FeedAll(START, s[..i]) == Scan(out, b, inQuote, esc)
    {
      var r := s[i];
      FeedAllConcat(START, s[..i], [r]);
      assert s[..i + 1] == s[..i] + [r] && [r][1..] == "";
      assert FeedAll(FeedAll(START, s[..i]), [r]) == FeedAll(Feed(FeedAll(START, s[..i]), r), "");
      if esc {
        esc := false;
      } else if r == '\\' && inQuote {
        esc := true;
      } else if r == '"' {
        inQuote := !inQuote;
      } else if r == ',' && !inQuote {
        out := out + [b];
        b := "";
        continue;
      }
      b := b + [r];
    }
    assert s[..|s|] == s;
    if !Blank(b) {
      out := out + [b];
    }
  }

  lemma {:induction false} JoinSnoc(ps: seq<string>, p: string)
    ensures Join(ps + [p]) == if ps == [] then p else Join(ps) + "," + p
  {
    if |ps| > 1 {
      assert (ps + [p])[1..] == ps[1..] + [p];
      JoinSnoc(ps[1..], p);
    }
  }

  /** Nothing is lost or moved: the pieces and the commas between them are the text. */
  lemma {:induction false} ScanConserves(st: Scan, s: string)
    ensures var e := FeedAll(st, s); Join(e.done + [e.cur]) == Join(st.done + [st.cur]) + s
    decreases |s|
  {
    if s != "" {
      var st' := Feed(st, s[0]);
      ScanConserves(st', s[1..]);
      JoinSnoc(st.done, st.cur);
      JoinSnoc(st.done, st.cur + [s[0]]);
      JoinSnoc(st.done + [st.cur], "");
      assert s == [s[0]] + s[1..];
    }
  }

  lemma SplitConserves(s: string)
    ensures Join(Split(s)) == s
         || exists tail :: Blank(tail) && s == (if Split(s) == [] then tail else Join(Split(s)) + "," + tail)
  {
    ScanConserves(START, s);
    var e := FeedAll(START, s);
    JoinSnoc(e.done, e.cur);
    assert Join([""]) == "";
  }

  lemma {:induction false} FeedBody(st: Scan, s: string)
    requires IsBody(s) && st.inQuote && !st.esc
    ensures FeedAll(st, s) == st.(cur := st.cur + s)
    decreases |s|
  {
    if s == "" {
    } else if s[0] == '\\' {
      var st' := Feed(Feed(st, s[0]), s[1]);
      assert s[1..][1..] == s[2..];
      assert FeedAll(st, s) == FeedAll(Feed(st, s[0]), s[1..]) == FeedAll(st', s[2..]);
      FeedBody(st', s[2..]);
      assert st.cur + s == st.cur + [s[0]] + [s[1]] + s[2..];
    } else {
      FeedBody(Feed(st, s[0]), s[1..]);
      assert st.cur + s == st.cur + [s[0]] + s[1..];
    }
  }

  lemma {:induction false} FeedPlain(st: Scan, s: string)
    requires !st.inQuote && !st.esc && All(s, LabelChar)
    ensures FeedAll(st, s) == st.(cur := st.cur + s)
    decreases |s|
  {
    if s != "" {
      FeedPlain(Feed(st, s[0]), s[1..]);
      assert st.cur + s == st.cur + [s[0]] + s[1..];
    }
  }

  lemma FeedOne(st: Scan, c: char)
    ensures FeedAll(st, [c]) == Feed(st, c)
  {
    assert [c][1..] == "";
    assert FeedAll(Feed(st, c), "") == Feed(st, c);
  }

  lemma FeedThen(st: Scan, c: char, s: string)
    ensures FeedAll(st, [c] + s) == FeedAll(Feed(st, c), s)
  {
    assert ([c] + s)[1..] == s;
  }

  function Quoted(body: string): string {
    ['=', '"'] + (body + ['"'])
  }

  lemma FeedClosed(st: Scan, body: string)
    requires st.inQuote && !st.esc && IsBody(body)
    ensures FeedAll(st, body + ['"']) == Scan(st.done, st.cur + body + ['"'], false, false)
  {
    FeedAllConcat(st, body, ['"']);
    FeedBody(st, body);
    FeedOne(Scan(st.done, st.cur + body, true, false), '"');
  }

  lemma FeedOpen(st: Scan)
    requires !st.inQuote && !st.esc
    ensures FeedAll(st, ['=', '"']) == Scan(st.done, st.cur + ['=', '"'], true, false)
  {
    FeedThen(st, '=', ['"']);
    FeedOne(Feed(st, '='), '"');
    assert ['='] + ['"'] == ['=', '"'];
    assert st.cur + ['='] + ['"'] == st.cur + ['=', '"'];
  }

  lemma FeedQuoted(st: Scan, body: string)
    requires !st.inQuote && !st.esc && IsBody(body)
    ensures FeedAll(st, Quoted(body)) == Scan(st.done, st.cur + Quoted(body), false, false)
  {
    var open := ['=', '"'];
    var st' := Scan(st.done, st.cur + open, true, false);
    FeedOpen(st);
    FeedClosed(st', body);
    FeedAllConcat(st, open, body + ['"']);
    Regroup(st.cur, open, body, ['"']);
  }

  lemma Regroup(a: string, b: string, c: string, d: string)
    ensures a + b + c + d == a + (b + (c + d))
  {
  }

  lemma LabelParts(p: string) returns (name: string, body: string)
    requires IsLabel(p)
    ensures p == name + Quoted(body) && IsLabelName(name) && IsBody(body)
  {
    var n := Span(p, LabelChar);
    name, body := p[..n], p[n + 2..|p| - 1];
  }

  lemma FeedTwo(st: Scan, st': Scan, a: string, b: string)
    requires st' == Scan(st.done, st.cur + a, st.inQuote, st.esc)
    requires FeedAll(st, a) == st' && FeedAll(st', b) == Scan(st.done, st'.cur + b, false, false)
    ensures FeedAll(st, a + b) == Scan(st.done, st.cur + (a + b), false, false)
  {
    FeedAllConcat(st, a, b);
    assert st.cur + a + b == st.cur + (a + b);
  }

  lemma FeedParts(st: Scan, name: string, body: string)
    requires !st.inQuote && !st.esc && All(name, LabelChar) && IsBody(body)
    ensures FeedAll(st, name + Quoted(body)) == Scan(st.done, st.cur + (name + Quoted(body)), false, false)
  {
    var st' := Scan(st.done, st.cur + name, false, false);
    FeedPlain(st, name);
    FeedQuoted(st', body);
    FeedTwo(st, st', name, Quoted(body));
  }

  /** A whole label is taken as it stands, from a closed quote to a closed quote. */
  lemma FeedLabel(st: Scan, p: string)
    requires !st.inQuote && !st.esc && IsLabel(p)
    ensures FeedAll(st, p) == Scan(st.done, st.cur + p, false, false)
  {
    var name, body := LabelParts(p);
    FeedParts(st, name, body);
  }

  lemma CommaFirst(t: string, p: string)
    ensures t + "," + p == t + ([','] + p)
  {
  }

  lemma FeedNext(t: string, st: Scan, p: string)
    requires FeedAll(START, t) == st && !st.inQuote && !st.esc && IsLabel(p)
    ensures FeedAll(START, t + "," + p) == Scan(st.done + [st.cur], p, false, false)
  {
    var next := Scan(st.done + [st.cur], "", false, false);
    assert FeedAll(next, p) == Scan(st.done + [st.cur], p, false, false) by {
      FeedLabel(next, p);
      assert "" + p == p;
    }
    assert FeedAll(st, [','] + p) == FeedAll(next, p) by {
      FeedThen(st, ',', p);
    }
    FeedAllConcat(START, t, [','] + p);
    CommaFirst(t, p);
  }

  lemma FeedFirst(last: string)
    requires IsLabel(last)
    ensures FeedAll(START, Join([] + [last])) == Scan([], last, false, false)
  {
    JoinSnoc([], last);
    FeedLabel(START, last);
    assert "" + last == last;
  }

  lemma FeedMore(rest: seq<string>, p: string, last: string)
    requires FeedAll(START, Join(rest + [p])) == Scan(rest, p, false, false) && IsLabel(last)
    ensures FeedAll(START, Join(rest + [p] + [last])) == Scan(rest + [p], last, false, false)
  {
    JoinSnoc(rest + [p], last);
    FeedNext(Join(rest + [p]), Scan(rest, p, false, false), last);
  }

  lemma {:induction false} FeedJoin(ps: seq<string>, last: string)
    requires AllLabels(ps) && IsLabel(last)
    ensures FeedAll(START, Join(ps + [last])) == Scan(ps, last, false, false)
    decreases |ps|
  {
    if ps == [] {
      FeedFirst(last);
    } else {
      var rest, p := ps[..|ps| - 1], ps[|ps| - 1];
      assert ps == rest + [p];
      FeedJoin(rest, p);
      FeedMore(rest, p, last);
    }
  }

  lemma LabelNotBlank(p: string)
    requires IsLabel(p)
    ensures !Blank(p)
  {
    assert !Space(p[|p| - 1]);
  }

  /** Any list of well-formed labels, commas and escaped quotes in their values included, survives the join. */
  lemma SplitJoin(ps: seq<string>)
    requires AllLabels(ps)
    ensures Split(Join(ps)) == ps
  {
    if ps != [] {
      var rest, p := ps[..|ps| - 1], ps[|ps| - 1];
      assert ps == rest + [p];
      FeedJoin(rest, p);
      LabelNotBlank(p);
    }
  }

  // ---- The sample pattern ----

  datatype Sample = Sample(name: string, labels: string, value: string)

  function BlockLength(s: string): (k: nat)
    ensures k <= |s|
  {
    if s == "" || s[0] != '{' then 0
    else
      var j := 1 + Span(s[1..], Plain);
      if j < |s| && s[j] == '}' then j + 1 else 0
  }

  lemma BlockMeans(s: string)
    ensures BlockLength(s) > 0 ==> IsBlock(s[..BlockLength(s)])
  {
    if s != "" {
      SpanMeans(s[1..], Plain);
      var j := 1 + Span(s[1..], Plain);
      assert j < |s| ==> s[..j + 1][1..j] == s[1..][..j - 1];
    }
  }

  function Unbraced(block: string): string {
    if |block| < 2 then "" else block[1..|block| - 1]
  }

  /** The regular expression, read from left to right without backtracking. */
  function ParseSample(line: string): Option<Sample> {
    ParseNamed(line, Span(line, NameChar))
  }

  function ParseNamed(line: string, n: nat): Option<Sample>
    requires n <= |line|
  {
    if !IsName(line[..n]) then None else ParseBlock(line[..n], line[n..])
  }

  function ParseBlock(name: string, rest: string): Option<Sample> {
    var k := BlockLength(rest);
    ParseValue(name, Unbraced(rest[..k]), rest[k..])
  }

  function ParseValue(name: string, labels: string, tail: string): Option<Sample> {
    var g := Span(tail, Gap);
    if g == 0 || !IsValue(tail[g..]) then None else Some(Sample(name, labels, tail[g..]))
  }

  /** The regular expression, as the language it denotes. */
  ghost predicate Matches(line: string, name: string, block: string, gap: string, value: string) {
    && line == name + (block + (gap + value))
    && IsName(name) && (block == "" || IsBlock(block)) && gap != "" && All(gap, Gap) && IsValue(value)
  }

  lemma {:induction false} SpanOf(a: string, b: string, p: char -> bool)
    requires All(a, p) && (b == "" || !p(b[0]))
    ensures Span(a + b, p) == |a|
    decreases |a|
  {
    if a == "" {
      assert a + b == b;
    } else {
      assert (a + b)[1..] == a[1..] + b;
      SpanOf(a[1..], b, p);
    }
  }

  lemma NumberChars(s: string, i: nat)
    requires IsNumber(s) && i < |s|
    ensures Decimal(s[i]) || s[i] == 'e' || s[i] == 'E' || s[i] == '-' || s[i] == '+'
  {
    var n := Span(s, Decimal);
    SpanMeans(s, Decimal);
    if i < n {
      assert s[i] == s[..n][i];
    } else if i > n {
      var u := Unsigned(s[n + 1..]);
      assert s[i] == s[n + 1..][i - n - 1];
      if i > n + 1 {
        assert s[n + 1..][i - n - 1] in u;
      }
    }
  }

  lemma ValueChars(s: string)
    requires IsValue(s)
    ensures s != "" && All(s, Plain) && forall i :: 0 <= i < |s| ==> !Gap(s[i])
  {
    var u := Unsigned(s);
    forall i | 0 <= i < |s|
      ensures Plain(s[i]) && !Gap(s[i])
    {
      if |u| == |s| || i > 0 {
        var j := i - (|s| - |u|);
        assert s[i] == u[j];
        if IsNumber(u) {
          NumberChars(u, j);
        }
      }
    }
  }

  lemma BlockLengthOf(block: string, rest: string)
    requires IsBlock(block)
    ensures BlockLength(block + rest) == |block|
  {
    var inner, close := block[1..|block| - 1], ['}'] + rest;
    assert (block + rest)[1..] == inner + close;
    SpanOf(inner, close, Plain);
  }

  lemma ValueParsed(name: string, labels: string, gap: string, value: string)
    requires gap != "" && All(gap, Gap) && IsValue(value)
    ensures ParseValue(name, labels, gap + value) == Some(Sample(name, labels, value))
  {
    ValueChars(value);
    SpanOf(gap, value, Gap);
    assert (gap + value)[|gap|..] == value;
  }

  lemma BlockParsed(name: string, block: string, tail: string)
    requires (block == "" || IsBlock(block)) && tail != "" && Gap(tail[0])
    ensures ParseBlock(name, block + tail) == ParseValue(name, Unbraced(block), tail)
  {
    if block == "" {
      assert block + tail == tail && BlockLength(tail) == 0 && tail[..0] == "" && tail[0..] == tail;
    } else {
      BlockLengthOf(block, tail);
      assert (block + tail)[..|block|] == block && (block + tail)[|block|..] == tail;
    }
  }

  lemma NameParsed(name: string, rest: string)
    requires IsName(name) && rest != "" && (Gap(rest[0]) || rest[0] == '{')
    ensures ParseSample(name + rest) == ParseBlock(name, rest)
  {
    SpanOf(name, rest, NameChar);
    assert (name + rest)[..|name|] == name && (name + rest)[|name|..] == rest;
  }

  lemma MatchIsParsed(line: string, name: string, block: string, gap: string, value: string)
    requires Matches(line, name, block, gap, value)
    ensures ParseSample(line) == Some(Sample(name, Unbraced(block), value))
  {
    ValueParsed(name, Unbraced(block), gap, value);
    BlockParsed(name, block, gap + value);
    NameParsed(name, block + (gap + value));
  }

  lemma ParsedValue(name: string, labels: string, tail: string, sample: Sample) returns (gap: string)
    requires ParseValue(name, labels, tail) == Some(sample)
    ensures sample.name == name && sample.labels == labels && tail == gap + sample.value
    ensures gap != "" && All(gap, Gap) && IsValue(sample.value)
  {
    gap := tail[..Span(tail, Gap)];
    SpanMeans(tail, Gap);
  }

  lemma Cut(line: string, n: nat)
    requires n <= |line|
    ensures line == line[..n] + line[n..]
  {
  }

  lemma BlockUnfolds(name: string, rest: string) returns (block: string, tail: string)
    ensures rest == block + tail && (block == "" || IsBlock(block))
    ensures ParseBlock(name, rest) == ParseValue(name, Unbraced(block), tail)
  {
    var k := BlockLength(rest);
    block, tail := rest[..k], rest[k..];
    Cut(rest, k);
    BlockMeans(rest);
  }

  lemma ParsedBlock(name: string, rest: string, sample: Sample) returns (block: string, gap: string)
    requires ParseBlock(name, rest) == Some(sample)
    ensures sample.name == name && sample.labels == Unbraced(block) && rest == block + (gap + sample.value)
    ensures (block == "" || IsBlock(block)) && gap != "" && All(gap, Gap) && IsValue(sample.value)
  {
    var tail;
    block, tail := BlockUnfolds(name, rest);
    gap := ParsedValue(name, Unbraced(block), tail, sample);
  }

  lemma NamedUnfolds(line: string, n: nat)
    requires n <= |line| && ParseNamed(line, n).Some?
    ensures IsName(line[..n]) && ParseNamed(line, n) == ParseBlock(line[..n], line[n..])
  {
  }

  lemma ParsedName(line: string, sample: Sample) returns (name: string, rest: string)
    requires ParseSample(line) == Some(sample)
    ensures line == name + rest && IsName(name) && ParseBlock(name, rest) == Some(sample)
  {
    var n := Span(line, NameChar);
    name, rest := line[..n], line[n..];
    NamedUnfolds(line, n);
    Cut(line, n);
  }

  lemma ParsedIsMatch(line: string, sample: Sample) returns (block: string, gap: string)
    requires ParseSample(line) == Some(sample)
    ensures Matches(line, sample.name, block, gap, sample.value) && sample.labels == Unbraced(block)
  {
    var name, rest := ParsedName(line, sample);
    block, gap := ParsedBlock(name, rest, sample);
  }

  /** The scan accepts exactly the lines the pattern denotes, and reads off its groups. */
  lemma ParseIsPattern(line: string, sample: Sample)
    ensures ParseSample(line) == Some(sample)
       <==> exists block, gap ::
              Matches(line, sample.name, block, gap, sample.value) && sample.labels == Unbraced(block)
  {
    forall block, gap | Matches(line, sample.name, block, gap, sample.value) && sample.labels == Unbraced(block) {
      MatchIsParsed(line, sample.name, block, gap, sample.value);
    }
    if ParseSample(line) == Some(sample) {
      var block, gap := ParsedIsMatch(line, sample);
    }
  }

  // ---- Adding the host ----

  predicate StartsWith(s: string, prefix: string) {
    |prefix| <= |s| && s[..|prefix|] == prefix
  }

  predicate IsComment(line: string) {
    && (StartsWith(line, "# HELP ") || StartsWith(line, "# TYPE "))
    && var rest := line[7..];
       var n := Span(rest, NameChar);
       IsName(rest[..n]) && (n == |rest| || (rest[n] == ' ' && '\n' !in rest[n..]))
  }

  function TrimLeft(s: string): string {
    s[Span(s, Space)..]
  }

  function TrimRight(s: string): string {
    if s != "" && Space(s[|s| - 1]) then TrimRight(s[..|s| - 1]) else s
  }

  function Trim(s: string): string {
    TrimRight(TrimLeft(s))
  }

  function Trims(ps: seq<string>): (r: seq<string>)
    ensures |r| == |ps|
    ensures forall i :: 0 <= i < |ps| ==> r[i] == Trim(ps[i])
  {
    if ps == [] then [] else [Trim(ps[0])] + Trims(ps[1..])
  }

  /** The pieces of a label block, untrimmed labels being a block of blanks only. */
  function Parts(labels: string): seq<string> {
    if Blank(labels) then [] else Trims(Split(labels))
  }

  predicate IsHost(p: string) {
    |p| >= 5 && p[0] == 'h' && p[1] == 'o' && p[2] == 's' && p[3] == 't' && p[4] == '='
  }

  predicate HasHost(ps: seq<string>) {
    exists i :: 0 <= i < |ps| && IsHost(ps[i])
  }

  function Hex(n: int): char
    requires 0 <= n < 16
  {
    if n < 10 then '0' + n as char else 'a' + (n - 10) as char
  }

  /** How Go quotes one ASCII or printable character. */
  function Escape(c: char): string {
    if c == '"' || c == '\\' then ['\\', c]
    else if c == '\n' then ['\\', 'n']
    else if c == '\t' then ['\\', 't']
    else if c == '\r' then ['\\', 'r']
    else if c == '\U{7}' then ['\\', 'a']
    else if c == '\U{8}' then ['\\', 'b']
    else if c == '\U{B}' then ['\\', 'v']
    else if c == '\U{C}' then ['\\', 'f']
    else if c < ' ' || c == '\U{7F}' then ['\\', 'x', Hex(c as int / 16), Hex(c as int % 16)]
    else [c]
  }

  function EscapeAll(s: string): string {
    if s == "" then "" else Escape(s[0]) + EscapeAll(s[1..])
  }

  function HostLabel(host: string): string {
    "host" + Quoted(EscapeAll(host))
  }

  predicate AddsHost(ps: seq<string>, host: string) {
    host != "" && !HasHost(ps)
  }

  function WithHost(ps: seq<string>, host: string): seq<string> {
    if AddsHost(ps, host) then [HostLabel(host)] + ps else ps
  }

  function Render(name: string, ps: seq<string>, value: string): string {
    name + "{" + Join(ps) + "} " + value
  }

  predicate AllLabels(ps: seq<string>) {
    forall i :: 0 <= i < |ps| ==> IsLabel(ps[i])
  }

  /** What a line becomes, or None when it is dropped. */
  function Normalized(line: string, host: string): Option<string> {
    if line != "" && line[0] == '#' then
      if IsComment(line) then Some(line) else None
    else
      match ParseSample(line)
      case None => None
      case Some(m) =>
        var ps := Parts(m.labels);
        if AllLabels(ps) then Some(Render(m.name, WithHost(ps, host), m.value)) else None
  }

  /** Trims and checks the pieces one by one; the host to add is cleared when a piece is a host label. */
  method CheckPieces(pieces: seq<string>, host: string) returns (parts: seq<string>, h: string, ok: bool)
    ensures ok <==> forall i :: 0 <= i < |pieces| ==> IsLabel(Trim(pieces[i]))
    ensures ok ==> |parts| == |pieces| && forall i :: 0 <= i < |pieces| ==> parts[i] == Trim(pieces[i])
    ensures ok ==> h == if exists i :: 0 <= i < |parts| && IsHost(parts[i]) then "" else host
  {
    parts, h, ok := [], host, true;
    for i := 0 to |pieces|
      invariant ok && |parts| == i && forall j :: 0 <= j < i ==> parts[j] == Trim(pieces[j]) && IsLabel(parts[j])
      invariant h == if exists j :: 0 <= j < i && IsHost(parts[j]) then "" else host
    {
      var p := Trim(pieces[i]);
      if !IsLabel(p) {
        return parts, h, false;
      }
      if IsHost(p) {
        h := "";
      }
      parts := parts + [p];
      assert parts[i] == p;
    }
  }

  method CheckLabels(labels: string, host: string) returns (parts: seq<string>, h: string, ok: bool)
    ensures ok <==> AllLabels(Parts(labels))
    ensures ok ==> parts == Parts(labels) && h == if HasHost(parts) then "" else host
  {
    if Blank(labels) {
      return [], host, true;
    }
    var pieces := SplitLabels(labels);
    parts, h, ok := CheckPieces(pieces, host);
    if ok {
      assert parts == Trims(pieces);
    }
  }

  method TextfileLine(line: string, host: string) returns (out: string, ok: bool)
    ensures ok <==> Normalized(line, host).Some?
    ensures ok ==> out == Normalized(line, host).value
  {
    if line != "" && line[0] == '#' {
      return line, IsComment(line);
    }
    var m := ParseSample(line);
    if m.None? {
      return "", false;
    }
    var parts, h, good := CheckLabels(m.value.labels, host);
    if !good {
      return "", false;
    }
    if h != "" {
      parts := [HostLabel(h)] + parts;
    }
    return Render(m.value.name, parts, m.value.value), true;
  }

  // ---- Feeding an accepted line back in ----

  lemma {:induction false} BodyConcat(a: string, b: string)
    requires IsBody(a) && IsBody(b)
    ensures IsBody(a + b)
    decreases |a|
  {
    if a == "" {
      assert a + b == b;
    } else if a[0] == '\\' {
      assert (a + b)[2..] == a[2..] + b;
      BodyConcat(a[2..], b);
    } else {
      assert (a + b)[1..] == a[1..] + b;
      BodyConcat(a[1..], b);
    }
  }

  lemma HexIsPlain(n: int)
    requires 0 <= n < 16
    ensures LabelChar(Hex(n))
  {
  }

  lemma EscapeIsBody(c: char)
    ensures IsBody(Escape(c))
    ensures All(Escape(c), Plain) <==> Plain(c)
  {
    var e := Escape(c);
    if |e| == 4 {
      HexIsPlain(c as int / 16);
      HexIsPlain(c as int % 16);
      assert e[2..][1..] == [e[3]] && [e[3]][1..] == "" && IsBody([e[3]]) && IsBody(e[2..]);
    } else if |e| == 2 {
      assert e[2..] == "";
    } else {
      assert e[0] == c && e[1..] == "";
    }
  }

  lemma AllConcat(a: string, b: string, p: char -> bool)
    ensures All(a + b, p) <==> All(a, p) && All(b, p)
  {
    var s := a + b;
    assert forall i :: 0 <= i < |a| ==> s[i] == a[i];
    assert forall i :: 0 <= i < |b| ==> b[i] == s[|a| + i];
  }

  lemma {:induction false} EscapeAllIsBody(s: string)
    ensures IsBody(EscapeAll(s))
    ensures All(EscapeAll(s), Plain) <==> All(s, Plain)
  {
    if s != "" {
      EscapeIsBody(s[0]);
      EscapeAllIsBody(s[1..]);
      BodyConcat(Escape(s[0]), EscapeAll(s[1..]));
      AllConcat(Escape(s[0]), EscapeAll(s[1..]), Plain);
      AllConcat([s[0]], s[1..], Plain);
      assert s == [s[0]] + s[1..];
    }
  }

  lemma QuotedShape(name: string, body: string)
    ensures var p, n := name + Quoted(body), |name|;
      && |p| == n + 3 + |body| && p[..n] == name && p[n + 2..|p| - 1] == body
      && p[n] == '=' && p[n + 1] == '"' && p[|p| - 1] == '"'
  {
  }

  lemma LabelOfParts(name: string, body: string)
    requires IsLabelName(name) && IsBody(body)
    ensures IsLabel(name + Quoted(body))
  {
    QuotedShape(name, body);
    assert Span(name + Quoted(body), LabelChar) == |name| by {
      SpanOf(name, Quoted(body), LabelChar);
    }
  }

  lemma QuotedPlain(body: string)
    ensures All(Quoted(body), Plain) <==> All(body, Plain)
  {
    AllConcat(['=', '"'], body + ['"'], Plain);
    AllConcat(body, ['"'], Plain);
  }

  lemma HostLabelPlain(host: string)
    ensures All(HostLabel(host), Plain) <==> All(host, Plain)
  {
    EscapeAllIsBody(host);
    QuotedPlain(EscapeAll(host));
    AllConcat("host", Quoted(EscapeAll(host)), Plain);
  }

  lemma HostLabelGood(host: string)
    ensures IsLabel(HostLabel(host)) && IsHost(HostLabel(host))
  {
    EscapeAllIsBody(host);
    LabelOfParts("host", EscapeAll(host));
  }

  lemma LabelTrimmed(p: string)
    requires IsLabel(p)
    ensures Trim(p) == p
  {
    var name, body := LabelParts(p);
    assert p[0] == name[0] && !Space(p[0]) && p[|p| - 1] == '"';
    assert Span(p, Space) == 0;
    assert p[0..] == p;
  }

  lemma {:induction false} JoinPlain(ps: seq<string>)
    ensures All(Join(ps), Plain) <==> forall i :: 0 <= i < |ps| ==> All(ps[i], Plain)
  {
    if |ps| > 1 {
      JoinPlain(ps[1..]);
      AllConcat(ps[0] + ",", Join(ps[1..]), Plain);
      AllConcat(ps[0], ",", Plain);
      assert forall i :: 1 <= i < |ps| ==> ps[i] == ps[1..][i - 1];
    }
  }

  lemma PartsJoin(ps: seq<string>)
    requires AllLabels(ps)
    ensures Parts(Join(ps)) == ps
  {
    if ps != [] {
      SplitJoin(ps);
      forall i | 0 <= i < |ps|
        ensures Trims(ps)[i] == ps[i]
      {
        LabelTrimmed(ps[i]);
      }
      JoinNotBlank(ps);
    }
  }

  lemma JoinNotBlank(ps: seq<string>)
    requires AllLabels(ps) && ps != []
    ensures !Blank(Join(ps))
  {
    var rest, p := ps[..|ps| - 1], ps[|ps| - 1];
    assert ps == rest + [p];
    JoinSnoc(rest, p);
    LabelNotBlank(p);
    AllConcat(Join(rest) + ",", p, Space);
  }

  lemma {:induction false} PiecesPlain(st: Scan, s: string)
    requires All(s, Plain) && All(st.cur, Plain) && forall i :: 0 <= i < |st.done| ==> All(st.done[i], Plain)
    ensures var e := FeedAll(st, s); All(e.cur, Plain) && forall i :: 0 <= i < |e.done| ==> All(e.done[i], Plain)
    decreases |s|
  {
    if s != "" {
      AllConcat(st.cur, [s[0]], Plain);
      PiecesPlain(Feed(st, s[0]), s[1..]);
    }
  }

  lemma {:induction false} TrimRightPlain(s: string)
    requires All(s, Plain)
    ensures All(TrimRight(s), Plain)
  {
    if s != "" && Space(s[|s| - 1]) {
      TrimRightPlain(s[..|s| - 1]);
    }
  }

  lemma PartsPlain(labels: string)
    requires All(labels, Plain)
    ensures forall i :: 0 <= i < |Parts(labels)| ==> All(Parts(labels)[i], Plain)
  {
    PiecesPlain(START, labels);
    if !Blank(labels) {
      var ps := Split(labels);
      forall i | 0 <= i < |ps|
        ensures All(Trim(ps[i]), Plain)
      {
        TrimRightPlain(TrimLeft(ps[i]));
      }
    }
  }

  lemma PlainBlock(name: string, labels: string, value: string)
    requires All(labels, Plain) && IsValue(value)
    ensures ParseBlock(name, ['{'] + labels + ['}'] + ([' '] + value)) == Some(Sample(name, labels, value))
  {
    var block := ['{'] + labels + ['}'];
    assert block[1..|block| - 1] == labels;
    BlockParsed(name, block, [' '] + value);
    ValueParsed(name, labels, [' '], value);
  }

  lemma RenderAgain(name: string, labels: string, value: string)
    requires IsName(name) && IsValue(value)
    ensures var line := name + "{" + labels + "} " + value;
            ParseSample(line) == if All(labels, Plain) then Some(Sample(name, labels, value)) else None
  {
    var rest := ['{'] + labels + ['}'] + ([' '] + value);
    assert name + "{" + labels + "} " + value == name + rest;
    NameParsed(name, rest);
    if All(labels, Plain) {
      PlainBlock(name, labels, value);
    } else {
      BrokenBlock(name, labels, value);
    }
  }

  lemma NoValueWithBrace(s: string, i: nat)
    requires i < |s| && s[i] == '}'
    ensures !IsValue(s)
  {
    if IsValue(s) {
      ValueChars(s);
    }
  }

  lemma {:induction false} SpanStops(s: string, p: char -> bool, i: nat)
    requires i < |s| && !p(s[i])
    ensures Span(s, p) <= i
    decreases |s|
  {
    if i > 0 {
      SpanStops(s[1..], p, i - 1);
    }
  }

  lemma BlockEndsBy(s: string, last: nat)
    requires 0 < last < |s| && s[last] == '}' && !All(s[1..last], Plain)
    ensures BlockLength(s) <= last
  {
    SpanMeans(s[1..], Plain);
    SpanStops(s[1..], Plain, last - 1);
    assert s[1..][..last - 1] == s[1..last];
  }

  lemma GapEndsBy(s: string, i: nat)
    requires i < |s| && s[i] == '}'
    ensures Span(s, Gap) <= i
  {
    SpanStops(s, Gap, i);
  }

  /** A brace inside the labels ends the block early, and what follows is no value. */
  lemma BrokenBlock(name: string, labels: string, value: string)
    requires !All(labels, Plain)
    ensures ParseBlock(name, ['{'] + labels + ['}'] + ([' '] + value)) == None
  {
    var rest, last := ['{'] + labels + ['}'] + ([' '] + value), 1 + |labels|;
    assert rest[last] == '}' && rest[1..last] == labels;
    BlockEndsBy(rest, last);
    var k := BlockLength(rest);
    var g := Span(rest[k..], Gap);
    GapEndsBy(rest[k..], last - k);
    NoValueWithBrace(rest[k..][g..], last - k - g);
  }

  /** An accepted line fed back in is returned unchanged, unless a host with a brace in its name was added,
      and then it is dropped. */
  lemma Idempotent(line: string, host: string)
    requires Normalized(line, host).Some?
    ensures var out := Normalized(line, host).value;
            var added := !(line != "" && line[0] == '#') && AddsHost(Parts(ParseSample(line).value.labels), host);
            Normalized(out, host) == if added && !All(host, Plain) then None else Some(out)
  {
    if !(line != "" && line[0] == '#') {
      var m := ParseSample(line).value;
      var ps := Parts(m.labels);
      SampleAgain(line, m, ps, host);
    }
  }

  lemma WithHostGood(ps: seq<string>, host: string)
    requires AllLabels(ps)
    ensures AllLabels(WithHost(ps, host)) && WithHost(WithHost(ps, host), host) == WithHost(ps, host)
  {
    HostLabelGood(host);
    if AddsHost(ps, host) {
      assert IsHost(WithHost(ps, host)[0]);
    }
  }

  lemma WithHostPlain(ps: seq<string>, host: string)
    requires forall i :: 0 <= i < |ps| ==> All(ps[i], Plain)
    ensures All(Join(WithHost(ps, host)), Plain) <==> !(AddsHost(ps, host) && !All(host, Plain))
  {
    var qs := WithHost(ps, host);
    JoinPlain(qs);
    HostLabelPlain(host);
    if AddsHost(ps, host) {
      assert qs[0] == HostLabel(host) && forall i :: 1 <= i < |qs| ==> qs[i] == ps[i - 1];
    }
  }

  lemma OutputAgain(name: string, qs: seq<string>, value: string, host: string)
    requires IsName(name) && IsValue(value) && AllLabels(qs) && WithHost(qs, host) == qs
    ensures Normalized(Render(name, qs, value), host)
         == if All(Join(qs), Plain) then Some(Render(name, qs, value)) else None
  {
    var out := Render(name, qs, value);
    assert out[0] == name[0] != '#';
    RenderAgain(name, Join(qs), value);
    PartsJoin(qs);
  }

  lemma SampleParts(line: string, m: Sample)
    requires ParseSample(line) == Some(m)
    ensures IsName(m.name) && IsValue(m.value)
    ensures forall i :: 0 <= i < |Parts(m.labels)| ==> All(Parts(m.labels)[i], Plain)
  {
    var block, gap := ParsedIsMatch(line, m);
    PartsPlain(m.labels);
  }

  lemma SampleAgain(line: string, m: Sample, ps: seq<string>, host: string)
    requires ParseSample(line) == Some(m) && ps == Parts(m.labels) && AllLabels(ps)
    ensures var out := Render(m.name, WithHost(ps, host), m.value);
            Normalized(out, host) == if AddsHost(ps, host) && !All(host, Plain) then None else Some(out)
  {
    SampleParts(line, m);
    WithHostPlain(ps, host);
    WithHostGood(ps, host);
    OutputAgain(m.name, WithHost(ps, host), m.value, host);
  }

  // ---- The smaller patterns, as the languages they denote ----

  lemma MantissaIsPattern(s: string)
    ensures IsMantissa(s) <==> exists a, point, b ::
      s == a + (point + b) && All(a, Digit) && (point == "" || point == ".") && Digits(b)
  {
    var n := Span(s, Digit);
    SpanMeans(s, Digit);
    if Digits(s) {
      assert s == "" + ("" + s) && All("", Digit);
    } else if IsMantissa(s) {
      assert s == s[..n] + ("." + s[n + 1..]);
    }
    forall a, point, b | s == a + (point + b) && All(a, Digit) && (point == "" || point == ".") && Digits(b)
      ensures IsMantissa(s)
    {
      if point == "" {
        assert point + b == b;
        AllConcat(a, b, Digit);
      } else {
        SpanOf(a, point + b, Digit);
        assert s[|a| + 1..] == b;
      }
    }
  }

  predicate IsExponent(x: string) {
    x != "" && (x[0] == 'e' || x[0] == 'E') && Digits(Unsigned(x[1..]))
  }

  lemma MantissaChars(s: string)
    requires IsMantissa(s)
    ensures All(s, Decimal)
  {
    var n := Span(s, Digit);
    SpanMeans(s, Digit);
    forall i | 0 <= i < |s|
      ensures Decimal(s[i])
    {
      assert i < n ==> s[i] == s[..n][i];
      assert i > n && !Digits(s) ==> s[i] == s[n + 1..][i - n - 1];
    }
  }

  lemma NumberIsPattern(s: string)
    ensures IsNumber(s) <==> exists m, x :: s == m + x && IsMantissa(m) && (x == "" || IsExponent(x))
  {
    var n := Span(s, Decimal);
    if IsNumber(s) {
      assert s == s[..n] + s[n..] && (n < |s| ==> s[n..][1..] == s[n + 1..]);
      assert s[n..] == "" || IsExponent(s[n..]);
    }
    forall m, x | s == m + x && IsMantissa(m) && (x == "" || IsExponent(x))
      ensures IsNumber(s)
    {
      MantissaChars(m);
      SpanOf(m, x, Decimal);
      assert s[..|m|] == m && s[|m|..] == x && (x != "" ==> s[|m| + 1..] == x[1..]);
    }
  }

  ghost predicate LabelMatches(p: string, name: string, body: string) {
    p == name + Quoted(body) && IsLabelName(name) && IsBody(body)
  }

  lemma LabelMatched(p: string, name: string, body: string)
    requires LabelMatches(p, name, body)
    ensures IsLabel(p)
  {
    LabelOfParts(name, body);
  }

  lemma LabelIsPattern(p: string)
    ensures IsLabel(p) <==> exists name, body :: LabelMatches(p, name, body)
  {
    if name, body :| LabelMatches(p, name, body) {
      LabelMatched(p, name, body);
    }
    if IsLabel(p) {
      var name, body := LabelParts(p);
      assert LabelMatches(p, name, body);
    }
  }

  ghost predicate CommentMatches(line: string, name: string, rest: string) {
    && (line == "# HELP " + (name + rest) || line == "# TYPE " + (name + rest))
    && IsName(name) && (rest == "" || (rest[0] == ' ' && '\n' !in rest))
  }

  lemma CommentIsPattern(line: string)
    ensures IsComment(line) <==> exists name, rest :: CommentMatches(line, name, rest)
  {
    if IsComment(line) {
      var tail := line[7..];
      var n := Span(tail, NameChar);
      assert line == line[..7] + tail && tail == tail[..n] + tail[n..];
      assert CommentMatches(line, tail[..n], tail[n..]);
    }
    forall name, rest | CommentMatches(line, name, rest)
      ensures IsComment(line)
    {
      SpanOf(name, rest, NameChar);
      assert line[7..] == name + rest && (name + rest)[..|name|] == name && (name + rest)[|name|..] == rest;
    }
  }

  // ---- Trimming ----

  lemma {:induction false} TrimRightMeans(s: string) returns (b: string)
    ensures s == TrimRight(s) + b && Blank(b) && (TrimRight(s) != "" ==> !Space(TrimRight(s)[|TrimRight(s)| - 1]))
  {
    b := "";
    if s != "" && Space(s[|s| - 1]) {
      var front := s[..|s| - 1];
      var c := TrimRightMeans(front);
      b := c + [s[|s| - 1]];
      AllConcat(c, [s[|s| - 1]], Space);
      assert s == front + [s[|s| - 1]];
    }
  }

  /** What is cut off is blank, and what is left neither starts nor ends blank. */
  lemma TrimMeans(s: string) returns (a: string, b: string)
    ensures s == a + (Trim(s) + b) && Blank(a) && Blank(b)
    ensures Trim(s) != "" ==> !Space(Trim(s)[0]) && !Space(Trim(s)[|Trim(s)| - 1])
  {
    a := TrimLeftMeans(s);
    b := TrimRightMeans(TrimLeft(s));
    HeadOf(TrimLeft(s), Trim(s), b);
  }

  lemma TrimLeftMeans(s: string) returns (a: string)
    ensures s == a + TrimLeft(s) && Blank(a) && (TrimLeft(s) != "" ==> !Space(TrimLeft(s)[0]))
  {
    a := s[..Span(s, Space)];
    SpanMeans(s, Space);
  }

  lemma HeadOf(whole: string, t: string, b: string)
    requires whole == t + b
    ensures t != "" ==> whole != "" && whole[0] == t[0]
  {
  }

  // ---- The host label says the host ----

  function HexValue(c: char): Option<int> {
    if '0' <= c <= '9' then Some(c as int - '0' as int)
    else if 'a' <= c <= 'f' then Some(c as int - 'a' as int + 10)
    else None
  }

  /** What a character after a backslash stands for. */
  function Named(c: char): Option<char> {
    if c == '"' || c == '\\' then Some(c)
    else if c == 'n' then Some('\n')
    else if c == 't' then Some('\t')
    else if c == 'r' then Some('\r')
    else if c == 'a' then Some('\U{7}')
    else if c == 'b' then Some('\U{8}')
    else if c == 'v' then Some('\U{B}')
    else if c == 'f' then Some('\U{C}')
    else None
  }

  /** The first character of a quoted text and how many it takes to write it. */
  function FirstOf(s: string): Option<(char, nat)>
    requires s != ""
    ensures FirstOf(s).Some? ==> 0 < FirstOf(s).value.1 <= |s|
  {
    if s[0] != '\\' then Some((s[0], 1))
    else if |s| >= 2 && Named(s[1]).Some? then Some((Named(s[1]).value, 2))
    else if |s| >= 4 && s[1] == 'x' && HexValue(s[2]).Some? && HexValue(s[3]).Some? then
      Some(((16 * HexValue(s[2]).value + HexValue(s[3]).value) as char, 4))
    else None
  }

  /** Reading a quoted text back. */
  function Unquote(s: string): Option<string>
    decreases |s|
  {
    if s == "" then Some("")
    else
      match FirstOf(s)
      case None => None
      case Some(r) =>
        match Unquote(s[r.1..])
        case None => None
        case Some(rest) => Some([r.0] + rest)
  }

  lemma EscapeRead(c: char, rest: string)
    ensures FirstOf(Escape(c) + rest) == Some((c, |Escape(c)|))
  {
  }

  /** Every host is read back from its quoted form. */
  lemma {:induction false} UnquoteHost(host: string)
    ensures Unquote(EscapeAll(host)) == Some(host)
  {
    if host != "" {
      var rest := EscapeAll(host[1..]);
      EscapeRead(host[0], rest);
      UnquoteHost(host[1..]);
      assert (Escape(host[0]) + rest)[|Escape(host[0])|..] == rest;
      assert host == [host[0]] + host[1..];
    }
  }

  // ---- What an accepted line says ----

  function LabelName(p: string): string {
    p[..Span(p, LabelChar)]
  }

  function LabelBody(p: string): string
    requires IsLabel(p)
  {
    p[Span(p, LabelChar) + 2..|p| - 1]
  }

  lemma HostNamed(p: string)
    requires IsLabel(p)
    ensures IsHost(p) <==> LabelName(p) == "host"
  {
    var name, body := LabelParts(p);
    SpanOf(name, Quoted(body), LabelChar);
    assert LabelName(p) == name;
    if IsHost(p) {
      SpanStops(p, LabelChar, 4);
      SpanMeans(p, LabelChar);
      assert |name| == 4;
    }
  }

  lemma HostLabelSays(host: string)
    ensures IsLabel(HostLabel(host)) && LabelName(HostLabel(host)) == "host"
    ensures Unquote(LabelBody(HostLabel(host))) == Some(host)
  {
    HostLabelGood(host);
    HostNamed(HostLabel(host));
    UnquoteHost(host);
    QuotedShape("host", EscapeAll(host));
  }

  /** The labels written are those read, in order, after a label host whose value is the host, which is there exactly
      when a host was given and no label read is named host. */
  ghost predicate HostAdded(read: seq<string>, host: string, written: seq<string>) {
    if host == "" || exists i :: 0 <= i < |read| && LabelName(read[i]) == "host" then written == read
    else
      && |written| == |read| + 1 && written[1..] == read
      && IsLabel(written[0]) && LabelName(written[0]) == "host" && Unquote(LabelBody(written[0])) == Some(host)
  }

  lemma WithHostAdds(ps: seq<string>, host: string)
    requires AllLabels(ps)
    ensures HostAdded(ps, host, WithHost(ps, host))
  {
    HostLabelSays(host);
    forall i | 0 <= i < |ps|
      ensures IsHost(ps[i]) <==> LabelName(ps[i]) == "host"
    {
      HostNamed(ps[i]);
    }
  }

  /** A sample that is accepted keeps its name and its value, and its labels but for the added host; read again, with
      no brace in the host, it says exactly that. */
  lemma SampleKept(line: string, m: Sample, host: string) returns (written: seq<string>)
    requires line != "" && line[0] != '#' && ParseSample(line) == Some(m) && Normalized(line, host).Some?
    ensures AllLabels(Parts(m.labels)) && HostAdded(Parts(m.labels), host, written)
    ensures Normalized(line, host).value == m.name + "{" + Join(written) + "} " + m.value
    ensures All(host, Plain) ==>
      ParseSample(Normalized(line, host).value) == Some(Sample(m.name, Join(written), m.value))
    ensures Parts(Join(written)) == written
  {
    var ps := Parts(m.labels);
    written := WithHost(ps, host);
    WithHostAdds(ps, host);
    SampleParts(line, m);
    WithHostPlain(ps, host);
    WithHostGood(ps, host);
    RenderAgain(m.name, Join(written), m.value);
    PartsJoin(written);
  }
}
