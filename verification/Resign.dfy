/** Re-signing the commits after a base: every commit of the range is recreated on its rewritten
    parents, a backup ref keeps the old head, and the branch is moved by compare-and-swap. */
module Resign {
  import opened Wrappers

  type Id = string

  datatype Commit = Commit(
    tree: Id, parents: seq<Id>,
    authorName: string, authorEmail: string, authorDate: string,
    committerName: string, committerEmail: string, committerDate: string,
    message: string, signature: Option<string>)

  type Store = map<Id, Commit>
  type Mapping = map<Id, Id>

  /** word classifies the characters a word boundary is about. */
  datatype Options = Options(sign: bool, merges: bool, committer: string, word: char -> bool)

  // ---- History ----

  /** The commit at the end of a path of parent numbers. */
  function Walk(s: Store, id: Id, path: seq<nat>): Option<Id>
    decreases |path|
  {
    if id !in s then None
    else if path == [] then Some(id)
    else if path[0] < |s[id].parents| then Walk(s, s[id].parents[path[0]], path[1..])
    else None
  }

  /** No parent is missing, as in a repository that is not a shallow clone. */
  ghost predicate Complete(s: Store) {
    forall id, k :: id in s && 0 <= k < |s[id].parents| ==> s[id].parents[k] in s
  }

  ghost predicate Reaches(s: Store, a: Id, b: Id) {
    exists path :: Walk(s, a, path) == Some(b)
  }

  lemma {:induction false} WalkConcat(s: Store, a: Id, p: seq<nat>, q: seq<nat>)
    requires Walk(s, a, p).Some?
    ensures Walk(s, a, p + q) == Walk(s, Walk(s, a, p).value, q)
    decreases |p|
  {
    if p == [] {
      assert p + q == q;
    } else {
      assert (p + q)[1..] == p[1..] + q;
      WalkConcat(s, s[a].parents[p[0]], p[1..], q);
    }
  }

  lemma ReachesTrans(s: Store, a: Id, b: Id, c: Id)
    requires Reaches(s, a, b) && Reaches(s, b, c)
    ensures Reaches(s, a, c)
  {
    var p :| Walk(s, a, p) == Some(b);
    var q :| Walk(s, b, q) == Some(c);
    WalkConcat(s, a, p, q);
  }

  lemma ParentReached(s: Store, a: Id, i: nat)
    requires a in s && i < |s[a].parents| && s[a].parents[i] in s
    ensures Reaches(s, a, s[a].parents[i])
  {
    assert [i][1..] == [];
    assert Walk(s, a, [i]) == Walk(s, s[a].parents[i], []) == Some(s[a].parents[i]);
  }

  // ---- The range, as rev-list --reverse --topo-order base..HEAD lists it ----

  ghost predicate InRange(s: Store, base: Id, head: Id, id: Id) {
    Reaches(s, head, id) && !Reaches(s, base, id)
  }

  ghost predicate Listed(s: Store, base: Id, head: Id, olds: seq<Id>) {
    && (forall id :: id in olds <==> InRange(s, base, head, id))
    && (forall i, j :: 0 <= i < j < |olds| ==> olds[i] != olds[j])
    && (forall i, k :: 0 <= i < |olds| && olds[i] in s
                       && 0 <= k < |s[olds[i]].parents| && s[olds[i]].parents[k] in olds ==>
          s[olds[i]].parents[k] in olds[..i])
  }

  lemma ListedInStore(s: Store, base: Id, head: Id, olds: seq<Id>, i: nat)
    requires Listed(s, base, head, olds) && i < |olds|
    ensures olds[i] in s
  {
    assert olds[i] in olds;
    var path :| Walk(s, head, path) == Some(olds[i]);
    WalkEndsInStore(s, head, path);
  }

  lemma {:induction false} WalkEndsInStore(s: Store, a: Id, path: seq<nat>)
    ensures Walk(s, a, path).Some? ==> Walk(s, a, path).value in s
    decreases |path|
  {
    if a in s && path != [] && path[0] < |s[a].parents| {
      WalkEndsInStore(s, s[a].parents[path[0]], path[1..]);
    }
  }

  /** Whatever the head reaches outside the range has all its parents outside the range. */
  lemma OutsideStaysOutside(s: Store, base: Id, head: Id, olds: seq<Id>, id: Id, k: nat)
    requires Complete(s) && Listed(s, base, head, olds) && Reaches(s, head, id) && id !in olds
    requires id in s && k < |s[id].parents|
    ensures s[id].parents[k] !in olds
  {
    assert Reaches(s, base, id);
    ParentReached(s, id, k);
    ReachesTrans(s, base, id, s[id].parents[k]);
  }

  /** A commit of the range reached from another lies before it. */
  lemma {:induction false} AncestorsFirst(s: Store, base: Id, head: Id, olds: seq<Id>, i: nat, path: seq<nat>, x: Id)
    requires Listed(s, base, head, olds) && i < |olds| && path != []
    requires Walk(s, olds[i], path) == Some(x) && x in olds
    ensures x in olds[..i]
    decreases |path|
  {
    var p := s[olds[i]].parents[path[0]];
    assert Walk(s, p, path[1..]) == Some(x);
    assert olds[i] in olds && Reaches(s, head, olds[i]);
    ParentReached(s, olds[i], path[0]);
    ReachesTrans(s, head, olds[i], p);
    if Reaches(s, base, p) {
      assert Reaches(s, p, x);
      ReachesTrans(s, base, p, x);
    }
    assert p in olds;
    assert p in olds[..i];
    var j :| 0 <= j < i && olds[j] == p;
    if path[1..] != [] {
      AncestorsFirst(s, base, head, olds, j, path[1..], x);
    }
  }

  /** So the list, when not empty, ends with the head: what the script takes the new head from. */
  lemma HeadIsLast(s: Store, base: Id, head: Id, olds: seq<Id>)
    requires Listed(s, base, head, olds) && olds != []
    ensures olds[|olds| - 1] == head
  {
    var last := olds[|olds| - 1];
    assert last in olds;
    var path :| Walk(s, head, path) == Some(last);
    assert Walk(s, head, []) == Some(head);
    if Reaches(s, base, head) {
      ReachesTrans(s, base, head, last);
    }
    assert head in olds;
    var i :| 0 <= i < |olds| && olds[i] == head;
    if path != [] {
      AncestorsFirst(s, base, head, olds, i, path, last);
    }
  }

  // ---- References in messages ----

  predicate Hex(c: char) {
    '0' <= c <= '9' || 'a' <= c <= 'f'
  }

  predicate IsReference(w: string) {
    |w| == 8 && forall i :: 0 <= i < 8 ==> Hex(w[i])
  }

  function Abbreviated(id: Id): string {
    if |id| <= 8 then id else id[..8]
  }

  /** The first of the n oldest commits that a reference abbreviates. */
  function Meant(olds: seq<Id>, n: nat, w: string): Option<Id>
    requires n <= |olds|
  {
    if n == 0 then None
    else
      var o := Meant(olds, n - 1, w);
      if o.Some? then o else if w <= olds[n - 1] then Some(olds[n - 1]) else None
  }

  function Replaced(olds: seq<Id>, n: nat, m: Mapping, w: string): string
    requires n <= |olds|
  {
    var o := if IsReference(w) then Meant(olds, n, w) else None;
    if o.Some? && o.value in m then Abbreviated(m[o.value]) else w
  }

  function WordLength(word: char -> bool, msg: string): (k: nat)
    ensures k <= |msg|
  {
    if msg == "" || !word(msg[0]) then 0 else 1 + WordLength(word, msg[1..])
  }

  /** How far to go on: over a whole word, or over one other character. */
  function Stride(word: char -> bool, msg: string): (k: nat)
    requires msg != ""
    ensures 0 < k <= |msg|
  {
    if word(msg[0]) then WordLength(word, msg) else 1
  }

  function Chunk(word: char -> bool, olds: seq<Id>, n: nat, m: Mapping, msg: string): string
    requires n <= |olds| && msg != ""
  {
    var w := msg[..Stride(word, msg)];
    if word(msg[0]) then Replaced(olds, n, m, w) else w
  }

  /** Every whole word that refers to one of the n oldest commits is replaced. */
  function Rewritten(word: char -> bool, olds: seq<Id>, n: nat, m: Mapping, msg: string): string
    requires n <= |olds|
    decreases |msg|
  {
    if msg == "" then ""
    else Chunk(word, olds, n, m, msg) + Rewritten(word, olds, n, m, msg[Stride(word, msg)..])
  }

  /** A whole word: word characters, with a boundary at either end. */
  ghost predicate WholeWord(word: char -> bool, msg: string, a: nat, b: nat) {
    && a < b <= |msg| && (forall i :: a <= i < b ==> word(msg[i]))
    && (a > 0 ==> !word(msg[a - 1])) && (b < |msg| ==> !word(msg[b]))
  }

  lemma {:induction false} WordLengthIs(word: char -> bool, msg: string)
    ensures var k := WordLength(word, msg); (forall i :: 0 <= i < k ==> word(msg[i])) && (k < |msg| ==> !word(msg[k]))
  {
    if msg != "" && word(msg[0]) {
      WordLengthIs(word, msg[1..]);
      var k := WordLength(word, msg);
      forall i | 0 <= i < k
        ensures word(msg[i])
      {
        assert i > 0 ==> msg[i] == msg[1..][i - 1];
      }
    }
  }

  /** The new ids are long enough to be abbreviated to as much as they replace. */
  ghost predicate Full(m: Mapping) {
    forall id :: id in m ==> |m[id]| >= 8
  }

  lemma ChunkLength(word: char -> bool, olds: seq<Id>, n: nat, m: Mapping, msg: string)
    requires n <= |olds| && msg != "" && Full(m)
    ensures |Chunk(word, olds, n, m, msg)| == Stride(word, msg)
  {
  }

  lemma {:induction false} RewrittenLength(word: char -> bool, olds: seq<Id>, n: nat, m: Mapping, msg: string)
    requires n <= |olds| && Full(m)
    ensures |Rewritten(word, olds, n, m, msg)| == |msg|
    decreases |msg|
  {
    if msg != "" {
      ChunkLength(word, olds, n, m, msg);
      RewrittenLength(word, olds, n, m, msg[Stride(word, msg)..]);
    }
  }

  lemma WordShifts(word: char -> bool, msg: string, k: nat, a: nat, b: nat)
    requires WholeWord(word, msg, a, b) && k <= a
    ensures WholeWord(word, msg[k..], a - k, b - k) && msg[a..b] == msg[k..][a - k..b - k]
  {
  }

  lemma JoinShifts(x: string, y: string, a: nat, b: nat)
    requires a <= b <= |x| + |y|
    ensures |x| <= a ==> (x + y)[a..b] == y[a - |x|..b - |x|]
    ensures a == 0 && b == |x| ==> (x + y)[a..b] == x
  {
  }

  lemma FirstWord(word: char -> bool, msg: string, a: nat, b: nat)
    requires WholeWord(word, msg, a, b) && a < Stride(word, msg)
    ensures a == 0 && b == Stride(word, msg) && word(msg[0])
  {
    WordLengthIs(word, msg);
  }

  /** Every whole word stands where it stood, replaced if it is a reference... */
  lemma {:induction false} RewrittenWord(word: char -> bool, olds: seq<Id>, n: nat, m: Mapping, msg: string,
                                         a: nat, b: nat)
    requires n <= |olds| && Full(m) && WholeWord(word, msg, a, b)
    ensures |Rewritten(word, olds, n, m, msg)| == |msg|
    ensures Rewritten(word, olds, n, m, msg)[a..b] == Replaced(olds, n, m, msg[a..b])
    decreases |msg|
  {
    var k := Stride(word, msg);
    if a < k {
      RewrittenFirst(word, olds, n, m, msg, a, b);
    } else {
      WordShifts(word, msg, k, a, b);
      RewrittenWord(word, olds, n, m, msg[k..], a - k, b - k);
      RewrittenLater(word, olds, n, m, msg, k, a, b);
    }
  }

  lemma RewrittenFirst(word: char -> bool, olds: seq<Id>, n: nat, m: Mapping, msg: string, a: nat, b: nat)
    requires n <= |olds| && Full(m) && WholeWord(word, msg, a, b) && a < Stride(word, msg)
    ensures |Rewritten(word, olds, n, m, msg)| == |msg|
    ensures Rewritten(word, olds, n, m, msg)[a..b] == Replaced(olds, n, m, msg[a..b])
  {
    RewrittenLength(word, olds, n, m, msg);
    FirstWord(word, msg, a, b);
    ChunkLength(word, olds, n, m, msg);
    JoinShifts(Chunk(word, olds, n, m, msg), Rewritten(word, olds, n, m, msg[b..]), a, b);
    assert msg[a..b] == msg[..b];
  }

  lemma RewrittenLater(word: char -> bool, olds: seq<Id>, n: nat, m: Mapping, msg: string, k: nat, a: nat, b: nat)
    requires n <= |olds| && Full(m) && msg != "" && k == Stride(word, msg) <= a <= b <= |msg|
    requires |Rewritten(word, olds, n, m, msg[k..])| == |msg| - k
    requires Rewritten(word, olds, n, m, msg[k..])[a - k..b - k] == Replaced(olds, n, m, msg[a..b])
    ensures |Rewritten(word, olds, n, m, msg)| == |msg|
    ensures Rewritten(word, olds, n, m, msg)[a..b] == Replaced(olds, n, m, msg[a..b])
  {
    ChunkLength(word, olds, n, m, msg);
    JoinShifts(Chunk(word, olds, n, m, msg), Rewritten(word, olds, n, m, msg[k..]), a, b);
  }

  /** ...and whatever is not part of a word is as it was. */
  lemma {:induction false} RewrittenElse(word: char -> bool, olds: seq<Id>, n: nat, m: Mapping, msg: string, i: nat)
    requires n <= |olds| && Full(m) && i < |msg| && !word(msg[i])
    ensures |Rewritten(word, olds, n, m, msg)| == |msg| && Rewritten(word, olds, n, m, msg)[i] == msg[i]
    decreases |msg|
  {
    RewrittenLength(word, olds, n, m, msg);
    ChunkLength(word, olds, n, m, msg);
    WordLengthIs(word, msg);
    var k := Stride(word, msg);
    if i >= k {
      RewrittenElse(word, olds, n, m, msg[k..], i - k);
    }
  }

  lemma {:induction false} MeantIs(olds: seq<Id>, n: nat, w: string) returns (j: nat)
    requires n <= |olds|
    ensures j <= n && (forall i :: 0 <= i < j ==> !(w <= olds[i]))
    ensures j < n ==> w <= olds[j] && Meant(olds, n, w) == Some(olds[j])
    ensures j == n ==> Meant(olds, n, w) == None
  {
    if n == 0 {
      j := 0;
    } else {
      j := MeantIs(olds, n - 1, w);
      if j == n - 1 && !(w <= olds[j]) {
        j := n;
      }
    }
  }

  /** A message refers, after the rewrite, to the twin of the commit it referred to before: a whole word of eight hex
      digits that abbreviates an earlier commit of the range becomes the abbreviation of its twin... */
  lemma ReferencesFollow(word: char -> bool, olds: seq<Id>, n: nat, m: Mapping, msg: string, a: nat, b: nat, j: nat)
    requires j < n <= |olds| && Full(m) && WholeWord(word, msg, a, b) && IsReference(msg[a..b])
    requires olds[j] in m && msg[a..b] <= olds[j] && forall i :: 0 <= i < j ==> !(msg[a..b] <= olds[i])
    ensures |Rewritten(word, olds, n, m, msg)| == |msg| && |m[olds[j]]| >= 8
    ensures Rewritten(word, olds, n, m, msg)[a..b] == m[olds[j]][..8]
  {
    RewrittenWord(word, olds, n, m, msg, a, b);
    var i := MeantIs(olds, n, msg[a..b]);
  }

  /** ...and any other word stays. */
  lemma OtherWordsStay(word: char -> bool, olds: seq<Id>, n: nat, m: Mapping, msg: string, a: nat, b: nat)
    requires n <= |olds| && Full(m) && WholeWord(word, msg, a, b)
    requires IsReference(msg[a..b]) ==> forall i :: 0 <= i < n ==> !(msg[a..b] <= olds[i])
    ensures |Rewritten(word, olds, n, m, msg)| == |msg| && Rewritten(word, olds, n, m, msg)[a..b] == msg[a..b]
  {
    RewrittenWord(word, olds, n, m, msg, a, b);
    var j := MeantIs(olds, n, msg[a..b]);
  }

  /** What is mapped later does not matter. */
  lemma {:induction false} RewrittenSame(word: char -> bool, olds: seq<Id>, n: nat, m: Mapping, m': Mapping,
                                         msg: string)
    requires n <= |olds| && forall i :: 0 <= i < n ==> olds[i] in m && olds[i] in m' && m[olds[i]] == m'[olds[i]]
    ensures Rewritten(word, olds, n, m, msg) == Rewritten(word, olds, n, m', msg)
    decreases |msg|
  {
    if msg != "" {
      var k := Stride(word, msg);
      var j := MeantIs(olds, n, msg[..k]);
      RewrittenSame(word, olds, n, m, m', msg[k..]);
    }
  }

  // ---- One commit ----

  function Mapped(m: Mapping, id: Id): Id {
    if id in m then m[id] else id
  }

  function MappedAll(m: Mapping, ids: seq<Id>): (r: seq<Id>)
    ensures |r| == |ids| && forall i :: 0 <= i < |ids| ==> r[i] == Mapped(m, ids[i])
  {
    seq(|ids|, i requires 0 <= i < |ids| => Mapped(m, ids[i]))
  }

  function Recreated(o: Options, olds: seq<Id>, n: nat, m: Mapping, c: Commit, signature: string): Commit
    requires n <= |olds|
  {
    c.(parents := MappedAll(m, c.parents),
       committerName := if o.committer != "" then o.committer else c.committerName,
       message := Rewritten(o.word, olds, n, m, c.message),
       signature := if o.sign then Some(signature) else None)
  }

  /** What the documentation promises of a recreated commit. */
  ghost predicate Twin(o: Options, m: Mapping, c: Commit, c': Commit) {
    && c'.tree == c.tree
    && c'.authorName == c.authorName && c'.authorEmail == c.authorEmail && c'.authorDate == c.authorDate
    && c'.committerEmail == c.committerEmail && c'.committerDate == c.committerDate
    && c'.committerName == (if o.committer != "" then o.committer else c.committerName)
    && c'.parents == MappedAll(m, c.parents)
    && (c'.signature.Some? <==> o.sign)
  }

  // ---- The rewritten history ----

  ghost predicate Keeps(s: Store, s': Store) {
    forall id :: id in s ==> id in s' && s'[id] == s[id]
  }

  /** Every mapped commit has its twin in the store. */
  ghost predicate Twins(o: Options, s: Store, s': Store, m: Mapping) {
    forall id :: id in m ==> id in s && m[id] in s' && Twin(o, m, s[id], s'[m[id]])
  }

  /** The i-th twin has its original's message, with references to commits before it replaced. */
  ghost predicate SaysSame(o: Options, s: Store, s': Store, m: Mapping, olds: seq<Id>, i: nat)
    requires i < |olds|
  {
    && olds[i] in s && olds[i] in m && m[olds[i]] in s'
    && s'[m[olds[i]]].message == Rewritten(o.word, olds, i, m, s[olds[i]].message)
  }

  ghost predicate Reworded(o: Options, s: Store, s': Store, m: Mapping, olds: seq<Id>, k: nat)
    requires k <= |olds|
  {
    forall i :: 0 <= i < k ==> SaysSame(o, s, s', m, olds, i)
  }

  lemma RewordedExtends(o: Options, s: Store, t: Store, t': Store, m: Mapping, olds: seq<Id>, k: nat, id: Id)
    requires k < |olds| && Reworded(o, s, t, m, olds, k) && Keeps(t, t') && olds[k] in s
    requires (forall x :: x in m <==> x in olds[..k]) && (forall i, j :: 0 <= i < j < |olds| ==> olds[i] != olds[j])
    requires id in t' && t'[id].message == Rewritten(o.word, olds, k, m, s[olds[k]].message)
    ensures Reworded(o, s, t', m[olds[k] := id], olds, k + 1)
  {
    var m' := m[olds[k] := id];
    forall i | 0 <= i <= k
      ensures SaysSame(o, s, t', m', olds, i)
    {
      assert i < k ==> SaysSame(o, s, t, m, olds, i);
      assert forall j :: 0 <= j < k ==> olds[j] in olds[..k];
      RewrittenSame(o.word, olds, i, m, m', s[olds[i]].message);
    }
  }

  /** The first k commits of the list are recreated, and nothing is lost. */
  ghost predicate RecreatedTo(o: Options, s: Store, s': Store, m: Mapping, olds: seq<Id>, k: nat)
    requires k <= |olds|
  {
    && Keeps(s, s') && (forall x :: x in m <==> x in olds[..k]) && Full(m)
    && Twins(o, s, s', m) && Reworded(o, s, s', m, olds, k)
  }

  lemma OneMore(o: Options, s: Store, t: Store, t': Store, m: Mapping, base: Id, head: Id, olds: seq<Id>, i: nat,
                id: Id, signature: string)
    requires Listed(s, base, head, olds) && i < |olds| && olds[i] in s && RecreatedTo(o, s, t, m, olds, i)
    requires Keeps(t, t') && id in t' && t'[id] == Recreated(o, olds, i, m, s[olds[i]], signature) && |id| >= 8
    ensures RecreatedTo(o, s, t', m[olds[i] := id], olds, i + 1)
  {
    TwinsExtend(o, s, t, t', m, base, head, olds, i, id);
    RewordedExtends(o, s, t, t', m, olds, i, id);
    assert olds[..i + 1] == olds[..i] + [olds[i]];
  }

  ghost function MappedEnd(m: Mapping, end: Option<Id>): Option<Id> {
    match end case None => None case Some(id) => Some(Mapped(m, id))
  }

  /** Every parent path from a rewritten commit ends where the same path from the old one ends, rewritten:
      at a twin inside the range, at the very same commit outside it, nowhere when it led nowhere. */
  lemma {:induction false} PathsPreserved(o: Options, s: Store, s': Store, m: Mapping, base: Id, head: Id,
                                          olds: seq<Id>, id: Id, path: seq<nat>)
    requires Complete(s) && Listed(s, base, head, olds) && Keeps(s, s') && Twins(o, s, s', m)
    requires forall x :: x in m <==> x in olds
    requires Reaches(s, head, id)
    ensures Walk(s', Mapped(m, id), path) == MappedEnd(m, Walk(s, id, path))
    decreases |path|
  {
    var p :| Walk(s, head, p) == Some(id);
    WalkEndsInStore(s, head, p);
    var c, c' := s[id], s'[Mapped(m, id)];
    assert |c.parents| == |c'.parents|;
    if path != [] && path[0] < |c.parents| {
      var q := c.parents[path[0]];
      assert c'.parents[path[0]] == Mapped(m, q) by {
        if id !in olds {
          OutsideStaysOutside(s, base, head, olds, id, path[0]);
        }
      }
      ParentReached(s, id, path[0]);
      ReachesTrans(s, head, id, q);
      PathsPreserved(o, s, s', m, base, head, olds, q, path[1..]);
    }
  }

  /** A commit already recreated has none of the still unmapped commits among its parents. */
  lemma ParentsSettled(s: Store, base: Id, head: Id, olds: seq<Id>, i: nat, j: nat)
    requires Listed(s, base, head, olds) && j <= i < |olds| && olds[j] in s
    ensures olds[i] !in s[olds[j]].parents
  {
    assert olds[i] in olds;
  }

  /** Adding the next commit keeps every earlier twin a twin. */
  lemma TwinsExtend(o: Options, s: Store, t: Store, t': Store, m: Mapping, base: Id, head: Id, olds: seq<Id>,
                    i: nat, id: Id)
    requires Listed(s, base, head, olds) && i < |olds| && olds[i] in s
    requires (forall x :: x in m <==> x in olds[..i]) && Twins(o, s, t, m) && Keeps(t, t')
    requires id in t' && Twin(o, m, s[olds[i]], t'[id])
    ensures Twins(o, s, t', m[olds[i] := id])
  {
    var m' := m[olds[i] := id];
    forall x | x in m'
      ensures x in s && m'[x] in t' && Twin(o, m', s[x], t'[m'[x]])
    {
      var j :| 0 <= j <= i && olds[j] == x;
      assert x != olds[i] ==> x in m && m'[x] == m[x];
      ParentsSettled(s, base, head, olds, i, j);
      assert MappedAll(m', s[x].parents) == MappedAll(m, s[x].parents);
    }
  }

  /** Read off at the end of a path: a twin inside the range, the untouched commit itself outside it. */
  lemma EndsAlike(o: Options, s: Store, s': Store, m: Mapping, base: Id, head: Id, olds: seq<Id>, path: seq<nat>)
    requires Complete(s) && Listed(s, base, head, olds) && Keeps(s, s') && Twins(o, s, s', m)
    requires forall x :: x in m <==> x in olds
    requires Walk(s, head, path).Some?
    ensures var x, end' := Walk(s, head, path).value, Walk(s', Mapped(m, head), path);
            && end'.Some? && x in s && end'.value in s'
            && (x in olds ==> Twin(o, m, s[x], s'[end'.value]))
            && (x !in olds ==> end'.value == x && s'[x] == s[x])
  {
    assert Walk(s, head, []) == Some(head);
    WalkEndsInStore(s, head, path);
    PathsPreserved(o, s, s', m, base, head, olds, head, path);
  }

  // ---- The script ----

  datatype RefWrite = SetBackup(to: Id) | MoveBranch(from: Id, to: Id)
  datatype Outcome = Done(newHead: Id) | Refused | Failed

  /** Content addressing: an id names one content, and is long enough to abbreviate. */
  ghost predicate Addressed(hash: Commit -> Id, s: Store) {
    && (forall id :: id in s ==> hash(s[id]) == id)
    && (forall a, b :: hash(a) == hash(b) ==> a == b)
    && (forall c :: |hash(c)| >= 8)
  }

  /** The whole promise about a finished rewrite. */
  ghost predicate SameHistory(s: Store, s': Store, m: Mapping, head: Id) {
    forall path :: Walk(s', Mapped(m, head), path) == MappedEnd(m, Walk(s, head, path))
  }

  lemma HistoryKept(o: Options, s: Store, s': Store, m: Mapping, base: Id, head: Id, olds: seq<Id>)
    requires Complete(s) && Listed(s, base, head, olds) && Keeps(s, s') && Twins(o, s, s', m)
    requires olds != [] && forall x :: x in m <==> x in olds
    ensures SameHistory(s, s', m, head)
  {
    ListedInStore(s, base, head, olds, |olds| - 1);
    assert Walk(s, head, []) == Some(head);
    forall path
      ensures Walk(s', Mapped(m, head), path) == MappedEnd(m, Walk(s, head, path))
    {
      PathsPreserved(o, s, s', m, base, head, olds, head, path);
    }
  }

  class Repo {
    var store: Store
    var branch: Id
    var backup: Option<Id>
    ghost var log: seq<RefWrite>

    /** git commit-tree: the object is added under its hash. */
    method CommitTree(c: Commit, hash: Commit -> Id) returns (id: Id)
      requires Addressed(hash, store)
      modifies this`store
      ensures Addressed(hash, store) && Keeps(old(store), store) && store.Keys == old(store).Keys + {id}
      ensures id in store && store[id] == c && |id| >= 8
    {
      id := hash(c);
      store := store[id := c];
    }

    /** One commit of the range. */
    method RecreateOne(o: Options, olds: seq<Id>, i: nat, m: Mapping, signature: string, hash: Commit -> Id,
                       ghost s: Store, ghost base: Id, ghost head: Id)
      returns (m': Mapping)
      requires Addressed(hash, store) && Listed(s, base, head, olds) && i < |olds|
      requires RecreatedTo(o, s, store, m, olds, i)
      modifies this`store
      ensures Addressed(hash, store) && RecreatedTo(o, s, store, m', olds, i + 1)
    {
      ListedInStore(s, base, head, olds, i);
      ghost var t := store;
      var id := CommitTree(Recreated(o, olds, i, m, store[olds[i]], signature), hash);
      OneMore(o, s, t, store, m, base, head, olds, i, id, signature);
      m' := m[olds[i] := id];
    }

    /** The loop over the range.  signatures holds what signing each commit gives, None where it fails. */
    method Recreate(o: Options, olds: seq<Id>, signatures: seq<Option<string>>, hash: Commit -> Id,
                    ghost base: Id, ghost head: Id)
      returns (r: Option<Mapping>)
      requires Addressed(hash, store) && Listed(store, base, head, olds) && |signatures| == |olds|
      modifies this`store
      ensures Keeps(old(store), store)
      ensures r.Some? <==> AllSigned(signatures)
      ensures r.Some? ==> RecreatedTo(o, old(store), store, r.value, olds, |olds|)
    {
      var mapping: Mapping := map[];
      ghost var s := store;
      for i := 0 to |olds|
        invariant Addressed(hash, store) && RecreatedTo(o, s, store, mapping, olds, i)
        invariant forall j :: 0 <= j < i ==> signatures[j].Some?
      {
        if signatures[i].None? {
          return None;
        }
        mapping := RecreateOne(o, olds, i, mapping, signatures[i].value, hash, s, base, head);
      }
      return Some(mapping);
    }

    /** The whole run.  branchThen is what the branch holds when the swap is attempted: another process may
        have moved it since the head was read; alive whether the script gets that far. */
    method Run(o: Options, base: Id, olds: seq<Id>, signatures: seq<Option<string>>, hash: Commit -> Id,
               branchThen: Id, alive: bool)
      returns (r: Outcome, ghost m: Mapping)
      requires Addressed(hash, store) && Complete(store) && Listed(store, base, branch, olds) && |signatures| == |olds|
      modifies this
      ensures Keeps(old(store), store)
      ensures r.Refused? <==> HasMerge(old(store), olds) && !o.merges
      ensures r.Done? <==>
                && (HasMerge(old(store), olds) ==> o.merges) && olds != [] && AllSigned(signatures)
                && branchThen == old(branch) && alive
      ensures log == old(log) ==> backup == old(backup)
      ensures log != old(log) ==> backup == Some(old(branch)) && old(log) + [SetBackup(old(branch))] <= log
      ensures r.Done? ==>
                && log == old(log) + [SetBackup(old(branch)), MoveBranch(old(branch), r.newHead)]
                && branchThen == old(branch) && branch == r.newHead && backup == Some(old(branch))
                && r.newHead == Mapped(m, old(branch)) && SameHistory(old(store), store, m, old(branch))
                && RecreatedTo(o, old(store), store, m, olds, |olds|)
      ensures r.Refused? ==> store == old(store) && log == old(log) && branch == old(branch)
      ensures r.Failed? ==>
                branch in {old(branch), branchThen} && log in {old(log), old(log) + [SetBackup(old(branch))]}
    {
      var oldHead := branch;
      m := map[];
      ghost var s := store;
      if HasMerge(store, olds) && !o.merges {
        return Refused, m;
      }
      var made := Recreate(o, olds, signatures, hash, base, oldHead);
      if made.None? || olds == [] {
        return Failed, m;
      }
      m := made.value;
      assert olds[..|olds|] == olds;
      HeadIsLast(s, base, oldHead, olds);
      assert olds[|olds| - 1] in olds;
      var newHead := made.value[olds[|olds| - 1]];
      var moved := UpdateRefs(oldHead, newHead, branchThen, alive);
      if !moved {
        return Failed, m;
      }
      HistoryKept(o, s, store, m, base, oldHead, olds);
      return Done(newHead), m;
    }

    /** The backup ref, then the branch if it still is the old head. */
    method UpdateRefs(oldHead: Id, newHead: Id, branchThen: Id, alive: bool) returns (moved: bool)
      modifies this`branch, this`backup, this`log
      ensures backup == Some(oldHead)
      ensures moved <==> branchThen == oldHead && alive
      ensures moved ==> branch == newHead
      ensures moved ==> log == old(log) + [SetBackup(oldHead), MoveBranch(oldHead, newHead)]
      ensures !moved ==> branch == branchThen && log == old(log) + [SetBackup(oldHead)]
    {
      backup := Some(oldHead);
      log := log + [SetBackup(oldHead)];
      branch := branchThen;
      if !alive || branch != oldHead {
        return false;
      }
      branch := newHead;
      log := log + [MoveBranch(oldHead, newHead)];
      return true;
    }
  }

  predicate AllSigned(signatures: seq<Option<string>>) {
    forall i :: 0 <= i < |signatures| ==> signatures[i].Some?
  }

  predicate HasMerge(s: Store, olds: seq<Id>) {
    exists i :: 0 <= i < |olds| && olds[i] in s && |s[olds[i]].parents| > 1
  }
}
