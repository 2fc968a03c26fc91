/** Packet-chaos's revert journal: every fault is journaled before it is injected and un-journaled only once it is
    verified gone, in a file or in the Well, with a move from the first to the second. */
module PacketJournal {

  // ---- Entry ids ----

  function Digits(n: nat): (s: string)
    ensures |s| > 0 && forall i :: 0 <= i < |s| ==> '0' <= s[i] <= '9'
  {
    if n < 10 then [('0' as int + n) as char] else Digits(n / 10) + [('0' as int + n % 10) as char]
  }

  function Decimal(n: int): string {
    if n < 0 then ['-'] + Digits(-n) else Digits(n)
  }

  const PREFIX := "packet-"

  /** The id a new entry gets. */
  function PacketId(created: int): string {
    PREFIX + Decimal(created)
  }

  /** The id the move gives to the i-th entry of the file when it has none. */
  function OldEntryId(created: int, i: nat): string {
    PacketId(created) + ['-'] + Digits(i)
  }

  function Number(s: string): int
    requires forall i :: 0 <= i < |s| ==> '0' <= s[i] <= '9'
  {
    if s == "" then 0 else 10 * Number(s[..|s| - 1]) + (s[|s| - 1] as int - '0' as int)
  }

  /** The digits are the number's decimal text: they read back as the number, and none leads in vain. */
  lemma {:induction false} DigitsRead(n: nat)
    ensures Number(Digits(n)) == n && (n >= 10 ==> Digits(n)[0] != '0')
  {
    if n >= 10 {
      DigitsRead(n / 10);
      assert Digits(n)[..|Digits(n)| - 1] == Digits(n / 10);
    } else {
      assert Digits(n)[..0] == "" && Number("") == 0;
    }
  }

  lemma IdTexts()
    ensures PacketId(17) == "packet-17" && OldEntryId(-5, 30) == "packet--5-30"
  {
    assert Digits(17) == ['1', '7'] && Digits(5) == ['5'] && Digits(30) == ['3', '0'];
  }

  lemma {:induction false} DigitsInjective(m: nat, n: nat)
    requires Digits(m) == Digits(n)
    ensures m == n
    decreases m
  {
    assert Digits(m)[|Digits(m)| - 1] == Digits(n)[|Digits(n)| - 1];
    if m >= 10 && n >= 10 {
      assert Digits(m / 10) == Digits(m)[..|Digits(m)| - 1] && Digits(n / 10) == Digits(n)[..|Digits(n)| - 1];
      DigitsInjective(m / 10, n / 10);
    }
  }

  lemma DecimalInjective(m: int, n: int)
    requires Decimal(m) == Decimal(n)
    ensures m == n
  {
    assert Decimal(m)[0] == Decimal(n)[0];
    if m < 0 {
      assert Decimal(m)[1..] == Digits(-m) && Decimal(n)[1..] == Digits(-n);
      DigitsInjective(-m, -n);
    } else {
      DigitsInjective(m, n);
    }
  }

  /** The text before the last dash, and after it. */
  lemma LastDash(a: string, x: string, b: string, y: string)
    requires a + ['-'] + x == b + ['-'] + y && '-' !in x && '-' !in y
    ensures a == b && x == y
  {
    var s := a + ['-'] + x;
    assert s[|a|] == '-' && s[|b|] == '-';
    assert s[|a| + 1..] == x && s[|b| + 1..] == y;
    assert s[..|a|] == a && s[..|b|] == b;
  }

  /** Ids of new entries name their instant, ids given to old entries their instant and place, and no new entry's
      id is ever that of an old one. */
  lemma IdsApart(c: int, d: int, i: nat, j: nat)
    ensures PacketId(c) == PacketId(d) ==> c == d
    ensures OldEntryId(c, i) == OldEntryId(d, j) ==> c == d && i == j
    ensures PacketId(c) != OldEntryId(d, j)
  {
    if PacketId(c) == PacketId(d) {
      SamePrefix(Decimal(c), Decimal(d));
      DecimalInjective(c, d);
    }
    if OldEntryId(c, i) == OldEntryId(d, j) {
      LastDash(PacketId(c), Digits(i), PacketId(d), Digits(j));
      DigitsInjective(i, j);
      SamePrefix(Decimal(c), Decimal(d));
      DecimalInjective(c, d);
    }
    NumberHasNoDashInside(c, d, j);
  }

  lemma SamePrefix(a: string, b: string)
    ensures PREFIX + a == PREFIX + b <==> a == b
  {
    assert (PREFIX + a)[|PREFIX|..] == a && (PREFIX + b)[|PREFIX|..] == b;
  }

  lemma DashOnlyFirst(c: int, k: nat)
    requires 0 < k < |Decimal(c)|
    ensures Decimal(c)[k] != '-'
  {
    assert c < 0 ==> Decimal(c)[k] == Digits(-c)[k - 1];
  }

  lemma NumberHasNoDashInside(c: int, d: int, j: nat)
    ensures PacketId(c) != OldEntryId(d, j)
  {
    var tail := Decimal(d) + ['-'] + Digits(j);
    assert OldEntryId(d, j) == PREFIX + tail;
    SamePrefix(Decimal(c), tail);
    if Decimal(c) == tail {
      DashOnlyFirst(c, |Decimal(d)|);
    }
  }

  // ---- The stores ----

  /** A file entry; id is "" in files written before ids existed.  pin is the recipe's pin directory. */
  datatype Item = Item(id: string, created: int, pin: string)

  /** A row of chaos_journal, open until a transition marks it reverted. */
  datatype Row = Row(host: string, packet: bool, created: int, pin: string, open: bool)

  type Well = map<string, Row>

  function EntryId(it: Item, i: nat): string {
    if it.id == "" then OldEntryId(it.created, i) else it.id
  }

  /** The file's entries with the ids they are moved under. */
  function Named(items: seq<Item>): (named: seq<Item>)
    ensures |named| == |items|
    ensures forall i :: 0 <= i < |items| ==> named[i] == items[i].(id := EntryId(items[i], i))
  {
    seq(|items|, i requires 0 <= i < |items| => items[i].(id := EntryId(items[i], i)))
  }

  predicate OpenRow(well: Well, host: string, id: string) {
    id in well && well[id].host == host && well[id].packet && well[id].open
  }

  function FilePins(file: seq<Item>): set<string> {
    set it | it in file :: it.pin
  }

  function OpenPins(well: Well, host: string): set<string> {
    set id | id in well && OpenRow(well, host, id) :: well[id].pin
  }

  // ---- Moving the file into the Well ----

  function Appended(well: Well, host: string, it: Item): Well {
    if it.id in well then well else well[it.id := Row(host, true, it.created, it.pin, true)]
  }

  /** The Well after the first k entries were moved; a duplicate id counts as moved. */
  function Moved(well: Well, host: string, items: seq<Item>, k: nat): Well
    requires k <= |items|
  {
    if k == 0 then well
    else Appended(Moved(well, host, items, k - 1), host, items[k - 1])
  }

  /** The i-th entry is open in the Well, under its id. */
  predicate InWell(well: Well, host: string, items: seq<Item>, i: nat)
    requires i < |items|
  {
    OpenRow(well, host, items[i].id) && well[items[i].id].pin == items[i].pin
  }

  lemma {:induction false} MoveAdds(well: Well, host: string, items: seq<Item>, k: nat, id: string)
    requires k <= |items|
    ensures id in well ==> id in Moved(well, host, items, k) && Moved(well, host, items, k)[id] == well[id]
    ensures id in Moved(well, host, items, k) && id !in well ==>
      exists j: nat | j < k :: items[j].id == id && (forall l: nat | l < j :: items[l].id != id)
        && Moved(well, host, items, k)[id] == Row(host, true, items[j].created, items[j].pin, true)
    ensures forall j: nat | j < k :: items[j].id == id ==> id in Moved(well, host, items, k)
  {
    if k > 0 {
      MoveAdds(well, host, items, k - 1, id);
    }
  }

  /** An id of the file that the Well already has is the open row of that very entry, and entries that share an id
      share their fault. */
  ghost predicate Claimable(well: Well, host: string, items: seq<Item>) {
    && (forall i: nat | i < |items| :: items[i].id in well ==> InWell(well, host, items, i))
    && (forall i: nat, j: nat | i < |items| && j < |items| ::
          items[i].id == items[j].id ==> items[i].pin == items[j].pin)
  }

  ghost predicate AllInWell(well: Well, host: string, items: seq<Item>, k: nat)
    requires k <= |items|
  {
    forall i: nat | i < k :: InWell(well, host, items, i)
  }

  /** A finished move has every entry open in the Well exactly when the ids were claimable: a duplicate id is taken
      as already moved, so an entry whose id belongs to something else is lost with the file. */
  lemma MoveCompletes(well: Well, host: string, items: seq<Item>)
    ensures AllInWell(Moved(well, host, items, |items|), host, items, |items|) <==> Claimable(well, host, items)
  {
    var after := Moved(well, host, items, |items|);
    forall i: nat | i < |items|
      ensures items[i].id in well ==> (InWell(after, host, items, i) <==> InWell(well, host, items, i))
      ensures Claimable(well, host, items) ==> InWell(after, host, items, i)
    {
      MoveAdds(well, host, items, |items|, items[i].id);
    }
    if AllInWell(after, host, items, |items|) {
      forall i: nat, j: nat | i < |items| && j < |items| && items[i].id == items[j].id
        ensures items[i].pin == items[j].pin
      {
        assert InWell(after, host, items, i) && InWell(after, host, items, j);
      }
    }
  }

  /** Nothing else changes: old rows stay as they are and only entries of the file come in. */
  lemma MoveAddsOnlyEntries(well: Well, host: string, items: seq<Item>, id: string)
    ensures id in Moved(well, host, items, |items|) <==> id in well || exists j: nat | j < |items| :: items[j].id == id
    ensures id in well ==> id in Moved(well, host, items, |items|) && Moved(well, host, items, |items|)[id] == well[id]
  {
    MoveAdds(well, host, items, |items|, id);
  }

  lemma {:induction false} MoveAgain(well: Well, host: string, items: seq<Item>, k: nat, m: nat)
    requires k <= |items| && m <= |items|
    ensures Moved(Moved(well, host, items, k), host, items, m) == Moved(well, host, items, if k < m then m else k)
    decreases m
  {
    if m > 0 {
      MoveAgain(well, host, items, k, m - 1);
      if m <= k {
        MoveAdds(well, host, items, k, items[m - 1].id);
      }
    }
  }

  /** Moves that were cut off after ks[0], ks[1], ... entries. */
  function Attempts(well: Well, host: string, items: seq<Item>, ks: seq<nat>): Well
    requires forall i :: 0 <= i < |ks| ==> ks[i] <= |items|
    decreases |ks|
  {
    if ks == [] then well else Attempts(Moved(well, host, items, ks[0]), host, items, ks[1..])
  }

  /** However often the move was cut off, the one that finishes leaves what a single move would have left. */
  lemma {:induction false} CutOffsDoNotMatter(well: Well, host: string, items: seq<Item>, ks: seq<nat>)
    requires forall i :: 0 <= i < |ks| ==> ks[i] <= |items|
    ensures Moved(Attempts(well, host, items, ks), host, items, |items|) == Moved(well, host, items, |items|)
    decreases |ks|
  {
    if ks != [] {
      CutOffsDoNotMatter(Moved(well, host, items, ks[0]), host, items, ks[1..]);
      MoveAgain(well, host, items, ks[0], |items|);
    }
  }

  /** Entries as the program writes them: without an id (older files), or with the id of their instant, no two of
      these at the same one. */
  predicate OwnIds(items: seq<Item>) {
    items == [] ||
    var front, last := items[..|items| - 1], items[|items| - 1];
    && OwnIds(front) && (last.id == "" || last.id == PacketId(last.created))
    && forall it :: it in front && it.id != "" && last.id != "" ==> it.created != last.created
  }

  lemma {:induction false} OwnInstants(items: seq<Item>, i: nat, j: nat)
    requires OwnIds(items) && i < j < |items|
    ensures items[i].id != "" && items[j].id != "" ==> items[i].created != items[j].created
    decreases |items|
  {
    var front := items[..|items| - 1];
    if j < |front| {
      OwnInstants(front, i, j);
    } else {
      assert front[i] == items[i] && front[i] in front;
    }
  }

  lemma {:induction false} OwnAt(items: seq<Item>, i: nat)
    requires OwnIds(items) && i < |items|
    ensures items[i].id == "" || items[i].id == PacketId(items[i].created)
    decreases |items|
  {
    if i < |items| - 1 {
      OwnAt(items[..|items| - 1], i);
    }
  }

  /** Such entries, old ones without ids included, never share an id. */
  lemma EntriesApart(items: seq<Item>, i: nat, j: nat)
    requires OwnIds(items) && i < j < |items|
    ensures Named(items)[i].id != Named(items)[j].id
  {
    OwnAt(items, i);
    OwnAt(items, j);
    OwnInstants(items, i, j);
    IdsApart(items[i].created, items[j].created, i, j);
    IdsApart(items[j].created, items[i].created, j, i);
  }

  /** None of these ids is in use. */
  predicate Untaken(well: Well, items: seq<Item>) {
    forall i | 0 <= i < |items| :: items[i].id !in well
  }

  ghost predicate Apart(items: seq<Item>) {
    forall i, j :: 0 <= i < j < |items| ==> items[i].id != items[j].id
  }

  lemma OwnFileApart(items: seq<Item>)
    requires OwnIds(items)
    ensures Apart(Named(items))
  {
    forall i, j | 0 <= i < j < |items|
      ensures Named(items)[i].id != Named(items)[j].id
    {
      EntriesApart(items, i, j);
    }
  }

  lemma ApartClaimable(well: Well, host: string, items: seq<Item>)
    requires Apart(items) && Untaken(well, items)
    ensures Claimable(well, host, items)
  {
  }

  lemma {:induction false} MoveCounts(well: Well, host: string, items: seq<Item>, k: nat)
    requires Apart(items) && Untaken(well, items) && k <= |items|
    ensures |Moved(well, host, items, k)| == |well| + k
  {
    if k > 0 {
      MoveCounts(well, host, items, k - 1);
      MoveAdds(well, host, items, k - 1, items[k - 1].id);
    }
  }

  /** A file of the program's own entries whose ids are not in use, moved with any number of cut-offs: once the move
      succeeds each entry is open in the Well, under an id no other entry has, and there is one new row for each. */
  lemma EachEntryOnce(well: Well, host: string, file: seq<Item>, ks: seq<nat>)
    requires OwnIds(file) && Untaken(well, Named(file)) && forall i :: 0 <= i < |ks| ==> ks[i] <= |file|
    ensures var items := Named(file);
      var after := Moved(Attempts(well, host, items, ks), host, items, |items|);
      AllInWell(after, host, items, |items|) && |after| == |well| + |items| && Apart(items)
  {
    var items := Named(file);
    OwnFileApart(file);
    CutOffsDoNotMatter(well, host, items, ks);
    ApartClaimable(well, host, items);
    MoveCompletes(well, host, items);
    MoveCounts(well, host, items, |items|);
  }

  // What the protocol needs of the move.

  /** The faults of entries that a finished move leaves in neither store. */
  ghost function LostPins(well: Well, host: string, items: seq<Item>): set<string> {
    set i: nat | i < |items| && !InWell(Moved(well, host, items, |items|), host, items, i) :: items[i].pin
  }

  lemma MoveKeepsListed(well: Well, host: string, items: seq<Item>, k: nat)
    requires k <= |items|
    ensures OpenPins(well, host) <= OpenPins(Moved(well, host, items, k), host)
    ensures k == |items| ==>
      FilePins(items) <= OpenPins(Moved(well, host, items, k), host) + LostPins(well, host, items)
  {
    var after := Moved(well, host, items, k);
    forall p | p in OpenPins(well, host)
      ensures p in OpenPins(after, host)
    {
      var id :| id in well && OpenRow(well, host, id) && well[id].pin == p;
      MoveAdds(well, host, items, k, id);
      assert OpenRow(after, host, id);
    }
    if k == |items| {
      forall p | p in FilePins(items)
        ensures p in OpenPins(after, host) + LostPins(well, host, items)
      {
        var it :| it in items && it.pin == p;
        var i: nat :| i < |items| && items[i] == it;
        assert InWell(after, host, items, i) ==> OpenRow(after, host, items[i].id);
      }
    }
  }

  /** Something is lost exactly when the ids were not claimable. */
  lemma NoneLost(well: Well, host: string, items: seq<Item>)
    ensures LostPins(well, host, items) == {} <==> Claimable(well, host, items)
    ensures LostPins(well, host, items) <= FilePins(items)
  {
    var after := Moved(well, host, items, |items|);
    MoveCompletes(well, host, items);
    if i: nat :| i < |items| && !InWell(after, host, items, i) {
      assert items[i].pin in LostPins(well, host, items);
    }
  }

  /** Faults that were listed still are after k entries, and once the file is emptied all but the lost ones. */
  lemma MoveAccounts(well: Well, host: string, items: seq<Item>, k: nat, faults: set<string>, lost: set<string>)
    requires k <= |items| && faults <= FilePins(items) + OpenPins(well, host) + lost
    ensures var after := Moved(well, host, items, k);
      && faults <= FilePins(items) + OpenPins(after, host) + lost
      && (k == |items| ==> faults <= OpenPins(after, host) + (lost + LostPins(well, host, items)))
      && LostPins(well, host, items) <= FilePins(items)
      && (Claimable(well, host, items) ==> LostPins(well, host, items) == {} && Claimable(after, host, items))
  {
    MoveKeepsListed(well, host, items, k);
    NoneLost(well, host, items);
    if Claimable(well, host, items) {
      MoveKeepsClaimable(well, host, items, k);
    }
  }

  lemma MoveGivesIds(well: Well, host: string, items: seq<Item>, k: nat)
    requires k <= |items| && "" !in well && forall i :: 0 <= i < |items| ==> items[i].id != ""
    ensures "" !in Moved(well, host, items, k)
  {
    MoveAdds(well, host, items, k, "");
  }

  lemma MoveKeepsClaimable(well: Well, host: string, items: seq<Item>, k: nat)
    requires k <= |items| && Claimable(well, host, items)
    ensures Claimable(Moved(well, host, items, k), host, items)
  {
    forall i: nat | i < |items| && items[i].id in Moved(well, host, items, k)
      ensures InWell(Moved(well, host, items, k), host, items, i)
    {
      MoveAdds(well, host, items, k, items[i].id);
    }
  }

  /** An id taken by another host's row: the move succeeds and the entry is in neither store. */
  lemma TakenIdLosesEntry()
    ensures exists well: Well, host, items ::
      |items| == 1 && !AllInWell(Moved(well, host, items, |items|), host, items, |items|)
      && OpenPins(Moved(well, host, items, |items|), host) == {}
  {
    var id := PacketId(1);
    var well: Well := map[id := Row("east", true, 1, "a", true)];
    var items := [Item(id, 1, "b")];
    assert Moved(well, "west", items, 0) == well;
    assert id != "" && Moved(well, "west", items, 1) == well;
    assert !InWell(well, "west", items, 0);
  }

  // ---- The protocol ----

  function Without(items: seq<Item>, pin: string): seq<Item> {
    if items == [] then []
    else
      var front, it := Without(items[..|items| - 1], pin), items[|items| - 1];
      if it.pin != pin then front + [it] else front
  }

  lemma {:induction false} WithoutHas(items: seq<Item>, pin: string, it: Item)
    ensures it in Without(items, pin) <==> it in items && it.pin != pin
  {
    if items != [] {
      var front, last := items[..|items| - 1], items[|items| - 1];
      WithoutHas(front, pin, it);
      assert it in items <==> it in front || it == last by {
        assert items == front + [last];
      }
    }
  }

  lemma WithoutPins(items: seq<Item>, pin: string)
    ensures FilePins(Without(items, pin)) == FilePins(items) - {pin}
    ensures forall it :: it in Without(items, pin) <==> it in items && it.pin != pin
  {
    forall it
      ensures it in Without(items, pin) <==> it in items && it.pin != pin
    {
      WithoutHas(items, pin, it);
    }
  }

  lemma {:induction false} FewerOwn(items: seq<Item>, pin: string)
    requires OwnIds(items)
    ensures OwnIds(Without(items, pin))
  {
    if items != [] {
      var front, last := items[..|items| - 1], items[|items| - 1];
      FewerOwn(front, pin);
      WithoutPins(front, pin);
      if last.pin != pin {
        assert Without(items, pin)[..|Without(front, pin)|] == Without(front, pin);
      }
    }
  }

  lemma WithoutOwn(items: seq<Item>, pin: string)
    ensures OwnIds(items) ==> OwnIds(Without(items, pin))
  {
    if OwnIds(items) {
      FewerOwn(items, pin);
    }
  }

  lemma OwnOne(now: int, pin: string)
    ensures OwnIds([Item(PacketId(now), now, pin)])
  {
    var it := Item(PacketId(now), now, pin);
    assert [it][..0] == [] && OwnIds([]);
  }

  lemma OldestOf(well: Well, ids: set<string>) returns (id: string)
    requires ids != {} && ids <= well.Keys
    ensures id in ids && forall x :: x in ids ==> well[id].created <= well[x].created
    decreases |ids|
  {
    id :| id in ids;
    if ids != {id} {
      var other := OldestOf(well, ids - {id});
      if well[other].created < well[id].created {
        id := other;
      }
    }
  }

  lemma SameOpenPins(before: Well, after: Well, host: string)
    requires forall id :: (OpenRow(after, host, id) <==> OpenRow(before, host, id))
                       && (OpenRow(after, host, id) ==> after[id] == before[id])
    ensures OpenPins(after, host) == OpenPins(before, host)
  {
    forall p
      ensures p in OpenPins(after, host) <==> p in OpenPins(before, host)
    {
      if p in OpenPins(after, host) {
        var id :| id in after && OpenRow(after, host, id) && after[id].pin == p;
        assert OpenRow(before, host, id);
      }
      if p in OpenPins(before, host) {
        var id :| id in before && OpenRow(before, host, id) && before[id].pin == p;
        assert OpenRow(after, host, id);
      }
    }
  }

  lemma SameClaims(before: Well, after: Well, host: string, items: seq<Item>)
    requires forall i: nat | i < |items| :: var id := items[i].id;
      (id in after <==> id in before) && (id in after ==> after[id] == before[id])
    ensures Claimable(before, host, items) ==> Claimable(after, host, items)
  {
    if Claimable(before, host, items) {
      forall i: nat | i < |items| && items[i].id in after
        ensures InWell(after, host, items, i)
      {
        assert InWell(before, host, items, i);
      }
    }
  }

  lemma NamedPins(items: seq<Item>)
    ensures FilePins(Named(items)) == FilePins(items)
    ensures forall i :: 0 <= i < |items| ==> Named(items)[i].id != ""
  {
    forall p
      ensures p in FilePins(Named(items)) <==> p in FilePins(items)
    {
      if p in FilePins(items) {
        var i :| 0 <= i < |items| && items[i].pin == p;
        assert Named(items)[i] in Named(items);
      }
    }
  }

  lemma FileAccounts(well: Well, host: string, file: seq<Item>, k: nat, faults: set<string>, lost: set<string>)
    requires k <= |file| && faults <= FilePins(file) + OpenPins(well, host) + lost && "" !in well
    ensures var items := Named(file);
      var after, gone := Moved(well, host, items, k), LostPins(well, host, items);
      && "" !in after && faults <= FilePins(file) + OpenPins(after, host) + lost && gone <= FilePins(file)
      && (k == |file| ==> faults <= OpenPins(after, host) + (lost + gone))
      && (Claimable(well, host, items) ==> gone == {} && Claimable(after, host, items))
  {
    NamedPins(file);
    MoveGivesIds(well, host, Named(file), k);
    MoveAccounts(well, host, Named(file), k, faults, lost);
  }

  // What is left to revert.

  ghost predicate Among(items: seq<Item>, rest: seq<Item>) {
    forall it :: it in items ==> it in rest
  }

  ghost predicate RowsAmong(well: Well, host: string, rest: seq<Item>) {
    forall id :: OpenRow(well, host, id) ==> exists it :: it in rest && it.id == id
  }

  /** Entries have ids, and those still open the pins of their rows. */
  ghost predicate Matching(well: Well, host: string, entries: seq<Item>) {
    forall it :: it in entries ==> it.id != "" && (OpenRow(well, host, it.id) ==> well[it.id].pin == it.pin)
  }

  lemma FewerLeft(items: seq<Item>, e: Item, rest: seq<Item>)
    ensures Among(items, [e] + rest) ==> Among(Without(items, e.pin), rest)
  {
    WithoutPins(items, e.pin);
  }

  lemma FewerRows(before: Well, after: Well, host: string, entries: seq<Item>, e: Item, rest: seq<Item>)
    requires forall id :: OpenRow(after, host, id) ==> OpenRow(before, host, id) && after[id] == before[id]
    ensures Matching(before, host, entries) ==> Matching(after, host, entries)
    ensures RowsAmong(before, host, [e] + rest) && !OpenRow(after, host, e.id) ==> RowsAmong(after, host, rest)
  {
    if RowsAmong(before, host, [e] + rest) && !OpenRow(after, host, e.id) {
      forall id | OpenRow(after, host, id)
        ensures exists it :: it in rest && it.id == id
      {
        var it :| it in [e] + rest && it.id == id;
        assert it in rest;
      }
    }
  }

  lemma NoneLeft(items: seq<Item>, well: Well, host: string)
    ensures Among(items, []) ==> items == []
    ensures RowsAmong(well, host, []) ==> forall id :: !OpenRow(well, host, id)
  {
    assert items == [] || items[0] in items;
  }

  datatype Store = FileStore | WellStore
  datatype Append = Added | Duplicate | Failed
  datatype Exit = Code(code: nat) | Crashed

  /** What a run asked of the stores and of the injector, and what came back. */
  datatype Call =
    | Loads(ok: bool)
    | Plans(ok: bool)
    | Adds(item: Item, ok: bool)
    | Injects(pin: string, ok: bool)
    | Reverts(pin: string, ok: bool)
    | Checks(pin: string, gone: bool, ok: bool)
    | Removes(item: Item, ok: bool)

  /** The calls that revert one journaled fault: undo, verify, and, if forget says so, un-journal. */
  ghost predicate Reverting(made: seq<Call>, it: Item, forget: bool, done: bool) {
    && |made| == (if forget then 3 else 2) && (done ==> forget)
    && made[0].Reverts? && made[0].pin == it.pin && made[1].Checks? && made[1].pin == it.pin
    && (forget ==> made[2] == Removes(it, done))
  }

  /** From the k-th call on: journal, inject, undo, verify, un-journal, and no more. */
  ghost predicate Injecting(made: seq<Call>, k: nat, it: Item) {
    && |made| == k + 5 && made[k] == Adds(it, true) && made[k + 1].Injects? && made[k + 1].pin == it.pin
    && made[k + 2].Reverts? && made[k + 2].pin == it.pin && made[k + 3].Checks? && made[k + 3].pin == it.pin
    && made[k + 3].gone && made[k + 4] == Removes(it, true)
  }

  /** The last calls of a run that planned a fault and went all the way. */
  ghost predicate FullRun(calls: seq<Call>) {
    && |calls| >= 6 && calls[|calls| - 6] == Plans(true) && calls[|calls| - 1].Removes?
    && Injecting(calls, |calls| - 5, calls[|calls| - 1].item)
  }

  lemma RunIsFull(calls: seq<Call>, made: seq<Call>, it: Item)
    requires calls != [] && calls[|calls| - 1] == Plans(true) && Injecting(made, 0, it)
    ensures FullRun(calls + made)
  {
  }

  lemma InjectedAll(calls: seq<Call>, it: Item, injected: bool, more: seq<Call>, code: nat, crashed: bool)
    requires !crashed ==> |more| >= 2 && more[1].Checks? && Reverting(more, it, more[1].gone, code == 0)
    ensures var made := [Adds(it, true), Injects(it.pin, injected)];
      && calls + made + more == calls + (made + more)
      && (!crashed ==> !(made + more)[|made + more| - 1].Plans?)
      && (!crashed && code == 0 ==> Injecting(made + more, 0, it))
  {
  }

  lemma TwoCalls(calls: seq<Call>, a: Call, b: Call)
    ensures calls + [a] + [b] == calls + [a, b]
  {
  }

  lemma ThreeCalls(calls: seq<Call>, a: Call, b: Call, c: Call)
    ensures calls + [a] + [b] + [c] == calls + [a, b, c] && calls + [a, b] + [c] == calls + [a, b, c]
  {
  }

  function Mishap(ok: bool): nat {
    if ok then 0 else 1
  }

  class Host {
    const host: string
    var file: seq<Item>       // packet-chaos.json
    var cache: seq<Item>      // the entries the file store holds in memory
    var well: Well
    var faults: set<string>   // pins of the faults in place on this host
    ghost var mishaps: nat      // how often the host, the disk or the database reported a failure
    ghost var lost: set<string> // faults whose entries a finished move left in neither store
    ghost var calls: seq<Call>  // what was asked of the stores and the injector
    ghost var tried: seq<string> // the faults it was asked to revert

    /** Every fault in place is listed in a journal, or was lost by a move; the database has no row without an id. */
    ghost predicate Journaled()
      reads this
    {
      faults <= FilePins(file) + OpenPins(well, host) + lost && "" !in well
    }

    ghost predicate NoneOpen()
      reads this
    {
      forall id :: !OpenRow(well, host, id)
    }

    /** A host on the file has nothing open in the Well yet. */
    ghost predicate Fits(store: Store)
      reads this
    {
      store == FileStore ==> NoneOpen()
    }

    /** The ids of the file can be claimed in the Well, so a move loses nothing. */
    ghost predicate Movable()
      reads this
    {
      Claimable(well, host, Named(file))
    }

    /** The store is open and its leftovers are known. */
    ghost predicate Opened(store: Store)
      reads this
    {
      && Journaled()
      && if store == WellStore then file == [] else NoneOpen() && FilePins(file) <= FilePins(cache)
    }

    ghost predicate Empty(store: Store)
      reads this
    {
      if store == WellStore then NoneOpen() else file == [] && cache == []
    }

    // What the host, the disk and the database may do.

    method Save(next: seq<Item>) returns (ok: bool)
      modifies this`file, this`mishaps
      ensures file == next || (!ok && file == old(file))
      ensures mishaps == old(mishaps) + Mishap(ok)
    {
      ok := *;
      var landed: bool := *;
      if ok || landed {
        file := next;
      }
      mishaps := mishaps + Mishap(ok);
    }

    /** Only a journaled fault may be injected.  A failed injection may leave it in place. */
    method Inject(pin: string) returns (ok: bool)
      requires pin in FilePins(file) + OpenPins(well, host)
      modifies this`faults, this`mishaps, this`calls
      ensures faults == old(faults) + {pin} || (!ok && faults == old(faults))
      ensures mishaps == old(mishaps) + Mishap(ok) && calls == old(calls) + [Injects(pin, ok)]
    {
      ok := *;
      var partial: bool := *;
      if ok || partial {
        faults := faults + {pin};
      }
      mishaps := mishaps + Mishap(ok);
      calls := calls + [Injects(pin, ok)];
    }

    /** A revert that works leaves the fault gone. */
    method Revert(pin: string) returns (ok: bool)
      modifies this`faults, this`mishaps, this`calls, this`tried
      ensures faults == old(faults) || faults == old(faults) - {pin}
      ensures tried == old(tried) + [pin]
      ensures mishaps == old(mishaps) + Mishap(ok && pin !in faults) && calls == old(calls) + [Reverts(pin, ok)]
    {
      ok := *;
      var removed: bool := *;
      if removed {
        faults := faults - {pin};
      }
      mishaps := mishaps + Mishap(ok && pin !in faults);
      calls := calls + [Reverts(pin, ok)];
      tried := tried + [pin];
    }

    /** What it calls gone is gone; a check that works also notices. */
    method Reverted(pin: string) returns (gone: bool, ok: bool)
      modifies this`mishaps, this`calls
      ensures gone ==> pin !in faults
      ensures mishaps == old(mishaps) + Mishap(ok && (gone <==> pin !in faults))
      ensures calls == old(calls) + [Checks(pin, gone, ok)]
    {
      gone, ok := *, *;
      if pin in faults {
        gone := false;
      }
      mishaps := mishaps + Mishap(ok && (gone <==> pin !in faults));
      calls := calls + [Checks(pin, gone, ok)];
    }

    method Plan() returns (ok: bool, pin: string)
      modifies this`mishaps, this`calls
      ensures mishaps == old(mishaps) + Mishap(ok) && calls == old(calls) + [Plans(ok)]
    {
      ok, pin := *, *;
      mishaps := mishaps + Mishap(ok);
      calls := calls + [Plans(ok)];
    }

    method AppendRow(it: Item) returns (r: Append)
      modifies this`well, this`mishaps
      ensures mishaps == old(mishaps) + Mishap(r == Added)
      ensures match r
        case Added => well == Appended(old(well), host, it) && it.id !in old(well) && it.id != ""
        case Duplicate => well == old(well) && it.id in well
        case Failed => well == old(well) || (it.id != "" && well == Appended(old(well), host, it))
    {
      var reached: bool := *;
      var answered: bool := *;
      r := Failed;
      if it.id != "" && reached {
        if it.id in well {
          r := if answered then Duplicate else Failed;
        } else {
          well := well[it.id := Row(host, true, it.created, it.pin, true)];
          r := if answered then Added else Failed;
        }
      }
      mishaps := mishaps + Mishap(r == Added);
    }

    method MarkReverted(id: string) returns (ok: bool)
      modifies this`well, this`mishaps
      ensures mishaps == old(mishaps) + Mishap(ok)
      ensures well == old(well) || (id in old(well) && well == old(well)[id := old(well)[id].(open := false)])
      ensures ok ==> id in well && !well[id].open
    {
      var reached: bool := *;
      var answered: bool := *;
      ok := reached && answered && id in well;
      if reached && id in well {
        well := well[id := well[id].(open := false)];
      }
      mishaps := mishaps + Mishap(ok);
    }

    /** Other writers of the Well: they leave this host's packet rows and the ids of its entries alone. */
    method Others()
      modifies this`well
      ensures forall id :: (OpenRow(well, host, id) <==> OpenRow(old(well), host, id))
                        && (OpenRow(well, host, id) ==> well[id] == old(well)[id])
      ensures forall i: nat | i < |file| :: var id := Named(file)[i].id;
        (id in well <==> id in old(well)) && (id in well ==> well[id] == old(well)[id])
      ensures OpenPins(well, host) == OpenPins(old(well), host) && ("" !in old(well) ==> "" !in well)
      ensures old(Movable()) ==> Movable()
    {
      var n: nat :| 0 <= n;
      for _ := 0 to n
        invariant "" !in old(well) ==> "" !in well
        invariant forall id :: (OpenRow(well, host, id) <==> OpenRow(old(well), host, id))
                            && (OpenRow(well, host, id) ==> well[id] == old(well)[id])
        invariant forall i: nat | i < |file| :: var id := Named(file)[i].id;
          (id in well <==> id in old(well)) && (id in well ==> well[id] == old(well)[id])
      {
        var id: string := *;
        var row: Row := *;
        var reserved := exists i | 0 <= i < |file| :: Named(file)[i].id == id;
        var mine := (row.host == host && row.packet) || (id in well && well[id].host == host && well[id].packet);
        if id != "" && !reserved && !mine {
          well := well[id := row];
        }
      }
      SameOpenPins(old(well), well, host);
      SameClaims(old(well), well, host, Named(file));
    }

    // The file and the Well as journal stores.

    method Load(store: Store) returns (ok: bool, entries: seq<Item>)
      requires Journaled() && (if store == WellStore then file == [] else NoneOpen())
      modifies this`cache, this`mishaps, this`calls
      ensures Journaled() && (ok ==> Opened(store)) && mishaps == old(mishaps) + Mishap(ok)
      ensures calls == old(calls) + [Loads(ok)]
      ensures ok && store == FileStore ==> entries == cache == file
      ensures ok && store == WellStore ==>
        && (forall id :: OpenRow(well, host, id) ==> exists it :: it in entries && it.id == id)
        && (forall it :: it in entries ==> OpenRow(well, host, it.id) && well[it.id].pin == it.pin)
    {
      ok := *;
      entries := [];
      if ok && store == FileStore {
        cache := file;
        entries := cache;
      } else if ok {
        entries := OpenRows();
      }
      mishaps := mishaps + Mishap(ok);
      calls := calls + [Loads(ok)];
    }

    /** This host's open rows, oldest first. */
    method OpenRows() returns (entries: seq<Item>)
      ensures forall id :: OpenRow(well, host, id) ==> exists it :: it in entries && it.id == id
      ensures forall it :: it in entries ==> OpenRow(well, host, it.id) && well[it.id].pin == it.pin
      ensures forall i, j :: 0 <= i < j < |entries| ==> entries[i].created <= entries[j].created
    {
      entries := [];
      var ids := set id | id in well && OpenRow(well, host, id);
      while ids != {}
        invariant forall id :: id in ids ==> OpenRow(well, host, id)
        invariant forall id :: OpenRow(well, host, id) ==> id in ids || exists it :: it in entries && it.id == id
        invariant forall it :: it in entries ==> OpenRow(well, host, it.id) && well[it.id].pin == it.pin
        invariant forall i, j :: 0 <= i < j < |entries| ==> entries[i].created <= entries[j].created
        invariant forall i, id :: 0 <= i < |entries| && id in ids ==> entries[i].created <= well[id].created
        decreases |ids|
      {
        ghost var oldest := OldestOf(well, ids);
        var id :| id in ids && forall x :: x in ids ==> well[id].created <= well[x].created;
        ids := ids - {id};
        var it := Item(id, well[id].created, well[id].pin);
        entries := entries + [it];
        assert it in entries && it.id == id;
      }
    }

    method Add(store: Store, it: Item) returns (ok: bool)
      requires Opened(store) && Empty(store)
      modifies this`file, this`cache, this`well, this`mishaps, this`calls
      ensures mishaps == old(mishaps) + Mishap(ok) && calls == old(calls) + [Adds(it, ok)]
      ensures Journaled() && (store == WellStore ==> file == []) && (store == FileStore ==> NoneOpen())
      ensures ok ==> Opened(store)
      ensures store == FileStore ==> file == [] || file == [it]
      ensures ok && store == FileStore ==> file == cache == [it]
      ensures ok && store == WellStore ==> OpenRow(well, host, it.id) && well[it.id].pin == it.pin
      ensures ok && store == WellStore ==> forall id :: OpenRow(well, host, id) ==> id == it.id
    {
      if store == FileStore {
        var next := cache + [it];
        ok := Save(next);
        if ok {
          cache := next;
        }
        calls := calls + [Adds(it, ok)];
        return;
      }
      ghost var before := well;
      assert faults <= lost;
      var r := AppendRow(it);
      forall id | OpenRow(well, host, id)
        ensures id == it.id
      {
        assert !OpenRow(before, host, id);
      }
      calls := calls + [Adds(it, r == Added)];
      return r == Added;
    }

    /** Forgets an entry whose fault is gone.  The file drops every entry with its pin. */
    method Remove(store: Store, it: Item) returns (ok: bool)
      requires Opened(store) && it.pin !in faults
      requires store == WellStore && OpenRow(well, host, it.id) ==> well[it.id].pin == it.pin
      modifies this`file, this`cache, this`well, this`mishaps, this`calls
      ensures Opened(store) && mishaps >= old(mishaps) && calls == old(calls) + [Removes(it, ok)]
      ensures ok <==> mishaps == old(mishaps) && (store == WellStore ==> it.id != "")
      ensures store == FileStore ==> well == old(well) && file in [old(file), Without(old(cache), it.pin)]
      ensures store == FileStore ==> cache == if ok then Without(old(cache), it.pin) else old(cache)
      ensures store == FileStore && OwnIds(old(file)) && OwnIds(old(cache)) ==> OwnIds(file) && OwnIds(cache)
      ensures ok && store == FileStore ==> file == cache
      ensures store == WellStore ==> file == old(file) && cache == old(cache)
      ensures store == WellStore ==>
        forall id :: OpenRow(well, host, id) ==> OpenRow(old(well), host, id) && well[id] == old(well)[id]
      ensures store == WellStore ==>
        forall id :: id != it.id && OpenRow(old(well), host, id) ==> OpenRow(well, host, id)
      ensures ok && store == WellStore ==> !OpenRow(well, host, it.id)
    {
      if store == FileStore {
        var next: seq<Item> := [];
        for i := 0 to |cache|
          invariant next == Without(cache[..i], it.pin)
        {
          assert cache[..i + 1][..i] == cache[..i];
          if cache[i].pin != it.pin {
            next := next + [cache[i]];
          }
        }
        assert cache[..|cache|] == cache;
        WithoutPins(cache, it.pin);
        WithoutOwn(cache, it.pin);
        ok := Save(next);
        if ok {
          cache := next;
        }
        calls := calls + [Removes(it, ok)];
        return;
      }
      if it.id == "" {
        calls := calls + [Removes(it, false)];
        return false;
      }
      ghost var before := well;
      ok := MarkReverted(it.id);
      forall id | OpenRow(well, host, id)
        ensures OpenRow(before, host, id) && well[id] == before[id]
      {
      }
      StillListed(before, well, it);
      calls := calls + [Removes(it, ok)];
    }

    /** Closing the row of a fault that is gone leaves every fault listed. */
    lemma StillListed(before: Well, after: Well, it: Item)
      requires faults <= OpenPins(before, host) + lost && it.pin !in faults
      requires OpenRow(before, host, it.id) ==> before[it.id].pin == it.pin
      requires after == before || (it.id in before && after == before[it.id := before[it.id].(open := false)])
      ensures faults <= OpenPins(after, host) + lost
    {
      forall p | p in faults && p !in lost
        ensures p in OpenPins(after, host)
      {
        var id :| id in before && OpenRow(before, host, id) && before[id].pin == p;
        assert OpenRow(after, host, id);
      }
    }

    // ---- The commands ----

    /** Moves the file's entries into the Well, then empties the file; k entries got there. */
    method MovePacketFile() returns (ok: bool, ghost k: nat)
      modifies this`file, this`well, this`mishaps
      ensures mishaps >= old(mishaps) && (mishaps == old(mishaps) ==> ok)
      ensures k <= |old(file)| && well == Moved(old(well), host, Named(old(file)), k)
      ensures file == old(file) || (file == [] && k == |old(file)|)
      ensures ok ==> file == [] && k == |old(file)|
    {
      k := 0;
      var loaded: bool := *;
      mishaps := mishaps + Mishap(loaded);
      if !loaded {
        return false, 0;
      }
      var items := file;
      if |items| == 0 {
        return true, 0;
      }
      ghost var named := Named(items);
      for i := 0 to |items|
        invariant k == i && file == items && well == Moved(old(well), host, named, i) && mishaps >= old(mishaps)
      {
        var it := items[i];
        if it.id == "" {
          it := it.(id := OldEntryId(it.created, i));
        }
        assert it == named[i];
        var r := AppendRow(it);
        assert Moved(old(well), host, named, i + 1) == Appended(Moved(old(well), host, named, i), host, it);
        if r == Failed {
          k := if well == Moved(old(well), host, named, i) then i else i + 1;
          return false, k;
        }
        k := i + 1;
      }
      ok := Save([]);
    }

    /** One leftover: reverted, verified gone and forgotten, or kept.  It is forgotten exactly when the revert and
        the check report no error and the check says gone. */
    method RevertEntry(store: Store, e: Item) returns (done: bool, crashed: bool, ghost made: seq<Call>)
      requires Opened(store)
      requires store == WellStore ==> e.id != "" && (OpenRow(well, host, e.id) ==> well[e.id].pin == e.pin)
      modifies this`file, this`cache, this`well, this`faults, this`mishaps, this`calls, this`tried
      ensures Opened(store) && mishaps >= old(mishaps) && calls == old(calls) + made
      ensures !crashed && mishaps == old(mishaps) ==> done
      ensures !crashed ==>
        && |made| >= 2 && made[0].Reverts? && made[1].Checks?
        && Reverting(made, e, made[0].ok && made[1].gone && made[1].ok, done)
        && tried == old(tried) + [e.pin]
      ensures store == FileStore ==> cache == if done then Without(old(cache), e.pin) else old(cache)
      ensures store == FileStore && done ==> file == cache
      ensures store == FileStore && OwnIds(old(file)) && OwnIds(old(cache)) ==> OwnIds(file) && OwnIds(cache)
      ensures forall id :: OpenRow(well, host, id) ==> OpenRow(old(well), host, id) && well[id] == old(well)[id]
      ensures store == WellStore && done ==> !OpenRow(well, host, e.id)
    {
      Others();
      done, crashed := false, true;
      var alive: bool := *;
      if !alive {
        return false, true, [];
      }
      var undone := Revert(e.pin);
      var gone, checked := Reverted(e.pin);
      made := [Reverts(e.pin, undone), Checks(e.pin, gone, checked)];
      TwoCalls(old(calls), made[0], made[1]);
      if !undone || !checked || !gone {
        return false, false, made;
      }
      alive := *;
      if !alive {
        return;
      }
      crashed := false;
      done := Remove(store, e);
      made := [Reverts(e.pin, undone), Checks(e.pin, gone, checked), Removes(e, done)];
      ThreeCalls(old(calls), made[0], made[1], made[2]);
    }

    /** Whether the calls since before end in a plan. */
    ghost predicate EndsInPlan(before: seq<Call>, ok: bool)
      reads this
    {
      |calls| > |before| && calls[|calls| - 1] == Plans(ok)
    }

    /** Every loaded entry is tried, in order; kept counts those not forgotten. */
    method RevertPacketJournal(store: Store) returns (kept: nat, crashed: bool, ghost entries: seq<Item>)
      requires Journaled() && (if store == WellStore then file == [] else NoneOpen())
      modifies this`file, this`cache, this`well, this`faults, this`mishaps, this`calls, this`tried
      ensures store == FileStore && OwnIds(old(file)) ==> OwnIds(file)
      ensures Journaled() && (if store == WellStore then file == [] else NoneOpen()) && mishaps >= old(mishaps)
      ensures !crashed && kept == 0 ==> Opened(store) && Empty(store)
      ensures !crashed && mishaps == old(mishaps) ==> kept == 0
      ensures |calls| > |old(calls)| && (!crashed ==> !calls[|calls| - 1].Plans?)
      ensures !crashed ==>
        calls[|old(calls)|].Loads? && (if calls[|old(calls)|].ok then TriedAll(old(tried), entries) else kept == 1)
      ensures store == FileStore && calls[|old(calls)|] == Loads(true) ==> entries == old(file)
    {
      var ok, loaded := Load(store);
      entries := loaded;
      if !ok {
        return 1, false, entries;
      }
      kept, crashed := RevertAll(store, loaded);
    }

    /** Since before, exactly the pins of these entries were tried. */
    ghost predicate TriedAll(before: seq<string>, entries: seq<Item>)
      reads this
    {
      && |tried| == |before| + |entries| && before <= tried
      && forall i :: 0 <= i < |entries| ==> tried[|before| + i] == entries[i].pin
    }

    method RevertAll(store: Store, entries: seq<Item>) returns (kept: nat, crashed: bool)
      requires Opened(store) && (store == FileStore ==> entries == cache == file)
      requires store == WellStore ==> Matching(well, host, entries) && RowsAmong(well, host, entries)
      modifies this`file, this`cache, this`well, this`faults, this`mishaps, this`calls, this`tried
      ensures Opened(store) && mishaps >= old(mishaps)
      ensures store == FileStore && OwnIds(old(file)) ==> OwnIds(file)
      ensures !crashed && kept == 0 ==> Empty(store)
      ensures !crashed && mishaps == old(mishaps) ==> kept == 0
      ensures old(calls) <= calls && (!crashed && |calls| > |old(calls)| ==> !calls[|calls| - 1].Plans?)
      ensures !crashed ==> TriedAll(old(tried), entries)
    {
      kept, crashed := 0, false;
      for i := 0 to |entries|
        invariant Opened(store) && !crashed && mishaps >= old(mishaps) && (mishaps == old(mishaps) ==> kept == 0)
        invariant old(calls) <= calls && (|calls| > |old(calls)| ==> !calls[|calls| - 1].Plans?)
        invariant TriedAll(old(tried), entries[..i])
        invariant store == FileStore && OwnIds(old(file)) ==> OwnIds(file) && OwnIds(cache)
        invariant store == FileStore && kept == 0 ==> file == cache && Among(cache, entries[i..])
        invariant store == WellStore ==> Matching(well, host, entries)
        invariant store == WellStore && kept == 0 ==> RowsAmong(well, host, entries[i..])
      {
        var e := entries[i];
        assert entries[i..] == [e] + entries[i + 1..];
        ghost var had, rows := cache, well;
        var done;
        ghost var made;
        done, crashed, made := RevertEntry(store, e);
        FewerLeft(had, e, entries[i + 1..]);
        FewerRows(rows, well, host, entries, e, entries[i + 1..]);
        if crashed {
          return;
        }
        if !done {
          kept := kept + 1;
        }
      }
      assert entries[|entries|..] == [] && entries[..|entries|] == entries;
      NoneLeft(cache, well, host);
    }

    /** The fault is un-journaled exactly when the check says it is gone, and exit 0 means it was. */
    method FinishPacket(store: Store, it: Item) returns (code: nat, crashed: bool, ghost made: seq<Call>)
      requires Opened(store) && faults <= {it.pin} + lost
      requires store == FileStore ==> cache == [it]
      requires store == WellStore ==> forall id :: OpenRow(well, host, id) ==> id == it.id && well[id].pin == it.pin
      requires store == WellStore ==> it.id != ""
      modifies this`file, this`cache, this`well, this`faults, this`mishaps, this`calls, this`tried
      ensures Opened(store) && mishaps >= old(mishaps) && calls == old(calls) + made
      ensures store == FileStore && OwnIds(old(file)) && OwnIds(old(cache)) ==> OwnIds(file)
      ensures !crashed ==> code <= 1 && |made| >= 2 && made[1].Checks? && Reverting(made, it, made[1].gone, code == 0)
      ensures !crashed && code == 0 ==> faults <= lost && Empty(store)
      ensures !crashed && mishaps == old(mishaps) ==> code == 0
    {
      Others();
      var alive: bool := *;
      if !alive {
        return 1, true, [];
      }
      var undone := Revert(it.pin);
      var gone, checked := Reverted(it.pin);
      made := [Reverts(it.pin, undone), Checks(it.pin, gone, checked)];
      TwoCalls(old(calls), made[0], made[1]);
      alive := *;
      if !alive {
        return 1, true, made;
      }
      if !gone {
        return 1, false, made;
      }
      var removed := Remove(store, it);
      made := [Reverts(it.pin, undone), Checks(it.pin, gone, checked), Removes(it, removed)];
      ThreeCalls(old(calls), made[0], made[1], made[2]);
      return if removed then 0 else 1, false, made;
    }

    /** What a run keeps, crash or not, and what exit code 0 means.  Only a move of ids that cannot be claimed loses
        anything, and then only faults of the file. */
    method RunPacketChaos(valid: bool, dryRun: bool, store: Store) returns (exit: Exit)
      requires Journaled() && Fits(store)
      modifies this
      ensures Journaled() && Fits(store)
      ensures lost <= old(lost) + FilePins(old(file)) && (store == FileStore ==> lost == old(lost))
      ensures store == WellStore && old(Movable()) ==> lost == old(lost) && Movable()
      ensures store == FileStore && OwnIds(old(file)) ==> OwnIds(file)
      ensures exit == Code(0) && !dryRun ==> valid && faults <= lost && file == [] && NoneOpen()
      ensures exit == Code(0) && !dryRun ==> |calls| >= |old(calls)| + 7 && FullRun(calls)
      ensures valid && !dryRun && exit != Crashed && mishaps == old(mishaps) ==> exit == Code(0)
      ensures exit.Code? ==> exit.code <= 2 && (!valid ==> exit.code == 2) && (dryRun ==> exit.code != 1)
      ensures exit.Code? && valid && !dryRun ==>
        (exit.code == 2 <==> EndsInPlan(old(calls), false)) && (exit.code == 2 ==> faults <= lost)
      ensures !valid || dryRun ==> unchanged(this)
    {
      if !valid {
        return Code(2);
      }
      if dryRun {
        var shown: bool := *;
        return if shown then Code(0) else Code(2);
      }
      if store == WellStore {
        var moved := OpenWell();
        if !moved {
          return Code(1);
        }
      }
      var alive: bool := *;
      if !alive {
        return Crashed;
      }
      exit := Leftovers(store);
    }

    /** Faults a previous run left behind come back first, and only then is a new one planned. */
    method Leftovers(store: Store) returns (exit: Exit)
      requires Journaled() && (if store == WellStore then file == [] else NoneOpen())
      modifies this`file, this`cache, this`well, this`faults, this`mishaps, this`calls, this`tried
      ensures Journaled() && (if store == WellStore then file == [] else NoneOpen())
      ensures store == FileStore && OwnIds(old(file)) ==> OwnIds(file)
      ensures exit == Code(0) ==> faults <= lost && file == [] && NoneOpen()
      ensures exit == Code(0) ==> |calls| >= |old(calls)| + 7 && FullRun(calls)
      ensures mishaps >= old(mishaps) && (exit != Crashed && mishaps == old(mishaps) ==> exit == Code(0))
      ensures exit.Code? ==> exit.code <= 2
      ensures exit.Code? ==>
        (exit.code == 2 <==> EndsInPlan(old(calls), false)) && (exit.code == 2 ==> faults <= lost)
    {
      var kept, crashed, _ := RevertPacketJournal(store);
      if crashed {
        return Crashed;
      }
      if kept > 0 {
        return Code(1);
      }
      var planned, pin := Plan();
      var alive: bool := *;
      if !alive {
        return Crashed;
      }
      if !planned {
        return Code(2);
      }
      ghost var before, made, it := calls, [], Item("", 0, "");
      exit, it, made := InjectOne(store, pin);
      if exit == Code(0) {
        RunIsFull(before, made, it);
      }
    }

    method OpenWell() returns (ok: bool)
      requires Journaled()
      modifies this`file, this`well, this`mishaps, this`lost
      ensures Journaled() && (ok ==> file == [])
      ensures lost <= old(lost) + FilePins(old(file))
      ensures old(Movable()) ==> lost == old(lost) && Movable()
      ensures mishaps >= old(mishaps) && (mishaps == old(mishaps) ==> ok)
    {
      Others();
      ghost var items, before := file, well;
      ghost var k;
      ok, k := MovePacketFile();
      FileAccounts(before, host, items, k, faults, lost);
      if file == [] {
        lost := lost + LostPins(before, host, Named(items));
      }
    }

    /** Journal, inject, wait, revert, verify, un-journal. */
    method InjectOne(store: Store, pin: string) returns (exit: Exit, ghost it: Item, ghost made: seq<Call>)
      requires Opened(store) && Empty(store)
      modifies this`file, this`cache, this`well, this`faults, this`mishaps, this`calls, this`tried
      ensures Journaled() && (if store == WellStore then file == [] else NoneOpen() && OwnIds(file))
      ensures calls == old(calls) + made && it.pin == pin
      ensures exit.Code? ==> exit.code <= 1 && made != [] && !made[|made| - 1].Plans?
      ensures exit == Code(0) ==> faults <= lost && file == [] && NoneOpen() && Injecting(made, 0, it)
      ensures mishaps >= old(mishaps) && (exit != Crashed && mishaps == old(mishaps) ==> exit == Code(0))
    {
      var now: int := *;
      var entry := Item(PacketId(now), now, pin);
      it := entry;
      OwnOne(now, pin);
      assert faults <= lost;
      var added := Add(store, entry);
      made := [Adds(entry, added)];
      if !added {
        return Code(1), entry, made;
      }
      var alive: bool := *;
      if !alive {
        return Crashed, entry, made;
      }
      Listed(store, entry);
      var injected := Inject(pin);
      made := [Adds(entry, added), Injects(pin, injected)];
      TwoCalls(old(calls), made[0], made[1]);
      var waited: bool := *;
      if !waited {
        return Crashed, entry, made;
      }
      ghost var more;
      var code, crashed;
      code, crashed, more := FinishPacket(store, entry);
      InjectedAll(old(calls), entry, injected, more, code, crashed);
      made := made + more;
      return if crashed then Crashed else Code(code), entry, made;
    }

    /** What was just journaled is listed. */
    lemma Listed(store: Store, it: Item)
      requires store == FileStore ==> file == [it]
      requires store == WellStore ==> OpenRow(well, host, it.id) && well[it.id].pin == it.pin
      ensures it.pin in FilePins(file) + OpenPins(well, host)
    {
      if store == FileStore {
        assert it in file;
      }
    }

    method Runs(store: Store, runs: nat)
      requires Journaled() && Fits(store) && lost == {} && (store == WellStore ==> Movable())
      modifies this
      ensures Journaled() && Fits(store) && lost == {} && (store == WellStore ==> Movable())
      ensures store == FileStore && OwnIds(old(file)) ==> OwnIds(file)
    {
      for _ := 0 to runs
        invariant Journaled() && Fits(store) && lost == {} && (store == WellStore ==> Movable())
        invariant store == FileStore && OwnIds(old(file)) ==> OwnIds(file)
      {
        var valid: bool := *;
        var dryRun: bool := *;
        var _ := RunPacketChaos(valid, dryRun, store);
        Others();
      }
    }

    /** A host's life: any number of runs on the file, and, if no other row has an id of the file by then, the switch
        to the Well and any number of runs there.  At no point is a fault in place that no journal lists. */
    method Life(fileRuns: nat, wellRuns: nat) returns (switched: bool)
      requires Journaled() && NoneOpen() && lost == {} && OwnIds(file)
      modifies this
      ensures faults <= FilePins(file) + OpenPins(well, host)
      ensures if switched then Movable() else NoneOpen()
    {
      Runs(FileStore, fileRuns);
      switched := Untaken(well, Named(file));
      if switched {
        OwnFileApart(file);
        ApartClaimable(well, host, Named(file));
        Runs(WellStore, wellRuns);
      }
    }
  }
}
