/** The alert mailer: pages at once, tickets in one digest a day, at most MaxPerDay mails a day, and a state
    file that survives restarts. */
module Mailer {
  import opened Wrappers

  datatype Alert =
    Alert(resolved: bool, fingerprint: string, slo: string, tier: string, alertname: string, startsAt: int)

  /** One sample of the clock: the instant, the local day it falls on and the minute of that day. */
  datatype Clock = Clock(at: int, day: int, minute: int)

  /** The digest is due from minute digestAt of the local day on. */
  datatype Settings = Settings(send: bool, maxPerDay: int, reminder: int, digestAt: int)

  /** A line of the digest's list of resolved tickets. */
  datatype Resolution = Resolution(name: string, tier: string, startsAt: int)

  datatype Subject = Burning(slo: bool) | StillBurning | Cleared

  datatype Message =
    | Notice(subject: Subject, names: set<string>, firing: seq<Alert>, resolved: seq<Alert>)
    | Digest(open: map<string, Alert>, cleared: seq<Resolution>, held: nat)

  datatype Outcome = Sent | DryRun | Capped | Failed | Unchanged

  /** When, on which local day, what became of it, and the message. */
  datatype Entry = Entry(at: int, day: int, outcome: Outcome, msg: Message)

  const OUTBOX_KEEP := 50

  datatype State = State(
    day: Option<int>, sent: nat, held: nat, heldSinceDigest: nat, lastDigest: Option<int>,
    tickets: map<string, Alert>, resolved: seq<Resolution>, outbox: seq<Entry>,
    pageFiring: set<string>, pageMailedAt: int)

  const EMPTY := State(None, 0, 0, 0, None, map[], [], [], {}, 0)

  /** A mail handed over (or, in dry-run, counted as if it were), with the number its footer shows. */
  datatype Mail = Mail(day: int, number: nat, msg: Message)

  /** The mailer in memory, the state file, and what has happened so far. */
  datatype System = System(mem: State, disk: State, mails: seq<Mail>, log: seq<Entry>)

  /** What the outside world answers during one operation. */
  datatype Io = Io(sendOk: bool, save1: bool, save2: bool)

  // ---- Small helpers ----

  function Name(a: Alert): string {
    if a.slo != "" then a.slo else a.alertname
  }

  function Key(a: Alert): string {
    if a.fingerprint == "" then a.slo + "/" + a.tier + "/" + a.alertname else a.fingerprint
  }

  function Told(a: Alert): Resolution {
    Resolution(Name(a), a.tier, a.startsAt)
  }

  function Select(alerts: seq<Alert>, resolved: bool): seq<Alert> {
    if alerts == [] then []
    else
      var front := Select(alerts[..|alerts| - 1], resolved);
      var a := alerts[|alerts| - 1];
      if a.resolved == resolved then front + [a] else front
  }

  function Names(alerts: seq<Alert>): set<string> {
    set a | a in alerts :: Name(a)
  }

  function Last<T>(s: seq<T>, n: nat): seq<T> {
    if |s| > n then s[|s| - n..] else s
  }

  // ---- The operations, on values ----

  function Rolled(st: State, day: int): State {
    if st.day == Some(day) then st else st.(day := Some(day), sent := 0, held := 0)
  }

  function Saved(s: System, ok: bool): System {
    if ok then s.(disk := s.mem) else s
  }

  function Recorded(s: System, c: Clock, msg: Message, outcome: Outcome): System {
    var e := Entry(c.at, c.day, outcome, msg);
    s.(mem := s.mem.(outbox := Last(s.mem.outbox + [e], OUTBOX_KEEP)), log := s.log + [e])
  }

  function Judged(cfg: Settings, sent: nat, io: Io): Outcome {
    if sent >= cfg.maxPerDay then Capped
    else if !cfg.send then DryRun
    else if io.sendOk then Sent
    else Failed
  }

  predicate Went(o: Outcome) {
    o == Sent || o == DryRun
  }

  /** The new system, the outcome, and whether no error came back. */
  function Delivered(cfg: Settings, s: System, c: Clock, msg: Message, io: Io): (System, Outcome, bool) {
    var mem := Rolled(s.mem, c.day);
    var outcome := Judged(cfg, mem.sent, io);
    var counted := mem.(
      sent := if Went(outcome) then mem.sent + 1 else mem.sent,
      held := if outcome == Capped then mem.held + 1 else mem.held,
      heldSinceDigest := if outcome == Capped then mem.heldSinceDigest + 1 else mem.heldSinceDigest);
    var mails := if Went(outcome) then s.mails + [Mail(c.day, mem.sent + 1, msg)] else s.mails;
    var t := Recorded(System(counted, s.disk, mails, s.log), c, msg, outcome);
    (Saved(t, io.save1), outcome, io.save1 && outcome != Failed)
  }

  function PageSubject(cfg: Settings, st: State, now: int, firing: seq<Alert>): Option<Subject> {
    if firing == [] then Some(Cleared)
    else if !(Names(firing) <= st.pageFiring) then Some(Burning(exists a :: a in firing && a.slo != ""))
    else if now - st.pageMailedAt >= cfg.reminder then Some(StillBurning)
    else None
  }

  /** The notification to mail, if it says anything new. */
  function PageMessage(cfg: Settings, st: State, now: int, alerts: seq<Alert>): Option<Message> {
    var firing := Select(alerts, false);
    match PageSubject(cfg, st, now, firing)
    case None => None
    case Some(subject) =>
      Some(Notice(subject, if firing == [] then st.pageFiring else Names(firing), firing, Select(alerts, true)))
  }

  /** Nothing in the notification, or a resolution nobody was told about. */
  predicate Idle(st: State, alerts: seq<Alert>) {
    Select(alerts, false) == [] && (Select(alerts, true) == [] || st.pageFiring == {})
  }

  function Passed(s: System, c: Clock, firing: seq<Alert>, io: Io): System {
    var msg := Notice(Burning(exists a :: a in firing && a.slo != ""), Names(firing), [], []);
    Saved(Recorded(s.(mem := s.mem.(pageFiring := Names(firing))), c, msg, Unchanged), io.save1)
  }

  function Announced(cfg: Settings, s: System, c: Clock, msg: Message, names: set<string>, io: Io): System {
    var (t, outcome, ok) := Delivered(cfg, s, c, msg, io);
    if ok && outcome != Capped then
      Saved(t.(mem := t.mem.(pageFiring := names, pageMailedAt := c.at)), io.save2)
    else t
  }

  function Paged(cfg: Settings, s: System, c: Clock, alerts: seq<Alert>, io: Io): System {
    if Idle(s.mem, alerts) then s
    else
      match PageMessage(cfg, s.mem, c.at, alerts)
      case None => Passed(s, c, Select(alerts, false), io)
      case Some(msg) => Announced(cfg, s, c, msg, Names(Select(alerts, false)), io)
  }

  function Ticketed1(st: State, a: Alert): State {
    if !a.resolved then st.(tickets := st.tickets[Key(a) := a])
    else if Key(a) in st.tickets then
      st.(tickets := st.tickets - {Key(a)}, resolved := st.resolved + [Told(a)])
    else st
  }

  function TicketedAll(st: State, alerts: seq<Alert>): State
    decreases |alerts|
  {
    if alerts == [] then st else Ticketed1(TicketedAll(st, alerts[..|alerts| - 1]), alerts[|alerts| - 1])
  }

  function Ticketed(s: System, alerts: seq<Alert>, io: Io): System {
    Saved(s.(mem := TicketedAll(s.mem, alerts)), io.save1)
  }

  predicate DigestPending(cfg: Settings, st: State, c: Clock) {
    c.minute >= cfg.digestAt && st.lastDigest != Some(c.day)
  }

  predicate News(st: State) {
    st.tickets != map[] || st.resolved != [] || st.heldSinceDigest != 0
  }

  function DigestOf(st: State): Message {
    Digest(st.tickets, st.resolved, st.heldSinceDigest)
  }

  function Digested(cfg: Settings, s: System, c: Clock, io: Io): System {
    var (t, outcome, ok) := Delivered(cfg, s, c, DigestOf(s.mem), io);
    if !ok then t
    else
      var told := if outcome != Capped then t.mem.(resolved := [], heldSinceDigest := 0) else t.mem;
      Saved(t.(mem := told.(lastDigest := Some(c.day))), io.save2)
  }

  function Ticked(cfg: Settings, s: System, c: Clock, io: Io): System {
    if !DigestPending(cfg, s.mem, c) then s
    else if !News(s.mem) then Saved(s.(mem := s.mem.(lastDigest := Some(c.day))), io.save1)
    else Digested(cfg, s, c, io)
  }

  // ---- Runs ----

  datatype Event =
    | Page(c: Clock, alerts: seq<Alert>, io: Io)
    | Ticket(alerts: seq<Alert>, io: Io)
    | Tick(c: Clock, io: Io)
    | Status(c: Clock)
    | Restart

  function Step(cfg: Settings, s: System, e: Event): System {
    match e
    case Page(c, alerts, io) => Paged(cfg, s, c, alerts, io)
    case Ticket(alerts, io) => Ticketed(s, alerts, io)
    case Tick(c, io) => Ticked(cfg, s, c, io)
    case Status(c) => s.(mem := Rolled(s.mem, c.day))
    case Restart => s.(mem := s.disk)
  }

  function After(cfg: Settings, s: System, es: seq<Event>): System
    decreases |es|
  {
    if es == [] then s else After(cfg, Step(cfg, s, es[0]), es[1..])
  }

  const START := System(EMPTY, EMPTY, [], [])

  /** The clock after an event that followed clock c. */
  function Read(c: Clock, e: Event): Clock {
    if e.Ticket? || e.Restart? then c else e.c
  }

  function Now(c: Clock, es: seq<Event>): Clock
    decreases |es|
  {
    if es == [] then c else Now(Read(c, es[0]), es[1..])
  }

  /** Neither the instant nor the day ever goes back. */
  predicate Ordered(c: Clock, es: seq<Event>)
    decreases |es|
  {
    es == [] ||
    (c.at <= Read(c, es[0]).at && c.day <= Read(c, es[0]).day && Ordered(Read(c, es[0]), es[1..]))
  }

  predicate Saves(e: Event) {
    !(e.Page? || e.Ticket? || e.Tick?) || (e.io.save1 && e.io.save2)
  }

  predicate AllSaved(es: seq<Event>) {
    forall e :: e in es ==> Saves(e)
  }

  // ---- Counting what was mailed ----

  function CountOn(mails: seq<Mail>, d: int): nat {
    if mails == [] then 0
    else CountOn(mails[..|mails| - 1], d) + if mails[|mails| - 1].day == d then 1 else 0
  }

  function DigestsOn(mails: seq<Mail>, d: int): nat {
    if mails == [] then 0
    else DigestsOn(mails[..|mails| - 1], d)
         + if mails[|mails| - 1].day == d && mails[|mails| - 1].msg.Digest? then 1 else 0
  }

  lemma Mailed(mails: seq<Mail>, m: Mail, d: int)
    ensures CountOn(mails + [m], d) == CountOn(mails, d) + if m.day == d then 1 else 0
    ensures DigestsOn(mails + [m], d) == DigestsOn(mails, d) + if m.day == d && m.msg.Digest? then 1 else 0
  {
    assert (mails + [m])[..|mails|] == mails;
  }

  lemma {:induction false} NoneOn(mails: seq<Mail>, d: int)
    requires forall m :: m in mails ==> m.day != d
    ensures CountOn(mails, d) == DigestsOn(mails, d) == 0
  {
    if mails != [] {
      NoneOn(mails[..|mails| - 1], d);
    }
  }

  // ---- The daily cap ----

  function Cap(cfg: Settings): nat {
    if cfg.maxPerDay < 0 then 0 else cfg.maxPerDay
  }

  function SentOn(day: Option<int>, sent: nat, d: int): nat {
    if day == Some(d) then sent else 0
  }

  /** A counter of a day is the number of mails of day d, which is not before any mail or the counter's day. */
  ghost predicate Counted(day: Option<int>, sent: nat, mails: seq<Mail>, d: int) {
    && (forall m :: m in mails ==> m.day <= d)
    && (day.Some? ==> day.value <= d)
    && SentOn(day, sent, d) == CountOn(mails, d)
  }

  ghost predicate Within(cfg: Settings, mails: seq<Mail>) {
    forall d :: CountOn(mails, d) <= Cap(cfg)
  }

  /** The n-th mail of a day says it is the n-th. */
  ghost predicate Numbered(mails: seq<Mail>) {
    forall i :: 0 <= i < |mails| ==> mails[i].number == CountOn(mails[..i + 1], mails[i].day)
  }

  lemma Later(day: Option<int>, sent: nat, mails: seq<Mail>, d: int, e: int)
    requires Counted(day, sent, mails, d) && d <= e
    ensures Counted(day, sent, mails, e)
  {
    if d < e {
      NoneOn(mails, e);
    }
  }

  lemma NumberedMore(mails: seq<Mail>, m: Mail)
    requires Numbered(mails) && m.number == CountOn(mails, m.day) + 1
    ensures Numbered(mails + [m])
  {
    var more := mails + [m];
    Mailed(mails, m, m.day);
    forall i | 0 <= i < |more|
      ensures more[i].number == CountOn(more[..i + 1], more[i].day)
    {
      if i < |mails| {
        assert more[..i + 1] == mails[..i + 1];
      } else {
        assert more[..i + 1] == more;
      }
    }
  }

  /** What the cap's invariant says of the mailer in memory. */
  ghost predicate CapKept(cfg: Settings, mem: State, mails: seq<Mail>, d: int) {
    Counted(mem.day, mem.sent, mails, d) && Within(cfg, mails) && Numbered(mails)
  }

  lemma OneMoreWithin(cfg: Settings, day: Option<int>, sent: nat, mails: seq<Mail>, m: Mail)
    requires Counted(day, sent, mails, m.day) && Within(cfg, mails) && Numbered(mails)
    requires SentOn(day, sent, m.day) < cfg.maxPerDay && m.number == SentOn(day, sent, m.day) + 1
    ensures Counted(Some(m.day), m.number, mails + [m], m.day) && Within(cfg, mails + [m]) && Numbered(mails + [m])
  {
    forall d
      ensures CountOn(mails + [m], d) <= Cap(cfg)
    {
      Mailed(mails, m, d);
    }
    Mailed(mails, m, m.day);
    NumberedMore(mails, m);
  }

  /** The parts of the system that a delivery touches, field by field. */
  lemma DeliveredParts(cfg: Settings, s: System, c: Clock, msg: Message, io: Io)
    ensures var (t, outcome, ok) := Delivered(cfg, s, c, msg, io);
      var sent := SentOn(s.mem.day, s.mem.sent, c.day);
      && t.mem.day == Some(c.day)
      && t.mem.tickets == s.mem.tickets && t.mem.resolved == s.mem.resolved && t.mem.lastDigest == s.mem.lastDigest
      && t.mem.pageFiring == s.mem.pageFiring && t.mem.pageMailedAt == s.mem.pageMailedAt
      && outcome == Judged(cfg, sent, io) && (ok <==> io.save1 && outcome != Failed)
      && t.mem.heldSinceDigest == s.mem.heldSinceDigest + (if outcome == Capped then 1 else 0)
      && t.mem.held == SentOn(s.mem.day, s.mem.held, c.day) + (if outcome == Capped then 1 else 0)
      && t.log == s.log + [Entry(c.at, c.day, outcome, msg)]
      && t.mem.outbox == Last(s.mem.outbox + [Entry(c.at, c.day, outcome, msg)], OUTBOX_KEEP)
      && t.disk == (if io.save1 then t.mem else s.disk)
      && t.mem.sent == (if Went(outcome) then sent + 1 else sent)
      && t.mails == (if Went(outcome) then s.mails + [Mail(c.day, sent + 1, msg)] else s.mails)
  {
  }

  lemma CapKeptBy(cfg: Settings, s: System, t: System, d: int, msg: Message, went: bool)
    requires CapKept(cfg, s.mem, s.mails, d) && t.mem.day == Some(d)
    requires var sent := SentOn(s.mem.day, s.mem.sent, d);
      if went then sent < cfg.maxPerDay && t.mem.sent == sent + 1 && t.mails == s.mails + [Mail(d, sent + 1, msg)]
      else t.mem.sent == sent && t.mails == s.mails
    ensures CapKept(cfg, t.mem, t.mails, d)
  {
    if went {
      OneMoreWithin(cfg, s.mem.day, s.mem.sent, s.mails, Mail(d, SentOn(s.mem.day, s.mem.sent, d) + 1, msg));
    }
  }

  lemma DeliveredCounted(cfg: Settings, s: System, c: Clock, msg: Message, io: Io)
    requires CapKept(cfg, s.mem, s.mails, c.day)
    ensures var t := Delivered(cfg, s, c, msg, io).0; CapKept(cfg, t.mem, t.mails, c.day)
  {
    DeliveredParts(cfg, s, c, msg, io);
    var sent := SentOn(s.mem.day, s.mem.sent, c.day);
    CapKeptBy(cfg, s, Delivered(cfg, s, c, msg, io).0, c.day, msg, Went(Judged(cfg, sent, io)));
  }

  lemma {:induction false} TicketsOnly(st: State, alerts: seq<Alert>)
    ensures var t := TicketedAll(st, alerts); t == st.(tickets := t.tickets, resolved := t.resolved)
  {
    if alerts != [] {
      TicketsOnly(st, alerts[..|alerts| - 1]);
    }
  }

  lemma PagedCounted(cfg: Settings, s: System, c: Clock, alerts: seq<Alert>, io: Io)
    requires CapKept(cfg, s.mem, s.mails, c.day)
    ensures var t := Paged(cfg, s, c, alerts, io); CapKept(cfg, t.mem, t.mails, c.day)
  {
    var m := PageMessage(cfg, s.mem, c.at, alerts);
    if m.Some? {
      DeliveredCounted(cfg, s, c, m.value, io);
    }
  }

  lemma TickedCounted(cfg: Settings, s: System, c: Clock, io: Io)
    requires CapKept(cfg, s.mem, s.mails, c.day)
    ensures var t := Ticked(cfg, s, c, io); CapKept(cfg, t.mem, t.mails, c.day)
  {
    DeliveredCounted(cfg, s, c, DigestOf(s.mem), io);
  }

  lemma StepCounted(cfg: Settings, s: System, c: Clock, e: Event)
    requires CapKept(cfg, s.mem, s.mails, c.day) && c.day <= Read(c, e).day
    requires e.Restart? ==> Counted(s.disk.day, s.disk.sent, s.mails, c.day)
    ensures var t := Step(cfg, s, e); CapKept(cfg, t.mem, t.mails, Read(c, e).day)
  {
    Later(s.mem.day, s.mem.sent, s.mails, c.day, Read(c, e).day);
    match e
    case Page(c', alerts, io) => PagedCounted(cfg, s, c', alerts, io);
    case Ticket(alerts, io) => TicketsOnly(s.mem, alerts);
    case Tick(c', io) => TickedCounted(cfg, s, c', io);
    case Status(_) =>
    case Restart =>
  }

  /** The state file never counts more than was mailed. */
  ghost predicate Behind(disk: State, mails: seq<Mail>, d: int) {
    (disk.day.Some? ==> disk.day.value <= d) && SentOn(disk.day, disk.sent, d) <= CountOn(mails, d)
  }

  /** An operation leaves the file's counter alone or writes the one in memory, and with good saves writes all. */
  lemma StepDisk(cfg: Settings, s: System, e: Event)
    ensures var t := Step(cfg, s, e);
      && ((t.disk == s.disk && (e.Restart? || t.mails == s.mails || !Saves(e)))
          || (t.disk.day == t.mem.day && t.disk.sent == t.mem.sent))
      && (Saves(e) && (e.Page? || e.Ticket? || e.Tick?) ==> t == s || t.disk == t.mem)
  {
    match e
    case Page(c, alerts, io) =>
      var m := PageMessage(cfg, s.mem, c.at, alerts);
      if m.Some? {
        DeliveredParts(cfg, s, c, m.value, io);
      }
    case Ticket(alerts, io) =>
    case Tick(c, io) => DeliveredParts(cfg, s, c, DigestOf(s.mem), io);
    case Status(_) =>
    case Restart =>
  }

  /** A tick delivers a digest exactly when it is due, not yet noted, has something to say and is let through. */
  predicate DeliversDigest(cfg: Settings, st: State, c: Clock, io: Io) {
    && c.minute >= cfg.digestAt && st.lastDigest != Some(c.day)
    && (st.tickets != map[] || st.resolved != [] || st.heldSinceDigest != 0)
    && SentOn(st.day, st.sent, c.day) < cfg.maxPerDay && (cfg.send ==> io.sendOk)
  }

  lemma TickMails(cfg: Settings, s: System, c: Clock, io: Io, d: int)
    ensures CountOn(s.mails, d) <= CountOn(Ticked(cfg, s, c, io).mails, d) <= CountOn(s.mails, d) + 1
    ensures s.mails <= Ticked(cfg, s, c, io).mails && |Ticked(cfg, s, c, io).mails| <= |s.mails| + 1
    ensures DigestsOn(Ticked(cfg, s, c, io).mails, d)
         == DigestsOn(s.mails, d) + if d == c.day && DeliversDigest(cfg, s.mem, c, io) then 1 else 0
  {
    DeliveredParts(cfg, s, c, DigestOf(s.mem), io);
    Mailed(s.mails, Mail(c.day, SentOn(s.mem.day, s.mem.sent, c.day) + 1, DigestOf(s.mem)), d);
  }

  lemma PageMails(cfg: Settings, s: System, c: Clock, alerts: seq<Alert>, io: Io, d: int)
    ensures CountOn(s.mails, d) <= CountOn(Paged(cfg, s, c, alerts, io).mails, d) <= CountOn(s.mails, d) + 1
    ensures s.mails <= Paged(cfg, s, c, alerts, io).mails && |Paged(cfg, s, c, alerts, io).mails| <= |s.mails| + 1
    ensures DigestsOn(Paged(cfg, s, c, alerts, io).mails, d) == DigestsOn(s.mails, d)
  {
    var m := PageMessage(cfg, s.mem, c.at, alerts);
    if m.Some? {
      DeliveredParts(cfg, s, c, m.value, io);
      Mailed(s.mails, Mail(c.day, SentOn(s.mem.day, s.mem.sent, c.day) + 1, m.value), d);
    }
  }

  /** A step mails at most one thing: a page, or the digest when DeliversDigest says so. */
  lemma StepMails(cfg: Settings, s: System, e: Event, d: int)
    ensures CountOn(s.mails, d) <= CountOn(Step(cfg, s, e).mails, d) <= CountOn(s.mails, d) + 1
    ensures s.mails <= Step(cfg, s, e).mails && |Step(cfg, s, e).mails| <= |s.mails| + 1
    ensures DigestsOn(Step(cfg, s, e).mails, d)
         == DigestsOn(s.mails, d) + if e.Tick? && d == e.c.day && DeliversDigest(cfg, s.mem, e.c, e.io) then 1 else 0
  {
    match e
    case Page(c, alerts, io) => PageMails(cfg, s, c, alerts, io, d);
    case Ticket(_, _) =>
    case Tick(c, io) => TickMails(cfg, s, c, io, d);
    case Status(_) =>
    case Restart =>
  }

  lemma StepBehind(cfg: Settings, s: System, e: Event, d: int)
    requires Behind(s.disk, s.mails, d)
    requires Counted(Step(cfg, s, e).mem.day, Step(cfg, s, e).mem.sent, Step(cfg, s, e).mails, d)
    ensures Behind(Step(cfg, s, e).disk, Step(cfg, s, e).mails, d)
  {
    StepDisk(cfg, s, e);
    StepMails(cfg, s, e, d);
  }

  lemma BehindLater(disk: State, mails: seq<Mail>, d: int, e: int)
    requires Behind(disk, mails, d) && d <= e
    ensures Behind(disk, mails, e)
  {
  }

  /** At every restart the file counts all mails of the day. */
  ghost predicate RestartsCounted(cfg: Settings, s: System, c: Clock, es: seq<Event>)
    decreases |es|
  {
    es == [] ||
    (&& (es[0].Restart? ==> Counted(s.disk.day, s.disk.sent, s.mails, c.day))
     && RestartsCounted(cfg, Step(cfg, s, es[0]), Read(c, es[0]), es[1..]))
  }

  /** The cap holds in every run, whatever sends and saves fail, as long as no restart loses a count. */
  lemma {:induction false} CapEveryRun(cfg: Settings, s: System, c: Clock, es: seq<Event>)
    requires CapKept(cfg, s.mem, s.mails, c.day) && Behind(s.disk, s.mails, c.day)
    requires Ordered(c, es) && RestartsCounted(cfg, s, c, es)
    ensures var t, d := After(cfg, s, es), Now(c, es).day; CapKept(cfg, t.mem, t.mails, d) && Behind(t.disk, t.mails, d)
    decreases |es|
  {
    if es != [] {
      var t, c' := Step(cfg, s, es[0]), Read(c, es[0]);
      StepCounted(cfg, s, c, es[0]);
      BehindLater(s.disk, s.mails, c.day, c'.day);
      StepBehind(cfg, s, es[0], c'.day);
      CapEveryRun(cfg, t, c', es[1..]);
    }
  }

  lemma {:induction false} SavedRestartsCounted(cfg: Settings, s: System, c: Clock, es: seq<Event>)
    requires CapKept(cfg, s.mem, s.mails, c.day) && Counted(s.disk.day, s.disk.sent, s.mails, c.day)
    requires Ordered(c, es) && AllSaved(es)
    ensures RestartsCounted(cfg, s, c, es)
    decreases |es|
  {
    if es != [] {
      StepCounted(cfg, s, c, es[0]);
      StepDisk(cfg, s, es[0]);
      Later(s.disk.day, s.disk.sent, s.mails, c.day, Read(c, es[0]).day);
      SavedRestartsCounted(cfg, Step(cfg, s, es[0]), Read(c, es[0]), es[1..]);
    }
  }

  // ---- When a restart keeps the cap ----

  function X(n: nat): string {
    if n == 0 then "" else X(n - 1) + "x"
  }

  lemma {:induction false} XLength(n: nat)
    ensures |X(n)| == n
  {
    if n > 0 {
      XLength(n - 1);
    }
  }

  lemma {:induction false} LongerThanAll(names: set<string>) returns (n: nat)
    ensures forall x :: x in names ==> |x| < n
    decreases |names|
  {
    if names == {} {
      n := 1;
    } else {
      var x :| x in names;
      n := LongerThanAll(names - {x});
      n := if n <= |x| then |x| + 1 else n;
    }
  }

  /** n pages in a row, each naming something new, all mailed on the clock's day. */
  lemma {:induction false} Flood(cfg: Settings, s: System, c: Clock, n: nat) returns (es: seq<Event>)
    requires SentOn(s.mem.day, s.mem.sent, c.day) + n <= cfg.maxPerDay
    ensures Ordered(c, es) && AllSaved(es)
    ensures CountOn(After(cfg, s, es).mails, c.day) == CountOn(s.mails, c.day) + n
    decreases n
  {
    if n == 0 {
      es := [];
    } else {
      var l := LongerThanAll(s.mem.pageFiring);
      XLength(l);
      var a := Alert(false, "", X(l), "", "", 0);
      var io := Io(true, true, true);
      var e := Page(c, [a], io);
      FloodStep(cfg, s, c, a, io);
      var rest := Flood(cfg, Step(cfg, s, e), c, n - 1);
      es := [e] + rest;
      assert es[1..] == rest;
    }
  }

  lemma FloodStep(cfg: Settings, s: System, c: Clock, a: Alert, io: Io)
    requires !a.resolved && Name(a) !in s.mem.pageFiring && io.sendOk && io.save1 && io.save2
    requires SentOn(s.mem.day, s.mem.sent, c.day) < cfg.maxPerDay
    ensures var t := Step(cfg, s, Page(c, [a], io));
      && SentOn(t.mem.day, t.mem.sent, c.day) == SentOn(s.mem.day, s.mem.sent, c.day) + 1
      && CountOn(t.mails, c.day) == CountOn(s.mails, c.day) + 1
  {
    assert Select([a], false) == [a] by {
      assert [a][..0] == [] && Select([], false) == [];
    }
    assert Name(a) in Names([a]);
    var m := PageMessage(cfg, s.mem, c.at, [a]);
    DeliveredParts(cfg, s, c, m.value, io);
    Mailed(s.mails, Mail(c.day, SentOn(s.mem.day, s.mem.sent, c.day) + 1, m.value), c.day);
  }

  /** After a restart the cap is safe whatever happens next exactly when the state file counts every mail of the
      day; otherwise (a failed save) the mailer can be made to send more than MaxPerDay. */
  lemma RestartKeepsCap(cfg: Settings, s: System, c: Clock)
    requires CapKept(cfg, s.mem, s.mails, c.day) && Behind(s.disk, s.mails, c.day)
    ensures (forall es :: Ordered(c, es) && AllSaved(es) ==> Within(cfg, After(cfg, Step(cfg, s, Restart), es).mails))
       <==> SentOn(s.disk.day, s.disk.sent, c.day) == CountOn(s.mails, c.day)
  {
    var r := Step(cfg, s, Restart);
    if SentOn(s.disk.day, s.disk.sent, c.day) == CountOn(s.mails, c.day) {
      forall es | Ordered(c, es) && AllSaved(es)
        ensures Within(cfg, After(cfg, r, es).mails)
      {
        SavedRestartsCounted(cfg, r, c, es);
        CapEveryRun(cfg, r, c, es);
      }
    } else {
      assert CountOn(s.mails, c.day) <= Cap(cfg);
      var es := Flood(cfg, r, c, cfg.maxPerDay - SentOn(s.disk.day, s.disk.sent, c.day));
      assert CountOn(After(cfg, r, es).mails, c.day) > Cap(cfg);
    }
  }

  lemma AfterTwo(cfg: Settings, s: System, a: Event, b: Event, es: seq<Event>)
    ensures After(cfg, s, [a, b] + es) == After(cfg, Step(cfg, Step(cfg, s, a), b), es)
  {
    assert ([a, b] + es)[1..] == [b] + es && ([b] + es)[1..] == es;
  }

  lemma OrderedTwo(c: Clock, a: Event, b: Event, es: seq<Event>)
    requires Read(c, a) == c && Read(c, b) == c && Ordered(c, es)
    ensures Ordered(c, [a, b] + es)
  {
    assert ([a, b] + es)[1..] == [b] + es && ([b] + es)[1..] == es;
  }

  /** Such a state is reached: a page whose save fails, a restart, and a day's worth of pages. */
  lemma CapBroken(cfg: Settings, c: Clock) returns (es: seq<Event>)
    requires cfg.maxPerDay >= 1
    ensures Ordered(c, es) && CountOn(After(cfg, START, es).mails, c.day) == cfg.maxPerDay + 1
  {
    var e := Page(c, [Alert(false, "", "a", "", "", 0)], Io(true, false, true));
    LostPage(cfg, c, e.alerts[0]);
    var r := Step(cfg, Step(cfg, START, e), Restart);
    var rest := Flood(cfg, r, c, cfg.maxPerDay);
    AfterTwo(cfg, START, e, Restart, rest);
    OrderedTwo(c, e, Restart, rest);
    es := [e, Restart] + rest;
  }

  lemma LostPage(cfg: Settings, c: Clock, a: Alert)
    requires cfg.maxPerDay >= 1 && !a.resolved
    ensures var t := Step(cfg, START, Page(c, [a], Io(true, false, true)));
      t.disk == EMPTY && CountOn(t.mails, c.day) == 1
  {
    UnsavedPage(cfg, START, c, a, Io(true, false, true));
  }

  /** The first page of a day, with a save that fails: it is mailed, and the file does not know. */
  lemma UnsavedPage(cfg: Settings, s: System, c: Clock, a: Alert, io: Io)
    requires cfg.maxPerDay > SentOn(s.mem.day, s.mem.sent, c.day) && !a.resolved && io.sendOk && !io.save1
    requires s.mem.pageFiring == {}
    ensures var t := Step(cfg, s, Page(c, [a], io));
      t.disk == s.disk && CountOn(t.mails, c.day) == CountOn(s.mails, c.day) + 1
  {
    assert a in [a];
    assert (if a.slo != "" then a.slo else a.alertname) in FiringNames([a]);
    var e := PageLaw(cfg, s, c, [a], io);
    Mailed(s.mails, Mail(c.day, SentOn(s.mem.day, s.mem.sent, c.day) + 1, e.msg), c.day);
    UnsavedDisk(cfg, s, c, [a], io);
  }

  lemma UnsavedDisk(cfg: Settings, s: System, c: Clock, alerts: seq<Alert>, io: Io)
    requires !io.save1
    ensures Step(cfg, s, Page(c, alerts, io)).disk == s.disk
  {
  }

  // ---- One digest a day ----

  ghost predicate OncePerDay(mails: seq<Mail>) {
    forall d :: DigestsOn(mails, d) <= 1
  }

  /** No digest of day d can leave this state any more: it is noted, or the cap is reached. */
  predicate Spent(cfg: Settings, st: State, d: int) {
    st.lastDigest == Some(d) || SentOn(st.day, st.sent, d) >= cfg.maxPerDay
  }

  ghost predicate Settled(cfg: Settings, st: State, mails: seq<Mail>, d: int) {
    DigestsOn(mails, d) >= 1 ==> Spent(cfg, st, d)
  }

  ghost predicate Until(mails: seq<Mail>, d: int) {
    forall m :: m in mails ==> m.day <= d
  }

  lemma StepLast(cfg: Settings, s: System, e: Event)
    ensures var prev, last := s.mem.lastDigest, Step(cfg, s, e).mem.lastDigest;
      if e.Restart? then last == s.disk.lastDigest
      else if !e.Tick? then last == prev
      else
        && (last == prev || last == Some(e.c.day))
        && (DeliversDigest(cfg, s.mem, e.c, e.io) && e.io.save1 ==> last == Some(e.c.day))
  {
    match e
    case Page(c, alerts, io) =>
      var m := PageMessage(cfg, s.mem, c.at, alerts);
      if m.Some? {
        DeliveredParts(cfg, s, c, m.value, io);
      }
    case Ticket(alerts, _) => TicketsOnly(s.mem, alerts);
    case Tick(c, io) => DeliveredParts(cfg, s, c, DigestOf(s.mem), io);
    case Status(_) =>
    case Restart =>
  }

  /** Short of a restart the day's counter only grows, and a delivered digest is counted. */
  lemma StepSent(cfg: Settings, s: System, e: Event, d: int)
    requires !e.Restart? && (s.mem.day == Some(d) && !e.Ticket? ==> e.c.day == d)
    ensures var t := Step(cfg, s, e).mem;
      && SentOn(t.day, t.sent, d) >= SentOn(s.mem.day, s.mem.sent, d)
      && (e.Tick? && d == e.c.day && DeliversDigest(cfg, s.mem, e.c, e.io) ==>
            SentOn(t.day, t.sent, d) == SentOn(s.mem.day, s.mem.sent, d) + 1)
  {
    match e
    case Page(c, alerts, io) =>
      var m := PageMessage(cfg, s.mem, c.at, alerts);
      if m.Some? {
        DeliveredParts(cfg, s, c, m.value, io);
      }
    case Ticket(alerts, _) => TicketsOnly(s.mem, alerts);
    case Tick(c, io) => DeliveredParts(cfg, s, c, DigestOf(s.mem), io);
    case Status(_) =>
  }

  /** What one step must not do: deliver a digest it does not note, or restart from a file that lost one. */
  ghost predicate DigestKept(cfg: Settings, s: System, c: Clock, e: Event) {
    && (e.Tick? && DeliversDigest(cfg, s.mem, e.c, e.io) ==>
          e.io.save1 || SentOn(s.mem.day, s.mem.sent, e.c.day) + 1 >= cfg.maxPerDay)
    && (e.Restart? ==> Settled(cfg, s.disk, s.mails, c.day))
  }

  ghost predicate DigestsKept(cfg: Settings, s: System, c: Clock, es: seq<Event>)
    decreases |es|
  {
    es == [] ||
    (DigestKept(cfg, s, c, es[0]) && DigestsKept(cfg, Step(cfg, s, es[0]), Read(c, es[0]), es[1..]))
  }

  lemma SettledLater(cfg: Settings, st: State, mails: seq<Mail>, d: int, e: int)
    requires Settled(cfg, st, mails, d) && Until(mails, d) && d <= e
    ensures Settled(cfg, st, mails, e)
  {
    if d < e {
      NoneOn(mails, e);
    }
  }

  lemma StepUntil(cfg: Settings, s: System, e: Event, d: int)
    requires Until(s.mails, d) && (e.Page? || e.Tick? ==> e.c.day <= d)
    ensures Until(Step(cfg, s, e).mails, d)
  {
    match e
    case Page(c, alerts, io) =>
      var m := PageMessage(cfg, s.mem, c.at, alerts);
      if m.Some? {
        DeliveredParts(cfg, s, c, m.value, io);
      }
    case Ticket(_, _) =>
    case Tick(c, io) => DeliveredParts(cfg, s, c, DigestOf(s.mem), io);
    case Status(_) =>
    case Restart =>
  }

  lemma StepOnce(cfg: Settings, s: System, c: Clock, e: Event)
    requires OncePerDay(s.mails) && Until(s.mails, c.day) && Settled(cfg, s.mem, s.mails, c.day)
    requires c.day <= Read(c, e).day
    ensures OncePerDay(Step(cfg, s, e).mails) && Until(Step(cfg, s, e).mails, Read(c, e).day)
  {
    SettledLater(cfg, s.mem, s.mails, c.day, Read(c, e).day);
    StepUntil(cfg, s, e, Read(c, e).day);
    forall d
      ensures DigestsOn(Step(cfg, s, e).mails, d) <= 1
    {
      StepMails(cfg, s, e, d);
    }
  }

  lemma StepSettled(cfg: Settings, s: System, c: Clock, e: Event)
    requires Until(s.mails, c.day) && Settled(cfg, s.mem, s.mails, c.day) && c.day <= Read(c, e).day
    requires DigestKept(cfg, s, c, e)
    ensures Settled(cfg, Step(cfg, s, e).mem, Step(cfg, s, e).mails, Read(c, e).day)
  {
    var d := Read(c, e).day;
    SettledLater(cfg, s.mem, s.mails, c.day, d);
    StepMails(cfg, s, e, d);
    StepLast(cfg, s, e);
    if !e.Restart? {
      StepSent(cfg, s, e, d);
    }
  }

  /** At most one digest a day in every run, whatever sends and saves fail, as long as no delivered digest goes
      unnoted while there is room for another and no restart loses one. */
  lemma {:induction false} DigestEveryRun(cfg: Settings, s: System, c: Clock, es: seq<Event>)
    requires OncePerDay(s.mails) && Until(s.mails, c.day) && Settled(cfg, s.mem, s.mails, c.day)
    requires Ordered(c, es) && DigestsKept(cfg, s, c, es)
    ensures OncePerDay(After(cfg, s, es).mails)
    decreases |es|
  {
    if es != [] {
      StepOnce(cfg, s, c, es[0]);
      StepSettled(cfg, s, c, es[0]);
      DigestEveryRun(cfg, Step(cfg, s, es[0]), Read(c, es[0]), es[1..]);
    }
  }

  lemma {:induction false} SavedDigestsKept(cfg: Settings, s: System, c: Clock, es: seq<Event>)
    requires Until(s.mails, c.day) && Ordered(c, es) && AllSaved(es)
    requires Settled(cfg, s.mem, s.mails, c.day) && Settled(cfg, s.disk, s.mails, c.day)
    ensures DigestsKept(cfg, s, c, es)
    decreases |es|
  {
    if es != [] {
      var e, d := es[0], Read(c, es[0]).day;
      StepUntil(cfg, s, e, d);
      StepSettled(cfg, s, c, e);
      StepDisk(cfg, s, e);
      SettledLater(cfg, s.disk, s.mails, c.day, d);
      SavedDigestsKept(cfg, Step(cfg, s, e), Read(c, e), es[1..]);
    }
  }

  /** Every run from an empty state directory in which no restart loses a count or a digest and every delivered
      digest is noted, whatever else fails: on each local day at most MaxPerDay mails, numbered from one, and at
      most one delivered digest. */
  lemma DailyLimits(cfg: Settings, c: Clock, es: seq<Event>)
    requires Ordered(c, es) && RestartsCounted(cfg, START, c, es) && DigestsKept(cfg, START, c, es)
    ensures var mails := After(cfg, START, es).mails; Within(cfg, mails) && Numbered(mails) && OncePerDay(mails)
  {
    CapEveryRun(cfg, START, c, es);
    DigestEveryRun(cfg, START, c, es);
  }

  /** In particular every run whose saves succeed, restarts and failed sends included. */
  lemma SavedDailyLimits(cfg: Settings, c: Clock, es: seq<Event>)
    requires Ordered(c, es) && AllSaved(es)
    ensures var mails := After(cfg, START, es).mails; Within(cfg, mails) && Numbered(mails) && OncePerDay(mails)
  {
    SavedRestartsCounted(cfg, START, c, es);
    SavedDigestsKept(cfg, START, c, es);
    DailyLimits(cfg, c, es);
  }

  // ---- When a delivered digest stays the only one ----

  /** The file holds everything but a day that rolled over since. */
  predicate Agree(disk: State, mem: State) {
    disk.(day := mem.day, sent := mem.sent, held := mem.held) == mem
  }

  const GOOD := Io(true, true, true)

  /** The tick that delivers a digest, as both states see it. */
  lemma DigestTick(cfg: Settings, s: System, c: Clock, io: Io)
    requires DeliversDigest(cfg, s.mem, c, io)
    ensures var t, sent := Ticked(cfg, s, c, io), SentOn(s.mem.day, s.mem.sent, c.day);
      && t.mem.day == Some(c.day) && t.mem.sent == sent + 1
      && t.mem.lastDigest == (if io.save1 then Some(c.day) else s.mem.lastDigest)
      && (!io.save1 ==> News(t.mem) && t.disk == s.disk)
      && (io.save1 && io.save2 ==> t.disk == t.mem)
      && (io.save1 && !io.save2 ==>
            && t.disk.day == Some(c.day) && t.disk.sent == sent + 1
            && t.disk.lastDigest == s.mem.lastDigest && News(t.disk))
  {
    DeliveredParts(cfg, s, c, DigestOf(s.mem), io);
  }

  /** Without a restart: an unnoted digest is delivered again while there is room. */
  lemma DigestRepeats(cfg: Settings, s: System, c: Clock, io: Io)
    requires DeliversDigest(cfg, s.mem, c, io)
    requires !io.save1 && SentOn(s.mem.day, s.mem.sent, c.day) + 1 < cfg.maxPerDay
    ensures DigestsOn(After(cfg, Ticked(cfg, s, c, io), [Tick(c, GOOD)]).mails, c.day) == DigestsOn(s.mails, c.day) + 2
  {
    var t := Ticked(cfg, s, c, io);
    DigestTick(cfg, s, c, io);
    TickMails(cfg, s, c, io, c.day);
    TickMails(cfg, t, c, GOOD, c.day);
    assert After(cfg, t, [Tick(c, GOOD)]) == Ticked(cfg, t, c, GOOD);
  }

  function Reboot(c: Clock): seq<Event> {
    [Restart, Tick(c, GOOD)]
  }

  lemma FileDelivers(cfg: Settings, s: System, c: Clock, io: Io)
    requires DeliversDigest(cfg, s.mem, c, io) && Agree(s.disk, s.mem)
    requires SentOn(s.disk.day, s.disk.sent, c.day) <= SentOn(s.mem.day, s.mem.sent, c.day)
    requires !io.save1 || (!io.save2 && SentOn(s.mem.day, s.mem.sent, c.day) + 1 < cfg.maxPerDay)
    ensures DeliversDigest(cfg, Ticked(cfg, s, c, io).disk, c, GOOD)
  {
    DigestTick(cfg, s, c, io);
  }

  lemma RebootTicks(cfg: Settings, t: System, c: Clock)
    ensures Ordered(c, Reboot(c)) && AllSaved(Reboot(c))
    ensures DigestsOn(After(cfg, t, Reboot(c)).mails, c.day)
         == DigestsOn(t.mails, c.day) + if DeliversDigest(cfg, t.disk, c, GOOD) then 1 else 0
  {
    assert Reboot(c)[1..] == [Tick(c, GOOD)] && Reboot(c) == [Restart, Tick(c, GOOD)] + [];
    AfterTwo(cfg, t, Restart, Tick(c, GOOD), []);
    TickMails(cfg, Step(cfg, t, Restart), c, GOOD, c.day);
  }

  /** With a restart: a digest the file does not note is delivered again while the file leaves room. */
  lemma DigestRepeatsAfterRestart(cfg: Settings, s: System, c: Clock, io: Io)
    requires DeliversDigest(cfg, s.mem, c, io) && Agree(s.disk, s.mem)
    requires SentOn(s.disk.day, s.disk.sent, c.day) <= SentOn(s.mem.day, s.mem.sent, c.day)
    requires !io.save1 || (!io.save2 && SentOn(s.mem.day, s.mem.sent, c.day) + 1 < cfg.maxPerDay)
    ensures DigestsOn(After(cfg, Ticked(cfg, s, c, io), Reboot(c)).mails, c.day) == DigestsOn(s.mails, c.day) + 2
  {
    FileDelivers(cfg, s, c, io);
    TickMails(cfg, s, c, io, c.day);
    RebootTicks(cfg, Ticked(cfg, s, c, io), c);
  }

  lemma DigestStaysOnce(cfg: Settings, s: System, c: Clock, io: Io, es: seq<Event>)
    requires OncePerDay(s.mails) && Until(s.mails, c.day) && Settled(cfg, s.mem, s.mails, c.day)
    requires DeliversDigest(cfg, s.mem, c, io) && Ordered(c, es)
    requires io.save1 || SentOn(s.mem.day, s.mem.sent, c.day) + 1 >= cfg.maxPerDay
    requires DigestsKept(cfg, Ticked(cfg, s, c, io), c, es)
    ensures OncePerDay(After(cfg, Ticked(cfg, s, c, io), es).mails)
  {
    var e := Tick(c, io);
    StepOnce(cfg, s, c, e);
    StepSettled(cfg, s, c, e);
    DigestEveryRun(cfg, Ticked(cfg, s, c, io), c, es);
  }

  predicate NoRestart(es: seq<Event>) {
    forall e :: e in es ==> !e.Restart?
  }

  lemma {:induction false} NoRestartKeeps(cfg: Settings, s: System, c: Clock, es: seq<Event>)
    requires AllSaved(es) && NoRestart(es)
    ensures DigestsKept(cfg, s, c, es)
    decreases |es|
  {
    if es != [] {
      assert es[0] in es && Saves(es[0]) && !es[0].Restart?;
      assert DigestKept(cfg, s, c, es[0]);
      NoRestartKeeps(cfg, Step(cfg, s, es[0]), Read(c, es[0]), es[1..]);
    }
  }

  /** As long as the mailer stays up, a delivered digest is the day's only one, whatever happens next, exactly when
      its first save succeeded or it was the last mail the cap allowed. */
  lemma DigestOnceWhileUp(cfg: Settings, s: System, c: Clock, io: Io)
    requires OncePerDay(s.mails) && Until(s.mails, c.day) && Settled(cfg, s.mem, s.mails, c.day)
    requires DeliversDigest(cfg, s.mem, c, io)
    ensures (forall es :: Ordered(c, es) && AllSaved(es) && NoRestart(es) ==>
                            OncePerDay(After(cfg, Ticked(cfg, s, c, io), es).mails))
       <==> io.save1 || SentOn(s.mem.day, s.mem.sent, c.day) + 1 >= cfg.maxPerDay
  {
    if io.save1 || SentOn(s.mem.day, s.mem.sent, c.day) + 1 >= cfg.maxPerDay {
      forall es | Ordered(c, es) && AllSaved(es) && NoRestart(es)
        ensures OncePerDay(After(cfg, Ticked(cfg, s, c, io), es).mails)
      {
        NoRestartKeeps(cfg, Ticked(cfg, s, c, io), c, es);
        DigestStaysOnce(cfg, s, c, io, es);
      }
    } else {
      DigestRepeats(cfg, s, c, io);
      assert Ordered(c, [Tick(c, GOOD)]) && AllSaved([Tick(c, GOOD)]) && NoRestart([Tick(c, GOOD)]);
    }
  }

  /** With restarts allowed, exactly when the first save succeeded and the second did too or would have made no
      difference because the cap was reached. */
  lemma DigestOnce(cfg: Settings, s: System, c: Clock, io: Io)
    requires CapKept(cfg, s.mem, s.mails, c.day) && Behind(s.disk, s.mails, c.day) && Agree(s.disk, s.mem)
    requires OncePerDay(s.mails) && Settled(cfg, s.mem, s.mails, c.day) && DeliversDigest(cfg, s.mem, c, io)
    ensures (forall es :: Ordered(c, es) && AllSaved(es) ==> OncePerDay(After(cfg, Ticked(cfg, s, c, io), es).mails))
       <==> io.save1 && (io.save2 || SentOn(s.mem.day, s.mem.sent, c.day) + 1 >= cfg.maxPerDay)
  {
    if io.save1 && (io.save2 || SentOn(s.mem.day, s.mem.sent, c.day) + 1 >= cfg.maxPerDay) {
      forall es | Ordered(c, es) && AllSaved(es)
        ensures OncePerDay(After(cfg, Ticked(cfg, s, c, io), es).mails)
      {
        FileSettled(cfg, s, c, io);
        SavedDigestsKept(cfg, Ticked(cfg, s, c, io), c, es);
        DigestStaysOnce(cfg, s, c, io, es);
      }
    } else {
      DigestRepeatsAfterRestart(cfg, s, c, io);
      RebootTicks(cfg, Ticked(cfg, s, c, io), c);
    }
  }

  lemma FileSettled(cfg: Settings, s: System, c: Clock, io: Io)
    requires Until(s.mails, c.day) && Settled(cfg, s.mem, s.mails, c.day) && DeliversDigest(cfg, s.mem, c, io)
    requires io.save1 && (io.save2 || SentOn(s.mem.day, s.mem.sent, c.day) + 1 >= cfg.maxPerDay)
    ensures var t := Ticked(cfg, s, c, io);
      Until(t.mails, c.day) && Settled(cfg, t.mem, t.mails, c.day) && Settled(cfg, t.disk, t.mails, c.day)
  {
    DigestTick(cfg, s, c, io);
    StepUntil(cfg, s, Tick(c, io), c.day);
  }

  /** Such a digest is reached: a ticket, a digest whose first save fails, and the next tick, after a restart or,
      with room for it, without one. */
  lemma DigestTwice(cfg: Settings, c: Clock, a: Alert)
    requires c.minute >= cfg.digestAt && !a.resolved && cfg.maxPerDay >= 1
    ensures var open := [Ticket([a], GOOD), Tick(c, Io(true, false, true))];
      && DigestsOn(After(cfg, START, open + Reboot(c)).mails, c.day) == 2
      && (cfg.maxPerDay >= 2 ==> DigestsOn(After(cfg, START, open + [Tick(c, GOOD)]).mails, c.day) == 2)
  {
    var lost := Io(true, false, true);
    var s := Step(cfg, START, Ticket([a], GOOD));
    assert TicketedAll(EMPTY, [a]) == Ticketed1(EMPTY, a) by {
      assert [a][..0] == [] && TicketedAll(EMPTY, []) == EMPTY;
    }
    assert Key(a) in s.mem.tickets;
    AfterTwo(cfg, START, Ticket([a], GOOD), Tick(c, lost), Reboot(c));
    AfterTwo(cfg, START, Ticket([a], GOOD), Tick(c, lost), [Tick(c, GOOD)]);
    DigestRepeatsAfterRestart(cfg, s, c, lost);
    if cfg.maxPerDay >= 2 {
      DigestRepeats(cfg, s, c, lost);
    }
  }

  // ---- Nothing is lost or told twice ----

  function CappedIn(log: seq<Entry>): nat {
    if log == [] then 0 else CappedIn(log[..|log| - 1]) + if log[|log| - 1].outcome == Capped then 1 else 0
  }

  /** The held counts that delivered digests reported. */
  function HeldTold(mails: seq<Mail>): nat {
    if mails == [] then 0
    else
      var msg := mails[|mails| - 1].msg;
      HeldTold(mails[..|mails| - 1]) + if msg.Digest? then msg.held else 0
  }

  /** The resolutions that delivered digests listed. */
  function ClearedTold(mails: seq<Mail>): seq<Resolution> {
    if mails == [] then []
    else
      var msg := mails[|mails| - 1].msg;
      ClearedTold(mails[..|mails| - 1]) + if msg.Digest? then msg.cleared else []
  }

  function PageCount(mails: seq<Mail>): nat {
    if mails == [] then 0 else PageCount(mails[..|mails| - 1]) + if mails[|mails| - 1].msg.Notice? then 1 else 0
  }

  lemma MailedSums(mails: seq<Mail>, m: Mail)
    ensures HeldTold(mails + [m]) == HeldTold(mails) + if m.msg.Digest? then m.msg.held else 0
    ensures ClearedTold(mails + [m]) == ClearedTold(mails) + if m.msg.Digest? then m.msg.cleared else []
    ensures PageCount(mails + [m]) == PageCount(mails) + if m.msg.Notice? then 1 else 0
  {
    assert (mails + [m])[..|mails|] == mails;
  }

  lemma Logged(log: seq<Entry>, e: Entry)
    ensures CappedIn(log + [e]) == CappedIn(log) + if e.outcome == Capped then 1 else 0
    ensures Last(Last(log, OUTBOX_KEEP) + [e], OUTBOX_KEEP) == Last(log + [e], OUTBOX_KEEP)
  {
    assert (log + [e])[..|log|] == log;
  }

  // The open tickets and the resolutions, told from the alerts alone.

  function LastFor(alerts: seq<Alert>, k: string): Option<Alert> {
    if alerts == [] then None
    else if Key(alerts[|alerts| - 1]) == k then Some(alerts[|alerts| - 1])
    else LastFor(alerts[..|alerts| - 1], k)
  }

  predicate IsOpen(alerts: seq<Alert>, k: string) {
    LastFor(alerts, k).Some? && !LastFor(alerts, k).value.resolved
  }

  /** The resolved alerts that came while their ticket was open. */
  function Resolutions(alerts: seq<Alert>): seq<Resolution> {
    if alerts == [] then []
    else
      var front, a := alerts[..|alerts| - 1], alerts[|alerts| - 1];
      Resolutions(front)
      + if a.resolved && IsOpen(front, Key(a)) then
          [Resolution(if a.slo != "" then a.slo else a.alertname, a.tier, a.startsAt)]
        else []
  }

  ghost predicate TicketsTrue(tickets: map<string, Alert>, alerts: seq<Alert>) {
    forall k :: (k in tickets <==> IsOpen(alerts, k)) && (k in tickets ==> LastFor(alerts, k) == Some(tickets[k]))
  }

  lemma OneTicket(st: State, told: seq<Resolution>, alerts: seq<Alert>, a: Alert)
    requires TicketsTrue(st.tickets, alerts) && told + st.resolved == Resolutions(alerts)
    ensures var t := Ticketed1(st, a);
      TicketsTrue(t.tickets, alerts + [a]) && told + t.resolved == Resolutions(alerts + [a])
  {
    var t := Ticketed1(st, a);
    assert (alerts + [a])[..|alerts|] == alerts;
    forall k
      ensures k in t.tickets <==> IsOpen(alerts + [a], k)
      ensures k in t.tickets ==> LastFor(alerts + [a], k) == Some(t.tickets[k])
    {
      assert k in st.tickets <==> IsOpen(alerts, k);
      assert LastFor(alerts + [a], k) == if Key(a) == k then Some(a) else LastFor(alerts, k);
    }
    assert Key(a) in st.tickets <==> IsOpen(alerts, Key(a));
  }

  lemma {:induction false} AllTickets(st: State, told: seq<Resolution>, seen: seq<Alert>, alerts: seq<Alert>)
    requires TicketsTrue(st.tickets, seen) && told + st.resolved == Resolutions(seen)
    ensures var t := TicketedAll(st, alerts);
      TicketsTrue(t.tickets, seen + alerts) && told + t.resolved == Resolutions(seen + alerts)
  {
    if alerts == [] {
      assert seen + alerts == seen;
    } else {
      var front, a := alerts[..|alerts| - 1], alerts[|alerts| - 1];
      AllTickets(st, told, seen, front);
      OneTicket(TicketedAll(st, front), told, seen + front, a);
      assert seen + front + [a] == seen + alerts;
    }
  }

  /** Every capped mail is reported or pending, every resolution told once or pending, in order; tickets are open
      as their last alert says; the outbox is the tail of the log; the file has all of it. */
  ghost predicate Conserved(s: System, alerts: seq<Alert>) {
    && CappedIn(s.log) == HeldTold(s.mails) + s.mem.heldSinceDigest
    && ClearedTold(s.mails) + s.mem.resolved == Resolutions(alerts)
    && TicketsTrue(s.mem.tickets, alerts)
    && s.mem.outbox == Last(s.log, OUTBOX_KEEP)
    && Agree(s.disk, s.mem)
  }

  // The three sums, each on the sequences it is about.

  lemma HeldKept(log: seq<Entry>, mails: seq<Mail>, held: nat, entry: Entry, m: Mail, went: bool)
    requires CappedIn(log) == HeldTold(mails) + held
    requires !m.msg.Digest? || (went && m.msg.held == held && entry.outcome != Capped) || !went
    ensures CappedIn(log + [entry]) == HeldTold(if went then mails + [m] else mails)
         + (if went && m.msg.Digest? then 0 else held) + if entry.outcome == Capped then 1 else 0
  {
    Logged(log, entry);
    MailedSums(mails, m);
  }

  lemma ClearedKept(mails: seq<Mail>, resolved: seq<Resolution>, m: Mail, went: bool)
    requires m.msg.Digest? ==> m.msg.cleared == resolved
    ensures ClearedTold(if went then mails + [m] else mails) + (if went && m.msg.Digest? then [] else resolved)
         == ClearedTold(mails) + resolved
  {
    MailedSums(mails, m);
  }

  /** A message went out, or was capped or failed.  A digest that went takes its news along; nothing else does. */
  lemma MessageConserves(s: System, t: System, entry: Entry, m: Mail, went: bool, seen: seq<Alert>)
    requires Conserved(s, seen) && t.disk == t.mem && t.log == s.log + [entry] && (went ==> entry.outcome != Capped)
    requires t.mails == if went then s.mails + [m] else s.mails
    requires m.msg.Digest? ==> m.msg == DigestOf(s.mem)
    requires t.mem.tickets == s.mem.tickets && t.mem.outbox == Last(s.mem.outbox + [entry], OUTBOX_KEEP)
    requires t.mem.resolved == if went && m.msg.Digest? then [] else s.mem.resolved
    requires t.mem.heldSinceDigest
          == (if went && m.msg.Digest? then 0 else s.mem.heldSinceDigest) + if entry.outcome == Capped then 1 else 0
    ensures Conserved(t, seen)
  {
    HeldKept(s.log, s.mails, s.mem.heldSinceDigest, entry, m, went);
    ClearedKept(s.mails, s.mem.resolved, m, went);
    Logged(s.log, entry);
  }

  lemma PassedConserves(s: System, c: Clock, firing: seq<Alert>, io: Io, seen: seq<Alert>)
    requires Conserved(s, seen) && io.save1
    ensures Conserved(Passed(s, c, firing, io), seen)
  {
    var msg := Notice(Burning(exists a :: a in firing && a.slo != ""), Names(firing), [], []);
    MessageConserves(s, Passed(s, c, firing, io), Entry(c.at, c.day, Unchanged, msg), Mail(c.day, 0, msg), false, seen);
  }

  lemma AnnouncedParts(cfg: Settings, s: System, c: Clock, msg: Message, names: set<string>, io: Io)
    requires io.save1 && io.save2
    ensures var t, sent := Announced(cfg, s, c, msg, names, io), SentOn(s.mem.day, s.mem.sent, c.day);
      var outcome := Judged(cfg, sent, io);
      && t.mails == (if Went(outcome) then s.mails + [Mail(c.day, sent + 1, msg)] else s.mails)
      && t.log == s.log + [Entry(c.at, c.day, outcome, msg)] && t.disk == t.mem
      && t.mem.tickets == s.mem.tickets && t.mem.resolved == s.mem.resolved
      && t.mem.heldSinceDigest == s.mem.heldSinceDigest + (if outcome == Capped then 1 else 0)
      && t.mem.outbox == Last(s.mem.outbox + [Entry(c.at, c.day, outcome, msg)], OUTBOX_KEEP)
      && (Went(outcome) ==> t.mem.pageFiring == names && t.mem.pageMailedAt == c.at)
  {
    DeliveredParts(cfg, s, c, msg, io);
  }

  lemma AnnouncedConserves(cfg: Settings, s: System, c: Clock, msg: Message, names: set<string>, io: Io,
                           seen: seq<Alert>)
    requires Conserved(s, seen) && io.save1 && io.save2 && msg.Notice?
    ensures Conserved(Announced(cfg, s, c, msg, names, io), seen)
  {
    AnnouncedParts(cfg, s, c, msg, names, io);
    var sent := SentOn(s.mem.day, s.mem.sent, c.day);
    var outcome := Judged(cfg, sent, io);
    MessageConserves(s, Announced(cfg, s, c, msg, names, io), Entry(c.at, c.day, outcome, msg),
                    Mail(c.day, sent + 1, msg), Went(outcome), seen);
  }

  lemma PagedConserves(cfg: Settings, s: System, c: Clock, alerts: seq<Alert>, io: Io, seen: seq<Alert>)
    requires Conserved(s, seen) && io.save1 && io.save2
    ensures Conserved(Paged(cfg, s, c, alerts, io), seen)
  {
    var m, firing := PageMessage(cfg, s.mem, c.at, alerts), Select(alerts, false);
    if m.Some? {
      AnnouncedConserves(cfg, s, c, m.value, Names(firing), io, seen);
    } else {
      PassedConserves(s, c, firing, io, seen);
    }
  }

  lemma DigestedParts(cfg: Settings, s: System, c: Clock, io: Io)
    requires io.save1 && io.save2
    ensures var t, msg := Digested(cfg, s, c, io), DigestOf(s.mem);
      var sent := SentOn(s.mem.day, s.mem.sent, c.day);
      var outcome := Judged(cfg, sent, io);
      && t.disk == t.mem && t.log == s.log + [Entry(c.at, c.day, outcome, msg)] && t.mem.tickets == s.mem.tickets
      && t.mem.outbox == Last(s.mem.outbox + [Entry(c.at, c.day, outcome, msg)], OUTBOX_KEEP)
      && if Went(outcome) then
           && t.mails == s.mails + [Mail(c.day, sent + 1, msg)]
           && t.mem.resolved == [] && t.mem.heldSinceDigest == 0
         else t.mails == s.mails && t.mem.resolved == s.mem.resolved
              && t.mem.heldSinceDigest == s.mem.heldSinceDigest + if outcome == Capped then 1 else 0
  {
    DeliveredParts(cfg, s, c, DigestOf(s.mem), io);
  }

  lemma QuietConserves(s: System, c: Clock, io: Io, seen: seq<Alert>)
    requires Conserved(s, seen) && io.save1
    ensures Conserved(Saved(s.(mem := s.mem.(lastDigest := Some(c.day))), io.save1), seen)
  {
  }

  lemma DigestConserves(s: System, t: System, entry: Entry, m: Mail, went: bool, seen: seq<Alert>)
    requires Conserved(s, seen) && m.msg == DigestOf(s.mem) && t.disk == t.mem && t.log == s.log + [entry]
    requires t.mem.tickets == s.mem.tickets && t.mem.outbox == Last(s.mem.outbox + [entry], OUTBOX_KEEP)
    requires went ==>
      && entry.outcome != Capped && t.mails == s.mails + [m]
      && t.mem.resolved == [] && t.mem.heldSinceDigest == 0
    requires !went ==>
      && t.mails == s.mails && t.mem.resolved == s.mem.resolved
      && t.mem.heldSinceDigest == s.mem.heldSinceDigest + if entry.outcome == Capped then 1 else 0
    ensures Conserved(t, seen)
  {
    MessageConserves(s, t, entry, m, went, seen);
  }

  lemma DigestedConserves(cfg: Settings, s: System, c: Clock, io: Io, seen: seq<Alert>)
    requires Conserved(s, seen) && io.save1 && io.save2
    ensures Conserved(Digested(cfg, s, c, io), seen)
  {
    var sent := SentOn(s.mem.day, s.mem.sent, c.day);
    var outcome := Judged(cfg, sent, io);
    DigestedParts(cfg, s, c, io);
    DigestConserves(s, Digested(cfg, s, c, io), Entry(c.at, c.day, outcome, DigestOf(s.mem)),
                    Mail(c.day, sent + 1, DigestOf(s.mem)), Went(outcome), seen);
  }

  lemma TickedConserves(cfg: Settings, s: System, c: Clock, io: Io, seen: seq<Alert>)
    requires Conserved(s, seen) && io.save1 && io.save2
    ensures Conserved(Ticked(cfg, s, c, io), seen)
  {
    DigestedConserves(cfg, s, c, io, seen);
    QuietConserves(s, c, io, seen);
  }

  function TicketAlerts(es: seq<Event>): seq<Alert> {
    if es == [] then [] else (if es[0].Ticket? then es[0].alerts else []) + TicketAlerts(es[1..])
  }

  lemma StepConserves(cfg: Settings, s: System, e: Event, seen: seq<Alert>)
    requires Conserved(s, seen) && Saves(e)
    ensures Conserved(Step(cfg, s, e), if e.Ticket? then seen + e.alerts else seen)
  {
    match e
    case Page(c, alerts, io) => PagedConserves(cfg, s, c, alerts, io, seen);
    case Ticket(alerts, io) =>
      TicketsOnly(s.mem, alerts);
      AllTickets(s.mem, ClearedTold(s.mails), seen, alerts);
    case Tick(c, io) => TickedConserves(cfg, s, c, io, seen);
    case Status(_) =>
    case Restart =>
  }

  lemma SeenNext(seen: seq<Alert>, es: seq<Event>)
    requires es != []
    ensures (if es[0].Ticket? then seen + es[0].alerts else seen) + TicketAlerts(es[1..]) == seen + TicketAlerts(es)
  {
    var first, rest := if es[0].Ticket? then es[0].alerts else [], TicketAlerts(es[1..]);
    assert TicketAlerts(es) == first + rest && seen + first + rest == seen + (first + rest);
    assert !es[0].Ticket? ==> seen + first == seen;
  }

  lemma {:induction false} ConservedRun(cfg: Settings, s: System, seen: seq<Alert>, es: seq<Event>)
    requires Conserved(s, seen) && AllSaved(es)
    ensures Conserved(After(cfg, s, es), seen + TicketAlerts(es))
    decreases |es|
  {
    if es == [] {
      assert seen + TicketAlerts(es) == seen;
    } else {
      var seen' := if es[0].Ticket? then seen + es[0].alerts else seen;
      StepConserves(cfg, s, es[0], seen);
      ConservedRun(cfg, Step(cfg, s, es[0]), seen', es[1..]);
      SeenNext(seen, es);
    }
  }

  lemma NothingLost(cfg: Settings, es: seq<Event>)
    requires AllSaved(es)
    ensures Conserved(After(cfg, START, es), TicketAlerts(es))
  {
    ConservedRun(cfg, START, [], es);
    assert [] + TicketAlerts(es) == TicketAlerts(es);
  }

  // ---- One incident: two mails ----

  /** The mail of this step, if any, was neither capped nor failed. */
  predicate Smooth(cfg: Settings, s: System, e: Event) {
    var log := Step(cfg, s, e).log;
    e.Page? && |log| > |s.log| ==> log[|log| - 1].outcome !in {Capped, Failed}
  }

  predicate SmoothRun(cfg: Settings, s: System, es: seq<Event>)
    decreases |es|
  {
    es == [] || (Smooth(cfg, s, es[0]) && SmoothRun(cfg, Step(cfg, s, es[0]), es[1..]))
  }

  lemma PageStep(cfg: Settings, s: System, e: Event)
    requires e.Page? && Saves(e) && Smooth(cfg, s, e) && !Idle(s.mem, e.alerts) && Agree(s.disk, s.mem)
    ensures var t, firing := Step(cfg, s, e), Select(e.alerts, false);
      var mailed := PageSubject(cfg, s.mem, e.c.at, firing).Some?;
      && t.mem.pageFiring == Names(firing) && Agree(t.disk, t.mem)
      && t.mem.pageMailedAt == (if mailed then e.c.at else s.mem.pageMailedAt)
      && PageCount(t.mails) == PageCount(s.mails) + (if mailed then 1 else 0)
  {
    StepDisk(cfg, s, e);
    var m := PageMessage(cfg, s.mem, e.c.at, e.alerts);
    if m.Some? {
      DeliveredParts(cfg, s, e.c, m.value, e.io);
      MailedSums(s.mails, Mail(e.c.day, SentOn(s.mem.day, s.mem.sent, e.c.day) + 1, m.value));
    }
  }

  lemma OtherStep(cfg: Settings, s: System, e: Event)
    requires !e.Page? && Saves(e) && Agree(s.disk, s.mem)
    ensures var t := Step(cfg, s, e);
      && t.mem.pageFiring == s.mem.pageFiring && t.mem.pageMailedAt == s.mem.pageMailedAt
      && Agree(t.disk, t.mem) && PageCount(t.mails) == PageCount(s.mails)
  {
    StepDisk(cfg, s, e);
    match e
    case Ticket(alerts, _) => TicketsOnly(s.mem, alerts);
    case Tick(c, io) =>
      DeliveredParts(cfg, s, c, DigestOf(s.mem), io);
      MailedSums(s.mails, Mail(c.day, SentOn(s.mem.day, s.mem.sent, c.day) + 1, DigestOf(s.mem)));
    case Status(_) =>
    case Restart =>
  }

  // The pages alone: what the last page mail said, when, and how many there were.

  datatype Pager = Pager(firing: set<string>, mailedAt: int, mails: nat)

  function Paging(reminder: int, p: Pager, e: Event): Pager {
    if !e.Page? then p
    else
      var firing := Select(e.alerts, false);
      var names := Names(firing);
      if firing == [] && (Select(e.alerts, true) == [] || p.firing == {}) then p
      else if firing == [] || !(names <= p.firing) || e.c.at - p.mailedAt >= reminder then
        Pager(names, e.c.at, p.mails + 1)
      else Pager(names, p.mailedAt, p.mails)
  }

  function PagingAll(reminder: int, p: Pager, es: seq<Event>): Pager
    decreases |es|
  {
    if es == [] then p else PagingAll(reminder, Paging(reminder, p, es[0]), es[1..])
  }

  function PagerOf(s: System): Pager {
    Pager(s.mem.pageFiring, s.mem.pageMailedAt, PageCount(s.mails))
  }

  lemma StepPages(cfg: Settings, s: System, e: Event)
    requires Saves(e) && Smooth(cfg, s, e) && Agree(s.disk, s.mem)
    ensures var t := Step(cfg, s, e); PagerOf(t) == Paging(cfg.reminder, PagerOf(s), e) && Agree(t.disk, t.mem)
  {
    if !e.Page? {
      OtherStep(cfg, s, e);
    } else if !Idle(s.mem, e.alerts) {
      PageStep(cfg, s, e);
    }
  }

  /** With good saves and no capped or failed page, digests, tickets, restarts and the cap make no difference to
      the pages. */
  lemma {:induction false} PagesAlone(cfg: Settings, s: System, es: seq<Event>)
    requires AllSaved(es) && SmoothRun(cfg, s, es) && Agree(s.disk, s.mem)
    ensures PagerOf(After(cfg, s, es)) == PagingAll(cfg.reminder, PagerOf(s), es)
    decreases |es|
  {
    if es != [] {
      StepPages(cfg, s, es[0]);
      PagesAlone(cfg, Step(cfg, s, es[0]), es[1..]);
    }
  }

  predicate Burn(e: Event) {
    e.Page? ==> Select(e.alerts, false) != []
  }

  /** Pages, if any, report something burning. */
  predicate Burns(es: seq<Event>) {
    forall e :: e in es ==> Burn(e)
  }

  function FiringAfter(prev: set<string>, e: Event): set<string> {
    if e.Page? then Names(Select(e.alerts, false)) else prev
  }

  /** How often the firing set gained a name over the notification before. */
  function Gains(prev: set<string>, es: seq<Event>): nat
    decreases |es|
  {
    if es == [] then 0
    else
      var next := FiringAfter(prev, es[0]);
      (if next <= prev then 0 else 1) + Gains(next, es[1..])
  }

  /** n spans of length d. */
  function Spans(n: nat, d: int): int {
    if n == 0 then 0 else Spans(n - 1, d) + d
  }

  lemma {:induction false} SpansLast(n: nat, d: int)
    ensures Spans(n, d) == n * d
  {
    if n > 0 {
      SpansLast(n - 1, d);
    }
  }

  lemma BurnStep(reminder: int, p: Pager, c: Clock, e: Event) returns (r: nat)
    requires Burn(e) && c.at <= Read(c, e).at && p.firing != {} && p.mailedAt <= c.at
    ensures var q, next := Paging(reminder, p, e), FiringAfter(p.firing, e);
      && q.firing == next != {} && r <= 1
      && q.mails == p.mails + (if next <= p.firing then 0 else 1) + r
      && p.mailedAt + (if r == 1 then reminder else 0) <= q.mailedAt <= Read(c, e).at
  {
    r := 0;
    if e.Page? {
      var firing := Select(e.alerts, false);
      assert Name(firing[0]) in Names(firing);
      if Names(firing) <= p.firing && e.c.at - p.mailedAt >= reminder {
        r := 1;
      }
    }
  }

  /** While something burns, page mails are gains and reminders, and reminders lie Reminder apart. */
  lemma {:induction false} BurnRun(reminder: int, p: Pager, c: Clock, es: seq<Event>) returns (r: nat)
    requires Burns(es) && Ordered(c, es) && p.firing != {} && p.mailedAt <= c.at
    ensures var q := PagingAll(reminder, p, es);
      && q.mails == p.mails + Gains(p.firing, es) + r
      && p.mailedAt + Spans(r, reminder) <= q.mailedAt <= Now(c, es).at && q.firing != {}
    decreases |es|
  {
    if es == [] {
      r := 0;
    } else {
      var r1 := BurnStep(reminder, p, c, es[0]);
      var more := BurnRun(reminder, Paging(reminder, p, es[0]), Read(c, es[0]), es[1..]);
      r := if r1 == 1 then more + 1 else more;
    }
  }

  lemma {:induction false} PagingSplit(reminder: int, p: Pager, es: seq<Event>, e: Event)
    ensures PagingAll(reminder, p, es + [e]) == Paging(reminder, PagingAll(reminder, p, es), e)
    decreases |es|
  {
    if es == [] {
      assert (es + [e])[1..] == [];
    } else {
      assert (es + [e])[1..] == es[1..] + [e];
      PagingSplit(reminder, Paging(reminder, p, es[0]), es[1..], e);
    }
  }

  /** From quiet, through notifications that report something burning, to the all-clear. */
  predicate Incident(es: seq<Event>) {
    && 2 <= |es| && es[0].Page? && es[|es| - 1].Page?
    && Burns(es[..|es| - 1])
    && Select(es[|es| - 1].alerts, false) == [] && Select(es[|es| - 1].alerts, true) != []
  }

  /** Two mails, one more for each time the firing set gained a name, and so many reminders that they fit Reminder
      apart into the time it burned; and quiet again. */
  ghost predicate IncidentTold(reminder: int, p: Pager, q: Pager, es: seq<Event>)
    requires Incident(es)
  {
    var first, burn := es[0], es[1..|es| - 1];
    var more := q.mails - p.mails - 2 - Gains(FiringAfter({}, first), burn);
    0 <= more && more * reminder <= Now(first.c, burn).at - first.c.at && q.firing == {}
  }

  lemma PagerIncident(reminder: int, p: Pager, es: seq<Event>)
    requires Incident(es) && p.firing == {} && Ordered(es[0].c, es[1..|es| - 1])
    ensures IncidentTold(reminder, p, PagingAll(reminder, p, es), es)
  {
    var first, burn, last := es[0], es[1..|es| - 1], es[|es| - 1];
    assert es[1..] == burn + [last];
    assert first in es[..|es| - 1] && forall e :: e in burn ==> e in es[..|es| - 1];
    var firing := Select(first.alerts, false);
    assert Name(firing[0]) in Names(firing);
    var p1 := Paging(reminder, p, first);
    var r := BurnRun(reminder, p1, first.c, burn);
    PagingSplit(reminder, p1, burn, last);
    SpansLast(r, reminder);
  }

  /** One incident, whatever tickets, digests and restarts go on meanwhile. */
  lemma IncidentMails(cfg: Settings, s: System, es: seq<Event>)
    requires Incident(es) && Ordered(es[0].c, es[1..|es| - 1])
    requires s.mem.pageFiring == {} && Agree(s.disk, s.mem) && AllSaved(es) && SmoothRun(cfg, s, es)
    ensures IncidentTold(cfg.reminder, PagerOf(s), PagerOf(After(cfg, s, es)), es)
  {
    PagerIncident(cfg.reminder, PagerOf(s), es);
    PagesAlone(cfg, s, es);
  }

  /** The set of firing names never grows. */
  predicate Shrinks(prev: set<string>, es: seq<Event>)
    decreases |es|
  {
    es == [] || (FiringAfter(prev, es[0]) <= prev && Shrinks(FiringAfter(prev, es[0]), es[1..]))
  }

  lemma {:induction false} ShrinkingNeverGains(prev: set<string>, es: seq<Event>)
    ensures Gains(prev, es) == 0 <==> Shrinks(prev, es)
    decreases |es|
  {
    if es != [] {
      ShrinkingNeverGains(FiringAfter(prev, es[0]), es[1..]);
    }
  }

  lemma {:induction false} NowLater(c: Clock, es: seq<Event>)
    requires Ordered(c, es)
    ensures c.at <= Now(c, es).at
    decreases |es|
  {
    if es != [] {
      NowLater(Read(c, es[0]), es[1..]);
    }
  }

  lemma NoRoom(n: nat, d: int, total: int)
    requires n * d <= total && 0 <= total < d
    ensures n == 0
  {
  }

  lemma TwoPages(reminder: int, p: Pager, es: seq<Event>)
    requires Incident(es) && p.firing == {} && Ordered(es[0].c, es[1..|es| - 1])
    requires Shrinks(FiringAfter({}, es[0]), es[1..|es| - 1])
    requires Now(es[0].c, es[1..|es| - 1]).at - es[0].c.at < reminder
    ensures PagingAll(reminder, p, es).mails == p.mails + 2
  {
    PagerIncident(reminder, p, es);
    ShrinkingNeverGains(FiringAfter({}, es[0]), es[1..|es| - 1]);
    NowLater(es[0].c, es[1..|es| - 1]);
    NoRoom(PagingAll(reminder, p, es).mails - p.mails - 2, reminder, Now(es[0].c, es[1..|es| - 1]).at - es[0].c.at);
  }

  /** An incident that gains no name and burns for less than Reminder is exactly two mails. */
  lemma TwoMails(cfg: Settings, s: System, es: seq<Event>)
    requires Incident(es) && Ordered(es[0].c, es[1..|es| - 1])
    requires s.mem.pageFiring == {} && Agree(s.disk, s.mem) && AllSaved(es) && SmoothRun(cfg, s, es)
    requires Shrinks(FiringAfter({}, es[0]), es[1..|es| - 1])
    requires Now(es[0].c, es[1..|es| - 1]).at - es[0].c.at < cfg.reminder
    ensures PageCount(After(cfg, s, es).mails) == PageCount(s.mails) + 2
  {
    PagesAlone(cfg, s, es);
    TwoPages(cfg.reminder, PagerOf(s), es);
  }

  // ---- What an operation does, told from its alerts and the state before ----

  /** The alerts with a given flag, in order: one by one, and list after list. */
  lemma {:induction false} SelectJoins(alerts: seq<Alert>, more: seq<Alert>, resolved: bool)
    ensures Select(alerts + more, resolved) == Select(alerts, resolved) + Select(more, resolved)
    ensures |more| == 1 ==> Select(more, resolved) == if more[0].resolved == resolved then more else []
  {
    if more == [] {
      assert alerts + more == alerts;
    } else {
      var front, last := more[..|more| - 1], more[|more| - 1];
      assert more == front + [last];
      SelectJoins(alerts, front, resolved);
      SelectNext(alerts + front, last, resolved);
      SelectNext(front, last, resolved);
      Regroup(alerts, front, [last]);
      Regroup(Select(alerts, resolved), Select(front, resolved), if last.resolved == resolved then [last] else []);
    }
  }

  lemma SelectNext(alerts: seq<Alert>, a: Alert, resolved: bool)
    ensures Select(alerts + [a], resolved) == Select(alerts, resolved) + if a.resolved == resolved then [a] else []
  {
    assert (alerts + [a])[..|alerts|] == alerts;
  }

  lemma Regroup<T>(a: seq<T>, b: seq<T>, c: seq<T>)
    ensures (a + b) + c == a + (b + c)
  {
  }

  lemma {:induction false} SelectIs(alerts: seq<Alert>, resolved: bool, a: Alert)
    ensures a in Select(alerts, resolved) <==> a in alerts && a.resolved == resolved
  {
    if alerts != [] {
      var front, last := alerts[..|alerts| - 1], alerts[|alerts| - 1];
      SelectIs(front, resolved, a);
      assert a in alerts <==> a in front || a == last by {
        assert alerts == front + [last];
      }
    }
  }

  ghost predicate Fires(alerts: seq<Alert>) {
    exists a :: a in alerts && !a.resolved
  }

  ghost predicate SloFires(alerts: seq<Alert>) {
    exists a :: a in alerts && !a.resolved && a.slo != ""
  }

  /** What burns: its SLO, or for an alert without one its name. */
  ghost function FiringNames(alerts: seq<Alert>): set<string> {
    set a | a in alerts && !a.resolved :: if a.slo != "" then a.slo else a.alertname
  }

  lemma FiringIs(alerts: seq<Alert>)
    ensures Select(alerts, false) == [] <==> !Fires(alerts)
    ensures Select(alerts, false) == [] && Select(alerts, true) == [] <==> alerts == []
    ensures Names(Select(alerts, false)) == FiringNames(alerts)
    ensures (exists a :: a in Select(alerts, false) && a.slo != "") <==> SloFires(alerts)
  {
    var firing, resolved := Select(alerts, false), Select(alerts, true);
    forall a
      ensures a in firing <==> a in alerts && !a.resolved
      ensures a in resolved <==> a in alerts && a.resolved
    {
      SelectIs(alerts, false, a);
      SelectIs(alerts, true, a);
    }
    assert firing != [] ==> firing[0] in firing;
    assert alerts != [] ==> alerts[0] in firing || alerts[0] in resolved;
  }

  /** Nothing at all, or a resolution of something nobody was told about. */
  ghost predicate PageSilent(st: State, alerts: seq<Alert>) {
    !Fires(alerts) && (alerts == [] || st.pageFiring == {})
  }

  /** Something new to tell: a name not yet reported, a reminder due, or the end of what was reported. */
  ghost predicate PageNews(cfg: Settings, st: State, now: int, alerts: seq<Alert>) {
    if Fires(alerts) then !(FiringNames(alerts) <= st.pageFiring) || now - st.pageMailedAt >= cfg.reminder
    else alerts != [] && st.pageFiring != {}
  }

  /** The mail for a notification: the all-clear names what had been reported, any other mail what burns now; it is
      a reminder exactly when it names nothing new, and speaks of an error budget exactly when an SLO burns. */
  ghost predicate PageText(st: State, alerts: seq<Alert>, msg: Message) {
    && msg.Notice?
    && (msg.subject == Cleared <==> !Fires(alerts))
    && (msg.subject == StillBurning <==> Fires(alerts) && FiringNames(alerts) <= st.pageFiring)
    && (msg.subject.Burning? <==> !(FiringNames(alerts) <= st.pageFiring))
    && (msg.subject.Burning? ==> (msg.subject.slo <==> SloFires(alerts)))
    && msg.names == (if Fires(alerts) then FiringNames(alerts) else st.pageFiring)
    && msg.firing == Select(alerts, false) && msg.resolved == Select(alerts, true)
  }

  lemma PageTextLaw(cfg: Settings, st: State, now: int, alerts: seq<Alert>)
    ensures Idle(st, alerts) <==> PageSilent(st, alerts)
    ensures !Idle(st, alerts) ==>
      var m := PageMessage(cfg, st, now, alerts);
      && (m.Some? <==> PageNews(cfg, st, now, alerts))
      && (m.Some? ==> PageText(st, alerts, m.value))
  {
    FiringIs(alerts);
    assert !Fires(alerts) ==> FiringNames(alerts) == {};
  }

  /** What becomes of a message when so many mails went out that day. */
  ghost predicate Fated(cfg: Settings, sentToday: nat, sendOk: bool, outcome: Outcome) {
    && (outcome == Capped <==> sentToday >= cfg.maxPerDay)
    && (outcome == DryRun <==> sentToday < cfg.maxPerDay && !cfg.send)
    && (outcome == Sent <==> sentToday < cfg.maxPerDay && cfg.send && sendOk)
    && (outcome == Failed <==> sentToday < cfg.maxPerDay && cfg.send && !sendOk)
  }

  /** The operation put this entry in the log, and mailed its message if it went. */
  ghost predicate Enters(cfg: Settings, s: System, t: System, sendOk: bool, e: Entry) {
    var sent := SentOn(s.mem.day, s.mem.sent, e.day);
    && t.log == s.log + [e] && Fated(cfg, sent, sendOk, e.outcome)
    && t.mails == if e.outcome == Sent || e.outcome == DryRun then s.mails + [Mail(e.day, sent + 1, e.msg)] else s.mails
  }

  /** A notification with no news changes only what counts as reported; one with news is entered with the text for its
      alerts, and counts as reported once it went and that was saved. */
  ghost predicate PageDoes(cfg: Settings, s: System, t: System, c: Clock, alerts: seq<Alert>, io: Io, e: Entry) {
    if PageSilent(s.mem, alerts) then t == s
    else if !PageNews(cfg, s.mem, c.at, alerts) then
      && t.mails == s.mails && t.log == s.log + [e] && e.outcome == Unchanged
      && e.msg == Notice(Burning(SloFires(alerts)), FiringNames(alerts), [], [])
      && t.mem.pageFiring == FiringNames(alerts) && t.mem.pageMailedAt == s.mem.pageMailedAt
    else
      && Enters(cfg, s, t, io.sendOk, e) && PageText(s.mem, alerts, e.msg)
      && if (e.outcome == Sent || e.outcome == DryRun) && io.save1 then
           t.mem.pageFiring == FiringNames(alerts) && t.mem.pageMailedAt == c.at
         else t.mem.pageFiring == s.mem.pageFiring && t.mem.pageMailedAt == s.mem.pageMailedAt
  }

  lemma PageLaw(cfg: Settings, s: System, c: Clock, alerts: seq<Alert>, io: Io) returns (e: Entry)
    ensures e.at == c.at && e.day == c.day && PageDoes(cfg, s, Step(cfg, s, Page(c, alerts, io)), c, alerts, io, e)
  {
    PageTextLaw(cfg, s.mem, c.at, alerts);
    FiringIs(alerts);
    var m := PageMessage(cfg, s.mem, c.at, alerts);
    if m.Some? {
      DeliveredParts(cfg, s, c, m.value, io);
      e := Entry(c.at, c.day, Judged(cfg, SentOn(s.mem.day, s.mem.sent, c.day), io), m.value);
    } else {
      e := Entry(c.at, c.day, Unchanged, Notice(Burning(SloFires(alerts)), FiringNames(alerts), [], []));
    }
  }

  /** The digest tells every open ticket, every resolution and every held mail not yet told.  Capped it keeps its news
      and counts as held itself, failed it stays due; with nothing to tell the day is done without a mail. */
  ghost predicate TickDoes(cfg: Settings, s: System, t: System, c: Clock, io: Io, e: Entry) {
    var went := e.outcome == Sent || e.outcome == DryRun;
    if c.minute < cfg.digestAt || s.mem.lastDigest == Some(c.day) then t == s
    else if s.mem.tickets == map[] && s.mem.resolved == [] && s.mem.heldSinceDigest == 0 then
      t.mails == s.mails && t.log == s.log && t.mem == s.mem.(lastDigest := Some(c.day))
    else
      && Enters(cfg, s, t, io.sendOk, e) && t.mem.tickets == s.mem.tickets
      && e.msg == Digest(s.mem.tickets, s.mem.resolved, s.mem.heldSinceDigest)
      && t.mem.lastDigest == (if e.outcome != Failed && io.save1 then Some(c.day) else s.mem.lastDigest)
      && t.mem.resolved == (if went && io.save1 then [] else s.mem.resolved)
      && t.mem.heldSinceDigest
         == if went && io.save1 then 0 else s.mem.heldSinceDigest + if e.outcome == Capped then 1 else 0
  }

  lemma TickLaw(cfg: Settings, s: System, c: Clock, io: Io) returns (e: Entry)
    ensures e.at == c.at && e.day == c.day && TickDoes(cfg, s, Step(cfg, s, Tick(c, io)), c, io, e)
  {
    var msg := Digest(s.mem.tickets, s.mem.resolved, s.mem.heldSinceDigest);
    DeliveredParts(cfg, s, c, msg, io);
    e := Entry(c.at, c.day, Judged(cfg, SentOn(s.mem.day, s.mem.sent, c.day), io), msg);
  }

  // ---- Which alerts share a ticket ----

  lemma FirstSlash(x: string, u: string, y: string, v: string)
    requires '/' !in x && '/' !in y && x + "/" + u == y + "/" + v
    ensures x == y && u == v
  {
    var whole := x + "/" + u;
    assert whole[|x|] == '/' && whole[|y|] == '/';
    assert |x| == |y|;
    assert x == whole[..|x|] == y;
    assert u == whole[|x| + 1..] == v;
  }

  /** Alerts with fingerprints share a ticket exactly when those agree; alerts without, when their labels do, as long
      as no slash hides in the SLO or the tier. */
  lemma KeysTell(a: Alert, b: Alert)
    ensures a.fingerprint != "" && b.fingerprint != "" ==> (Key(a) == Key(b) <==> a.fingerprint == b.fingerprint)
    ensures a.fingerprint == b.fingerprint == "" && '/' !in a.slo + a.tier + b.slo + b.tier ==>
      (Key(a) == Key(b) <==> a.slo == b.slo && a.tier == b.tier && a.alertname == b.alertname)
  {
    if a.fingerprint == b.fingerprint == "" && '/' !in a.slo + a.tier + b.slo + b.tier && Key(a) == Key(b) {
      assert '/' !in a.slo && '/' !in a.tier && '/' !in b.slo && '/' !in b.tier;
      var u, v := a.tier + "/" + a.alertname, b.tier + "/" + b.alertname;
      assert Key(a) == a.slo + "/" + u && Key(b) == b.slo + "/" + v;
      FirstSlash(a.slo, u, b.slo, v);
      FirstSlash(a.tier, a.alertname, b.tier, b.alertname);
    }
  }

  /** With a slash in the SLO two different alerts can share a ticket. */
  lemma KeysClash(name: string, at: int)
    ensures Key(Alert(false, "", "a/b", "c", name, at)) == Key(Alert(false, "", "a", "b/c", name, at))
  {
    assert "a/b" + "/" + "c" + "/" + name == "a" + "/" + "b/c" + "/" + name;
  }

  // ---- The log, the mails and the day's counters tell the same story ----

  function GoneOut(log: seq<Entry>): seq<Message> {
    if log == [] then []
    else
      var e := log[|log| - 1];
      GoneOut(log[..|log| - 1]) + if e.outcome == Sent || e.outcome == DryRun then [e.msg] else []
  }

  function Messages(mails: seq<Mail>): seq<Message> {
    if mails == [] then [] else Messages(mails[..|mails| - 1]) + [mails[|mails| - 1].msg]
  }

  function CappedOn(log: seq<Entry>, d: int): nat {
    if log == [] then 0
    else
      var e := log[|log| - 1];
      CappedOn(log[..|log| - 1], d) + if e.outcome == Capped && e.day == d then 1 else 0
  }

  /** What went out is what the log says went out; dry-run sends nothing and only sending can fail. */
  ghost predicate LogTrue(cfg: Settings, s: System) {
    && Messages(s.mails) == GoneOut(s.log)
    && forall e :: e in s.log ==>
         (e.outcome == DryRun ==> !cfg.send) && (e.outcome == Sent || e.outcome == Failed ==> cfg.send)
  }

  /** The day's held counter is the number of mails the cap held back that day. */
  ghost predicate HeldTrue(day: Option<int>, held: nat, log: seq<Entry>, d: int) {
    && (forall e :: e in log ==> e.day <= d)
    && (day.Some? ==> day.value <= d)
    && SentOn(day, held, d) == CappedOn(log, d)
  }

  lemma Entered(log: seq<Entry>, e: Entry, d: int)
    ensures GoneOut(log + [e]) == GoneOut(log) + if e.outcome == Sent || e.outcome == DryRun then [e.msg] else []
    ensures CappedOn(log + [e], d) == CappedOn(log, d) + if e.outcome == Capped && e.day == d then 1 else 0
  {
    assert (log + [e])[..|log|] == log;
  }

  lemma MessagesMore(mails: seq<Mail>, m: Mail)
    ensures Messages(mails + [m]) == Messages(mails) + [m.msg]
  {
    assert (mails + [m])[..|mails|] == mails;
  }

  lemma {:induction false} NoneCapped(log: seq<Entry>, d: int)
    requires forall e :: e in log ==> e.day != d
    ensures CappedOn(log, d) == 0
  {
    if log != [] {
      NoneCapped(log[..|log| - 1], d);
    }
  }

  lemma HeldLater(day: Option<int>, held: nat, log: seq<Entry>, d: int, e: int)
    requires HeldTrue(day, held, log, d) && d <= e
    ensures HeldTrue(day, held, log, e)
  {
    if d < e {
      NoneCapped(log, e);
    }
  }

  lemma EntersLog(cfg: Settings, s: System, t: System, sendOk: bool, e: Entry)
    requires LogTrue(cfg, s) && Enters(cfg, s, t, sendOk, e)
    ensures LogTrue(cfg, t)
  {
    Entered(s.log, e, e.day);
    MessagesMore(s.mails, Mail(e.day, SentOn(s.mem.day, s.mem.sent, e.day) + 1, e.msg));
  }

  lemma StepLogs(cfg: Settings, s: System, e: Event)
    requires LogTrue(cfg, s)
    ensures LogTrue(cfg, Step(cfg, s, e))
  {
    var t := Step(cfg, s, e);
    match e
    case Page(c, alerts, io) =>
      var x := PageLaw(cfg, s, c, alerts, io);
      Entered(s.log, x, x.day);
      if Enters(cfg, s, t, io.sendOk, x) {
        EntersLog(cfg, s, t, io.sendOk, x);
      }
    case Ticket(_, _) =>
    case Tick(c, io) =>
      var x := TickLaw(cfg, s, c, io);
      if Enters(cfg, s, t, io.sendOk, x) {
        EntersLog(cfg, s, t, io.sendOk, x);
      }
    case Status(_) =>
    case Restart =>
  }

  lemma {:induction false} LogRun(cfg: Settings, s: System, es: seq<Event>)
    requires LogTrue(cfg, s)
    ensures LogTrue(cfg, After(cfg, s, es))
    decreases |es|
  {
    if es != [] {
      StepLogs(cfg, s, es[0]);
      LogRun(cfg, Step(cfg, s, es[0]), es[1..]);
    }
  }

  lemma DeliveredHeld(cfg: Settings, s: System, c: Clock, msg: Message, io: Io)
    requires HeldTrue(s.mem.day, s.mem.held, s.log, c.day)
    ensures var t := Delivered(cfg, s, c, msg, io).0; HeldTrue(t.mem.day, t.mem.held, t.log, c.day)
  {
    DeliveredParts(cfg, s, c, msg, io);
    Entered(s.log, Entry(c.at, c.day, Judged(cfg, SentOn(s.mem.day, s.mem.sent, c.day), io), msg), c.day);
  }

  lemma PassedHeld(s: System, c: Clock, firing: seq<Alert>, io: Io)
    requires HeldTrue(s.mem.day, s.mem.held, s.log, c.day)
    ensures var t := Passed(s, c, firing, io); HeldTrue(t.mem.day, t.mem.held, t.log, c.day)
  {
    var t := Passed(s, c, firing, io);
    Entered(s.log, t.log[|s.log|], c.day);
    assert t.log == s.log + [t.log[|s.log|]];
  }

  lemma PageHeld(cfg: Settings, s: System, c: Clock, alerts: seq<Alert>, io: Io)
    requires HeldTrue(s.mem.day, s.mem.held, s.log, c.day)
    ensures var t := Paged(cfg, s, c, alerts, io); HeldTrue(t.mem.day, t.mem.held, t.log, c.day)
  {
    var m, firing := PageMessage(cfg, s.mem, c.at, alerts), Select(alerts, false);
    if m.Some? {
      DeliveredHeld(cfg, s, c, m.value, io);
    } else {
      PassedHeld(s, c, firing, io);
    }
  }

  lemma TickHeld(cfg: Settings, s: System, c: Clock, io: Io)
    requires HeldTrue(s.mem.day, s.mem.held, s.log, c.day)
    ensures var t := Ticked(cfg, s, c, io); HeldTrue(t.mem.day, t.mem.held, t.log, c.day)
  {
    DeliveredHeld(cfg, s, c, DigestOf(s.mem), io);
  }

  /** An operation whose saves succeed leaves the file as it was, with the log, or in step with memory. */
  lemma StepSaved(cfg: Settings, s: System, e: Event)
    requires Saves(e)
    ensures var t := Step(cfg, s, e); t.disk == t.mem || (t.disk == s.disk && t.log == s.log)
  {
  }

  lemma StepHeld(cfg: Settings, s: System, c: Clock, e: Event)
    requires HeldTrue(s.mem.day, s.mem.held, s.log, c.day) && HeldTrue(s.disk.day, s.disk.held, s.log, c.day)
    requires c.day <= Read(c, e).day && Saves(e)
    ensures var t, d := Step(cfg, s, e), Read(c, e).day;
      HeldTrue(t.mem.day, t.mem.held, t.log, d) && HeldTrue(t.disk.day, t.disk.held, t.log, d)
  {
    var d := Read(c, e).day;
    HeldLater(s.mem.day, s.mem.held, s.log, c.day, d);
    HeldLater(s.disk.day, s.disk.held, s.log, c.day, d);
    StepSaved(cfg, s, e);
    match e
    case Page(c', alerts, io) => PageHeld(cfg, s, c', alerts, io);
    case Ticket(alerts, _) => TicketsOnly(s.mem, alerts);
    case Tick(c', io) => TickHeld(cfg, s, c', io);
    case Status(_) =>
    case Restart =>
  }

  lemma {:induction false} HeldRun(cfg: Settings, s: System, c: Clock, es: seq<Event>)
    requires HeldTrue(s.mem.day, s.mem.held, s.log, c.day) && HeldTrue(s.disk.day, s.disk.held, s.log, c.day)
    requires Ordered(c, es) && AllSaved(es)
    ensures var t := After(cfg, s, es); HeldTrue(t.mem.day, t.mem.held, t.log, Now(c, es).day)
    decreases |es|
  {
    if es != [] {
      StepHeld(cfg, s, c, es[0]);
      HeldRun(cfg, Step(cfg, s, es[0]), Read(c, es[0]), es[1..]);
    }
  }

  /** Every run from an empty state: the log tells the mails; and if every save succeeds the held counter of the day
      is the number of mails held back that day, restarts included. */
  lemma LogsTellAll(cfg: Settings, c: Clock, es: seq<Event>)
    ensures LogTrue(cfg, After(cfg, START, es))
    ensures Ordered(c, es) && AllSaved(es) ==>
      var t := After(cfg, START, es); HeldTrue(t.mem.day, t.mem.held, t.log, Now(c, es).day)
  {
    LogRun(cfg, START, es);
    if Ordered(c, es) && AllSaved(es) {
      HeldRun(cfg, START, c, es);
    }
  }

  // ---- The object ----

  lemma {:induction false} SelectsAll(alerts: seq<Alert>)
    ensures multiset(Select(alerts, false)) + multiset(Select(alerts, true)) == multiset(alerts)
  {
    if alerts != [] {
      SelectsAll(alerts[..|alerts| - 1]);
      assert alerts == alerts[..|alerts| - 1] + [alerts[|alerts| - 1]];
    }
  }

  /** The firing alerts and the resolved ones, each in order: every alert lands in exactly one list. */
  method Split(alerts: seq<Alert>) returns (firing: seq<Alert>, resolved: seq<Alert>)
    ensures firing == Select(alerts, false) && resolved == Select(alerts, true)
    ensures multiset(firing) + multiset(resolved) == multiset(alerts)
  {
    SelectsAll(alerts);
    firing, resolved := [], [];
    for i := 0 to |alerts|
      invariant firing == Select(alerts[..i], false) && resolved == Select(alerts[..i], true)
    {
      assert alerts[..i + 1][..i] == alerts[..i];
      if alerts[i].resolved {
        resolved := resolved + [alerts[i]];
      } else {
        firing := firing + [alerts[i]];
      }
    }
    assert alerts[..|alerts|] == alerts;
  }

  method NamesOf(alerts: seq<Alert>) returns (names: set<string>)
    ensures names == Names(alerts)
    ensures names == {} <==> alerts == []
  {
    names := {};
    for i := 0 to |alerts|
      invariant names == Names(alerts[..i])
    {
      assert alerts[..i + 1] == alerts[..i] + [alerts[i]];
      names := names + {Name(alerts[i])};
    }
    assert alerts[..|alerts|] == alerts;
    assert alerts != [] ==> Name(alerts[0]) in names;
  }

  class Mailer {
    const cfg: Settings
    var st: State
    var disk: State              // state.json
    ghost var mails: seq<Mail>
    ghost var log: seq<Entry>

    ghost function View(): System
      reads this
    {
      System(st, disk, mails, log)
    }

    /** A restart: what was mailed and logged before is kept only as history. */
    constructor (cfg: Settings, disk: State, ghost mails: seq<Mail>, ghost log: seq<Entry>)
      ensures this.cfg == cfg && View() == System(disk, disk, mails, log)
    {
      this.cfg, st, this.disk, this.mails, this.log := cfg, disk, disk, mails, log;
    }

    method RollDay(day: int)
      modifies this`st
      ensures st == Rolled(old(st), day)
    {
      if st.day != Some(day) {
        st := st.(day := Some(day), sent := 0, held := 0);
      }
    }

    /** The file is written beside and renamed over, so a failed save leaves the old one. */
    method Save(written: bool) returns (ok: bool)
      modifies this`disk
      ensures ok == written && View() == Saved(old(View()), written)
    {
      if written {
        disk := st;
      }
      return written;
    }

    method Record(c: Clock, msg: Message, outcome: Outcome)
      modifies this`st, this`log
      ensures View() == Recorded(old(View()), c, msg, outcome)
    {
      var e := Entry(c.at, c.day, outcome, msg);
      var outbox := st.outbox + [e];
      if |outbox| > OUTBOX_KEEP {
        outbox := outbox[|outbox| - OUTBOX_KEEP..];
      }
      st := st.(outbox := outbox);
      log := log + [e];
    }

    method Deliver(c: Clock, msg: Message, io: Io) returns (outcome: Outcome, ok: bool)
      modifies this
      ensures (View(), outcome, ok) == Delivered(cfg, old(View()), c, msg, io)
      ensures Fated(cfg, SentOn(old(st).day, old(st).sent, c.day), io.sendOk, outcome)
      ensures ok <==> outcome != Failed && disk == st && io.save1
    {
      RollDay(c.day);
      if st.sent >= cfg.maxPerDay {
        st := st.(held := st.held + 1, heldSinceDigest := st.heldSinceDigest + 1);
        Record(c, msg, Capped);
        ok := Save(io.save1);
        return Capped, ok;
      }
      var n := st.sent + 1;
      outcome := DryRun;
      if cfg.send {
        if !io.sendOk {
          Record(c, msg, Failed);
          var _ := Save(io.save1);
          return Failed, false;
        }
        outcome := Sent;
      }
      st := st.(sent := n);
      mails := mails + [Mail(c.day, n, msg)];
      Record(c, msg, outcome);
      ok := Save(io.save1);
    }

    method Page(c: Clock, alerts: seq<Alert>, io: Io) returns (ok: bool)
      modifies this
      ensures View() == Paged(cfg, old(View()), c, alerts, io)
      ensures exists e :: PageDoes(cfg, old(View()), View(), c, alerts, io, e)
      ensures ok ==> View() == old(View()) || disk == st
      ensures !ok ==> !io.save1 || !io.save2 || (log != [] && log[|log| - 1].outcome == Failed)
    {
      ghost var e := PageLaw(cfg, View(), c, alerts, io);
      var firing, resolved := Split(alerts);
      if |firing| + |resolved| == 0 {
        return true;
      }
      var names := NamesOf(firing);
      var slo := exists a :: a in firing && a.slo != "";
      var subject := Burning(slo);
      if firing == [] && st.pageFiring == {} {
        return true;
      } else if firing == [] {
        subject := Cleared;
      } else if !(names <= st.pageFiring) {
      } else if c.at - st.pageMailedAt >= cfg.reminder {
        subject := StillBurning;
      } else {
        st := st.(pageFiring := names);
        Record(c, Notice(subject, names, [], []), Unchanged);
        ok := Save(io.save1);
        return;
      }
      var msg := Notice(subject, if firing == [] then st.pageFiring else names, firing, resolved);
      ok := Announce(c, msg, names, io);
    }

    /** Mails a page and, once it went, notes what it said. */
    method Announce(c: Clock, msg: Message, names: set<string>, io: Io) returns (ok: bool)
      modifies this
      ensures View() == Announced(cfg, old(View()), c, msg, names, io)
      ensures ok ==> disk == st
      ensures !ok ==> !io.save1 || !io.save2 || (log != [] && log[|log| - 1].outcome == Failed)
    {
      var outcome;
      outcome, ok := Deliver(c, msg, io);
      if ok && outcome != Capped {
        st := st.(pageFiring := names, pageMailedAt := c.at);
        ok := Save(io.save2);
      }
    }

    method Ticket(alerts: seq<Alert>, io: Io) returns (ok: bool)
      modifies this
      ensures View() == Ticketed(old(View()), alerts, io) && ok == io.save1
    {
      ghost var s := View();
      for i := 0 to |alerts|
        invariant View() == s.(mem := TicketedAll(s.mem, alerts[..i]))
      {
        var a := alerts[i];
        assert alerts[..i + 1][..i] == alerts[..i];
        var key := Key(a);
        if a.resolved {
          if key in st.tickets {
            st := st.(tickets := st.tickets - {key}, resolved := st.resolved + [Told(a)]);
          }
          continue;
        }
        st := st.(tickets := st.tickets[key := a]);
      }
      assert alerts[..|alerts|] == alerts;
      ok := Save(io.save1);
    }

    method Tick(c: Clock, io: Io) returns (ok: bool)
      modifies this
      ensures View() == Ticked(cfg, old(View()), c, io)
      ensures exists e :: TickDoes(cfg, old(View()), View(), c, io, e)
      ensures ok ==> View() == old(View()) || disk == st
      ensures !ok ==> !io.save1 || !io.save2 || (log != [] && log[|log| - 1].outcome == Failed)
    {
      ghost var e := TickLaw(cfg, View(), c, io);
      if c.minute < cfg.digestAt || st.lastDigest == Some(c.day) {
        return true;
      }
      if st.tickets == map[] && st.resolved == [] && st.heldSinceDigest == 0 {
        st := st.(lastDigest := Some(c.day));
        ok := Save(io.save1);
        return;
      }
      var outcome;
      outcome, ok := Deliver(c, DigestOf(st), io);
      if !ok {
        return;
      }
      if outcome != Capped {
        st := st.(resolved := [], heldSinceDigest := 0);
      }
      st := st.(lastDigest := Some(c.day));
      ok := Save(io.save2);
    }

    /** In a state that counts its mails, the summary has the numbers of mails and of held mails of the sampled day. */
    method Status(c: Clock) returns (sentToday: nat, heldToday: nat, openTickets: nat)
      modifies this`st
      ensures View() == old(View()).(mem := Rolled(old(st), c.day))
      ensures Counted(old(st).day, old(st).sent, mails, c.day) ==> sentToday == CountOn(mails, c.day)
      ensures HeldTrue(old(st).day, old(st).held, log, c.day) ==> heldToday == CappedOn(log, c.day)
      ensures sentToday == SentOn(old(st).day, old(st).sent, c.day) && openTickets == |st.tickets|
    {
      RollDay(c.day);
      return st.sent, st.held, |st.tickets|;
    }
  }
}
