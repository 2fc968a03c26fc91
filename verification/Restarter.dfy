/** Akira's remediation: a restart budget per outage of a service this node runs, and a bounded,
    rate-limited log of verdicts on services it does not. */
module Restarter {
  const MAX_REFUSED := 64
  const QUIET := 3_600_000_000_000 // an hour of nanoseconds

  datatype Target = Target(name: string, exec: bool)

  /** maxRestarts is health.MaxAutoRestarts. */
  datatype Config = Config(noUnit: set<string>, units: map<string, string>, enabled: bool, maxRestarts: nat)

  datatype State = State(counts: map<string, int>, refused: map<string, int>)

  /** What an event makes the node do or say. */
  datatype Effect =
    | Silence
    | Restart(service: string, unit: string)
    | Escalate(service: string)
    | NeedsHuman(service: string)
    | Refusal(service: string, at: int)

  datatype Event = Alert(service: string, at: int) | Recovered(service: string)

  // ---- What one event does ----

  function CountOf(st: State, s: string): int {
    if s in st.counts then st.counts[s] else 0
  }

  function Counted(st: State, s: string, n: int): State {
    st.(counts := st.counts[s := n])
  }

  predicate Restartable(cfg: Config, s: string) {
    s !in cfg.noUnit && s in cfg.units && cfg.enabled
  }

  function Fresh(refused: map<string, int>, now: int): map<string, int> {
    map n | n in refused && now - refused[n] < QUIET :: refused[n]
  }

  function Refused(st: State, s: string, now: int): (State, Effect) {
    var kept := Fresh(st.refused, now);
    if s in kept || |kept| >= MAX_REFUSED then (st.(refused := kept), Silence)
    else (st.(refused := kept[s := now]), Refusal(s, now))
  }

  function Told(st: State, s: string): (State, Effect) {
    if CountOf(st, s) == 0 then (Counted(st, s, -1), NeedsHuman(s)) else (st, Silence)
  }

  function Tried(cfg: Config, st: State, s: string): (State, Effect)
    requires s in cfg.units
  {
    var n := CountOf(st, s);
    if n < cfg.maxRestarts then (Counted(st, s, n + 1), Restart(s, cfg.units[s]))
    else if n == cfg.maxRestarts then (Counted(st, s, n + 1), Escalate(s))
    else (st, Silence)
  }

  function Step(cfg: Config, st: State, e: Event): (State, Effect) {
    match e
    case Recovered(s) => (st.(counts := st.counts - {s}), Silence)
    case Alert(s, at) =>
      if s in cfg.noUnit then Told(st, s)
      else if s !in cfg.units then Refused(st, s, at)
      else if !cfg.enabled then Told(st, s)
      else Tried(cfg, st, s)
  }

  /** The effects of a run, one per event. */
  function Run(cfg: Config, st: State, es: seq<Event>): (out: seq<Effect>)
    ensures |out| == |es|
    decreases |es|
  {
    if es == [] then [] else [Step(cfg, st, es[0]).1] + Run(cfg, Step(cfg, st, es[0]).0, es[1..])
  }

  function Final(cfg: Config, st: State, es: seq<Event>): State
    decreases |es|
  {
    if es == [] then st else Final(cfg, Step(cfg, st, es[0]).0, es[1..])
  }

  // ---- The budget of one outage ----

  function Alerts(es: seq<Event>, s: string): nat {
    if es == [] then 0 else (if es[0].Alert? && es[0].service == s then 1 else 0) + Alerts(es[1..], s)
  }

  function Times(out: seq<Effect>, e: Effect): nat {
    if out == [] then 0 else (if out[0] == e then 1 else 0) + Times(out[1..], e)
  }

  ghost predicate OneOutage(es: seq<Event>, s: string) {
    es == [] || (es[0] != Recovered(s) && OneOutage(es[1..], s))
  }

  function Min(x: int, y: int): int {
    if x < y then x else y
  }

  lemma OtherService(cfg: Config, st: State, e: Event, s: string)
    requires e.service != s
    ensures CountOf(Step(cfg, st, e).0, s) == CountOf(st, s)
    ensures var x := Step(cfg, st, e).1; x.Silence? || x.service != s
  {
  }

  /** From n attempts already made in an outage, what k more alerts cause. */
  lemma {:induction false} BudgetFrom(cfg: Config, st: State, es: seq<Event>, s: string)
    requires OneOutage(es, s) && Restartable(cfg, s) && 0 <= CountOf(st, s) <= cfg.maxRestarts + 1
    ensures var n, k, out := CountOf(st, s), Alerts(es, s), Run(cfg, st, es);
            && Times(out, Restart(s, cfg.units[s])) == (if n <= cfg.maxRestarts then Min(k, cfg.maxRestarts - n) else 0)
            && Times(out, Escalate(s)) == (if n <= cfg.maxRestarts < n + k then 1 else 0)
            && Times(out, NeedsHuman(s)) == 0
    decreases |es|
  {
    if es != [] {
      BudgetFrom(cfg, Step(cfg, st, es[0]).0, es[1..], s) by {
        if es[0].service != s {
          OtherService(cfg, st, es[0], s);
        }
      }
      assert Run(cfg, st, es)[1..] == Run(cfg, Step(cfg, st, es[0]).0, es[1..]);
      if es[0].service != s {
        OtherService(cfg, st, es[0], s);
      }
    }
  }

  lemma {:induction false} ToldOnce(cfg: Config, st: State, es: seq<Event>, s: string, unit: string)
    requires OneOutage(es, s) && !Restartable(cfg, s) && (s in cfg.noUnit || s in cfg.units)
    ensures var k, out := Alerts(es, s), Run(cfg, st, es);
            && Times(out, Restart(s, unit)) == 0 && Times(out, Escalate(s)) == 0
            && Times(out, NeedsHuman(s)) == (if CountOf(st, s) == 0 && k > 0 then 1 else 0)
    decreases |es|
  {
    if es != [] {
      ToldOnce(cfg, Step(cfg, st, es[0]).0, es[1..], s, unit);
      assert Run(cfg, st, es)[1..] == Run(cfg, Step(cfg, st, es[0]).0, es[1..]);
      if es[0].service != s {
        OtherService(cfg, st, es[0], s);
      }
    }
  }

  // Outages inside a run.

  const START := State(map[], map[])

  lemma {:induction false} RunConcat(cfg: Config, st: State, xs: seq<Event>, ys: seq<Event>)
    ensures Run(cfg, st, xs + ys) == Run(cfg, st, xs) + Run(cfg, Final(cfg, st, xs), ys)
    ensures Final(cfg, st, xs + ys) == Final(cfg, Final(cfg, st, xs), ys)
    decreases |xs|
  {
    if xs == [] {
      assert xs + ys == ys;
    } else {
      assert (xs + ys)[1..] == xs[1..] + ys;
      RunConcat(cfg, Step(cfg, st, xs[0]).0, xs[1..], ys);
    }
  }

  /** The effects of a stretch of a run are those of a run from where the stretch begins. */
  lemma RunSlice(cfg: Config, st: State, es: seq<Event>, i: nat, j: nat)
    requires i <= j <= |es|
    ensures Run(cfg, st, es)[i..j] == Run(cfg, Final(cfg, st, es[..i]), es[i..j])
    ensures Run(cfg, st, es)[..i] == Run(cfg, st, es[..i])
  {
    var x, y, z := es[..i], es[i..j], es[j..];
    CutTwice(es, i, j);
    RunConcat(cfg, st, x, y + z);
    RunConcat(cfg, Final(cfg, st, x), y, z);
    var mid := Final(cfg, st, x);
    MiddleOf(Run(cfg, st, x), Run(cfg, mid, y), Run(cfg, Final(cfg, mid, y), z));
  }

  lemma CutTwice<T>(s: seq<T>, i: nat, j: nat)
    requires i <= j <= |s|
    ensures s == s[..i] + (s[i..j] + s[j..])
  {
  }

  lemma MiddleOf<T>(x: seq<T>, y: seq<T>, z: seq<T>)
    ensures (x + (y + z))[|x|..|x| + |y|] == y && (x + (y + z))[..|x|] == x
  {
  }

  lemma RunAt(cfg: Config, st: State, es: seq<Event>, i: nat)
    requires i < |es|
    ensures Run(cfg, st, es)[..i] == Run(cfg, st, es[..i])
    ensures Run(cfg, st, es)[i] == Step(cfg, Final(cfg, st, es[..i]), es[i]).1
  {
    RunSlice(cfg, st, es, i, i + 1);
    assert es[i..i + 1] == [es[i]] && Run(cfg, st, es)[i] == Run(cfg, st, es)[i..i + 1][0];
  }

  /** From i to j the service does not recover, and i is the start of the run or just after a recovery. */
  ghost predicate Outage(es: seq<Event>, s: string, i: nat, j: nat) {
    i <= j <= |es| && (i == 0 || es[i - 1] == Recovered(s)) && OneOutage(es[i..j], s)
  }

  lemma OutageStartsAfresh(cfg: Config, es: seq<Event>, s: string, i: nat)
    requires i <= |es| && (i == 0 || es[i - 1] == Recovered(s))
    ensures s !in Final(cfg, START, es[..i]).counts
  {
    if i > 0 {
      assert es[..i] == es[..i - 1] + [Recovered(s)];
      RunConcat(cfg, START, es[..i - 1], [Recovered(s)]);
      var before := Final(cfg, START, es[..i - 1]);
      assert Final(cfg, before, [Recovered(s)]) == Step(cfg, before, Recovered(s)).0;
    }
  }

  /** In every run, every outage of a service to be restarted: however its k alerts interleave with the rest, it
      causes min(k, max) restarts, then one escalation. */
  lemma OutageBudget(cfg: Config, es: seq<Event>, s: string, i: nat, j: nat)
    requires Outage(es, s, i, j) && Restartable(cfg, s)
    ensures var k, out := Alerts(es[i..j], s), Run(cfg, START, es)[i..j];
            && Times(out, Restart(s, cfg.units[s])) == Min(k, cfg.maxRestarts)
            && Times(out, Escalate(s)) == (if k > cfg.maxRestarts then 1 else 0)
            && Times(out, NeedsHuman(s)) == 0
  {
    RunSlice(cfg, START, es, i, j);
    OutageStartsAfresh(cfg, es, s, i);
    BudgetFrom(cfg, Final(cfg, START, es[..i]), es[i..j], s);
  }

  /** In every run, every outage of a service of this node that is not to be restarted costs one notice. */
  lemma OutageNotice(cfg: Config, es: seq<Event>, s: string, unit: string, i: nat, j: nat)
    requires Outage(es, s, i, j) && !Restartable(cfg, s) && (s in cfg.noUnit || s in cfg.units)
    ensures var out := Run(cfg, START, es)[i..j];
            && Times(out, Restart(s, unit)) == 0 && Times(out, Escalate(s)) == 0
            && Times(out, NeedsHuman(s)) == Min(Alerts(es[i..j], s), 1)
  {
    RunSlice(cfg, START, es, i, j);
    OutageStartsAfresh(cfg, es, s, i);
    ToldOnce(cfg, Final(cfg, START, es[..i]), es[i..j], s, unit);
  }

  lemma {:induction false} CountsAlerts(cfg: Config, st: State, es: seq<Event>, s: string)
    requires OneOutage(es, s) && Restartable(cfg, s) && 0 <= CountOf(st, s) <= cfg.maxRestarts + 1
    ensures CountOf(Final(cfg, st, es), s) == Min(CountOf(st, s) + Alerts(es, s), cfg.maxRestarts + 1)
    decreases |es|
  {
    if es != [] {
      if es[0].service != s {
        OtherService(cfg, st, es[0], s);
      }
      CountsAlerts(cfg, Step(cfg, st, es[0]).0, es[1..], s);
    }
  }

  lemma {:induction false} CountsNotice(cfg: Config, st: State, es: seq<Event>, s: string)
    requires OneOutage(es, s) && !Restartable(cfg, s) && (s in cfg.noUnit || s in cfg.units)
    ensures CountOf(Final(cfg, st, es), s) == 0 <==> CountOf(st, s) == 0 && Alerts(es, s) == 0
    decreases |es|
  {
    if es != [] {
      if es[0].service != s {
        OtherService(cfg, st, es[0], s);
      }
      CountsNotice(cfg, Step(cfg, st, es[0]).0, es[1..], s);
    }
  }

  /** Which alert of an outage does what, in every run: the first ones restart the service, the next one escalates and
      the rest are silent; without a restart the first one calls a human and the rest are silent. */
  lemma OutageOrder(cfg: Config, es: seq<Event>, s: string, i: nat, j: nat)
    requires j < |es| && Outage(es, s, i, j) && es[j].Alert? && es[j].service == s
    requires s in cfg.noUnit || s in cfg.units
    ensures var k := Alerts(es[i..j], s);
      Run(cfg, START, es)[j]
      == if Restartable(cfg, s) then
           if k < cfg.maxRestarts then Restart(s, cfg.units[s])
           else if k == cfg.maxRestarts then Escalate(s)
           else Silence
         else if k == 0 then NeedsHuman(s)
         else Silence
  {
    OutageCounts(cfg, es, s, i, j);
    RunAt(cfg, START, es, j);
  }

  ghost predicate CountsTo(cfg: Config, s: string, n: int, k: nat) {
    if Restartable(cfg, s) then n == Min(k, cfg.maxRestarts + 1) else n == 0 <==> k == 0
  }

  lemma CountsFresh(cfg: Config, st: State, es: seq<Event>, s: string)
    requires OneOutage(es, s) && CountOf(st, s) == 0 && (s in cfg.noUnit || s in cfg.units)
    ensures CountsTo(cfg, s, CountOf(Final(cfg, st, es), s), Alerts(es, s))
  {
    if Restartable(cfg, s) {
      CountsAlerts(cfg, st, es, s);
    } else {
      CountsNotice(cfg, st, es, s);
    }
  }

  lemma FinalSlice(cfg: Config, st: State, es: seq<Event>, i: nat, j: nat)
    requires i <= j <= |es|
    ensures Final(cfg, st, es[..j]) == Final(cfg, Final(cfg, st, es[..i]), es[i..j])
  {
    assert es[..j] == es[..i] + es[i..j];
    RunConcat(cfg, st, es[..i], es[i..j]);
  }

  /** What an outage has counted by its j-th event. */
  lemma OutageCounts(cfg: Config, es: seq<Event>, s: string, i: nat, j: nat)
    requires Outage(es, s, i, j) && (s in cfg.noUnit || s in cfg.units)
    ensures CountsTo(cfg, s, CountOf(Final(cfg, START, es[..j]), s), Alerts(es[i..j], s))
  {
    FinalSlice(cfg, START, es, i, j);
    OutageStartsAfresh(cfg, es, s, i);
    CountsFresh(cfg, Final(cfg, START, es[..i]), es[i..j], s);
  }

  /** Only the table's own units are ever restarted, names outside it are only ever refused, and only alerts do
      anything. */
  lemma {:induction false} OnlyOwnUnits(cfg: Config, st: State, es: seq<Event>, i: nat)
    requires i < |es|
    ensures var x := Run(cfg, st, es)[i];
            && (x.Restart? ==> Restartable(cfg, x.service) && x.unit == cfg.units[x.service])
            && (!x.Silence? ==> x.service == es[i].service
                                && (x.Refusal? <==> x.service !in cfg.noUnit && x.service !in cfg.units))
            && (!x.Silence? ==> es[i].Alert? && (x.Refusal? ==> x.at == es[i].at))
    decreases |es|
  {
    if i > 0 {
      OnlyOwnUnits(cfg, Step(cfg, st, es[0]).0, es[1..], i - 1);
      assert Run(cfg, st, es)[i] == Run(cfg, Step(cfg, st, es[0]).0, es[1..])[i - 1];
    }
  }

  // ---- The refusal log ----

  function Refusals(out: seq<Effect>): seq<Effect> {
    if out == [] then [] else (if out[0].Refusal? then [out[0]] else []) + Refusals(out[1..])
  }

  ghost predicate Ordered(es: seq<Event>, from: int)
    decreases |es|
  {
    es == [] || (if es[0].Alert? then from <= es[0].at && Ordered(es[1..], es[0].at) else Ordered(es[1..], from))
  }

  ghost predicate Timed(log: seq<Effect>) {
    && (forall i :: 0 <= i < |log| ==> log[i].Refusal?)
    && (forall i, j :: 0 <= i < j < |log| ==> log[i].at <= log[j].at)
  }

  /** In any span shorter than QUIET no name repeats and at most MAX_REFUSED lines appear. */
  ghost predicate Sparse(log: seq<Effect>) {
    && Timed(log)
    && (forall i, j :: 0 <= i < j < |log| && log[j].at - log[i].at < QUIET ==> log[i].service != log[j].service)
    && (forall i, j :: 0 <= i <= j < |log| && log[j].at - log[i].at < QUIET ==> j - i + 1 <= MAX_REFUSED)
  }

  /** What the table remembers of the log. */
  ghost predicate Remembers(refused: map<string, int>, log: seq<Effect>, now: int) {
    && |refused| <= MAX_REFUSED
    && (forall i :: 0 <= i < |log| ==> log[i].Refusal? && log[i].at <= now)
    && (forall i :: 0 <= i < |log| && now - log[i].at < QUIET ==>
          log[i].service in refused && refused[log[i].service] == log[i].at)
    && (forall n :: n in refused ==> Refusal(n, refused[n]) in log)
  }

  lemma {:induction false} DistinctFit(log: seq<Effect>, i: nat, names: set<string>)
    requires i <= |log| && Timed(log)
    requires forall t :: i <= t < |log| ==> log[t].service in names
    requires forall t, u :: i <= t < u < |log| ==> log[t].service != log[u].service
    ensures |log| - i <= |names|
    decreases |log| - i
  {
    if i < |log| {
      DistinctFit(log, i + 1, names - {log[i].service});
    }
  }

  lemma FreshRemembers(refused: map<string, int>, log: seq<Effect>, from: int, now: int)
    requires from <= now && Remembers(refused, log, from)
    ensures Remembers(Fresh(refused, now), log, now)
  {
    var kept := Fresh(refused, now);
    assert kept.Keys <= refused.Keys;
    SubsetSize(kept.Keys, refused.Keys);
  }

  lemma {:induction false} SubsetSize(a: set<string>, b: set<string>)
    requires a <= b
    ensures |a| <= |b|
  {
    if a != {} {
      var x :| x in a;
      SubsetSize(a - {x}, b - {x});
    }
  }

  /** A new name at now, with room in the table, keeps the log sparse. */
  lemma LogGrows(kept: map<string, int>, log: seq<Effect>, s: string, now: int)
    requires Sparse(log) && Remembers(kept, log, now) && s !in kept && |kept| < MAX_REFUSED
    ensures Sparse(log + [Refusal(s, now)])
  {
    var n, log' := |log|, log + [Refusal(s, now)];
    assert Timed(log');
    forall i | 0 <= i < n && now - log[i].at < QUIET
      ensures log[i].service != s && n - i + 1 <= MAX_REFUSED
    {
      RecentFit(kept, log, now, i);
    }
  }

  lemma RecentFit(kept: map<string, int>, log: seq<Effect>, now: int, i: nat)
    requires Sparse(log) && Remembers(kept, log, now) && i < |log| && now - log[i].at < QUIET
    ensures |log| - i <= |kept|
  {
    forall t | i <= t < |log|
      ensures log[t].service in kept.Keys && now - log[t].at < QUIET
    {
      assert log[i].at <= log[t].at;
    }
    DistinctFit(log, i, kept.Keys);
  }

  lemma TableGrows(kept: map<string, int>, log: seq<Effect>, s: string, now: int)
    requires Remembers(kept, log, now) && s !in kept && |kept| < MAX_REFUSED
    ensures Remembers(kept[s := now], log + [Refusal(s, now)], now)
  {
    var kept', log' := kept[s := now], log + [Refusal(s, now)];
    assert kept'.Keys == kept.Keys + {s};
    assert log'[|log|] == Refusal(s, now) && forall x :: x in log ==> x in log';
  }

  ghost function Logged(log: seq<Effect>, x: Effect): seq<Effect> {
    if x.Refusal? then log + [x] else log
  }

  lemma LogStep(st: State, log: seq<Effect>, from: int, s: string, now: int)
    requires from <= now && Sparse(log) && Remembers(st.refused, log, from)
    ensures var (st', x) := Refused(st, s, now);
            Sparse(Logged(log, x)) && Remembers(st'.refused, Logged(log, x), now)
  {
    FreshRemembers(st.refused, log, from, now);
    var kept := Fresh(st.refused, now);
    if s !in kept && |kept| < MAX_REFUSED {
      LogGrows(kept, log, s, now);
      TableGrows(kept, log, s, now);
    }
  }

  function Now(e: Event, from: int): int {
    if e.Alert? then e.at else from
  }

  function NowAfter(es: seq<Event>, from: int): int
    decreases |es|
  {
    if es == [] then from else NowAfter(es[1..], Now(es[0], from))
  }

  lemma EventKeepsLog(cfg: Config, st: State, e: Event, log: seq<Effect>, from: int)
    requires from <= Now(e, from) && Sparse(log) && Remembers(st.refused, log, from)
    ensures var (st', x) := Step(cfg, st, e);
            Sparse(Logged(log, x)) && Remembers(st'.refused, Logged(log, x), Now(e, from))
  {
    if e.Alert? && e.service !in cfg.noUnit && e.service !in cfg.units {
      LogStep(st, log, from, e.service, e.at);
    }
  }

  lemma RefusalsCons(log: seq<Effect>, x: Effect, out: seq<Effect>, rest: seq<Effect>)
    requires out == [x] + rest
    ensures log + Refusals(out) == Logged(log, x) + Refusals(rest)
  {
    assert out[1..] == rest;
  }

  lemma {:induction false} LogFrom(cfg: Config, st: State, es: seq<Event>, log: seq<Effect>, from: int)
    requires Ordered(es, from) && Sparse(log) && Remembers(st.refused, log, from)
    ensures Sparse(log + Refusals(Run(cfg, st, es)))
    ensures Remembers(Final(cfg, st, es).refused, log + Refusals(Run(cfg, st, es)), NowAfter(es, from))
    decreases |es|
  {
    if es == [] {
      assert log + [] == log;
    } else {
      var (st', x) := Step(cfg, st, es[0]);
      var rest := Run(cfg, st', es[1..]);
      EventKeepsLog(cfg, st, es[0], log, from);
      LogFrom(cfg, st', es[1..], Logged(log, x), Now(es[0], from));
      RefusalsCons(log, x, Run(cfg, st, es), rest);
    }
  }

  lemma TableAt(cfg: Config, counts: map<string, int>, es: seq<Event>, from: int)
    requires Ordered(es, from)
    ensures var st := State(counts, map[]);
            Remembers(Final(cfg, st, es).refused, Refusals(Run(cfg, st, es)), NowAfter(es, from))
  {
    var out := Run(cfg, State(counts, map[]), es);
    LogFrom(cfg, State(counts, map[]), es, [], from);
    assert [] + Refusals(out) == Refusals(out);
  }

  /** In every run of alerts and recoveries on a clock that does not go back. */
  lemma RefusalLogBounded(cfg: Config, counts: map<string, int>, es: seq<Event>, from: int)
    requires Ordered(es, from)
    ensures Sparse(Refusals(Run(cfg, State(counts, map[]), es)))
    ensures |Final(cfg, State(counts, map[]), es).refused| <= MAX_REFUSED
  {
    var out := Run(cfg, State(counts, map[]), es);
    LogFrom(cfg, State(counts, map[]), es, [], from);
    assert [] + Refusals(out) == Refusals(out);
  }

  /** The names refused among these effects less than QUIET before now. */
  function Recent(out: seq<Effect>, now: int): set<string> {
    set x | x in out && x.Refusal? && now - x.at < QUIET :: x.service
  }

  lemma {:induction false} RefusalsAre(out: seq<Effect>, x: Effect)
    ensures x in Refusals(out) <==> x in out && x.Refusal?
  {
    if out != [] {
      RefusalsAre(out[1..], x);
      assert x in out <==> x == out[0] || x in out[1..];
    }
  }

  lemma SilenceAt(st: State, out: seq<Effect>, from: int, s: string, now: int)
    requires from <= now && Remembers(st.refused, Refusals(out), from)
    ensures Refused(st, s, now).1 == Silence <==> s in Recent(out, now) || |Recent(out, now)| >= MAX_REFUSED
  {
    var log := Refusals(out);
    FreshRemembers(st.refused, log, from, now);
    var kept := Fresh(st.refused, now);
    forall n
      ensures n in kept.Keys <==> n in Recent(out, now)
    {
      if n in kept {
        RefusalsAre(out, Refusal(n, kept[n]));
      }
      if n in Recent(out, now) {
        var x :| x in out && x.Refusal? && now - x.at < QUIET && x.service == n;
        RefusalsAre(out, x);
        var i :| 0 <= i < |log| && log[i] == x;
      }
    }
    assert kept.Keys == Recent(out, now);
  }

  lemma {:induction false} OrderedSplit(es: seq<Event>, from: int, i: nat)
    requires Ordered(es, from) && i < |es|
    ensures Ordered(es[..i], from) && (es[i].Alert? ==> NowAfter(es[..i], from) <= es[i].at)
    decreases |es|
  {
    if i > 0 {
      OrderedSplit(es[1..], Now(es[0], from), i - 1);
      assert es[..i][1..] == es[1..][..i - 1];
    }
  }

  /** In every run silence about a name this node does not watch is never arbitrary: exactly when the name was
      refused within the hour, or MAX_REFUSED names were. */
  lemma SilenceJustified(cfg: Config, counts: map<string, int>, es: seq<Event>, from: int, i: nat)
    requires Ordered(es, from) && i < |es| && es[i].Alert?
    requires es[i].service !in cfg.noUnit && es[i].service !in cfg.units
    ensures var out := Run(cfg, State(counts, map[]), es);
            var recent := Recent(out[..i], es[i].at);
            out[i] == Silence <==> es[i].service in recent || |recent| >= MAX_REFUSED
  {
    var st := State(counts, map[]);
    OrderedSplit(es, from, i);
    TableAt(cfg, counts, es[..i], from);
    RunAt(cfg, st, es, i);
    SilenceAt(Final(cfg, st, es[..i]), Run(cfg, st, es[..i]), NowAfter(es[..i], from), es[i].service, es[i].at);
  }

  // ---- The restarter itself ----

  ghost predicate HasUnit(targets: seq<Target>, s: string) {
    exists i :: 0 <= i < |targets| && targets[i].name == s && !targets[i].exec
  }

  /** The table that is the only way a name reaches systemctl. */
  method RestartUnits(targets: seq<Target>) returns (units: map<string, string>)
    ensures forall s :: s in units <==> HasUnit(targets, s)
    ensures forall s :: s in units ==> units[s] == "unheaded-" + s
  {
    units := map[];
    for i := 0 to |targets|
      invariant forall s :: s in units <==> HasUnit(targets[..i], s)
      invariant forall s :: s in units ==> units[s] == "unheaded-" + s
    {
      var t := targets[i];
      ghost var seen := targets[..i];
      assert targets[..i + 1] == seen + [t];
      assert forall s :: HasUnit(seen + [t], s) <==> HasUnit(seen, s) || (t.name == s && !t.exec) by {
        assert (seen + [t])[i] == t && forall j :: 0 <= j < i ==> (seen + [t])[j] == seen[j];
      }
      if !t.exec {
        units := units[t.name := "unheaded-" + t.name];
      }
    }
    assert targets[..|targets|] == targets;
  }

  class Daemon {
    const cfg: Config
    var counts: map<string, int>
    var refused: map<string, int>

    constructor (cfg: Config)
      ensures this.cfg == cfg && St() == State(map[], map[])
    {
      this.cfg, counts, refused := cfg, map[], map[];
    }

    function St(): State
      reads this
    {
      State(counts, refused)
    }

    /** Deletes the names that went quiet while ranging over the table. */
    method Purge(now: int)
      modifies this`refused
      ensures refused == Fresh(old(refused), now)
    {
      var todo := refused.Keys;
      while todo != {}
        invariant todo <= refused.Keys <= old(refused).Keys
        invariant forall n :: n in refused ==> refused[n] == old(refused)[n]
        invariant forall n :: n in old(refused) && n !in todo ==> (n in refused <==> now - old(refused)[n] < QUIET)
      {
        var name :| name in todo;
        todo := todo - {name};
        if now - refused[name] >= QUIET {
          refused := refused - {name};
        }
      }
    }

    method Refuse(s: string, now: int) returns (x: Effect)
      modifies this`refused
      ensures (St(), x) == Refused(old(St()), s, now)
    {
      Purge(now);
      if s in refused || |refused| >= MAX_REFUSED {
        return Silence;
      }
      refused := refused[s := now];
      return Refusal(s, now);
    }

    method OnAlert(s: string, now: int) returns (x: Effect)
      modifies this
      ensures (St(), x) == Step(cfg, old(St()), Alert(s, now))
    {
      var n := if s in counts then counts[s] else 0;
      if s in cfg.noUnit {
        if n == 0 {
          counts := counts[s := -1];
          return NeedsHuman(s);
        }
        return Silence;
      }
      if s !in cfg.units {
        x := Refuse(s, now);
        return;
      }
      if !cfg.enabled {
        if n == 0 {
          counts := counts[s := -1];
          return NeedsHuman(s);
        }
        return Silence;
      }
      if n >= cfg.maxRestarts {
        if n == cfg.maxRestarts {
          counts := counts[s := n + 1];
          return Escalate(s);
        }
        return Silence;
      }
      counts := counts[s := n + 1];
      return Restart(s, cfg.units[s]);
    }

    method OnRecovered(s: string)
      modifies this`counts
      ensures St() == Step(cfg, old(St()), Recovered(s)).0
    {
      counts := counts - {s};
    }
  }
}
