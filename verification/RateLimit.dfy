/** The kanban app's per-client rate limiter: an integer token bucket per address, refilled by
    truncating arithmetic, and a cleanup that forgets addresses idle for more than ten minutes.
    Times are integer nanoseconds. */
module RateLimit {
  const MINUTE: int := 60_000_000_000
  const IDLE: int := 10 * MINUTE

  datatype Config = Config(rate: int, burst: int)
  datatype Bucket = Bucket(tokens: int, lastRefill: int)

  type Buckets = map<string, Bucket>

  // ---- Specification of one call ----

  /** Go's conversion to int truncates toward zero; Dafny's division does not. */
  function Truncate(a: int, b: int): (q: int)
    requires b > 0
  {
    if a >= 0 then a / b else -(-a / b)
  }

  function TokensFor(elapsed: int, rate: int): int {
    Truncate(elapsed * rate, MINUTE)
  }

  function Refilled(cfg: Config, b: Bucket, now: int): Bucket {
    var add := TokensFor(now - b.lastRefill, cfg.rate);
    if add <= 0 then b
    else Bucket(if b.tokens + add > cfg.burst then cfg.burst else b.tokens + add, now)
  }

  function Taken(cfg: Config, b: Bucket, now: int): (Bucket, bool) {
    var r := Refilled(cfg, b, now);
    if r.tokens > 0 then (r.(tokens := r.tokens - 1), true) else (r, false)
  }

  function Admit(cfg: Config, m: Buckets, ip: string, now: int): (Buckets, bool) {
    if ip == "" then (m, false)
    else
      var b := if ip in m then m[ip] else Bucket(cfg.burst, now);
      var (b', ok) := Taken(cfg, b, now);
      (m[ip := b'], ok)
  }

  function Forgotten(m: Buckets, now: int): Buckets {
    map ip | ip in m && now - m[ip].lastRefill <= IDLE :: m[ip]
  }

  // ---- Runs ----

  datatype Event = Allow(ip: string, at: int) | Cleanup(at: int)
  datatype Request = Request(ip: string, at: int)

  ghost predicate Ordered(es: seq<Event>, from: int) {
    es == [] || (from <= es[0].at && Ordered(es[1..], es[0].at))
  }

  ghost predicate InOrder(rs: seq<Request>, from: int) {
    rs == [] || (from <= rs[0].at && InOrder(rs[1..], rs[0].at))
  }

  /** What the limiter answers to the Allow calls of a run. */
  function Answers(cfg: Config, m: Buckets, es: seq<Event>): seq<bool>
    decreases |es|
  {
    if es == [] then []
    else match es[0]
      case Allow(ip, at) =>
        var (m', ok) := Admit(cfg, m, ip, at);
        [ok] + Answers(cfg, m', es[1..])
      case Cleanup(at) => Answers(cfg, Forgotten(m, at), es[1..])
  }

  function Requests(es: seq<Event>): seq<Request> {
    if es == [] then []
    else match es[0]
      case Allow(ip, at) => [Request(ip, at)] + Requests(es[1..])
      case Cleanup(_) => Requests(es[1..])
  }

  /** The reference limiter: it never forgets a client. */
  function Remembering(cfg: Config, m: Buckets, rs: seq<Request>): (answers: seq<bool>)
    ensures |answers| == |rs|
    decreases |rs|
  {
    if rs == [] then []
    else
      var (m', ok) := Admit(cfg, m, rs[0].ip, rs[0].at);
      [ok] + Remembering(cfg, m', rs[1..])
  }

  // ---- Forgetting idle clients is invisible, exactly when the idle time refills the burst ----

  /** The guard a caller can check: the least refill a forgotten bucket has earned covers the burst. */
  predicate IdleRefillsBurst(cfg: Config) {
    cfg.burst <= 0 || TokensFor(IDLE + 1, cfg.rate) >= cfg.burst
  }

  /** The documented reading of the guard: ten minutes of refill cover the burst. */
  lemma TenMinutesCover(cfg: Config)
    ensures 10 * cfg.rate >= cfg.burst ==> IdleRefillsBurst(cfg)
    ensures 0 <= cfg.rate < MINUTE ==> (IdleRefillsBurst(cfg) <==> cfg.burst <= 0 || 10 * cfg.rate >= cfg.burst)
  {
    if cfg.rate >= 0 {
      assert (IDLE + 1) * cfg.rate == MINUTE * (10 * cfg.rate) + cfg.rate;
      DivideSum(10 * cfg.rate, cfg.rate);
    }
  }

  lemma DivideSum(k: int, r: int)
    requires r >= 0
    ensures (MINUTE * k + r) / MINUTE == k + r / MINUTE
  {
  }

  lemma RefillGrows(e: int, e': int, rate: int)
    requires 0 <= e <= e'
    ensures rate >= 0 ==> 0 <= TokensFor(e, rate) <= TokensFor(e', rate)
    ensures rate < 0 ==> TokensFor(e, rate) <= 0
  {
    if rate >= 0 {
      assert 0 <= e * rate <= e' * rate;
      DivideMonotone(e * rate, e' * rate);
    } else {
      assert e * rate <= 0;
    }
  }

  lemma DivideMonotone(a: int, b: int)
    requires 0 <= a <= b
    ensures 0 <= a / MINUTE <= b / MINUTE
  {
  }

  /** Between calls a bucket holds at most burst - 1 tokens (and none is ever owed). */
  ghost predicate Settled(cfg: Config, b: Bucket) {
    if cfg.burst > 0 then 0 <= b.tokens <= cfg.burst - 1 else b.tokens == cfg.burst
  }

  ghost predicate AllSettled(cfg: Config, m: Buckets, now: int) {
    forall ip :: ip in m ==> Settled(cfg, m[ip]) && m[ip].lastRefill <= now
  }

  lemma AdmitSettles(cfg: Config, m: Buckets, ip: string, from: int, now: int)
    requires AllSettled(cfg, m, from) && from <= now
    ensures AllSettled(cfg, Admit(cfg, m, ip, now).0, now)
    ensures cfg.burst <= 0 ==> !Admit(cfg, m, ip, now).1
  {
  }

  /** The cleaning limiter c against the remembering one f: what c lost, f holds but has full credit for. */
  ghost predicate Agree(cfg: Config, c: Buckets, f: Buckets, now: int) {
    && AllSettled(cfg, f, now)
    && (forall ip :: ip in c ==> ip in f && c[ip] == f[ip])
    && (forall ip :: ip in f && ip !in c ==> now - f[ip].lastRefill > IDLE)
  }

  lemma FullAfterIdle(cfg: Config, b: Bucket, now: int)
    requires IdleRefillsBurst(cfg) && Settled(cfg, b)
    requires now - b.lastRefill > IDLE
    ensures Taken(cfg, b, now).1 == Taken(cfg, Bucket(cfg.burst, now), now).1
    ensures cfg.burst > 0 ==> Taken(cfg, b, now) == Taken(cfg, Bucket(cfg.burst, now), now)
  {
    RefillGrows(IDLE + 1, now - b.lastRefill, cfg.rate);
  }

  lemma AdmitAgrees(cfg: Config, c: Buckets, f: Buckets, ip: string, from: int, now: int)
    requires IdleRefillsBurst(cfg) && cfg.burst > 0 && Agree(cfg, c, f, from) && from <= now
    ensures Admit(cfg, c, ip, now).1 == Admit(cfg, f, ip, now).1
    ensures Agree(cfg, Admit(cfg, c, ip, now).0, Admit(cfg, f, ip, now).0, now)
  {
    AdmitSettles(cfg, f, ip, from, now);
    if ip in f && ip !in c {
      FullAfterIdle(cfg, f[ip], now);
    }
  }

  lemma {:induction false} AnswersAgree(cfg: Config, c: Buckets, f: Buckets, es: seq<Event>, from: int)
    requires IdleRefillsBurst(cfg) && cfg.burst > 0 && Agree(cfg, c, f, from) && Ordered(es, from)
    ensures Answers(cfg, c, es) == Remembering(cfg, f, Requests(es))
    decreases |es|
  {
    if es != [] {
      match es[0]
      case Allow(ip, at) =>
        AdmitAgrees(cfg, c, f, ip, from, at);
        AnswersAgree(cfg, Admit(cfg, c, ip, at).0, Admit(cfg, f, ip, at).0, es[1..], at);
        assert Requests(es)[1..] == Requests(es[1..]);
      case Cleanup(at) =>
        AnswersAgree(cfg, Forgotten(c, at), f, es[1..], at);
    }
  }

  /** A limiter with no burst denies everything, forgetful or not. */
  lemma {:induction false} AllDenied(cfg: Config, c: Buckets, f: Buckets, es: seq<Event>, from: int)
    requires cfg.burst <= 0 && AllSettled(cfg, c, from) && AllSettled(cfg, f, from) && Ordered(es, from)
    ensures Answers(cfg, c, es) == Remembering(cfg, f, Requests(es))
    decreases |es|
  {
    if es != [] {
      match es[0]
      case Allow(ip, at) =>
        AdmitSettles(cfg, c, ip, from, at);
        AdmitSettles(cfg, f, ip, from, at);
        AllDenied(cfg, Admit(cfg, c, ip, at).0, Admit(cfg, f, ip, at).0, es[1..], at);
        assert Requests(es)[1..] == Requests(es[1..]);
      case Cleanup(at) =>
        AllDenied(cfg, Forgotten(c, at), f, es[1..], at);
    }
  }

  ghost predicate Invisible(cfg: Config, es: seq<Event>) {
    Answers(cfg, map[], es) == Remembering(cfg, map[], Requests(es))
  }

  // ---- How many requests a window can admit ----

  /** Admitted requests of ip among rs (answered by answers) with a <= at <= z. */
  function Admitted(rs: seq<Request>, answers: seq<bool>, ip: string, a: int, z: int): nat
    requires |rs| == |answers|
  {
    if rs == [] then 0
    else
      (if answers[0] && rs[0].ip == ip && a <= rs[0].at <= z then 1 else 0) + Admitted(rs[1..], answers[1..], ip, a, z)
  }

  function WindowCap(cfg: Config, length: int): int
    requires length >= 0
  {
    if cfg.burst <= 0 then 0
    else if cfg.rate <= 0 then cfg.burst
    else cfg.burst + cfg.rate * length / MINUTE
  }

  function Rate(cfg: Config): nat {
    if cfg.rate > 0 then cfg.rate else 0
  }

  /** A refill is paid for by the time since the previous one, truncation included. */
  lemma RefillPaid(cfg: Config, b: Bucket, now: int)
    requires now >= b.lastRefill
    ensures var r := Refilled(cfg, b, now);
            && b.lastRefill <= r.lastRefill
            && MINUTE * r.tokens <= MINUTE * b.tokens + Rate(cfg) * (r.lastRefill - b.lastRefill)
            && (r != b ==> r.lastRefill == now && r.tokens <= cfg.burst)
            && (r == b ==> Rate(cfg) * (now - b.lastRefill) < MINUTE)
  {
    var e := now - b.lastRefill;
    if cfg.rate > 0 {
      assert e * cfg.rate >= 0;
      DivideBounds(e * cfg.rate);
    } else {
      assert e * cfg.rate <= 0;
    }
  }

  lemma DivideBounds(x: int)
    requires x >= 0
    ensures MINUTE * (x / MINUTE) <= x < MINUTE * (x / MINUTE) + MINUTE
  {
  }

  lemma {:induction false} NothingPastWindow(cfg: Config, m: Buckets, rs: seq<Request>, ip: string,
                                             a: int, z: int, from: int)
    requires InOrder(rs, from) && from > z
    ensures Admitted(rs, Remembering(cfg, m, rs), ip, a, z) == 0
    decreases |rs|
  {
    if rs != [] {
      NothingPastWindow(cfg, Admit(cfg, m, rs[0].ip, rs[0].at).0, rs[1..], ip, a, z, rs[0].at);
    }
  }

  /** From a bucket with t tokens, at most t plus the refill until z get through. */
  lemma {:induction false} SpendDown(cfg: Config, m: Buckets, rs: seq<Request>, ip: string, a: int, z: int, from: int)
    requires cfg.burst > 0 && ip in m && m[ip].tokens >= 0 && m[ip].lastRefill <= from <= z
    requires InOrder(rs, from)
    ensures MINUTE * Admitted(rs, Remembering(cfg, m, rs), ip, a, z)
         <= MINUTE * m[ip].tokens + Rate(cfg) * (z - m[ip].lastRefill)
    decreases |rs|
  {
    var b := m[ip];
    assert Rate(cfg) * (z - b.lastRefill) >= 0;
    if rs != [] {
      var at := rs[0].at;
      var (m', ok) := Admit(cfg, m, rs[0].ip, at);
      var left := Admitted(rs[1..], Remembering(cfg, m', rs[1..]), ip, a, z);
      if at > z {
        NothingPastWindow(cfg, m', rs[1..], ip, a, z, at);
      } else {
        if rs[0].ip == ip && ip != "" {
          RefillPaid(cfg, b, at);
          var r := Refilled(cfg, b, at);
          RateSplit(cfg, b.lastRefill, r.lastRefill, z);
        }
        SpendDown(cfg, m', rs[1..], ip, a, z, at);
      }
    }
  }

  lemma RateSplit(cfg: Config, x: int, y: int, z: int)
    ensures Rate(cfg) * (z - x) == Rate(cfg) * (y - x) + Rate(cfg) * (z - y)
  {
  }

  /** What a bucket can have to spend at its first call inside [a, z]. */
  lemma FirstCredit(cfg: Config, b: Bucket, at: int, a: int, z: int)
    requires cfg.burst > 0 && b.lastRefill <= at && a <= at <= z
    requires b.tokens <= cfg.burst - 1 || b == Bucket(cfg.burst, at)
    ensures var r := Refilled(cfg, b, at);
            MINUTE * r.tokens + Rate(cfg) * (z - r.lastRefill) <= MINUTE * cfg.burst + Rate(cfg) * (z - a)
  {
    RefillPaid(cfg, b, at);
    RateSplit(cfg, a, at, z);
    RateSplit(cfg, b.lastRefill, at, z);
    assert Rate(cfg) * (at - a) >= 0;
  }

  lemma FirstInWindow(cfg: Config, m: Buckets, rs: seq<Request>, ip: string, a: int, z: int, from: int)
    requires cfg.burst > 0 && AllSettled(cfg, m, from) && InOrder(rs, from)
    requires rs != [] && ip != "" && rs[0].ip == ip && a <= rs[0].at <= z
    ensures MINUTE * Admitted(rs, Remembering(cfg, m, rs), ip, a, z) <= MINUTE * cfg.burst + Rate(cfg) * (z - a)
  {
    var at := rs[0].at;
    var m' := Admit(cfg, m, ip, at).0;
    var b := if ip in m then m[ip] else Bucket(cfg.burst, at);
    FirstCredit(cfg, b, at, a, z);
    RefillPaid(cfg, b, at);
    AdmitSettles(cfg, m, ip, from, at);
    SpendDown(cfg, m', rs[1..], ip, a, z, at);
  }

  lemma {:induction false} WindowFrom(cfg: Config, m: Buckets, rs: seq<Request>, ip: string, a: int, z: int, from: int)
    requires AllSettled(cfg, m, from) && InOrder(rs, from) && a <= z
    ensures cfg.burst <= 0 ==> Admitted(rs, Remembering(cfg, m, rs), ip, a, z) == 0
    ensures cfg.burst > 0 ==>
              MINUTE * Admitted(rs, Remembering(cfg, m, rs), ip, a, z) <= MINUTE * cfg.burst + Rate(cfg) * (z - a)
    decreases |rs|
  {
    assert Rate(cfg) * (z - a) >= 0;
    if rs != [] {
      var at := rs[0].at;
      var m' := Admit(cfg, m, rs[0].ip, at).0;
      AdmitSettles(cfg, m, rs[0].ip, from, at);
      if cfg.burst > 0 && ip != "" && rs[0].ip == ip && a <= at <= z {
        FirstInWindow(cfg, m, rs, ip, a, z, from);
      } else {
        WindowFrom(cfg, m', rs[1..], ip, a, z, at);
      }
    }
  }

  lemma {:induction false} RequestsInOrder(es: seq<Event>, from: int)
    requires Ordered(es, from)
    ensures InOrder(Requests(es), from)
    decreases |es|
  {
    if es != [] {
      RequestsInOrder(es[1..], es[0].at);
      match es[0]
      case Allow(ip, at) => assert Requests(es)[1..] == Requests(es[1..]);
      case Cleanup(at) => InOrderEarlier(Requests(es[1..]), from, at);
    }
  }

  lemma InOrderEarlier(rs: seq<Request>, from: int, at: int)
    requires from <= at && InOrder(rs, at)
    ensures InOrder(rs, from)
  {
  }

  lemma FloorOf(n: int, k: int, x: int)
    requires x >= 0 && MINUTE * n <= MINUTE * k + x
    ensures n <= k + x / MINUTE
  {
  }

  // ---- The failing side: a run that shows the eviction whenever the guard does not hold ----

  function Repeat(e: Event, n: nat): (es: seq<Event>)
    ensures |es| == n
    ensures forall i :: 0 <= i < n ==> es[i] == e
  {
    if n == 0 then [] else [e] + Repeat(e, n - 1)
  }

  /** Spend the burst, wait out the idle time, let cleanup run, then spend a burst again. */
  function TwoBursts(cfg: Config): seq<Event>
    requires cfg.burst > 0
  {
    Repeat(Allow("a", 0), cfg.burst) + ([Cleanup(IDLE + 1)] + Repeat(Allow("a", IDLE + 1), cfg.burst))
  }

  lemma {:induction false} OrderedRepeat(e: Event, n: nat, rest: seq<Event>)
    requires Ordered(rest, e.at)
    ensures Ordered(Repeat(e, n) + rest, e.at)
  {
    if n > 0 {
      OrderedRepeat(e, n - 1, rest);
      assert (Repeat(e, n) + rest)[1..] == Repeat(e, n - 1) + rest;
    } else {
      assert Repeat(e, 0) + rest == rest;
    }
  }

  lemma AdmitAtOnce(cfg: Config, m: Buckets, ip: string, at: int)
    requires ip != "" && ip in m && m[ip].lastRefill == at && 1 <= m[ip].tokens
    ensures Admit(cfg, m, ip, at) == (m[ip := Bucket(m[ip].tokens - 1, at)], true)
  {
  }

  lemma AnswersNext(cfg: Config, m: Buckets, ip: string, at: int, es: seq<Event>)
    ensures Answers(cfg, m, [Allow(ip, at)] + es)
         == [Admit(cfg, m, ip, at).1] + Answers(cfg, Admit(cfg, m, ip, at).0, es)
  {
    assert ([Allow(ip, at)] + es)[1..] == es;
  }

  lemma RepeatNext(e: Event, n: nat, rest: seq<Event>)
    requires n > 0
    ensures Repeat(e, n) + rest == [e] + (Repeat(e, n - 1) + rest)
  {
  }

  lemma TruesNext(n: nat, rest: seq<bool>)
    requires n > 0
    ensures [true] + (seq(n - 1, i => true) + rest) == seq(n, i => true) + rest
  {
  }

  /** n calls in one instant are all admitted by a bucket of n tokens. */
  lemma {:induction false} SpendAtOnce(cfg: Config, m: Buckets, ip: string, at: int, n: nat, rest: seq<Event>)
    requires ip != "" && ip in m && m[ip].lastRefill == at && n <= m[ip].tokens
    ensures Answers(cfg, m, Repeat(Allow(ip, at), n) + rest)
         == seq(n, i => true) + Answers(cfg, m[ip := Bucket(m[ip].tokens - n, at)], rest)
    decreases n
  {
    if n == 0 {
      assert Repeat(Allow(ip, at), 0) + rest == rest;
      assert m[ip := Bucket(m[ip].tokens, at)] == m;
    } else {
      var m1, m2 := m[ip := Bucket(m[ip].tokens - 1, at)], m[ip := Bucket(m[ip].tokens - n, at)];
      AdmitAtOnce(cfg, m, ip, at);
      RepeatNext(Allow(ip, at), n, rest);
      AnswersNext(cfg, m, ip, at, Repeat(Allow(ip, at), n - 1) + rest);
      SpendAtOnce(cfg, m1, ip, at, n - 1, rest);
      assert m1[ip := Bucket(m1[ip].tokens - (n - 1), at)] == m2;
      TruesNext(n, Answers(cfg, m2, rest));
    }
  }

  lemma FreshBurst(cfg: Config, at: int, rest: seq<Event>)
    requires cfg.burst > 0
    ensures Answers(cfg, map[], Repeat(Allow("a", at), cfg.burst) + rest)
         == seq(cfg.burst, i => true) + Answers(cfg, map["a" := Bucket(0, at)], rest)
  {
    var es := Repeat(Allow("a", at), cfg.burst) + rest;
    var m: Buckets := map["a" := Bucket(cfg.burst, at)];
    var none: Buckets := map[];
    assert es[0] == Allow("a", at);
    assert none["a" := Taken(cfg, m["a"], at).0] == m["a" := Taken(cfg, m["a"], at).0];
    assert Answers(cfg, none, es) == Answers(cfg, m, es);
    SpendAtOnce(cfg, m, "a", at, cfg.burst, rest);
    assert m["a" := Bucket(0, at)] == map["a" := Bucket(0, at)];
  }

  lemma {:induction false} RequestsOfConcat(xs: seq<Event>, ys: seq<Event>)
    ensures Requests(xs + ys) == Requests(xs) + Requests(ys)
  {
    if xs == [] {
      assert xs + ys == ys;
    } else {
      assert (xs + ys)[1..] == xs[1..] + ys;
      RequestsOfConcat(xs[1..], ys);
    }
  }

  lemma {:induction false} RequestsOfRepeat(ip: string, at: int, n: nat)
    ensures Requests(Repeat(Allow(ip, at), n)) == seq(n, i => Request(ip, at))
  {
    if n > 0 {
      RequestsOfRepeat(ip, at, n - 1);
    }
  }

  lemma {:induction false} AllCounted(rs: seq<Request>, ip: string, a: int, z: int)
    requires forall i :: 0 <= i < |rs| ==> rs[i].ip == ip && a <= rs[i].at <= z
    ensures Admitted(rs, seq(|rs|, i => true), ip, a, z) == |rs|
  {
    if rs != [] {
      AllCounted(rs[1..], ip, a, z);
      assert seq(|rs|, i => true)[1..] == seq(|rs[1..]|, i => true);
    }
  }

  lemma BothBurstsAdmitted(cfg: Config)
    requires cfg.burst > 0
    ensures Answers(cfg, map[], TwoBursts(cfg)) == seq(2 * cfg.burst, i => true)
  {
    var late := IDLE + 1;
    var again := Repeat(Allow("a", late), cfg.burst);
    var rest := [Cleanup(late)] + again;
    assert again == again + [] && rest[1..] == again;
    FreshBurst(cfg, 0, rest);
    FreshBurst(cfg, late, []);
    var spent: Buckets := map["a" := Bucket(0, 0)];
    assert Forgotten(spent, late) == map[];
    assert Answers(cfg, spent, rest) == Answers(cfg, map[], again) == seq(cfg.burst, i => true);
  }

  lemma BothBurstsCounted(cfg: Config)
    requires cfg.burst > 0
    ensures var rs := Requests(TwoBursts(cfg));
            |rs| == 2 * cfg.burst && Admitted(rs, seq(|rs|, i => true), "a", 0, IDLE + 1) == |rs|
  {
    var first, again := Repeat(Allow("a", 0), cfg.burst), Repeat(Allow("a", IDLE + 1), cfg.burst);
    RequestsOfConcat(first, [Cleanup(IDLE + 1)] + again);
    assert ([Cleanup(IDLE + 1)] + again)[1..] == again;
    RequestsOfRepeat("a", 0, cfg.burst);
    RequestsOfRepeat("a", IDLE + 1, cfg.burst);
    AllCounted(Requests(TwoBursts(cfg)), "a", 0, IDLE + 1);
  }

  lemma TwoBurstsOrdered(cfg: Config)
    requires cfg.burst > 0
    ensures Ordered(TwoBursts(cfg), 0)
  {
    var again := Repeat(Allow("a", IDLE + 1), cfg.burst);
    var rest := [Cleanup(IDLE + 1)] + again;
    assert again == again + [] && rest[1..] == again;
    OrderedRepeat(Allow("a", IDLE + 1), cfg.burst, []);
    OrderedRepeat(Allow("a", 0), cfg.burst, rest);
  }

  /** Forgetful, the limiter admits both bursts whole; remembering, the window bound forbids it. */
  lemma ShortRefillShows(cfg: Config)
    requires !IdleRefillsBurst(cfg)
    ensures Ordered(TwoBursts(cfg), 0) && !Invisible(cfg, TwoBursts(cfg))
  {
    BothBurstsAdmitted(cfg);
    BothBurstsCounted(cfg);
    TwoBurstsOrdered(cfg);
    RequestsInOrder(TwoBursts(cfg), 0);
    WindowFrom(cfg, map[], Requests(TwoBursts(cfg)), "a", 0, IDLE + 1, 0);
    if Invisible(cfg, TwoBursts(cfg)) {
      FloorOf(2 * cfg.burst, cfg.burst, Rate(cfg) * (IDLE + 1));
      assert false;
    }
  }

  /** Cleanup at arbitrary moments changes no answer, for every run, exactly under the guard. */
  lemma ForgettingIsInvisible(cfg: Config)
    ensures (forall es :: Ordered(es, 0) ==> Invisible(cfg, es)) <==> IdleRefillsBurst(cfg)
  {
    if IdleRefillsBurst(cfg) {
      forall es | Ordered(es, 0)
        ensures Invisible(cfg, es)
      {
        if cfg.burst > 0 {
          AnswersAgree(cfg, map[], map[], es, 0);
        } else {
          AllDenied(cfg, map[], map[], es, 0);
        }
      }
    } else {
      ShortRefillShows(cfg);
    }
  }

  lemma CapIs(cfg: Config, n: int, length: int)
    requires 0 <= length && (cfg.burst <= 0 ==> n <= 0)
    requires cfg.burst > 0 ==> MINUTE * n <= MINUTE * cfg.burst + Rate(cfg) * length
    ensures n <= WindowCap(cfg, length)
  {
    if cfg.burst > 0 {
      FloorOf(n, cfg.burst, Rate(cfg) * length);
    }
  }

  /** In any window of a run of the real, forgetful limiter a client gets at most the burst plus the
      truncated refill of the window's length. */
  lemma WindowBound(cfg: Config, es: seq<Event>, ip: string, a: int, z: int)
    requires IdleRefillsBurst(cfg) && Ordered(es, 0) && a <= z
    ensures |Requests(es)| == |Answers(cfg, map[], es)|
    ensures Admitted(Requests(es), Answers(cfg, map[], es), ip, a, z) <= WindowCap(cfg, z - a)
  {
    ForgettingIsInvisible(cfg);
    assert Invisible(cfg, es);
    RequestsInOrder(es, 0);
    WindowFrom(cfg, map[], Requests(es), ip, a, z, 0);
    CapIs(cfg, Admitted(Requests(es), Answers(cfg, map[], es), ip, a, z), z - a);
  }

  ghost predicate WithinCap(cfg: Config, es: seq<Event>, ip: string, a: int, z: int)
    requires a <= z
  {
    && |Requests(es)| == |Answers(cfg, map[], es)|
    && Admitted(Requests(es), Answers(cfg, map[], es), ip, a, z) <= WindowCap(cfg, z - a)
  }

  ghost predicate Bounded(cfg: Config, es: seq<Event>) {
    forall ip, a, z | a <= z :: WithinCap(cfg, es, ip, a, z)
  }

  lemma ShortRefillExceeds(cfg: Config)
    requires !IdleRefillsBurst(cfg)
    ensures Ordered(TwoBursts(cfg), 0) && !Bounded(cfg, TwoBursts(cfg))
  {
    BothBurstsAdmitted(cfg);
    BothBurstsCounted(cfg);
    TwoBurstsOrdered(cfg);
    assert !WithinCap(cfg, TwoBursts(cfg), "a", 0, IDLE + 1);
  }

  /** The window bound holds in every run exactly under the same guard: otherwise cleanup hands out a second burst. */
  lemma BoundNeedsRefill(cfg: Config)
    ensures (forall es :: Ordered(es, 0) ==> Bounded(cfg, es)) <==> IdleRefillsBurst(cfg)
  {
    if IdleRefillsBurst(cfg) {
      forall es | Ordered(es, 0)
        ensures Bounded(cfg, es)
      {
        forall ip, a, z | a <= z
          ensures WithinCap(cfg, es, ip, a, z)
        {
          WindowBound(cfg, es, ip, a, z);
        }
      }
    } else {
      ShortRefillExceeds(cfg);
    }
  }

  // ---- What a client has earned, it gets ----

  /** Whether a token's worth of time has gone by since a bucket's last refill. */
  predicate Earned(cfg: Config, b: Bucket, at: int) {
    cfg.rate > 0 && (at - b.lastRefill) * cfg.rate >= MINUTE
  }

  /** What a client can spend at an instant: a new one the burst, any other what it has and what it earned, rounded
      down, up to the burst. */
  function Credit(cfg: Config, m: Buckets, ip: string, at: int): int {
    if ip !in m then cfg.burst
    else if !Earned(cfg, m[ip], at) then m[ip].tokens
    else Min(cfg.burst, m[ip].tokens + (at - m[ip].lastRefill) * cfg.rate / MINUTE)
  }

  function Min(a: int, b: int): int {
    if a < b then a else b
  }

  function RefilledAt(cfg: Config, m: Buckets, ip: string, at: int): int {
    if ip !in m || Earned(cfg, m[ip], at) then at else m[ip].lastRefill
  }

  lemma EarnedMeans(cfg: Config, b: Bucket, at: int)
    requires b.lastRefill <= at
    ensures TokensFor(at - b.lastRefill, cfg.rate) > 0 <==> Earned(cfg, b, at)
    ensures Earned(cfg, b, at) ==> TokensFor(at - b.lastRefill, cfg.rate) == (at - b.lastRefill) * cfg.rate / MINUTE
  {
    var x := (at - b.lastRefill) * cfg.rate;
    if cfg.rate > 0 {
      assert x >= 0;
      DivideBounds(x);
    } else {
      assert x <= 0;
      DivideBounds(-x);
    }
  }

  lemma NothingEarnedAtOnce(cfg: Config, tokens: int, at: int)
    ensures !Earned(cfg, Bucket(tokens, at), at)
  {
    assert (at - at) * cfg.rate == 0;
  }

  lemma CreditSpent(cfg: Config, m: Buckets, ip: string, at: int)
    requires ip != "" && (ip in m ==> m[ip].lastRefill <= at)
    ensures var credit := Credit(cfg, m, ip, at);
      Admit(cfg, m, ip, at) ==
      (m[ip := Bucket(if credit > 0 then credit - 1 else credit, RefilledAt(cfg, m, ip, at))], credit > 0)
  {
    var b := if ip in m then m[ip] else Bucket(cfg.burst, at);
    EarnedMeans(cfg, b, at);
    NothingEarnedAtOnce(cfg, cfg.burst, at);
  }

  /** The clock has not gone back since the client's last refill. */
  predicate Timely(m: Buckets, ip: string, at: int) {
    ip in m ==> m[ip].lastRefill <= at
  }

  lemma AdmitsByCredit(cfg: Config, m: Buckets, ip: string, at: int)
    ensures Timely(m, ip, at) ==> (Admit(cfg, m, ip, at).1 <==> ip != "" && Credit(cfg, m, ip, at) > 0)
  {
    if ip != "" && Timely(m, ip, at) {
      CreditSpent(cfg, m, ip, at);
    }
  }

  lemma CreditThen(cfg: Config, m: Buckets, ip: string, at: int)
    requires ip != "" && (ip in m ==> m[ip].lastRefill <= at)
    ensures var m', credit := Admit(cfg, m, ip, at).0, Credit(cfg, m, ip, at);
      && ip in m' && m'[ip].lastRefill <= at && RefilledAt(cfg, m', ip, at) == RefilledAt(cfg, m, ip, at)
      && Credit(cfg, m', ip, at) == if credit > 0 then credit - 1 else credit
  {
    CreditSpent(cfg, m, ip, at);
    NothingEarnedAtOnce(cfg, Admit(cfg, m, ip, at).0[ip].tokens, at);
  }

  /** n calls of one client at one instant: exactly the first ones are admitted, as many as it has credit for... */
  lemma {:induction false} AdmitsAtOnce(cfg: Config, m: Buckets, ip: string, at: int, n: nat, i: nat)
    requires ip != "" && (ip in m ==> m[ip].lastRefill <= at) && i < n
    ensures var answers := Answers(cfg, m, Repeat(Allow(ip, at), n));
      |answers| == n && (answers[i] <==> i < Credit(cfg, m, ip, at))
    decreases n
  {
    var es := Repeat(Allow(ip, at), n);
    var m' := Admit(cfg, m, ip, at).0;
    assert es[1..] == Repeat(Allow(ip, at), n - 1);
    CreditSpent(cfg, m, ip, at);
    CreditThen(cfg, m, ip, at);
    if n > 1 {
      AdmitsAtOnce(cfg, m', ip, at, n - 1, if i > 0 then i - 1 else 0);
    }
  }

  function Final(cfg: Config, m: Buckets, es: seq<Event>): Buckets
    decreases |es|
  {
    if es == [] then m
    else match es[0]
      case Allow(ip, at) => Final(cfg, Admit(cfg, m, ip, at).0, es[1..])
      case Cleanup(at) => Final(cfg, Forgotten(m, at), es[1..])
  }

  /** ...and what is left is what was not spent, counted from the last refill. */
  lemma {:induction false} SpendsAtOnce(cfg: Config, m: Buckets, ip: string, at: int, n: nat)
    requires ip != "" && (ip in m ==> m[ip].lastRefill <= at) && n > 0
    ensures var credit := Credit(cfg, m, ip, at);
      Final(cfg, m, Repeat(Allow(ip, at), n)) ==
      m[ip := Bucket(if credit <= 0 then credit else credit - Min(n, credit), RefilledAt(cfg, m, ip, at))]
    decreases n
  {
    var es := Repeat(Allow(ip, at), n);
    var m' := Admit(cfg, m, ip, at).0;
    assert es[1..] == Repeat(Allow(ip, at), n - 1);
    CreditSpent(cfg, m, ip, at);
    CreditThen(cfg, m, ip, at);
    if n > 1 {
      SpendsAtOnce(cfg, m', ip, at, n - 1);
    }
  }

  /** Calls of one client before a token's worth of time has gone by since its last refill. */
  ghost predicate TooSoon(cfg: Config, b: Bucket, ip: string, es: seq<Event>) {
    forall e :: e in es ==> e.Allow? && e.ip == ip && b.lastRefill <= e.at && !Earned(cfg, b, e.at)
  }

  lemma {:induction false} SoonDenied(cfg: Config, m: Buckets, ip: string, es: seq<Event>)
    requires ip != "" && ip in m && m[ip].tokens <= 0 && TooSoon(cfg, m[ip], ip, es)
    ensures Final(cfg, m, es) == m && |Answers(cfg, m, es)| == |es| && true !in Answers(cfg, m, es)
    decreases |es|
  {
    if es != [] {
      assert es[0] in es;
      CreditSpent(cfg, m, ip, es[0].at);
      assert Admit(cfg, m, ip, es[0].at).0 == m;
      SoonDenied(cfg, m, ip, es[1..]);
    }
  }

  /** A client without tokens is denied until a token's worth of time since its last refill has gone by and admitted
      then, however often it asked meanwhile. */
  lemma RefillComes(cfg: Config, m: Buckets, ip: string, es: seq<Event>, at: int)
    requires ip != "" && ip in m && m[ip].tokens == 0 && cfg.burst > 0 && TooSoon(cfg, m[ip], ip, es)
    requires m[ip].lastRefill <= at
    ensures true !in Answers(cfg, m, es)
    ensures Answers(cfg, Final(cfg, m, es), [Allow(ip, at)]) == [Earned(cfg, m[ip], at)]
  {
    SoonDenied(cfg, m, ip, es);
    CreditSpent(cfg, m, ip, at);
    if Earned(cfg, m[ip], at) {
      DivideBounds((at - m[ip].lastRefill) * cfg.rate);
    }
    assert [Allow(ip, at)][1..] == [];
  }

  /** Every bucket was last refilled, or made, at an earlier request of its client, and owes nothing. */
  ghost predicate Stamped(m: Buckets, past: seq<Event>, now: int) {
    forall ip :: ip in m ==> m[ip].tokens >= 0 && m[ip].lastRefill <= now && Allow(ip, m[ip].lastRefill) in past
  }

  lemma AdmitStamps(cfg: Config, m: Buckets, past: seq<Event>, from: int, ip: string, at: int)
    requires cfg.burst > 0 && Stamped(m, past, from) && from <= at
    ensures Stamped(Admit(cfg, m, ip, at).0, past + [Allow(ip, at)], at)
  {
    if ip != "" {
      CreditSpent(cfg, m, ip, at);
      if ip in m && Earned(cfg, m[ip], at) {
        DivideBounds((at - m[ip].lastRefill) * cfg.rate);
      }
    }
    assert Allow(ip, at) in [Allow(ip, at)];
  }

  lemma ForgottenStamps(m: Buckets, past: seq<Event>, from: int, at: int)
    requires Stamped(m, past, from) && from <= at
    ensures Stamped(Forgotten(m, at), past + [Cleanup(at)], at)
  {
  }

  lemma DenialMeans(cfg: Config, m: Buckets, past: seq<Event>, from: int, ip: string, at: int)
    requires cfg.burst > 0 && Stamped(m, past, from) && from <= at && ip != "" && !Admit(cfg, m, ip, at).1
    ensures ip in m && m[ip].tokens == 0 && !Earned(cfg, m[ip], at)
  {
    CreditSpent(cfg, m, ip, at);
  }

  ghost predicate AskedLately(cfg: Config, es: seq<Event>, ip: string, at: int) {
    exists t :: Allow(ip, t) in es && (cfg.rate <= 0 || (at - t) * cfg.rate < MINUTE)
  }

  lemma {:induction false} DenialFrom(cfg: Config, m: Buckets, past: seq<Event>, es: seq<Event>, from: int,
                                      ip: string, at: int)
    requires cfg.burst > 0 && Stamped(m, past, from) && Ordered(es + [Allow(ip, at)], from) && ip != ""
    ensures var answers := Answers(cfg, m, es + [Allow(ip, at)]);
      answers != [] && (!answers[|answers| - 1] ==> AskedLately(cfg, past + es, ip, at))
    decreases |es|
  {
    var run := es + [Allow(ip, at)];
    if es == [] {
      assert run == [Allow(ip, at)] && run[1..] == [] && past + es == past;
      if !Admit(cfg, m, ip, at).1 {
        DenialMeans(cfg, m, past, from, ip, at);
        assert Allow(ip, m[ip].lastRefill) in past;
      }
    } else {
      assert run[0] == es[0] && run[1..] == es[1..] + [Allow(ip, at)];
      assert past + [es[0]] + es[1..] == past + es;
      match es[0]
      case Allow(x, t) =>
        AdmitStamps(cfg, m, past, from, x, t);
        DenialFrom(cfg, Admit(cfg, m, x, t).0, past + [es[0]], es[1..], t, ip, at);
      case Cleanup(t) =>
        ForgottenStamps(m, past, from, t);
        DenialFrom(cfg, Forgotten(m, t), past + [es[0]], es[1..], t, ip, at);
    }
  }

  /** In every run, cleanups included, a denied client asked before, less than a token's worth of time earlier: one
      that leaves that much time between its requests is never denied. */
  lemma DenialsAreEarned(cfg: Config, es: seq<Event>, from: int, ip: string, at: int)
    requires cfg.burst > 0 && Ordered(es + [Allow(ip, at)], from) && ip != ""
    ensures var answers := Answers(cfg, map[], es + [Allow(ip, at)]);
      answers != [] && (!answers[|answers| - 1] ==> AskedLately(cfg, es, ip, at))
  {
    DenialFrom(cfg, map[], [], es, from, ip, at);
    assert [] + es == es;
  }

  // ---- Clients do not affect each other ----

  /** A run as one client sees it: its own calls, and the cleanups. */
  function Own(es: seq<Event>, ip: string): seq<Event> {
    if es == [] then []
    else (if es[0].Cleanup? || es[0].ip == ip then [es[0]] else []) + Own(es[1..], ip)
  }

  /** The answers to its calls. */
  function OwnAnswers(es: seq<Event>, answers: seq<bool>, ip: string): seq<bool>
    requires |answers| == |Requests(es)|
  {
    if es == [] then []
    else match es[0]
      case Cleanup(_) => OwnAnswers(es[1..], answers, ip)
      case Allow(x, _) => (if x == ip then [answers[0]] else []) + OwnAnswers(es[1..], answers[1..], ip)
  }

  lemma {:induction false} OneAnswerEach(cfg: Config, m: Buckets, es: seq<Event>)
    ensures |Answers(cfg, m, es)| == |Requests(es)|
    decreases |es|
  {
    if es != [] {
      match es[0]
      case Allow(ip, at) => OneAnswerEach(cfg, Admit(cfg, m, ip, at).0, es[1..]);
      case Cleanup(at) => OneAnswerEach(cfg, Forgotten(m, at), es[1..]);
    }
  }

  ghost predicate SameFor(m: Buckets, m': Buckets, ip: string) {
    (ip in m <==> ip in m') && (ip in m ==> m[ip] == m'[ip])
  }

  /** In every run each client gets the answers it would get if it were the only one. */
  lemma {:induction false} ClientsApart(cfg: Config, m: Buckets, m': Buckets, es: seq<Event>, ip: string)
    requires SameFor(m, m', ip)
    ensures |Answers(cfg, m, es)| == |Requests(es)|
    ensures OwnAnswers(es, Answers(cfg, m, es), ip) == Answers(cfg, m', Own(es, ip))
    decreases |es|
  {
    OneAnswerEach(cfg, m, es);
    if es != [] {
      match es[0]
      case Cleanup(at) =>
        ClientsApart(cfg, Forgotten(m, at), Forgotten(m', at), es[1..], ip);
        assert Own(es, ip)[1..] == Own(es[1..], ip);
      case Allow(x, at) =>
        var n := Admit(cfg, m, x, at).0;
        assert Answers(cfg, m, es)[1..] == Answers(cfg, n, es[1..]);
        if x == ip {
          ClientsApart(cfg, n, Admit(cfg, m', x, at).0, es[1..], ip);
          assert Own(es, ip)[1..] == Own(es[1..], ip);
        } else {
          ClientsApart(cfg, n, m', es[1..], ip);
          assert Own(es, ip) == Own(es[1..], ip);
        }
    }
  }

  /** Calls without an address are denied and leave no trace. */
  lemma NoAddress(cfg: Config, m: Buckets, at: int, es: seq<Event>)
    ensures Answers(cfg, m, [Allow("", at)] + es) == [false] + Answers(cfg, m, es)
  {
    AnswersNext(cfg, m, "", at, es);
  }

  // ---- The limiter itself ----

  class ClientBucket {
    var tokens: int
    var lastRefill: int

    constructor (tokens: int, now: int)
      ensures this.tokens == tokens && lastRefill == now
    {
      this.tokens, lastRefill := tokens, now;
    }

    function Value(): Bucket
      reads this
    {
      Bucket(tokens, lastRefill)
    }

    method Take(cfg: Config, now: int) returns (ok: bool)
      modifies this
      ensures (Value(), ok) == Taken(cfg, old(Value()), now)
      ensures old(lastRefill) <= now && old(tokens) >= 0 && cfg.burst > 0 ==>
        (ok <==> old(tokens) > 0 || Earned(cfg, old(Value()), now))
    {
      if lastRefill <= now {
        EarnedMeans(cfg, Value(), now);
      }
      var tokensToAdd := Truncate((now - lastRefill) * cfg.rate, MINUTE);
      if tokensToAdd > 0 {
        tokens := tokens + tokensToAdd;
        if tokens > cfg.burst {
          tokens := cfg.burst;
        }
        lastRefill := now;
      }
      if tokens > 0 {
        tokens := tokens - 1;
        return true;
      }
      return false;
    }
  }

  class RateLimiter {
    const cfg: Config
    var clients: map<string, ClientBucket>

    constructor (cfg: Config)
      ensures this.cfg == cfg && View() == map[] && Valid() && fresh(Repr())
    {
      this.cfg, clients := cfg, map[];
    }

    ghost function Repr(): set<object>
      reads this
    {
      set ip | ip in clients :: clients[ip] as object
    }

    ghost predicate Valid()
      reads this
    {
      forall a, b :: a in clients && b in clients && a != b ==> clients[a] != clients[b]
    }

    ghost function View(): Buckets
      reads this, Repr()
    {
      map ip | ip in clients :: clients[ip].Value()
    }

    method Allow(ip: string, now: int) returns (ok: bool)
      requires Valid()
      modifies this, Repr()
      ensures Valid() && fresh(Repr() - old(Repr()))
      ensures (View(), ok) == Admit(cfg, old(View()), ip, now)
      ensures Timely(old(View()), ip, now) ==> (ok <==> ip != "" && Credit(cfg, old(View()), ip, now) > 0)
    {
      ghost var m := View();
      AdmitsByCredit(cfg, m, ip, now);
      if ip == "" {
        return false;
      }
      if ip !in clients {
        var bucket := new ClientBucket(cfg.burst, now);
        clients := clients[ip := bucket];
      }
      ghost var b := clients[ip].Value();
      ok := clients[ip].Take(cfg, now);
      assert forall k :: k in clients && k != ip ==> k in old(clients) && clients[k] == old(clients[k]);
      assert View() == old(View())[ip := Taken(cfg, b, now).0];
    }

    method Cleanup(now: int)
      requires Valid()
      modifies this
      ensures Valid() && Repr() <= old(Repr())
      ensures View() == Forgotten(old(View()), now)
      ensures forall ip :: ip in clients <==> ip in old(clients) && now - old(clients[ip].lastRefill) <= 10 * MINUTE
    {
      var todo := clients.Keys;
      while todo != {}
        invariant todo <= clients.Keys <= old(clients).Keys
        invariant forall ip :: ip in clients ==> clients[ip] == old(clients)[ip]
        invariant forall ip :: ip in old(clients) && ip !in todo ==>
                                 (ip in clients <==> now - old(clients)[ip].lastRefill <= IDLE)
      {
        var ip :| ip in todo;
        todo := todo - {ip};
        if now - clients[ip].lastRefill > IDLE {
          clients := clients - {ip};
        }
      }
    }
  }
}
