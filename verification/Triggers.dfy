/** Heimdall's trigger policy: a token bucket that keeps forged horns from turning re-verification into a
    flood, and the debouncer that coalesces file events.  Times are seconds. */
module Triggers {
  import opened Wrappers

  // ---- The token bucket ----

  datatype Bucket = Bucket(rate: real, burst: real, tokens: real, last: real)

  function Earned(rate: real, from: real, to: real): real {
    (to - from) * rate
  }

  function Refilled(b: Bucket, now: real): Bucket {
    if now > b.last then
      var t := b.tokens + Earned(b.rate, b.last, now);
      b.(tokens := if t > b.burst then b.burst else t, last := now)
    else b
  }

  function Allowed(b: Bucket, now: real): (Bucket, bool) {
    var r := Refilled(b, now);
    if r.tokens >= 1.0 then (r.(tokens := r.tokens - 1.0), true) else (r, false)
  }

  // ---- The horn policy ----

  datatype Horn = Horn(cluster: nat, bootstrap: bool, at: real)
  datatype Action = Reverify | RateLimited | Bootstrap | OtherCluster

  predicate Counts(cluster: nat, h: Horn) {
    h.cluster == cluster && !h.bootstrap
  }

  function Decided(cluster: nat, b: Bucket, h: Horn): (Bucket, Action) {
    if h.cluster != cluster then (b, OtherCluster)
    else if h.bootstrap then (b, Bootstrap)
    else
      var (b', ok) := Allowed(b, h.at);
      (b', if ok then Reverify else RateLimited)
  }

  function Decisions(cluster: nat, b: Bucket, hs: seq<Horn>): (as_: seq<Action>)
    ensures |as_| == |hs|
    decreases |hs|
  {
    if hs == [] then []
    else [Decided(cluster, b, hs[0]).1] + Decisions(cluster, Decided(cluster, b, hs[0]).0, hs[1..])
  }

  function NewBucket(rate: real, burst: real, now: real): Bucket {
    Bucket(rate, burst, burst, now)
  }

  /** One a second, three at once. */
  function PolicyBucket(now: real): Bucket {
    NewBucket(1.0, 3.0, now)
  }

  ghost predicate Ordered(hs: seq<Horn>, from: real)
    decreases |hs|
  {
    hs == [] || (from <= hs[0].at && Ordered(hs[1..], hs[0].at))
  }

  // ---- At most burst + rate * t re-verifications in t seconds ----

  function Granted(hs: seq<Horn>, acts: seq<Action>, a: real, z: real): nat
    requires |hs| == |acts|
  {
    if hs == [] then 0
    else (if acts[0].Reverify? && a <= hs[0].at <= z then 1 else 0) + Granted(hs[1..], acts[1..], a, z)
  }

  ghost predicate Sound(b: Bucket, from: real) {
    b.rate >= 0.0 && 0.0 <= b.tokens <= b.burst && b.last <= from
  }

  lemma EarnedGrows(rate: real, x: real, y: real)
    requires rate >= 0.0 && x <= y
    ensures Earned(rate, x, y) >= 0.0
  {
  }

  lemma RefillSound(b: Bucket, from: real, now: real)
    requires Sound(b, from) && from <= now
    ensures Sound(Refilled(b, now), now) && Refilled(b, now).last == now
    ensures Refilled(b, now).tokens <= b.tokens + Earned(b.rate, b.last, now)
    ensures Refilled(b, now).tokens >= b.tokens
  {
    EarnedGrows(b.rate, b.last, now);
  }

  lemma DecidedSound(cluster: nat, b: Bucket, h: Horn, from: real)
    requires Sound(b, from) && from <= h.at
    ensures Sound(Decided(cluster, b, h).0, h.at)
    ensures Decided(cluster, b, h).0.rate == b.rate && Decided(cluster, b, h).0.burst == b.burst
  {
    RefillSound(b, from, h.at);
  }

  lemma {:induction false} NonePast(cluster: nat, b: Bucket, hs: seq<Horn>, a: real, z: real, from: real)
    requires Ordered(hs, from) && from > z
    ensures Granted(hs, Decisions(cluster, b, hs), a, z) == 0
    decreases |hs|
  {
    if hs != [] {
      NonePast(cluster, Decided(cluster, b, hs[0]).0, hs[1..], a, z, hs[0].at);
    }
  }

  lemma EarnedSplit(rate: real, x: real, y: real, z: real)
    ensures Earned(rate, x, z) == Earned(rate, x, y) + Earned(rate, y, z)
  {
  }

  lemma {:induction false} SpendDown(cluster: nat, b: Bucket, hs: seq<Horn>, a: real, z: real, from: real)
    requires Sound(b, from) && Ordered(hs, from) && from <= z
    ensures Granted(hs, Decisions(cluster, b, hs), a, z) as real <= b.tokens + Earned(b.rate, b.last, z)
    decreases |hs|
  {
    EarnedGrows(b.rate, b.last, z);
    if hs != [] {
      var h := hs[0];
      var b' := Decided(cluster, b, h).0;
      DecidedSound(cluster, b, h, from);
      if h.at > z {
        NonePast(cluster, b', hs[1..], a, z, h.at);
      } else {
        SpendDown(cluster, b', hs[1..], a, z, h.at);
        RefillSound(b, from, h.at);
        EarnedSplit(b.rate, b.last, h.at, z);
      }
    }
  }

  /** In any window, whatever horns come, of whatever cluster and kind. */
  lemma {:induction false} WindowBound(cluster: nat, b: Bucket, hs: seq<Horn>, a: real, z: real, from: real)
    requires Sound(b, from) && Ordered(hs, from) && a <= z
    ensures Granted(hs, Decisions(cluster, b, hs), a, z) as real <= b.burst + Earned(b.rate, a, z)
    decreases |hs|
  {
    EarnedGrows(b.rate, a, z);
    if hs != [] {
      var h := hs[0];
      var b' := Decided(cluster, b, h).0;
      DecidedSound(cluster, b, h, from);
      if Counts(cluster, h) && a <= h.at <= z {
        RefillSound(b, from, h.at);
        SpendDown(cluster, b', hs[1..], a, z, h.at);
        EarnedSplit(b.rate, a, h.at, z);
        EarnedGrows(b.rate, a, h.at);
      } else {
        WindowBound(cluster, b', hs[1..], a, z, h.at);
      }
    }
  }

  /** The policy's own figures: 3 + t. */
  lemma PolicyWindow(cluster: nat, hs: seq<Horn>, a: real, z: real, start: real)
    requires Ordered(hs, start) && a <= z
    ensures Granted(hs, Decisions(cluster, PolicyBucket(start), hs), a, z) as real <= 3.0 + (z - a)
  {
    WindowBound(cluster, PolicyBucket(start), hs, a, z, start);
  }

  // ---- A refusal has a recent grant behind it ----

  /** granted is when the bucket last granted. */
  ghost predicate Credit(b: Bucket, granted: Option<real>) {
    match granted
    case None => b.tokens == b.burst
    case Some(g) => g <= b.last && (b.tokens >= b.burst || b.tokens >= Earned(b.rate, g, b.last))
  }

  ghost predicate RecentGrant(b: Bucket, granted: Option<real>, hs: seq<Horn>, acts: seq<Action>, j: nat)
    requires |hs| == |acts| && j < |hs|
  {
    || (granted.Some? && Earned(b.rate, granted.value, hs[j].at) < 1.0)
    || exists i :: 0 <= i < j && acts[i] == Reverify && Earned(b.rate, hs[i].at, hs[j].at) < 1.0
  }

  lemma CreditStep(cluster: nat, b: Bucket, h: Horn, granted: Option<real>, from: real)
    requires Sound(b, from) && from <= h.at && b.burst >= 1.0 && Credit(b, granted)
    ensures var (b', act) := Decided(cluster, b, h);
            && Credit(b', if act == Reverify then Some(h.at) else granted)
            && (act == RateLimited ==> granted.Some? && Earned(b.rate, granted.value, h.at) < 1.0)
  {
    RefillSound(b, from, h.at);
    if granted.Some? {
      EarnedSplit(b.rate, granted.value, b.last, h.at);
    }
    assert Earned(b.rate, h.at, h.at) == 0.0;
  }

  lemma {:induction false} RefusedRecently(cluster: nat, b: Bucket, hs: seq<Horn>, granted: Option<real>,
                                           from: real, j: nat)
    requires Sound(b, from) && Ordered(hs, from) && b.burst >= 1.0 && Credit(b, granted)
    requires j < |hs| && Decisions(cluster, b, hs)[j] == RateLimited
    ensures RecentGrant(b, granted, hs, Decisions(cluster, b, hs), j)
    decreases |hs|
  {
    var (b', act) := Decided(cluster, b, hs[0]);
    CreditStep(cluster, b, hs[0], granted, from);
    if j > 0 {
      DecidedSound(cluster, b, hs[0], from);
      var acts, rest := Decisions(cluster, b, hs), Decisions(cluster, b', hs[1..]);
      assert forall i :: 0 <= i < |rest| ==> acts[i + 1] == rest[i] && hs[i + 1] == hs[1..][i];
      RefusedRecently(cluster, b', hs[1..], if act == Reverify then Some(hs[0].at) else granted, hs[0].at, j - 1);
      if i :| 0 <= i < j - 1 && rest[i] == Reverify && Earned(b.rate, hs[1..][i].at, hs[1..][j - 1].at) < 1.0 {
        assert acts[i + 1] == Reverify && hs[i + 1] == hs[1..][i];
      } else if act == Reverify {
        assert acts[0] == Reverify;
      }
    }
  }

  /** The policy refuses only when it granted less than a second ago. */
  lemma PolicyRefusals(cluster: nat, hs: seq<Horn>, start: real, j: nat)
    requires Ordered(hs, start) && j < |hs| && Decisions(cluster, PolicyBucket(start), hs)[j] == RateLimited
    ensures exists i ::
      0 <= i < j && Decisions(cluster, PolicyBucket(start), hs)[i] == Reverify && hs[j].at - hs[i].at < 1.0
  {
    RefusedRecently(cluster, PolicyBucket(start), hs, None, start, j);
  }

  // ---- What the bucket holds, it grants ----

  /** What a bucket can spend at an instant: what it held and what it earned since, up to the burst. */
  function Bank(b: Bucket, at: real): real {
    if at <= b.last then b.tokens
    else if b.tokens + (at - b.last) * b.rate > b.burst then b.burst
    else b.tokens + (at - b.last) * b.rate
  }

  function AtOnce(cluster: nat, at: real, n: nat): (hs: seq<Horn>)
    ensures |hs| == n
  {
    if n == 0 then [] else [Horn(cluster, false, at)] + AtOnce(cluster, at, n - 1)
  }

  function Final(cluster: nat, b: Bucket, hs: seq<Horn>): Bucket
    decreases |hs|
  {
    if hs == [] then b else Final(cluster, Decided(cluster, b, hs[0]).0, hs[1..])
  }

  /** How many of n horns a bank pays for. */
  function Paid(bank: real, n: nat): nat {
    if n == 0 || bank < 1.0 then 0 else 1 + Paid(bank - 1.0, n - 1)
  }

  lemma {:induction false} PaidMeans(bank: real, n: nat)
    requires bank >= 0.0
    ensures Paid(bank, n) <= n && Paid(bank, n) as real <= bank
    ensures Paid(bank, n) < n ==> bank < Paid(bank, n) as real + 1.0
    decreases n
  {
    if n > 0 && bank >= 1.0 {
      PaidMeans(bank - 1.0, n - 1);
    }
  }

  lemma AllowedIs(b: Bucket, now: real)
    ensures var bank, last := Bank(b, now), if now > b.last then now else b.last;
      Allowed(b, now) == (Bucket(b.rate, b.burst, if bank >= 1.0 then bank - 1.0 else bank, last), bank >= 1.0)
  {
    var r := Refilled(b, now);
    assert Earned(b.rate, b.last, now) == (now - b.last) * b.rate;
    assert r.tokens == Bank(b, now);
    assert r.last == if now > b.last then now else b.last;
    assert r.rate == b.rate && r.burst == b.burst;
    var (b', ok) := Allowed(b, now);
    assert ok <==> Bank(b, now) >= 1.0;
    assert b'.last == r.last && b'.rate == b.rate && b'.burst == b.burst;
  }

  lemma BankAfter(cluster: nat, b: Bucket, at: real)
    ensures var (b', act) := Decided(cluster, b, Horn(cluster, false, at));
      && act == (if Bank(b, at) >= 1.0 then Reverify else RateLimited)
      && Bank(b', at) == (if Bank(b, at) >= 1.0 then Bank(b, at) - 1.0 else Bank(b, at))
      && b'.rate == b.rate && b'.burst == b.burst && b'.last == (if at > b.last then at else b.last)
  {
    AllowedIs(b, at);
  }

  lemma NothingPaid(bank: real, n: nat)
    requires bank < 1.0
    ensures Paid(bank, n) == 0
  {
  }

  /** n horns of this cluster at one instant: the first ones are granted, as many as the bucket can pay for, and the
      rest refused... */
  lemma {:induction false} GrantsAtOnce(cluster: nat, b: Bucket, at: real, n: nat, i: nat)
    requires i < n
    ensures Decisions(cluster, b, AtOnce(cluster, at, n))[i]
         == if i < Paid(Bank(b, at), n) then Reverify else RateLimited
    decreases n
  {
    var hs := AtOnce(cluster, at, n);
    var b' := Decided(cluster, b, hs[0]).0;
    BankAfter(cluster, b, at);
    if i > 0 {
      assert hs[1..] == AtOnce(cluster, at, n - 1);
      GrantsAtOnce(cluster, b', at, n - 1, i - 1);
      if Bank(b, at) < 1.0 {
        NothingPaid(Bank(b, at), n - 1);
      }
    }
  }

  /** ...and only what was granted is spent. */
  lemma {:induction false} SpendsAtOnce(cluster: nat, b: Bucket, at: real, n: nat)
    requires n > 0
    ensures Final(cluster, b, AtOnce(cluster, at, n))
         == Bucket(b.rate, b.burst, Bank(b, at) - Paid(Bank(b, at), n) as real, if at > b.last then at else b.last)
    decreases n
  {
    var hs := AtOnce(cluster, at, n);
    var b' := Decided(cluster, b, hs[0]).0;
    BankAfter(cluster, b, at);
    assert hs[1..] == AtOnce(cluster, at, n - 1);
    if n > 1 {
      SpendsAtOnce(cluster, b', at, n - 1);
      if Bank(b, at) < 1.0 {
        NothingPaid(Bank(b, at), n - 1);
      }
    }
  }

  /** From a policy just made, three horns at once, at whatever instant, are granted and a fourth is not. */
  lemma ThreeAtOnce(cluster: nat, start: real, at: real)
    requires start <= at
    ensures Decisions(cluster, PolicyBucket(start), AtOnce(cluster, at, 4))
         == [Reverify, Reverify, Reverify, RateLimited]
  {
    var b := PolicyBucket(start);
    assert Bank(b, at) == 3.0;
    assert Paid(3.0, 4) == 1 + Paid(2.0, 3) == 2 + Paid(1.0, 2) == 3;
    forall i: nat | i < 4 {
      GrantsAtOnce(cluster, b, at, 4, i);
    }
  }

  // ---- Which horns spend at all ----

  /** The decision on every horn of a trace says what kind of horn it was. */
  lemma {:induction false} DecisionsClassify(cluster: nat, b: Bucket, hs: seq<Horn>, i: nat)
    requires i < |hs|
    ensures var act := Decisions(cluster, b, hs)[i];
      && (act == OtherCluster <==> hs[i].cluster != cluster)
      && (act == Bootstrap <==> hs[i].cluster == cluster && hs[i].bootstrap)
    decreases |hs|
  {
    if i > 0 {
      DecisionsClassify(cluster, Decided(cluster, b, hs[0]).0, hs[1..], i - 1);
    }
  }

  // ---- Other horns cost nothing ----

  function Own(cluster: nat, hs: seq<Horn>): seq<Horn> {
    if hs == [] then [] else (if Counts(cluster, hs[0]) then [hs[0]] else []) + Own(cluster, hs[1..])
  }

  function OwnActions(cluster: nat, hs: seq<Horn>, acts: seq<Action>): seq<Action>
    requires |hs| == |acts|
  {
    if hs == [] then []
    else (if Counts(cluster, hs[0]) then [acts[0]] else []) + OwnActions(cluster, hs[1..], acts[1..])
  }

  /** Deleting the horns of other clusters and the bootstrap horns changes no remaining decision. */
  lemma {:induction false} OthersInvisible(cluster: nat, b: Bucket, hs: seq<Horn>)
    ensures Decisions(cluster, b, Own(cluster, hs)) == OwnActions(cluster, hs, Decisions(cluster, b, hs))
    decreases |hs|
  {
    if hs != [] {
      var b' := Decided(cluster, b, hs[0]).0;
      OthersInvisible(cluster, b', hs[1..]);
      assert Decisions(cluster, b, hs)[1..] == Decisions(cluster, b', hs[1..]);
      if Counts(cluster, hs[0]) {
        assert Own(cluster, hs)[1..] == Own(cluster, hs[1..]);
      } else {
        assert Own(cluster, hs) == Own(cluster, hs[1..]);
        assert OwnActions(cluster, hs, Decisions(cluster, b, hs))
            == OwnActions(cluster, hs[1..], Decisions(cluster, b', hs[1..]));
      }
    }
  }

  // ---- Counters ----

  datatype Stats = Stats(reverify: nat, rateLimited: nat, bootstrap: nat, otherCluster: nat)

  function Counted(st: Stats, act: Action): Stats {
    match act
    case Reverify => st.(reverify := st.reverify + 1)
    case RateLimited => st.(rateLimited := st.rateLimited + 1)
    case Bootstrap => st.(bootstrap := st.bootstrap + 1)
    case OtherCluster => st.(otherCluster := st.otherCluster + 1)
  }

  function Tally(st: Stats, acts: seq<Action>): Stats
    decreases |acts|
  {
    if acts == [] then st else Tally(Counted(st, acts[0]), acts[1..])
  }

  function Total(st: Stats): nat {
    st.reverify + st.rateLimited + st.bootstrap + st.otherCluster
  }

  /** The four counters sum to the calls, and the last two count exactly the horns that spend nothing. */
  lemma {:induction false} CountersSum(cluster: nat, b: Bucket, hs: seq<Horn>, st: Stats)
    ensures var st' := Tally(st, Decisions(cluster, b, hs));
            && Total(st') == Total(st) + |hs|
            && st'.reverify + st'.rateLimited == st.reverify + st.rateLimited + |Own(cluster, hs)|
    decreases |hs|
  {
    if hs != [] {
      var (b', act) := Decided(cluster, b, hs[0]);
      CountersSum(cluster, b', hs[1..], Counted(st, act));
      assert Decisions(cluster, b, hs)[1..] == Decisions(cluster, b', hs[1..]);
    }
  }

  function Times(acts: seq<Action>, a: Action): nat {
    if acts == [] then 0 else (if acts[0] == a then 1 else 0) + Times(acts[1..], a)
  }

  /** Each counter counts the decisions of its own kind. */
  lemma {:induction false} CountersCount(acts: seq<Action>, st: Stats)
    ensures var st' := Tally(st, acts);
      && st'.reverify == st.reverify + Times(acts, Reverify)
      && st'.rateLimited == st.rateLimited + Times(acts, RateLimited)
      && st'.bootstrap == st.bootstrap + Times(acts, Bootstrap)
      && st'.otherCluster == st.otherCluster + Times(acts, OtherCluster)
    decreases |acts|
  {
    if acts != [] {
      CountersCount(acts[1..], Counted(st, acts[0]));
    }
  }

  // ---- The debouncer ----

  datatype Debouncer = Debouncer(delay: real, deadline: real, armed: bool) {
    function Kick(now: real): Debouncer {
      if armed then this else Debouncer(delay, now + delay, true)
    }

    function Wait(now: real): real {
      if !armed || now >= deadline then 0.0 else deadline - now
    }

    function Due(now: real): (Debouncer, bool) {
      if armed && now >= deadline then (this.(armed := false), true) else (this, false)
    }
  }

  // ---- The objects ----

  class TokenBucket {
    const rate: real
    const burst: real
    var tokens: real
    var last: real

    constructor (rate: real, burst: real, now: real)
      ensures Value() == NewBucket(rate, burst, now)
    {
      this.rate, this.burst, tokens, last := rate, burst, burst, now;
    }

    function Value(): Bucket
      reads this
    {
      Bucket(rate, burst, tokens, last)
    }

    method Allow(now: real) returns (ok: bool)
      modifies this
      ensures (Value(), ok) == Allowed(old(Value()), now)
    {
      if now > last {
        tokens := tokens + Earned(rate, last, now);
        if tokens > burst {
          tokens := burst;
        }
        last := now;
      }
      if tokens >= 1.0 {
        tokens := tokens - 1.0;
        return true;
      }
      return false;
    }
  }

  class HornPolicy {
    const cluster: nat
    const bucket: TokenBucket
    var stats: Stats

    constructor (cluster: nat, now: real)
      ensures this.cluster == cluster && bucket.Value() == PolicyBucket(now) && stats == Stats(0, 0, 0, 0)
      ensures fresh(bucket)
    {
      this.cluster := cluster;
      bucket := new TokenBucket(1.0, 3.0, now);
      stats := Stats(0, 0, 0, 0);
    }

    method Decide(h: Horn) returns (act: Action)
      modifies this, bucket
      ensures (bucket.Value(), act) == Decided(cluster, old(bucket.Value()), h)
      ensures stats == Counted(old(stats), act)
    {
      if h.cluster != cluster {
        stats := stats.(otherCluster := stats.otherCluster + 1);
        return OtherCluster;
      }
      if h.bootstrap {
        stats := stats.(bootstrap := stats.bootstrap + 1);
        return Bootstrap;
      }
      var ok := bucket.Allow(h.at);
      if !ok {
        stats := stats.(rateLimited := stats.rateLimited + 1);
        return RateLimited;
      }
      stats := stats.(reverify := stats.reverify + 1);
      return Reverify;
    }
  }
}
