/** Heimdall's drift scanner and event loop: full scans on the poll and on a horn, each after a reload of the
    manifest, and debounced scans for changes on file events. */
module Heimdall {
  import opened Triggers
  import opened Wrappers

  datatype File = File(path: string, sha: string)
  type Manifest = seq<File>

  /** An alert handed to the aggregator; actual is "" for a file that could not be read. */
  datatype Alert = Alert(path: string, actual: string, expected: string)

  /** lastSeen is the cache of hashes, alerts what was raised under the loaded manifest. */
  datatype Watch = Watch(lastSeen: map<string, string>, alerts: seq<Alert>)

  // ---- One file, one scan ----

  function Drifted(f: File, actual: string): bool {
    actual == "" || actual != f.sha
  }

  function Checked(w: Watch, f: File, actual: string, onlyChanged: bool): Watch {
    var skip := onlyChanged && f.path in w.lastSeen && w.lastSeen[f.path] == actual;
    Watch(w.lastSeen[f.path := actual],
          if !skip && Drifted(f, actual) then w.alerts + [Alert(f.path, actual, f.sha)] else w.alerts)
  }

  /** found[i] is the hash found for the i-th file, at its own moment of the scan. */
  function Scanned(w: Watch, m: Manifest, found: seq<string>, onlyChanged: bool): Watch
    requires |found| == |m|
    decreases |m|
  {
    if m == [] then w else Scanned(Checked(w, m[0], found[0], onlyChanged), m[1..], found[1..], onlyChanged)
  }

  // ---- Runs of the loop ----

  datatype Iteration =
    | Verify(manifest: Manifest, found: seq<string>) // poll or horn: reload, then scan everything
    | Changed(found: seq<string>)                    // debounced file events: scan for changes

  datatype Loop = Loop(manifest: Manifest, watch: Watch)

  predicate Fits(l: Loop, it: Iteration) {
    match it
    case Verify(m, found) => |found| == |m|
    case Changed(found) => |found| == |l.manifest|
  }

  function Iterated(l: Loop, it: Iteration): Loop
    requires Fits(l, it)
  {
    match it
    case Verify(m, found) => Loop(m, Scanned(l.watch.(alerts := []), m, found, false))
    case Changed(found) => Loop(l.manifest, Scanned(l.watch, l.manifest, found, true))
  }

  predicate Runs(l: Loop, its: seq<Iteration>)
    decreases |its|
  {
    its == [] || (Fits(l, its[0]) && Runs(Iterated(l, its[0]), its[1..]))
  }

  function After(l: Loop, its: seq<Iteration>): Loop
    requires Runs(l, its)
    decreases |its|
  {
    if its == [] then l else After(Iterated(l, its[0]), its[1..])
  }

  /** The daemon starts with a manifest and an empty cache. */
  function Start(m: Manifest): Loop {
    Loop(m, Watch(map[], []))
  }

  // ---- Exactly what a scan says ----

  /** The hash last seen of the i-th file when its turn comes: an earlier entry of this scan for the same path, or
      the cache. */
  function SeenBefore(lastSeen: map<string, string>, m: Manifest, found: seq<string>, path: string, i: nat)
    : Option<string>
    requires |found| == |m| && i <= |m|
  {
    if i > 0 && m[i - 1].path == path then Some(found[i - 1])
    else if i > 0 then SeenBefore(lastSeen, m, found, path, i - 1)
    else if path in lastSeen then Some(lastSeen[path]) else None
  }

  /** Missing, or not as the manifest has it; a scan for changes leaves out what it saw before. */
  predicate Reported(lastSeen: map<string, string>, m: Manifest, found: seq<string>, onlyChanged: bool, i: nat)
    requires |found| == |m| && i < |m|
  {
    && (found[i] == "" || found[i] != m[i].sha)
    && !(onlyChanged && SeenBefore(lastSeen, m, found, m[i].path, i) == Some(found[i]))
  }

  /** One alert for each file to report among the first k, in the manifest's order. */
  function Report(lastSeen: map<string, string>, m: Manifest, found: seq<string>, onlyChanged: bool, k: nat): seq<Alert>
    requires |found| == |m| && k <= |m|
  {
    if k == 0 then []
    else
      Report(lastSeen, m, found, onlyChanged, k - 1)
      + if Reported(lastSeen, m, found, onlyChanged, k - 1) then [Alert(m[k - 1].path, found[k - 1], m[k - 1].sha)]
        else []
  }

  lemma {:induction false} ScanSnoc(w: Watch, m: Manifest, found: seq<string>, onlyChanged: bool, k: nat)
    requires |found| == |m| && k < |m|
    ensures Scanned(w, m[..k + 1], found[..k + 1], onlyChanged)
         == Checked(Scanned(w, m[..k], found[..k], onlyChanged), m[k], found[k], onlyChanged)
    decreases k
  {
    if k == 0 {
      assert m[..1] == [m[0]] && found[..1] == [found[0]] && m[..1][1..] == [] && found[..1][1..] == [];
    } else {
      assert m[..k + 1][1..] == m[1..][..k] && found[..k + 1][1..] == found[1..][..k];
      assert m[..k][1..] == m[1..][..k - 1] && found[..k][1..] == found[1..][..k - 1];
      ScanSnoc(Checked(w, m[0], found[0], onlyChanged), m[1..], found[1..], onlyChanged, k - 1);
    }
  }

  lemma {:induction false} ScanReportsTo(w: Watch, m: Manifest, found: seq<string>, onlyChanged: bool, k: nat)
    requires |found| == |m| && k <= |m|
    ensures var w' := Scanned(w, m[..k], found[..k], onlyChanged);
      && w'.alerts == w.alerts + Report(w.lastSeen, m, found, onlyChanged, k)
      && forall path :: (if path in w'.lastSeen then Some(w'.lastSeen[path]) else None)
                     == SeenBefore(w.lastSeen, m, found, path, k)
    decreases k
  {
    if k > 0 {
      ScanSnoc(w, m, found, onlyChanged, k - 1);
      ScanReportsTo(w, m, found, onlyChanged, k - 1);
      var before := Scanned(w, m[..k - 1], found[..k - 1], onlyChanged);
      assert (if m[k - 1].path in before.lastSeen then Some(before.lastSeen[m[k - 1].path]) else None)
          == SeenBefore(w.lastSeen, m, found, m[k - 1].path, k - 1);
    }
  }

  /** A full scan alerts every file that is missing or differs from the manifest, and no other; a scan for changes
      those of them whose hash is not the one last seen.  Either remembers what it found. */
  lemma ScanReports(w: Watch, m: Manifest, found: seq<string>, onlyChanged: bool)
    requires |found| == |m|
    ensures var w' := Scanned(w, m, found, onlyChanged);
      && w'.alerts == w.alerts + Report(w.lastSeen, m, found, onlyChanged, |m|)
      && forall path :: (if path in w'.lastSeen then Some(w'.lastSeen[path]) else None)
                     == SeenBefore(w.lastSeen, m, found, path, |m|)
  {
    assert m[..|m|] == m && found[..|m|] == found;
    ScanReportsTo(w, m, found, onlyChanged, |m|);
  }

  /** What each trigger says: poll and horn report all drift against the manifest just loaded, file events only what
      is new under the manifest in force. */
  lemma IterationReports(l: Loop, it: Iteration)
    requires Fits(l, it)
    ensures it.Verify? ==>
      && Iterated(l, it).manifest == it.manifest
      && Iterated(l, it).watch.alerts == Report(l.watch.lastSeen, it.manifest, it.found, false, |it.manifest|)
    ensures it.Changed? ==>
      && Iterated(l, it).manifest == l.manifest
      && Iterated(l, it).watch.alerts
         == l.watch.alerts + Report(l.watch.lastSeen, l.manifest, it.found, true, |l.manifest|)
  {
    if it.Verify? {
      ScanReports(l.watch.(alerts := []), it.manifest, it.found, false);
    } else {
      ScanReports(l.watch, l.manifest, it.found, true);
    }
  }

  lemma {:induction false} NothingNew(lastSeen: map<string, string>, m: Manifest, found: seq<string>, k: nat)
    requires |found| == |m| && k <= |m|
    requires forall i :: 0 <= i < |m| ==> m[i].path in lastSeen && lastSeen[m[i].path] == found[i]
    ensures Report(lastSeen, m, found, true, k) == []
    decreases k
  {
    if k > 0 {
      NothingNew(lastSeen, m, found, k - 1);
      SeenSame(lastSeen, m, found, k - 1, k - 1);
    }
  }

  lemma {:induction false} SeenSame(lastSeen: map<string, string>, m: Manifest, found: seq<string>, k: nat, i: nat)
    requires |found| == |m| && i <= k < |m|
    requires forall i :: 0 <= i < |m| ==> m[i].path in lastSeen && lastSeen[m[i].path] == found[i]
    ensures SeenBefore(lastSeen, m, found, m[k].path, i) == Some(found[k])
    decreases i
  {
    if i > 0 && m[i - 1].path != m[k].path {
      SeenSame(lastSeen, m, found, k, i - 1);
    }
  }

  /** Write noise is silent: file events that leave every file as last seen raise nothing. */
  lemma NoiseIsSilent(l: Loop, found: seq<string>)
    requires |found| == |l.manifest|
    requires forall i :: 0 <= i < |found| ==>
      l.manifest[i].path in l.watch.lastSeen && l.watch.lastSeen[l.manifest[i].path] == found[i]
    ensures Iterated(l, Changed(found)).watch.alerts == l.watch.alerts
  {
    IterationReports(l, Changed(found));
    NothingNew(l.watch.lastSeen, l.manifest, found, |found|);
  }

  lemma {:induction false} ReportIsDrift(lastSeen: map<string, string>, m: Manifest, found: seq<string>,
                                         onlyChanged: bool, k: nat, a: Alert)
    requires |found| == |m| && k <= |m| && a in Report(lastSeen, m, found, onlyChanged, k)
    ensures exists i :: 0 <= i < k && a == Alert(m[i].path, found[i], m[i].sha)
    ensures a.actual == "" || a.actual != a.expected
    decreases k
  {
    if Reported(lastSeen, m, found, onlyChanged, k - 1) && a == Alert(m[k - 1].path, found[k - 1], m[k - 1].sha) {
    } else {
      ReportIsDrift(lastSeen, m, found, onlyChanged, k - 1, a);
    }
  }

  /** A scan of the files of m found for a file what the alert says of it. */
  ghost predicate Found(m: Manifest, it: Iteration, a: Alert) {
    exists i :: 0 <= i < |m| && i < |it.found| && a == Alert(m[i].path, it.found[i], m[i].sha)
  }

  /** Every alert is of a file of the loaded manifest, with a hash some scan found for it and the manifest does not
      have. */
  ghost predicate AllTrue(l: Loop, past: seq<Iteration>) {
    forall a :: a in l.watch.alerts ==>
      (a.actual == "" || a.actual != a.expected) && exists it :: it in past && Found(l.manifest, it, a)
  }

  lemma IterationTrue(l: Loop, past: seq<Iteration>, it: Iteration)
    requires Fits(l, it) && AllTrue(l, past)
    ensures AllTrue(Iterated(l, it), past + [it])
  {
    var l' := Iterated(l, it);
    var w, m := if it.Verify? then l.watch.(alerts := []) else l.watch, l'.manifest;
    ScanReports(w, m, it.found, it.Changed?);
    forall a | a in l'.watch.alerts
      ensures (a.actual == "" || a.actual != a.expected) && exists x :: x in past + [it] && Found(m, x, a)
    {
      if a in Report(w.lastSeen, m, it.found, it.Changed?, |m|) {
        ReportIsDrift(w.lastSeen, m, it.found, it.Changed?, |m|, a);
        assert it in past + [it] && Found(m, it, a);
      } else {
        var x :| x in past && Found(m, x, a);
        assert x in past + [it];
      }
    }
  }

  /** No alert is ever false, in any run. */
  lemma {:induction false} AlertsTrue(l: Loop, past: seq<Iteration>, its: seq<Iteration>)
    requires Runs(l, its) && AllTrue(l, past)
    ensures AllTrue(After(l, its), past + its)
    decreases |its|
  {
    if its == [] {
      assert past + its == past;
    } else {
      IterationTrue(l, past, its[0]);
      AlertsTrue(Iterated(l, its[0]), past + [its[0]], its[1..]);
      assert past + [its[0]] + its[1..] == past + its;
    }
  }

  // ---- Drift is never hidden ----

  predicate Covered(f: File, w: Watch) {
    f.path in w.lastSeen && Drifted(f, w.lastSeen[f.path]) ==> Alert(f.path, w.lastSeen[f.path], f.sha) in w.alerts
  }

  ghost predicate NothingHidden(l: Loop) {
    forall f :: f in l.manifest ==> Covered(f, l.watch)
  }

  /** Entries for one path agree on its hash; a manifest of distinct paths is of this kind. */
  ghost predicate Consistent(m: Manifest) {
    forall f, g :: f in m && g in m && f.path == g.path ==> f.sha == g.sha
  }

  lemma DistinctIsConsistent(m: Manifest)
    requires forall i, j :: 0 <= i < j < |m| ==> m[i].path != m[j].path
    ensures Consistent(m)
  {
  }

  /** Checking one file leaves its own entries covered and the covered ones of other paths as they were. */
  lemma CheckCovers(all: Manifest, w: Watch, f: File, actual: string, onlyChanged: bool, g: File)
    requires Consistent(all) && f in all && g in all
    requires g.path != f.path || onlyChanged ==> Covered(g, w)
    ensures Covered(g, Checked(w, f, actual, onlyChanged))
  {
    if Drifted(f, actual) {
      var a := Alert(f.path, actual, f.sha);
      assert a in w.alerts + [a];
    }
  }

  lemma {:induction false} ChangedCovers(all: Manifest, w: Watch, m: Manifest, found: seq<string>)
    requires |found| == |m| && Consistent(all) && (forall f :: f in m ==> f in all)
    requires forall g :: g in all ==> Covered(g, w)
    ensures forall g :: g in all ==> Covered(g, Scanned(w, m, found, true))
    decreases |m|
  {
    if m != [] {
      forall g | g in all
        ensures Covered(g, Checked(w, m[0], found[0], true))
      {
        CheckCovers(all, w, m[0], found[0], true, g);
      }
      ChangedCovers(all, Checked(w, m[0], found[0], true), m[1..], found[1..]);
    }
  }

  /** A full scan covers every path it has been past, whatever the cache held. */
  lemma {:induction false} FullCovers(all: Manifest, w: Watch, m: Manifest, found: seq<string>, past: set<string>)
    requires |found| == |m| && Consistent(all) && (forall f :: f in m ==> f in all)
    requires forall g :: g in all && g.path in past ==> Covered(g, w)
    requires forall g :: g in all ==> g.path in past || exists f :: f in m && f.path == g.path
    ensures forall g :: g in all ==> Covered(g, Scanned(w, m, found, false))
    decreases |m|
  {
    if m != [] {
      var w' := Checked(w, m[0], found[0], false);
      forall g | g in all && g.path in past + {m[0].path}
        ensures Covered(g, w')
      {
        CheckCovers(all, w, m[0], found[0], false, g);
      }
      forall g | g in all && g.path !in past + {m[0].path}
        ensures exists f :: f in m[1..] && f.path == g.path
      {
        var f :| f in m && f.path == g.path;
        assert f != m[0];
        assert m == [m[0]] + m[1..];
      }
      FullCovers(all, w', m[1..], found[1..], past + {m[0].path});
    }
  }

  ghost predicate AllConsistent(m: Manifest, its: seq<Iteration>) {
    Consistent(m) && forall i :: 0 <= i < |its| && its[i].Verify? ==> Consistent(its[i].manifest)
  }

  lemma {:induction false} HiddenNever(l: Loop, its: seq<Iteration>)
    requires Runs(l, its) && AllConsistent(l.manifest, its) && NothingHidden(l)
    ensures NothingHidden(After(l, its))
    decreases |its|
  {
    if its != [] {
      var l' := Iterated(l, its[0]);
      match its[0] {
        case Verify(m, found) => FullCovers(m, l.watch.(alerts := []), m, found, {});
        case Changed(found) => ChangedCovers(l.manifest, l.watch, l.manifest, found);
      }
      HiddenNever(l', its[1..]);
    }
  }

  // ---- The failing side: two entries for one path that disagree ----

  /** The first entry that disagrees with an earlier one for its path. */
  lemma FirstDisagreement(m: Manifest) returns (i: nat, j: nat)
    requires !Consistent(m)
    ensures i < j < |m| && m[i].path == m[j].path && m[i].sha != m[j].sha
    ensures forall k :: 0 <= k < j && m[k].path == m[j].path ==> m[k].sha != m[j].sha
  {
    var f, g :| f in m && g in m && f.path == g.path && f.sha != g.sha;
    var a :| 0 <= a < |m| && m[a] == f;
    var b :| 0 <= b < |m| && m[b] == g;
    i, j := if a < b then a else b, if a < b then b else a;
    i, j := Earliest(m, i, j);
  }

  lemma {:induction false} Earliest(m: Manifest, a: nat, b: nat) returns (i: nat, j: nat)
    requires a < b < |m| && m[a].path == m[b].path && m[a].sha != m[b].sha
    ensures i < j < |m| && m[i].path == m[j].path && m[i].sha != m[j].sha
    ensures forall k :: 0 <= k < j && m[k].path == m[j].path ==> m[k].sha != m[j].sha
    decreases b
  {
    if k :| 0 <= k < b && m[k].path == m[b].path && m[k].sha == m[b].sha {
      if a < k {
        i, j := Earliest(m, a, k);
      } else {
        i, j := Earliest(m, k, a);
      }
    } else {
      i, j := a, b;
    }
  }

  /** A scan in which every read of path finds h; other files are missing. */
  function ReadAs(m: Manifest, path: string, h: string): (found: seq<string>)
    ensures |found| == |m|
    ensures forall i :: 0 <= i < |m| ==> found[i] == if m[i].path == path then h else ""
  {
    seq(|m|, i requires 0 <= i < |m| => if m[i].path == path then h else "")
  }

  /** After the first entry for a path, a scan for changes says nothing more about it. */
  lemma {:induction false} SkipsRepeats(w: Watch, m: Manifest, path: string, h: string, x: Alert)
    requires path in w.lastSeen && w.lastSeen[path] == h && x.path == path && x !in w.alerts
    ensures x !in Scanned(w, m, ReadAs(m, path, h), true).alerts
    ensures path in Scanned(w, m, ReadAs(m, path, h), true).lastSeen
    ensures Scanned(w, m, ReadAs(m, path, h), true).lastSeen[path] == h
    decreases |m|
  {
    if m != [] {
      var found := ReadAs(m, path, h);
      assert found[1..] == ReadAs(m[1..], path, h);
      SkipsRepeats(Checked(w, m[0], found[0], true), m[1..], path, h, x);
    }
  }

  /** The only alert a fresh scan for changes raises about a path is the one of its first entry. */
  lemma {:induction false} OnlyFirstSpeaks(w: Watch, m: Manifest, path: string, h: string, x: Alert, i: nat)
    requires path !in w.lastSeen && x.path == path && x !in w.alerts
    requires i < |m| && m[i].path == path
    requires forall k :: 0 <= k <= i && m[k].path == path ==> m[k].sha != x.expected
    ensures x !in Scanned(w, m, ReadAs(m, path, h), true).alerts
    ensures path in Scanned(w, m, ReadAs(m, path, h), true).lastSeen
    ensures Scanned(w, m, ReadAs(m, path, h), true).lastSeen[path] == h
    decreases |m|
  {
    var found := ReadAs(m, path, h);
    assert found[1..] == ReadAs(m[1..], path, h);
    var w' := Checked(w, m[0], found[0], true);
    if m[0].path == path {
      SkipsRepeats(w', m[1..], path, h, x);
    } else {
      OnlyFirstSpeaks(w', m[1..], path, h, x, i - 1);
    }
  }

  /** With such a pair, one scan for changes on a fresh daemon hides a drift: the file is as the earlier entry has
      it, differs from the later one, and no alert says so. */
  lemma DisagreementHides(m: Manifest)
    requires !Consistent(m)
    ensures exists found :: |found| == |m| && !NothingHidden(Iterated(Start(m), Changed(found)))
  {
    var i, j := FirstDisagreement(m);
    var f := m[j];
    var h := m[i].sha;
    var found := ReadAs(m, f.path, h);
    OnlyFirstSpeaks(Watch(map[], []), m, f.path, h, Alert(f.path, h, f.sha), i);
    var l := Iterated(Start(m), Changed(found));
    assert f in l.manifest && !Covered(f, l.watch);
  }

  /** The plainest case: two entries for one file, which is as the first has it.  The scan raises nothing at all. */
  lemma ContradictionIsSilent(path: string, a: string, b: string)
    requires a != b && a != ""
    ensures var l := Iterated(Start([File(path, a), File(path, b)]), Changed([a, a]));
      l.watch.alerts == [] && !NothingHidden(l)
  {
    var first, second := File(path, a), File(path, b);
    var w := Watch(map[], []);
    var w1 := Checked(w, first, a, true);
    assert [first, second][1..] == [second] && [a, a][1..] == [a] && [second][1..] == [] && [a][1..] == [];
    assert Scanned(w, [first, second], [a, a], true) == Scanned(w1, [second], [a], true);
    assert Scanned(w1, [second], [a], true) == Checked(w1, second, a, true);
    assert second in [first, second] && !Covered(second, Checked(w1, second, a, true));
  }

  ghost predicate LoadedFrom(ms: iset<Manifest>, its: seq<Iteration>) {
    forall i :: 0 <= i < |its| && its[i].Verify? ==> its[i].manifest in ms
  }

  /** Whichever of these manifests the daemon starts with and reloads, nothing is ever hidden. */
  ghost predicate NeverHides(ms: iset<Manifest>) {
    forall m, its :: m in ms && Runs(Start(m), its) && LoadedFrom(ms, its) ==> NothingHidden(After(Start(m), its))
  }

  /** Between any two iterations, across reloads and any mix of poll, horn and file events, every watched file
      whose last observed hash differs from the manifest has been alerted with that hash under that manifest:
      in every run exactly when none of the manifests that may be loaded contradicts itself. */
  lemma EventScansNeverHideDrift(ms: iset<Manifest>)
    ensures NeverHides(ms) <==> forall m :: m in ms ==> Consistent(m)
  {
    if m :| m in ms && !Consistent(m) {
      DisagreementHides(m);
      var found :| |found| == |m| && !NothingHidden(Iterated(Start(m), Changed(found)));
      var its := [Changed(found)];
      assert its[1..] == [] && Runs(Start(m), its) && LoadedFrom(ms, its);
      assert After(Start(m), its) == Iterated(Start(m), Changed(found));
    } else {
      forall m, its | m in ms && Runs(Start(m), its) && LoadedFrom(ms, its)
        ensures NothingHidden(After(Start(m), its))
      {
        HiddenNever(Start(m), its);
      }
    }
  }

  // ---- The daemon ----

  lemma ScanStep(w: Watch, m: Manifest, found: seq<string>, onlyChanged: bool, i: nat)
    requires |found| == |m| && i < |m|
    ensures Scanned(w, m[i..], found[i..], onlyChanged)
         == Scanned(Checked(w, m[i], found[i], onlyChanged), m[i + 1..], found[i + 1..], onlyChanged)
  {
    assert m[i..][1..] == m[i + 1..] && found[i..][1..] == found[i + 1..];
  }

  class Daemon {
    var manifest: Manifest
    var lastSeen: map<string, string>
    ghost var alerts: seq<Alert>
    var deb: Debouncer
    var timer: Option<real>   // when the debounce timer fires; None when its channel is nil
    const policy: HornPolicy
    const selfPid: nat
    ghost var clock: real
    ghost var unscanned: seq<real> // wanted file events since the last scan for changes started

    constructor (manifest: Manifest, debounce: real, policy: HornPolicy, selfPid: nat, now: real)
      requires debounce >= 0.0
      ensures View() == Start(manifest) && Ready() && clock == now && this.policy == policy && this.selfPid == selfPid
      ensures deb.delay == if debounce == 0.0 then 0.25 else debounce
    {
      this.manifest, lastSeen, alerts := manifest, map[], [];
      deb := Debouncer(if debounce == 0.0 then 0.25 else debounce, 0.0, false);
      timer := None;
      this.policy, this.selfPid := policy, selfPid;
      clock, unscanned := now, [];
    }

    ghost function View(): Loop
      reads this
    {
      Loop(manifest, Watch(lastSeen, alerts))
    }

    /** A timer is live exactly while a scan is pending, and fires the delay after the first wanted event since the
        last scan, so no event waits longer than that and no scan comes sooner. */
    ghost predicate Ready()
      reads this
    {
      && deb.delay > 0.0
      && (deb.armed <==> timer.Some?)
      && (deb.armed ==> timer.value == deb.deadline)
      && (deb.armed <==> unscanned != [])
      && (deb.armed ==> deb.deadline == unscanned[0] + deb.delay)
      && (forall i :: 0 <= i < |unscanned| ==> unscanned[0] <= unscanned[i] <= clock)
    }

    method Scan(onlyChanged: bool, found: seq<string>)
      requires |found| == |manifest|
      modifies this`lastSeen, this`alerts
      ensures View() == Loop(manifest, Scanned(old(View().watch), manifest, found, onlyChanged))
      ensures alerts == old(alerts) + Report(old(lastSeen), manifest, found, onlyChanged, |manifest|)
    {
      ScanReports(View().watch, manifest, found, onlyChanged);
      ghost var w := View().watch;
      for i := 0 to |manifest|
        invariant Scanned(View().watch, manifest[i..], found[i..], onlyChanged)
               == Scanned(w, manifest, found, onlyChanged)
      {
        ScanStep(View().watch, manifest, found, onlyChanged, i);
        CheckFile(manifest[i], found[i], onlyChanged);
      }
    }

    /** One file of a scan, whose hash is actual. */
    method CheckFile(f: File, actual: string, onlyChanged: bool)
      modifies this`lastSeen, this`alerts
      ensures View().watch == Checked(old(View().watch), f, actual, onlyChanged)
      ensures lastSeen == old(lastSeen)[f.path := actual]
      ensures alerts == old(alerts) + [Alert(f.path, actual, f.sha)] <==>
        && (actual == "" || actual != f.sha)
        && !(onlyChanged && f.path in old(lastSeen) && old(lastSeen)[f.path] == actual)
      ensures alerts in {old(alerts), old(alerts) + [Alert(f.path, actual, f.sha)]}
    {
      var known := f.path in lastSeen;
      var prev := if known then lastSeen[f.path] else "";
      lastSeen := lastSeen[f.path := actual];
      if onlyChanged && known && prev == actual {
        return;
      }
      if actual == "" {
        alerts := alerts + [Alert(f.path, "", f.sha)];
        return;
      }
      if actual != f.sha {
        alerts := alerts + [Alert(f.path, actual, f.sha)];
      }
    }

    /** Reload and a full scan: the poll, and a granted horn.  loaded is None when the manifest is no longer
        trusted, and then the daemon stops. */
    method Verified(loaded: Option<Manifest>, found: seq<string>) returns (running: bool)
      requires Ready() && (loaded.Some? ==> |found| == |loaded.value|)
      modifies this`manifest, this`lastSeen, this`alerts
      ensures Ready() && (running <==> loaded.Some?)
      ensures View() == if running then Iterated(old(View()), Verify(loaded.value, found)) else old(View())
    {
      if loaded.None? {
        return false;
      }
      manifest := loaded.value;
      alerts := [];
      Scan(false, found);
      return true;
    }

    method OnHorn(h: Horn, loaded: Option<Manifest>, found: seq<string>) returns (act: Action, running: bool)
      requires Ready() && (loaded.Some? ==> |found| == |loaded.value|)
      modifies this`manifest, this`lastSeen, this`alerts, policy, policy.bucket
      ensures Ready() && (policy.bucket.Value(), act) == Decided(policy.cluster, old(policy.bucket.Value()), h)
      ensures running <==> act != Reverify || loaded.Some?
      ensures View()
           == if act == Reverify && running then Iterated(old(View()), Verify(loaded.value, found)) else old(View())
    {
      act := policy.Decide(h);
      if act == Reverify {
        running := Verified(loaded, found);
      } else {
        running := true;
      }
    }

    method OnFileEvent(pid: nat, now: real)
      requires Ready() && clock <= now
      modifies this
      ensures Ready() && View() == old(View()) && clock == now && deb.delay == old(deb.delay)
      ensures unscanned == if pid != selfPid then old(unscanned) + [now] else old(unscanned)
      ensures old(deb.armed) ==> timer == old(timer)
    {
      clock := now;
      if pid != selfPid {
        deb := deb.Kick(now);
        if timer.None? {
          timer := Some(now + deb.Wait(now));
        }
        unscanned := unscanned + [now];
      }
    }

    /** The debounce timer's channel delivered. */
    method OnTimer(now: real, found: seq<string>) returns (scanned: bool)
      requires Ready() && timer.Some? && clock <= now && |found| == |manifest|
      modifies this
      ensures Ready() && clock == now && deb.delay == old(deb.delay)
      ensures scanned <==> now >= old(deb.deadline)
      ensures scanned ==> View() == Iterated(old(View()), Changed(found)) && unscanned == []
      ensures !scanned ==> View() == old(View()) && unscanned == old(unscanned) && timer == Some(old(deb.deadline))
    {
      clock := now;
      var due: bool;
      deb, due := deb.Due(now).0, deb.Due(now).1;
      if due {
        timer := None;
        unscanned := [];
        Scan(true, found);
        return true;
      }
      timer := Some(now + deb.Wait(now));
      return false;
    }
  }
}
