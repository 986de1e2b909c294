/**
 * The deployment loop of `readDL` (`SimulationInput` and the state kept across deployments):
 * validation, routing each battalion to its planet, the watcher update, the median
 * snapshots on a change of timestamp, the battle loop, and the end-of-day summary.
 */
module Simulation {
  import opened Wrappers
  import opened Battalions
  import opened RunningMedian
  import opened Generals
  import opened MovieWatcher
  import opened Planets
  import opened Summary

  /** The command-line modes and the sizes read from the input header. */
  datatype Config = Config(numGenerals: nat, numPlanets: nat, median: bool, generalEval: bool, watcher: bool)

  /** One parsed line of the deployment list; `isJedi` is the side word being `JEDI`. */
  datatype Deployment = Deployment(timestamp: int, isJedi: bool, generalID: nat, planetID: nat, force: int, troops: int)

  /** The two ways `readDL` stops the program with exit status 1. */
  datatype InputError = InvalidDeployment | DecreasingTimestamp

  /** One `printMedianOut`: the time it reports and each planet's median (`None`: no line). */
  datatype MedianReport = MedianReport(timestamp: int, medians: seq<Option<int>>)

  /** The checks of `readDL` on one deployment, given the timestamp of the one before. */
  function Check(cfg: Config, d: Deployment, previous: int): (r: Outcome<InputError>)
    ensures r.Pass? <==>
      d.generalID < cfg.numGenerals && d.planetID < cfg.numPlanets && d.force > 0 && d.troops > 0
      && previous <= d.timestamp
    ensures r == Fail(InvalidDeployment) <==>
      !(d.generalID < cfg.numGenerals && d.planetID < cfg.numPlanets && d.force > 0 && d.troops > 0)
    ensures r == Fail(DecreasingTimestamp) <==>
      d.generalID < cfg.numGenerals && d.planetID < cfg.numPlanets && d.force > 0 && d.troops > 0
      && d.timestamp < previous
  {
    if d.generalID >= cfg.numGenerals || d.planetID >= cfg.numPlanets || d.force <= 0 || d.troops <= 0 then
      Fail(InvalidDeployment)
    else if d.timestamp < previous then
      Fail(DecreasingTimestamp)
    else
      Pass
  }

  /**
   * How a run over `ds` ends, starting from the previous timestamp `previous`: the outcome and
   * the number of deployments accepted before it.
   */
  function Verdict(cfg: Config, ds: seq<Deployment>, previous: int): (r: (Outcome<InputError>, nat))
    ensures r.1 <= |ds|
    ensures r.0.Pass? <==> r.1 == |ds|
  {
    if ds == [] then (Pass, 0)
    else match Check(cfg, ds[0], previous)
      case Fail(e) => (Fail(e), 0)
      case Pass =>
        var rest := Verdict(cfg, ds[1..], ds[0].timestamp);
        (rest.0, rest.1 + 1)
  }

  /**
   * A run accepts exactly the longest prefix of well-formed deployments in non-decreasing
   * timestamp order (the first no earlier than `previous`), and fails on the next one with
   * the error its check reports.
   */
  lemma {:induction false} VerdictMeans(cfg: Config, ds: seq<Deployment>, previous: int)
    ensures var (o, n) := Verdict(cfg, ds, previous);
      && (forall i :: 0 <= i < n ==> Check(cfg, ds[i], if i == 0 then previous else ds[i - 1].timestamp) == Pass)
      && (n < |ds| ==> o == Check(cfg, ds[n], if n == 0 then previous else ds[n - 1].timestamp) && o.Fail?)
  {
    if ds != [] && Check(cfg, ds[0], previous).Pass? {
      VerdictMeans(cfg, ds[1..], ds[0].timestamp);
      var (o, n) := Verdict(cfg, ds, previous);
      forall i | 0 <= i < n
        ensures Check(cfg, ds[i], if i == 0 then previous else ds[i - 1].timestamp) == Pass
      {
        if i > 0 {
          assert ds[i] == ds[1..][i - 1];
          assert i - 1 == 0 || ds[i - 1] == ds[1..][i - 2];
        }
      }
      if n < |ds| {
        assert ds[n] == ds[1..][n - 1];
        assert n - 1 == 0 || ds[n - 1] == ds[1..][n - 2];
      }
    }
  }

  /** The accepted deployments are in non-decreasing timestamp order. */
  lemma AcceptedInOrder(cfg: Config, ds: seq<Deployment>, previous: int)
    ensures var n := Verdict(cfg, ds, previous).1;
      forall i, j :: 0 <= i < j < n ==> previous <= ds[i].timestamp <= ds[j].timestamp
  {
    VerdictMeans(cfg, ds, previous);
    var n := Verdict(cfg, ds, previous).1;
    forall i, j | 0 <= i < j < n ensures previous <= ds[i].timestamp <= ds[j].timestamp {
      var k := 0;
      while k < j
        invariant 0 <= k <= j
        invariant previous <= ds[k].timestamp
        invariant i < k ==> ds[i].timestamp <= ds[k].timestamp
      {
        assert Check(cfg, ds[k + 1], ds[k].timestamp) == Pass;
        k := k + 1;
      }
    }
  }

  /**
   * The timestamps `printMedianOut` is called with inside the loop of `readDL` over the
   * accepted deployments `ds`: the current timestamp, whenever a deployment brings a
   * different one (`start` is the current timestamp before the first).
   */
  function ReportTimes(ds: seq<Deployment>, start: int): (t: seq<int>)
    ensures |t| <= |ds|
  {
    if ds == [] then []
    else
      var before := if |ds| == 1 then start else ds[|ds| - 2].timestamp;
      ReportTimes(ds[..|ds| - 1], start) + (if ds[|ds| - 1].timestamp != before then [before] else [])
  }

  /**
   * Over deployments in non-decreasing timestamp order, every time is reported at most
   * once: the reported times strictly increase, none precedes `start`, and all precede the
   * timestamp of the last deployment.
   */
  lemma {:induction false} ReportTimesIncreasing(ds: seq<Deployment>, start: int)
    requires forall i, j :: 0 <= i < j < |ds| ==> ds[i].timestamp <= ds[j].timestamp
    requires ds != [] ==> start <= ds[0].timestamp
    ensures forall i, j :: 0 <= i < j < |ReportTimes(ds, start)| ==> ReportTimes(ds, start)[i] < ReportTimes(ds, start)[j]
    ensures forall i :: 0 <= i < |ReportTimes(ds, start)| ==>
      start <= ReportTimes(ds, start)[i] < ds[|ds| - 1].timestamp
  {
    if ds != [] {
      var n := |ds|;
      var rest := ds[..n - 1];
      ReportTimesIncreasing(rest, start);
      var before := if n == 1 then start else ds[n - 2].timestamp;
      var prior := ReportTimes(rest, start);
      if n == 1 {
        assert prior == [];
      } else {
        assert rest[n - 2] == ds[n - 2] && rest[0] == ds[0];
        assert start <= ds[0].timestamp <= ds[n - 2].timestamp;
        assert forall i :: 0 <= i < |prior| ==> start <= prior[i] < rest[|rest| - 1].timestamp;
      }
      assert before <= ds[n - 1].timestamp;
      assert ReportTimes(ds, start) == prior + (if ds[n - 1].timestamp != before then [before] else []);
    }
  }

  /**
   * How a run over `ds` ends when its first `k` deployments are accepted and the last of
   * them had timestamp `previous`: the verdict on the rest, counting the `k` already in.
   */
  function Resume(cfg: Config, ds: seq<Deployment>, k: nat, previous: int): (r: (Outcome<InputError>, nat))
    requires k <= |ds|
    ensures k <= r.1 <= |ds|
  {
    var rest := Verdict(cfg, ds[k..], previous);
    (rest.0, rest.1 + k)
  }

  /** Accepting deployment `k` of `ds` moves the verdict on the rest past it. */
  lemma Accept(cfg: Config, ds: seq<Deployment>, k: nat, previous: int)
    requires k < |ds| && Check(cfg, ds[k], previous) == Pass
    ensures Resume(cfg, ds, k, previous) == Resume(cfg, ds, k + 1, ds[k].timestamp)
  {
    assert ds[k..][0] == ds[k] && ds[k..][1..] == ds[k + 1..];
  }

  /** Rejecting deployment `k` of `ds` ends the run with the error of its check, after `k` accepted. */
  lemma Reject(cfg: Config, ds: seq<Deployment>, k: nat, previous: int)
    requires k < |ds| && Check(cfg, ds[k], previous).Fail?
    ensures Resume(cfg, ds, k, previous) == (Check(cfg, ds[k], previous), k)
  {
    assert ds[k..][0] == ds[k];
  }

  /** A run that has accepted every deployment passes. */
  lemma Finish(cfg: Config, ds: seq<Deployment>, previous: int)
    ensures Resume(cfg, ds, |ds|, previous) == (Pass, |ds|)
  {
    assert ds[|ds|..] == [];
  }

  /** A run starts with nothing accepted. */
  lemma Begin(cfg: Config, ds: seq<Deployment>)
    ensures Resume(cfg, ds, 0, 0) == Verdict(cfg, ds, 0)
  {
    assert ds[0..] == ds;
  }

  /** The median lines of `log` are in strictly increasing time order, all before `now`. */
  ghost predicate Chronological(log: seq<MedianReport>, now: int) {
    && (forall i, j :: 0 <= i < j < |log| ==> log[i].timestamp < log[j].timestamp)
    && (forall i :: 0 <= i < |log| ==> log[i].timestamp < now)
  }

  /** A median line for `now` added when time moves on to `next` keeps the lines chronological. */
  lemma Later(log: seq<MedianReport>, log': seq<MedianReport>, now: int, next: int)
    requires Chronological(log, now) && now <= next
    requires log' == log || (|log'| == |log| + 1 && log'[..|log|] == log && log'[|log|].timestamp == now && now < next)
    ensures Chronological(log', next)
  {
    if log' != log {
      assert forall i :: 0 <= i < |log| ==> log'[i] == log[i];
    }
  }

  /** The times the median lines of `log` report, in order. */
  function Stamps(log: seq<MedianReport>): (t: seq<int>)
    ensures |t| == |log|
    ensures forall i :: 0 <= i < |log| ==> t[i] == log[i].timestamp
  {
    if log == [] then [] else Stamps(log[..|log| - 1]) + [log[|log| - 1].timestamp]
  }

  /** Deployment `k` adds the time before it to the times reported, when its own time differs. */
  lemma ReportTimesStep(ds: seq<Deployment>, k: nat)
    requires k < |ds|
    ensures var before := if k == 0 then 0 else ds[k - 1].timestamp;
      ReportTimes(ds[..k + 1], 0) == ReportTimes(ds[..k], 0) + (if ds[k].timestamp != before then [before] else [])
  {
    assert ds[..k + 1][..k] == ds[..k];
  }

  lemma StampsPush(log: seq<MedianReport>, line: MedianReport)
    ensures Stamps(log + [line]) == Stamps(log) + [line.timestamp]
  {
    assert (log + [line])[..|log|] == log;
  }

  /**
   * The median line `line` that deployment `k` of `ds` logs when its timestamp differs from
   * the one before (in median mode) keeps the times of the log those of the loop.
   */
  lemma Logged(ds: seq<Deployment>, k: nat, median: bool, log: seq<MedianReport>, log': seq<MedianReport>, line: MedianReport)
    requires k < |ds|
    requires Stamps(log) == if median then ReportTimes(ds[..k], 0) else []
    requires Chronological(log, line.timestamp) && line.timestamp <= ds[k].timestamp
    requires line.timestamp == if k == 0 then 0 else ds[k - 1].timestamp
    requires log' == log + (if median && ds[k].timestamp != line.timestamp then [line] else [])
    ensures Stamps(log') == if median then ReportTimes(ds[..k + 1], 0) else []
    ensures Chronological(log', ds[k].timestamp)
  {
    if median && ds[k].timestamp != line.timestamp {
      ReportTimesStep(ds, k);
      StampsPush(log, line);
      assert log'[..|log|] == log;
      Later(log, log', line.timestamp, ds[k].timestamp);
    } else {
      assert log' == log;
      if median {
        ReportTimesStep(ds, k);
      }
      Later(log, log', line.timestamp, ds[k].timestamp);
    }
  }

  /** The median of every planet, in planet order. */
  function Medians(ps: seq<Planet>): (r: seq<Option<int>>)
    reads ps
    ensures |r| == |ps|
    ensures forall i {:trigger r[i]} :: 0 <= i < |ps| ==> r[i] == MedianOf(ps[i].low, ps[i].high)
  {
    if ps == [] then [] else Medians(ps[..|ps| - 1]) + [MedianOf(ps[|ps| - 1].low, ps[|ps| - 1].high)]
  }

  /** The battalion `readDL` builds from an accepted deployment with arrival order `arrival`. */
  function Enlist(d: Deployment, arrival: int): (b: Battalion)
    ensures b.timestamp == d.timestamp && b.generalID == d.generalID && b.planetID == d.planetID
    ensures b.isJedi == d.isJedi && b.force == d.force && b.troops == d.troops && b.arrival == arrival
  {
    Battalion(d.timestamp, d.generalID, d.planetID, d.isJedi, d.force, d.troops, arrival)
  }

  /** Every deployment of `ds` names a general and a planet of the input header. */
  ghost predicate Routable(cfg: Config, ds: seq<Deployment>) {
    forall k :: 0 <= k < |ds| ==> ds[k].generalID < cfg.numGenerals && ds[k].planetID < cfg.numPlanets
  }

  /**
   * The queues of every planet, and the troops lost in every battle in the order fought,
   * after `readDL` has taken the accepted deployments `ds` onto empty planets: each one is
   * pushed on the queue of its side on its planet, then that planet's battles are fought.
   */
  ghost function Replay(cfg: Config, ds: seq<Deployment>): (r: (seq<seq<Battalion>>, seq<seq<Battalion>>, seq<int>))
    requires Routable(cfg, ds)
    ensures |r.0| == cfg.numPlanets && |r.1| == cfg.numPlanets
  {
    if ds == [] then (seq(cfg.numPlanets, _ => []), seq(cfg.numPlanets, _ => []), [])
    else
      var n := |ds| - 1;
      var prev := Replay(cfg, ds[..n]);
      var p := ds[n].planetID;
      var b := Enlist(ds[n], n + 1);
      var fought := Skirmish(Join(prev.0[p], b, true), Join(prev.1[p], b, false));
      (prev.0[p := fought.0], prev.1[p := fought.1], prev.2 + fought.2)
  }

  /** An accepted deployment extends the routable prefix by one. */
  lemma RoutableStep(cfg: Config, ds: seq<Deployment>, k: nat, previous: int)
    requires k < |ds| && Routable(cfg, ds[..k]) && Check(cfg, ds[k], previous) == Pass
    ensures Routable(cfg, ds[..k + 1])
  {
    assert forall i :: 0 <= i < k ==> ds[..k + 1][i] == ds[..k][i];
  }

  /** Deployment `k` of `ds` moves the replay by one push and the battles on its planet. */
  lemma ReplayStep(cfg: Config, ds: seq<Deployment>, k: nat)
    requires k < |ds| && Routable(cfg, ds[..k + 1])
    ensures Routable(cfg, ds[..k])
    ensures var prev := Replay(cfg, ds[..k]);
      var p, b := ds[k].planetID, Enlist(ds[k], k + 1);
      var fought := Skirmish(Join(prev.0[p], b, true), Join(prev.1[p], b, false));
      Replay(cfg, ds[..k + 1]) == (prev.0[p := fought.0], prev.1[p := fought.1], prev.2 + fought.2)
  {
    assert ds[..k + 1][..k] == ds[..k];
    assert forall i :: 0 <= i < k ==> ds[..k + 1][i] == ds[..k][i];
  }

  /** The number of battalions in a family of queues. */
  function Census(qs: seq<seq<Battalion>>): nat {
    if qs == [] then 0 else Census(qs[..|qs| - 1]) + |qs[|qs| - 1]|
  }

  /** Replacing one queue changes the count by the difference in its length. */
  lemma {:induction false} CensusUpdate(qs: seq<seq<Battalion>>, p: nat, q: seq<Battalion>)
    requires p < |qs|
    ensures Census(qs[p := q]) == Census(qs) - |qs[p]| + |q|
  {
    var n := |qs| - 1;
    if p < n {
      assert qs[p := q][..n] == qs[..n][p := q];
      CensusUpdate(qs[..n], p, q);
    } else {
      assert qs[p := q][..n] == qs[..n];
    }
  }

  lemma {:induction false} CensusEmpty(n: nat)
    ensures Census(seq<seq<Battalion>>(n, _ => [])) == 0
  {
    if n > 0 {
      assert seq<seq<Battalion>>(n, _ => [])[..n - 1] == seq(n - 1, _ => []);
      CensusEmpty(n - 1);
    }
  }

  /**
   * Every battle removes at least one battalion from its planet: the battalions still
   * queued plus the battles fought never exceed the deployments accepted.
   */
  lemma {:induction false} ReplayBounded(cfg: Config, ds: seq<Deployment>)
    requires Routable(cfg, ds)
    ensures var r := Replay(cfg, ds); Census(r.0) + Census(r.1) + |r.2| <= |ds|
  {
    if ds == [] {
      CensusEmpty(cfg.numPlanets);
    } else {
      var n := |ds| - 1;
      assert forall i :: 0 <= i < n ==> ds[..n][i] == ds[i];
      ReplayBounded(cfg, ds[..n]);
      var prev := Replay(cfg, ds[..n]);
      var p, b := ds[n].planetID, Enlist(ds[n], n + 1);
      var fought := Skirmish(Join(prev.0[p], b, true), Join(prev.1[p], b, false));
      CensusUpdate(prev.0, p, fought.0);
      CensusUpdate(prev.1, p, fought.1);
    }
  }

  /** The troops each general has deployed, Jedi side first, in general order. */
  function Tally(gens: seq<General>): (r: seq<(int, int)>)
    ensures |r| == |gens|
    ensures forall g :: 0 <= g < |gens| ==> r[g] == (gens[g].jediDeployed, gens[g].sithDeployed)
  {
    seq(|gens|, g requires 0 <= g < |gens| => (gens[g].jediDeployed, gens[g].sithDeployed))
  }

  /** `tally` with the troops of `d` added to its general's count for its side. */
  function Enroll(tally: seq<(int, int)>, d: Deployment): (r: seq<(int, int)>)
    requires d.generalID < |tally|
    ensures |r| == |tally|
    ensures forall g :: 0 <= g < |tally| ==>
      && r[g].0 == tally[g].0 + (if g == d.generalID && d.isJedi then d.troops else 0)
      && r[g].1 == tally[g].1 + (if g == d.generalID && !d.isJedi then d.troops else 0)
  {
    var (jedi, sith) := tally[d.generalID];
    tally[d.generalID := if d.isJedi then (jedi + d.troops, sith) else (jedi, sith + d.troops)]
  }

  /** Pushing `b` on planet `p` and then fighting there is one `Skirmish` from the pushed queues. */
  lemma PushThenFight(jediQs: seq<seq<Battalion>>, sithQs: seq<seq<Battalion>>, p: nat, b: Battalion,
                      jediQs1: seq<seq<Battalion>>, sithQs1: seq<seq<Battalion>>,
                      jediQs2: seq<seq<Battalion>>, sithQs2: seq<seq<Battalion>>)
    requires p < |jediQs| && p < |sithQs|
    requires jediQs1 == jediQs[p := Join(jediQs[p], b, true)] && sithQs1 == sithQs[p := Join(sithQs[p], b, false)]
    requires var fought := Skirmish(jediQs1[p], sithQs1[p]);
      jediQs2 == jediQs1[p := fought.0] && sithQs2 == sithQs1[p := fought.1]
    ensures var fought := Skirmish(Join(jediQs[p], b, true), Join(sithQs[p], b, false));
      && Skirmish(jediQs1[p], sithQs1[p]) == fought
      && jediQs2 == jediQs[p := fought.0] && sithQs2 == sithQs[p := fought.1]
  {
    var fought := Skirmish(Join(jediQs[p], b, true), Join(sithQs[p], b, false));
    assert jediQs1[p := fought.0] == jediQs[p := fought.0];
    assert sithQs1[p := fought.1] == sithQs[p := fought.1];
  }

  /** Crediting the general of `d` with the battalion built from it enrols `d`. */
  lemma TallyCredited(gens: seq<General>, d: Deployment, arrival: int)
    requires d.generalID < |gens|
    ensures Tally(gens[d.generalID := Credited(gens[d.generalID], Enlist(d, arrival))]) == Enroll(Tally(gens), d)
  {
  }

  /** The troops each general has deployed per side after the accepted deployments `ds`. */
  ghost function Enrolment(cfg: Config, ds: seq<Deployment>): (r: seq<(int, int)>)
    requires Routable(cfg, ds)
    ensures |r| == cfg.numGenerals
  {
    if ds == [] then seq(cfg.numGenerals, _ => (0, 0))
    else Enroll(Enrolment(cfg, ds[..|ds| - 1]), ds[|ds| - 1])
  }

  /**
   * A general's count for a side is the sum of the troops of its deployments on that side:
   * the sum over `ds` of the troops of the deployments of general `g` on the Jedi side
   * (`jediSide`) or the Sith side.
   */
  function Deployed(ds: seq<Deployment>, g: nat, jediSide: bool): int {
    if ds == [] then 0
    else
      var d := ds[|ds| - 1];
      Deployed(ds[..|ds| - 1], g, jediSide) + (if d.generalID == g && d.isJedi == jediSide then d.troops else 0)
  }

  /** The enrolment of every general is the sum of its deployments' troops on each side. */
  lemma {:induction false} EnrolmentSums(cfg: Config, ds: seq<Deployment>)
    requires Routable(cfg, ds)
    ensures forall g :: 0 <= g < cfg.numGenerals ==> Enrolment(cfg, ds)[g] == (Deployed(ds, g, true), Deployed(ds, g, false))
  {
    if ds != [] {
      var n := |ds| - 1;
      assert forall i :: 0 <= i < n ==> ds[..n][i] == ds[i];
      EnrolmentSums(cfg, ds[..n]);
    }
  }

  /** Deployment `k` of `ds` adds its troops to its general's count. */
  lemma EnrolmentStep(cfg: Config, ds: seq<Deployment>, k: nat)
    requires k < |ds| && Routable(cfg, ds[..k + 1])
    ensures Routable(cfg, ds[..k])
    ensures Enrolment(cfg, ds[..k + 1]) == Enroll(Enrolment(cfg, ds[..k]), ds[k])
  {
    assert ds[..k + 1][..k] == ds[..k];
    assert forall i :: 0 <= i < k ==> ds[..k + 1][i] == ds[..k][i];
  }

  /**
   * The queues `jediQs` and `sithQs`, the battle count `battles` and the per-general
   * deployed counts `tally` are those that the accepted deployments `ds` lead to.
   */
  ghost predicate Replayed(cfg: Config, ds: seq<Deployment>, jediQs: seq<seq<Battalion>>, sithQs: seq<seq<Battalion>>,
                           battles: int, tally: seq<(int, int)>) {
    && Routable(cfg, ds)
    && jediQs == Replay(cfg, ds).0 && sithQs == Replay(cfg, ds).1
    && battles == |Replay(cfg, ds).2|
    && tally == Enrolment(cfg, ds)
  }

  /**
   * One accepted deployment `ds[k]` that is pushed on its planet, with the battles then
   * fought there and its troops enrolled, extends the replay from `ds[..k]` to `ds[..k + 1]`.
   */
  lemma ReplayedStep(cfg: Config, ds: seq<Deployment>, k: nat, previous: int, arrival: int,
                     jediQs: seq<seq<Battalion>>, sithQs: seq<seq<Battalion>>, battles: int, tally: seq<(int, int)>,
                     jediQs': seq<seq<Battalion>>, sithQs': seq<seq<Battalion>>, battles': int, tally': seq<(int, int)>)
    requires k < |ds| && Check(cfg, ds[k], previous) == Pass && arrival == k + 1
    requires Replayed(cfg, ds[..k], jediQs, sithQs, battles, tally)
    requires var p, b := ds[k].planetID, Enlist(ds[k], arrival);
      var fought := Skirmish(Join(jediQs[p], b, true), Join(sithQs[p], b, false));
      && jediQs' == jediQs[p := fought.0] && sithQs' == sithQs[p := fought.1]
      && battles' == battles + |fought.2|
    requires tally' == Enroll(tally, ds[k])
    ensures Replayed(cfg, ds[..k + 1], jediQs', sithQs', battles', tally')
  {
    RoutableStep(cfg, ds, k, previous);
    ReplayStep(cfg, ds, k);
    EnrolmentStep(cfg, ds, k);
  }

  /**
   * The general evaluation `lines` after the accepted deployments `ds`: line `g` reports the
   * troops of general `g`'s deployments on each side, their total, and as survivors the
   * troops it still holds in the replayed queues, which is never negative.
   */
  ghost predicate Evaluated(cfg: Config, ds: seq<Deployment>, lines: seq<EvalLine>) {
    && Routable(cfg, ds)
    && forall g :: 0 <= g < |lines| ==>
      var (jedi, sith) := (Deployed(ds, g, true), Deployed(ds, g, false));
      && lines[g] == EvalLine(jedi, sith, SumTroops(Replay(cfg, ds).0, g) + SumTroops(Replay(cfg, ds).1, g), jedi + sith)
      && lines[g].survived >= 0
  }

  /**
   * Evaluation lines read off generals whose deployed counts are the enrolment of `ds` and
   * whose survivors are what they hold in the replayed queues are the lines `Evaluated` names.
   */
  lemma EvaluationReplayed(cfg: Config, ds: seq<Deployment>, gens: seq<General>, jediQs: seq<seq<Battalion>>,
                           sithQs: seq<seq<Battalion>>, battles: int, lines: seq<EvalLine>)
    requires Replayed(cfg, ds, jediQs, sithQs, battles, Tally(gens)) && |lines| <= |gens|
    requires forall g :: 0 <= g < |lines| ==>
      lines[g] == EvalLineOf(gens[g]) && lines[g].survived == SumTroops(jediQs, g) + SumTroops(sithQs, g) >= 0
    ensures Evaluated(cfg, ds, lines)
  {
    EnrolmentSums(cfg, ds);
    forall g | 0 <= g < |lines|
      ensures lines[g].jediDeployed == Deployed(ds, g, true) && lines[g].sithDeployed == Deployed(ds, g, false)
    {
      assert Tally(gens)[g] == Enrolment(cfg, ds)[g];
    }
  }

  /**
   * What the end-of-day output says once every deployment of `ds` is accepted: a final
   * median line (median mode) at the last deployment's timestamp, or 0; the number of
   * battles the replay of `ds` fights; in evaluation mode one line per general, with the
   * troops of its deployments on each side and, as survivors, the troops it still holds in
   * the replayed queues (never negative); in watcher mode two lines per planet.
   */
  ghost predicate DayReported(cfg: Config, ds: seq<Deployment>, day: DaySummary) {
    && Routable(cfg, ds)
    && (day.finalMedians.Some? <==> cfg.median)
    && (cfg.median ==> day.finalMedians.value.timestamp == if ds == [] then 0 else ds[|ds| - 1].timestamp)
    && day.battles == |Replay(cfg, ds).2|
    && (cfg.generalEval ==> |day.evaluation| == cfg.numGenerals && Evaluated(cfg, ds, day.evaluation))
    && (!cfg.generalEval ==> day.evaluation == [])
    && (cfg.watcher ==> |day.movie| == cfg.numPlanets)
    && (!cfg.watcher ==> day.movie == [])
  }

  /** `planets(np)`: `n` fresh, distinct, empty planets. */
  method NewPlanets(n: nat, numGenerals: nat, watcher: bool) returns (ps: seq<Planet>)
    ensures |ps| == n
    ensures forall i, j :: 0 <= i < j < |ps| ==> ps[i] != ps[j]
    ensures forall i :: 0 <= i < |ps| ==> fresh(ps[i])
    ensures forall i :: 0 <= i < |ps| ==>
      && ps[i].jedi == [] && ps[i].sith == [] && ps[i].low == [] && ps[i].high == [] && ps[i].history == []
      && ps[i].Settled(numGenerals, 0, 0, watcher)
  {
    ps := [];
    while |ps| < n
      invariant |ps| <= n
      invariant forall i, j :: 0 <= i < j < |ps| ==> ps[i] != ps[j]
      invariant forall i :: 0 <= i < |ps| ==> fresh(ps[i])
      invariant forall i :: 0 <= i < |ps| ==>
        && ps[i].jedi == [] && ps[i].sith == [] && ps[i].low == [] && ps[i].high == [] && ps[i].history == []
        && ps[i].Settled(numGenerals, 0, 0, watcher)
    {
      var p := new Planet();
      p.SettledWhenEmpty(numGenerals, 0, 0, watcher);
      ps := ps + [p];
    }
  }

  /**
   * The local variables `readDL` carries from one deployment to the next, together with the
   * median lines printed so far.
   */
  datatype Progress = Progress(
    arrivalOrder: int,
    previousTimestamp: int,
    currentTimestamp: int,
    totalBattles: nat,
    medianLog: seq<MedianReport>)

  /** The values `readDL` starts from. */
  const Start := Progress(0, 0, 0, 0, [])

  /**
   * What `readDL` prints after its loop: the final median line (median mode), the battle
   * count, the general evaluation (general-evaluation mode) and the watcher lines, an ambush
   * and an attack line per planet (watcher mode).
   */
  datatype DaySummary = DaySummary(
    finalMedians: Option<MedianReport>,
    battles: nat,
    evaluation: seq<EvalLine>,
    movie: seq<(Sighting, Sighting)>)

  class Simulation {
    const config: Config
    /** `simput.planets`. */
    const planets: seq<Planet>
    /** `simput.generals`. */
    const generals: array<General>

    /** The sizes are those of the input header and every planet ID has its own planet object. */
    ghost predicate Wired()
      reads this
    {
      && generals.Length == config.numGenerals
      && |planets| == config.numPlanets
      && (forall i, j :: 0 <= i < j < |planets| ==> planets[i] != planets[j])
    }

    /** `jediQs` and `sithQs` hold the queues of the planets, in planet order. */
    ghost predicate Mirrored(jediQs: seq<seq<Battalion>>, sithQs: seq<seq<Battalion>>)
      reads this, planets
    {
      && |jediQs| == |planets| && |sithQs| == |planets|
      && forall i :: 0 <= i < |planets| ==> jediQs[i] == planets[i].jedi && sithQs[i] == planets[i].sith
    }

    /**
     * Between deployments: the two timestamps of `readDL` agree, every planet is settled, and
     * every general's deployed-minus-lost count on each side is what that general still holds
     * in the queues `jediQs` and `sithQs` of the planets.
     */
    ghost predicate Valid(s: Progress, jediQs: seq<seq<Battalion>>, sithQs: seq<seq<Battalion>>)
      reads this, generals, planets
    {
      && Wired()
      && s.previousTimestamp == s.currentTimestamp
      && (forall i {:trigger planets[i].Settled(config.numGenerals, s.arrivalOrder, s.currentTimestamp, config.watcher)} ::
            0 <= i < |planets| ==> planets[i].Settled(config.numGenerals, s.arrivalOrder, s.currentTimestamp, config.watcher))
      && Mirrored(jediQs, sithQs)
      && Conserved(generals[..], jediQs, sithQs)
    }

    /** `SimulationInput` after `planets(np)` and `generals(ng)`: empty planets, generals with nothing. */
    constructor (cfg: Config)
      ensures config == cfg
      ensures fresh(generals)
      ensures forall p :: 0 <= p < |planets| ==> fresh(planets[p])
      ensures Valid(Start, seq(cfg.numPlanets, _ => []), seq(cfg.numPlanets, _ => []))
      ensures forall g :: 0 <= g < generals.Length ==> generals[g] == NewGeneral
      ensures forall p :: 0 <= p < |planets| ==> planets[p].history == [] && planets[p].low == [] && planets[p].high == []
    {
      var ps := NewPlanets(cfg.numPlanets, cfg.numGenerals, cfg.watcher);
      config := cfg;
      planets := ps;
      generals := new General[cfg.numGenerals](_ => NewGeneral);
      new;
      ConservedInitially(generals[..], seq(cfg.numPlanets, _ => []), seq(cfg.numPlanets, _ => []));
    }

    /**
     * Mid-deployment: like `Valid`, except that on planet `p`, which just received a
     * battalion, a battle may be due, and the median check has not yet moved the current
     * timestamp.
     */
    ghost predicate Pending(p: nat, arrivalOrder: int, now: int, jediQs: seq<seq<Battalion>>, sithQs: seq<seq<Battalion>>)
      reads this, generals, planets
    {
      && Wired()
      && p < |planets|
      && (forall i {:trigger planets[i].Ready(config.numGenerals, arrivalOrder, now, config.watcher)} ::
            0 <= i < |planets| ==> planets[i].Ready(config.numGenerals, arrivalOrder, now, config.watcher))
      && (forall i :: 0 <= i < |planets| && i != p ==> !planets[i].Eligible())
      && Mirrored(jediQs, sithQs)
      && Conserved(generals[..], jediQs, sithQs)
    }

    /**
     * The part of `readDL` between the checks and the median check for an accepted
     * deployment: take the timestamp, count the arrival, push the battalion on its planet,
     * credit its general and let the watcher see it.
     */
    method Arrive(d: Deployment, s: Progress, ghost jediQs: seq<seq<Battalion>>, ghost sithQs: seq<seq<Battalion>>)
      returns (s': Progress, ghost jediQs': seq<seq<Battalion>>, ghost sithQs': seq<seq<Battalion>>)
      requires Valid(s, jediQs, sithQs) && Check(config, d, s.previousTimestamp) == Pass
      modifies generals, planets[d.planetID]
      ensures s' == s.(previousTimestamp := d.timestamp, arrivalOrder := s.arrivalOrder + 1)
      ensures Pending(d.planetID, s'.arrivalOrder, d.timestamp, jediQs', sithQs')
      ensures planets[d.planetID].history == old(planets[d.planetID].history) + [Enlist(d, s'.arrivalOrder)]
      ensures var p, b := d.planetID, Enlist(d, s'.arrivalOrder);
        jediQs' == jediQs[p := Join(jediQs[p], b, true)] && sithQs' == sithQs[p := Join(sithQs[p], b, false)]
      ensures planets[d.planetID].low == old(planets[d.planetID].low)
      ensures planets[d.planetID].high == old(planets[d.planetID].high)
      ensures Medians(planets) == old(Medians(planets))
      ensures generals[..] == old(generals[..])[d.generalID := Credited(old(generals[d.generalID]), Enlist(d, s'.arrivalOrder))]
    {
      var b := Enlist(d, s.arrivalOrder + 1);
      Place(b, s.previousTimestamp);
      s' := s.(previousTimestamp := d.timestamp, arrivalOrder := s.arrivalOrder + 1);
      assert planets[d.planetID].jedi == Join(jediQs[d.planetID], b, true);
      assert planets[d.planetID].sith == Join(sithQs[d.planetID], b, false);
      jediQs', sithQs' := jediQs[d.planetID := planets[d.planetID].jedi], sithQs[d.planetID := planets[d.planetID].sith];
      Deploy(old(generals[..]), jediQs, sithQs, d.planetID, b, generals[..], jediQs', sithQs');
      forall i | 0 <= i < |planets| ensures Medians(planets)[i] == old(Medians(planets))[i] {
        assert planets[i].low == old(planets[i].low) && planets[i].high == old(planets[i].high);
      }
    }

    /**
     * The planet and ledger updates of an accepted deployment: push the battalion on the
     * queue of its side on its planet and let the watcher see it, then credit its general's
     * deployed count for that side. `readDL` credits the general between the push and the
     * watcher; the ledger and the planet share no state, so the order does not matter.
     * Every planet then counts `b` as the latest arrival and `b.timestamp` as the time.
     */
    method Place(b: Battalion, ghost now: int)
      requires generals.Length == config.numGenerals
      requires forall i, j :: 0 <= i < j < |planets| ==> planets[i] != planets[j]
      requires b.planetID < |planets| && b.generalID < config.numGenerals && b.troops > 0 && now <= b.timestamp
      requires forall i :: 0 <= i < |planets| ==> planets[i].Settled(config.numGenerals, b.arrival - 1, now, config.watcher)
      modifies generals, planets[b.planetID]
      ensures forall i :: 0 <= i < |planets| ==> planets[i].Ready(config.numGenerals, b.arrival, b.timestamp, config.watcher)
      ensures forall i :: 0 <= i < |planets| && i != b.planetID ==>
        !planets[i].Eligible() && planets[i].jedi == old(planets[i].jedi) && planets[i].sith == old(planets[i].sith)
      ensures b.isJedi ==> planets[b.planetID].jedi == old(planets[b.planetID].jedi) + [b] && planets[b.planetID].sith == old(planets[b.planetID].sith)
      ensures !b.isJedi ==> planets[b.planetID].sith == old(planets[b.planetID].sith) + [b] && planets[b.planetID].jedi == old(planets[b.planetID].jedi)
      ensures planets[b.planetID].history == old(planets[b.planetID].history) + [b]
      ensures planets[b.planetID].low == old(planets[b.planetID].low) && planets[b.planetID].high == old(planets[b.planetID].high)
      ensures generals[..] == old(generals[..])[b.generalID := Credited(old(generals[b.generalID]), b)]
    {
      forall i | 0 <= i < |planets| && i != b.planetID
        ensures planets[i].Settled(config.numGenerals, b.arrival, b.timestamp, config.watcher)
      {
        planets[i].SettledLater(config.numGenerals, b.arrival - 1, now, b.arrival, b.timestamp, config.watcher);
      }
      planets[b.planetID].Receive(b, config.numGenerals, b.arrival - 1, now, config.watcher);
      generals[b.generalID] := Credited(generals[b.generalID], b);
    }

    /**
     * One pass of the loop of `readDL` for a deployment that passed its checks: push it on
     * its planet, print the medians when its timestamp starts a new time (median mode), move
     * the current timestamp, and fight every battle that is then due on its planet.
     */
    method Step(d: Deployment, s: Progress, ghost jediQs: seq<seq<Battalion>>, ghost sithQs: seq<seq<Battalion>>)
      returns (s': Progress, ghost jediQs': seq<seq<Battalion>>, ghost sithQs': seq<seq<Battalion>>)
      requires Valid(s, jediQs, sithQs) && Check(config, d, s.previousTimestamp) == Pass
      modifies generals, planets[d.planetID]
      ensures Valid(s', jediQs', sithQs')
      ensures s'.arrivalOrder == s.arrivalOrder + 1
      ensures s'.previousTimestamp == d.timestamp && s'.currentTimestamp == d.timestamp
      ensures s'.medianLog == s.medianLog +
        (if config.median && d.timestamp != s.currentTimestamp then [MedianReport(s.currentTimestamp, old(Medians(planets)))] else [])
      ensures planets[d.planetID].history == old(planets[d.planetID].history) + [Enlist(d, s'.arrivalOrder)]
      ensures var p, b := d.planetID, Enlist(d, s'.arrivalOrder);
        var fought := Skirmish(Join(jediQs[p], b, true), Join(sithQs[p], b, false));
        && jediQs' == jediQs[p := fought.0] && sithQs' == sithQs[p := fought.1]
        && s'.totalBattles == s.totalBattles + |fought.2|
        && multiset(planets[p].low) + multiset(planets[p].high)
           == old(multiset(planets[p].low) + multiset(planets[p].high)) + multiset(Doubled(fought.2))
      ensures Tally(generals[..]) == Enroll(old(Tally(generals[..])), d)
    {
      var s1, jediQs1, sithQs1 := Arrive(d, s, jediQs, sithQs);
      s', jediQs', sithQs' := Settle(d.planetID, d.timestamp, s1, jediQs1, sithQs1);
      PushThenFight(jediQs, sithQs, d.planetID, Enlist(d, s1.arrivalOrder), jediQs1, sithQs1, jediQs', sithQs');
      TallyCredited(old(generals[..]), d, s1.arrivalOrder);
    }

    /**
     * The rest of one pass of the loop of `readDL`, once the battalion is on planet `p`: the
     * median check (print the medians when `now` starts a new time, in median mode, then
     * move the current timestamp), then the battles on `p`.
     */
    method Settle(p: nat, now: int, s: Progress, ghost jediQs: seq<seq<Battalion>>, ghost sithQs: seq<seq<Battalion>>)
      returns (s': Progress, ghost jediQs': seq<seq<Battalion>>, ghost sithQs': seq<seq<Battalion>>)
      requires Pending(p, s.arrivalOrder, now, jediQs, sithQs) && s.previousTimestamp == now
      modifies generals, planets[p]
      ensures Valid(s', jediQs', sithQs')
      ensures s'.arrivalOrder == s.arrivalOrder && s'.previousTimestamp == now && s'.currentTimestamp == now
      ensures s'.medianLog == s.medianLog +
        (if config.median && now != s.currentTimestamp then [MedianReport(s.currentTimestamp, old(Medians(planets)))] else [])
      ensures var fought := Skirmish(jediQs[p], sithQs[p]);
        && jediQs' == jediQs[p := fought.0] && sithQs' == sithQs[p := fought.1]
        && s'.totalBattles == s.totalBattles + |fought.2|
        && multiset(planets[p].low) + multiset(planets[p].high)
           == old(multiset(planets[p].low) + multiset(planets[p].high)) + multiset(Doubled(fought.2))
      ensures planets[p].history == old(planets[p].history)
      ensures Tally(generals[..]) == old(Tally(generals[..]))
    {
      var s1 := MedianCheck(now, s);
      s', jediQs', sithQs' := Fight(p, s1, jediQs, sithQs);
    }

    /**
     * The median check of `readDL`: when `now` differs from the current timestamp, print
     * every planet's median at the current timestamp (median mode) and move the current
     * timestamp to `now`. Nothing else changes.
     */
    method MedianCheck(now: int, s: Progress) returns (s': Progress)
      ensures s' == s.(currentTimestamp := now, medianLog := s.medianLog +
        (if config.median && now != s.currentTimestamp then [MedianReport(s.currentTimestamp, Medians(planets))] else []))
    {
      s' := s;
      if now != s.currentTimestamp {
        if config.median {
          var medians := MedianSnapshot();
          s' := s'.(medianLog := s'.medianLog + [MedianReport(s.currentTimestamp, medians)]);
        }
        s' := s'.(currentTimestamp := now);
      }
    }

    /**
     * The loop of `readDL` over the deployment list `ds`, from an empty simulation: it stops
     * at the first deployment that fails its checks, after accepting every one before it.
     * Every accepted battalion lands on its planet and the median lines carry the times the
     * loop reports, in increasing order.
     */
    method Run(ds: seq<Deployment>)
      returns (outcome: Outcome<InputError>, accepted: nat, s: Progress,
               ghost jediQs: seq<seq<Battalion>>, ghost sithQs: seq<seq<Battalion>>)
      requires Valid(Start, seq(|planets|, _ => []), seq(|planets|, _ => []))
      requires forall g :: 0 <= g < generals.Length ==> generals[g] == NewGeneral
      modifies generals, planets
      ensures (outcome, accepted) == Verdict(config, ds, 0)
      ensures Accepted(ds, accepted, s, jediQs, sithQs)
    {
      s, jediQs, sithQs := Start, seq(|planets|, _ => []), seq(|planets|, _ => []);
      outcome, accepted := Pass, 0;
      Begin(config, ds);
      NoneAccepted(ds);
      while accepted < |ds|
        invariant outcome == Pass && Accepted(ds, accepted, s, jediQs, sithQs)
        invariant Verdict(config, ds, 0) == Resume(config, ds, accepted, s.previousTimestamp)
      {
        outcome, s, jediQs, sithQs := Advance(ds, accepted, s, jediQs, sithQs);
        if outcome.Fail? {
          break;
        }
        accepted := accepted + 1;
      }
      if outcome.Pass? {
        Finish(config, ds, s.previousTimestamp);
      }
    }

    /**
     * The state of `readDL` once it has accepted the first `k` deployments of `ds`: settled
     * (`Valid`), `k` arrivals counted, the current timestamp that of deployment `k - 1` (0
     * before the first), the median lines logged for the times the loop reports, and the
     * queues, battle count and deployed counts those of the replay of `ds[..k]`.
     */
    ghost predicate Accepted(ds: seq<Deployment>, k: nat, s: Progress, jediQs: seq<seq<Battalion>>, sithQs: seq<seq<Battalion>>)
      reads this, generals, planets
    {
      && k <= |ds| && Valid(s, jediQs, sithQs) && s.arrivalOrder == k
      && s.currentTimestamp == (if k == 0 then 0 else ds[k - 1].timestamp)
      && Stamps(s.medianLog) == (if config.median then ReportTimes(ds[..k], 0) else [])
      && Chronological(s.medianLog, s.currentTimestamp)
      && Replayed(config, ds[..k], jediQs, sithQs, s.totalBattles, Tally(generals[..]))
    }

    /** An empty simulation has accepted none of the deployments. */
    lemma NoneAccepted(ds: seq<Deployment>)
      requires Valid(Start, seq(|planets|, _ => []), seq(|planets|, _ => []))
      requires forall g :: 0 <= g < generals.Length ==> generals[g] == NewGeneral
      ensures Accepted(ds, 0, Start, seq(|planets|, _ => []), seq(|planets|, _ => []))
    {
      assert ds[..0] == [];
      assert Tally(generals[..]) == Enrolment(config, []);
    }

    /**
     * One pass of the loop of `readDL` over `ds`, on its `k`-th deployment: the checks, and
     * if they pass, the deployment itself, after which the first `k + 1` are accepted. A
     * rejected deployment changes nothing.
     */
    method Advance(ds: seq<Deployment>, k: nat, s: Progress, ghost jediQs: seq<seq<Battalion>>, ghost sithQs: seq<seq<Battalion>>)
      returns (outcome: Outcome<InputError>, s': Progress, ghost jediQs': seq<seq<Battalion>>, ghost sithQs': seq<seq<Battalion>>)
      requires k < |ds| && Accepted(ds, k, s, jediQs, sithQs)
      modifies generals, planets
      ensures outcome == Check(config, ds[k], s.previousTimestamp)
      ensures outcome.Fail? ==>
        && s' == s && jediQs' == jediQs && sithQs' == sithQs && Accepted(ds, k, s', jediQs', sithQs')
        && Resume(config, ds, k, s.previousTimestamp) == (outcome, k)
      ensures outcome.Pass? ==>
        && Accepted(ds, k + 1, s', jediQs', sithQs')
        && Resume(config, ds, k, s.previousTimestamp) == Resume(config, ds, k + 1, s'.previousTimestamp)
    {
      var d := ds[k];
      outcome := Check(config, d, s.previousTimestamp);
      if outcome.Fail? {
        Reject(config, ds, k, s.previousTimestamp);
        s', jediQs', sithQs' := s, jediQs, sithQs;
        return;
      }
      Accept(config, ds, k, s.previousTimestamp);
      ghost var tally := Tally(generals[..]);
      s', jediQs', sithQs' := Proceed(ds, k, s, jediQs, sithQs);
      ReplayedStep(config, ds, k, s.previousTimestamp, s'.arrivalOrder, jediQs, sithQs, s.totalBattles, tally,
                   jediQs', sithQs', s'.totalBattles, Tally(generals[..]));
    }

    /** The deployment half of `Advance`, for a deployment that passed its checks. */
    method Proceed(ds: seq<Deployment>, k: nat, s: Progress, ghost jediQs: seq<seq<Battalion>>, ghost sithQs: seq<seq<Battalion>>)
      returns (s': Progress, ghost jediQs': seq<seq<Battalion>>, ghost sithQs': seq<seq<Battalion>>)
      requires k < |ds| && Valid(s, jediQs, sithQs) && s.arrivalOrder == k
      requires Check(config, ds[k], s.previousTimestamp) == Pass
      requires s.currentTimestamp == if k == 0 then 0 else ds[k - 1].timestamp
      requires Stamps(s.medianLog) == if config.median then ReportTimes(ds[..k], 0) else []
      requires Chronological(s.medianLog, s.currentTimestamp)
      modifies generals, planets[ds[k].planetID]
      ensures Valid(s', jediQs', sithQs') && Chronological(s'.medianLog, s'.currentTimestamp)
      ensures s'.arrivalOrder == k + 1 && s'.currentTimestamp == ds[k].timestamp && s'.previousTimestamp == ds[k].timestamp
      ensures Stamps(s'.medianLog) == if config.median then ReportTimes(ds[..k + 1], 0) else []
      ensures var p, b := ds[k].planetID, Enlist(ds[k], s'.arrivalOrder);
        var fought := Skirmish(Join(jediQs[p], b, true), Join(sithQs[p], b, false));
        && jediQs' == jediQs[p := fought.0] && sithQs' == sithQs[p := fought.1]
        && s'.totalBattles == s.totalBattles + |fought.2|
      ensures Tally(generals[..]) == Enroll(old(Tally(generals[..])), ds[k])
      ensures s'.medianLog == s.medianLog +
        (if config.median && ds[k].timestamp != s.currentTimestamp then [MedianReport(s.currentTimestamp, old(Medians(planets)))] else [])
    {
      ghost var line := MedianReport(s.currentTimestamp, Medians(planets));
      s', jediQs', sithQs' := Step(ds[k], s, jediQs, sithQs);
      assert Stamps(s'.medianLog) == (if config.median then ReportTimes(ds[..k + 1], 0) else [])
        && Chronological(s'.medianLog, ds[k].timestamp) by {
        Logged(ds, k, config.median, s.medianLog, s'.medianLog, line);
      }
    }

    /** `printMedianOut`: the median of every planet, read off the tops of its two heaps. */
    method MedianSnapshot() returns (medians: seq<Option<int>>)
      ensures medians == Medians(planets)
    {
      medians := [];
      var i := 0;
      while i < |planets|
        invariant 0 <= i <= |planets|
        invariant medians == Medians(planets[..i])
      {
        var p := planets[i];
        assert planets[..i + 1][..i] == planets[..i];
        medians := medians + [MedianOf(p.low, p.high)];
        i := i + 1;
      }
      assert planets[..|planets|] == planets;
    }

    /**
     * The battle loop of `readDL` on planet `p`, after the median check: the battles
     * `Skirmish` lists for the planet's queues, each one counted in `totalBattles`, its
     * losses charged to the ledger and twice its loss added to the planet's median heaps.
     */
    method Fight(p: nat, s: Progress, ghost jediQs: seq<seq<Battalion>>, ghost sithQs: seq<seq<Battalion>>)
      returns (s': Progress, ghost jediQs': seq<seq<Battalion>>, ghost sithQs': seq<seq<Battalion>>)
      requires Pending(p, s.arrivalOrder, s.previousTimestamp, jediQs, sithQs)
      requires s.currentTimestamp == s.previousTimestamp
      modifies generals, planets[p]
      ensures Valid(s', jediQs', sithQs')
      ensures s' == s.(totalBattles := s'.totalBattles) && s'.totalBattles >= s.totalBattles
      ensures var fought := Skirmish(jediQs[p], sithQs[p]);
        && jediQs' == jediQs[p := fought.0] && sithQs' == sithQs[p := fought.1]
        && s'.totalBattles == s.totalBattles + |fought.2|
        && multiset(planets[p].low) + multiset(planets[p].high)
           == old(multiset(planets[p].low) + multiset(planets[p].high)) + multiset(Doubled(fought.2))
      ensures planets[p].history == old(planets[p].history)
      ensures Tally(generals[..]) == old(Tally(generals[..]))
    {
      var current := planets[p];
      assert current.Ready(config.numGenerals, s.arrivalOrder, s.previousTimestamp, config.watcher);
      var battles := current.Drain(generals);
      s' := s.(totalBattles := s.totalBattles + battles);
      jediQs', sithQs' := jediQs[p := current.jedi], sithQs[p := current.sith];
      Battles(old(generals[..]), jediQs, sithQs, generals[..], p, current.jedi, current.sith);
    }

    /** `printGeneralEvalOutput`: one line per general, in general order. */
    method Evaluation() returns (lines: seq<EvalLine>)
      ensures |lines| == generals.Length
      ensures forall g :: 0 <= g < |lines| ==> lines[g] == EvalLineOf(generals[g])
    {
      lines := [];
      var g := 0;
      while g < generals.Length
        invariant 0 <= g <= generals.Length && |lines| == g
        invariant forall i :: 0 <= i < g ==> lines[i] == EvalLineOf(generals[i])
      {
        lines := lines + [EvalLineOf(generals[g])];
        g := g + 1;
      }
    }

    /** `printMovieWatcherOutput`: the ambush line and the attack line of every planet, in planet order. */
    method Sightings() returns (lines: seq<(Sighting, Sighting)>)
      ensures |lines| == |planets|
      ensures forall p :: 0 <= p < |lines| ==>
        lines[p] == (AmbushSighting(planets[p].movie), AttackSighting(planets[p].movie))
    {
      lines := [];
      var p := 0;
      while p < |planets|
        invariant 0 <= p <= |planets| && |lines| == p
        invariant forall i :: 0 <= i < p ==> lines[i] == (AmbushSighting(planets[i].movie), AttackSighting(planets[i].movie))
      {
        var md := planets[p].movie;
        lines := lines + [(AmbushSighting(md), AttackSighting(md))];
        p := p + 1;
      }
    }

    /**
     * Between deployments the survivors a general's evaluation line reports are the troops
     * that general still holds in the queues of all planets, and so never negative.
     */
    lemma SurvivorsHeld(s: Progress, jediQs: seq<seq<Battalion>>, sithQs: seq<seq<Battalion>>, g: nat)
      requires Valid(s, jediQs, sithQs) && g < generals.Length
      ensures EvalLineOf(generals[g]).survived == SumTroops(jediQs, g) + SumTroops(sithQs, g)
      ensures EvalLineOf(generals[g]).survived >= 0
    {
      forall p, i | 0 <= p < |jediQs| && 0 <= i < |jediQs[p]| ensures jediQs[p][i].troops > 0 {
        assert planets[p].Settled(config.numGenerals, s.arrivalOrder, s.currentTimestamp, config.watcher);
      }
      forall p, i | 0 <= p < |sithQs| && 0 <= i < |sithQs[p]| ensures sithQs[p][i].troops > 0 {
        assert planets[p].Settled(config.numGenerals, s.arrivalOrder, s.currentTimestamp, config.watcher);
      }
      SurvivorsRemain(generals[..], jediQs, sithQs, g);
    }

    /**
     * Between deployments in watcher mode, the lines for planet `p` say what its history
     * holds: an interesting ambush exactly when some Sith came before a Jedi it is at least
     * as strong as, an interesting attack exactly when some Jedi came before a Sith at least
     * as strong, each naming the pair with the largest force difference (among ties the
     * earliest later-arriving battalion, then the earliest earlier one), the only such pair.
     */
    lemma SightingsFaithful(s: Progress, jediQs: seq<seq<Battalion>>, sithQs: seq<seq<Battalion>>, p: nat)
      requires Valid(s, jediQs, sithQs) && config.watcher && p < |planets|
      ensures var h, md := planets[p].history, planets[p].movie;
        && (AmbushSighting(md).Enjoyed? <==> exists i, j :: AmbushPair(h, i, j))
        && (AmbushSighting(md).Enjoyed? ==> exists i, j ::
              && BestAmbush(h, i, j) && AmbushSighting(md).first == h[i].timestamp
              && AmbushSighting(md).second == h[j].timestamp && AmbushSighting(md).difference == h[i].force - h[j].force)
        && (AttackSighting(md).Enjoyed? <==> exists i, j :: AttackPair(h, i, j))
        && (AttackSighting(md).Enjoyed? ==> exists i, j ::
              && BestAttack(h, i, j) && AttackSighting(md).first == h[i].timestamp
              && AttackSighting(md).second == h[j].timestamp && AttackSighting(md).difference == h[j].force - h[i].force)
        && (AmbushSighting(md).Enjoyed? ==> forall i, j :: BestAmbush(h, i, j) ==>
              AmbushSighting(md).first == h[i].timestamp && AmbushSighting(md).second == h[j].timestamp)
        && (AttackSighting(md).Enjoyed? ==> forall i, j :: BestAttack(h, i, j) ==>
              AttackSighting(md).first == h[i].timestamp && AttackSighting(md).second == h[j].timestamp)
    {
      assert planets[p].Settled(config.numGenerals, s.arrivalOrder, s.currentTimestamp, config.watcher);
      AmbushSightingMeans(planets[p].history);
      AttackSightingMeans(planets[p].history);
    }

    /**
     * The end of `readDL`: the final median line with the current timestamp (median mode),
     * the battle count, then the general evaluation and the watcher lines when those modes
     * are on. Every general's survivor count is the troops it still holds.
     */
    method EndOfDay(s: Progress, ghost jediQs: seq<seq<Battalion>>, ghost sithQs: seq<seq<Battalion>>, ghost ds: seq<Deployment>)
      returns (summary: DaySummary)
      requires Valid(s, jediQs, sithQs)
      requires Replayed(config, ds, jediQs, sithQs, s.totalBattles, Tally(generals[..]))
      requires s.currentTimestamp == if ds == [] then 0 else ds[|ds| - 1].timestamp
      ensures summary.finalMedians == if config.median then Some(MedianReport(s.currentTimestamp, Medians(planets))) else None
      ensures summary.battles == s.totalBattles
      ensures config.generalEval ==> |summary.evaluation| == generals.Length
      ensures config.generalEval ==> forall g :: 0 <= g < generals.Length ==>
        summary.evaluation[g] == EvalLineOf(generals[g]) && summary.evaluation[g].survived >= 0
      ensures !config.generalEval ==> summary.evaluation == []
      ensures config.watcher ==> |summary.movie| == |planets|
      ensures config.watcher ==> forall p :: 0 <= p < |planets| ==>
        summary.movie[p] == (AmbushSighting(planets[p].movie), AttackSighting(planets[p].movie))
      ensures !config.watcher ==> summary.movie == []
      ensures DayReported(config, ds, summary)
    {
      var finalMedians := None;
      if config.median {
        var medians := MedianSnapshot();
        finalMedians := Some(MedianReport(s.currentTimestamp, medians));
      }
      var evaluation := [];
      if config.generalEval {
        evaluation := Evaluation();
        forall g | 0 <= g < generals.Length
          ensures EvalLineOf(generals[g]).survived == SumTroops(jediQs, g) + SumTroops(sithQs, g) >= 0
        {
          SurvivorsHeld(s, jediQs, sithQs, g);
        }
        EvaluationReplayed(config, ds, generals[..], jediQs, sithQs, s.totalBattles, evaluation);
      }
      var movie := [];
      if config.watcher {
        movie := Sightings();
      }
      summary := DaySummary(finalMedians, s.totalBattles, evaluation, movie);
    }

    /**
     * `readDL` from an empty simulation: the deployment loop, then (if no deployment was
     * rejected) the end-of-day output. The median lines of the loop report the times the
     * loop reports; the final one reports the timestamp of the last deployment, or 0.
     */
    method ReadDL(ds: seq<Deployment>)
      returns (outcome: Outcome<InputError>, accepted: nat, medianLines: seq<MedianReport>, summary: Option<DaySummary>)
      requires Valid(Start, seq(|planets|, _ => []), seq(|planets|, _ => []))
      requires forall g :: 0 <= g < generals.Length ==> generals[g] == NewGeneral
      modifies generals, planets
      ensures (outcome, accepted) == Verdict(config, ds, 0)
      ensures summary.Some? <==> outcome.Pass?
      ensures Stamps(medianLines) == if config.median then ReportTimes(ds[..accepted], 0) else []
      ensures Chronological(medianLines, if accepted == 0 then 0 else ds[accepted - 1].timestamp)
      ensures summary.Some? ==> DayReported(config, ds, summary.value)
    {
      var s;
      ghost var jediQs, sithQs;
      outcome, accepted, s, jediQs, sithQs := Run(ds);
      medianLines := s.medianLog;
      summary := None;
      if outcome.Pass? {
        var day := EndOfDay(s, jediQs, sithQs, ds[..accepted]);
        assert ds[..accepted] == ds;
        summary := Some(day);
      }
    }
  }

  /**
   * The deployment-list path of `readInput`: a fresh `SimulationInput` for the header's sizes,
   * then `readDL` over the deployments.
   */
  method ReadInput(cfg: Config, ds: seq<Deployment>)
    returns (outcome: Outcome<InputError>, accepted: nat, medianLines: seq<MedianReport>, summary: Option<DaySummary>)
    ensures (outcome, accepted) == Verdict(cfg, ds, 0)
    ensures summary.Some? <==> outcome.Pass?
    ensures Stamps(medianLines) == if cfg.median then ReportTimes(ds[..accepted], 0) else []
    ensures summary.Some? ==> DayReported(cfg, ds, summary.value)
  {
    var sim := new Simulation(cfg);
    outcome, accepted, medianLines, summary := sim.ReadDL(ds);
  }
}
