/**
 * The movie watcher of one planet: a single forward pass over the deployments routed to the
 * planet that keeps the most interesting ambush (a Sith waiting for a later, weaker Jedi)
 * and the most interesting attack (a Jedi met by a later, stronger Sith).
 */
module MovieWatcher {
  import opened Battalions

  /** The `movie_data` record of a planet. */
  datatype MovieData = MovieData(
    minAttackJedi: Battalion,
    minAmbushJedi: Battalion,
    maxAttackSith: Battalion,
    maxAmbushSith: Battalion,
    hasAmbushJedi: bool,
    hasAmbushSith: bool,
    hasAttackJedi: bool,
    hasAttackSith: bool,
    maybeAttackJedi: Battalion,
    maybeAmbushSith: Battalion)

  const Blank := Battalion(0, 0, 0, false, 0, 0, 0)

  /** The record of a planet before any deployment. */
  const NoMovie := MovieData(Blank, Blank, Blank, Blank, false, false, false, false, Blank, Blank)

  /** A Jedi arrives: pair it with the strongest Sith seen so far if that makes a better ambush. */
  function AmbushCheck(md: MovieData, jedi: Battalion): (r: MovieData)
    ensures r.(maxAmbushSith := md.maxAmbushSith, minAmbushJedi := md.minAmbushJedi, hasAmbushJedi := md.hasAmbushJedi) == md
    ensures md.hasAmbushJedi ==> r.hasAmbushJedi
    ensures r != md ==>
      && r.hasAmbushJedi && md.hasAmbushSith && r.maxAmbushSith == md.maybeAmbushSith && r.minAmbushJedi == jedi
      && r.maxAmbushSith.timestamp <= jedi.timestamp && jedi.force <= r.maxAmbushSith.force
    ensures r != md && md.hasAmbushJedi ==>
      md.maxAmbushSith.force - md.minAmbushJedi.force <= r.maxAmbushSith.force - r.minAmbushJedi.force
  {
    if !md.hasAmbushSith then md
    else
      var sith := md.maybeAmbushSith;
      if sith.timestamp <= jedi.timestamp && sith.force >= jedi.force then
        var diff := sith.force - jedi.force;
        var currDiff := md.maxAmbushSith.force - md.minAmbushJedi.force;
        var replace := !md.hasAmbushJedi || diff > currDiff
          || (diff == currDiff && sith.timestamp < md.maxAmbushSith.timestamp);
        if replace then md.(maxAmbushSith := sith, minAmbushJedi := jedi, hasAmbushJedi := true) else md
      else md
  }

  /** A Jedi arrives: remember it if it is weaker than every Jedi seen so far. */
  function TrackWeakestJedi(md: MovieData, jedi: Battalion): (r: MovieData)
    ensures r.(maybeAttackJedi := md.maybeAttackJedi, hasAttackJedi := md.hasAttackJedi) == md
    ensures r.hasAttackJedi && r.maybeAttackJedi.force <= jedi.force
    ensures r.maybeAttackJedi == jedi || (md.hasAttackJedi && r.maybeAttackJedi == md.maybeAttackJedi)
    ensures md.hasAttackJedi ==> r.maybeAttackJedi.force <= md.maybeAttackJedi.force
    ensures md.hasAttackJedi && md.maybeAttackJedi.force == jedi.force ==> r.maybeAttackJedi == md.maybeAttackJedi
  {
    if !md.hasAttackJedi || jedi.force < md.maybeAttackJedi.force then
      md.(maybeAttackJedi := jedi, hasAttackJedi := true)
    else md
  }

  /** A Sith arrives: remember it if it is stronger than every Sith seen so far. */
  function TrackStrongestSith(md: MovieData, sith: Battalion): (r: MovieData)
    ensures r.(maybeAmbushSith := md.maybeAmbushSith, hasAmbushSith := md.hasAmbushSith) == md
    ensures r.hasAmbushSith && sith.force <= r.maybeAmbushSith.force
    ensures r.maybeAmbushSith == sith || (md.hasAmbushSith && r.maybeAmbushSith == md.maybeAmbushSith)
    ensures md.hasAmbushSith ==> md.maybeAmbushSith.force <= r.maybeAmbushSith.force
    ensures md.hasAmbushSith && md.maybeAmbushSith.force == sith.force ==> r.maybeAmbushSith == md.maybeAmbushSith
  {
    if !md.hasAmbushSith || sith.force > md.maybeAmbushSith.force then
      md.(maybeAmbushSith := sith, hasAmbushSith := true)
    else md
  }

  /** A Sith arrives: pair it with the weakest Jedi seen so far if that makes a better attack. */
  function AttackCheck(md: MovieData, sith: Battalion): (r: MovieData)
    ensures r.(maxAttackSith := md.maxAttackSith, minAttackJedi := md.minAttackJedi, hasAttackSith := md.hasAttackSith) == md
    ensures md.hasAttackSith ==> r.hasAttackSith
    ensures r != md ==>
      && r.hasAttackSith && md.hasAttackJedi && r.minAttackJedi == md.maybeAttackJedi && r.maxAttackSith == sith
      && r.minAttackJedi.timestamp <= sith.timestamp && r.minAttackJedi.force <= sith.force
    ensures r != md && md.hasAttackSith ==>
      md.maxAttackSith.force - md.minAttackJedi.force <= r.maxAttackSith.force - r.minAttackJedi.force
  {
    if !md.hasAttackJedi then md
    else
      var jedi := md.maybeAttackJedi;
      if jedi.timestamp <= sith.timestamp && sith.force >= jedi.force then
        var diff := sith.force - jedi.force;
        var currDiff := md.maxAttackSith.force - md.minAttackJedi.force;
        var replace := !md.hasAttackSith || diff > currDiff
          || (diff == currDiff && jedi.timestamp < md.minAttackJedi.timestamp);
        if replace then md.(maxAttackSith := sith, minAttackJedi := jedi, hasAttackSith := true) else md
      else md
  }

  /** The watcher's update for one deployment. */
  function Watch(md: MovieData, b: Battalion): (r: MovieData)
    ensures b.isJedi ==>
      && r.hasAttackJedi && r.maybeAttackJedi.force <= b.force
      && r.(maxAmbushSith := md.maxAmbushSith, minAmbushJedi := md.minAmbushJedi, hasAmbushJedi := md.hasAmbushJedi,
            maybeAttackJedi := md.maybeAttackJedi, hasAttackJedi := md.hasAttackJedi) == md
    ensures !b.isJedi ==>
      && r.hasAmbushSith && b.force <= r.maybeAmbushSith.force
      && r.(maxAttackSith := md.maxAttackSith, minAttackJedi := md.minAttackJedi, hasAttackSith := md.hasAttackSith,
            maybeAmbushSith := md.maybeAmbushSith, hasAmbushSith := md.hasAmbushSith) == md
  {
    if b.isJedi then TrackWeakestJedi(AmbushCheck(md, b), b)
    else AttackCheck(TrackStrongestSith(md, b), b)
  }

  /** The watcher's record after the deployments `h` of one planet, in arrival order. */
  function WatchAll(h: seq<Battalion>): MovieData {
    if h == [] then NoMovie else Watch(WatchAll(h[..|h| - 1]), h[|h| - 1])
  }

  /** One more deployment on the planet is one more step of the watcher. */
  lemma WatchAllPush(h: seq<Battalion>, b: Battalion)
    ensures WatchAll(h + [b]) == Watch(WatchAll(h), b)
  {
    assert (h + [b])[..|h|] == h;
  }

  /** The end-of-run report names an ambush for this planet. */
  predicate AmbushReportable(md: MovieData) {
    md.hasAmbushJedi && md.hasAmbushSith && md.maxAmbushSith.force - md.minAmbushJedi.force >= 0
  }

  /** The end-of-run report names an attack for this planet. */
  predicate AttackReportable(md: MovieData) {
    md.hasAttackJedi && md.hasAttackSith && md.maxAttackSith.force - md.minAttackJedi.force >= 0
  }

  // ---------------------------------------------------------------------------------------
  // What the record means, stated over the history `h` of deployments on the planet.

  ghost predicate TimesSorted(h: seq<Battalion>) {
    forall i, j :: 0 <= i < j < |h| ==> h[i].timestamp <= h[j].timestamp
  }

  /** The Sith at `i` arrived before the Jedi at `j` and is at least as strong. */
  ghost predicate AmbushPair(h: seq<Battalion>, i: int, j: int) {
    0 <= i < j < |h| && !h[i].isJedi && h[j].isJedi && h[i].force >= h[j].force
  }

  /** The Jedi at `i` arrived before the Sith at `j`, which is at least as strong. */
  ghost predicate AttackPair(h: seq<Battalion>, i: int, j: int) {
    0 <= i < j < |h| && h[i].isJedi && !h[j].isJedi && h[j].force >= h[i].force
  }

  /**
   * No ambush has a larger force difference; among the ambushes with the same difference
   * this one has the earliest Jedi, and with that Jedi the earliest Sith.
   */
  ghost predicate BestAmbush(h: seq<Battalion>, i: int, j: int) {
    && AmbushPair(h, i, j)
    && forall i', j' :: AmbushPair(h, i', j') ==>
         || h[i'].force - h[j'].force < h[i].force - h[j].force
         || (h[i'].force - h[j'].force == h[i].force - h[j].force && j <= j' && (j == j' ==> i <= i'))
  }

  /**
   * No attack has a larger force difference; among the attacks with the same difference
   * this one has the earliest Sith, and with that Sith the earliest Jedi.
   */
  ghost predicate BestAttack(h: seq<Battalion>, i: int, j: int) {
    && AttackPair(h, i, j)
    && forall i', j' :: AttackPair(h, i', j') ==>
         || h[j'].force - h[i'].force < h[j].force - h[i].force
         || (h[j'].force - h[i'].force == h[j].force - h[i].force && j <= j' && (j == j' ==> i <= i'))
  }

  /** The Sith at `k` is the strongest Sith of `h`, and the first to reach that force. */
  ghost predicate StrongestSith(h: seq<Battalion>, k: int) {
    && 0 <= k < |h| && !h[k].isJedi
    && (forall i :: 0 <= i < |h| && !h[i].isJedi ==> h[i].force <= h[k].force)
    && (forall i :: 0 <= i < k && !h[i].isJedi ==> h[i].force < h[k].force)
  }

  /** The Jedi at `k` is the weakest Jedi of `h`, and the first to reach that force. */
  ghost predicate WeakestJedi(h: seq<Battalion>, k: int) {
    && 0 <= k < |h| && h[k].isJedi
    && (forall i :: 0 <= i < |h| && h[i].isJedi ==> h[k].force <= h[i].force)
    && (forall i :: 0 <= i < k && h[i].isJedi ==> h[k].force < h[i].force)
  }

  ghost predicate HasSith(h: seq<Battalion>) {
    exists k :: 0 <= k < |h| && !h[k].isJedi
  }

  ghost predicate HasJedi(h: seq<Battalion>) {
    exists k :: 0 <= k < |h| && h[k].isJedi
  }

  ghost predicate SithCandidate(md: MovieData, h: seq<Battalion>) {
    && (md.hasAmbushSith <==> HasSith(h))
    && (md.hasAmbushSith ==> exists k :: StrongestSith(h, k) && md.maybeAmbushSith == h[k])
  }

  ghost predicate JediCandidate(md: MovieData, h: seq<Battalion>) {
    && (md.hasAttackJedi <==> HasJedi(h))
    && (md.hasAttackJedi ==> exists k :: WeakestJedi(h, k) && md.maybeAttackJedi == h[k])
  }

  ghost predicate AmbushTracked(md: MovieData, h: seq<Battalion>) {
    && (md.hasAmbushJedi <==> exists i, j :: AmbushPair(h, i, j))
    && (md.hasAmbushJedi ==>
          exists i, j :: BestAmbush(h, i, j) && md.maxAmbushSith == h[i] && md.minAmbushJedi == h[j])
  }

  ghost predicate AttackTracked(md: MovieData, h: seq<Battalion>) {
    && (md.hasAttackSith <==> exists i, j :: AttackPair(h, i, j))
    && (md.hasAttackSith ==>
          exists i, j :: BestAttack(h, i, j) && md.minAttackJedi == h[i] && md.maxAttackSith == h[j])
  }

  ghost predicate Tracks(md: MovieData, h: seq<Battalion>) {
    SithCandidate(md, h) && JediCandidate(md, h) && AmbushTracked(md, h) && AttackTracked(md, h)
  }

  // ---------------------------------------------------------------------------------------
  // Appending one deployment.

  lemma PairsExtend(h: seq<Battalion>, b: Battalion)
    ensures forall i, j :: AmbushPair(h + [b], i, j) <==>
      AmbushPair(h, i, j) || (j == |h| && 0 <= i < |h| && !h[i].isJedi && b.isJedi && h[i].force >= b.force)
    ensures forall i, j :: AttackPair(h + [b], i, j) <==>
      AttackPair(h, i, j) || (j == |h| && 0 <= i < |h| && h[i].isJedi && !b.isJedi && b.force >= h[i].force)
  {
    assert forall i :: 0 <= i < |h| ==> (h + [b])[i] == h[i];
  }

  /** A Jedi arrival leaves the strongest Sith where it was. */
  lemma SithCandidateOnJedi(md: MovieData, md': MovieData, h: seq<Battalion>, b: Battalion)
    requires b.isJedi && SithCandidate(md, h)
    requires md'.hasAmbushSith == md.hasAmbushSith && md'.maybeAmbushSith == md.maybeAmbushSith
    ensures SithCandidate(md', h + [b])
  {
    var h' := h + [b];
    assert forall i :: 0 <= i < |h| ==> h'[i] == h[i];
    if md.hasAmbushSith {
      var k :| StrongestSith(h, k) && md.maybeAmbushSith == h[k];
      assert StrongestSith(h', k);
    }
  }

  /** A Sith arrival leaves the weakest Jedi where it was. */
  lemma JediCandidateOnSith(md: MovieData, md': MovieData, h: seq<Battalion>, b: Battalion)
    requires !b.isJedi && JediCandidate(md, h)
    requires md'.hasAttackJedi == md.hasAttackJedi && md'.maybeAttackJedi == md.maybeAttackJedi
    ensures JediCandidate(md', h + [b])
  {
    var h' := h + [b];
    assert forall i :: 0 <= i < |h| ==> h'[i] == h[i];
    if md.hasAttackJedi {
      var k :| WeakestJedi(h, k) && md.maybeAttackJedi == h[k];
      assert WeakestJedi(h', k);
    }
  }

  /** The strict `>` keeps the earliest of the strongest Sith. */
  lemma SithCandidateOnSith(md: MovieData, h: seq<Battalion>, b: Battalion)
    requires !b.isJedi && SithCandidate(md, h)
    ensures SithCandidate(TrackStrongestSith(md, b), h + [b])
  {
    var h', n := h + [b], |h|;
    var md' := TrackStrongestSith(md, b);
    assert forall i :: 0 <= i < n ==> h'[i] == h[i];
    assert h'[n] == b;
    if md.hasAmbushSith {
      var k :| StrongestSith(h, k) && md.maybeAmbushSith == h[k];
      if b.force > h[k].force {
        assert StrongestSith(h', n);
      } else {
        assert StrongestSith(h', k);
      }
    } else {
      assert !HasSith(h);
      assert StrongestSith(h', n);
    }
  }

  /** The strict `<` keeps the earliest of the weakest Jedi. */
  lemma JediCandidateOnJedi(md: MovieData, h: seq<Battalion>, b: Battalion)
    requires b.isJedi && JediCandidate(md, h)
    ensures JediCandidate(TrackWeakestJedi(md, b), h + [b])
  {
    var h', n := h + [b], |h|;
    assert forall i :: 0 <= i < n ==> h'[i] == h[i];
    assert h'[n] == b;
    if md.hasAttackJedi {
      var k :| WeakestJedi(h, k) && md.maybeAttackJedi == h[k];
      if b.force < h[k].force {
        assert WeakestJedi(h', n);
      } else {
        assert WeakestJedi(h', k);
      }
    } else {
      assert !HasJedi(h);
      assert WeakestJedi(h', n);
    }
  }

  /** A Sith arrival creates no ambush, so the recorded ambush stays the best. */
  lemma AmbushOnSith(md: MovieData, md': MovieData, h: seq<Battalion>, b: Battalion)
    requires !b.isJedi && AmbushTracked(md, h)
    requires md'.hasAmbushJedi == md.hasAmbushJedi
    requires md'.maxAmbushSith == md.maxAmbushSith && md'.minAmbushJedi == md.minAmbushJedi
    ensures AmbushTracked(md', h + [b])
  {
    var h' := h + [b];
    PairsExtend(h, b);
    assert forall i :: 0 <= i < |h| ==> h'[i] == h[i];
    if md.hasAmbushJedi {
      var i, j :| BestAmbush(h, i, j) && md.maxAmbushSith == h[i] && md.minAmbushJedi == h[j];
      assert BestAmbush(h', i, j);
    }
  }

  /** A Jedi arrival creates no attack, so the recorded attack stays the best. */
  lemma AttackOnJedi(md: MovieData, md': MovieData, h: seq<Battalion>, b: Battalion)
    requires b.isJedi && AttackTracked(md, h)
    requires md'.hasAttackSith == md.hasAttackSith
    requires md'.maxAttackSith == md.maxAttackSith && md'.minAttackJedi == md.minAttackJedi
    ensures AttackTracked(md', h + [b])
  {
    var h' := h + [b];
    PairsExtend(h, b);
    assert forall i :: 0 <= i < |h| ==> h'[i] == h[i];
    if md.hasAttackSith {
      var i, j :| BestAttack(h, i, j) && md.minAttackJedi == h[i] && md.maxAttackSith == h[j];
      assert BestAttack(h', i, j);
    }
  }

  /**
   * A Jedi arriving after the strongest Sith `h[k]`: every new ambush it completes is at most
   * as good as the one with `h[k]`, and one just as good has a Sith no earlier than `h[k]`.
   */
  lemma NewAmbushesBounded(h: seq<Battalion>, b: Battalion, k: int)
    requires b.isJedi && StrongestSith(h, k)
    ensures forall i :: AmbushPair(h + [b], i, |h|) ==>
      h[i].force <= h[k].force && (h[i].force == h[k].force ==> k <= i)
  {
    forall i | AmbushPair(h + [b], i, |h|)
      ensures h[i].force <= h[k].force && (h[i].force == h[k].force ==> k <= i)
    {
      assert (h + [b])[i] == h[i];
    }
  }

  /**
   * A Sith arriving after the weakest Jedi `h[k]`: every new attack it completes is at most
   * as good as the one with `h[k]`, and one just as good has a Jedi no earlier than `h[k]`.
   */
  lemma NewAttacksBounded(h: seq<Battalion>, b: Battalion, k: int)
    requires !b.isJedi && WeakestJedi(h, k)
    ensures forall i :: AttackPair(h + [b], i, |h|) ==>
      h[k].force <= h[i].force && (h[i].force == h[k].force ==> k <= i)
  {
    forall i | AttackPair(h + [b], i, |h|)
      ensures h[k].force <= h[i].force && (h[i].force == h[k].force ==> k <= i)
    {
      assert (h + [b])[i] == h[i];
    }
  }

  /**
   * The strongest Sith seen so far never arrived before the Sith of the best ambush: so the
   * ambush check's tie-break on an earlier Sith timestamp never holds.
   */
  lemma AmbushTieIsLater(h: seq<Battalion>, k: int, i0: int, j0: int)
    requires StrongestSith(h, k) && BestAmbush(h, i0, j0) && TimesSorted(h)
    ensures i0 <= k && h[i0].timestamp <= h[k].timestamp
  {
  }

  /**
   * The weakest Jedi seen so far never arrived before the Jedi of the best attack: so the
   * attack check's tie-break on an earlier Jedi timestamp never holds.
   */
  lemma AttackTieIsLater(h: seq<Battalion>, k: int, i0: int, j0: int)
    requires WeakestJedi(h, k) && BestAttack(h, i0, j0) && TimesSorted(h)
    ensures i0 <= k && h[i0].timestamp <= h[k].timestamp
  {
  }

  /** When an arrival completes no new ambush, the recorded ambush stays right. */
  lemma AmbushNoNewPair(md: MovieData, h: seq<Battalion>, b: Battalion)
    requires AmbushTracked(md, h)
    requires forall i :: !AmbushPair(h + [b], i, |h|)
    ensures AmbushTracked(md, h + [b])
  {
    var h' := h + [b];
    PairsExtend(h, b);
    assert forall i :: 0 <= i < |h| ==> h'[i] == h[i];
    if md.hasAmbushJedi {
      var i, j :| BestAmbush(h, i, j) && md.maxAmbushSith == h[i] && md.minAmbushJedi == h[j];
      assert BestAmbush(h', i, j);
    }
  }

  /** The first ambush on a planet is the best one so far. */
  lemma AmbushFirst(h: seq<Battalion>, b: Battalion, k: int)
    requires b.isJedi && StrongestSith(h, k) && h[k].force >= b.force
    requires forall i, j :: !AmbushPair(h, i, j)
    ensures BestAmbush(h + [b], k, |h|)
  {
    var h' := h + [b];
    PairsExtend(h, b);
    NewAmbushesBounded(h, b, k);
    assert h'[k] == h[k] && h'[|h|] == b;
  }

  /** A strictly better ambush becomes the best. */
  lemma AmbushReplaced(h: seq<Battalion>, b: Battalion, k: int, i0: int, j0: int)
    requires b.isJedi && StrongestSith(h, k) && h[k].force >= b.force
    requires BestAmbush(h, i0, j0)
    requires h[k].force - b.force > h[i0].force - h[j0].force
    ensures BestAmbush(h + [b], k, |h|)
  {
    var h' := h + [b];
    PairsExtend(h, b);
    NewAmbushesBounded(h, b, k);
    assert forall i :: 0 <= i < |h| ==> h'[i] == h[i];
    assert h'[|h|] == b;
  }

  /** Otherwise the recorded ambush stays the best: a tie comes with a later Jedi. */
  lemma AmbushKept(h: seq<Battalion>, b: Battalion, k: int, i0: int, j0: int)
    requires b.isJedi && StrongestSith(h, k) && h[k].force >= b.force
    requires BestAmbush(h, i0, j0)
    requires h[k].force - b.force <= h[i0].force - h[j0].force
    ensures BestAmbush(h + [b], i0, j0)
  {
    var h' := h + [b];
    PairsExtend(h, b);
    NewAmbushesBounded(h, b, k);
    assert forall i :: 0 <= i < |h| ==> h'[i] == h[i];
    assert h'[|h|] == b;
  }

  lemma TimesSortedPrefix(h: seq<Battalion>, b: Battalion)
    requires TimesSorted(h + [b])
    ensures TimesSorted(h)
    ensures forall i :: 0 <= i < |h| ==> h[i].timestamp <= b.timestamp
  {
    var h' := h + [b];
    assert forall i :: 0 <= i < |h| ==> h'[i] == h[i];
    assert h'[|h|] == b;
  }

  /** A Jedi arrival: the ambush check keeps the best ambush of the longer history. */
  lemma AmbushOnJedi(md: MovieData, h: seq<Battalion>, b: Battalion)
    requires b.isJedi && TimesSorted(h + [b]) && SithCandidate(md, h) && AmbushTracked(md, h)
    ensures AmbushTracked(AmbushCheck(md, b), h + [b])
  {
    var n := |h|;
    var md' := AmbushCheck(md, b);
    TimesSortedPrefix(h, b);
    PairsExtend(h, b);
    if !md.hasAmbushSith {
      assert forall i :: !AmbushPair(h + [b], i, n);
      AmbushNoNewPair(md, h, b);
    } else {
      var k :| StrongestSith(h, k) && md.maybeAmbushSith == h[k];
      var c := h[k];
      if c.force < b.force {
        NewAmbushesBounded(h, b, k);
        AmbushNoNewPair(md, h, b);
      } else if !md.hasAmbushJedi {
        assert md' == md.(maxAmbushSith := c, minAmbushJedi := b, hasAmbushJedi := true);
        AmbushFirst(h, b, k);
      } else {
        var i0, j0 :| BestAmbush(h, i0, j0) && md.maxAmbushSith == h[i0] && md.minAmbushJedi == h[j0];
        var d, d0 := c.force - b.force, h[i0].force - h[j0].force;
        AmbushTieIsLater(h, k, i0, j0);
        if d > d0 || (d == d0 && c.timestamp < h[i0].timestamp) {
          assert md' == md.(maxAmbushSith := c, minAmbushJedi := b, hasAmbushJedi := true);
          AmbushReplaced(h, b, k, i0, j0);
        } else {
          assert md' == md;
          AmbushKept(h, b, k, i0, j0);
        }
      }
    }
  }

  /** When an arrival completes no new attack, the recorded attack stays right. */
  lemma AttackNoNewPair(md: MovieData, h: seq<Battalion>, b: Battalion)
    requires AttackTracked(md, h)
    requires forall i :: !AttackPair(h + [b], i, |h|)
    ensures AttackTracked(md, h + [b])
  {
    var h' := h + [b];
    PairsExtend(h, b);
    assert forall i :: 0 <= i < |h| ==> h'[i] == h[i];
    if md.hasAttackSith {
      var i, j :| BestAttack(h, i, j) && md.minAttackJedi == h[i] && md.maxAttackSith == h[j];
      assert BestAttack(h', i, j);
    }
  }

  /** The first attack on a planet is the best one so far. */
  lemma AttackFirst(h: seq<Battalion>, b: Battalion, k: int)
    requires !b.isJedi && WeakestJedi(h, k) && b.force >= h[k].force
    requires forall i, j :: !AttackPair(h, i, j)
    ensures BestAttack(h + [b], k, |h|)
  {
    var h' := h + [b];
    PairsExtend(h, b);
    NewAttacksBounded(h, b, k);
    assert h'[k] == h[k] && h'[|h|] == b;
  }

  /** A strictly better attack becomes the best. */
  lemma AttackReplaced(h: seq<Battalion>, b: Battalion, k: int, i0: int, j0: int)
    requires !b.isJedi && WeakestJedi(h, k) && b.force >= h[k].force
    requires BestAttack(h, i0, j0)
    requires b.force - h[k].force > h[j0].force - h[i0].force
    ensures BestAttack(h + [b], k, |h|)
  {
    var h' := h + [b];
    PairsExtend(h, b);
    NewAttacksBounded(h, b, k);
    assert forall i :: 0 <= i < |h| ==> h'[i] == h[i];
    assert h'[|h|] == b;
  }

  /** Otherwise the recorded attack stays the best: a tie comes with a later Sith. */
  lemma AttackKept(h: seq<Battalion>, b: Battalion, k: int, i0: int, j0: int)
    requires !b.isJedi && WeakestJedi(h, k) && b.force >= h[k].force
    requires BestAttack(h, i0, j0)
    requires b.force - h[k].force <= h[j0].force - h[i0].force
    ensures BestAttack(h + [b], i0, j0)
  {
    var h' := h + [b];
    PairsExtend(h, b);
    NewAttacksBounded(h, b, k);
    assert forall i :: 0 <= i < |h| ==> h'[i] == h[i];
    assert h'[|h|] == b;
  }

  /** A Sith arrival: the attack check keeps the best attack of the longer history. */
  lemma AttackOnSith(md: MovieData, h: seq<Battalion>, b: Battalion)
    requires !b.isJedi && TimesSorted(h + [b]) && JediCandidate(md, h) && AttackTracked(md, h)
    ensures AttackTracked(AttackCheck(md, b), h + [b])
  {
    var n := |h|;
    var md' := AttackCheck(md, b);
    TimesSortedPrefix(h, b);
    PairsExtend(h, b);
    if !md.hasAttackJedi {
      assert forall i :: !AttackPair(h + [b], i, n);
      AttackNoNewPair(md, h, b);
    } else {
      var k :| WeakestJedi(h, k) && md.maybeAttackJedi == h[k];
      var w := h[k];
      if b.force < w.force {
        NewAttacksBounded(h, b, k);
        AttackNoNewPair(md, h, b);
      } else if !md.hasAttackSith {
        assert md' == md.(maxAttackSith := b, minAttackJedi := w, hasAttackSith := true);
        AttackFirst(h, b, k);
      } else {
        var i0, j0 :| BestAttack(h, i0, j0) && md.minAttackJedi == h[i0] && md.maxAttackSith == h[j0];
        var d, d0 := b.force - w.force, h[j0].force - h[i0].force;
        AttackTieIsLater(h, k, i0, j0);
        if d > d0 || (d == d0 && w.timestamp < h[i0].timestamp) {
          assert md' == md.(maxAttackSith := b, minAttackJedi := w, hasAttackSith := true);
          AttackReplaced(h, b, k, i0, j0);
        } else {
          assert md' == md;
          AttackKept(h, b, k, i0, j0);
        }
      }
    }
  }

  /** A Jedi arrival keeps the record faithful to the history. */
  lemma WatchJediStep(md: MovieData, h: seq<Battalion>, b: Battalion)
    requires b.isJedi && Tracks(md, h) && TimesSorted(h + [b])
    ensures Tracks(Watch(md, b), h + [b])
  {
    var md1 := AmbushCheck(md, b);
    var md2 := TrackWeakestJedi(md1, b);
    AmbushOnJedi(md, h, b);
    SithCandidateOnJedi(md, md2, h, b);
    AttackOnJedi(md, md2, h, b);
    assert JediCandidate(md1, h);
    JediCandidateOnJedi(md1, h, b);
  }

  /** A Sith arrival keeps the record faithful to the history. */
  lemma WatchSithStep(md: MovieData, h: seq<Battalion>, b: Battalion)
    requires !b.isJedi && Tracks(md, h) && TimesSorted(h + [b])
    ensures Tracks(Watch(md, b), h + [b])
  {
    var md1 := TrackStrongestSith(md, b);
    var md2 := AttackCheck(md1, b);
    SithCandidateOnSith(md, h, b);
    JediCandidateOnSith(md, md2, h, b);
    AmbushOnSith(md, md2, h, b);
    assert JediCandidate(md1, h) && AttackTracked(md1, h);
    AttackOnSith(md1, h, b);
  }

  /** One deployment keeps the record faithful to the history. */
  lemma WatchStep(md: MovieData, h: seq<Battalion>, b: Battalion)
    requires Tracks(md, h) && TimesSorted(h + [b])
    ensures Tracks(Watch(md, b), h + [b])
  {
    if b.isJedi {
      WatchJediStep(md, h, b);
    } else {
      WatchSithStep(md, h, b);
    }
  }

  /** After any history with non-decreasing timestamps the record is faithful to it. */
  lemma {:induction false} WatchAllTracks(h: seq<Battalion>)
    requires TimesSorted(h)
    ensures Tracks(WatchAll(h), h)
  {
    if h == [] {
      assert !HasSith(h) && !HasJedi(h);
    } else {
      var p := h[..|h| - 1];
      assert p + [h[|h| - 1]] == h;
      assert TimesSorted(p);
      WatchAllTracks(p);
      WatchStep(WatchAll(p), p, h[|h| - 1]);
    }
  }

  // ---------------------------------------------------------------------------------------
  // What the end-of-run report can rely on.

  /**
   * An ambush is reported exactly when some Sith came before a Jedi it is at least as strong
   * as; the reported pair has the largest force difference of all such pairs, among those
   * the earliest Jedi, and with that Jedi the earliest Sith. No other pair is best.
   */
  lemma ReportedAmbushIsBest(h: seq<Battalion>)
    requires TimesSorted(h)
    ensures AmbushReportable(WatchAll(h)) <==> exists i, j :: AmbushPair(h, i, j)
    ensures AmbushReportable(WatchAll(h)) ==>
      exists i, j :: BestAmbush(h, i, j) && WatchAll(h).maxAmbushSith == h[i] && WatchAll(h).minAmbushJedi == h[j]
    ensures AmbushReportable(WatchAll(h)) ==> forall i, j :: BestAmbush(h, i, j) ==>
      WatchAll(h).maxAmbushSith == h[i] && WatchAll(h).minAmbushJedi == h[j]
  {
    WatchAllTracks(h);
    var md := WatchAll(h);
    if md.hasAmbushJedi {
      var i0, j0 :| BestAmbush(h, i0, j0) && md.maxAmbushSith == h[i0] && md.minAmbushJedi == h[j0];
      assert HasSith(h) by { assert !h[i0].isJedi; }
      forall i, j | BestAmbush(h, i, j) ensures i == i0 && j == j0 {
        assert AmbushPair(h, i, j) && AmbushPair(h, i0, j0);
      }
    }
  }

  /**
   * An attack is reported exactly when some Jedi came before a Sith at least as strong; the
   * reported pair has the largest force difference of all such pairs, among those the
   * earliest Sith, and with that Sith the earliest Jedi. No other pair is best.
   */
  lemma ReportedAttackIsBest(h: seq<Battalion>)
    requires TimesSorted(h)
    ensures AttackReportable(WatchAll(h)) <==> exists i, j :: AttackPair(h, i, j)
    ensures AttackReportable(WatchAll(h)) ==>
      exists i, j :: BestAttack(h, i, j) && WatchAll(h).minAttackJedi == h[i] && WatchAll(h).maxAttackSith == h[j]
    ensures AttackReportable(WatchAll(h)) ==> forall i, j :: BestAttack(h, i, j) ==>
      WatchAll(h).minAttackJedi == h[i] && WatchAll(h).maxAttackSith == h[j]
  {
    WatchAllTracks(h);
    var md := WatchAll(h);
    if md.hasAttackSith {
      var i0, j0 :| BestAttack(h, i0, j0) && md.minAttackJedi == h[i0] && md.maxAttackSith == h[j0];
      assert HasJedi(h) by { assert h[i0].isJedi; }
      forall i, j | BestAttack(h, i, j) ensures i == i0 && j == j0 {
        assert AttackPair(h, i, j) && AttackPair(h, i0, j0);
      }
    }
  }

  /**
   * The timestamp tie-breaks of the two checks never hold: the remembered strongest Sith
   * never arrived before the Sith of the recorded ambush, nor the remembered weakest Jedi
   * before the Jedi of the recorded attack. Only a strictly larger difference replaces a
   * recorded pair.
   */
  lemma TieBreaksNeverHold(h: seq<Battalion>)
    requires TimesSorted(h)
    ensures WatchAll(h).hasAmbushJedi ==>
      WatchAll(h).hasAmbushSith && WatchAll(h).maxAmbushSith.timestamp <= WatchAll(h).maybeAmbushSith.timestamp
    ensures WatchAll(h).hasAttackSith ==>
      WatchAll(h).hasAttackJedi && WatchAll(h).minAttackJedi.timestamp <= WatchAll(h).maybeAttackJedi.timestamp
  {
    WatchAllTracks(h);
    var md := WatchAll(h);
    if md.hasAmbushJedi {
      var i0, j0 :| BestAmbush(h, i0, j0) && md.maxAmbushSith == h[i0] && md.minAmbushJedi == h[j0];
      assert HasSith(h) by { assert !h[i0].isJedi; }
      var k :| StrongestSith(h, k) && md.maybeAmbushSith == h[k];
      AmbushTieIsLater(h, k, i0, j0);
    }
    if md.hasAttackSith {
      var i0, j0 :| BestAttack(h, i0, j0) && md.minAttackJedi == h[i0] && md.maxAttackSith == h[j0];
      assert HasJedi(h) by { assert h[i0].isJedi; }
      var k :| WeakestJedi(h, k) && md.maybeAttackJedi == h[k];
      AttackTieIsLater(h, k, i0, j0);
    }
  }

  /**
   * The remembered candidates are the strongest Sith and the weakest Jedi seen so far, each
   * the earliest among equals.
   */
  lemma CandidatesAreExtremes(h: seq<Battalion>)
    requires TimesSorted(h)
    ensures HasSith(h) ==> exists k :: StrongestSith(h, k) && WatchAll(h).maybeAmbushSith == h[k]
    ensures HasJedi(h) ==> exists k :: WeakestJedi(h, k) && WatchAll(h).maybeAttackJedi == h[k]
  {
    WatchAllTracks(h);
  }

  /** Once an ambush or attack is recorded it stays recorded, and its force difference never shrinks. */
  lemma RecordedDifferenceNeverShrinks(md: MovieData, b: Battalion)
    ensures md.hasAmbushJedi ==>
      && Watch(md, b).hasAmbushJedi
      && Watch(md, b).maxAmbushSith.force - Watch(md, b).minAmbushJedi.force >= md.maxAmbushSith.force - md.minAmbushJedi.force
    ensures md.hasAttackSith ==>
      && Watch(md, b).hasAttackSith
      && Watch(md, b).maxAttackSith.force - Watch(md, b).minAttackJedi.force >= md.maxAttackSith.force - md.minAttackJedi.force
  {
  }
}
