/**
 * The end-of-day lines of `readDL`: one general-evaluation line per general
 * (`printGeneralEvalOutput`) and one ambush and one attack line per planet
 * (`printMovieWatcherOutput`), as values.
 */
module Summary {
  import opened Battalions
  import opened Generals
  import opened MovieWatcher

  /** One line of the general evaluation: troops deployed per side, and survivors out of the total. */
  datatype EvalLine = EvalLine(jediDeployed: int, sithDeployed: int, survived: int, total: int)

  /** The general-evaluation line of general `gen`. */
  function EvalLineOf(gen: General): (r: EvalLine)
    ensures r.jediDeployed == gen.jediDeployed && r.sithDeployed == gen.sithDeployed
    ensures r.total == gen.jediDeployed + gen.sithDeployed
    ensures r.total - r.survived == gen.jediLost + gen.sithLost
  {
    EvalLine(gen.jediDeployed, gen.sithDeployed, Survived(gen), gen.jediDeployed + gen.sithDeployed)
  }

  /**
   * One watcher line: nothing interesting, or the times of the two battalions (in the order
   * the line names them) and their force difference.
   */
  datatype Sighting = Dull | Enjoyed(first: int, second: int, difference: int)

  /** The ambush line of a planet: Sith time, then Jedi time. */
  function AmbushSighting(md: MovieData): (r: Sighting)
    ensures r.Enjoyed? <==> AmbushReportable(md)
    ensures r.Enjoyed? ==> r.difference >= 0
  {
    if md.hasAmbushJedi && md.hasAmbushSith && md.maxAmbushSith.force - md.minAmbushJedi.force >= 0 then
      Enjoyed(md.maxAmbushSith.timestamp, md.minAmbushJedi.timestamp, md.maxAmbushSith.force - md.minAmbushJedi.force)
    else
      Dull
  }

  /** The attack line of a planet: Jedi time, then Sith time. */
  function AttackSighting(md: MovieData): (r: Sighting)
    ensures r.Enjoyed? <==> AttackReportable(md)
    ensures r.Enjoyed? ==> r.difference >= 0
  {
    if md.hasAttackJedi && md.hasAttackSith && md.maxAttackSith.force - md.minAttackJedi.force >= 0 then
      Enjoyed(md.minAttackJedi.timestamp, md.maxAttackSith.timestamp, md.maxAttackSith.force - md.minAttackJedi.force)
    else
      Dull
  }

  /**
   * After the watcher's pass over a planet's history, the ambush line is interesting exactly
   * when some Sith came before a Jedi it is at least as strong as, and then it names the
   * pair with the largest force difference (among ties, the earliest Jedi, then the earliest
   * Sith); every best pair has the times and difference the line prints.
   */
  lemma AmbushSightingMeans(h: seq<Battalion>)
    requires TimesSorted(h)
    ensures AmbushSighting(WatchAll(h)).Enjoyed? <==> exists i, j :: AmbushPair(h, i, j)
    ensures var r := AmbushSighting(WatchAll(h));
      r.Enjoyed? ==> exists i, j ::
        && BestAmbush(h, i, j)
        && r.first == h[i].timestamp && r.second == h[j].timestamp && r.difference == h[i].force - h[j].force
    ensures var r := AmbushSighting(WatchAll(h));
      r.Enjoyed? ==> forall i, j :: BestAmbush(h, i, j) ==>
        r.first == h[i].timestamp && r.second == h[j].timestamp && r.difference == h[i].force - h[j].force
  {
    ReportedAmbushIsBest(h);
  }

  /**
   * After the watcher's pass over a planet's history, the attack line is interesting exactly
   * when some Jedi came before a Sith at least as strong, and then it names the pair with the
   * largest force difference (among ties, the earliest Sith, then the earliest Jedi); every
   * best pair has the times and difference the line prints.
   */
  lemma AttackSightingMeans(h: seq<Battalion>)
    requires TimesSorted(h)
    ensures AttackSighting(WatchAll(h)).Enjoyed? <==> exists i, j :: AttackPair(h, i, j)
    ensures var r := AttackSighting(WatchAll(h));
      r.Enjoyed? ==> exists i, j ::
        && BestAttack(h, i, j)
        && r.first == h[i].timestamp && r.second == h[j].timestamp && r.difference == h[j].force - h[i].force
    ensures var r := AttackSighting(WatchAll(h));
      r.Enjoyed? ==> forall i, j :: BestAttack(h, i, j) ==>
        r.first == h[i].timestamp && r.second == h[j].timestamp && r.difference == h[j].force - h[i].force
  {
    ReportedAttackIsBest(h);
  }
}
