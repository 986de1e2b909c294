/**
 * A planet (`class Planet`): its two battle queues, its running-median heaps and its
 * movie-watcher record, with the battle resolution that works on them in place.
 */
module Planets {
  import opened Seqs
  import opened Battalions
  import opened RunningMedian
  import opened Generals
  import opened MovieWatcher

  /** Charge the losses of one battle to the generals of its two battalions. */
  method ChargeLosses(generals: array<General>, jediGeneral: nat, sithGeneral: nat, loss: int)
    requires jediGeneral < generals.Length && sithGeneral < generals.Length
    modifies generals
    ensures forall g :: 0 <= g < generals.Length ==>
      generals[g] == Charged(old(generals[g]), g, jediGeneral, sithGeneral, loss)
  {
    generals[jediGeneral] := generals[jediGeneral].(jediLost := generals[jediGeneral].jediLost + loss);
    generals[sithGeneral] := generals[sithGeneral].(sithLost := generals[sithGeneral].sithLost + loss);
  }

  /** What a run of battles adds to the median heaps: twice each loss, in order. */
  function Doubled(losses: seq<int>): (r: seq<int>)
    ensures |r| == |losses| && forall i :: 0 <= i < |r| ==> r[i] == 2 * losses[i]
  {
    if losses == [] then [] else Doubled(losses[..|losses| - 1]) + [2 * losses[|losses| - 1]]
  }

  /**
   * One battle of the loop is the first step of `Skirmish`: what is left to fight from the
   * new queues ends where the whole loop ends, after one more loss.
   */
  lemma FoughtOnce(jedi: seq<Battalion>, sith: seq<Battalion>, loss: int, done: seq<int>,
                   fought: (seq<Battalion>, seq<Battalion>, seq<int>))
    requires BattleDue(jedi, sith) && loss == Min(jedi[JediTop(jedi)].troops, sith[SithTop(sith)].troops)
    requires Skirmish(jedi, sith).0 == fought.0 && Skirmish(jedi, sith).1 == fought.1
    requires done + Skirmish(jedi, sith).2 == fought.2
    ensures var rest := Skirmish(Hit(jedi, JediTop(jedi), loss), Hit(sith, SithTop(sith), loss));
      && rest.0 == fought.0 && rest.1 == fought.1 && (done + [loss]) + rest.2 == fought.2
  {
    var rest := Skirmish(Hit(jedi, JediTop(jedi), loss), Hit(sith, SithTop(sith), loss));
    assert Skirmish(jedi, sith) == (rest.0, rest.1, [loss] + rest.2);
    assert done + ([loss] + rest.2) == (done + [loss]) + rest.2;
  }

  /** The heaps after one more battle hold twice its loss on top of what they held. */
  lemma HeapsAccumulate(heaps0: multiset<int>, heaps1: multiset<int>, heaps2: multiset<int>, done: seq<int>, loss: int)
    requires heaps1 == heaps0 + multiset(Doubled(done)) && heaps2 == heaps1 + multiset{2 * loss}
    ensures heaps2 == heaps0 + multiset(Doubled(done + [loss]))
  {
    assert (done + [loss])[..|done|] == done;
    assert Doubled(done + [loss]) == Doubled(done) + [2 * loss];
  }

  class Planet {
    /** `jediPQ`: the Jedi battalions still fighting; the top is `jedi[JediTop(jedi)]`. */
    var jedi: seq<Battalion>
    /** `sithPQ`: the Sith battalions still fighting; the top is `sith[SithTop(sith)]`. */
    var sith: seq<Battalion>
    /** The max-heap of the smaller half of the troops lost in battles on this planet. */
    var low: seq<int>
    /** The min-heap of the larger half. */
    var high: seq<int>
    /** `movie_data`. */
    var movie: MovieData
    /** Every battalion deployed on this planet so far, in arrival order, as it arrived. */
    ghost var history: seq<Battalion>

    /**
     * The queues hold only live battalions of their side with distinct arrival orders; the
     * heaps are balanced and split, and hold only non-negative losses.
     */
    ghost predicate Valid()
      reads this
    {
      && LiveQueue(jedi, true)
      && LiveQueue(sith, false)
      && MedianInv(low, high)
      && NonNegative(low, high)
    }

    constructor ()
      ensures Valid()
      ensures jedi == [] && sith == [] && low == [] && high == []
      ensures movie == NoMovie && history == []
    {
      jedi, sith := [], [];
      low, high := [], [];
      movie := NoMovie;
      history := [];
    }

    /**
     * What `readDL` keeps true of every planet: the planet is valid; its battalions belong to
     * the `numGenerals` generals and arrived by `maxArrival`; its history is in timestamp
     * order, no later than `now`; and its movie record is the watcher's pass over that history
     * (or untouched without the watcher).
     */
    ghost predicate Ready(numGenerals: nat, maxArrival: int, now: int, watcher: bool)
      reads this
    {
      && Valid()
      && Recruited(jedi, numGenerals) && Recruited(sith, numGenerals)
      && ArrivedBy(jedi, maxArrival) && ArrivedBy(sith, maxArrival)
      && TimesSorted(history)
      && (forall i :: 0 <= i < |history| ==> history[i].timestamp <= now)
      && movie == (if watcher then WatchAll(history) else NoMovie)
    }

    /** Between deployments a planet is also settled: no battle is due. */
    ghost predicate Settled(numGenerals: nat, maxArrival: int, now: int, watcher: bool)
      reads this
    {
      Ready(numGenerals, maxArrival, now, watcher) && !Eligible()
    }

    /** A planet nothing has been deployed on is settled. */
    lemma SettledWhenEmpty(numGenerals: nat, maxArrival: int, now: int, watcher: bool)
      requires jedi == [] && sith == [] && low == [] && high == [] && history == [] && movie == NoMovie
      ensures Settled(numGenerals, maxArrival, now, watcher)
    {
    }

    /** A settled planet stays settled as the arrival count and the clock move on. */
    lemma SettledLater(numGenerals: nat, maxArrival: int, now: int, maxArrival': int, now': int, watcher: bool)
      requires Settled(numGenerals, maxArrival, now, watcher)
      requires maxArrival <= maxArrival' && now <= now'
      ensures Settled(numGenerals, maxArrival', now', watcher)
    {
    }

    /**
     * The push of a new battalion onto the queue of its side (and onto the history). A
     * battalion of a known general, with troops, arriving after everything on a settled
     * planet and no earlier than its last deployment keeps every part of `Ready` but the
     * movie record, which the watcher brings up to date next.
     */
    method Deploy(b: Battalion, ghost numGenerals: nat, ghost maxArrival: int, ghost now: int, ghost watcher: bool)
      requires Settled(numGenerals, maxArrival, now, watcher)
      requires b.arrival > maxArrival && b.troops > 0 && b.generalID < numGenerals && now <= b.timestamp
      modifies this
      ensures b.isJedi ==> jedi == old(jedi) + [b] && sith == old(sith)
      ensures !b.isJedi ==> sith == old(sith) + [b] && jedi == old(jedi)
      ensures history == old(history) + [b]
      ensures low == old(low) && high == old(high) && movie == old(movie)
      ensures Valid()
      ensures Recruited(jedi, numGenerals) && Recruited(sith, numGenerals)
      ensures ArrivedBy(jedi, b.arrival) && ArrivedBy(sith, b.arrival)
      ensures TimesSorted(history) && forall i :: 0 <= i < |history| ==> history[i].timestamp <= b.timestamp
    {
      history := history + [b];
      if b.isJedi {
        PushKeepsLive(jedi, b, true, maxArrival, numGenerals);
        jedi := jedi + [b];
      } else {
        PushKeepsLive(sith, b, false, maxArrival, numGenerals);
        sith := sith + [b];
      }
    }

    /** The watcher blocks of `readDL`: fold the newest battalion of the history into the record. */
    method WatchArrival(b: Battalion)
      requires |history| > 0 && history[|history| - 1] == b
      requires movie == WatchAll(history[..|history| - 1])
      modifies this
      ensures movie == WatchAll(history)
      ensures jedi == old(jedi) && sith == old(sith) && low == old(low) && high == old(high)
      ensures history == old(history)
    {
      WatchAllPush(history[..|history| - 1], b);
      assert history[..|history| - 1] + [b] == history;
      movie := Watch(movie, b);
    }

    /**
     * A deployment arriving on the planet: the push onto the queue of its side, then the
     * watcher's update in watcher mode. The planet is then ready for the battle loop.
     */
    method Receive(b: Battalion, ghost numGenerals: nat, ghost maxArrival: int, ghost now: int, watcher: bool)
      requires Settled(numGenerals, maxArrival, now, watcher)
      requires b.arrival > maxArrival && b.troops > 0 && b.generalID < numGenerals && now <= b.timestamp
      modifies this
      ensures Ready(numGenerals, b.arrival, b.timestamp, watcher)
      ensures b.isJedi ==> jedi == old(jedi) + [b] && sith == old(sith)
      ensures !b.isJedi ==> sith == old(sith) + [b] && jedi == old(jedi)
      ensures history == old(history) + [b]
      ensures low == old(low) && high == old(high)
    {
      Deploy(b, numGenerals, maxArrival, now, watcher);
      if watcher {
        assert history[..|history| - 1] == old(history);
        WatchArrival(b);
      }
    }

    /**
     * `addTroopsLost`: push the value on the half it belongs to, then move one top across if
     * the halves no longer balance.
     */
    method AddTroopsLost(troopsLost: int)
      requires MedianInv(low, high)
      modifies this
      ensures MedianInv(low, high)
      ensures multiset(low) + multiset(high) == old(multiset(low) + multiset(high)) + multiset{troopsLost}
      ensures |low| + |high| == old(|low| + |high|) + 1
      ensures forall x :: x in low || x in high ==> x == troopsLost || x in old(low) || x in old(high)
      ensures jedi == old(jedi) && sith == old(sith)
      ensures movie == old(movie) && history == old(history)
    {
      PushLoss(troopsLost);
      Rebalance();
      ValuesFromMultiset(low, high, old(multiset(low) + multiset(high)) + multiset{troopsLost});
    }

    /** The first half of `addTroopsLost`: push onto `low` unless the value exceeds its top. */
    method PushLoss(troopsLost: int)
      requires MedianInv(low, high)
      modifies this
      ensures Split(low, high) && |high| <= |low| + 1 && |low| <= |high| + 2
      ensures multiset(low) + multiset(high) == old(multiset(low) + multiset(high)) + multiset{troopsLost}
      ensures jedi == old(jedi) && sith == old(sith)
      ensures movie == old(movie) && history == old(history)
    {
      if |low| == 0 || troopsLost <= low[MaxIndex(low)] {
        PushLow(low, high, troopsLost);
        low := low + [troopsLost];
      } else {
        PushHigh(low, high, troopsLost);
        high := high + [troopsLost];
      }
    }

    /** The second half of `addTroopsLost`: move one top across if the halves do not balance. */
    method Rebalance()
      requires Split(low, high) && |high| <= |low| + 1 && |low| <= |high| + 2
      modifies this
      ensures MedianInv(low, high)
      ensures multiset(low) + multiset(high) == old(multiset(low) + multiset(high))
      ensures jedi == old(jedi) && sith == old(sith)
      ensures movie == old(movie) && history == old(history)
    {
      if |low| > |high| + 1 {
        var k := MaxIndex(low);
        MoveLowTop(low, high);
        MoveKeepsValues(low, high, k);
        low, high := RemoveAt(low, k), high + [low[k]];
      } else if |high| > |low| {
        var k := MinIndex(high);
        MoveHighTop(low, high);
        MoveKeepsValues(high, low, k);
        low, high := low + [high[k]], RemoveAt(high, k);
      }
    }

    /** A battle is due on this planet. */
    predicate Eligible()
      reads this
    {
      BattleDue(jedi, sith)
    }

    /**
     * `battle`: pop both tops, both lose the smaller troop count, survivors go back on their
     * queue, their generals are charged the loss and twice the loss enters the median heaps.
     */
    method Battle(generals: array<General>) returns (loss: int)
      requires Valid() && jedi != [] && sith != []
      requires Recruited(jedi, generals.Length) && Recruited(sith, generals.Length)
      modifies this, generals
      ensures Valid()
      ensures loss == Min(old(jedi[JediTop(jedi)].troops), old(sith[SithTop(sith)].troops))
      ensures jedi == Hit(old(jedi), old(JediTop(jedi)), loss)
      ensures sith == Hit(old(sith), old(SithTop(sith)), loss)
      ensures forall g :: 0 <= g < generals.Length ==>
        generals[g] == Charged(old(generals[g]), g, old(jedi[JediTop(jedi)].generalID), old(sith[SithTop(sith)].generalID), loss)
      ensures multiset(low) + multiset(high) == old(multiset(low) + multiset(high)) + multiset{2 * loss}
      ensures |low| + |high| == old(|low| + |high|) + 1
      ensures movie == old(movie) && history == old(history)
    {
      ghost var jediBefore, sithBefore := jedi, sith;
      ghost var jk, sk := JediTop(jedi), SithTop(sith);
      loss := Clash(generals);
      HitKeepsLive(jediBefore, jk, loss, true);
      HitKeepsLive(sithBefore, sk, loss, false);
      AddTroopsLost(troopsLost := 2 * loss);
      NonNegativeKept(old(low), old(high), low, high, 2 * loss);
    }

    /** The queue and ledger half of `battle`: the two tops fight and their generals are charged. */
    method Clash(generals: array<General>) returns (loss: int)
      requires jedi != [] && sith != []
      requires Recruited(jedi, generals.Length) && Recruited(sith, generals.Length)
      modifies this, generals
      ensures loss == Min(old(jedi[JediTop(jedi)].troops), old(sith[SithTop(sith)].troops))
      ensures jedi == Hit(old(jedi), old(JediTop(jedi)), loss)
      ensures sith == Hit(old(sith), old(SithTop(sith)), loss)
      ensures forall g :: 0 <= g < generals.Length ==>
        generals[g] == Charged(old(generals[g]), g, old(jedi[JediTop(jedi)].generalID), old(sith[SithTop(sith)].generalID), loss)
      ensures low == old(low) && high == old(high)
      ensures movie == old(movie) && history == old(history)
    {
      var jk, sk := JediTop(jedi), SithTop(sith);
      var j, s := jedi[jk], sith[sk];
      loss := Min(j.troops, s.troops);
      ChargeLosses(generals, j.generalID, s.generalID, loss);
      jedi, sith := Hit(jedi, jk, loss), Hit(sith, sk, loss);
    }

    /**
     * One pass of the battle loop: the two tops fight once, which is the next step of the
     * `Skirmish` that ends at `fought`, with the losses `done` already behind it.
     */
    method Round(generals: array<General>, ghost done: seq<int>, ghost fought: (seq<Battalion>, seq<Battalion>, seq<int>))
      returns (loss: int)
      requires Valid() && Eligible()
      requires Recruited(jedi, generals.Length) && Recruited(sith, generals.Length)
      requires Skirmish(jedi, sith).0 == fought.0 && Skirmish(jedi, sith).1 == fought.1
      requires done + Skirmish(jedi, sith).2 == fought.2
      modifies this, generals
      ensures Valid()
      ensures Recruited(jedi, generals.Length) && Recruited(sith, generals.Length)
      ensures Skirmish(jedi, sith).0 == fought.0 && Skirmish(jedi, sith).1 == fought.1
      ensures (done + [loss]) + Skirmish(jedi, sith).2 == fought.2
      ensures |jedi| + |sith| < old(|jedi| + |sith|)
      ensures LedgerKept(old(generals[..]), generals[..], old(jedi), jedi, old(sith), sith)
      ensures multiset(low) + multiset(high) == old(multiset(low) + multiset(high)) + multiset{2 * loss}
      ensures |low| + |high| == old(|low| + |high|) + 1
      ensures movie == old(movie) && history == old(history)
    {
      ghost var gens1, jedi1, sith1 := generals[..], jedi, sith;
      loss := Battle(generals);
      BattleAccounts(jedi1, sith1, loss, gens1, generals[..]);
      HitKeepsLive(jedi1, JediTop(jedi1), loss, true);
      HitKeepsLive(sith1, SithTop(sith1), loss, false);
      FoughtOnce(jedi1, sith1, loss, done, fought);
    }

    /**
     * The battle loop of `readDL`: fight while a battle is due, counting the battles. The
     * queues end as `Skirmish` leaves them, one battle is counted per loss it lists, and
     * twice each of those losses enters the median heaps.
     */
    method Drain(generals: array<General>) returns (battles: nat)
      requires Valid()
      requires Recruited(jedi, generals.Length) && Recruited(sith, generals.Length)
      modifies this, generals
      ensures Valid() && !Eligible()
      ensures jedi == Skirmish(old(jedi), old(sith)).0 && sith == Skirmish(old(jedi), old(sith)).1
      ensures battles == |Skirmish(old(jedi), old(sith)).2|
      ensures multiset(low) + multiset(high) == old(multiset(low) + multiset(high)) + multiset(Doubled(Skirmish(old(jedi), old(sith)).2))
      ensures |low| + |high| == old(|low| + |high|) + battles
      ensures |jedi| + |sith| + battles <= old(|jedi| + |sith|)
      ensures LedgerKept(old(generals[..]), generals[..], old(jedi), jedi, old(sith), sith)
      ensures Recruited(jedi, generals.Length) && Recruited(sith, generals.Length)
      ensures forall a :: old(ArrivedBy(jedi, a)) ==> ArrivedBy(jedi, a)
      ensures forall a :: old(ArrivedBy(sith, a)) ==> ArrivedBy(sith, a)
      ensures movie == old(movie) && history == old(history)
    {
      battles := 0;
      ghost var gens0, jedi0, sith0 := generals[..], jedi, sith;
      ghost var fought := Skirmish(jedi, sith);
      ghost var done: seq<int> := [];
      ghost var heaps0 := multiset(low) + multiset(high);
      while Eligible()
        invariant Valid()
        invariant Skirmish(jedi, sith).0 == fought.0 && Skirmish(jedi, sith).1 == fought.1
        invariant done + Skirmish(jedi, sith).2 == fought.2 && battles == |done|
        invariant multiset(low) + multiset(high) == heaps0 + multiset(Doubled(done))
        invariant Recruited(jedi, generals.Length) && Recruited(sith, generals.Length)
        invariant |low| + |high| == old(|low| + |high|) + battles
        invariant LedgerKept(gens0, generals[..], jedi0, jedi, sith0, sith)
        invariant movie == old(movie) && history == old(history)
        decreases |jedi| + |sith|
      {
        ghost var gens1, jedi1, sith1, heaps1 := generals[..], jedi, sith, multiset(low) + multiset(high);
        var loss := Round(generals, done, fought);
        LedgerKeptTrans(gens0, gens1, generals[..], jedi0, jedi1, jedi, sith0, sith1, sith);
        HeapsAccumulate(heaps0, heaps1, multiset(low) + multiset(high), done, loss);
        done := done + [loss];
        battles := battles + 1;
      }
      assert Skirmish(jedi, sith).2 == [] && done == fought.2;
      forall a ensures (ArrivedBy(jedi0, a) ==> ArrivedBy(jedi, a)) && (ArrivedBy(sith0, a) ==> ArrivedBy(sith, a)) {
        SkirmishKeepsOrigins(jedi0, sith0, a, generals.Length);
      }
    }
  }
}
