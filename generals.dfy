/**
 * The per-general ledger (`struct General`) and the conservation of troops that ties it to
 * the battle queues of every planet.
 */
module Generals {
  import opened Battalions

  /** Troops a general has deployed and lost, per side. */
  datatype General = General(jediDeployed: int, sithDeployed: int, jediLost: int, sithLost: int)

  const NewGeneral := General(0, 0, 0, 0)

  /** The survivor count of the general evaluation: troops deployed minus troops lost, both sides. */
  function Survived(g: General): (r: int)
    ensures g.jediLost >= 0 && g.sithLost >= 0 ==> r <= g.jediDeployed + g.sithDeployed
    ensures r == g.jediDeployed + g.sithDeployed <==> g.jediLost + g.sithLost == 0
  {
    (g.jediDeployed + g.sithDeployed) - (g.jediLost + g.sithLost)
  }

  /** A general after one of its battalions is deployed: its troops count as deployed on their side. */
  function Credited(gen: General, b: Battalion): (r: General)
    ensures r.jediDeployed == gen.jediDeployed + (if b.isJedi then b.troops else 0)
    ensures r.sithDeployed == gen.sithDeployed + (if b.isJedi then 0 else b.troops)
    ensures r.jediLost == gen.jediLost && r.sithLost == gen.sithLost
  {
    if b.isJedi then gen.(jediDeployed := gen.jediDeployed + b.troops)
    else gen.(sithDeployed := gen.sithDeployed + b.troops)
  }

  /**
   * General `g` after a battle between a battalion of `jediGeneral` and one of `sithGeneral`
   * in which each side lost `loss` troops.
   */
  function Charged(gen: General, g: nat, jediGeneral: nat, sithGeneral: nat, loss: int): (r: General)
    ensures r.jediDeployed == gen.jediDeployed && r.sithDeployed == gen.sithDeployed
    ensures r.jediLost == gen.jediLost + (if g == jediGeneral then loss else 0)
    ensures r.sithLost == gen.sithLost + (if g == sithGeneral then loss else 0)
  {
    gen.(jediLost := gen.jediLost + (if g == jediGeneral then loss else 0),
         sithLost := gen.sithLost + (if g == sithGeneral then loss else 0))
  }

  /**
   * From ledger `gens0` with queues `jediQ0`/`sithQ0` to ledger `gens` with queues
   * `jediQ`/`sithQ`, nobody deployed anything and every troop that left a queue was charged
   * as lost to its general.
   */
  ghost predicate LedgerKept(gens0: seq<General>, gens: seq<General>,
                             jediQ0: seq<Battalion>, jediQ: seq<Battalion>,
                             sithQ0: seq<Battalion>, sithQ: seq<Battalion>) {
    && |gens| == |gens0|
    && forall g :: 0 <= g < |gens| ==>
      && gens[g].jediDeployed == gens0[g].jediDeployed
      && gens[g].sithDeployed == gens0[g].sithDeployed
      && gens[g].jediLost + Troops(jediQ, g) == gens0[g].jediLost + Troops(jediQ0, g)
      && gens[g].sithLost + Troops(sithQ, g) == gens0[g].sithLost + Troops(sithQ0, g)
  }

  lemma LedgerKeptTrans(gens0: seq<General>, gens1: seq<General>, gens2: seq<General>,
                        jediQ0: seq<Battalion>, jediQ1: seq<Battalion>, jediQ2: seq<Battalion>,
                        sithQ0: seq<Battalion>, sithQ1: seq<Battalion>, sithQ2: seq<Battalion>)
    requires LedgerKept(gens0, gens1, jediQ0, jediQ1, sithQ0, sithQ1)
    requires LedgerKept(gens1, gens2, jediQ1, jediQ2, sithQ1, sithQ2)
    ensures LedgerKept(gens0, gens2, jediQ0, jediQ2, sithQ0, sithQ2)
  {
  }

  /**
   * One battle between the tops of two live queues: each top loses the smaller troop count,
   * that loss is charged to their generals, and so every general's lost-plus-held count stays
   * the same on both sides while the queues shrink by at least one battalion.
   */
  lemma BattleAccounts(jediQ: seq<Battalion>, sithQ: seq<Battalion>, loss: int, gens: seq<General>, gens': seq<General>)
    requires jediQ != [] && sithQ != [] && LiveQueue(jediQ, true) && LiveQueue(sithQ, false)
    requires loss == Min(jediQ[JediTop(jediQ)].troops, sithQ[SithTop(sithQ)].troops)
    requires |gens'| == |gens|
    requires forall g :: 0 <= g < |gens| ==>
      gens'[g] == Charged(gens[g], g, jediQ[JediTop(jediQ)].generalID, sithQ[SithTop(sithQ)].generalID, loss)
    ensures LedgerKept(gens, gens', jediQ, Hit(jediQ, JediTop(jediQ), loss), sithQ, Hit(sithQ, SithTop(sithQ), loss))
    ensures |Hit(jediQ, JediTop(jediQ), loss)| + |Hit(sithQ, SithTop(sithQ), loss)| < |jediQ| + |sithQ|
  {
    var jk, sk := JediTop(jediQ), SithTop(sithQ);
    forall g | 0 <= g < |gens|
      ensures gens'[g].jediLost + Troops(Hit(jediQ, jk, loss), g) == gens[g].jediLost + Troops(jediQ, g)
      ensures gens'[g].sithLost + Troops(Hit(sithQ, sk, loss), g) == gens[g].sithLost + Troops(sithQ, g)
    {
      TroopsAfterHit(jediQ, jk, loss, g);
      TroopsAfterHit(sithQ, sk, loss, g);
    }
  }

  /** Troops general `g` still holds across a list of queues (one queue per planet). */
  function SumTroops(qs: seq<seq<Battalion>>, g: nat): int {
    if qs == [] then 0 else SumTroops(qs[..|qs| - 1], g) + Troops(qs[|qs| - 1], g)
  }

  /** Replacing one planet's queue changes the sum by exactly that queue's change. */
  lemma {:induction false} SumTroopsUpdate(qs: seq<seq<Battalion>>, p: nat, q: seq<Battalion>, g: nat)
    requires p < |qs|
    ensures SumTroops(qs[p := q], g) == SumTroops(qs, g) - Troops(qs[p], g) + Troops(q, g)
  {
    var last := |qs| - 1;
    if p == last {
      assert qs[p := q][..last] == qs[..last];
    } else {
      assert qs[p := q][..last] == qs[..last][p := q];
      SumTroopsUpdate(qs[..last], p, q, g);
    }
  }

  ghost predicate AllLive(qs: seq<seq<Battalion>>) {
    forall p, i :: 0 <= p < |qs| && 0 <= i < |qs[p]| ==> qs[p][i].troops > 0
  }

  lemma {:induction false} SumTroopsNonNegative(qs: seq<seq<Battalion>>, g: nat)
    requires AllLive(qs)
    ensures SumTroops(qs, g) >= 0
  {
    if qs != [] {
      TroopsNonNegative(qs[|qs| - 1], g);
      SumTroopsNonNegative(qs[..|qs| - 1], g);
    }
  }

  /**
   * For every general and side, troops deployed minus troops lost equals the troops that
   * general still holds in the queues of that side on all planets.
   */
  ghost predicate Conserved(gens: seq<General>, jediQs: seq<seq<Battalion>>, sithQs: seq<seq<Battalion>>) {
    forall g {:trigger SumTroops(jediQs, g)} :: 0 <= g < |gens| ==>
      && gens[g].jediDeployed - gens[g].jediLost == SumTroops(jediQs, g)
      && gens[g].sithDeployed - gens[g].sithLost == SumTroops(sithQs, g)
  }

  /** With no troops deployed anywhere the ledger is balanced. */
  lemma ConservedInitially(gens: seq<General>, jediQs: seq<seq<Battalion>>, sithQs: seq<seq<Battalion>>)
    requires forall g :: 0 <= g < |gens| ==> gens[g] == NewGeneral
    requires forall p :: 0 <= p < |jediQs| ==> jediQs[p] == []
    requires forall p :: 0 <= p < |sithQs| ==> sithQs[p] == []
    ensures Conserved(gens, jediQs, sithQs)
  {
    forall g: nat ensures SumTroops(jediQs, g) == 0 && SumTroops(sithQs, g) == 0 {
      EmptyQueuesHoldNothing(jediQs, g);
      EmptyQueuesHoldNothing(sithQs, g);
    }
  }

  lemma {:induction false} EmptyQueuesHoldNothing(qs: seq<seq<Battalion>>, g: nat)
    requires forall p :: 0 <= p < |qs| ==> qs[p] == []
    ensures SumTroops(qs, g) == 0
  {
    if qs != [] {
      EmptyQueuesHoldNothing(qs[..|qs| - 1], g);
    }
  }

  /**
   * Deploying battalion `b` on planet `p` (pushed onto that planet's queue of its side, its
   * troops credited to its general) keeps the ledger balanced.
   */
  lemma Deploy(gens: seq<General>, jediQs: seq<seq<Battalion>>, sithQs: seq<seq<Battalion>>, p: nat, b: Battalion,
               gens': seq<General>, jediQs': seq<seq<Battalion>>, sithQs': seq<seq<Battalion>>)
    requires Conserved(gens, jediQs, sithQs)
    requires p < |jediQs| && p < |sithQs| && b.generalID < |gens|
    requires gens' == gens[b.generalID := Credited(gens[b.generalID], b)]
    requires jediQs' == if b.isJedi then jediQs[p := jediQs[p] + [b]] else jediQs
    requires sithQs' == if b.isJedi then sithQs else sithQs[p := sithQs[p] + [b]]
    ensures Conserved(gens', jediQs', sithQs')
  {
    forall g | 0 <= g < |gens|
      ensures SumTroops(jediQs', g) == SumTroops(jediQs, g) + (if b.isJedi && b.generalID == g then b.troops else 0)
      ensures SumTroops(sithQs', g) == SumTroops(sithQs, g) + (if !b.isJedi && b.generalID == g then b.troops else 0)
    {
      assert Troops([b], g) == if b.generalID == g then b.troops else 0 by {
        assert [b][..0] == [];
      }
      if b.isJedi {
        SumTroopsUpdate(jediQs, p, jediQs[p] + [b], g);
        TroopsConcat(jediQs[p], [b], g);
      } else {
        SumTroopsUpdate(sithQs, p, sithQs[p] + [b], g);
        TroopsConcat(sithQs[p], [b], g);
      }
    }
  }

  /**
   * Battles on planet `p` keep the ledger balanced when they charge each general exactly the
   * troops that general lost from that planet's queues and change nothing else.
   */
  lemma Battles(gens: seq<General>, jediQs: seq<seq<Battalion>>, sithQs: seq<seq<Battalion>>,
                gens': seq<General>, p: nat, jediQ: seq<Battalion>, sithQ: seq<Battalion>)
    requires Conserved(gens, jediQs, sithQs)
    requires p < |jediQs| && p < |sithQs|
    requires LedgerKept(gens, gens', jediQs[p], jediQ, sithQs[p], sithQ)
    ensures Conserved(gens', jediQs[p := jediQ], sithQs[p := sithQ])
  {
    forall g | 0 <= g < |gens|
      ensures SumTroops(jediQs[p := jediQ], g) == SumTroops(jediQs, g) - Troops(jediQs[p], g) + Troops(jediQ, g)
      ensures SumTroops(sithQs[p := sithQ], g) == SumTroops(sithQs, g) - Troops(sithQs[p], g) + Troops(sithQ, g)
    {
      SumTroopsUpdate(jediQs, p, jediQ, g);
      SumTroopsUpdate(sithQs, p, sithQ, g);
    }
  }

  /**
   * Under conservation a general's survivor count is the troops it still holds on both
   * sides, and so never negative.
   */
  lemma SurvivorsRemain(gens: seq<General>, jediQs: seq<seq<Battalion>>, sithQs: seq<seq<Battalion>>, g: nat)
    requires Conserved(gens, jediQs, sithQs) && AllLive(jediQs) && AllLive(sithQs) && g < |gens|
    ensures Survived(gens[g]) == SumTroops(jediQs, g) + SumTroops(sithQs, g)
    ensures Survived(gens[g]) >= 0
  {
    SumTroopsNonNegative(jediQs, g);
    SumTroopsNonNegative(sithQs, g);
  }
}
