/** Battalions (deployment records), the two battle-queue orderings and per-general troop sums. */
module Battalions {
  import opened Seqs

  /**
   * One deployment (`struct Battalion`). `arrival` is the global arrival order used to break ties;
   * `troops` is the only field that changes after ingestion (in `battle`).
   */
  datatype Battalion = Battalion(
    timestamp: int,
    generalID: nat,
    planetID: nat,
    isJedi: bool,
    force: int,
    troops: int,
    arrival: int)

  /** `JediComparator`: `a` ranks below `b` in the Jedi queue (the queue's top ranks highest). */
  predicate JediBelow(a: Battalion, b: Battalion): (r: bool)
    ensures a.force != b.force ==> (r <==> b.force < a.force)
    ensures a.force == b.force ==> (r <==> b.arrival < a.arrival)
    ensures r ==> a != b
  {
    a.force > b.force || (a.force == b.force && a.arrival > b.arrival)
  }

  /** `SithComparator` as written, with its guard on the troops of `b`. */
  predicate SithBelowAsWritten(a: Battalion, b: Battalion): (r: bool)
    ensures b.troops != 0 ==> (r <==> SithBelow(a, b))
    ensures b.troops == 0 ==> (r <==> a.force == b.force && b.arrival < a.arrival)
  {
    (a.force < b.force && b.troops != 0) || (a.force == b.force && a.arrival > b.arrival)
  }

  /** The Sith-queue ordering the model uses: the comparator without its troop guard. */
  predicate SithBelow(a: Battalion, b: Battalion): (r: bool)
    ensures a.force != b.force ==> (r <==> a.force < b.force)
    ensures a.force == b.force ==> (r <==> b.arrival < a.arrival)
  {
    a.force < b.force || (a.force == b.force && a.arrival > b.arrival)
  }

  /** The troop guard of `SithComparator` never matters for battalions that still have troops. */
  lemma SithGuardIsDefensive(q: seq<Battalion>)
    requires forall b :: b in q ==> b.troops > 0
    ensures forall a, b :: a in q && b in q ==> (SithBelowAsWritten(a, b) <==> SithBelow(a, b))
  {
  }

  /** A queue of live battalions: every one still has troops, is on `side`, and arrival orders are distinct. */
  ghost predicate LiveQueue(q: seq<Battalion>, jediSide: bool) {
    && (forall i :: 0 <= i < |q| ==> q[i].troops > 0 && q[i].isJedi == jediSide)
    && (forall i, j :: 0 <= i < j < |q| ==> q[i].arrival != q[j].arrival)
  }

  /**
   * Index of the top of the Jedi queue: no element ranks above it, i.e. it has the lowest
   * force and, among equal forces, the earliest arrival.
   */
  function JediTop(q: seq<Battalion>): (k: nat)
    requires |q| > 0
    ensures k < |q|
    ensures forall i :: 0 <= i < |q| ==> !JediBelow(q[k], q[i])
    ensures forall i :: 0 <= i < |q| ==>
      q[k].force < q[i].force || (q[k].force == q[i].force && q[k].arrival <= q[i].arrival)
  {
    if |q| == 1 then 0
    else
      var k := JediTop(q[..|q| - 1]);
      if JediBelow(q[k], q[|q| - 1]) then |q| - 1 else k
  }

  /**
   * Index of the top of the Sith queue: the highest force and, among equal forces, the
   * earliest arrival.
   */
  function SithTop(q: seq<Battalion>): (k: nat)
    requires |q| > 0
    ensures k < |q|
    ensures forall i :: 0 <= i < |q| ==> !SithBelow(q[k], q[i])
    ensures forall i :: 0 <= i < |q| ==>
      q[k].force > q[i].force || (q[k].force == q[i].force && q[k].arrival <= q[i].arrival)
  {
    if |q| == 1 then 0
    else
      var k := SithTop(q[..|q| - 1]);
      if SithBelow(q[k], q[|q| - 1]) then |q| - 1 else k
  }

  /** With distinct arrival orders the top is the only element no other element outranks. */
  lemma JediTopUnique(q: seq<Battalion>, m: nat)
    requires LiveQueue(q, true) && m < |q|
    requires forall i :: 0 <= i < |q| ==> !JediBelow(q[m], q[i])
    ensures m == JediTop(q)
  {
  }

  /** Every battalion of `q` arrived no later than `maxArrival`. */
  ghost predicate ArrivedBy(q: seq<Battalion>, maxArrival: int) {
    forall i :: 0 <= i < |q| ==> q[i].arrival <= maxArrival
  }

  /** Every battalion of `q` belongs to one of the first `numGenerals` generals. */
  ghost predicate Recruited(q: seq<Battalion>, numGenerals: nat) {
    forall i :: 0 <= i < |q| ==> q[i].generalID < numGenerals
  }

  /**
   * Pushing a live battalion of the queue's side that arrived after everything in the queue
   * keeps the queue live, and its generals recruited.
   */
  lemma PushKeepsLive(q: seq<Battalion>, b: Battalion, jediSide: bool, maxArrival: int, numGenerals: nat)
    requires LiveQueue(q, jediSide) && ArrivedBy(q, maxArrival)
    requires b.arrival > maxArrival && b.troops > 0 && b.isJedi == jediSide
    ensures LiveQueue(q + [b], jediSide) && ArrivedBy(q + [b], b.arrival)
    ensures Recruited(q, numGenerals) && b.generalID < numGenerals ==> Recruited(q + [b], numGenerals)
  {
    var r := q + [b];
    forall i, j | 0 <= i < j < |r| ensures r[i].arrival != r[j].arrival {
      assert r[i] == q[i];
      if j < |q| {
        assert r[j] == q[j];
      }
    }
  }

  /** `std::min`. */
  function Min(a: int, b: int): (m: int)
    ensures m <= a && m <= b && (m == a || m == b)
  {
    if a <= b then a else b
  }

  /** Pop the element at `k`, take `loss` troops from it and push it back only if troops remain. */
  function Hit(q: seq<Battalion>, k: nat, loss: int): seq<Battalion>
    requires k < |q|
  {
    RemoveAt(q, k) + (if q[k].troops > loss then [q[k].(troops := q[k].troops - loss)] else [])
  }

  /**
   * What `Hit` leaves: every other battalion, in order, and the popped one, last, with `loss`
   * fewer troops exactly when it had more than `loss`.
   */
  lemma HitContents(q: seq<Battalion>, k: nat, loss: int)
    requires k < |q|
    ensures |Hit(q, k, loss)| == if q[k].troops > loss then |q| else |q| - 1
    ensures forall i :: 0 <= i < k ==> Hit(q, k, loss)[i] == q[i]
    ensures forall i :: k <= i < |q| - 1 ==> Hit(q, k, loss)[i] == q[i + 1]
    ensures q[k].troops > loss ==> Hit(q, k, loss)[|q| - 1] == q[k].(troops := q[k].troops - loss)
  {
  }

  /** Troops still held in `q` by general `g`. */
  function Troops(q: seq<Battalion>, g: nat): int {
    if q == [] then 0
    else Troops(q[..|q| - 1], g) + (if q[|q| - 1].generalID == g then q[|q| - 1].troops else 0)
  }

  lemma {:induction false} TroopsConcat(a: seq<Battalion>, b: seq<Battalion>, g: nat)
    ensures Troops(a + b, g) == Troops(a, g) + Troops(b, g)
  {
    if b != [] {
      assert (a + b)[..|a + b| - 1] == a + b[..|b| - 1];
      TroopsConcat(a, b[..|b| - 1], g);
    } else {
      assert a + b == a;
    }
  }

  /** A general's troops in a queue of live battalions are never negative. */
  lemma {:induction false} TroopsNonNegative(q: seq<Battalion>, g: nat)
    requires forall i :: 0 <= i < |q| ==> q[i].troops > 0
    ensures Troops(q, g) >= 0
  {
    if q != [] {
      TroopsNonNegative(q[..|q| - 1], g);
    }
  }

  /**
   * Hitting the element at `k` with `loss` (at most its troops) lowers the troops of its
   * general by exactly `loss` and leaves every other general's troops as they were.
   */
  lemma TroopsAfterHit(q: seq<Battalion>, k: nat, loss: int, g: nat)
    requires k < |q| && 0 <= loss <= q[k].troops
    ensures Troops(Hit(q, k, loss), g) == Troops(q, g) - (if q[k].generalID == g then loss else 0)
  {
    assert q == q[..k] + [q[k]] + q[k + 1..];
    TroopsConcat(q[..k] + [q[k]], q[k + 1..], g);
    TroopsConcat(q[..k], [q[k]], g);
    TroopsConcat(q[..k], q[k + 1..], g);
    var survivor := if q[k].troops > loss then [q[k].(troops := q[k].troops - loss)] else [];
    TroopsConcat(RemoveAt(q, k), survivor, g);
    assert Troops([q[k]], g) == (if q[k].generalID == g then q[k].troops else 0);
  }

  /** Hitting the element at `k` keeps a live queue live, provided it loses at most its troops. */
  lemma HitKeepsLive(q: seq<Battalion>, k: nat, loss: int, jediSide: bool)
    requires LiveQueue(q, jediSide) && k < |q| && 0 <= loss <= q[k].troops
    ensures LiveQueue(Hit(q, k, loss), jediSide)
    ensures |Hit(q, k, loss)| == if q[k].troops > loss then |q| else |q| - 1
    ensures forall maxArrival :: ArrivedBy(q, maxArrival) ==> ArrivedBy(Hit(q, k, loss), maxArrival)
    ensures forall numGenerals :: Recruited(q, numGenerals) ==> Recruited(Hit(q, k, loss), numGenerals)
  {
    var r := Hit(q, k, loss);
    var rest := RemoveAt(q, k);
    forall i, j | 0 <= i < j < |r| ensures r[i].arrival != r[j].arrival {
      var i0 := if i < k then i else i + 1;
      if j < |rest| {
        var j0 := if j < k then j else j + 1;
        assert r[i] == q[i0] && r[j] == q[j0];
      } else {
        assert r[i] == q[i0] && r[j].arrival == q[k].arrival;
      }
    }
    forall i | 0 <= i < |r|
      ensures r[i].arrival == q[if i < |rest| && i >= k then i + 1 else if i < |rest| then i else k].arrival
      ensures r[i].generalID == q[if i < |rest| && i >= k then i + 1 else if i < |rest| then i else k].generalID
    {
    }
  }

  /** A Sith at least as strong as a Jedi: the two could meet in battle. */
  predicate Matched(jedi: Battalion, sith: Battalion) {
    jedi.force <= sith.force
  }

  /** A battle is due: both queues are non-empty and the top Sith is at least as strong as the top Jedi. */
  predicate BattleDue(jedi: seq<Battalion>, sith: seq<Battalion>): (r: bool)
    ensures r <==> exists i, j :: 0 <= i < |jedi| && 0 <= j < |sith| && Matched(jedi[i], sith[j])
  {
    jedi != [] && sith != [] && sith[SithTop(sith)].force >= jedi[JediTop(jedi)].force
  }

  /**
   * The battle loop of `readDL` on one planet, on values: while a battle is due the two tops
   * fight and both lose the smaller of their troop counts. The result is the pair of queues
   * left when no battle is due and the troops lost in each battle, in order; every battle
   * removes at least one battalion.
   */
  function Skirmish(jedi: seq<Battalion>, sith: seq<Battalion>): (r: (seq<Battalion>, seq<Battalion>, seq<int>))
    ensures !BattleDue(r.0, r.1)
    ensures |r.0| + |r.1| + |r.2| <= |jedi| + |sith|
    decreases |jedi| + |sith|
  {
    if BattleDue(jedi, sith) then
      var loss := Min(jedi[JediTop(jedi)].troops, sith[SithTop(sith)].troops);
      var rest := Skirmish(Hit(jedi, JediTop(jedi), loss), Hit(sith, SithTop(sith), loss));
      (rest.0, rest.1, [loss] + rest.2)
    else
      (jedi, sith, [])
  }

  /** Battles between live queues leave live queues, and every loss is positive. */
  lemma {:induction false} SkirmishKeepsLive(jedi: seq<Battalion>, sith: seq<Battalion>)
    requires LiveQueue(jedi, true) && LiveQueue(sith, false)
    decreases |jedi| + |sith|
    ensures var r := Skirmish(jedi, sith);
      && LiveQueue(r.0, true) && LiveQueue(r.1, false)
      && forall i :: 0 <= i < |r.2| ==> r.2[i] > 0
  {
    if BattleDue(jedi, sith) {
      var jk, sk := JediTop(jedi), SithTop(sith);
      var loss := Min(jedi[jk].troops, sith[sk].troops);
      var jedi', sith' := Hit(jedi, jk, loss), Hit(sith, sk, loss);
      HitKeepsLive(jedi, jk, loss, true);
      HitKeepsLive(sith, sk, loss, false);
      SkirmishKeepsLive(jedi', sith');
      var rest := Skirmish(jedi', sith');
      var losses := [loss] + rest.2;
      assert Skirmish(jedi, sith) == (rest.0, rest.1, losses);
      forall i | 0 <= i < |losses| ensures losses[i] > 0 {
        if i > 0 {
          assert losses[i] == rest.2[i - 1];
        }
      }
    }
  }

  /**
   * Battles bring no battalion from elsewhere: queues that hold only battalions arrived by
   * `maxArrival`, or only battalions of generals below `numGenerals`, still do afterwards.
   */
  lemma {:induction false} SkirmishKeepsOrigins(jedi: seq<Battalion>, sith: seq<Battalion>, maxArrival: int, numGenerals: nat)
    requires LiveQueue(jedi, true) && LiveQueue(sith, false)
    decreases |jedi| + |sith|
    ensures var r := Skirmish(jedi, sith);
      && (ArrivedBy(jedi, maxArrival) ==> ArrivedBy(r.0, maxArrival))
      && (ArrivedBy(sith, maxArrival) ==> ArrivedBy(r.1, maxArrival))
      && (Recruited(jedi, numGenerals) ==> Recruited(r.0, numGenerals))
      && (Recruited(sith, numGenerals) ==> Recruited(r.1, numGenerals))
  {
    if BattleDue(jedi, sith) {
      var jk, sk := JediTop(jedi), SithTop(sith);
      var loss := Min(jedi[jk].troops, sith[sk].troops);
      HitKeepsLive(jedi, jk, loss, true);
      HitKeepsLive(sith, sk, loss, false);
      SkirmishKeepsOrigins(Hit(jedi, jk, loss), Hit(sith, sk, loss), maxArrival, numGenerals);
    }
  }

  /** `b` pushed on the queue of its side: `q` when `b` belongs to the other side. */
  function Join(q: seq<Battalion>, b: Battalion, jediSide: bool): seq<Battalion> {
    if b.isJedi == jediSide then q + [b] else q
  }
}
