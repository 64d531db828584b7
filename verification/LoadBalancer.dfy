/**
 Upstream endpoints, their discovery, and weighted round robin.

 The balancer keeps one 64-bit counter a service. A call takes the counter
 modulo the total weight of the endpoints not excluded, and picks the endpoint
 whose share of the weights covers that slot.
 */
module LoadBalancer {
  import opened Foundation

  datatype Endpoint = Endpoint(id: string, weight: nat)

  const MAXIMUM_WEIGHT := 1000

  /** An endpoint as its factory lets it through: a name and a weight from 1 to 1000. */
  predicate ValidEndpoint(endpoint: Endpoint) {
    endpoint.id != "" && 1 <= endpoint.weight <= MAXIMUM_WEIGHT
  }

  /** A service as discovery registers it. */
  predicate ValidService(endpoints: seq<Endpoint>) {
    && endpoints != []
    && (forall i :: 0 <= i < |endpoints| ==> ValidEndpoint(endpoints[i]))
    && (forall i, j :: 0 <= i < j < |endpoints| ==> endpoints[i].id != endpoints[j].id)
  }

  class StaticServiceDiscovery {
    var services: map<string, seq<Endpoint>>

    constructor ()
      ensures services == map[]
    {
      services := map[];
    }

    /** Registers a service exactly when it has a name, endpoints, and no endpoint twice. */
    method Set(service: string, endpoints: seq<Endpoint>) returns (status: Status)
      requires forall i :: 0 <= i < |endpoints| ==> ValidEndpoint(endpoints[i])
      modifies this
      ensures status.Ok? <==> service != "" && ValidService(endpoints)
      ensures services == if status.Ok? then old(services)[service := endpoints] else old(services)
    {
      if service == "" || endpoints == [] {
        return Failed;
      }
      var ids: seq<string> := [];
      for i := 0 to |endpoints|
        invariant |ids| == i && forall k :: 0 <= k < i ==> ids[k] == endpoints[k].id
        invariant forall j, k :: 0 <= j < k < i ==> endpoints[j].id != endpoints[k].id
      {
        if endpoints[i].id in ids {
          return Failed;
        }
        ids := ids + [endpoints[i].id];
      }
      services := services[service := endpoints];
      return Ok;
    }
  }

  // ----- Weighted choice -----

  function Share(endpoint: Endpoint, excluded: seq<string>): nat {
    if endpoint.id in excluded then 0 else endpoint.weight
  }

  function TotalWeight(endpoints: seq<Endpoint>, excluded: seq<string>): nat {
    if endpoints == [] then 0
    else TotalWeight(endpoints[..|endpoints| - 1], excluded) + Share(endpoints[|endpoints| - 1], excluded)
  }

  /** The position whose share covers `slot`. */
  function Chosen(endpoints: seq<Endpoint>, excluded: seq<string>, slot: nat): (i: nat)
    requires slot < TotalWeight(endpoints, excluded)
    ensures i < |endpoints| && endpoints[i].id !in excluded
  {
    var last := |endpoints| - 1;
    if slot >= TotalWeight(endpoints[..last], excluded) then last else Chosen(endpoints[..last], excluded, slot)
  }

  /** The slot of a counter value. */
  function Slot(sequence: nat, total: nat): (slot: nat)
    requires total > 0
    ensures slot < total
  {
    sequence % total
  }

  /** The position a counter value selects. */
  function ChosenAt(endpoints: seq<Endpoint>, excluded: seq<string>, sequence: nat): (i: nat)
    requires TotalWeight(endpoints, excluded) > 0
    ensures i < |endpoints| && endpoints[i].id !in excluded
  {
    Chosen(endpoints, excluded, Slot(sequence, TotalWeight(endpoints, excluded)))
  }

  class WeightedRoundRobin {
    var sequences: map<string, nat>

    ghost predicate Valid()
      reads this
    {
      forall service <- sequences :: sequences[service] < TWO_64
    }

    function Sequence(service: string): nat
      reads this
    {
      if service in sequences then sequences[service] else 0
    }

    constructor ()
      ensures Valid() && sequences == map[]
    {
      sequences := map[];
    }

    method Choose(service: string, endpoints: seq<Endpoint>, excluded: seq<string>) returns (endpoint: Option<Endpoint>)
      requires Valid()
      modifies this
      ensures Valid()
      ensures endpoint.Some? <==> TotalWeight(endpoints, excluded) > 0
      ensures endpoint.Some? ==>
        && endpoint.value == endpoints[ChosenAt(endpoints, excluded, old(Sequence(service)))]
        && sequences == old(sequences)[service := (old(Sequence(service)) + 1) % TWO_64]
      ensures endpoint.None? ==> sequences == old(sequences)
    {
      hide Slot;
      var total := 0;
      for i := 0 to |endpoints|
        invariant total == TotalWeight(endpoints[..i], excluded)
      {
        assert endpoints[..i + 1][..i] == endpoints[..i];
        if endpoints[i].id !in excluded {
          total := total + endpoints[i].weight;
        }
      }
      assert endpoints[..|endpoints|] == endpoints;
      if total == 0 {
        return None;
      }
      var slot := Slot(Sequence(service), total);
      sequences := sequences[service := (Sequence(service) + 1) % TWO_64];
      var cursor := 0;
      for i := 0 to |endpoints|
        invariant cursor == TotalWeight(endpoints[..i], excluded) <= slot
      {
        assert endpoints[..i + 1][..i] == endpoints[..i];
        if endpoints[i].id !in excluded {
          cursor := cursor + endpoints[i].weight;
          if slot < cursor {
            ChosenInPrefix(endpoints, excluded, slot, i);
            return Some(endpoints[i]);
          }
        }
      }
      assert false;
    }
  }

  lemma {:induction false} TotalWeightPrefix(endpoints: seq<Endpoint>, excluded: seq<string>, n: nat)
    requires n <= |endpoints|
    ensures TotalWeight(endpoints[..n], excluded) <= TotalWeight(endpoints, excluded)
    decreases |endpoints|
  {
    if n < |endpoints| {
      var init := endpoints[..|endpoints| - 1];
      assert init[..n] == endpoints[..n];
      TotalWeightPrefix(init, excluded, n);
    } else {
      assert endpoints[..n] == endpoints;
    }
  }

  lemma {:induction false} ChosenInPrefix(endpoints: seq<Endpoint>, excluded: seq<string>, slot: nat, i: nat)
    requires i < |endpoints|
    requires TotalWeight(endpoints[..i], excluded) <= slot < TotalWeight(endpoints[..i + 1], excluded)
    ensures slot < TotalWeight(endpoints, excluded) && Chosen(endpoints, excluded, slot) == i
    decreases |endpoints|
  {
    TotalWeightPrefix(endpoints, excluded, i + 1);
    var last := |endpoints| - 1;
    if i < last {
      var init := endpoints[..last];
      assert init[..i] == endpoints[..i] && init[..i + 1] == endpoints[..i + 1];
      ChosenInPrefix(init, excluded, slot, i);
    } else {
      assert endpoints[..i + 1] == endpoints;
    }
  }

  // ----- Fairness -----

  lemma {:induction false} SlotPeriodic(sequence: nat, total: nat)
    requires total > 0
    ensures Slot(sequence + total, total) == Slot(sequence, total)
    ensures sequence < total ==> Slot(sequence, total) == sequence
  {
    var q := sequence / total;
    assert sequence + total == total * (q + 1) + sequence % total;
    DivModUnique(sequence + total, total, q + 1, sequence % total);
    if sequence < total {
      DivModUnique(sequence, total, 0, sequence);
    }
  }

  /** How many of the counter values `from`, ..., `from + n - 1` select position `i`. */
  function Hits(endpoints: seq<Endpoint>, excluded: seq<string>, i: nat, from: nat, n: nat): nat
    requires TotalWeight(endpoints, excluded) > 0
  {
    if n == 0 then 0
    else Hits(endpoints, excluded, i, from, n - 1) + (if ChosenAt(endpoints, excluded, from + n - 1) == i then 1 else 0)
  }

  lemma {:induction false} HitsFront(endpoints: seq<Endpoint>, excluded: seq<string>, i: nat, from: nat, n: nat)
    requires TotalWeight(endpoints, excluded) > 0 && n > 0
    ensures Hits(endpoints, excluded, i, from, n)
         == (if ChosenAt(endpoints, excluded, from) == i then 1 else 0) + Hits(endpoints, excluded, i, from + 1, n - 1)
    decreases n
  {
    hide ChosenAt, TotalWeight;
    if n <= 1 {
    } else {
      HitsFront(endpoints, excluded, i, from, n - 1);
    }
  }

  /** A window of full length slides without changing what it counts. */
  lemma {:induction false} HitsSlide(endpoints: seq<Endpoint>, excluded: seq<string>, i: nat, from: nat)
    requires TotalWeight(endpoints, excluded) > 0
    ensures Hits(endpoints, excluded, i, from, TotalWeight(endpoints, excluded)) == Hits(endpoints, excluded, i, 0, TotalWeight(endpoints, excluded))
    decreases from
  {
    hide Slot, TotalWeight;
    var total := TotalWeight(endpoints, excluded);
    if from == 0 {
    } else {
      HitsSlide(endpoints, excluded, i, from - 1);
      HitsFront(endpoints, excluded, i, from - 1, total);
      SlotPeriodic(from - 1, total);
      assert Hits(endpoints, excluded, i, from, total)
        == Hits(endpoints, excluded, i, from, total - 1) + (if ChosenAt(endpoints, excluded, from - 1 + total) == i then 1 else 0);
    }
  }

  /** Counting the slots below `n` from zero: nothing before the share of `i`, one a slot within it, nothing after. */
  lemma {:induction false} HitsFromZero(endpoints: seq<Endpoint>, excluded: seq<string>, i: nat, n: nat)
    requires i < |endpoints| && 0 < TotalWeight(endpoints, excluded) && n <= TotalWeight(endpoints, excluded)
    ensures var low, high := TotalWeight(endpoints[..i], excluded), TotalWeight(endpoints[..i + 1], excluded);
            Hits(endpoints, excluded, i, 0, n) == if n <= low then 0 else if n <= high then n - low else high - low
    decreases n
  {
    hide Slot, TotalWeight, Chosen;
    assert endpoints[..i + 1][..i] == endpoints[..i];
    TotalWeightPrefix(endpoints[..i + 1], excluded, i);
    if n == 0 {
    } else {
      HitsFromZero(endpoints, excluded, i, n - 1);
      var slot := n - 1;
      ChosenCovers(endpoints, excluded, slot);
      var low, high := TotalWeight(endpoints[..i], excluded), TotalWeight(endpoints[..i + 1], excluded);
      if low <= slot < high {
        ChosenInPrefix(endpoints, excluded, slot, i);
      }
      SlotPeriodic(slot, TotalWeight(endpoints, excluded));
    }
  }

  lemma {:induction false} ChosenCovers(endpoints: seq<Endpoint>, excluded: seq<string>, slot: nat)
    requires slot < TotalWeight(endpoints, excluded)
    ensures var i := Chosen(endpoints, excluded, slot);
            TotalWeight(endpoints[..i], excluded) <= slot < TotalWeight(endpoints[..i + 1], excluded)
    decreases |endpoints|
  {
    var last := |endpoints| - 1;
    if slot >= TotalWeight(endpoints[..last], excluded) {
      assert endpoints[..last + 1] == endpoints;
    } else {
      ChosenCovers(endpoints[..last], excluded, slot);
      var i := Chosen(endpoints, excluded, slot);
      assert endpoints[..last][..i] == endpoints[..i] && endpoints[..last][..i + 1] == endpoints[..i + 1];
    }
  }

  /** The positions chosen by `n` calls in a row, the counter starting at `sequence` and wrapping at 64 bits. */
  function Choices(endpoints: seq<Endpoint>, excluded: seq<string>, sequence: nat, n: nat): (choices: seq<nat>)
    requires TotalWeight(endpoints, excluded) > 0
    ensures |choices| == n
  {
    if n == 0 then []
    else Choices(endpoints, excluded, sequence, n - 1) + [ChosenAt(endpoints, excluded, (sequence + n - 1) % TWO_64)]
  }

  /** Wrapping is harmless when the total weight divides the range of the counter. */
  lemma {:induction false} WrapKeepsSlot(sequence: nat, total: nat)
    requires total > 0 && (sequence < TWO_64 || TWO_64 % total == 0)
    ensures Slot(sequence % TWO_64, total) == Slot(sequence, total)
  {
    var x := sequence % TWO_64;
    if sequence >= TWO_64 {
      var wraps, c := sequence / TWO_64, TWO_64 / total;
      assert total * c == TWO_64;
      var q := x / total + c * wraps;
      assert sequence == total * q + x % total by {
        assert sequence == TWO_64 * wraps + x;
        assert TWO_64 * wraps == total * c * wraps == total * (c * wraps);
        assert x == total * (x / total) + x % total;
        assert total * q == total * (x / total) + total * (c * wraps);
      }
      DivModUnique(sequence, total, q, x % total);
    }
  }

  lemma {:induction false} WrapKeepsChoice(endpoints: seq<Endpoint>, excluded: seq<string>, sequence: nat)
    requires TotalWeight(endpoints, excluded) > 0
    requires sequence < TWO_64 || TWO_64 % TotalWeight(endpoints, excluded) == 0
    ensures ChosenAt(endpoints, excluded, sequence % TWO_64) == ChosenAt(endpoints, excluded, sequence)
  {
    hide TotalWeight, Slot;
    WrapKeepsSlot(sequence, TotalWeight(endpoints, excluded));
  }

  lemma {:induction false} ChoicesHits(endpoints: seq<Endpoint>, excluded: seq<string>, sequence: nat, n: nat, i: nat)
    requires TotalWeight(endpoints, excluded) > 0
    requires sequence + n <= TWO_64 || TWO_64 % TotalWeight(endpoints, excluded) == 0
    ensures multiset(Choices(endpoints, excluded, sequence, n))[i] == Hits(endpoints, excluded, i, sequence, n)
    decreases n
  {
    hide TotalWeight, ChosenAt, Choices, Hits;
    if n == 0 {
      NoCalls(endpoints, excluded, sequence, i);
    } else {
      ChoicesHits(endpoints, excluded, sequence, n - 1, i);
      ChoicesSnoc(endpoints, excluded, sequence, n, i);
      HitsSnoc(endpoints, excluded, i, sequence, n);
      WrapKeepsChoice(endpoints, excluded, sequence + n - 1);
    }
  }

  /**
   Fairness: over as many calls in a row as the total weight, every endpoint is
   chosen exactly its weight times and an excluded one never, from any counter
   value, unless the counter wraps on the way at a range the total weight does
   not divide.
   */
  lemma {:induction false} WindowIsFair(endpoints: seq<Endpoint>, excluded: seq<string>, sequence: nat, i: nat)
    requires i < |endpoints| && TotalWeight(endpoints, excluded) > 0
    requires sequence + TotalWeight(endpoints, excluded) <= TWO_64 || TWO_64 % TotalWeight(endpoints, excluded) == 0
    ensures multiset(Choices(endpoints, excluded, sequence, TotalWeight(endpoints, excluded)))[i] == Share(endpoints[i], excluded)
  {
    hide Slot, ChosenAt, Hits, Choices;
    var total := TotalWeight(endpoints, excluded);
    ChoicesHits(endpoints, excluded, sequence, total, i);
    HitsSlide(endpoints, excluded, i, sequence);
    HitsFromZero(endpoints, excluded, i, total);
    TotalWeightPrefix(endpoints, excluded, i + 1);
    assert endpoints[..i + 1][..i] == endpoints[..i];
  }

  // ----- Exactly how often an endpoint is chosen -----

  function Max(a: int, b: int): int { if a >= b then a else b }

  function Min(a: int, b: int): int { if a <= b then a else b }

  /** How many slots the intervals `[low, high)` and `[a, b)` share. */
  function Overlap(low: nat, high: nat, a: nat, b: nat): nat {
    Max(0, Min(high, b) - Max(low, a))
  }

  /** How many slots of `[low, high)` lie on the arc of `n` slots from `start`, on a circle of `total`. */
  function OnArc(low: nat, high: nat, start: nat, n: nat, total: nat): nat {
    if start + n <= total then Overlap(low, high, start, start + n)
    else Overlap(low, high, start, total) + Overlap(low, high, 0, start + n - total)
  }

  lemma {:induction false} HitsSplit(endpoints: seq<Endpoint>, excluded: seq<string>, i: nat, from: nat, m: nat, n: nat)
    requires TotalWeight(endpoints, excluded) > 0
    ensures Hits(endpoints, excluded, i, from, m + n) == Hits(endpoints, excluded, i, from, m) + Hits(endpoints, excluded, i, from + m, n)
    decreases n
  {
    hide ChosenAt, TotalWeight;
    if n == 0 {
    } else {
      HitsSplit(endpoints, excluded, i, from, m, n - 1);
    }
  }

  /** Whole turns of the circle do not matter. */
  lemma {:induction false} HitsTurn(endpoints: seq<Endpoint>, excluded: seq<string>, i: nat, from: nat, n: nat)
    requires TotalWeight(endpoints, excluded) > 0
    ensures Hits(endpoints, excluded, i, from + TotalWeight(endpoints, excluded), n) == Hits(endpoints, excluded, i, from, n)
    decreases n
  {
    hide TotalWeight, Slot;
    if n == 0 {
    } else {
      HitsTurn(endpoints, excluded, i, from, n - 1);
      SlotPeriodic(from + n - 1, TotalWeight(endpoints, excluded));
    }
  }

  lemma {:induction false} HitsReduced(endpoints: seq<Endpoint>, excluded: seq<string>, i: nat, from: nat, n: nat)
    requires TotalWeight(endpoints, excluded) > 0
    ensures Hits(endpoints, excluded, i, from, n) == Hits(endpoints, excluded, i, Slot(from, TotalWeight(endpoints, excluded)), n)
    decreases from
  {
    hide TotalWeight, Slot, Hits;
    var total := TotalWeight(endpoints, excluded);
    if from < total {
      SlotPeriodic(from, total);
    } else {
      SlotPeriodic(from - total, total);
      HitsTurn(endpoints, excluded, i, from - total, n);
      HitsReduced(endpoints, excluded, i, from - total, n);
    }
  }

  /** The share of a position: the slots from `low` to `high`. */
  function Low(endpoints: seq<Endpoint>, excluded: seq<string>, i: nat): nat
    requires i < |endpoints|
  {
    TotalWeight(endpoints[..i], excluded)
  }

  function High(endpoints: seq<Endpoint>, excluded: seq<string>, i: nat): nat
    requires i < |endpoints|
  {
    TotalWeight(endpoints[..i + 1], excluded)
  }

  lemma {:induction false} ShareInterval(endpoints: seq<Endpoint>, excluded: seq<string>, i: nat)
    requires i < |endpoints|
    ensures High(endpoints, excluded, i) == Low(endpoints, excluded, i) + Share(endpoints[i], excluded)
    ensures High(endpoints, excluded, i) <= TotalWeight(endpoints, excluded)
  {
    assert endpoints[..i + 1][..i] == endpoints[..i];
    TotalWeightPrefix(endpoints, excluded, i + 1);
  }

  /** On a stretch that does not pass the end of the circle, the choices of a position are its share of the stretch. */
  lemma {:induction false} HitsStretch(endpoints: seq<Endpoint>, excluded: seq<string>, i: nat, from: nat, n: nat)
    requires i < |endpoints| && 0 < TotalWeight(endpoints, excluded) && from + n <= TotalWeight(endpoints, excluded)
    ensures Hits(endpoints, excluded, i, from, n) == Overlap(Low(endpoints, excluded, i), High(endpoints, excluded, i), from, from + n)
  {
    hide TotalWeight, Hits;
    ShareInterval(endpoints, excluded, i);
    HitsFromZero(endpoints, excluded, i, from);
    HitsFromZero(endpoints, excluded, i, from + n);
    HitsSplit(endpoints, excluded, i, 0, from, n);
  }

  lemma {:induction false} HitsArc(endpoints: seq<Endpoint>, excluded: seq<string>, i: nat, from: nat, n: nat)
    requires i < |endpoints| && 0 < TotalWeight(endpoints, excluded) && n <= TotalWeight(endpoints, excluded)
    ensures var total := TotalWeight(endpoints, excluded);
      Hits(endpoints, excluded, i, from, n) == OnArc(Low(endpoints, excluded, i), High(endpoints, excluded, i), Slot(from, total), n, total)
  {
    hide TotalWeight, Hits, Overlap, Slot;
    var total := TotalWeight(endpoints, excluded);
    var start := Slot(from, total);
    HitsReduced(endpoints, excluded, i, from, n);
    if start + n <= total {
      HitsStretch(endpoints, excluded, i, start, n);
    } else {
      HitsSplit(endpoints, excluded, i, start, total - start, start + n - total);
      HitsStretch(endpoints, excluded, i, start, total - start);
      HitsTurn(endpoints, excluded, i, 0, start + n - total);
      HitsStretch(endpoints, excluded, i, 0, start + n - total);
    }
  }

  /** Calls across the wrap: those before it, and those from zero on. */
  lemma {:induction false} ChoicesAcrossWrap(endpoints: seq<Endpoint>, excluded: seq<string>, sequence: nat, n: nat, i: nat)
    requires TotalWeight(endpoints, excluded) > 0 && sequence < TWO_64 && n <= TWO_64
    ensures var left := TWO_64 - sequence;
      multiset(Choices(endpoints, excluded, sequence, n))[i] ==
      if n <= left then Hits(endpoints, excluded, i, sequence, n)
      else Hits(endpoints, excluded, i, sequence, left) + Hits(endpoints, excluded, i, 0, n - left)
    decreases n
  {
    hide TotalWeight, ChosenAt, Choices, Hits;
    var left := TWO_64 - sequence;
    if n <= left {
      ChoicesHits(endpoints, excluded, sequence, n, i);
    } else {
      ChoicesAcrossWrap(endpoints, excluded, sequence, n - 1, i);
      ChoicesSnoc(endpoints, excluded, sequence, n, i);
      HitsSnoc(endpoints, excluded, i, 0, n - left);
      WrapOnce(sequence + n - 1);
    }
  }

  lemma {:induction false} NoCalls(endpoints: seq<Endpoint>, excluded: seq<string>, sequence: nat, i: nat)
    requires TotalWeight(endpoints, excluded) > 0
    ensures multiset(Choices(endpoints, excluded, sequence, 0))[i] == Hits(endpoints, excluded, i, sequence, 0) == 0
  {
    hide TotalWeight, ChosenAt;
  }

  lemma {:induction false} ChoicesSnoc(endpoints: seq<Endpoint>, excluded: seq<string>, sequence: nat, n: nat, i: nat)
    requires TotalWeight(endpoints, excluded) > 0 && n > 0
    ensures multiset(Choices(endpoints, excluded, sequence, n))[i]
      == multiset(Choices(endpoints, excluded, sequence, n - 1))[i]
      + (if ChosenAt(endpoints, excluded, (sequence + n - 1) % TWO_64) == i then 1 else 0)
  {
    hide TotalWeight, ChosenAt;
  }

  lemma {:induction false} HitsSnoc(endpoints: seq<Endpoint>, excluded: seq<string>, i: nat, from: nat, n: nat)
    requires TotalWeight(endpoints, excluded) > 0 && n > 0
    ensures Hits(endpoints, excluded, i, from, n)
      == Hits(endpoints, excluded, i, from, n - 1) + (if ChosenAt(endpoints, excluded, from + n - 1) == i then 1 else 0)
    ensures Hits(endpoints, excluded, i, from, 0) == 0
  {
    hide TotalWeight, ChosenAt;
  }

  /** How often an endpoint is chosen in a window that the counter's wrap cuts in two: its share of two arcs. */
  lemma {:induction false} WindowCount(endpoints: seq<Endpoint>, excluded: seq<string>, sequence: nat, i: nat)
    requires i < |endpoints| && 0 < TotalWeight(endpoints, excluded) <= TWO_64
    requires sequence < TWO_64 < sequence + TotalWeight(endpoints, excluded)
    ensures var total, left := TotalWeight(endpoints, excluded), TWO_64 - sequence;
      var low, high := Low(endpoints, excluded, i), High(endpoints, excluded, i);
      multiset(Choices(endpoints, excluded, sequence, total))[i]
      == OnArc(low, high, Slot(sequence, total), left, total) + Overlap(low, high, 0, total - left)
  {
    hide TotalWeight, Hits, Overlap, OnArc, Slot, Choices;
    var total, left := TotalWeight(endpoints, excluded), TWO_64 - sequence;
    ChoicesAcrossWrap(endpoints, excluded, sequence, total, i);
    HitsArc(endpoints, excluded, i, sequence, left);
    HitsStretch(endpoints, excluded, i, 0, total - left);
  }

  /** The endpoint owns as many slots of the arc drawn before the wrap as of the arc that the wrap cuts off. */
  predicate Balanced(endpoints: seq<Endpoint>, excluded: seq<string>, sequence: nat, i: nat)
    requires i < |endpoints| && 0 < TotalWeight(endpoints, excluded)
    requires sequence < TWO_64 < sequence + TotalWeight(endpoints, excluded)
  {
    var total, left := TotalWeight(endpoints, excluded), TWO_64 - sequence;
    var low, high := Low(endpoints, excluded, i), High(endpoints, excluded, i);
    OnArc(low, high, Slot(sequence, total), left, total) == Overlap(low, high, total - left, total)
  }

  predicate Fair(endpoints: seq<Endpoint>, excluded: seq<string>, sequence: nat, i: nat)
    requires i < |endpoints| && 0 < TotalWeight(endpoints, excluded)
  {
    multiset(Choices(endpoints, excluded, sequence, TotalWeight(endpoints, excluded)))[i] == Share(endpoints[i], excluded)
  }

  lemma {:induction false} OverlapParts(low: nat, high: nat, cut: nat, total: nat)
    requires low <= high <= total && cut <= total
    ensures Overlap(low, high, 0, cut) + Overlap(low, high, cut, total) == high - low
  {
  }

  /** An endpoint is chosen exactly its weight times if and only if the window does not wrap or the wrap takes as many of its slots as it gives. */
  lemma {:induction false} FairExactly(endpoints: seq<Endpoint>, excluded: seq<string>, sequence: nat, i: nat)
    requires i < |endpoints| && 0 < TotalWeight(endpoints, excluded) <= TWO_64 && sequence < TWO_64
    ensures Fair(endpoints, excluded, sequence, i)
      <==> sequence + TotalWeight(endpoints, excluded) <= TWO_64 || Balanced(endpoints, excluded, sequence, i)
  {
    hide TotalWeight, Overlap, OnArc, Slot, Choices;
    var total := TotalWeight(endpoints, excluded);
    if sequence + total <= TWO_64 {
      WindowIsFair(endpoints, excluded, sequence, i);
    } else {
      WindowCount(endpoints, excluded, sequence, i);
      ShareInterval(endpoints, excluded, i);
      OverlapParts(Low(endpoints, excluded, i), High(endpoints, excluded, i), total - (TWO_64 - sequence), total);
    }
  }

  /** All endpoints get their weights together exactly if none of them gains or loses by the wrap. */
  lemma {:induction false} AllFairExactly(endpoints: seq<Endpoint>, excluded: seq<string>, sequence: nat)
    requires 0 < TotalWeight(endpoints, excluded) <= TWO_64 && sequence < TWO_64
    ensures (forall i :: 0 <= i < |endpoints| ==> Fair(endpoints, excluded, sequence, i))
      <==> (sequence + TotalWeight(endpoints, excluded) <= TWO_64
            || forall i :: 0 <= i < |endpoints| ==> Balanced(endpoints, excluded, sequence, i))
  {
    hide TotalWeight, Fair, Balanced;
    forall i | 0 <= i < |endpoints|
      ensures Fair(endpoints, excluded, sequence, i)
          <==> sequence + TotalWeight(endpoints, excluded) <= TWO_64 || Balanced(endpoints, excluded, sequence, i)
    {
      FairExactly(endpoints, excluded, sequence, i);
    }
  }

  /** At such a wrap the promise breaks: weights 1 and 2, three calls, and the lighter endpoint is chosen twice. */
  lemma {:induction false} WrapIsUnfair(endpoints: seq<Endpoint>)
    requires endpoints == [Endpoint("a", 1), Endpoint("b", 2)]
    ensures TotalWeight(endpoints, []) == 3 && Choices(endpoints, [], TWO_64 - 1, 3) == [0, 0, 1]
  {
    hide Slot;
    assert endpoints[..1] == [Endpoint("a", 1)] && endpoints[..0] == [] && endpoints[..2] == endpoints;
    assert endpoints[..1][..0] == [];
    assert TotalWeight(endpoints[..0], []) == 0 && TotalWeight(endpoints[..1], []) == 1 && TotalWeight(endpoints, []) == 3;
    SlotsAtWrap();
    ChosenInPrefix(endpoints, [], 0, 0);
    ChosenInPrefix(endpoints, [], 1, 1);
    var first := Choices(endpoints, [], TWO_64 - 1, 1);
    assert first == [0] by {
      assert Choices(endpoints, [], TWO_64 - 1, 0) == [];
    }
    assert Choices(endpoints, [], TWO_64 - 1, 2) == first + [0];
  }

  lemma {:induction false} SlotsAtWrap()
    ensures Slot(TWO_64 - 1, 3) == 0 && Slot(0, 3) == 0 && Slot(1, 3) == 1
    ensures (TWO_64 - 1 + 1) % TWO_64 == 0 && (TWO_64 - 1 + 2) % TWO_64 == 1 && (TWO_64 - 1) % TWO_64 == TWO_64 - 1
  {
  }

  // ----- Exactly when a window draws every slot -----

  /** The counter after `k` more calls selects this slot. */
  function Drawn(sequence: nat, total: nat, k: nat): nat
    requires total > 0
  {
    Slot((sequence + k) % TWO_64, total)
  }

  predicate Covers(sequence: nat, total: nat, slot: nat)
    requires total > 0
  {
    exists k: nat :: k < total && Drawn(sequence, total, k) == slot
  }

  lemma {:induction false} SlotOfSum(q: int, total: nat, r: nat)
    requires r < total && 0 <= total * q + r
    ensures Slot(total * q + r, total) == r
  {
    DivModUnique(total * q + r, total, q, r);
  }

  /** Without a harmful wrap every slot is drawn. */
  lemma {:induction false} AllCovered(sequence: nat, total: nat, slot: nat)
    requires slot < total && (sequence + total <= TWO_64 || TWO_64 % total == 0)
    ensures Covers(sequence, total, slot)
  {
    hide Slot;
    var q, r := sequence / total, sequence % total;
    var k := if slot >= r then slot - r else slot - r + total;
    var turn := if slot >= r then q else q + 1;
    assert sequence + k == total * turn + slot by {
      assert total * (q + 1) == total * q + total;
    }
    SlotOfSum(turn, total, slot);
    WrapKeepsSlot(sequence + k, total);
    assert Drawn(sequence, total, k) == slot;
  }

  /** The slot that a harmful wrap leaves out: `left` calls before it, and a remainder `rho` of the counter's range. */
  function Missed(total: nat, rho: nat, left: nat): int {
    if left <= rho then total - 1 else total - left + rho - 1
  }

  lemma {:induction false} DrawnAroundWrap(sequence: nat, total: nat, k: nat)
    requires sequence < TWO_64 < sequence + total && k < total <= TWO_64
    ensures var rho, left := TWO_64 % total, TWO_64 - sequence;
      Drawn(sequence, total, k) == if k >= left then k - left else if rho - left + k >= 0 then rho - left + k else rho - left + k + total
  {
    hide Slot;
    var q, rho, left := TWO_64 / total, TWO_64 % total, TWO_64 - sequence;
    assert TWO_64 == total * q + rho;
    if k >= left {
      WrapOnce(sequence + k);
      SlotPeriodic(k - left, total);
    } else {
      NoWrap(sequence + k);
      assert sequence + k == total * q + (rho - left + k);
      if rho - left + k >= 0 {
        SlotOfSum(q, total, rho - left + k);
      } else {
        assert total * (q - 1) == total * q - total;
        SlotOfSum(q - 1, total, rho - left + k + total);
      }
    }
  }

  lemma {:induction false} WrapOnce(x: nat)
    requires TWO_64 <= x < 2 * TWO_64
    ensures x % TWO_64 == x - TWO_64
  {
  }

  lemma {:induction false} NoWrap(x: nat)
    requires x < TWO_64
    ensures x % TWO_64 == x
  {
  }

  lemma {:induction false} MissedIsNotDrawn(sequence: nat, total: nat)
    requires sequence < TWO_64 < sequence + total && total <= TWO_64 && TWO_64 % total != 0
    ensures var slot := Missed(total, TWO_64 % total, TWO_64 - sequence);
      0 <= slot < total && !Covers(sequence, total, slot)
  {
    hide Drawn;
    var slot := Missed(total, TWO_64 % total, TWO_64 - sequence);
    forall k: nat | k < total ensures Drawn(sequence, total, k) != slot {
      DrawnAroundWrap(sequence, total, k);
    }
  }

  /** As many calls as there are slots draw every slot exactly when the counter does not wrap on the way or the total divides its range. */
  lemma {:induction false} CoversExactly(sequence: nat, total: nat)
    requires sequence < TWO_64 && 0 < total <= TWO_64
    ensures (forall slot: nat :: slot < total ==> Covers(sequence, total, slot)) <==> sequence + total <= TWO_64 || TWO_64 % total == 0
  {
    hide Covers;
    if sequence + total <= TWO_64 || TWO_64 % total == 0 {
      forall slot: nat | slot < total ensures Covers(sequence, total, slot) {
        AllCovered(sequence, total, slot);
      }
    } else {
      MissedIsNotDrawn(sequence, total);
    }
  }

  // ----- No failure exit -----

  lemma {:induction false} WeightAvailable(endpoints: seq<Endpoint>, excluded: seq<string>, i: nat)
    requires ValidService(endpoints) && i < |endpoints| && endpoints[i].id !in excluded
    ensures TotalWeight(endpoints, excluded) > 0
  {
    TotalWeightPrefix(endpoints, excluded, i + 1);
    assert endpoints[..i + 1][..i] == endpoints[..i];
  }
}
