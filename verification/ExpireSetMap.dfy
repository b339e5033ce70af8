/** util/timer.go: a relation whose pairs expire. Each pair in the map has a timer with a
    goroutine that waits for it and then queues the deletion; one runner handles updates and
    queued deletions. Time is not modelled: a timer may fire at any moment, and what Reset does
    to it makes no difference then. */
module ExpireSetMaps {
  import opened SetMaps

  const DELETE_CAPACITY := 64

  datatype Input<K, V> =
    | Update(key: K, value: V)
    | TimerFires(key: K, value: V)
    | GoroutinePushes(key: K, value: V)
    | TakeDelete

  ghost function Pairs<K(!new), V(!new)>(m: map<K, set<V>>): set<(K, V)> {
    set k, v | k in m && v in m[k] :: (k, v)
  }

  lemma PairsAfterAdd<K(!new), V(!new)>(m: map<K, set<V>>, k: K, v: V)
    ensures Pairs(WithPair(m, k, v)) == Pairs(m) + {(k, v)}
  {
  }

  lemma PairsAfterRemove<K(!new), V(!new)>(m: map<K, set<V>>, k: K, v: V)
    ensures Pairs(WithoutPair(m, k, v)) == Pairs(m) - {(k, v)}
  {
    forall l, w ensures (l, w) in Pairs(WithoutPair(m, k, v)) <==> (l, w) in Pairs(m) && (l, w) != (k, v) {
      assert w in Row(m, k) - {v} <==> w in Row(m, k) && w != v;
    }
  }

  lemma OneMore<T>(s: set<T>, x: T)
    requires x !in s
    ensures multiset(s + {x}) == multiset(s) + multiset{x}
  {
  }

  /** One more pair is one more expiry to come. */
  lemma AddedPair<K(!new), V(!new)>(m: map<K, set<V>>, k: K, v: V)
    requires NoEmptyRow(m) && !Has(m, k, v)
    ensures multiset(Pairs(WithPair(m, k, v))) == multiset(Pairs(m)) + multiset{(k, v)}
    ensures NoEmptyRow(WithPair(m, k, v))
    ensures k !in m ==> m[k := {v}] == WithPair(m, k, v)
  {
    PairsAfterAdd(m, k, v);
    OneMore(Pairs(m), (k, v));
    assert k !in m ==> Row(m, k) + {v} == {v};
  }

  /** If every pair has one expiry on its way, the one that is taken is of a pair that is there,
      and the others are those of the pairs left. */
  lemma RemovedPair<K(!new), V(!new)>(m: map<K, set<V>>, out: multiset<(K, V)>, k: K, v: V)
    requires out + multiset{(k, v)} == multiset(Pairs(m))
    ensures Has(m, k, v)
    ensures out == multiset(Pairs(WithoutPair(m, k, v)))
    ensures multiset(Pairs(m)) == multiset(Pairs(WithoutPair(m, k, v))) + multiset{(k, v)}
  {
    var p := (k, v);
    assert p in multiset(Pairs(m));
    PairsAfterRemove(m, k, v);
    OneMore(Pairs(m) - {p}, p);
    assert Pairs(m) == (Pairs(m) - {p}) + {p};
    assert out == (out + multiset{p}) - multiset{p};
    assert multiset(Pairs(m) - {p}) == multiset(Pairs(m)) - multiset{p};
  }

  // ----- What each thing that happens does -----

  /** The relation, the goroutines whose timer has not fired, those about to queue a deletion,
      and the queue. */
  datatype Core<K, V> = Core(m: map<K, set<V>>, waiting: multiset<(K, V)>, pushing: multiset<(K, V)>,
                             deleteCh: seq<(K, V)>)

  /** What the map starts from. */
  ghost function EmptyCore<K, V>(): Core<K, V> {
    Core(map[], multiset{}, multiset{}, [])
  }

  /** Each pair in the map has exactly one expiry on its way and no other pair has any. */
  ghost predicate Good<K(!new), V(!new)>(c: Core<K, V>) {
    && NoEmptyRow(c.m)
    && c.waiting + c.pushing + multiset(c.deleteCh) == multiset(Pairs(c.m))
  }

  /** An input that is not possible now does nothing. */
  ghost function After<K, V>(c: Core<K, V>, input: Input<K, V>): Core<K, V> {
    match input
    case Update(k, v) =>
      if Has(c.m, k, v) then c else c.(m := WithPair(c.m, k, v), waiting := c.waiting + multiset{(k, v)})
    case TimerFires(k, v) =>
      if (k, v) !in c.waiting then c
      else c.(waiting := c.waiting - multiset{(k, v)}, pushing := c.pushing + multiset{(k, v)})
    case GoroutinePushes(k, v) =>
      if (k, v) !in c.pushing || |c.deleteCh| >= DELETE_CAPACITY then c
      else c.(pushing := c.pushing - multiset{(k, v)}, deleteCh := c.deleteCh + [(k, v)])
    case TakeDelete =>
      if c.deleteCh == [] then c
      else c.(m := WithoutPair(c.m, c.deleteCh[0].0, c.deleteCh[0].1), deleteCh := c.deleteCh[1..])
  }

  ghost function AfterAll<K, V>(c: Core<K, V>, inputs: seq<Input<K, V>>): Core<K, V> {
    if inputs == [] then c else After(AfterAll(c, inputs[..|inputs| - 1]), inputs[|inputs| - 1])
  }

  lemma UpdateKeepsGood<K(!new), V(!new)>(c: Core<K, V>, k: K, v: V)
    requires Good(c)
    ensures Good(After(c, Update(k, v)))
  {
    if !Has(c.m, k, v) {
      AddedPair(c.m, k, v);
    }
  }

  lemma TakeKeepsGood<K(!new), V(!new)>(c: Core<K, V>)
    requires Good(c) && c.deleteCh != []
    ensures Good(After(c, TakeDelete)) && Has(c.m, c.deleteCh[0].0, c.deleteCh[0].1)
  {
    var p, rest := c.deleteCh[0], c.deleteCh[1..];
    assert c.deleteCh == [p] + rest;
    assert c.waiting + c.pushing + multiset(rest) + multiset{p} == multiset(Pairs(c.m));
    RemovedPair(c.m, c.waiting + c.pushing + multiset(rest), p.0, p.1);
  }

  lemma MovesKeepGood<K(!new), V(!new)>(c: Core<K, V>, input: Input<K, V>)
    requires Good(c) && (input.TimerFires? || input.GoroutinePushes?)
    ensures Good(After(c, input))
  {
    var c', p := After(c, input), multiset{(input.key, input.value)};
    if c' != c {
      if input.TimerFires? {
        assert c'.waiting + c'.pushing == c.waiting + c.pushing;
      } else {
        assert c'.pushing + multiset(c'.deleteCh) == c.pushing + multiset(c.deleteCh);
      }
      assert c'.waiting + c'.pushing + multiset(c'.deleteCh) == c.waiting + c.pushing + multiset(c.deleteCh);
    }
  }

  lemma GoodKept<K(!new), V(!new)>(c: Core<K, V>, input: Input<K, V>)
    requires Good(c)
    ensures Good(After(c, input))
  {
    match input
    case Update(k, v) => UpdateKeepsGood(c, k, v);
    case TakeDelete => if c.deleteCh != [] { TakeKeepsGood(c); }
    case _ => MovesKeepGood(c, input);
  }

  // ----- When a refresh saves a pair -----

  /** In no continuation does the pair expire before its timer, just reset, fires again. */
  ghost predicate Survives<K(!new), V(!new)>(c: Core<K, V>, k: K, v: V) {
    forall inputs: seq<Input<K, V>> | TimerFires(k, v) !in inputs :: Has(AfterAll(c, inputs).m, k, v)
  }

  lemma {:induction false} WaitingSurvives<K(!new), V(!new)>(c: Core<K, V>, k: K, v: V, inputs: seq<Input<K, V>>)
    requires Good(c) && (k, v) in c.waiting && TimerFires(k, v) !in inputs
    ensures var c' := AfterAll(c, inputs); Good(c') && (k, v) in c'.waiting && Has(c'.m, k, v)
  {
    if inputs == [] {
      assert (k, v) in multiset(Pairs(c.m));
    } else {
      var front, last := inputs[..|inputs| - 1], inputs[|inputs| - 1];
      WaitingSurvives(c, k, v, front);
      var c1 := AfterAll(c, front);
      GoodKept(c1, last);
      assert (k, v) in After(c1, last).waiting;
      assert (k, v) in multiset(Pairs(After(c1, last).m));
    }
  }

  lemma {:induction false} AfterFirst<K, V>(c: Core<K, V>, first: Input<K, V>, rest: seq<Input<K, V>>)
    ensures AfterAll(c, [first] + rest) == AfterAll(After(c, first), rest)
  {
    var all := [first] + rest;
    if rest == [] {
      assert all[..0] == [] && AfterAll(c, all[..0]) == c;
    } else {
      assert all[..|all| - 1] == [first] + rest[..|rest| - 1];
      AfterFirst(c, first, rest[..|rest| - 1]);
    }
  }

  /** A queued deletion happens when the queue is taken to its place. */
  lemma {:induction false} QueuedIsDeleted<K(!new), V(!new)>(c: Core<K, V>, k: K, v: V) returns (inputs: seq<Input<K, V>>)
    requires (k, v) in c.deleteCh
    ensures TimerFires(k, v) !in inputs && !Has(AfterAll(c, inputs).m, k, v)
    decreases |c.deleteCh|
  {
    var c1 := After(c, TakeDelete);
    var rest := [];
    if c.deleteCh[0] != (k, v) {
      rest := QueuedIsDeleted(c1, k, v);
    }
    inputs := [TakeDelete] + rest;
    AfterFirst(c, TakeDelete, rest);
  }

  /** A pair about to be queued is, as soon as the queue has been emptied. */
  lemma {:induction false} PushedIsDeleted<K(!new), V(!new)>(c: Core<K, V>, k: K, v: V) returns (inputs: seq<Input<K, V>>)
    requires (k, v) in c.pushing
    ensures TimerFires(k, v) !in inputs && !Has(AfterAll(c, inputs).m, k, v)
    decreases |c.deleteCh|
  {
    var first: Input<K, V> := if c.deleteCh == [] then GoroutinePushes(k, v) else TakeDelete;
    var rest;
    if c.deleteCh == [] {
      rest := QueuedIsDeleted(After(c, first), k, v);
    } else {
      rest := PushedIsDeleted(After(c, first), k, v);
    }
    inputs := [first] + rest;
    AfterFirst(c, first, rest);
  }

  /** A refresh saves a pair exactly when its goroutine still waits for the timer or it has none:
      not when the timer has fired already and the deletion is queued or about to be. */
  lemma RefreshSavesIff<K(!new), V(!new)>(c: Core<K, V>, k: K, v: V)
    requires Good(c)
    ensures Survives(After(c, Update(k, v)), k, v) <==> (k, v) !in c.pushing && (k, v) !in c.deleteCh
    ensures Has(c.m, k, v) ==> (Survives(After(c, Update(k, v)), k, v) <==> (k, v) in c.waiting)
  {
    var c1, p := After(c, Update(k, v)), (k, v);
    OneExpiryPerPair(c.m, c.waiting, c.pushing, c.deleteCh, multiset(Pairs(c.m)), multiset{}, k, v);
    UpdateKeepsGood(c, k, v);
    if p in c.pushing {
      var inputs := PushedIsDeleted(c1, k, v);
    } else if p in c.deleteCh {
      var inputs := QueuedIsDeleted(c1, k, v);
    } else {
      assert p in c1.waiting;
      forall inputs: seq<Input<K, V>> | TimerFires(k, v) !in inputs ensures Has(AfterAll(c1, inputs).m, k, v) {
        WaitingSurvives(c1, k, v, inputs);
      }
    }
  }

  /** It does come to that from the start: the pair expires although it was refreshed after its
      timer had fired for the only time. */
  lemma LateRefreshReached<K(!new), V(!new)>(k: K, v: V)
    ensures var before: seq<Input<K, V>> :=
        [Update(k, v)] + ([TimerFires(k, v)] + ([GoroutinePushes(k, v)] + ([Update(k, v)] + [])));
      var c := AfterAll(EmptyCore(), before);
      Has(c.m, k, v) && c == After(c, Update(k, v)) && !Has(After(c, TakeDelete).m, k, v)
  {
    var none: seq<Input<K, V>> := [];
    var c1 := After(EmptyCore<K, V>(), Update(k, v));
    var c2 := After(c1, TimerFires(k, v));
    var c3 := After(c2, GoroutinePushes(k, v));
    assert Has(c1.m, k, v) && c1.waiting == multiset{(k, v)};
    assert c3.deleteCh == [(k, v)] && c3 == After(c3, Update(k, v));
    AfterFirst(c3, Update(k, v), none);
    AfterFirst(c2, GoroutinePushes(k, v), [Update(k, v)] + none);
    AfterFirst(c1, TimerFires(k, v), [GoroutinePushes(k, v)] + ([Update(k, v)] + none));
    AfterFirst(EmptyCore<K, V>(), Update(k, v), [TimerFires(k, v)] + ([GoroutinePushes(k, v)] + ([Update(k, v)] + none)));
  }

  // ----- The runner and its goroutines -----

  class ExpireSetMap<K(==, !new), V(==, !new)> {
    var m: map<K, set<V>>
    /** The goroutines whose timer has not fired, and those whose timer has, about to queue the
        deletion. */
    var waiting: multiset<(K, V)>
    var pushing: multiset<(K, V)>
    var deleteCh: seq<(K, V)>
    /** The timers created and the calls of the onDeleted handler, so far. */
    ghost var created: multiset<(K, V)>
    ghost var onDeleted: multiset<(K, V)>

    ghost function Abs(): Core<K, V>
      reads this
    {
      Core(m, waiting, pushing, deleteCh)
    }

    /** Besides, every pair was created as often as it was reported deleted, and once more if it
        is present. */
    ghost predicate Valid()
      reads this
    {
      Good(Abs()) && created == onDeleted + multiset(Pairs(m))
    }

    constructor ()
      ensures Valid() && Abs() == EmptyCore() && created == multiset{}
    {
      m, waiting, pushing, deleteCh := map[], multiset{}, multiset{}, [];
      created, onDeleted := multiset{}, multiset{};
    }

    method HandleUpdate(key: K, value: V)
      requires Valid()
      modifies this
      ensures Valid() && Abs() == After(old(Abs()), Update(key, value))
      ensures created == if Has(old(m), key, value) then old(created) else old(created) + multiset{(key, value)}
      ensures onDeleted == old(onDeleted)
    {
      if key in m && value in m[key] {
        // timer.Reset
      } else {
        NewEntry(key, value);
      }
    }

    /** A new timer in the set of the key, or in a new set if the key has none. */
    method NewEntry(key: K, value: V)
      requires Valid() && !Has(m, key, value)
      modifies this`m, this`waiting, this`created
      ensures Valid() && m == WithPair(old(m), key, value)
      ensures created == old(created) + multiset{(key, value)}
      ensures waiting == old(waiting) + multiset{(key, value)}
    {
      AddedPair(m, key, value);
      if key in m {
        m := m[key := m[key] + {value}];
      } else {
        m := m[key := {value}];
      }
      NewTimer(key, value);
    }

    /** newTimer and the start of its goroutine. */
    method NewTimer(key: K, value: V)
      requires NoEmptyRow(m)
      requires waiting + pushing + multiset(deleteCh) + multiset{(key, value)} == multiset(Pairs(m))
      requires created + multiset{(key, value)} == onDeleted + multiset(Pairs(m))
      modifies this`waiting, this`created
      ensures Valid() && created == old(created) + multiset{(key, value)}
      ensures waiting == old(waiting) + multiset{(key, value)}
    {
      waiting := waiting + multiset{(key, value)};
      created := created + multiset{(key, value)};
    }

    /** The handler is called once, and only for pairs that are there. */
    method HandleDelete(key: K, value: V)
      requires NoEmptyRow(m) && waiting + pushing + multiset(deleteCh) + multiset{(key, value)} == multiset(Pairs(m))
      requires created == onDeleted + multiset(Pairs(m))
      modifies this`m, this`onDeleted
      ensures Valid() && m == WithoutPair(old(m), key, value)
      ensures Has(old(m), key, value) && onDeleted == old(onDeleted) + multiset{(key, value)}
    {
      RemovedPair(m, waiting + pushing + multiset(deleteCh), key, value);
      if key in m {
        Erase(key, value);
        onDeleted := onDeleted + multiset{(key, value)};
      }
    }

    /** The value leaves the set of the key, and the key goes with its last value. */
    method Erase(key: K, value: V)
      requires NoEmptyRow(m) && key in m
      modifies this`m
      ensures m == WithoutPair(old(m), key, value)
    {
      m := m[key := m[key] - {value}];
      if |m[key]| <= 0 {
        m := m - {key};
      }
    }

    /** One thing that happens; an input that is not possible now does nothing. */
    method Next(input: Input<K, V>)
      requires Valid()
      modifies this
      ensures Valid() && Abs() == After(old(Abs()), input)
      ensures !input.TakeDelete? ==> onDeleted == old(onDeleted)
    {
      match input {
        case Update(key, value) => HandleUpdate(key, value);
        case TimerFires(key, value) => Fire(key, value);
        case GoroutinePushes(key, value) => Push(key, value);
        case TakeDelete =>
          if deleteCh != [] {
            TakeDeleteCh();
          }
      }
    }

    method Fire(key: K, value: V)
      requires Valid()
      modifies this`waiting, this`pushing
      ensures Valid() && Abs() == After(old(Abs()), TimerFires(key, value))
    {
      GoodKept(Abs(), TimerFires(key, value));
      if (key, value) in waiting {
        waiting, pushing := waiting - multiset{(key, value)}, pushing + multiset{(key, value)};
      }
    }

    method Push(key: K, value: V)
      requires Valid()
      modifies this`pushing, this`deleteCh
      ensures Valid() && Abs() == After(old(Abs()), GoroutinePushes(key, value))
    {
      GoodKept(Abs(), GoroutinePushes(key, value));
      if (key, value) in pushing && |deleteCh| < DELETE_CAPACITY {
        pushing, deleteCh := pushing - multiset{(key, value)}, deleteCh + [(key, value)];
      }
    }

    method TakeDeleteCh()
      requires Valid() && deleteCh != []
      modifies this`m, this`deleteCh, this`onDeleted
      ensures Valid() && Abs() == After(old(Abs()), TakeDelete)
      ensures Has(old(m), old(deleteCh)[0].0, old(deleteCh)[0].1)
      ensures onDeleted == old(onDeleted) + multiset{old(deleteCh)[0]}
    {
      var i := deleteCh[0];
      assert deleteCh == [i] + deleteCh[1..];
      deleteCh := deleteCh[1..];
      HandleDelete(i.0, i.1);
    }

    /** Any finite run before Stop. At its end the pairs on their way to deletion are, each once,
        the pairs present, and no key is kept without values. */
    method Run(inputs: seq<Input<K, V>>)
      requires Valid()
      modifies this
      ensures Valid() && Abs() == AfterAll(old(Abs()), inputs)
    {
      for i := 0 to |inputs|
        invariant Valid() && Abs() == AfterAll(old(Abs()), inputs[..i])
      {
        assert inputs[..i + 1][..i] == inputs[..i];
        Next(inputs[i]);
      }
      assert inputs[..|inputs|] == inputs;
    }
  }

  /** A refresh can come too late: when the deletion of a pair is next in the queue, an update
      that finds the pair still there only resets its timer, and the pair is deleted all the same. */
  method LateRefresh<K(==, !new), V(==, !new)>(s: ExpireSetMap<K, V>)
    requires s.Valid() && s.deleteCh != []
    modifies s
    ensures s.Valid() && !Has(s.m, old(s.deleteCh)[0].0, old(s.deleteCh)[0].1)
    ensures s.created == old(s.created)
  {
    var p := s.deleteCh[0];
    OneExpiryPerPair(s.m, s.waiting, s.pushing, s.deleteCh, s.created, s.onDeleted, p.0, p.1);
    s.HandleUpdate(p.0, p.1);
    s.TakeDeleteCh();
  }

  /** What validity says of one pair: its outstanding expiries and its open creations are both
      one if it is present and none if it is not. */
  lemma OneExpiryPerPair<K(!new), V(!new)>(m: map<K, set<V>>, waiting: multiset<(K, V)>, pushing: multiset<(K, V)>,
      deleteCh: seq<(K, V)>, created: multiset<(K, V)>, onDeleted: multiset<(K, V)>, k: K, v: V)
    requires waiting + pushing + multiset(deleteCh) == multiset(Pairs(m))
    requires created == onDeleted + multiset(Pairs(m))
    ensures var present := if Has(m, k, v) then 1 else 0;
      && waiting[(k, v)] + pushing[(k, v)] + multiset(deleteCh)[(k, v)] == present
      && created[(k, v)] == onDeleted[(k, v)] + present
  {
    assert (k, v) in Pairs(m) <==> Has(m, k, v);
    assert (waiting + pushing + multiset(deleteCh))[(k, v)] == multiset(Pairs(m))[(k, v)];
    assert created[(k, v)] == onDeleted[(k, v)] + multiset(Pairs(m))[(k, v)];
  }

  // ----- The queue -----

  ghost function QueuedBy<K, V>(c: Core<K, V>, a: Input<K, V>): seq<(K, V)> {
    if a.GoroutinePushes? && (a.key, a.value) in c.pushing && |c.deleteCh| < DELETE_CAPACITY then [(a.key, a.value)]
    else []
  }

  ghost function DequeuedBy<K, V>(c: Core<K, V>, a: Input<K, V>): seq<(K, V)> {
    if a.TakeDelete? && c.deleteCh != [] then [c.deleteCh[0]] else []
  }

  lemma QueueStep<K, V>(c: Core<K, V>, a: Input<K, V>)
    ensures c.deleteCh + QueuedBy(c, a) == DequeuedBy(c, a) + After(c, a).deleteCh
    ensures |c.deleteCh| <= DELETE_CAPACITY ==> |After(c, a).deleteCh| <= DELETE_CAPACITY
  {
  }

  /** The pairs queued, and the pairs taken for deletion, by some inputs, in order. */
  ghost function Queued<K, V>(c: Core<K, V>, inputs: seq<Input<K, V>>): seq<(K, V)> {
    if inputs == [] then []
    else
      var front, last := inputs[..|inputs| - 1], inputs[|inputs| - 1];
      Queued(c, front) + QueuedBy(AfterAll(c, front), last)
  }

  ghost function Dequeued<K, V>(c: Core<K, V>, inputs: seq<Input<K, V>>): seq<(K, V)> {
    if inputs == [] then []
    else
      var front, last := inputs[..|inputs| - 1], inputs[|inputs| - 1];
      Dequeued(c, front) + DequeuedBy(AfterAll(c, front), last)
  }

  /** A queue that was `was`, then `now` and then `next`, with what was put in and taken out. */
  lemma Requeued<T>(was: seq<T>, ins: seq<T>, outs: seq<T>, now: seq<T>, put: seq<T>, took: seq<T>, next: seq<T>)
    requires was + ins == outs + now && now + put == took + next
    ensures was + (ins + put) == (outs + took) + next
  {
    assert was + (ins + put) == (was + ins) + put;
    assert (outs + now) + put == outs + (now + put);
    assert outs + (took + next) == (outs + took) + next;
  }

  /** Pairs are taken for deletion in the order in which they were queued, and the queue never
      holds more than its capacity. */
  lemma {:induction false} FirstInFirstOut<K, V>(c: Core<K, V>, inputs: seq<Input<K, V>>)
    requires |c.deleteCh| <= DELETE_CAPACITY
    ensures c.deleteCh + Queued(c, inputs) == Dequeued(c, inputs) + AfterAll(c, inputs).deleteCh
    ensures |AfterAll(c, inputs).deleteCh| <= DELETE_CAPACITY
  {
    if inputs != [] {
      var front, last := inputs[..|inputs| - 1], inputs[|inputs| - 1];
      FirstInFirstOut(c, front);
      QueueStep(AfterAll(c, front), last);
      var now := AfterAll(c, front);
      Requeued(c.deleteCh, Queued(c, front), Dequeued(c, front), now.deleteCh,
               QueuedBy(now, last), DequeuedBy(now, last), After(now, last).deleteCh);
    }
  }
}
