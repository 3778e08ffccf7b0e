/**
 * The in-process publish/subscribe registry: a dictionary from topic to the
 * list of handlers subscribed to it, newest first.
 *
 * Handlers are identified by an id. What a handler does when it is called is
 * an input (`react`): the subscriptions and disposals it makes on this same
 * registry while it runs, and whether it throws.
 */
module EventBus {
  import opened Types

  type HandlerId = nat

  /**
   * A function stored in the registry: the subscriber's own function, or the
   * wrapper that `subscribeOnce` builds around it. Every wrapper is a new
   * function; `serial` stands for that identity, `topic` is the topic it was
   * subscribed on and `target` the function it calls through to.
   */
  datatype Handler = Direct(id: HandlerId) | OnceWrapper(serial: nat, topic: string, target: HandlerId)

  /** The subscriber's function that ends up being called. */
  function Target(h: Handler): HandlerId {
    match h
    case Direct(id) => id
    case OnceWrapper(_, _, target) => target
  }

  /** The capability `subscribe` returns: disposing it removes `handler` from `topic`. */
  datatype Subscription = Subscription(topic: string, handler: Handler)

  /**
   * A change a running handler makes to the registry: `subscribe`,
   * `subscribeOnce`, or disposing a subscription it holds.
   */
  datatype RegistryOp =
    | SubscribeOp(topic: string, id: HandlerId)
    | SubscribeOnceOp(topic: string, id: HandlerId)
    | DisposeOp(sub: Subscription)

  /** The behaviour of a handler when called: its registry changes, then whether it throws. */
  datatype Reaction = Reaction(ops: seq<RegistryOp>, throws: bool)

  /** One invocation of a subscriber's function, with the arguments it receives. */
  datatype Call<D> = Call(handler: Handler, target: HandlerId, topic: string, data: D)

  type Registry = map<string, seq<Handler>>

  /** The registry together with the serial the next once-wrapper gets. */
  datatype Bus = Bus(lookup: Registry, nextSerial: nat)

  /** The handler list stored for `topic` (`?? []`). */
  function Handlers(m: Registry, topic: string): seq<Handler> {
    if topic in m then m[topic] else []
  }

  /** `hs.filter(x => x !== h)`: every occurrence of `h` removed, order kept. */
  function Without(hs: seq<Handler>, h: Handler): (r: seq<Handler>)
    ensures |r| <= |hs|
    ensures forall x :: x in r <==> x in hs && x != h
  {
    if hs == [] then []
    else if hs[0] == h then Without(hs[1..], h)
    else [hs[0]] + Without(hs[1..], h)
  }

  /** The registry after `subscribe(topic, h)`: `h` in front of the old list. */
  function Subscribed(m: Registry, topic: string, h: Handler): (m': Registry)
    ensures m'.Keys == m.Keys + {topic}
    ensures forall t :: t in m && t != topic ==> m'[t] == m[t]
    ensures m'[topic] == [h] + Handlers(m, topic)
  {
    m[topic := [h] + Handlers(m, topic)]
  }

  /** The registry after disposing `h`'s subscription on `topic`. */
  function Disposed(m: Registry, topic: string, h: Handler): (m': Registry)
    ensures m'.Keys == m.Keys + {topic}
    ensures forall t :: t in m && t != topic ==> m'[t] == m[t]
    ensures h !in m'[topic]
  {
    m[topic := Without(Handlers(m, topic), h)]
  }

  /** The wrapper `subscribeOnce` builds when the bus is in state `b`. */
  function NewWrapper(b: Bus, topic: string, id: HandlerId): Handler {
    OnceWrapper(b.nextSerial, topic, id)
  }

  function ApplyOp(b: Bus, op: RegistryOp): (r: Bus)
    ensures r.nextSerial >= b.nextSerial
  {
    match op
    case SubscribeOp(topic, id) => b.(lookup := Subscribed(b.lookup, topic, Direct(id)))
    case SubscribeOnceOp(topic, id) =>
      Bus(Subscribed(b.lookup, topic, NewWrapper(b, topic, id)), b.nextSerial + 1)
    case DisposeOp(sub) => b.(lookup := Disposed(b.lookup, sub.topic, sub.handler))
  }

  function ApplyOps(b: Bus, ops: seq<RegistryOp>): (r: Bus)
    ensures r.nextSerial >= b.nextSerial
    decreases |ops|
  {
    if ops == [] then b else ApplyOps(ApplyOp(b, ops[0]), ops[1..])
  }

  /** A once-wrapper made before state `b` that is no longer on its topic's list there. */
  predicate Retired(b: Bus, w: Handler) {
    w.OnceWrapper? && w.serial < b.nextSerial && w !in Handlers(b.lookup, w.topic)
  }

  /**
   * The bus after the publish loop calls `h`: a once-wrapper first disposes
   * its own subscription, then the subscriber's function runs. Whatever that
   * function does, the wrapper is not on its topic's list afterwards.
   */
  function Invoke(b: Bus, h: Handler, react: HandlerId -> Reaction): (r: Bus)
    ensures r.nextSerial >= b.nextSerial
    ensures h.OnceWrapper? && h.serial < b.nextSerial ==> h !in Handlers(r.lookup, h.topic)
  {
    var b1 := if h.OnceWrapper? then b.(lookup := Disposed(b.lookup, h.topic, h)) else b;
    ApplyOpsKeepsRetired(b1, react(Target(h)).ops, h);
    ApplyOps(b1, react(Target(h)).ops)
  }

  /**
   * The bus after the publish loop has called every handler of `hs` in
   * order: every once-wrapper among them has been taken off its topic.
   */
  function Run(b: Bus, hs: seq<Handler>, react: HandlerId -> Reaction): (r: Bus)
    ensures r.nextSerial >= b.nextSerial
    ensures forall k :: 0 <= k < |hs| && hs[k].OnceWrapper? && hs[k].serial < b.nextSerial ==>
              hs[k] !in Handlers(r.lookup, hs[k].topic)
    decreases |hs|, 0
  {
    if hs == [] then b
    else
      var b1 := Invoke(b, hs[0], react);
      RunKeepsRetired(b1, hs[1..], react, hs[0]);
      assert forall k :: 1 <= k < |hs| ==> hs[k] == hs[1..][k - 1];
      Run(b1, hs[1..], react)
  }

  lemma OpKeepsRetired(b: Bus, op: RegistryOp, w: Handler)
    ensures Retired(b, w) ==> Retired(ApplyOp(b, op), w)
  {
    if Retired(b, w) {
      match op {
        case SubscribeOp(topic, id) =>
        case SubscribeOnceOp(topic, id) =>
          assert NewWrapper(b, topic, id) != w;
        case DisposeOp(sub) =>
          var m := b.lookup;
          if sub.topic == w.topic {
            assert forall x :: x in Without(Handlers(m, sub.topic), sub.handler) ==> x in Handlers(m, sub.topic);
          }
      }
    }
  }

  /** A retired once-wrapper never comes back: no registry change can re-create it. */
  lemma {:induction false} ApplyOpsKeepsRetired(b: Bus, ops: seq<RegistryOp>, w: Handler)
    ensures Retired(b, w) ==> Retired(ApplyOps(b, ops), w)
    decreases |ops|
  {
    if ops != [] {
      OpKeepsRetired(b, ops[0], w);
      ApplyOpsKeepsRetired(ApplyOp(b, ops[0]), ops[1..], w);
    }
  }

  lemma {:induction false} RunKeepsRetired(b: Bus, hs: seq<Handler>, react: HandlerId -> Reaction, w: Handler)
    ensures Retired(b, w) ==> Retired(Run(b, hs, react), w)
    decreases |hs|, 1
  {
    if hs != [] && Retired(b, w) {
      var h := hs[0];
      var b1 := if h.OnceWrapper? then b.(lookup := Disposed(b.lookup, h.topic, h)) else b;
      if h.OnceWrapper? && h.topic == w.topic {
        assert forall x :: x in Without(Handlers(b.lookup, h.topic), h) ==> x in Handlers(b.lookup, h.topic);
      }
      assert Retired(b1, w);
      ApplyOpsKeepsRetired(b1, react(Target(h)).ops, w);
      RunKeepsRetired(Invoke(b, h, react), hs[1..], react, w);
    }
  }

  /** The calls that publishing `data` on `topic` makes, one per handler of `hs`, in order. */
  function Calls<D>(hs: seq<Handler>, topic: string, data: D): (cs: seq<Call<D>>)
    ensures |cs| == |hs|
    ensures forall k :: 0 <= k < |hs| ==> cs[k] == Call(hs[k], Target(hs[k]), topic, data)
  {
    if hs == [] then []
    else Calls(hs[..|hs| - 1], topic, data) + [Call(hs[|hs| - 1], Target(hs[|hs| - 1]), topic, data)]
  }

  /** The calls whose handler threw, each logged once, in order. */
  function Failures<D>(cs: seq<Call<D>>, react: HandlerId -> Reaction): (es: seq<Call<D>>)
    ensures |es| <= |cs|
    ensures forall k :: 0 <= k < |es| ==> es[k] in cs && react(es[k].target).throws
    ensures forall k :: 0 <= k < |cs| && react(cs[k].target).throws ==> cs[k] in es
  {
    if cs == [] then []
    else
      var last := cs[|cs| - 1];
      Failures(cs[..|cs| - 1], react) + (if react(last.target).throws then [last] else [])
  }

  /** The once-wrappers among `hs`. */
  function Wrappers(hs: seq<Handler>): (ws: set<Handler>)
    ensures forall h :: h in ws <==> h in hs && h.OnceWrapper?
  {
    if hs == [] then {}
    else
      var last := hs[|hs| - 1];
      assert forall h :: h in hs <==> h in hs[..|hs| - 1] || h == last;
      Wrappers(hs[..|hs| - 1]) + (if last.OnceWrapper? then {last} else {})
  }

  /** Once-wrappers of one topic's list: they belong to that topic, are live, and occur once. */
  ghost predicate ListOk(hs: seq<Handler>, topic: string, nextSerial: nat, spent: set<Handler>) {
    && (forall i :: 0 <= i < |hs| && hs[i].OnceWrapper? ==>
          hs[i].topic == topic && hs[i].serial < nextSerial && hs[i] !in spent)
    && (forall i, j :: 0 <= i < j < |hs| && hs[i].OnceWrapper? ==> hs[i] != hs[j])
  }

  ghost predicate RegistryOk(m: Registry, nextSerial: nat, spent: set<Handler>) {
    forall t :: t in m ==> ListOk(m[t], t, nextSerial, spent)
  }

  /** Every list is well formed, and every spent wrapper was made before this state. */
  ghost predicate BusOk(b: Bus, spent: set<Handler>) {
    && RegistryOk(b.lookup, b.nextSerial, spent)
    && (forall w :: w in spent ==> w.OnceWrapper? && w.serial < b.nextSerial)
  }

  lemma {:induction false} WithoutKeepsListOk(hs: seq<Handler>, h: Handler, topic: string, n: nat, spent: set<Handler>)
    requires ListOk(hs, topic, n, spent)
    ensures ListOk(Without(hs, h), topic, n, spent)
  {
    if hs != [] {
      assert ListOk(hs[1..], topic, n, spent) by {
        forall i, j | 0 <= i < j < |hs[1..]| && hs[1..][i].OnceWrapper?
          ensures hs[1..][i] != hs[1..][j]
        {
          assert hs[1..][i] == hs[i + 1] && hs[1..][j] == hs[j + 1];
        }
      }
      WithoutKeepsListOk(hs[1..], h, topic, n, spent);
      if hs[0] != h {
        var r := [hs[0]] + Without(hs[1..], h);
        forall j | 0 < j < |r| && hs[0].OnceWrapper?
          ensures r[0] != r[j]
        {
          assert r[j] in Without(hs[1..], h);
          assert r[j] in hs[1..];
        }
      }
    }
  }

  lemma SubscribeDirectKeepsOk(m: Registry, topic: string, id: HandlerId, n: nat, spent: set<Handler>)
    requires RegistryOk(m, n, spent)
    ensures RegistryOk(Subscribed(m, topic, Direct(id)), n, spent)
  {
    var hs := [Direct(id)] + Handlers(m, topic);
    assert ListOk(Handlers(m, topic), topic, n, spent);
    assert ListOk(hs, topic, n, spent) by {
      forall i, j | 0 <= i < j < |hs| && hs[i].OnceWrapper?
        ensures hs[i] != hs[j]
      {
        assert hs[i] == Handlers(m, topic)[i - 1] && hs[j] == Handlers(m, topic)[j - 1];
      }
    }
  }

  lemma DisposeKeepsOk(m: Registry, topic: string, h: Handler, n: nat, spent: set<Handler>)
    requires RegistryOk(m, n, spent)
    ensures RegistryOk(Disposed(m, topic, h), n, spent)
  {
    WithoutKeepsListOk(Handlers(m, topic), h, topic, n, spent);
  }

  /** A new wrapper is in no list and not spent, so it may go in front of its topic's list. */
  lemma SubscribeOnceKeepsOk(b: Bus, topic: string, id: HandlerId, spent: set<Handler>)
    requires BusOk(b, spent)
    ensures BusOk(ApplyOp(b, SubscribeOnceOp(topic, id)), spent)
    ensures forall t :: t in b.lookup ==> NewWrapper(b, topic, id) !in b.lookup[t]
  {
    var m, n, w := b.lookup, b.nextSerial, NewWrapper(b, topic, id);
    var hs := [w] + Handlers(m, topic);
    assert ListOk(Handlers(m, topic), topic, n, spent);
    assert ListOk(hs, topic, n + 1, spent) by {
      forall i, j | 0 <= i < j < |hs| && hs[i].OnceWrapper?
        ensures hs[i] != hs[j]
      {
        if i > 0 {
          assert hs[i] == Handlers(m, topic)[i - 1] && hs[j] == Handlers(m, topic)[j - 1];
        } else {
          assert hs[j] == Handlers(m, topic)[j - 1];
        }
      }
    }
    forall t | t in m
      ensures w !in m[t]
    {
      assert ListOk(m[t], t, n, spent);
    }
    forall t | t in m || t == topic
      ensures ListOk(m[topic := hs][t], t, n + 1, spent)
    {
      if t != topic {
        assert ListOk(m[t], t, n, spent);
      }
    }
  }

  lemma {:induction false} ApplyOpsKeepsOk(b: Bus, ops: seq<RegistryOp>, spent: set<Handler>)
    requires BusOk(b, spent)
    ensures BusOk(ApplyOps(b, ops), spent)
    decreases |ops|
  {
    if ops != [] {
      match ops[0] {
        case SubscribeOp(t, id) => SubscribeDirectKeepsOk(b.lookup, t, id, b.nextSerial, spent);
        case SubscribeOnceOp(t, id) => SubscribeOnceKeepsOk(b, t, id, spent);
        case DisposeOp(sub) => DisposeKeepsOk(b.lookup, sub.topic, sub.handler, b.nextSerial, spent);
      }
      ApplyOpsKeepsOk(ApplyOp(b, ops[0]), ops[1..], spent);
    }
  }

  /**
   * Once a wrapper has been taken out of its topic's list it is in no list,
   * so it may be counted as spent.
   */
  lemma RetireKeepsOk(m: Registry, w: Handler, n: nat, spent: set<Handler>)
    requires w.OnceWrapper? && w.serial < n
    requires RegistryOk(m, n, spent)
    ensures RegistryOk(Disposed(m, w.topic, w), n, spent + {w})
  {
    var m' := Disposed(m, w.topic, w);
    DisposeKeepsOk(m, w.topic, w, n, spent);
    forall t | t in m'
      ensures ListOk(m'[t], t, n, spent + {w})
    {
      assert ListOk(m'[t], t, n, spent);
      forall i | 0 <= i < |m'[t]| && m'[t][i].OnceWrapper?
        ensures m'[t][i] != w
      {
        if t == w.topic {
          assert w !in m'[t];
        }
      }
    }
  }

  /** Filtering twice removes nothing more: disposing again changes nothing. */
  lemma {:induction false} WithoutIdempotent(hs: seq<Handler>, h: Handler)
    ensures Without(Without(hs, h), h) == Without(hs, h)
  {
    if hs != [] {
      WithoutIdempotent(hs[1..], h);
    }
  }

  /** Filtering keeps the order of what stays: it distributes over concatenation. */
  lemma {:induction false} WithoutConcat(a: seq<Handler>, b: seq<Handler>, h: Handler)
    ensures Without(a + b, h) == Without(a, h) + Without(b, h)
  {
    if a == [] {
      assert a + b == b;
    } else {
      var rest := a[1..];
      assert (a + b)[0] == a[0] && (a + b)[1..] == rest + b;
      WithoutConcat(rest, b, h);
      if a[0] != h {
        calc {
          Without(a + b, h);
          [a[0]] + Without(rest + b, h);
          [a[0]] + (Without(rest, h) + Without(b, h));
          ([a[0]] + Without(rest, h)) + Without(b, h);
        }
      }
    }
  }

  /** Filtering out a handler that is not there leaves the list as it is. */
  lemma {:induction false} WithoutAbsent(hs: seq<Handler>, h: Handler)
    requires h !in hs
    ensures Without(hs, h) == hs
  {
    if hs != [] {
      WithoutAbsent(hs[1..], h);
    }
  }

  /** `dispose` is idempotent: a second call leaves the registry unchanged. */
  lemma DisposeIdempotent(m: Registry, topic: string, h: Handler)
    ensures Disposed(Disposed(m, topic, h), topic, h) == Disposed(m, topic, h)
  {
    WithoutIdempotent(Handlers(m, topic), h);
  }

  /**
   * `dispose` removes that handler from its topic and nothing else: the other
   * handlers of the topic stay in their order, other topics are unchanged.
   */
  lemma DisposeRemovesOnlyThat(m: Registry, topic: string, h: Handler, before: seq<Handler>, after: seq<Handler>)
    requires topic in m && m[topic] == before + [h] + after
    requires h !in before && h !in after
    ensures Disposed(m, topic, h)[topic] == before + after
    ensures forall t :: t in m && t != topic ==> Disposed(m, topic, h)[t] == m[t]
  {
    WithoutConcat(before + [h], after, h);
    WithoutConcat(before, [h], h);
    WithoutAbsent(before, h);
    WithoutAbsent(after, h);
  }

  /**
   * Disposing a subscription removes every occurrence of the same function,
   * also the ones subscribed earlier.
   */
  lemma DisposeAfterSubscribe(m: Registry, topic: string, h: Handler)
    ensures Disposed(Subscribed(m, topic, h), topic, h) == Disposed(m, topic, h)
  {
    assert ([h] + Handlers(m, topic))[1..] == Handlers(m, topic);
  }

  /** The newest subscription is the first one `publish` calls. */
  lemma NewestFirst<D>(m: Registry, topic: string, older: Handler, newer: Handler, data: D)
    ensures var cs := Calls(Handlers(Subscribed(Subscribed(m, topic, older), topic, newer), topic), topic, data);
            |cs| == |Handlers(m, topic)| + 2 && cs[0].handler == newer && cs[1].handler == older
  {
  }

  lemma RunStep(b: Bus, hs: seq<Handler>, i: nat, react: HandlerId -> Reaction)
    requires i < |hs|
    ensures Run(b, hs[i..], react) == Run(Invoke(b, hs[i], react), hs[i + 1..], react)
  {
    assert hs[i..][0] == hs[i] && hs[i..][1..] == hs[i + 1..];
  }

  lemma CallsSnoc<D>(hs: seq<Handler>, i: nat, topic: string, data: D)
    requires i < |hs|
    ensures Calls(hs[..i + 1], topic, data) == Calls(hs[..i], topic, data) + [Call(hs[i], Target(hs[i]), topic, data)]
  {
    assert hs[..i + 1][..i] == hs[..i];
  }

  lemma FailuresSnoc<D>(cs: seq<Call<D>>, c: Call<D>, react: HandlerId -> Reaction)
    ensures Failures(cs + [c], react) == Failures(cs, react) + (if react(c.target).throws then [c] else [])
  {
    assert (cs + [c])[..|cs|] == cs;
  }

  /** Calling one more handler of the snapshot spends it if it is a once-wrapper. */
  lemma SpentStep(spent0: set<Handler>, spent: set<Handler>, hs: seq<Handler>, i: nat)
    requires i < |hs| && spent == spent0 + Wrappers(hs[..i])
    ensures spent + (if hs[i].OnceWrapper? then {hs[i]} else {}) == spent0 + Wrappers(hs[..i + 1])
  {
    assert hs[..i + 1][..i] == hs[..i];
  }

  lemma SpentStart(spent0: set<Handler>, hs: seq<Handler>)
    ensures spent0 + Wrappers(hs[..0]) == spent0
  {
    assert hs[..0] == [];
  }

  /** The calls of one publish reach distinct, unspent once-wrappers, as the list invariant promises. */
  lemma CallsOfListOk<D>(hs: seq<Handler>, topic: string, data: D, n: nat, spent: set<Handler>)
    requires ListOk(hs, topic, n, spent)
    ensures var calls := Calls(hs, topic, data);
            && (forall k :: 0 <= k < |calls| && calls[k].handler.OnceWrapper? ==> calls[k].handler !in spent)
            && (forall i, j :: 0 <= i < j < |calls| && calls[i].handler.OnceWrapper? ==>
                  calls[i].handler != calls[j].handler)
  {
  }

  lemma WholeSlices<T>(hs: seq<T>)
    ensures hs[..|hs|] == hs && hs[..0] == [] && hs[0..] == hs && hs[|hs|..] == []
  {
  }

  class EventAggregator {
    var lookup: Registry
    /** The serial the next `subscribeOnce` wrapper gets (each wrapper is a new function). */
    var nextSerial: nat
    /** The once-wrappers that have already been called. */
    ghost var spent: set<Handler>

    ghost predicate Valid()
      reads this
    {
      BusOk(Bus(lookup, nextSerial), spent)
    }

    constructor ()
      ensures Valid() && lookup == map[] && spent == {}
    {
      lookup := map[];
      nextSerial := 0;
      spent := {};
    }

    /** `subscribe`: the handler goes in front of its topic's list. */
    method Subscribe(topic: string, id: HandlerId) returns (sub: Subscription)
      requires Valid()
      modifies this
      ensures Valid()
      ensures sub == Subscription(topic, Direct(id))
      ensures lookup == Subscribed(old(lookup), topic, Direct(id))
      ensures nextSerial == old(nextSerial) && spent == old(spent)
    {
      SubscribeDirectKeepsOk(lookup, topic, id, nextSerial, spent);
      lookup := lookup[topic := [Direct(id)] + Handlers(lookup, topic)];
      sub := Subscription(topic, Direct(id));
    }

    /**
     * `subscription.dispose()`: removes every occurrence of the subscribed
     * function from its topic. A subscription only exists once `subscribe`
     * has created its topic's entry, and entries are never deleted.
     */
    method Dispose(sub: Subscription)
      requires Valid()
      requires sub.topic in lookup
      modifies this
      ensures Valid()
      ensures lookup == Disposed(old(lookup), sub.topic, sub.handler)
      ensures nextSerial == old(nextSerial) && spent == old(spent)
    {
      DisposeKeepsOk(lookup, sub.topic, sub.handler, nextSerial, spent);
      lookup := lookup[sub.topic := Without(lookup[sub.topic], sub.handler)];
    }

    /** `subscribeOnce`: subscribes a new wrapper that disposes itself before calling through. */
    method SubscribeOnce(topic: string, id: HandlerId) returns (sub: Subscription)
      requires Valid()
      modifies this
      ensures Valid()
      ensures sub == Subscription(topic, OnceWrapper(old(nextSerial), topic, id))
      ensures lookup == Subscribed(old(lookup), topic, sub.handler)
      ensures sub.handler !in old(spent)
      ensures forall t :: t in old(lookup) ==> sub.handler !in old(lookup)[t]
      ensures nextSerial == old(nextSerial) + 1 && spent == old(spent)
    {
      var w := NewWrapper(Bus(lookup, nextSerial), topic, id);
      SubscribeOnceKeepsOk(Bus(lookup, nextSerial), topic, id, spent);
      lookup := lookup[topic := [w] + Handlers(lookup, topic)];
      nextSerial := nextSerial + 1;
      sub := Subscription(topic, w);
    }

    /**
     * `withErrorHandling(() => handler(topic, data))` for one handler of the
     * publish loop: a once-wrapper disposes its own subscription, the
     * subscriber's function runs, and a throw is caught (and logged by the
     * caller). The result says whether it threw.
     */
    method WithErrorHandling(h: Handler, react: HandlerId -> Reaction) returns (threw: bool)
      requires Valid()
      requires h.OnceWrapper? ==> h.serial < nextSerial
      modifies this
      ensures Valid()
      ensures threw == react(Target(h)).throws
      ensures Bus(lookup, nextSerial) == Invoke(Bus(old(lookup), old(nextSerial)), h, react)
      ensures spent == old(spent) + (if h.OnceWrapper? then {h} else {})
    {
      if h.OnceWrapper? {
        RetireKeepsOk(lookup, h, nextSerial, spent);
        lookup := lookup[h.topic := Without(Handlers(lookup, h.topic), h)];
        spent := spent + {h};
      }
      var reaction := react(Target(h));
      ApplyOpsKeepsOk(Bus(lookup, nextSerial), reaction.ops, spent);
      var after := ApplyOps(Bus(lookup, nextSerial), reaction.ops);
      lookup, nextSerial := after.lookup, after.nextSerial;
      threw := reaction.throws;
    }

    /**
     * The `forEach` callback of `publish` for the handler at `i` of the
     * snapshot: the handler is called under `withErrorHandling` and the call,
     * and its failure if it threw, are recorded.
     */
    method CallHandler<D>(snapshot: seq<Handler>, i: nat, topic: string, data: D, react: HandlerId -> Reaction,
                          calls: seq<Call<D>>, errors: seq<Call<D>>, ghost spent0: set<Handler>, ghost target: Bus)
      returns (calls': seq<Call<D>>, errors': seq<Call<D>>)
      requires Valid() && i < |snapshot|
      requires snapshot[i].OnceWrapper? ==> snapshot[i].serial < nextSerial
      requires Run(Bus(lookup, nextSerial), snapshot[i..], react) == target
      requires calls == Calls(snapshot[..i], topic, data) && errors == Failures(calls, react)
      requires spent == spent0 + Wrappers(snapshot[..i])
      modifies this
      ensures Valid() && nextSerial >= old(nextSerial)
      ensures Run(Bus(lookup, nextSerial), snapshot[i + 1..], react) == target
      ensures calls' == Calls(snapshot[..i + 1], topic, data) && errors' == Failures(calls', react)
      ensures spent == spent0 + Wrappers(snapshot[..i + 1])
    {
      var h := snapshot[i];
      RunStep(Bus(lookup, nextSerial), snapshot, i, react);
      CallsSnoc(snapshot, i, topic, data);
      SpentStep(spent0, spent, snapshot, i);
      var threw := WithErrorHandling(h, react);
      var call := Call(h, Target(h), topic, data);
      FailuresSnoc(calls, call, react);
      calls' := calls + [call];
      errors' := if threw then errors + [call] else errors;
    }

    /**
     * `publish`: calls, in order, every handler of the list stored for `topic`
     * when the publish starts, each with `(topic, data)`. A handler that throws
     * is logged and the loop goes on. Changes handlers make to the registry
     * while it runs do not change who is called.
     */
    method Publish<D>(topic: string, data: D, react: HandlerId -> Reaction)
      returns (calls: seq<Call<D>>, errors: seq<Call<D>>)
      requires Valid()
      modifies this
      ensures Valid()
      ensures calls == Calls(old(Handlers(lookup, topic)), topic, data)
      ensures errors == Failures(calls, react)
      ensures Bus(lookup, nextSerial) == Run(Bus(old(lookup), old(nextSerial)), old(Handlers(lookup, topic)), react)
      ensures spent == old(spent) + Wrappers(old(Handlers(lookup, topic)))
      ensures forall k :: 0 <= k < |calls| && calls[k].handler.OnceWrapper? ==> calls[k].handler !in old(spent)
      ensures forall i, j :: 0 <= i < j < |calls| && calls[i].handler.OnceWrapper? ==>
                calls[i].handler != calls[j].handler
    {
      var snapshot := Handlers(lookup, topic);
      assert ListOk(snapshot, topic, nextSerial, spent);
      ghost var spent0, n0, target := spent, nextSerial, Run(Bus(lookup, nextSerial), snapshot, react);
      WholeSlices(snapshot);
      SpentStart(spent0, snapshot);
      calls, errors := [], [];
      var i := 0;
      while i < |snapshot|
        invariant 0 <= i <= |snapshot|
        invariant Valid()
        invariant nextSerial >= n0
        invariant Run(Bus(lookup, nextSerial), snapshot[i..], react) == target
        invariant calls == Calls(snapshot[..i], topic, data)
        invariant errors == Failures(calls, react)
        invariant spent == spent0 + Wrappers(snapshot[..i])
        invariant forall j :: 0 <= j < |snapshot| && snapshot[j].OnceWrapper? ==> snapshot[j].serial < n0
      {
        calls, errors := CallHandler(snapshot, i, topic, data, react, calls, errors, spent0, target);
        i := i + 1;
      }
      WholeSlices(snapshot);
      assert Run(Bus(lookup, nextSerial), [], react) == Bus(lookup, nextSerial);
      CallsOfListOk(snapshot, topic, data, n0, spent0);
    }
  }

  /**
   * A `subscribeOnce` handler is called by the first publish on its topic and
   * by no later one, whatever the handlers do to the registry.
   */
  method SubscribeOnceDeliversOnce<D>(topic: string, id: HandlerId, first: D, second: D,
                                      react: HandlerId -> Reaction)
    returns (firstCalls: seq<Call<D>>, secondCalls: seq<Call<D>>)
    ensures |firstCalls| == 1
    ensures firstCalls[0].target == id && firstCalls[0].topic == topic && firstCalls[0].data == first
    ensures forall k :: 0 <= k < |secondCalls| ==> secondCalls[k].handler != firstCalls[0].handler
  {
    var ea := new EventAggregator();
    var sub := ea.SubscribeOnce(topic, id);
    var w := sub.handler;
    assert Handlers(ea.lookup, topic) == [w];
    assert Wrappers([w]) == {w};
    var errors;
    firstCalls, errors := ea.Publish(topic, first, react);
    assert w in ea.spent;
    ghost var snapshot := Handlers(ea.lookup, topic);
    forall k | 0 <= k < |snapshot|
      ensures snapshot[k] != w
    {
      assert ea.Valid();
      assert topic in ea.lookup;
      assert ListOk(ea.lookup[topic], topic, ea.nextSerial, ea.spent);
    }
    secondCalls, errors := ea.Publish(topic, second, react);
  }

  lemma TwoCalls<D>(h1: Handler, h2: Handler, topic: string, data: D, react: HandlerId -> Reaction)
    ensures var c1, c2 := Call(h1, Target(h1), topic, data), Call(h2, Target(h2), topic, data);
            && Calls([h1, h2], topic, data) == [c1, c2]
            && Failures([c1, c2], react)
               == (if react(c1.target).throws then [c1] else []) + (if react(c2.target).throws then [c2] else [])
  {
    var c1, c2 := Call(h1, Target(h1), topic, data), Call(h2, Target(h2), topic, data);
    assert [h1, h2][..1] == [h1];
    assert [c1, c2][..1] == [c1];
  }

  /** A handler that subscribes `b` and then disposes itself leaves only `b` on the topic. */
  lemma SelfReplacement(bus: Bus, topic: string, a: HandlerId, b: HandlerId, react: HandlerId -> Reaction)
    requires a != b && topic in bus.lookup && bus.lookup[topic] == [Direct(a)]
    requires react(a).ops == [SubscribeOp(topic, b), DisposeOp(Subscription(topic, Direct(a)))]
    ensures Handlers(Run(bus, [Direct(a)], react).lookup, topic) == [Direct(b)]
  {
    var dispose := DisposeOp(Subscription(topic, Direct(a)));
    var b1 := bus.(lookup := Subscribed(bus.lookup, topic, Direct(b)));
    assert b1.lookup[topic] == [Direct(b), Direct(a)];
    assert ApplyOps(bus, react(a).ops) == ApplyOps(b1, [dispose]);
    assert ApplyOps(b1, [dispose]) == b1.(lookup := Disposed(b1.lookup, topic, Direct(a)));
    assert Without([Direct(b), Direct(a)], Direct(a)) == [Direct(b)];
    assert Run(bus, [Direct(a)], react) == Invoke(bus, Direct(a), react);
  }

  /** A handler that changes nothing leaves the bus as it was when publish calls it. */
  lemma QuietRun(b: Bus, id: HandlerId, react: HandlerId -> Reaction)
    requires react(id).ops == []
    ensures Run(b, [Direct(id)], react) == b
  {
    assert Run(b, [Direct(id)], react) == Run(Invoke(b, Direct(id), react), [], react);
  }

  /** A throwing handler is logged once and the handlers after it still run. */
  method ThrowingHandlerIsIsolated<D>(topic: string, good: HandlerId, bad: HandlerId, data: D,
                                      react: HandlerId -> Reaction)
    returns (calls: seq<Call<D>>, errors: seq<Call<D>>)
    requires react(bad).throws && !react(good).throws
    ensures calls == [Call(Direct(bad), bad, topic, data), Call(Direct(good), good, topic, data)]
    ensures errors == [Call(Direct(bad), bad, topic, data)]
  {
    var ea := new EventAggregator();
    var s1 := ea.Subscribe(topic, good);
    var s2 := ea.Subscribe(topic, bad);
    assert Handlers(ea.lookup, topic) == [Direct(bad), Direct(good)];
    calls, errors := ea.Publish(topic, data, react);
    TwoCalls(Direct(bad), Direct(good), topic, data, react);
  }

  /** After `dispose` the handler is no longer called; before it, every publish calls it. */
  method DisposeStopsDelivery<D>(topic: string, id: HandlerId, d1: D, d2: D, d3: D)
    returns (c1: seq<Call<D>>, c2: seq<Call<D>>, c3: seq<Call<D>>)
    ensures c1 == [Call(Direct(id), id, topic, d1)]
    ensures c2 == [Call(Direct(id), id, topic, d2)]
    ensures c3 == []
  {
    var quiet := (_: HandlerId) => Reaction([], false);
    var ea := new EventAggregator();
    var sub := ea.Subscribe(topic, id);
    ghost var b := Bus(ea.lookup, ea.nextSerial);
    assert Handlers(b.lookup, topic) == [Direct(id)];
    QuietRun(b, id, quiet);
    var errors;
    c1, errors := ea.Publish(topic, d1, quiet);
    c2, errors := ea.Publish(topic, d2, quiet);
    ea.Dispose(sub);
    assert Without([Direct(id)], Direct(id)) == [];
    c3, errors := ea.Publish(topic, d3, quiet);
  }

  /**
   * A handler that, while being called, subscribes another handler and
   * disposes itself: the publish in progress calls only the handlers it
   * started with, the next publish sees the change.
   */
  method ChangesDuringPublishApplyLater<D>(topic: string, a: HandlerId, b: HandlerId, d1: D, d2: D,
                                           react: HandlerId -> Reaction)
    returns (c1: seq<Call<D>>, c2: seq<Call<D>>)
    requires a != b
    requires react(a).ops == [SubscribeOp(topic, b), DisposeOp(Subscription(topic, Direct(a)))]
    requires react(b).ops == []
    ensures c1 == [Call(Direct(a), a, topic, d1)]
    ensures c2 == [Call(Direct(b), b, topic, d2)]
  {
    var ea := new EventAggregator();
    var sub := ea.Subscribe(topic, a);
    var errors;
    ghost var b0 := Bus(ea.lookup, ea.nextSerial);
    assert b0.lookup[topic] == [Direct(a)];
    SelfReplacement(b0, topic, a, b, react);
    c1, errors := ea.Publish(topic, d1, react);
    c2, errors := ea.Publish(topic, d2, react);
  }

  /** A handler that calls `subscribeOnce` adds a new wrapper in front of itself. */
  lemma OnceSubscriberRun(bus: Bus, topic: string, a: HandlerId, b: HandlerId, react: HandlerId -> Reaction)
    requires topic in bus.lookup && bus.lookup[topic] == [Direct(a)]
    requires react(a).ops == [SubscribeOnceOp(topic, b)]
    ensures Run(bus, [Direct(a)], react)
            == Bus(bus.lookup[topic := [NewWrapper(bus, topic, b), Direct(a)]], bus.nextSerial + 1)
  {
    var op := SubscribeOnceOp(topic, b);
    assert [op][1..] == [];
    assert ApplyOps(bus, [op]) == ApplyOps(ApplyOp(bus, op), []);
    assert [Direct(a)][1..] == [];
    assert Run(bus, [Direct(a)], react) == Run(Invoke(bus, Direct(a), react), [], react);
    assert [NewWrapper(bus, topic, b)] + Handlers(bus.lookup, topic) == [NewWrapper(bus, topic, b), Direct(a)];
  }

  /** The wrapper runs first and takes itself off; the handler then adds the next wrapper. */
  lemma WrapperThenSubscriberRun(bus: Bus, topic: string, w: Handler, a: HandlerId, b: HandlerId,
                                 react: HandlerId -> Reaction)
    requires w.OnceWrapper? && w.topic == topic && w.target == b && w.serial < bus.nextSerial
    requires topic in bus.lookup && bus.lookup[topic] == [w, Direct(a)]
    requires react(a).ops == [SubscribeOnceOp(topic, b)] && react(b).ops == []
    ensures Run(bus, [w, Direct(a)], react)
            == Bus(bus.lookup[topic := [NewWrapper(bus, topic, b), Direct(a)]], bus.nextSerial + 1)
  {
    var b1 := bus.(lookup := Disposed(bus.lookup, topic, w));
    assert Without([w, Direct(a)], w) == [Direct(a)];
    assert Invoke(bus, w, react) == b1;
    assert [w, Direct(a)][1..] == [Direct(a)];
    assert Run(bus, [w, Direct(a)], react) == Run(b1, [Direct(a)], react);
    OnceSubscriberRun(b1, topic, a, b, react);
  }

  /** A publish calls `a`, which puts a once-wrapper for `b` in front of itself. */
  method PublishAddsWrapper<D>(ea: EventAggregator, topic: string, a: HandlerId, b: HandlerId, data: D,
                               react: HandlerId -> Reaction)
    returns (calls: seq<Call<D>>)
    requires ea.Valid() && topic in ea.lookup && ea.lookup[topic] == [Direct(a)]
    requires react(a).ops == [SubscribeOnceOp(topic, b)]
    modifies ea
    ensures ea.Valid() && ea.nextSerial == old(ea.nextSerial) + 1
    ensures topic in ea.lookup && ea.lookup[topic] == [OnceWrapper(old(ea.nextSerial), topic, b), Direct(a)]
    ensures calls == [Call(Direct(a), a, topic, data)]
  {
    OnceSubscriberRun(Bus(ea.lookup, ea.nextSerial), topic, a, b, react);
    var errors;
    calls, errors := ea.Publish(topic, data, react);
  }

  /**
   * A publish on a topic holding a once-wrapper for `b` in front of a
   * handler `a` that calls `subscribeOnce(topic, b)`: the wrapper is called
   * and removed, then `a` runs and puts a new wrapper in front of itself.
   */
  method PublishReplacesWrapper<D>(ea: EventAggregator, topic: string, ghost w: Handler, a: HandlerId, b: HandlerId,
                                   data: D, react: HandlerId -> Reaction)
    returns (calls: seq<Call<D>>)
    requires ea.Valid() && topic in ea.lookup && ea.lookup[topic] == [w, Direct(a)]
    requires w.OnceWrapper? && w.topic == topic && w.target == b
    requires react(a).ops == [SubscribeOnceOp(topic, b)] && react(b).ops == []
    modifies ea
    ensures ea.Valid() && ea.nextSerial == old(ea.nextSerial) + 1
    ensures topic in ea.lookup && ea.lookup[topic] == [OnceWrapper(old(ea.nextSerial), topic, b), Direct(a)]
    ensures calls == [Call(w, b, topic, data), Call(Direct(a), a, topic, data)]
  {
    assert ListOk(ea.lookup[topic], topic, ea.nextSerial, ea.spent);
    assert ea.lookup[topic][0] == w;
    WrapperThenSubscriberRun(Bus(ea.lookup, ea.nextSerial), topic, w, a, b, react);
    TwoCalls(w, Direct(a), topic, data, react);
    var errors;
    calls, errors := ea.Publish(topic, data, react);
  }

  /**
   * A handler that calls `subscribeOnce` on its own topic while it runs:
   * the publish in progress does not call the new wrapper, the next publish
   * calls it (before the handler, which makes another one), and the publish
   * after that calls only that other one.
   */
  method OnceSubscribedDuringPublish<D>(topic: string, a: HandlerId, b: HandlerId, d1: D, d2: D, d3: D,
                                        react: HandlerId -> Reaction)
    returns (c1: seq<Call<D>>, c2: seq<Call<D>>, c3: seq<Call<D>>)
    requires react(a).ops == [SubscribeOnceOp(topic, b)] && react(b).ops == []
    ensures c1 == [Call(Direct(a), a, topic, d1)]
    ensures |c2| == 2 && c2[0].handler.OnceWrapper? && c2[0].target == b && c2[1] == Call(Direct(a), a, topic, d2)
    ensures |c3| == 2 && c3[0].handler.OnceWrapper? && c3[0].target == b && c3[1] == Call(Direct(a), a, topic, d3)
    ensures c3[0].handler != c2[0].handler
  {
    var ea := new EventAggregator();
    var sub := ea.Subscribe(topic, a);
    ghost var n0 := ea.nextSerial;
    c1 := PublishAddsWrapper(ea, topic, a, b, d1, react);
    c2 := PublishReplacesWrapper(ea, topic, OnceWrapper(n0, topic, b), a, b, d2, react);
    c3 := PublishReplacesWrapper(ea, topic, OnceWrapper(n0 + 1, topic, b), a, b, d3, react);
  }
}
