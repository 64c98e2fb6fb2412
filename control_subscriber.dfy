/**
 * The subscription registry. It keeps two indices that must stay consistent:
 * per-component buckets of subscriptions, and a table from subscription id to
 * component. Ids come from a counter that only grows. Updaters are observer
 * callbacks; a call `updater(control)` is reported as a `Delivery`.
 */
module ControlSubscriber {
  import opened Qrwc

  /** Identifies the observer callback of a subscription. */
  type Updater = nat

  datatype Subscription = Subscription(id: nat, component: string, control: string, updater: Updater)

  /** One call of `updater(control)` made on behalf of subscription `id`. */
  datatype Delivery = Delivery(id: nat, updater: Updater, control: Control)

  /** One entry of a pushed update event: component key and the control decorator pushed for it. */
  datatype EventEntry = EventEntry(component: string, control: Control)

  /** The registry's three fields as one value. */
  datatype Registry = Registry(subscriptions: map<string, seq<Subscription>>, idTable: map<nat, string>, count: nat)

  predicate HasId(bucket: seq<Subscription>, id: nat) {
    exists i :: 0 <= i < |bucket| && bucket[i].id == id
  }

  /** Every id in the table lies below the counter and names a bucket that holds it. */
  ghost predicate TableSound(r: Registry) {
    forall id :: id in r.idTable ==>
      id < r.count && r.idTable[id] in r.subscriptions && HasId(r.subscriptions[r.idTable[id]], id)
  }

  ghost predicate NoEmptyBucket(r: Registry) {
    forall c :: c in r.subscriptions ==> |r.subscriptions[c]| > 0
  }

  /** Every subscription in bucket `c` names `c` and is filed under `c` in the table. */
  ghost predicate BucketsFiled(r: Registry) {
    forall c, i :: c in r.subscriptions && 0 <= i < |r.subscriptions[c]| ==>
      r.subscriptions[c][i].component == c && r.subscriptions[c][i].id in r.idTable &&
      r.idTable[r.subscriptions[c][i].id] == c
  }

  predicate DistinctIds(bucket: seq<Subscription>) {
    forall i, j :: 0 <= i < j < |bucket| ==> bucket[i].id != bucket[j].id
  }

  ghost predicate BucketsDistinct(r: Registry) {
    forall c :: c in r.subscriptions ==> DistinctIds(r.subscriptions[c])
  }

  /** The cross-index invariant the registry keeps. */
  ghost predicate Consistent(r: Registry) {
    TableSound(r) && NoEmptyBucket(r) && BucketsFiled(r) && BucketsDistinct(r)
  }

  function EmptyRegistry(): Registry {
    Registry(map[], map[], 0)
  }

  /** subscribeControl: file a new subscription with id `r.count` at the end of bucket `c`. */
  function Subscribe(r: Registry, c: string, k: string, u: Updater): Registry {
    var bucket := if c in r.subscriptions then r.subscriptions[c] else [];
    Registry(r.subscriptions[c := bucket + [Subscription(r.count, c, k, u)]], r.idTable[r.count := c], r.count + 1)
  }

  /** `bucket.filter(sub => sub.id !== id)` */
  function RemoveId(bucket: seq<Subscription>, id: nat): (r: seq<Subscription>)
    ensures |r| <= |bucket|
  {
    if bucket == [] then []
    else if bucket[0].id == id then RemoveId(bucket[1..], id)
    else [bucket[0]] + RemoveId(bucket[1..], id)
  }

  /** unsubscribeControl, including the repair path for an id whose bucket is missing. */
  function Unsubscribe(r: Registry, id: nat): Registry {
    if id !in r.idTable then r
    else
      var c := r.idTable[id];
      if c !in r.subscriptions then Registry(r.subscriptions, r.idTable - {id}, r.count)
      else
        var rest := RemoveId(r.subscriptions[c], id);
        var subs := if |rest| == 0 then r.subscriptions - {c} else r.subscriptions[c := rest];
        Registry(subs, r.idTable - {id}, r.count)
  }

  /** flushSubscriptions: both indices emptied, the counter kept. */
  function Flush(r: Registry): Registry {
    Registry(map[], map[], r.count)
  }

  // ---------------------------------------------------------------------------
  // Consistency is preserved by every operation

  lemma EmptyIsConsistent()
    ensures Consistent(EmptyRegistry())
  {
  }

  lemma FlushKeepsConsistentAndCounter(r: Registry)
    ensures Consistent(Flush(r))
    ensures Flush(r).count == r.count
    ensures Flush(r).subscriptions == map[] && Flush(r).idTable == map[]
  {
  }

  /** The next id is not in use anywhere. */
  lemma NextIdIsFresh(r: Registry)
    requires Consistent(r)
    ensures r.count !in r.idTable
    ensures forall c, i :: c in r.subscriptions && 0 <= i < |r.subscriptions[c]| ==> r.subscriptions[c][i].id != r.count
  {
  }

  lemma SubscribeKeepsConsistent(r: Registry, c: string, k: string, u: Updater)
    requires Consistent(r)
    ensures Consistent(Subscribe(r, c, k, u))
  {
    NextIdIsFresh(r);
    var bucket := if c in r.subscriptions then r.subscriptions[c] else [];
    assert forall j :: 0 <= j < |bucket| ==> bucket[j].id != r.count;
    SubscribedTableSound(r, c, k, u, bucket);
    SubscribedBucketsFiled(r, c, k, u, bucket);
  }

  lemma SubscribedTableSound(r: Registry, c: string, k: string, u: Updater, bucket: seq<Subscription>)
    requires TableSound(r) && r.count !in r.idTable
    requires bucket == if c in r.subscriptions then r.subscriptions[c] else []
    ensures TableSound(Subscribe(r, c, k, u))
  {
    var r' := Subscribe(r, c, k, u);
    var b' := bucket + [Subscription(r.count, c, k, u)];
    assert r'.subscriptions[c] == b';
    forall id | id in r'.idTable
      ensures id < r'.count && r'.idTable[id] in r'.subscriptions && HasId(r'.subscriptions[r'.idTable[id]], id)
    {
      if id == r.count {
        assert b'[|bucket|].id == id;
      } else {
        var d := r.idTable[id];
        var i :| 0 <= i < |r.subscriptions[d]| && r.subscriptions[d][i].id == id;
        if d == c {
          assert b'[i] == bucket[i];
        }
        assert r'.subscriptions[d][i].id == id;
      }
    }
  }

  lemma SubscribedBucketsFiled(r: Registry, c: string, k: string, u: Updater, bucket: seq<Subscription>)
    requires NoEmptyBucket(r) && BucketsFiled(r) && BucketsDistinct(r)
    requires bucket == if c in r.subscriptions then r.subscriptions[c] else []
    requires r.count !in r.idTable
    requires forall j :: 0 <= j < |bucket| ==> bucket[j].id != r.count
    ensures NoEmptyBucket(Subscribe(r, c, k, u)) && BucketsFiled(Subscribe(r, c, k, u)) && BucketsDistinct(Subscribe(r, c, k, u))
  {
    var r' := Subscribe(r, c, k, u);
    var b' := bucket + [Subscription(r.count, c, k, u)];
    assert r'.subscriptions[c] == b';
    forall d, j | d in r'.subscriptions && 0 <= j < |r'.subscriptions[d]|
      ensures r'.subscriptions[d][j].component == d && r'.subscriptions[d][j].id in r'.idTable &&
        r'.idTable[r'.subscriptions[d][j].id] == d
    {
      if d == c && j < |bucket| {
        assert b'[j] == bucket[j];
      }
    }
    forall d | d in r'.subscriptions ensures DistinctIds(r'.subscriptions[d]) {
      if d == c {
        assert DistinctIds(bucket);
        forall a, b | 0 <= a < b < |b'| ensures b'[a].id != b'[b].id {
          assert b'[a] == bucket[a];
        }
      }
    }
  }

  /** After subscribing, bucket `c` ends with the new subscription and nothing else moved. */
  lemma SubscribeAppends(r: Registry, c: string, k: string, u: Updater)
    requires Consistent(r)
    ensures var r' := Subscribe(r, c, k, u);
      && c in r'.subscriptions
      && r'.subscriptions[c] == (if c in r.subscriptions then r.subscriptions[c] else []) + [Subscription(r.count, c, k, u)]
      && (forall d :: d != c ==> (d in r'.subscriptions <==> d in r.subscriptions))
      && (forall d :: d != c && d in r.subscriptions ==> r'.subscriptions[d] == r.subscriptions[d])
      && r'.idTable == r.idTable[r.count := c]
      && r.count !in r.idTable
      && r'.count == r.count + 1
  {
    NextIdIsFresh(r);
  }

  /** Removing an id that does not occur leaves a bucket as it was. */
  lemma {:induction false} RemoveAbsentId(bucket: seq<Subscription>, id: nat)
    requires forall i :: 0 <= i < |bucket| ==> bucket[i].id != id
    ensures RemoveId(bucket, id) == bucket
  {
    if bucket != [] {
      assert bucket[0].id != id;
      var tail := bucket[1..];
      assert forall i :: 0 <= i < |tail| ==> tail[i] == bucket[i + 1];
      RemoveAbsentId(tail, id);
      assert [bucket[0]] + tail == bucket;
    }
  }

  /** The filter keeps exactly the subscriptions with another id. */
  lemma {:induction false} RemoveIdMembers(bucket: seq<Subscription>, id: nat, s: Subscription)
    ensures s in RemoveId(bucket, id) <==> s in bucket && s.id != id
  {
    if bucket != [] {
      RemoveIdMembers(bucket[1..], id, s);
      assert bucket == [bucket[0]] + bucket[1..];
    }
  }

  /** The filter distributes over concatenation. */
  lemma {:induction false} RemoveIdAppend(a: seq<Subscription>, b: seq<Subscription>, id: nat)
    ensures RemoveId(a + b, id) == RemoveId(a, id) + RemoveId(b, id)
    decreases |a|
  {
    if a == [] {
      assert a + b == b;
    } else {
      assert (a + b)[0] == a[0];
      assert (a + b)[1..] == a[1..] + b;
      RemoveIdAppend(a[1..], b, id);
    }
  }

  /** Removing the one subscription with `id` keeps the others, in order. */
  lemma RemoveIdPreservesOthers(bucket: seq<Subscription>, id: nat, i: nat)
    requires i < |bucket| && bucket[i].id == id
    requires forall j :: 0 <= j < |bucket| && j != i ==> bucket[j].id != id
    ensures RemoveId(bucket, id) == bucket[..i] + bucket[i + 1..]
  {
    var before, after := bucket[..i], bucket[i + 1..];
    assert bucket == before + [bucket[i]] + after;
    forall j | 0 <= j < |before| ensures before[j].id != id {
      assert before[j] == bucket[j];
    }
    forall j | 0 <= j < |after| ensures after[j].id != id {
      assert after[j] == bucket[i + 1 + j];
    }
    RemoveAbsentId(before, id);
    RemoveAbsentId(after, id);
    RemoveIdAppend(before + [bucket[i]], after, id);
    RemoveIdAppend(before, [bucket[i]], id);
    assert RemoveId([bucket[i]], id) == RemoveId([bucket[i]][1..], id);
    assert [bucket[i]][1..] == [];
  }

  /** `rest` is `bucket` with position `i` taken out. */
  predicate DroppedAt(bucket: seq<Subscription>, i: nat, rest: seq<Subscription>) {
    i < |bucket| && |rest| == |bucket| - 1 &&
    forall j :: 0 <= j < |rest| ==> rest[j] == bucket[if j < i then j else j + 1]
  }

  lemma RemoveIdDropsOne(bucket: seq<Subscription>, id: nat, i: nat)
    requires i < |bucket| && bucket[i].id == id && DistinctIds(bucket)
    ensures DroppedAt(bucket, i, RemoveId(bucket, id))
    ensures DistinctIds(RemoveId(bucket, id))
  {
    RemoveIdPreservesOthers(bucket, id, i);
    var rest := RemoveId(bucket, id);
    assert rest == bucket[..i] + bucket[i + 1..];
    forall a, b | 0 <= a < b < |rest| ensures rest[a].id != rest[b].id {
      assert rest[a] == bucket[if a < i then a else a + 1];
      assert rest[b] == bucket[if b < i then b else b + 1];
    }
  }

  /** The registry after unsubscribing a live id `id` filed under `c`. */
  lemma UnsubscribeShape(r: Registry, id: nat, c: string)
    requires id in r.idTable && r.idTable[id] == c && c in r.subscriptions
    ensures var rest := RemoveId(r.subscriptions[c], id); var r' := Unsubscribe(r, id);
      && r'.idTable == r.idTable - {id} && r'.count == r.count
      && (c in r'.subscriptions <==> rest != [])
      && (c in r'.subscriptions ==> r'.subscriptions[c] == rest)
      && (forall d :: d != c ==> (d in r'.subscriptions <==> d in r.subscriptions))
      && (forall d :: d != c && d in r.subscriptions ==> r'.subscriptions[d] == r.subscriptions[d])
  {
  }

  lemma UnsubscribeKeepsConsistent(r: Registry, id: nat)
    requires Consistent(r)
    ensures Consistent(Unsubscribe(r, id))
  {
    if id in r.idTable {
      var c := r.idTable[id];
      var bucket := r.subscriptions[c];
      var i :| 0 <= i < |bucket| && bucket[i].id == id;
      assert DistinctIds(bucket);
      RemoveIdDropsOne(bucket, id, i);
      UnsubscribeShape(r, id, c);
      var rest := RemoveId(bucket, id);
      var r' := Unsubscribe(r, id);
      UnsubscribedTableSound(r, r', id, c, i, rest);
      UnsubscribedBucketsFiled(r, r', id, c, i, rest);
    }
  }

  lemma UnsubscribedTableSound(r: Registry, r': Registry, id: nat, c: string, i: nat, rest: seq<Subscription>)
    requires TableSound(r) && BucketsDistinct(r)
    requires id in r.idTable && r.idTable[id] == c && c in r.subscriptions
    requires i < |r.subscriptions[c]| && r.subscriptions[c][i].id == id && DroppedAt(r.subscriptions[c], i, rest)
    requires r'.idTable == r.idTable - {id} && r'.count == r.count
    requires (c in r'.subscriptions <==> rest != []) && (c in r'.subscriptions ==> r'.subscriptions[c] == rest)
    requires forall d :: d != c ==> (d in r'.subscriptions <==> d in r.subscriptions)
    requires forall d :: d != c && d in r.subscriptions ==> r'.subscriptions[d] == r.subscriptions[d]
    ensures TableSound(r')
  {
    var bucket := r.subscriptions[c];
    forall id2 | id2 in r'.idTable
      ensures id2 < r'.count && r'.idTable[id2] in r'.subscriptions && HasId(r'.subscriptions[r'.idTable[id2]], id2)
    {
      var d := r.idTable[id2];
      var j :| 0 <= j < |r.subscriptions[d]| && r.subscriptions[d][j].id == id2;
      if d == c {
        assert DistinctIds(bucket);
        StillHeld(bucket, i, rest, j);
      }
    }
  }

  /** An id held at a position other than the dropped one is still held after the drop. */
  lemma StillHeld(bucket: seq<Subscription>, i: nat, rest: seq<Subscription>, j: nat)
    requires DroppedAt(bucket, i, rest) && j < |bucket| && bucket[j].id != bucket[i].id
    ensures HasId(rest, bucket[j].id)
  {
    var j' := if j < i then j else j - 1;
    assert rest[j'] == bucket[j];
  }

  lemma UnsubscribedBucketsFiled(r: Registry, r': Registry, id: nat, c: string, i: nat, rest: seq<Subscription>)
    requires NoEmptyBucket(r) && BucketsFiled(r) && BucketsDistinct(r)
    requires id in r.idTable && r.idTable[id] == c && c in r.subscriptions
    requires i < |r.subscriptions[c]| && r.subscriptions[c][i].id == id && DroppedAt(r.subscriptions[c], i, rest)
    requires DistinctIds(rest)
    requires r'.idTable == r.idTable - {id}
    requires (c in r'.subscriptions <==> rest != []) && (c in r'.subscriptions ==> r'.subscriptions[c] == rest)
    requires forall d :: d != c ==> (d in r'.subscriptions <==> d in r.subscriptions)
    requires forall d :: d != c && d in r.subscriptions ==> r'.subscriptions[d] == r.subscriptions[d]
    ensures NoEmptyBucket(r') && BucketsFiled(r') && BucketsDistinct(r')
  {
    var bucket := r.subscriptions[c];
    forall d, j | d in r'.subscriptions && 0 <= j < |r'.subscriptions[d]|
      ensures r'.subscriptions[d][j].component == d && r'.subscriptions[d][j].id in r'.idTable &&
        r'.idTable[r'.subscriptions[d][j].id] == d
    {
      if d == c {
        var k := if j < i then j else j + 1;
        assert rest[j] == bucket[k];
        assert DistinctIds(bucket);
        assert bucket[k].id != id;
      } else {
        assert r'.subscriptions[d][j] == r.subscriptions[d][j];
        assert r.subscriptions[d][j].id != id;
      }
    }
  }

  // ---------------------------------------------------------------------------
  // Unsubscribe: what it removes and what it leaves

  lemma UnsubscribeUnknownIsNoop(r: Registry, id: nat)
    requires id !in r.idTable
    ensures Unsubscribe(r, id) == r
  {
  }

  /** A second unsubscribe of the same id changes nothing, whatever the state. */
  lemma UnsubscribeIdempotent(r: Registry, id: nat)
    ensures Unsubscribe(Unsubscribe(r, id), id) == Unsubscribe(r, id)
  {
  }

  /** The defensive path: an id whose bucket is missing loses only its table entry. */
  lemma UnsubscribeRepairPath(r: Registry, id: nat)
    requires id in r.idTable && r.idTable[id] !in r.subscriptions
    ensures Unsubscribe(r, id) == Registry(r.subscriptions, r.idTable - {id}, r.count)
  {
  }

  /** In a consistent registry the defensive path is never taken. */
  lemma RepairPathUnreachable(r: Registry, id: nat)
    requires Consistent(r) && id in r.idTable
    ensures r.idTable[id] in r.subscriptions
  {
  }

  /**
   * Unsubscribing a live id removes exactly that subscription from its bucket,
   * keeping the others in order, prunes the bucket if it empties, drops the
   * table entry and leaves every other bucket alone.
   */
  lemma UnsubscribeRemovesExactly(r: Registry, id: nat)
    requires Consistent(r) && id in r.idTable
    ensures var c := r.idTable[id]; var bucket := r.subscriptions[c]; var r' := Unsubscribe(r, id);
      && (exists i :: 0 <= i < |bucket| && bucket[i].id == id &&
            var rest := bucket[..i] + bucket[i + 1..];
            if rest == [] then c !in r'.subscriptions else c in r'.subscriptions && r'.subscriptions[c] == rest)
      && (forall d :: d != c ==> (d in r'.subscriptions <==> d in r.subscriptions))
      && (forall d :: d != c && d in r.subscriptions ==> r'.subscriptions[d] == r.subscriptions[d])
      && r'.idTable == r.idTable - {id}
      && r'.count == r.count
  {
    var c := r.idTable[id];
    var bucket := r.subscriptions[c];
    var i :| 0 <= i < |bucket| && bucket[i].id == id;
    RemoveIdPreservesOthers(bucket, id, i);
  }

  /** Subscribing and then unsubscribing the returned id restores both indices. */
  lemma SubscribeThenUnsubscribe(r: Registry, c: string, k: string, u: Updater)
    requires Consistent(r)
    ensures Unsubscribe(Subscribe(r, c, k, u), r.count) == Registry(r.subscriptions, r.idTable, r.count + 1)
  {
    NextIdIsFresh(r);
    var bucket := if c in r.subscriptions then r.subscriptions[c] else [];
    assert c in r.subscriptions ==> bucket != [];
    assert forall j :: 0 <= j < |bucket| ==> bucket[j].id != r.count;
    FreshSubscribeUndone(r, c, k, u, bucket);
  }

  lemma FreshSubscribeUndone(r: Registry, c: string, k: string, u: Updater, bucket: seq<Subscription>)
    requires r.count !in r.idTable
    requires bucket == if c in r.subscriptions then r.subscriptions[c] else []
    requires c in r.subscriptions ==> bucket != []
    requires forall j :: 0 <= j < |bucket| ==> bucket[j].id != r.count
    ensures Unsubscribe(Subscribe(r, c, k, u), r.count) == Registry(r.subscriptions, r.idTable, r.count + 1)
  {
    var b' := bucket + [Subscription(r.count, c, k, u)];
    forall j | 0 <= j < |b'| && j != |bucket| ensures b'[j].id != r.count {
      assert b'[j] == bucket[j];
    }
    RemoveIdPreservesOthers(b', r.count, |bucket|);
    assert b'[..|bucket|] + b'[|bucket| + 1..] == bucket;
    var s := Subscribe(r, c, k, u);
    assert s.subscriptions[c] == b';
    UnsubscribeShape(s, r.count, c);
    var r' := Unsubscribe(s, r.count);
    assert r'.idTable == r.idTable;
    assert r'.subscriptions == r.subscriptions;
  }

  // ---------------------------------------------------------------------------
  // Ids are never reused, across flushes too

  datatype Op = Sub(component: string, control: string, updater: Updater) | Unsub(id: nat) | FlushAll

  function Apply(r: Registry, op: Op): Registry {
    match op
    case Sub(c, k, u) => Subscribe(r, c, k, u)
    case Unsub(id) => Unsubscribe(r, id)
    case FlushAll => Flush(r)
  }

  function Run(r: Registry, ops: seq<Op>): Registry
    decreases |ops|
  {
    if ops == [] then r else Run(Apply(r, ops[0]), ops[1..])
  }

  /** The ids handed out by the subscribes among `ops`, in order. */
  function IssuedIds(r: Registry, ops: seq<Op>): seq<nat>
    decreases |ops|
  {
    if ops == [] then []
    else (if ops[0].Sub? then [r.count] else []) + IssuedIds(Apply(r, ops[0]), ops[1..])
  }

  /**
   * Every id handed out lies in [r.count, final counter) and the ids are
   * strictly increasing, so none is ever handed out twice.
   */
  lemma {:induction false} IssuedIdsStrictlyIncrease(r: Registry, ops: seq<Op>)
    ensures r.count <= Run(r, ops).count
    ensures forall i :: 0 <= i < |IssuedIds(r, ops)| ==> r.count <= IssuedIds(r, ops)[i] < Run(r, ops).count
    ensures forall i, j :: 0 <= i < j < |IssuedIds(r, ops)| ==> IssuedIds(r, ops)[i] < IssuedIds(r, ops)[j]
    decreases |ops|
  {
    if ops != [] {
      var r1 := Apply(r, ops[0]);
      IssuedIdsStrictlyIncrease(r1, ops[1..]);
      assert r.count <= r1.count;
      assert ops[0].Sub? ==> r1.count == r.count + 1;
    }
  }

  /** Consistency holds after any sequence of operations from a consistent start. */
  lemma {:induction false} RunKeepsConsistent(r: Registry, ops: seq<Op>)
    requires Consistent(r)
    ensures Consistent(Run(r, ops))
    decreases |ops|
  {
    if ops != [] {
      match ops[0] {
        case Sub(c, k, u) => SubscribeKeepsConsistent(r, c, k, u);
        case Unsub(id) => UnsubscribeKeepsConsistent(r, id);
        case FlushAll => FlushKeepsConsistentAndCounter(r);
      }
      RunKeepsConsistent(Apply(r, ops[0]), ops[1..]);
    }
  }

  // ---------------------------------------------------------------------------
  // Fan-out of a pushed update event

  /** The calls made for one pushed control against one bucket, in bucket order. */
  function Matching(bucket: seq<Subscription>, ctl: Control): seq<Delivery>
    decreases |bucket|
  {
    if bucket == [] then []
    else
      var last := bucket[|bucket| - 1];
      Matching(bucket[..|bucket| - 1], ctl) + (if ctl.name == last.control then [Delivery(last.id, last.updater, ctl)] else [])
  }

  function EntryDeliveries(subs: map<string, seq<Subscription>>, e: EventEntry): seq<Delivery> {
    if e.component in subs then Matching(subs[e.component], e.control) else []
  }

  /** processControlEvent: the calls made for a whole event, entry by entry. */
  function EventDeliveries(subs: map<string, seq<Subscription>>, event: seq<EventEntry>): seq<Delivery>
    decreases |event|
  {
    if event == [] then []
    else EventDeliveries(subs, event[..|event| - 1]) + EntryDeliveries(subs, event[|event| - 1])
  }

  /** A bucket's delivery list holds exactly the subscriptions whose control name matches. */
  lemma {:induction false} MatchingExactly(bucket: seq<Subscription>, ctl: Control, d: Delivery)
    ensures d in Matching(bucket, ctl) <==>
      d.control == ctl && (exists i :: 0 <= i < |bucket| && bucket[i].control == ctl.name &&
                                      d == Delivery(bucket[i].id, bucket[i].updater, ctl))
    decreases |bucket|
  {
    if bucket != [] {
      var n := |bucket| - 1;
      MatchingExactly(bucket[..n], ctl, d);
      if d.control == ctl && exists i :: 0 <= i < |bucket| && bucket[i].control == ctl.name &&
                                        d == Delivery(bucket[i].id, bucket[i].updater, ctl) {
        var i :| 0 <= i < |bucket| && bucket[i].control == ctl.name && d == Delivery(bucket[i].id, bucket[i].updater, ctl);
        if i < n {
          assert bucket[..n][i] == bucket[i];
        }
      }
    }
  }

  /** An event's deliveries are exactly the union of its entries' deliveries. */
  lemma {:induction false} EventDeliveriesByEntry(subs: map<string, seq<Subscription>>, event: seq<EventEntry>, d: Delivery)
    ensures d in EventDeliveries(subs, event) <==> exists j :: 0 <= j < |event| && d in EntryDeliveries(subs, event[j])
    decreases |event|
  {
    if event != [] {
      var n := |event| - 1;
      var front := event[..n];
      EventDeliveriesByEntry(subs, front, d);
      assert EventDeliveries(subs, event) == EventDeliveries(subs, front) + EntryDeliveries(subs, event[n]);
      if d in EventDeliveries(subs, front) {
        var j :| 0 <= j < |front| && d in EntryDeliveries(subs, front[j]);
        assert front[j] == event[j];
      } else if d in EntryDeliveries(subs, event[n]) {
        assert 0 <= n < |event|;
      } else {
        forall j | 0 <= j < |event| ensures d !in EntryDeliveries(subs, event[j]) {
          if j < n {
            assert front[j] == event[j];
          }
        }
      }
    }
  }

  /**
   * No cross-talk: a subscription is called for an event exactly when the
   * event has an entry for its component whose control carries its control
   * name, and then with that entry's control.
   */
  lemma EventReachesExactlyMatching(subs: map<string, seq<Subscription>>, event: seq<EventEntry>, d: Delivery)
    ensures d in EventDeliveries(subs, event) <==>
      exists j, i :: (0 <= j < |event| && event[j].component in subs && 0 <= i < |subs[event[j].component]| &&
                      subs[event[j].component][i].control == event[j].control.name &&
                      d == Delivery(subs[event[j].component][i].id, subs[event[j].component][i].updater, event[j].control))
  {
    EventDeliveriesByEntry(subs, event, d);
    forall j | 0 <= j < |event|
      ensures d in EntryDeliveries(subs, event[j]) <==>
        event[j].component in subs &&
        exists i :: (0 <= i < |subs[event[j].component]| &&
                     subs[event[j].component][i].control == event[j].control.name &&
                     d == Delivery(subs[event[j].component][i].id, subs[event[j].component][i].updater, event[j].control))
    {
      if event[j].component in subs {
        MatchingExactly(subs[event[j].component], event[j].control, d);
      }
    }
  }

  // ---------------------------------------------------------------------------
  // A throwing updater during fan-out. processControlEvent calls the updaters
  // without a try/catch: the first updater that throws ends the whole walk,
  // and the exception reaches whoever delivered the event.

  /** Some call in `ds` goes to a subscription whose updater throws. */
  predicate ReachesThrower(ds: seq<Delivery>, failing: set<nat>) {
    exists i :: 0 <= i < |ds| && ds[i].id in failing
  }

  /** The calls made by a walk over `ds` that stops after the first throwing call. */
  function UntilThrow(ds: seq<Delivery>, failing: set<nat>): seq<Delivery>
    decreases |ds|
  {
    if ds == [] then []
    else if ds[0].id in failing then [ds[0]]
    else [ds[0]] + UntilThrow(ds[1..], failing)
  }

  /**
   * The calls made are a prefix of the calls planned: all of them when no
   * updater throws; otherwise they end with the first throwing call and no
   * call before it throws.
   */
  lemma {:induction false} UntilThrowIsPrefix(ds: seq<Delivery>, failing: set<nat>)
    ensures var r := UntilThrow(ds, failing);
      && |r| <= |ds| && r == ds[..|r|]
      && (!ReachesThrower(ds, failing) ==> r == ds)
      && (ReachesThrower(ds, failing) ==>
            |r| > 0 && r[|r| - 1].id in failing && !ReachesThrower(r[..|r| - 1], failing))
    decreases |ds|
  {
    if ds != [] {
      if ds[0].id in failing {
        assert UntilThrow(ds, failing)[..0] == [];
      } else {
        var tail := ds[1..];
        var rest := UntilThrow(tail, failing);
        UntilThrowIsPrefix(tail, failing);
        var r := [ds[0]] + rest;
        assert r == UntilThrow(ds, failing);
        assert ds[..|r|] == [ds[0]] + tail[..|rest|];
        if !ReachesThrower(ds, failing) {
          forall i | 0 <= i < |tail| ensures tail[i].id !in failing {
            assert tail[i] == ds[i + 1];
          }
          assert [ds[0]] + tail == ds;
        } else {
          var i :| 0 <= i < |ds| && ds[i].id in failing;
          assert tail[i - 1] == ds[i];
          var front := r[..|r| - 1];
          assert front == [ds[0]] + rest[..|rest| - 1];
          forall j | 0 <= j < |front| ensures front[j].id !in failing {
            if j > 0 {
              assert front[j] == rest[..|rest| - 1][j - 1];
            }
          }
        }
      }
    }
  }

  lemma {:induction false} ReachesThrowerAppend(a: seq<Delivery>, b: seq<Delivery>, failing: set<nat>)
    ensures ReachesThrower(a + b, failing) <==> ReachesThrower(a, failing) || ReachesThrower(b, failing)
  {
    if ReachesThrower(a + b, failing) {
      var i :| 0 <= i < |a + b| && (a + b)[i].id in failing;
      if i >= |a| {
        assert b[i - |a|] == (a + b)[i];
      }
    }
    if ReachesThrower(b, failing) {
      var i :| 0 <= i < |b| && b[i].id in failing;
      assert (a + b)[|a| + i] == b[i];
    }
    if ReachesThrower(a, failing) {
      var i :| 0 <= i < |a| && a[i].id in failing;
      assert (a + b)[i] == a[i];
    }
  }

  /** A walk over two lists in turn stops in the first when it throws there, else runs it whole and goes on. */
  lemma {:induction false} UntilThrowAppend(a: seq<Delivery>, b: seq<Delivery>, failing: set<nat>)
    ensures UntilThrow(a + b, failing) == if ReachesThrower(a, failing) then UntilThrow(a, failing) else a + UntilThrow(b, failing)
    decreases |a|
  {
    if a == [] {
      assert a + b == b;
    } else {
      assert (a + b)[0] == a[0];
      assert (a + b)[1..] == a[1..] + b;
      UntilThrowAppend(a[1..], b, failing);
      if a[0].id !in failing {
        ReachesThrowerAppend([a[0]], a[1..], failing);
        assert [a[0]] + a[1..] == a;
      }
    }
  }

  /** Once the calls made so far are clean, a throw in the next part ends the walk there. */
  lemma StopAt(done: seq<Delivery>, mid: seq<Delivery>, rest: seq<Delivery>, failing: set<nat>)
    requires !ReachesThrower(done, failing) && ReachesThrower(mid, failing)
    ensures UntilThrow(done + mid + rest, failing) == done + UntilThrow(mid, failing)
    ensures ReachesThrower(done + mid + rest, failing)
  {
    ReachesThrowerAppend(done, mid, failing);
    ReachesThrowerAppend(done + mid, rest, failing);
    UntilThrowAppend(done + mid, rest, failing);
    UntilThrowAppend(done, mid, failing);
  }

  lemma {:induction false} MatchingAppend(a: seq<Subscription>, b: seq<Subscription>, ctl: Control)
    ensures Matching(a + b, ctl) == Matching(a, ctl) + Matching(b, ctl)
    decreases |b|
  {
    if b == [] {
      assert a + b == a;
    } else {
      var n := |b| - 1;
      var ab := a + b;
      assert ab[..|ab| - 1] == a + b[..n];
      assert ab[|ab| - 1] == b[n];
      MatchingAppend(a, b[..n], ctl);
      calc {
        Matching(ab, ctl);
        Matching(a + b[..n], ctl) + (if ctl.name == b[n].control then [Delivery(b[n].id, b[n].updater, ctl)] else []);
        Matching(a, ctl) + (Matching(b[..n], ctl) + (if ctl.name == b[n].control then [Delivery(b[n].id, b[n].updater, ctl)] else []));
        Matching(a, ctl) + Matching(b, ctl);
      }
    }
  }


  lemma DeliveriesAssociate(x: seq<Delivery>, y: seq<Delivery>, z: seq<Delivery>)
    ensures x + y + z == x + (y + z)
  {
  }

  lemma EventDeliveriesSnoc(subs: map<string, seq<Subscription>>, xs: seq<EventEntry>, e: EventEntry)
    ensures EventDeliveries(subs, xs + [e]) == EventDeliveries(subs, xs) + EntryDeliveries(subs, e)
  {
    var ys := xs + [e];
    assert ys[..|ys| - 1] == xs;
    assert ys[|ys| - 1] == e;
  }

  lemma {:induction false} EventDeliveriesAppend(subs: map<string, seq<Subscription>>, a: seq<EventEntry>, b: seq<EventEntry>)
    ensures EventDeliveries(subs, a + b) == EventDeliveries(subs, a) + EventDeliveries(subs, b)
    decreases |b|
  {
    if b == [] {
      assert a + b == a;
    } else {
      var n := |b| - 1;
      var front, e := b[..n], b[n];
      assert b == front + [e];
      assert a + b == (a + front) + [e];
      EventDeliveriesAppend(subs, a, front);
      EventDeliveriesSnoc(subs, a + front, e);
      EventDeliveriesSnoc(subs, front, e);
      DeliveriesAssociate(EventDeliveries(subs, a), EventDeliveries(subs, front), EntryDeliveries(subs, e));
    }
  }



  /** An event's planned calls split around entry n. */
  lemma EventSplit(subs: map<string, seq<Subscription>>, event: seq<EventEntry>, n: nat)
    requires n < |event|
    ensures EventDeliveries(subs, event) ==
      EventDeliveries(subs, event[..n]) + EntryDeliveries(subs, event[n]) + EventDeliveries(subs, event[n + 1..])
  {
    EventDeliveriesAppend(subs, event[..n + 1], event[n + 1..]);
    assert event[..n + 1] + event[n + 1..] == event;
    assert event[..n + 1][..n] == event[..n];
  }

  /** The event walk stops inside entry n when its calls so far are clean and a call for entry n throws. */
  lemma EventStopsAt(subs: map<string, seq<Subscription>>, event: seq<EventEntry>, n: nat, failing: set<nat>)
    requires n < |event|
    requires !ReachesThrower(EventDeliveries(subs, event[..n]), failing)
    requires ReachesThrower(EntryDeliveries(subs, event[n]), failing)
    ensures UntilThrow(EventDeliveries(subs, event), failing) ==
      EventDeliveries(subs, event[..n]) + UntilThrow(EntryDeliveries(subs, event[n]), failing)
    ensures ReachesThrower(EventDeliveries(subs, event), failing)
  {
    EventSplit(subs, event, n);
    StopAt(EventDeliveries(subs, event[..n]), EntryDeliveries(subs, event[n]), EventDeliveries(subs, event[n + 1..]), failing);
  }



  /** An entry none of whose calls throws extends the clean walk by all of them. */
  lemma EventStepClean(subs: map<string, seq<Subscription>>, event: seq<EventEntry>, n: nat, failing: set<nat>)
    requires n < |event|
    requires !ReachesThrower(EventDeliveries(subs, event[..n]), failing)
    requires !ReachesThrower(EntryDeliveries(subs, event[n]), failing)
    ensures EventDeliveries(subs, event[..n + 1]) == EventDeliveries(subs, event[..n]) + UntilThrow(EntryDeliveries(subs, event[n]), failing)
    ensures !ReachesThrower(EventDeliveries(subs, event[..n + 1]), failing)
  {
    assert event[..n + 1][..n] == event[..n];
    UntilThrowIsPrefix(EntryDeliveries(subs, event[n]), failing);
    ReachesThrowerAppend(EventDeliveries(subs, event[..n]), EntryDeliveries(subs, event[n]), failing);
  }

  // ---------------------------------------------------------------------------
  // Initial-value propagation

  /** `qrwc.components[sub.component]?.[sub.control]` */
  function Lookup(g: Session, s: Subscription): Option<Control> {
    if s.component in g.components && s.control in g.components[s.component].controls
    then Some(g.components[s.component].controls[s.control])
    else None
  }

  function InitialFor(g: Session, s: Subscription): seq<Delivery> {
    match Lookup(g, s)
    case None => []
    case Some(ctl) => [Delivery(s.id, s.updater, ctl)]
  }

  function BucketInitial(g: Session, bucket: seq<Subscription>): seq<Delivery>
    decreases |bucket|
  {
    if bucket == [] then []
    else BucketInitial(g, bucket[..|bucket| - 1]) + InitialFor(g, bucket[|bucket| - 1])
  }

  /** propagateInitialValues, visiting the buckets in the order `order`. */
  function InitialDeliveries(g: Session, subs: map<string, seq<Subscription>>, order: seq<string>): seq<Delivery>
    decreases |order|
  {
    if order == [] then []
    else InitialDeliveries(g, subs, order[..|order| - 1]) + KeyInitial(g, subs, order[|order| - 1])
  }

  function KeyInitial(g: Session, subs: map<string, seq<Subscription>>, k: string): seq<Delivery> {
    if k in subs then BucketInitial(g, subs[k]) else []
  }

  predicate Distinct(order: seq<string>) {
    forall i, j :: 0 <= i < j < |order| ==> order[i] != order[j]
  }

  /** How many deliveries are made on behalf of subscription `id`. */
  function Occurrences(ds: seq<Delivery>, id: nat): nat
    decreases |ds|
  {
    if ds == [] then 0 else (if ds[0].id == id then 1 else 0) + Occurrences(ds[1..], id)
  }

  lemma {:induction false} OccurrencesAppend(a: seq<Delivery>, b: seq<Delivery>, id: nat)
    ensures Occurrences(a + b, id) == Occurrences(a, id) + Occurrences(b, id)
    decreases |a|
  {
    if a != [] {
      assert (a + b)[0] == a[0];
      assert (a + b)[1..] == a[1..] + b;
      OccurrencesAppend(a[1..], b, id);
    } else {
      assert a + b == b;
    }
  }

  /** Some subscription of `bucket` with this id has its control in the session. */
  predicate DeliverableIn(g: Session, bucket: seq<Subscription>, id: nat) {
    exists i :: 0 <= i < |bucket| && bucket[i].id == id && Lookup(g, bucket[i]).Some?
  }

  /** Within one bucket of distinct ids, `id` is delivered once if its control exists, else never. */
  lemma {:induction false} BucketOccurrences(g: Session, bucket: seq<Subscription>, id: nat)
    requires DistinctIds(bucket)
    ensures Occurrences(BucketInitial(g, bucket), id) == if DeliverableIn(g, bucket, id) then 1 else 0
    decreases |bucket|
  {
    if bucket != [] {
      var n := |bucket| - 1;
      var front := bucket[..n];
      assert forall i :: 0 <= i < |front| ==> front[i] == bucket[i];
      BucketOccurrences(g, front, id);
      OccurrencesAppend(BucketInitial(g, front), InitialFor(g, bucket[n]), id);
      if DeliverableIn(g, bucket, id) {
        var i :| 0 <= i < |bucket| && bucket[i].id == id && Lookup(g, bucket[i]).Some?;
        if i < n {
          assert DeliverableIn(g, front, id);
          assert bucket[n].id != id;
        } else {
          assert !DeliverableIn(g, front, id);
        }
      } else {
        assert !DeliverableIn(g, front, id);
      }
    }
  }

  /** Buckets other than the one an id is filed under contribute no delivery for it. */
  lemma {:induction false} OtherKeysContributeNothing(r: Registry, g: Session, order: seq<string>, c: string, id: nat)
    requires BucketsFiled(r) && BucketsDistinct(r)
    requires c !in order
    requires id in r.idTable && r.idTable[id] == c
    ensures Occurrences(InitialDeliveries(g, r.subscriptions, order), id) == 0
    decreases |order|
  {
    if order != [] {
      var n := |order| - 1;
      var k := order[n];
      assert c !in order[..n];
      OtherKeysContributeNothing(r, g, order[..n], c, id);
      OccurrencesAppend(InitialDeliveries(g, r.subscriptions, order[..n]), KeyInitial(g, r.subscriptions, k), id);
      if k in r.subscriptions {
        var bucket := r.subscriptions[k];
        BucketOccurrences(g, bucket, id);
        forall i | 0 <= i < |bucket| ensures bucket[i].id != id {
          assert r.idTable[bucket[i].id] == k;
        }
      }
    }
  }

  /** The walk over two key sequences in turn is the two walks concatenated. */
  lemma InitialSnoc(g: Session, subs: map<string, seq<Subscription>>, xs: seq<string>, k: string)
    ensures InitialDeliveries(g, subs, xs + [k]) == InitialDeliveries(g, subs, xs) + KeyInitial(g, subs, k)
  {
    var ys := xs + [k];
    assert ys[..|ys| - 1] == xs;
    assert ys[|ys| - 1] == k;
  }

  lemma {:induction false} InitialAppend(g: Session, subs: map<string, seq<Subscription>>, a: seq<string>, b: seq<string>)
    ensures InitialDeliveries(g, subs, a + b) == InitialDeliveries(g, subs, a) + InitialDeliveries(g, subs, b)
    decreases |b|
  {
    if b == [] {
      assert a + b == a;
    } else {
      var n := |b| - 1;
      var front, k := b[..n], b[n];
      assert b == front + [k];
      assert a + b == (a + front) + [k];
      InitialAppend(g, subs, a, front);
      InitialSnoc(g, subs, a + front, k);
      InitialSnoc(g, subs, front, k);
      DeliveriesAssociate(InitialDeliveries(g, subs, a), InitialDeliveries(g, subs, front), KeyInitial(g, subs, k));
    }
  }



  /** The walk over `order` is the walk before position p, bucket p, and the walk after it. */
  lemma InitialSplit(g: Session, subs: map<string, seq<Subscription>>, order: seq<string>, p: nat)
    requires p < |order|
    ensures InitialDeliveries(g, subs, order) ==
      InitialDeliveries(g, subs, order[..p]) + KeyInitial(g, subs, order[p]) + InitialDeliveries(g, subs, order[p + 1..])
  {
    var before, key, after := order[..p], [order[p]], order[p + 1..];
    assert order == before + key + after;
    InitialAppend(g, subs, before + key, after);
    InitialAppend(g, subs, before, key);
    assert key[..0] == [];
    assert InitialDeliveries(g, subs, key) == KeyInitial(g, subs, order[p]);
  }

  /** A key at position p of a duplicate-free order occurs neither before nor after p. */
  lemma SplitAvoids(order: seq<string>, p: nat)
    requires Distinct(order) && p < |order|
    ensures order[p] !in order[..p] && order[p] !in order[p + 1..]
  {
    var after := order[p + 1..];
    forall q | 0 <= q < |after| ensures after[q] != order[p] {
      assert after[q] == order[p + 1 + q];
    }
  }

  /** In a bucket of distinct ids, the id at position i is deliverable exactly when its own control exists. */
  lemma DeliverableAt(g: Session, bucket: seq<Subscription>, i: nat)
    requires DistinctIds(bucket) && i < |bucket|
    ensures DeliverableIn(g, bucket, bucket[i].id) <==> Lookup(g, bucket[i]).Some?
  {
    if DeliverableIn(g, bucket, bucket[i].id) {
      var j :| 0 <= j < |bucket| && bucket[j].id == bucket[i].id && Lookup(g, bucket[j]).Some?;
      assert j == i;
    }
  }

  /**
   * Exactly-once initial delivery: in a consistent registry, walking every
   * bucket once delivers to each subscription exactly once when its control
   * exists in the session, and never otherwise.
   */
  lemma InitialValuesDeliveredOnce(r: Registry, g: Session, order: seq<string>, c: string, i: nat)
    requires Consistent(r)
    requires Distinct(order) && forall k :: k in order <==> k in r.subscriptions
    requires c in r.subscriptions && i < |r.subscriptions[c]|
    ensures Occurrences(InitialDeliveries(g, r.subscriptions, order), r.subscriptions[c][i].id) ==
      if Lookup(g, r.subscriptions[c][i]).Some? then 1 else 0
  {
    var p :| 0 <= p < |order| && order[p] == c;
    DeliveredOnceAt(r, g, order, p, i);
  }

  lemma DeliveredOnceAt(r: Registry, g: Session, order: seq<string>, p: nat, i: nat)
    requires BucketsFiled(r) && BucketsDistinct(r)
    requires Distinct(order) && p < |order| && order[p] in r.subscriptions && i < |r.subscriptions[order[p]]|
    ensures Occurrences(InitialDeliveries(g, r.subscriptions, order), r.subscriptions[order[p]][i].id) ==
      if Lookup(g, r.subscriptions[order[p]][i]).Some? then 1 else 0
  {
    var c := order[p];
    var bucket := r.subscriptions[c];
    var id := bucket[i].id;
    InitialSplit(g, r.subscriptions, order, p);
    SplitAvoids(order, p);
    assert id in r.idTable && r.idTable[id] == c;
    OtherKeysContributeNothing(r, g, order[..p], c, id);
    OtherKeysContributeNothing(r, g, order[p + 1..], c, id);
    BucketOccurrences(g, bucket, id);
    DeliverableAt(g, bucket, i);
    var left := InitialDeliveries(g, r.subscriptions, order[..p]);
    var mid := KeyInitial(g, r.subscriptions, c);
    var right := InitialDeliveries(g, r.subscriptions, order[p + 1..]);
    OccurrencesAppend(left, mid, id);
    OccurrencesAppend(left + mid, right, id);
  }

  lemma {:induction false} BucketInitialSound(g: Session, bucket: seq<Subscription>, d: Delivery)
    requires d in BucketInitial(g, bucket)
    ensures exists i :: (0 <= i < |bucket| && Lookup(g, bucket[i]) == Some(d.control) &&
                         d.id == bucket[i].id && d.updater == bucket[i].updater)
    decreases |bucket|
  {
    var n := |bucket| - 1;
    if d in BucketInitial(g, bucket[..n]) {
      BucketInitialSound(g, bucket[..n], d);
      var i :| 0 <= i < |bucket[..n]| && Lookup(g, bucket[..n][i]) == Some(d.control) &&
        d.id == bucket[..n][i].id && d.updater == bucket[..n][i].updater;
      assert bucket[..n][i] == bucket[i];
    }
  }

  /** Every initial delivery is made for a subscription of a visited bucket, with its control from the session. */
  lemma {:induction false} InitialDeliveriesSound(g: Session, subs: map<string, seq<Subscription>>, order: seq<string>, d: Delivery)
    requires d in InitialDeliveries(g, subs, order)
    ensures exists k, i :: (k in order && k in subs && 0 <= i < |subs[k]| &&
                            Lookup(g, subs[k][i]) == Some(d.control) && d.id == subs[k][i].id && d.updater == subs[k][i].updater)
    decreases |order|
  {
    var n := |order| - 1;
    if d in InitialDeliveries(g, subs, order[..n]) {
      InitialDeliveriesSound(g, subs, order[..n], d);
      var k, i :| k in order[..n] && k in subs && 0 <= i < |subs[k]| &&
        Lookup(g, subs[k][i]) == Some(d.control) && d.id == subs[k][i].id && d.updater == subs[k][i].updater;
      assert k in order;
    } else {
      var k := order[n];
      BucketInitialSound(g, subs[k], d);
    }
  }

  // ---------------------------------------------------------------------------
  // The registry object

  class ControlSubscriber {
    /** Buckets of subscriptions by component id. */
    var subscriptions: map<string, seq<Subscription>>
    /** Subscription id -> component id, used to unsubscribe. */
    var subscriptionIdTable: map<nat, string>
    var subscriptionCount: nat

    function Model(): Registry
      reads this
    {
      Registry(subscriptions, subscriptionIdTable, subscriptionCount)
    }

    ghost predicate Valid()
      reads this
    {
      Consistent(Model())
    }

    constructor ()
      ensures Model() == EmptyRegistry() && Valid()
    {
      subscriptions := map[];
      subscriptionIdTable := map[];
      subscriptionCount := 0;
    }

    /** Hands out the current counter value and advances it. */
    method GetNewSubscriptionId() returns (id: nat)
      modifies this`subscriptionCount
      ensures id == old(subscriptionCount) && subscriptionCount == id + 1
    {
      id := subscriptionCount;
      subscriptionCount := subscriptionCount + 1;
    }

    method SubscribeControl(component: string, control: string, updater: Updater) returns (id: nat)
      modifies this
      ensures id == old(subscriptionCount)
      ensures Model() == Subscribe(old(Model()), component, control, updater)
      ensures old(Valid()) ==> Valid() && id !in old(subscriptionIdTable)
    {
      ghost var r := Model();
      id := GetNewSubscriptionId();
      var bucket := if component in subscriptions then subscriptions[component] else [];
      subscriptions := subscriptions[component := bucket + [Subscription(id, component, control, updater)]];
      subscriptionIdTable := subscriptionIdTable[id := component];
      assert Model() == Subscribe(r, component, control, updater);
      if Consistent(r) {
        SubscribeKeepsConsistent(r, component, control, updater);
        NextIdIsFresh(r);
      }
    }

    method UnsubscribeControl(subscriptionId: nat)
      modifies this
      ensures Model() == Unsubscribe(old(Model()), subscriptionId)
      ensures subscriptionId !in subscriptionIdTable
      ensures subscriptionCount == old(subscriptionCount)
      ensures old(Valid()) ==> Valid()
    {
      ghost var r := Model();
      if subscriptionId !in subscriptionIdTable {
        return;
      }
      var componentId := subscriptionIdTable[subscriptionId];
      if componentId !in subscriptions {
        // the id table named a bucket that does not exist: drop the stale entry
        subscriptionIdTable := subscriptionIdTable - {subscriptionId};
        return;
      }
      subscriptions := subscriptions[componentId := RemoveId(subscriptions[componentId], subscriptionId)];
      if |subscriptions[componentId]| == 0 {
        subscriptions := subscriptions - {componentId};
      }
      subscriptionIdTable := subscriptionIdTable - {subscriptionId};
      if Consistent(r) {
        UnsubscribeKeepsConsistent(r, subscriptionId);
      }
    }

    /**
     * Calls every matching updater for each entry of a pushed event; the
     * indices are only read. `failing` holds the subscriptions whose updater
     * throws on this event: the first such call ends the walk and `threw`
     * reports the exception escaping to the caller.
     */
    method ProcessControlEvent(event: seq<EventEntry>, failing: set<nat>) returns (deliveries: seq<Delivery>, threw: bool)
      ensures deliveries == UntilThrow(EventDeliveries(subscriptions, event), failing)
      ensures threw <==> ReachesThrower(EventDeliveries(subscriptions, event), failing)
    {
      deliveries := [];
      var n := 0;
      while n < |event|
        invariant 0 <= n <= |event|
        invariant deliveries == EventDeliveries(subscriptions, event[..n]) && !ReachesThrower(deliveries, failing)
      {
        var entry := event[n];
        var calls, bucketThrew := [], false;
        if entry.component in subscriptions {
          calls, bucketThrew := MatchBucket(subscriptions[entry.component], entry.control, failing);
        }
        if bucketThrew {
          EventStopsAt(subscriptions, event, n, failing);
          deliveries := deliveries + calls;
          threw := true;
          return;
        }
        EventStepClean(subscriptions, event, n, failing);
        deliveries := deliveries + calls;
        n := n + 1;
      }
      assert event[..n] == event;
      UntilThrowIsPrefix(deliveries, failing);
      threw := false;
    }

    /**
     * Walks every bucket once (in an order the model leaves open and reports)
     * and calls each updater with its control from the session, skipping
     * subscriptions whose control is absent. Nothing happens without a session.
     */
    method PropagateInitialValues(qrwc: Option<Session>) returns (order: seq<string>, deliveries: seq<Delivery>)
      ensures qrwc.None? ==> order == [] && deliveries == []
      ensures qrwc.Some? ==>
        && Distinct(order)
        && (forall k :: k in order <==> k in subscriptions)
        && deliveries == InitialDeliveries(qrwc.value, subscriptions, order)
    {
      order, deliveries := [], [];
      if qrwc.None? {
        return;
      }
      var g := qrwc.value;
      var keys := subscriptions.Keys;
      while keys != {}
        invariant keys <= subscriptions.Keys
        invariant forall k :: k in order ==> k in subscriptions && k !in keys
        invariant forall k :: k in subscriptions ==> k in keys || k in order
        invariant Distinct(order)
        invariant deliveries == InitialDeliveries(g, subscriptions, order)
        decreases keys
      {
        var key :| key in keys;
        var calls := DeliverBucket(g, subscriptions[key]);
        var order' := order + [key];
        assert order'[..|order|] == order && order'[|order|] == key;
        assert InitialDeliveries(g, subscriptions, order') == deliveries + calls;
        deliveries := deliveries + calls;
        order := order';
        keys := keys - {key};
      }
    }

    /**
     * One bucket's `forEach` for a pushed control: a call per subscription
     * naming that control, in bucket order, until an updater in `failing` throws.
     */
    static method MatchBucket(bucket: seq<Subscription>, ctl: Control, failing: set<nat>) returns (calls: seq<Delivery>, threw: bool)
      ensures calls == UntilThrow(Matching(bucket, ctl), failing)
      ensures threw <==> ReachesThrower(Matching(bucket, ctl), failing)
    {
      calls := [];
      var i := 0;
      while i < |bucket|
        invariant 0 <= i <= |bucket|
        invariant calls == Matching(bucket[..i], ctl) && !ReachesThrower(calls, failing)
      {
        assert bucket[..i + 1][..i] == bucket[..i];
        if ctl.name == bucket[i].control {
          var d := Delivery(bucket[i].id, bucket[i].updater, ctl);
          ReachesThrowerAppend(calls, [d], failing);
          if d.id in failing {
            MatchingAppend(bucket[..i + 1], bucket[i + 1..], ctl);
            assert bucket[..i + 1] + bucket[i + 1..] == bucket;
            assert [d][0] == d && UntilThrow([d], failing) == [d];
            StopAt(calls, [d], Matching(bucket[i + 1..], ctl), failing);
            calls := calls + [d];
            threw := true;
            return;
          }
          calls := calls + [d];
        }
        i := i + 1;
      }
      assert bucket[..i] == bucket;
      UntilThrowIsPrefix(calls, failing);
      threw := false;
    }

    /** One bucket's `forEach`: a call per subscription whose control is in the session, in bucket order. */
    static method DeliverBucket(g: Session, bucket: seq<Subscription>) returns (calls: seq<Delivery>)
      ensures calls == BucketInitial(g, bucket)
    {
      calls := [];
      var i := 0;
      while i < |bucket|
        invariant 0 <= i <= |bucket|
        invariant calls == BucketInitial(g, bucket[..i])
      {
        var sub := bucket[i];
        var controlData := Lookup(g, sub);
        if controlData.Some? {
          calls := calls + [Delivery(sub.id, sub.updater, controlData.value)];
        }
        assert bucket[..i + 1][..i] == bucket[..i];
        i := i + 1;
      }
      assert bucket[..i] == bucket;
    }

    method FlushSubscriptions()
      modifies this
      ensures Model() == Flush(old(Model()))
      ensures subscriptions == map[] && subscriptionIdTable == map[]
      ensures subscriptionCount == old(subscriptionCount)
      ensures Valid()
    {
      subscriptions := map[];
      subscriptionIdTable := map[];
    }
  }
}
