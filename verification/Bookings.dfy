/** The hash-sharded booking store of services/data/data_service.py against one collection.

    A collection is the list of its documents in insertion order; `find_one` and `update_one`
    take the first match in that order. */
module Bookings {
  import opened Options
  import opened Lex
  import opened NewestFirst
  import opened RegionalRedis

  datatype Status = Booked | Refused | Waiting | Cancelled | Flagged

  /** `Booked`, `Refused` and `Waiting` are the statuses "approved", "rejected" and "pending". */
  datatype Booking = Booking(id: string, driver: string, vehicle: string, region: string,
                             status: Status, createdAt: string, segments: seq<Segment>)

  predicate Active(b: Booking) {
    b.status.Booked? || b.status.Waiting?
  }

  // ---------------------------------------------------------------- one collection

  function FindOne(docs: seq<Booking>, id: string): Option<Booking> {
    if docs == [] then None else if docs[0].id == id then Some(docs[0]) else FindOne(docs[1..], id)
  }

  /** `update_one` with `$set status`. */
  function SetStatus(docs: seq<Booking>, id: string, status: Status): seq<Booking> {
    if docs == [] then []
    else if docs[0].id == id then [docs[0].(status := status)] + docs[1..]
    else [docs[0]] + SetStatus(docs[1..], id, status)
  }

  function Where(docs: seq<Booking>, p: Booking -> bool): seq<Booking> {
    if docs == [] then [] else if p(docs[0]) then [docs[0]] + Where(docs[1..], p) else Where(docs[1..], p)
  }

  function FirstWhere(docs: seq<Booking>, p: Booking -> bool): Option<Booking> {
    if docs == [] then None else if p(docs[0]) then Some(docs[0]) else FirstWhere(docs[1..], p)
  }

  lemma {:induction false} FindInserted(docs: seq<Booking>, b: Booking, id: string)
    ensures FindOne(docs + [b], id)
            == if FindOne(docs, id).Some? then FindOne(docs, id) else if b.id == id then Some(b) else None
  {
    if docs == [] {
      assert [] + [b] == [b] && [b][1..] == [];
    } else {
      assert (docs + [b])[1..] == docs[1..] + [b];
      FindInserted(docs[1..], b, id);
    }
  }

  /** Document `i` is the first with this id. */
  ghost predicate FirstAt(docs: seq<Booking>, id: string, i: nat) {
    i < |docs| && docs[i].id == id && forall j: nat | j < i :: docs[j].id != id
  }

  /** The documents without their first one: what is first there. */
  lemma FirstAtTail(docs: seq<Booking>, id: string, i: nat)
    requires docs != []
    ensures FirstAt(docs, id, i) <==> if docs[0].id == id then i == 0 else i > 0 && FirstAt(docs[1..], id, i - 1)
  {
    if i > 0 && i < |docs| && docs[0].id != id {
      assert docs[1..][i - 1] == docs[i];
      if FirstAt(docs[1..], id, i - 1) {
        forall j: nat | j < i ensures docs[j].id != id {
          if j > 0 { assert docs[1..][j - 1] == docs[j]; }
        }
      }
    }
  }

  lemma {:induction false} FindOneExact(docs: seq<Booking>, id: string)
    ensures FindOne(docs, id).None? <==> forall b | b in docs :: b.id != id
    ensures forall i: nat | FirstAt(docs, id, i) :: FindOne(docs, id) == Some(docs[i])
  {
    if docs == [] {
    } else {
      FindOneExact(docs[1..], id);
      assert docs == [docs[0]] + docs[1..];
      forall i: nat | FirstAt(docs, id, i) ensures FindOne(docs, id) == Some(docs[i]) {
        FirstAtTail(docs, id, i);
      }
    }
  }

  /** An update changes the status of the first document with the id, and nothing else. */
  lemma {:induction false} SetStatusExact(docs: seq<Booking>, id: string, status: Status)
    ensures |SetStatus(docs, id, status)| == |docs|
    ensures forall i: nat | i < |docs| ::
              SetStatus(docs, id, status)[i] == if FirstAt(docs, id, i) then docs[i].(status := status) else docs[i]
  {
    if docs == [] {
    } else {
      SetStatusExact(docs[1..], id, status);
      forall i: nat | i < |docs|
        ensures SetStatus(docs, id, status)[i] == if FirstAt(docs, id, i) then docs[i].(status := status) else docs[i]
      {
        FirstAtTail(docs, id, i);
      }
    }
  }

  // ---------------------------------------------------------------- sharding

  type Hash = string -> nat

  /** `_shard_db`. */
  function ShardOf(hash: Hash, n: nat, id: string): nat
    requires n > 0
    ensures ShardOf(hash, n, id) < n
  {
    if n == 1 then 0 else hash(id) % n
  }

  /** What shard `i` of `n` holds when the whole collection is `docs`. */
  function Share(docs: seq<Booking>, hash: Hash, n: nat, i: nat): seq<Booking>
    requires n > 0
  {
    if docs == [] then []
    else if ShardOf(hash, n, docs[0].id) == i then [docs[0]] + Share(docs[1..], hash, n, i)
    else Share(docs[1..], hash, n, i)
  }

  lemma {:induction false} ShareInsert(docs: seq<Booking>, b: Booking, hash: Hash, n: nat, i: nat)
    requires n > 0
    ensures Share(docs + [b], hash, n, i)
            == Share(docs, hash, n, i) + if ShardOf(hash, n, b.id) == i then [b] else []
  {
    if docs == [] {
      assert [] + [b] == [b];
      assert [b][1..] == [];
    } else {
      assert (docs + [b])[1..] == docs[1..] + [b];
      ShareInsert(docs[1..], b, hash, n, i);
    }
  }

  /** A point lookup on the booking's own shard finds what a lookup in the whole finds. */
  lemma {:induction false} ShareFindOne(docs: seq<Booking>, hash: Hash, n: nat, id: string)
    requires n > 0
    ensures FindOne(Share(docs, hash, n, ShardOf(hash, n, id)), id) == FindOne(docs, id)
  {
    if docs == [] {
    } else {
      ShareFindOne(docs[1..], hash, n, id);
    }
  }

  /** A point update on the booking's own shard is the update of the whole, seen from any shard. */
  lemma {:induction false} ShareSetStatus(docs: seq<Booking>, hash: Hash, n: nat, id: string, status: Status, i: nat)
    requires n > 0
    ensures Share(SetStatus(docs, id, status), hash, n, i)
            == if ShardOf(hash, n, id) == i then SetStatus(Share(docs, hash, n, i), id, status)
                else Share(docs, hash, n, i)
  {
    if docs == [] {
    } else {
      var rest := SetStatus(docs, id, status)[1..];
      if docs[0].id == id {
        assert rest == docs[1..];
      } else {
        assert rest == SetStatus(docs[1..], id, status);
        ShareSetStatus(docs[1..], hash, n, id, status, i);
      }
    }
  }

  /** The documents of the first `m` shards, filtered, one shard after the other. */
  function FanOut(docs: seq<Booking>, hash: Hash, n: nat, m: nat, p: Booking -> bool): seq<Booking>
    requires n > 0
  {
    if m == 0 then [] else FanOut(docs, hash, n, m - 1, p) + Where(Share(docs, hash, n, m - 1), p)
  }

  lemma {:induction false} WhereCount(docs: seq<Booking>, p: Booking -> bool, b: Booking)
    ensures multiset(Where(docs, p))[b] == if p(b) then multiset(docs)[b] else 0
  {
    if docs == [] {
    } else {
      assert docs == [docs[0]] + docs[1..];
      WhereCount(docs[1..], p, b);
    }
  }

  lemma {:induction false} ShareCount(docs: seq<Booking>, hash: Hash, n: nat, i: nat, b: Booking)
    requires n > 0
    ensures multiset(Share(docs, hash, n, i))[b] == if ShardOf(hash, n, b.id) == i then multiset(docs)[b] else 0
  {
    if docs == [] {
    } else {
      assert docs == [docs[0]] + docs[1..];
      ShareCount(docs[1..], hash, n, i, b);
    }
  }

  lemma PartCount(docs: seq<Booking>, hash: Hash, n: nat, i: nat, p: Booking -> bool, b: Booking)
    requires n > 0
    ensures multiset(Where(Share(docs, hash, n, i), p))[b]
            == if p(b) && ShardOf(hash, n, b.id) == i then multiset(docs)[b] else 0
  {
    WhereCount(Share(docs, hash, n, i), p, b);
    ShareCount(docs, hash, n, i, b);
  }

  lemma {:induction false} FanOutCount(docs: seq<Booking>, hash: Hash, n: nat, m: nat, p: Booking -> bool, b: Booking)
    requires n > 0
    ensures multiset(FanOut(docs, hash, n, m, p))[b]
            == if p(b) && ShardOf(hash, n, b.id) < m then multiset(docs)[b] else 0
  {
    if m > 0 {
      FanOutCount(docs, hash, n, m - 1, p, b);
      PartCount(docs, hash, n, m - 1, p, b);
      CountConcat(FanOut(docs, hash, n, m - 1, p), Where(Share(docs, hash, n, m - 1), p), b);
    }
  }

  /** A fan-out over all shards returns exactly the matching documents of the whole. */
  lemma FanOutComplete(docs: seq<Booking>, hash: Hash, n: nat, p: Booking -> bool)
    requires n > 0
    ensures multiset(FanOut(docs, hash, n, n, p)) == multiset(Where(docs, p))
  {
    forall b ensures multiset(FanOut(docs, hash, n, n, p))[b] == multiset(Where(docs, p))[b] {
      FanOutCount(docs, hash, n, n, p, b);
      WhereCount(docs, p, b);
    }
  }

  lemma {:induction false} FirstWhereIff(docs: seq<Booking>, p: Booking -> bool)
    ensures FirstWhere(docs, p).Some? <==> Where(docs, p) != []
    ensures FirstWhere(docs, p).Some? ==> FirstWhere(docs, p).value in Where(docs, p)
    ensures forall b :: b in Where(docs, p) <==> b in docs && p(b)
  {
    if docs == [] {
    } else {
      assert docs == [docs[0]] + docs[1..];
      FirstWhereIff(docs[1..], p);
    }
  }

  // ---------------------------------------------------------------- newest bookings

  function Stamps(docs: seq<Booking>): (r: seq<string>)
    ensures |r| == |docs| && forall i | 0 <= i < |r| :: r[i] == docs[i].createdAt
  {
    seq(|docs|, i requires 0 <= i < |docs| => docs[i].createdAt)
  }

  lemma StampsConcat(a: seq<Booking>, b: seq<Booking>)
    ensures Stamps(a + b) == Stamps(a) + Stamps(b)
  {
  }

  lemma StampsTake(k: nat, docs: seq<Booking>)
    ensures Stamps(Take(k, docs)) == Take(k, Stamps(docs))
  {
  }

  function InsertNewest(b: Booking, docs: seq<Booking>): seq<Booking> {
    if docs == [] || Leq(docs[0].createdAt, b.createdAt) then [b] + docs else [docs[0]] + InsertNewest(b, docs[1..])
  }

  function NewestOrder(docs: seq<Booking>): seq<Booking> {
    if docs == [] then [] else InsertNewest(docs[0], NewestOrder(docs[1..]))
  }

  lemma {:induction false} InsertNewestKeeps(b: Booking, docs: seq<Booking>)
    ensures multiset(InsertNewest(b, docs)) == multiset(docs) + multiset{b}
  {
    if docs == [] {
    } else {
      assert docs == [docs[0]] + docs[1..];
      if !Leq(docs[0].createdAt, b.createdAt) { InsertNewestKeeps(b, docs[1..]); }
    }
  }

  lemma {:induction false} InsertNewestStamps(b: Booking, docs: seq<Booking>)
    ensures Stamps(InsertNewest(b, docs)) == InsertKey(b.createdAt, Stamps(docs))
  {
    if docs == [] {
    } else {
      assert Stamps(docs)[1..] == Stamps(docs[1..]);
      if !Leq(docs[0].createdAt, b.createdAt) { InsertNewestStamps(b, docs[1..]); }
    }
  }

  lemma {:induction false} NewestOrderStamps(docs: seq<Booking>)
    ensures Stamps(NewestOrder(docs)) == SortKeys(Stamps(docs))
    ensures multiset(NewestOrder(docs)) == multiset(docs)
  {
    if docs == [] {
    } else {
      assert docs == [docs[0]] + docs[1..];
      NewestOrderStamps(docs[1..]);
      InsertNewestStamps(docs[0], NewestOrder(docs[1..]));
      InsertNewestKeeps(docs[0], NewestOrder(docs[1..]));
      assert Stamps(docs)[1..] == Stamps(docs[1..]);
    }
  }

  /** A Mongo cursor limit: 0 means no limit. */
  function CursorLimit(limit: nat, docs: seq<Booking>): seq<Booking> {
    if limit == 0 then docs else Take(limit, docs)
  }

  function NewestOfShards(limit: nat, shards: seq<seq<Booking>>): seq<Booking> {
    if shards == [] then [] else CursorLimit(limit, NewestOrder(shards[0])) + NewestOfShards(limit, shards[1..])
  }

  function StampsOf(shards: seq<seq<Booking>>): seq<seq<string>> {
    if shards == [] then [] else [Stamps(shards[0])] + StampsOf(shards[1..])
  }

  lemma {:induction false} NewestOfShardsStamps(limit: nat, shards: seq<seq<Booking>>)
    requires limit > 0
    ensures Stamps(NewestOfShards(limit, shards)) == Newest(limit, StampsOf(shards))
  {
    if shards == [] {
    } else {
      NewestOfShardsStamps(limit, shards[1..]);
      NewestOrderStamps(shards[0]);
      assert StampsOf(shards)[1..] == StampsOf(shards[1..]);
      StampsTake(limit, NewestOrder(shards[0]));
      StampsConcat(Take(limit, NewestOrder(shards[0])), NewestOfShards(limit, shards[1..]));
    }
  }

  lemma {:induction false} StampsOfConcat(shards: seq<seq<Booking>>)
    ensures Concat(StampsOf(shards)) == Stamps(Concat(shards))
  {
    if shards == [] {
    } else {
      StampsOfConcat(shards[1..]);
      assert StampsOf(shards)[1..] == StampsOf(shards[1..]);
      StampsConcat(shards[0], Concat(shards[1..]));
    }
  }

  function StampedAt(t: string): Booking -> bool {
    (b: Booking) => b.createdAt == t
  }

  lemma {:induction false} StampCount(docs: seq<Booking>, t: string)
    ensures multiset(Stamps(docs))[t] == |Where(docs, StampedAt(t))|
  {
    if docs == [] {
    } else {
      var rest := docs[1..];
      StampCount(rest, t);
      assert Stamps(docs) == [docs[0].createdAt] + Stamps(rest);
      assert StampedAt(t)(docs[0]) <==> docs[0].createdAt == t;
    }
  }

  /** Collections with the same documents carry the same timestamps. */
  lemma StampsMultiset(a: seq<Booking>, b: seq<Booking>)
    requires multiset(a) == multiset(b)
    ensures multiset(Stamps(a)) == multiset(Stamps(b))
  {
    forall t ensures multiset(Stamps(a))[t] == multiset(Stamps(b))[t] {
      StampCount(a, t);
      StampCount(b, t);
      forall x ensures multiset(Where(a, StampedAt(t)))[x] == multiset(Where(b, StampedAt(t)))[x] {
        WhereCount(a, StampedAt(t), x);
        WhereCount(b, StampedAt(t), x);
      }
      assert multiset(Where(a, StampedAt(t))) == multiset(Where(b, StampedAt(t)));
      assert |multiset(Where(a, StampedAt(t)))| == |multiset(Where(b, StampedAt(t)))|;
    }
  }

  /** For every limit, the per-shard newest, merged and cut, carry the timestamps of the newest
      bookings of the whole collection, in order. */
  lemma NewestAcrossShards(limit: nat, shards: seq<seq<Booking>>, docs: seq<Booking>)
    requires multiset(Concat(shards)) == multiset(docs)
    ensures Stamps(Take(limit, NewestOrder(NewestOfShards(limit, shards)))) == Take(limit, SortKeys(Stamps(docs)))
  {
    if limit == 0 {
    } else {
      var merged := NewestOfShards(limit, shards);
      NewestOrderStamps(merged);
      NewestOfShardsStamps(limit, shards);
      DistributedNewest(limit, StampsOf(shards));
      StampsOfConcat(shards);
      StampsMultiset(Concat(shards), docs);
      SortKeysByMultiset(Stamps(Concat(shards)), Stamps(docs));
      StampsTake(limit, NewestOrder(merged));
    }
  }

  // ---------------------------------------------------------------- the store

  /** The sharded store. `all` is the single collection it stands for. */
  class BookingStore {
    const hash: Hash
    var shards: seq<seq<Booking>>
    ghost var all: seq<Booking>

    ghost predicate Valid()
      reads this
    {
      |shards| > 0 && forall i: nat | i < |shards| :: shards[i] == Share(all, hash, |shards|, i)
    }

    constructor (hash: Hash, total: nat)
      requires total > 0
      ensures Valid() && all == [] && |shards| == total && this.hash == hash
    {
      this.hash := hash;
      shards := seq(total, _ => []);
      all := [];
    }

    method InsertBooking(b: Booking)
      requires Valid()
      modifies this
      ensures Valid() && |shards| == |old(shards)|
      ensures all == old(all) + [b]
    {
      var i := ShardOf(hash, |shards|, b.id);
      forall j: nat { ShareInsert(all, b, hash, |shards|, j); }
      shards := shards[i := shards[i] + [b]];
      all := all + [b];
    }

    method GetBookingById(id: string) returns (r: Option<Booking>)
      requires Valid()
      ensures r == FindOne(all, id)
      ensures r.None? <==> forall b | b in all :: b.id != id
      ensures forall i: nat | FirstAt(all, id, i) :: r == Some(all[i])
    {
      FindOneExact(all, id);
      ShareFindOne(all, hash, |shards|, id);
      r := FindOne(shards[ShardOf(hash, |shards|, id)], id);
    }

    /** `cancel_booking_record` and `flag_booking_record`. */
    method UpdateStatus(id: string, status: Status)
      requires Valid()
      modifies this
      ensures Valid() && |shards| == |old(shards)|
      ensures all == SetStatus(old(all), id, status) && |all| == |old(all)|
      ensures forall i: nat | i < |all| ::
                all[i] == if FirstAt(old(all), id, i) then old(all)[i].(status := status) else old(all)[i]
    {
      SetStatusExact(all, id, status);
      var i := ShardOf(hash, |shards|, id);
      forall j: nat { ShareSetStatus(all, hash, |shards|, id, status, j); }
      shards := shards[i := SetStatus(shards[i], id, status)];
      all := SetStatus(all, id, status);
    }

    /** `get_bookings_by_driver` and `get_bookings_by_vehicle`. */
    method GetBookingsWhere(p: Booking -> bool) returns (results: seq<Booking>)
      requires Valid()
      ensures multiset(results) == multiset(Where(all, p))
      ensures forall b :: multiset(results)[b] == if p(b) then multiset(all)[b] else 0
    {
      results := [];
      for i := 0 to |shards|
        invariant results == FanOut(all, hash, |shards|, i, p)
      {
        results := results + Where(shards[i], p);
      }
      FanOutComplete(all, hash, |shards|, p);
      forall b { WhereCount(all, p, b); }
    }

    /** `get_vehicle_booking`: the first active booking of the first shard that has one. */
    method GetVehicleBooking(vehicle: string) returns (r: Option<Booking>)
      requires Valid()
      ensures r.Some? <==> exists b :: b in all && b.vehicle == vehicle && Active(b)
      ensures r.Some? ==> r.value in all && r.value.vehicle == vehicle && Active(r.value)
      ensures r.None? <==> forall b | b in all && b.vehicle == vehicle :: b.status in {Refused, Cancelled, Flagged}
    {
      var p := (b: Booking) => b.vehicle == vehicle && Active(b);
      for i := 0 to |shards|
        invariant FanOut(all, hash, |shards|, i, p) == []
      {
        FirstWhereIff(shards[i], p);
        var found := FirstWhere(shards[i], p);
        if found.Some? {
          FoundInWhole(i, p, found.value);
          return found;
        }
      }
      NowhereFound(p);
      r := None;
    }

    lemma NowhereFound(p: Booking -> bool)
      requires Valid() && FanOut(all, hash, |shards|, |shards|, p) == []
      ensures forall b | b in all :: !p(b)
    {
      FanOutComplete(all, hash, |shards|, p);
      FirstWhereIff(all, p);
      assert |multiset(Where(all, p))| == 0;
    }

    lemma FoundInWhole(i: nat, p: Booking -> bool, b: Booking)
      requires Valid() && i < |shards| && b in Where(shards[i], p)
      ensures b in all && p(b)
    {
      FirstWhereIff(shards[i], p);
      ShareWithin(all, hash, |shards|, i, b);
    }

    method GetAllBookings(limit: nat) returns (results: seq<Booking>)
      requires Valid()
      ensures Stamps(results) == Take(limit, SortKeys(Stamps(all)))
      ensures multiset(results) <= multiset(all)
    {
      results := [];
      var i := 0;
      assert shards[0..] == shards;
      while i < |shards|
        invariant 0 <= i <= |shards|
        invariant NewestOfShards(limit, shards) == results + NewestOfShards(limit, shards[i..])
      {
        results := results + CursorLimit(limit, NewestOrder(shards[i]));
        assert shards[i..][1..] == shards[i + 1..];
        i := i + 1;
      }
      assert results == NewestOfShards(limit, shards);
      ShardsTogether(all, hash, shards);
      NewestAcrossShards(limit, shards, all);
      NewestWithin(limit, shards);
      NewestOrderStamps(results);
      TakeWithin(limit, NewestOrder(results));
      results := Take(limit, NewestOrder(results));
    }
  }

  lemma {:induction false} ConcatSnoc(parts: seq<seq<Booking>>, m: nat)
    requires m < |parts|
    ensures Concat(parts[..m + 1]) == Concat(parts[..m]) + parts[m]
  {
    if m > 0 {
      assert parts[..m + 1][1..] == parts[1..][..m] && parts[..m][1..] == parts[1..][..m - 1];
      ConcatSnoc(parts[1..], m - 1);
    } else {
      assert parts[..1] == [parts[0]] && [parts[0]][1..] == [] && parts[..0] == [];
    }
  }

  lemma {:induction false} FanOutIsConcat(docs: seq<Booking>, hash: Hash, shards: seq<seq<Booking>>, m: nat,
      everything: Booking -> bool)
    requires m <= |shards| && shards != [] && forall b :: everything(b)
    requires forall i: nat | i < |shards| :: shards[i] == Share(docs, hash, |shards|, i)
    ensures FanOut(docs, hash, |shards|, m, everything) == Concat(shards[..m])
  {
    if m > 0 {
      FanOutIsConcat(docs, hash, shards, m - 1, everything);
      ConcatSnoc(shards, m - 1);
      WhereTrue(Share(docs, hash, |shards|, m - 1), everything);
    }
  }

  /** The shards together hold exactly the whole collection. */
  lemma ShardsTogether(docs: seq<Booking>, hash: Hash, shards: seq<seq<Booking>>)
    requires shards != [] && forall i: nat | i < |shards| :: shards[i] == Share(docs, hash, |shards|, i)
    ensures multiset(Concat(shards)) == multiset(docs)
  {
    var everything := (b: Booking) => true;
    FanOutComplete(docs, hash, |shards|, everything);
    WhereTrue(docs, everything);
    FanOutIsConcat(docs, hash, shards, |shards|, everything);
    assert shards[..|shards|] == shards;
  }

  lemma {:induction false} WhereTrue(docs: seq<Booking>, everything: Booking -> bool)
    requires forall b :: everything(b)
    ensures Where(docs, everything) == docs
  {
    if docs == [] {
    } else {
      WhereTrue(docs[1..], everything);
    }
  }

  lemma {:induction false} ShareWithin(docs: seq<Booking>, hash: Hash, n: nat, i: nat, b: Booking)
    requires n > 0 && b in Share(docs, hash, n, i)
    ensures b in docs
  {
    if docs == [] {
    } else {
      assert docs == [docs[0]] + docs[1..];
      if b != docs[0] { ShareWithin(docs[1..], hash, n, i, b); }
    }
  }

  lemma TakeWithin<T>(k: nat, s: seq<T>)
    ensures multiset(Take(k, s)) <= multiset(s)
  {
    if |s| > k { assert s == s[..k] + s[k..]; }
  }

  lemma {:induction false} NewestWithin(limit: nat, shards: seq<seq<Booking>>)
    ensures multiset(NewestOfShards(limit, shards)) <= multiset(Concat(shards))
  {
    if shards == [] {
    } else {
      NewestWithin(limit, shards[1..]);
      NewestOrderStamps(shards[0]);
      TakeWithin(limit, NewestOrder(shards[0]));
    }
  }
}
