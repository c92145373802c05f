/**
 * The `Search` collection the handlers of app.js read and write, held in
 * memory. A record has the fields of the schema in models/Search.js; its
 * `searchedAt` stamp comes from the store's own clock, which ticks on every
 * insert, so records are stored oldest first with strictly increasing stamps.
 */
module SearchStore {
  import opened Base

  datatype Record = Record(ip: string, country: string, city: string, isp: string, searchedAt: nat)

  /** Stamps strictly increase along the sequence: insertion order is creation order. */
  ghost predicate OldestFirst(s: seq<Record>)
  {
    forall i, j :: 0 <= i < j < |s| ==> s[i].searchedAt < s[j].searchedAt
  }

  /** Stamps strictly decrease along the sequence, as `sort({ searchedAt: -1 })` delivers them. */
  ghost predicate NewestFirst(h: seq<Record>)
  {
    forall i, j :: 0 <= i < j < |h| ==> h[i].searchedAt > h[j].searchedAt
  }

  /** Some stored record has address `ip` (what `findOne({ ip })` finds). */
  predicate HasIp(s: seq<Record>, ip: string)
  {
    exists k :: 0 <= k < |s| && s[k].ip == ip
  }

  /** No two records share an address. */
  ghost predicate DistinctIps(s: seq<Record>)
  {
    forall i, j :: 0 <= i < j < |s| ==> s[i].ip != s[j].ip
  }

  /** The number of records with address `ip`. */
  function CountIp(s: seq<Record>, ip: string): nat
  {
    if s == [] then 0 else (if s[0].ip == ip then 1 else 0) + CountIp(s[1..], ip)
  }

  /** The records whose address is not `ip`, in stored order. */
  function Others(s: seq<Record>, ip: string): seq<Record>
  {
    if s == [] then [] else (if s[0].ip != ip then [s[0]] else []) + Others(s[1..], ip)
  }

  lemma {:induction false} CountOthersAppend(s: seq<Record>, t: seq<Record>, ip: string)
    ensures CountIp(s + t, ip) == CountIp(s, ip) + CountIp(t, ip)
    ensures Others(s + t, ip) == Others(s, ip) + Others(t, ip)
  {
    if s != [] {
      assert (s + t)[1..] == s[1..] + t;
      CountOthersAppend(s[1..], t, ip);
    } else {
      assert s + t == t;
    }
  }

  lemma {:induction false} CountZeroIffAbsent(s: seq<Record>, ip: string)
    ensures CountIp(s, ip) == 0 <==> !HasIp(s, ip)
  {
    if s != [] {
      CountZeroIffAbsent(s[1..], ip);
      if HasIp(s[1..], ip) {
        var k :| 0 <= k < |s[1..]| && s[1..][k].ip == ip;
        assert s[k + 1].ip == ip;
      }
      if HasIp(s, ip) && s[0].ip != ip {
        var k :| 0 <= k < |s| && s[k].ip == ip;
        assert s[1..][k - 1].ip == ip;
      }
    }
  }

  /** Position of the first record with address `ip`, or `|s|` when there is none. */
  function FirstIndexOf(s: seq<Record>, ip: string): (k: nat)
    ensures k <= |s|
    ensures k < |s| <==> HasIp(s, ip)
    ensures k < |s| ==> s[k].ip == ip
    ensures forall j :: 0 <= j < k ==> s[j].ip != ip
  {
    if s == [] then 0
    else if s[0].ip == ip then 0
    else
      var k := 1 + FirstIndexOf(s[1..], ip);
      assert HasIp(s, ip) ==> HasIp(s[1..], ip) by {
        if HasIp(s, ip) {
          var j :| 0 <= j < |s| && s[j].ip == ip;
          assert s[1..][j - 1].ip == ip;
        }
      }
      k
  }

  /** `deleteOne({ ip })`: drop the first record with address `ip`, if any. */
  function DeleteFirst(s: seq<Record>, ip: string): (t: seq<Record>)
    ensures !HasIp(s, ip) ==> t == s
    ensures HasIp(s, ip) ==> |t| == |s| - 1
  {
    var k := FirstIndexOf(s, ip);
    if k < |s| then s[..k] + s[k + 1..] else s
  }

  /**
   * Deleting by address removes exactly one record with that address when
   * there is one, and leaves every record with another address in place and
   * in order.
   */
  lemma DeleteOneRemovesOneMatch(s: seq<Record>, ip: string)
    ensures Others(DeleteFirst(s, ip), ip) == Others(s, ip)
    ensures CountIp(DeleteFirst(s, ip), ip) == if CountIp(s, ip) == 0 then 0 else CountIp(s, ip) - 1
    ensures multiset(DeleteFirst(s, ip)) <= multiset(s)
  {
    CountZeroIffAbsent(s, ip);
    var k := FirstIndexOf(s, ip);
    if k < |s| {
      var before, after := s[..k], s[k + 1..];
      assert s == before + [s[k]] + after;
      CountOthersAppend(before + [s[k]], after, ip);
      CountOthersAppend(before, [s[k]], ip);
      CountOthersAppend(before, after, ip);
      assert Others([s[k]], ip) == [] && CountIp([s[k]], ip) == 1;
    }
  }

  lemma DeleteFirstKeepsOrder(s: seq<Record>, ip: string)
    requires OldestFirst(s)
    ensures OldestFirst(DeleteFirst(s, ip))
    ensures forall r :: r in DeleteFirst(s, ip) ==> r in s
  {
  }

  /** `if (!findOne({ ip: rec.ip })) create(rec)` */
  function InsertIfAbsent(s: seq<Record>, rec: Record): (t: seq<Record>)
    ensures HasIp(t, rec.ip)
    ensures HasIp(s, rec.ip) ==> t == s
    ensures !HasIp(s, rec.ip) ==> t == s + [rec]
  {
    if HasIp(s, rec.ip) then s else (assert (s + [rec])[|s|] == rec; s + [rec])
  }

  /**
   * Conditional insertion leaves exactly one record for a new address, no
   * new record for a known one, and the records of other addresses alone.
   */
  lemma InsertIfAbsentCounts(s: seq<Record>, rec: Record)
    ensures CountIp(InsertIfAbsent(s, rec), rec.ip) == if CountIp(s, rec.ip) == 0 then 1 else CountIp(s, rec.ip)
    ensures Others(InsertIfAbsent(s, rec), rec.ip) == Others(s, rec.ip)
  {
    CountZeroIffAbsent(s, rec.ip);
    if !HasIp(s, rec.ip) {
      CountOthersAppend(s, [rec], rec.ip);
      assert CountIp([rec], rec.ip) == 1 && Others([rec], rec.ip) == [];
    }
  }

  /** A second lookup of the same address stores nothing more. */
  lemma RepeatedInsertStoresOnce(s: seq<Record>, first: Record, second: Record)
    requires first.ip == second.ip
    ensures InsertIfAbsent(InsertIfAbsent(s, first), second) == InsertIfAbsent(s, first)
  {
  }

  /** Conditional insertion never creates a second record for an address. */
  lemma InsertIfAbsentKeepsDistinct(s: seq<Record>, rec: Record)
    requires DistinctIps(s)
    ensures DistinctIps(InsertIfAbsent(s, rec))
  {
  }

  /** The `limit` most recent records, newest first, of a store kept oldest first. */
  function Newest(s: seq<Record>, limit: nat): (h: seq<Record>)
    ensures |h| == if |s| < limit then |s| else limit
    ensures forall k :: 0 <= k < |h| ==> h[k] == s[|s| - 1 - k]
  {
    if s == [] || limit == 0 then [] else [s[|s| - 1]] + Newest(s[..|s| - 1], limit - 1)
  }

  /**
   * `find().sort({ searchedAt: -1 }).limit(n)` on a store kept oldest first:
   * the listing is ordered newest first, every listed record is stored, and
   * every record left out is older than every record listed.
   */
  lemma NewestListing(s: seq<Record>, limit: nat)
    requires OldestFirst(s)
    ensures NewestFirst(Newest(s, limit))
    ensures forall r :: r in Newest(s, limit) ==> r in s
    ensures forall i, k :: 0 <= i < |s| - |Newest(s, limit)| && 0 <= k < |Newest(s, limit)| ==>
              s[i].searchedAt < Newest(s, limit)[k].searchedAt
  {
  }

  /** The collection itself. */
  class Search {
    var records: seq<Record>
    var clock: nat

    ghost predicate Valid()
      reads this
    {
      && OldestFirst(records)
      && forall k :: 0 <= k < |records| ==> records[k].searchedAt < clock
    }

    constructor ()
      ensures Valid() && records == [] && clock == 0
    {
      records, clock := [], 0;
    }

    /** `findOne({ ip })`: the first stored record with that address. */
    function FindOne(ip: string): (found: Option<Record>)
      reads this
      ensures found.Some? <==> HasIp(records, ip)
      ensures found.Some? ==> found.value.ip == ip && found.value in records
    {
      var k := FirstIndexOf(records, ip);
      if k < |records| then Some(records[k]) else None
    }

    /** `find().sort({ searchedAt: -1 }).limit(limit)` */
    function FindNewest(limit: nat): (h: seq<Record>)
      requires Valid()
      reads this
      ensures |h| == if |records| < limit then |records| else limit
      ensures NewestFirst(h)
      ensures forall r :: r in h ==> r in records
      ensures forall i, k :: 0 <= i < |records| - |h| && 0 <= k < |h| ==>
                records[i].searchedAt < h[k].searchedAt
    {
      NewestListing(records, limit);
      Newest(records, limit)
    }

    /** `create({ ip, country, city, isp })`, stamped with the current time. */
    method Create(ip: string, country: string, city: string, isp: string) returns (doc: Record)
      requires Valid()
      modifies this
      ensures Valid()
      ensures doc == Record(ip, country, city, isp, old(clock))
      ensures records == old(records) + [doc] && clock == old(clock) + 1
    {
      doc := Record(ip, country, city, isp, clock);
      records := records + [doc];
      clock := clock + 1;
    }

    /** `deleteOne({ ip })`, answering how many records went. */
    method DeleteOne(ip: string) returns (deletedCount: nat)
      requires Valid()
      modifies this
      ensures Valid()
      ensures records == DeleteFirst(old(records), ip) && clock == old(clock)
      ensures deletedCount == if HasIp(old(records), ip) then 1 else 0
    {
      DeleteFirstKeepsOrder(records, ip);
      deletedCount := if HasIp(records, ip) then 1 else 0;
      records := DeleteFirst(records, ip);
    }

    /** `deleteMany({})`, answering how many records went. */
    method DeleteMany() returns (deletedCount: nat)
      requires Valid()
      modifies this
      ensures Valid()
      ensures records == [] && clock == old(clock)
      ensures deletedCount == |old(records)|
    {
      deletedCount := |records|;
      records := [];
    }
  }
}
