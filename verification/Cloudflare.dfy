/** The DNS reconciler: Reconcile and upsertRecord in internal/dns/cloudflare.go, over a zone kept elsewhere. */
module Cloudflare {
  import opened Wrappers

  datatype Kind = A | AAAA

  /** A record as far as the program sets or reads it; `managed` is that its comment is the program's own. */
  datatype Record = Record(kind: Kind, name: string, content: string, proxied: bool, managed: bool)

  type Zone = map<int, Record>

  datatype Target = Target(name: string, proxied: bool)

  function Targets(base: string): seq<Target> {
    [Target("*." + base, true), Target("relay." + base, false)]
  }

  function Wanted(kind: Kind, target: Target, content: string): Record {
    Record(kind, target.name, content, target.proxied, true)
  }

  /** What listing the records of one type and name yields. */
  function Listed(zone: Zone, kind: Kind, name: string): set<int> {
    set id | id in zone && zone[id].kind == kind && zone[id].name == name
  }

  /** The program may write: there is no such record, or exactly one and it is the program's own. */
  predicate Writable(zone: Zone, kind: Kind, name: string) {
    |Listed(zone, kind, name)| <= 1 && forall id :: id in Listed(zone, kind, name) ==> zone[id].managed
  }

  /** One write: the program's own record replaced in place, or one record added. */
  ghost predicate Wrote(before: Zone, after: Zone, record: Record) {
    Writable(before, record.kind, record.name) &&
    exists id :: after == before[id := record]
        && (if Listed(before, record.kind, record.name) == {} then id !in before
             else id in Listed(before, record.kind, record.name))
  }

  datatype UpsertError = Multiple | Unmanaged | Request

  /** What becomes of a request: answered, lost on the way there, or its answer lost on the way back. */
  datatype Delivery = Answered | NotDelivered | AnswerLost

  datatype Deliveries = Deliveries(list: Delivery, write: Delivery)

  class Service {
    var zone: Zone

    constructor (zone: Zone)
      ensures this.zone == zone
    {
      this.zone := zone;
    }

    /** Add a record under an id the service chooses. */
    method Post(id: int, record: Record, delivery: Delivery) returns (ok: bool)
      requires id !in zone
      modifies this
      ensures ok == delivery.Answered? && zone == if delivery.NotDelivered? then old(zone) else old(zone)[id := record]
    {
      if !delivery.NotDelivered? {
        zone := zone[id := record];
      }
      ok := delivery.Answered?;
    }

    method Put(id: int, record: Record, delivery: Delivery) returns (ok: bool)
      requires id in zone
      modifies this
      ensures ok == delivery.Answered? && zone == if delivery.NotDelivered? then old(zone) else old(zone)[id := record]
    {
      if !delivery.NotDelivered? {
        zone := zone[id := record];
      }
      ok := delivery.Answered?;
    }

    method UpsertRecord(kind: Kind, target: Target, content: string, newId: int, deliveries: Deliveries)
        returns (r: Result<(), UpsertError>)
      requires newId !in zone
      modifies this
      ensures r.Ok? ==> Wrote(old(zone), zone, Wanted(kind, target, content))
      ensures r.Err? ==>
                || zone == old(zone)
                || (deliveries.write.AnswerLost? && Wrote(old(zone), zone, Wanted(kind, target, content)))
      ensures zone.Keys <= old(zone).Keys + {newId}
      ensures r.Ok? <==> deliveries == Deliveries(Answered, Answered) && Writable(old(zone), kind, target.name)
    {
      if !deliveries.list.Answered? {
        return Err(Request);
      }
      var listed := Listed(zone, kind, target.name);
      if |listed| > 1 {
        return Err(Multiple);
      }
      var ok;
      if |listed| == 1 {
        ghost var only := OnlyMember(listed);
        var id :| id in listed;
        assert id == only;
        if !zone[id].managed {
          return Err(Unmanaged);
        }
        ok := Put(id, Wanted(kind, target, content), deliveries.write);
      } else {
        ok := Post(newId, Wanted(kind, target, content), deliveries.write);
      }
      r := if ok then Ok(()) else Err(Request);
    }

    /** The loop over the two records; it stops at the first error. `between` is the zone after the first. */
    method Reconcile(
      kind: Kind, base: string, content: string, newId: (int, int), deliveries: (Deliveries, Deliveries))
      returns (r: Result<(), UpsertError>, ghost between: Zone)
      requires newId.0 !in zone && newId.1 !in zone && newId.0 != newId.1
      modifies this
      ensures Touched(old(zone), between, Wanted(kind, Targets(base)[0], content))
      ensures Touched(between, zone, Wanted(kind, Targets(base)[1], content))
      ensures r.Ok? ==>
                Wrote(old(zone), between, Wanted(kind, Targets(base)[0], content))
                && Wrote(between, zone, Wanted(kind, Targets(base)[1], content))
      ensures deliveries == (Deliveries(Answered, Answered), Deliveries(Answered, Answered)) ==>
                (r.Ok? <==>
                   Writable(old(zone), kind, Targets(base)[0].name)
                   && Writable(old(zone), kind, Targets(base)[1].name))
    {
      var targets := Targets(base);
      r := UpsertRecord(kind, targets[0], content, newId.0, deliveries.0);
      between := zone;
      DifferentNames(base);
      if r.Ok? {
        OtherNamesKept(old(zone), between, Wanted(kind, targets[0], content), kind, targets[1].name);
        r := UpsertRecord(kind, targets[1], content, newId.1, deliveries.1);
      }
    }
  }

  /** Nothing happened, or one write did. */
  ghost predicate Touched(before: Zone, after: Zone, record: Record) {
    after == before || Wrote(before, after, record)
  }

  lemma DifferentNames(base: string)
    ensures Targets(base)[0].name != Targets(base)[1].name
  {
    assert Targets(base)[0].name[0] == '*' && Targets(base)[1].name[0] == 'r';
  }

  lemma OtherNamesKept(before: Zone, after: Zone, record: Record, kind: Kind, name: string)
    requires Wrote(before, after, record) && (kind, name) != (record.kind, record.name)
    ensures Listed(after, kind, name) == Listed(before, kind, name)
    ensures Writable(after, kind, name) <==> Writable(before, kind, name)
    ensures forall id :: id in Listed(before, kind, name) ==> after[id] == before[id]
  {
  }

  lemma OneAfterWrite(before: Zone, after: Zone, record: Record)
    requires Wrote(before, after, record)
    ensures exists id :: Listed(after, record.kind, record.name) == {id} && after[id] == record
  {
    var id :| after == before[id := record]
        && (if Listed(before, record.kind, record.name) == {} then id !in before
             else id in Listed(before, record.kind, record.name));
    forall other | other in Listed(after, record.kind, record.name)
      ensures other == id
    {
      if other != id {
        assert {other, id} <= Listed(before, record.kind, record.name);
        assert |{other, id}| == 2;
        SubsetSize({other, id}, Listed(before, record.kind, record.name));
      }
    }
    assert id in Listed(after, record.kind, record.name);
    assert Listed(after, record.kind, record.name) == {id};
  }

  lemma OnlyMember<T>(s: set<T>) returns (x: T)
    requires |s| == 1
    ensures s == {x}
  {
    assert s != {};
    x :| x in s;
    assert |s - {x}| == 0;
  }

  lemma {:induction false} SubsetSize<T>(small: set<T>, large: set<T>)
    requires small <= large
    ensures |small| <= |large|
  {
    if x :| x in small {
      SubsetSize(small - {x}, large - {x});
    }
  }

  // ---------------------------------------------------------------- convergence

  /** The record belongs to one of the two names, of either type, and is the program's own. */
  predicate Ours(base: string, record: Record) {
    record.managed && (record.name == "*." + base || record.name == "relay." + base)
  }

  /** The zone has exactly one record of this type and name, and it is this one. */
  ghost predicate Only(zone: Zone, record: Record) {
    exists id :: id in zone && zone[id] == record && OnlyAt(zone, record, id)
  }

  ghost predicate OnlyAt(zone: Zone, record: Record, id: int) {
    forall other :: other in zone && zone[other].kind == record.kind && zone[other].name == record.name ==> other == id
  }

  /** The wildcard record is proxied, the relay record is not; both have the content and the program's comment, and
      no other record of the type has either name. */
  ghost predicate Settled(zone: Zone, kind: Kind, base: string, content: string) {
    && Only(zone, Record(kind, "*." + base, content, true, true))
    && Only(zone, Record(kind, "relay." + base, content, false, true))
  }

  lemma Member<T>(items: set<T>) returns (x: T)
    requires items != {}
    ensures x in items
  {
    x :| x in items;
  }

  lemma Singleton(items: set<int>, x: int)
    requires x in items && forall y :: y in items ==> y == x
    ensures items == {x} && |items| == 1
  {
    if items - {x} != {} {
      var y := Member(items - {x});
    }
    assert items == (items - {x}) + {x};
  }

  lemma OnlyListed(zone: Zone, record: Record)
    ensures Only(zone, record) <==> exists id :: Listed(zone, record.kind, record.name) == {id} && zone[id] == record
  {
    var listed := Listed(zone, record.kind, record.name);
    if id :| id in zone && zone[id] == record && OnlyAt(zone, record, id) {
      Singleton(listed, id);
    }
    if id :| listed == {id} && zone[id] == record {
      assert id in listed;
      forall other | other in zone && zone[other].kind == record.kind && zone[other].name == record.name
        ensures other == id
      {
        assert other in listed;
      }
    }
  }

  lemma WantedRecords(kind: Kind, base: string, content: string)
    ensures Wanted(kind, Targets(base)[0], content) == Record(kind, "*." + base, content, true, true)
    ensures Wanted(kind, Targets(base)[1], content) == Record(kind, "relay." + base, content, false, true)
  {
  }

  predicate IsAt(zone: Zone, id: int, kind: Kind, name: string) {
    id in zone && zone[id].kind == kind && zone[id].name == name
  }

  /** When a run can succeed, record by record: no record of the type and name, or a single one of the program's. */
  lemma WritableMeaning(zone: Zone, kind: Kind, name: string)
    ensures Writable(zone, kind, name) <==>
            && (forall id :: IsAt(zone, id, kind, name) ==> zone[id].managed)
            && (forall id, other :: IsAt(zone, id, kind, name) && IsAt(zone, other, kind, name) ==> id == other)
  {
    var listed := Listed(zone, kind, name);
    assert forall id :: id in listed <==> IsAt(zone, id, kind, name);
    if id, other :| id in listed && other in listed && id != other {
      assert {other, id} <= listed && |{other, id}| == 2;
      SubsetSize({other, id}, listed);
    } else {
      AtMostOne(listed);
    }
  }

  lemma AtMostOne(items: set<int>)
    requires forall x, y :: x in items && y in items ==> x == y
    ensures |items| <= 1
  {
    if items != {} {
      var x := Member(items);
      Singleton(items, x);
    }
  }

  /** A successful run settles the zone. */
  lemma SuccessSettles(before: Zone, between: Zone, after: Zone, kind: Kind, base: string, content: string)
    requires Wrote(before, between, Wanted(kind, Targets(base)[0], content))
    requires Wrote(between, after, Wanted(kind, Targets(base)[1], content))
    ensures Settled(after, kind, base, content)
  {
    DifferentNames(base);
    var first, second := Wanted(kind, Targets(base)[0], content), Wanted(kind, Targets(base)[1], content);
    OneAfterWrite(before, between, first);
    OneAfterWrite(between, after, second);
    OtherNamesKept(between, after, second, kind, first.name);
    var id :| Listed(between, kind, first.name) == {id} && between[id] == first;
    assert Listed(after, kind, first.name) == {id} && after[id] == first;
    WantedRecords(kind, base, content);
    OnlyListed(after, first);
    OnlyListed(after, second);
  }

  /** On a settled zone a run succeeds if its requests do, and changes nothing. */
  lemma SettledIsFixed(zone: Zone, after: Zone, kind: Kind, base: string, content: string, i: nat)
    requires Settled(zone, kind, base, content) && i < 2
    ensures Writable(zone, kind, Targets(base)[i].name)
    ensures Touched(zone, after, Wanted(kind, Targets(base)[i], content)) ==> after == zone
  {
    var record := Wanted(kind, Targets(base)[i], content);
    WantedRecords(kind, base, content);
    assert Only(zone, record);
    OnlyListed(zone, record);
    var id :| Listed(zone, kind, record.name) == {id} && zone[id] == record;
    assert id in Listed(zone, kind, record.name);
  }

  /** Any number of attempts, complete, partial or with lost answers, for any types and contents. */
  ghost predicate Attempts(base: string, zones: seq<Zone>) {
    zones != [] && forall i, j | 0 <= i < j < |zones| :: j == i + 1 ==> Attempt(base, zones[i], zones[j])
  }

  ghost predicate Attempt(base: string, before: Zone, after: Zone) {
    exists record :: Ours(base, record) && Touched(before, after, record)
  }

  /** Records that are not the program's own for the two names, or stand elsewhere, are never touched and never
      added. */
  lemma {:induction false} OthersUntouched(base: string, zones: seq<Zone>, id: int)
    requires Attempts(base, zones)
    ensures var first, last := zones[0], zones[|zones| - 1];
            && (id in first && !Ours(base, first[id]) ==> id in last && last[id] == first[id])
            && (id in last && !Ours(base, last[id]) ==> id in first && first[id] == last[id])
            && (id in first ==> id in last)
  {
    var n := |zones| - 1;
    if n > 0 {
      OthersUntouched(base, zones[..n], id);
      assert Attempt(base, zones[n - 1], zones[n]);
    }
  }

  /** No attempt makes a second record of a type and name. */
  lemma {:induction false} NoDuplicates(base: string, zones: seq<Zone>, kind: Kind, name: string)
    requires Attempts(base, zones)
    ensures |Listed(zones[|zones| - 1], kind, name)| <= 1
            || Listed(zones[|zones| - 1], kind, name) == Listed(zones[0], kind, name)
  {
    var n := |zones| - 1;
    if n > 0 {
      NoDuplicates(base, zones[..n], kind, name);
      assert Attempt(base, zones[n - 1], zones[n]);
      var record :| Ours(base, record) && Touched(zones[n - 1], zones[n], record);
      if Wrote(zones[n - 1], zones[n], record) {
        if (record.kind, record.name) == (kind, name) {
          OneAfterWrite(zones[n - 1], zones[n], record);
        } else {
          OtherNamesKept(zones[n - 1], zones[n], record, kind, name);
        }
      }
    }
  }

  /** Convergence: after any attempts, a successful run reaches a zone with exactly the two wanted records of the type
      and every foreign record as it was at the very beginning; what happened in between leaves no other trace. */
  lemma Converges(base: string, zones: seq<Zone>, between: Zone, after: Zone, kind: Kind, content: string, id: int)
    requires Attempts(base, zones)
    requires Wrote(zones[|zones| - 1], between, Wanted(kind, Targets(base)[0], content))
    requires Wrote(between, after, Wanted(kind, Targets(base)[1], content))
    ensures Settled(after, kind, base, content)
    ensures id in zones[0] && !Ours(base, zones[0][id]) ==> id in after && after[id] == zones[0][id]
    ensures id in after && !Ours(base, after[id]) ==> id in zones[0] && zones[0][id] == after[id]
  {
    SuccessSettles(zones[|zones| - 1], between, after, kind, base, content);
    assert Ours(base, Wanted(kind, Targets(base)[0], content)) && Ours(base, Wanted(kind, Targets(base)[1], content));
    OthersUntouched(base, zones, id);
    assert Attempts(base, [zones[|zones| - 1], between]) && Attempts(base, [between, after]);
    OthersUntouched(base, [zones[|zones| - 1], between], id);
    OthersUntouched(base, [between, after], id);
  }
}
