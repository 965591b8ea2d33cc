/**
 The indexed minion set (`MinionSet`): three hashed-unique indexes over nodes that point at shared,
 mutable `Minion` objects, proved to behave as a plain list searched from the front.
 */
module MinionRegistry {
  import opened LumiaTypes

  /** One element of the plain list: the three keys fixed at insertion, and the content of the minion. */
  datatype Entry = Entry(id: string, hostname: string, ip: string, info: MinionInfo)

  /** The three keys of the container. */
  datatype Key = ById | ByHostname | ByIp

  function KeyOf(e: Entry, k: Key): string {
    match k
    case ById => e.id
    case ByHostname => e.hostname
    case ByIp => e.ip
  }

  /** The position of the first entry whose key `k` is `v`. */
  function Scan(es: seq<Entry>, k: Key, v: string): (r: Option<nat>)
    ensures r.Some? ==> r.value < |es| && KeyOf(es[r.value], k) == v
    ensures r.None? ==> forall i | 0 <= i < |es| :: KeyOf(es[i], k) != v
  {
    if es == [] then None
    else if KeyOf(es[0], k) == v then Some(0)
    else match Scan(es[1..], k, v)
      case None => None
      case Some(i) => Some(i + 1)
  }

  /** The entry an index holds under `v`: with unique keys there is at most one. */
  ghost function Lookup(es: seq<Entry>, k: Key, v: string): (r: Option<nat>)
    ensures r.Some? ==> r.value < |es| && KeyOf(es[r.value], k) == v
    ensures r.None? ==> forall i | 0 <= i < |es| :: KeyOf(es[i], k) != v
  {
    if i: nat :| i < |es| && KeyOf(es[i], k) == v then Some(i) else None
  }

  /** The two entries share at least one key. */
  predicate Clash(e: Entry, f: Entry) {
    e.id == f.id || e.hostname == f.hostname || e.ip == f.ip
  }

  ghost predicate UniqueKeys(es: seq<Entry>) {
    forall i, j | 0 <= i < j < |es| :: !Clash(es[i], es[j])
  }

  ghost predicate Conflicts(es: seq<Entry>, e: Entry) {
    exists i :: 0 <= i < |es| && Clash(es[i], e)
  }

  /** Insertion into a container with three unique indexes: rejected as a whole on any conflict. */
  ghost function Inserted(es: seq<Entry>, e: Entry): seq<Entry> {
    if Conflicts(es, e) then es else es + [e]
  }

  lemma InsertedUnique(es: seq<Entry>, e: Entry)
    requires UniqueKeys(es)
    ensures UniqueKeys(Inserted(es, e))
  {
  }

  lemma UpdateUnique(es: seq<Entry>, i: nat, info: MinionInfo)
    requires UniqueKeys(es) && i < |es|
    ensures UniqueKeys(es[i := es[i].(info := info)])
  {
    var es' := es[i := es[i].(info := info)];
    forall a, b | 0 <= a < b < |es'| ensures !Clash(es'[a], es'[b]) {
      assert !Clash(es[a], es[b]);
    }
  }

  /** With unique keys, a lookup finds exactly the one entry that carries the key. */
  lemma LookupUnique(es: seq<Entry>, k: Key, i: nat)
    requires UniqueKeys(es) && i < |es|
    ensures Lookup(es, k, KeyOf(es[i], k)) == Some(i)
  {
    var r := Lookup(es, k, KeyOf(es[i], k));
    assert r.Some?;
    assert r.value != i ==> Clash(es[r.value], es[i]) && Clash(es[i], es[r.value]);
  }

  lemma ScanIsLookup(es: seq<Entry>, k: Key, v: string)
    requires UniqueKeys(es)
    ensures Scan(es, k, v) == Lookup(es, k, v)
  {
    var r := Scan(es, k, v);
    if r.Some? {
      LookupUnique(es, k, r.value);
    }
  }

  // ---------------------------------------------------------------- one hashed index

  /** The index maps every key of one kind to its position in the list, and nothing else. */
  ghost predicate Indexes(index: map<string, nat>, es: seq<Entry>, k: Key) {
    && (forall i | 0 <= i < |es| :: KeyOf(es[i], k) in index && index[KeyOf(es[i], k)] == i)
    && (forall v | v in index :: index[v] < |es| && KeyOf(es[index[v]], k) == v)
  }

  ghost predicate AllIndexed(es: seq<Entry>, ids: map<string, nat>, hostnames: map<string, nat>, ips: map<string, nat>) {
    Indexes(ids, es, ById) && Indexes(hostnames, es, ByHostname) && Indexes(ips, es, ByIp)
  }

  lemma IndexedUnique(es: seq<Entry>, ids: map<string, nat>, hostnames: map<string, nat>, ips: map<string, nat>)
    requires AllIndexed(es, ids, hostnames, ips)
    ensures UniqueKeys(es)
  {
    forall i, j | 0 <= i < j < |es| ensures !Clash(es[i], es[j]) {
      assert ids[KeyOf(es[i], ById)] == i && ids[KeyOf(es[j], ById)] == j;
      assert hostnames[KeyOf(es[i], ByHostname)] == i && hostnames[KeyOf(es[j], ByHostname)] == j;
      assert ips[KeyOf(es[i], ByIp)] == i && ips[KeyOf(es[j], ByIp)] == j;
    }
  }

  lemma IndexExtended(index: map<string, nat>, es: seq<Entry>, k: Key, e: Entry)
    requires Indexes(index, es, k) && KeyOf(e, k) !in index
    ensures Indexes(index[KeyOf(e, k) := |es|], es + [e], k)
  {
  }

  /** All three keys are new to their index exactly when the entry clashes with none in the list. */
  lemma FreshIffNoConflict(es: seq<Entry>, ids: map<string, nat>, hostnames: map<string, nat>, ips: map<string, nat>,
                           e: Entry)
    requires AllIndexed(es, ids, hostnames, ips)
    ensures (e.id !in ids && e.hostname !in hostnames && e.ip !in ips) <==> !Conflicts(es, e)
  {
    if e.id in ids {
      assert Clash(es[ids[e.id]], e);
    } else if e.hostname in hostnames {
      assert Clash(es[hostnames[e.hostname]], e);
    } else if e.ip in ips {
      assert Clash(es[ips[e.ip]], e);
    } else {
      forall i | 0 <= i < |es| ensures !Clash(es[i], e) {
        assert KeyOf(es[i], ById) in ids && KeyOf(es[i], ByHostname) in hostnames && KeyOf(es[i], ByIp) in ips;
      }
    }
  }

  lemma AllExtended(es: seq<Entry>, ids: map<string, nat>, hostnames: map<string, nat>, ips: map<string, nat>, e: Entry)
    requires AllIndexed(es, ids, hostnames, ips) && !Conflicts(es, e)
    ensures AllIndexed(es + [e], ids[e.id := |es|], hostnames[e.hostname := |es|], ips[e.ip := |es|])
  {
    FreshIffNoConflict(es, ids, hostnames, ips, e);
    IndexExtended(ids, es, ById, e);
    IndexExtended(hostnames, es, ByHostname, e);
    IndexExtended(ips, es, ByIp, e);
  }

  lemma IndexUpdated(index: map<string, nat>, es: seq<Entry>, k: Key, i: nat, info: MinionInfo)
    requires Indexes(index, es, k) && i < |es|
    ensures Indexes(index, es[i := es[i].(info := info)], k)
  {
    forall j | 0 <= j < |es| ensures KeyOf(es[i := es[i].(info := info)][j], k) == KeyOf(es[j], k) {
    }
  }

  /** A hashed lookup agrees with the linear scan of the list. */
  lemma IndexFinds(index: map<string, nat>, es: seq<Entry>, k: Key, v: string)
    requires Indexes(index, es, k) && UniqueKeys(es)
    ensures Lookup(es, k, v) == Scan(es, k, v) == if v in index then Some(index[v]) else None
  {
    ScanIsLookup(es, k, v);
    if v in index {
      LookupUnique(es, k, index[v]);
    }
  }

  // ---------------------------------------------------------------- the container

  /** A heap-allocated minion; handlers update its content in place. */
  class Minion {
    var info: MinionInfo

    constructor (info: MinionInfo)
      ensures this.info == info
    {
      this.info := info;
    }
  }

  /** A node of the container: its keys are copies, so updating the minion does not re-key it. */
  datatype MinionIndex = MinionIndex(id: string, hostname: string, ip: string, minion: Minion)

  /**
   `contents` is the plain list the container stands for, `minions` the objects its nodes point at. The nodes are
   kept in insertion order; the iteration order of a hashed index is unspecified.
   */
  class MinionSet {
    var nodes: seq<MinionIndex>
    var idIndex: map<string, nat>
    var hostnameIndex: map<string, nat>
    var ipIndex: map<string, nat>
    ghost var contents: seq<Entry>
    ghost var minions: set<Minion>

    ghost predicate Valid()
      reads this, minions
    {
      && |contents| == |nodes|
      && (forall i | 0 <= i < |nodes| ::
            && nodes[i].minion in minions
            && contents[i] == Entry(nodes[i].id, nodes[i].hostname, nodes[i].ip, nodes[i].minion.info))
      && (forall i, j | 0 <= i < j < |nodes| :: nodes[i].minion != nodes[j].minion)
      && AllIndexed(contents, idIndex, hostnameIndex, ipIndex)
    }

    constructor ()
      ensures Valid() && minions == {} && contents == []
    {
      nodes, idIndex, hostnameIndex, ipIndex := [], map[], map[], map[];
      contents, minions := [], {};
    }

    /** `find` on any of the three indexes. */
    method Find(k: Key, v: string) returns (r: Option<nat>)
      requires Valid()
      ensures r == Lookup(contents, k, v)
      ensures r.Some? ==> r.value < |contents|
    {
      IndexedUnique(contents, idIndex, hostnameIndex, ipIndex);
      var index := match k case ById => idIndex case ByHostname => hostnameIndex case ByIp => ipIndex;
      IndexFinds(index, contents, k, v);
      r := if v in index then Some(index[v]) else None;
    }

    /** `insert`: all three indexes change, or none does. */
    method Insert(n: MinionIndex) returns (inserted: bool)
      requires Valid() && n.minion !in minions
      modifies this
      ensures Valid()
      ensures var e := Entry(n.id, n.hostname, n.ip, n.minion.info);
              contents == Inserted(old(contents), e) && (inserted <==> !Conflicts(old(contents), e))
      ensures minions == old(minions) + (if inserted then {n.minion} else {})
      ensures !inserted ==> unchanged(this)
    {
      ghost var e := Entry(n.id, n.hostname, n.ip, n.minion.info);
      FreshIffNoConflict(contents, idIndex, hostnameIndex, ipIndex, e);
      inserted := n.id !in idIndex && n.hostname !in hostnameIndex && n.ip !in ipIndex;
      if inserted {
        AllExtended(contents, idIndex, hostnameIndex, ipIndex, e);
        idIndex, hostnameIndex, ipIndex, nodes, contents, minions :=
          idIndex[n.id := |nodes|], hostnameIndex[n.hostname := |nodes|], ipIndex[n.ip := |nodes|], nodes + [n],
          contents + [e], minions + {n.minion};
      }
    }

    /** Overwriting the content behind one node leaves every key and every other minion alone. */
    method Update(i: nat, info: MinionInfo)
      requires Valid() && i < |contents|
      modifies this`contents, minions
      ensures Valid()
      ensures contents == old(contents)[i := old(contents)[i].(info := info)]
    {
      IndexUpdated(idIndex, contents, ById, i, info);
      IndexUpdated(hostnameIndex, contents, ByHostname, i, info);
      IndexUpdated(ipIndex, contents, ByIp, i, info);
      nodes[i].minion.info := info;
      contents := contents[i := contents[i].(info := info)];
    }

    method Size() returns (n: nat)
      requires Valid()
      ensures n == |contents|
    {
      n := |nodes|;
    }

    method Get(i: nat) returns (info: MinionInfo)
      requires Valid() && i < |contents|
      ensures info == contents[i].info
    {
      info := nodes[i].minion.info;
    }
  }
}
