/** Routing tables: 256 buckets of at most K participant URLs each, the
    saturating insert into them, and the network map from URL to participant
    record (dht-simulation.js:5, 23-39). */
module Routing {
  import opened Seqs
  import opened Metric

  /** Bucket capacity. */
  const K: nat := 8

  type Url = string
  type Bucket = seq<Url>
  type Table = seq<Bucket>

  /** One participant: its URL, its identifier and its routing table. */
  datatype Node = Node(url: Url, id: Id, table: Table)

  /** The simulated network: every participant, keyed by URL. */
  type Network = map<Url, Node>

  /** The identifier of every participant. */
  function Ids(dht: Network): map<Url, Id>
  {
    map u | u in dht :: dht[u].id
  }

  /** Distinct participants have distinct identifiers. */
  ghost predicate Injective(ids: map<Url, Id>)
  {
    forall u, v :: u in ids && v in ids && u != v ==> ids[u] != ids[v]
  }

  /** Bucket i of the table owned by ownId holds at most K distinct URLs, each
      of a participant whose identifier falls into bucket i. */
  ghost predicate BucketInv(b: Bucket, i: int, ownId: Id, ids: map<Url, Id>)
  {
    && |b| <= K
    && Distinct(b)
    && forall v :: v in b ==> v in ids && BucketIndex(ownId, ids[v]) == i
  }

  /** The routing-table invariant for the table owned by ownId. */
  ghost predicate TableInv(t: Table, ownId: Id, ids: map<Url, Id>)
  {
    |t| == ID_LENGTH_BITS && forall i :: 0 <= i < |t| ==> BucketInv(t[i], i, ownId, ids)
  }

  /** Every URL in the table is one of keys. */
  ghost predicate RefersTo(t: Table, keys: set<Url>)
  {
    forall i :: 0 <= i < |t| ==> forall v :: v in t[i] ==> v in keys
  }

  /** The shape every operation relies on: 256 buckets per table, and every URL
      a table mentions is a participant. */
  ghost predicate WellFormed(dht: Network)
  {
    forall u :: u in dht ==> |dht[u].table| == ID_LENGTH_BITS && RefersTo(dht[u].table, dht.Keys)
  }

  /** Every table of the network satisfies the routing-table invariant. */
  ghost predicate ValidNetwork(dht: Network)
  {
    WellFormed(dht) && forall u :: u in dht ==> TableInv(dht[u].table, dht[u].id, Ids(dht))
  }

  /** All URLs of a table, bucket after bucket (`table.flat()`). */
  function Flatten(t: Table): (r: seq<Url>)
    ensures forall v :: v in r <==> exists i :: 0 <= i < |t| && v in t[i]
  {
    if t == [] then []
    else
      var rest := Flatten(t[1..]);
      assert forall v :: v in rest <==> exists i :: 1 <= i < |t| && v in t[i] by {
        forall v | v in rest ensures exists i :: 1 <= i < |t| && v in t[i] {
          var j :| 0 <= j < |t[1..]| && v in t[1..][j];
          assert v in t[j + 1];
        }
      }
      t[0] + rest
  }

  /** Every URL of a table that names only participants is a participant; in
      particular every URL a participant of a well-formed network knows of. */
  lemma KnownAreParticipants(dht: Network, t: Table)
    requires RefersTo(t, dht.Keys)
    ensures forall v :: v in Flatten(t) ==> v in Ids(dht)
  {
    forall v | v in Flatten(t) ensures v in Ids(dht) {
      var i :| 0 <= i < |t| && v in t[i];
    }
  }

  /** A fresh participant: its table has ID_LENGTH_BITS empty buckets
      (dht-simulation.js:24; the identifier is given, not hashed). */
  function CreateNode(url: Url, id: Id): (n: Node)
    ensures n.url == url && n.id == id
    ensures |n.table| == ID_LENGTH_BITS && forall v :: v !in Flatten(n.table)
    ensures forall ids :: TableInv(n.table, id, ids)
  {
    Node(url, id, seq(ID_LENGTH_BITS, _ => []))
  }

  /** Saturating insert of nodeUrl (identifier nodeId) into the table owned by
      ownId (dht-simulation.js:26-34). */
  function AddNodeToTable(table: Table, nodeUrl: Url, nodeId: Id, ownId: Id): (r: Table)
    requires |table| == ID_LENGTH_BITS
    ensures |r| == |table|
    ensures var b := BucketIndex(ownId, nodeId);
            r == table <==> (b < 0 || nodeUrl in table[b] || |table[b]| >= K)
    ensures var b := BucketIndex(ownId, nodeId);
            r != table ==> r[b] == table[b] + [nodeUrl]
    ensures forall i :: 0 <= i < |r| && i != BucketIndex(ownId, nodeId) ==> r[i] == table[i]
  {
    var b := BucketIndex(ownId, nodeId);
    if b < 0 || nodeUrl in table[b] then table
    else if |table[b]| >= K then table
    else
      var r := table[b := table[b] + [nodeUrl]];
      assert |r[b]| != |table[b]|;
      r
  }

  /** Inserting a participant twice is the same as inserting it once. */
  lemma AddNodeIdempotent(table: Table, nodeUrl: Url, nodeId: Id, ownId: Id)
    requires |table| == ID_LENGTH_BITS
    ensures var once := AddNodeToTable(table, nodeUrl, nodeId, ownId);
            AddNodeToTable(once, nodeUrl, nodeId, ownId) == once
  {
    var once := AddNodeToTable(table, nodeUrl, nodeId, ownId);
    var b := BucketIndex(ownId, nodeId);
    if once != table {
      assert nodeUrl in once[b];
    }
  }

  /** Insert keeps the routing-table invariant when nodeId is the identifier
      the network records for nodeUrl. */
  lemma AddNodePreservesInv(table: Table, nodeUrl: Url, nodeId: Id, ownId: Id, ids: map<Url, Id>)
    requires TableInv(table, ownId, ids)
    requires nodeUrl in ids && ids[nodeUrl] == nodeId
    ensures TableInv(AddNodeToTable(table, nodeUrl, nodeId, ownId), ownId, ids)
  {
    var r := AddNodeToTable(table, nodeUrl, nodeId, ownId);
    var b := BucketIndex(ownId, nodeId);
    if r != table {
      assert BucketInv(table[b], b, ownId, ids);
      DistinctAppend(table[b], nodeUrl);
      assert BucketInv(r[b], b, ownId, ids);
    }
  }

  /** Insert adds no URL other than nodeUrl. */
  lemma AddNodeRefersTo(table: Table, nodeUrl: Url, nodeId: Id, ownId: Id, keys: set<Url>)
    requires |table| == ID_LENGTH_BITS && RefersTo(table, keys) && nodeUrl in keys
    ensures RefersTo(AddNodeToTable(table, nodeUrl, nodeId, ownId), keys)
  {
  }

  /** Inserts every URL of s in order, each with the identifier ids records for
      it: the effect of a sequence of AddNodeToTable calls. */
  function InsertAll(t: Table, s: seq<Url>, ids: map<Url, Id>, ownId: Id): (r: Table)
    requires |t| == ID_LENGTH_BITS
    requires forall u :: u in s ==> u in ids
    ensures |r| == ID_LENGTH_BITS
  {
    if s == [] then t
    else
      var last := s[|s| - 1];
      AddNodeToTable(InsertAll(t, s[..|s| - 1], ids, ownId), last, ids[last], ownId)
  }

  lemma {:induction false} InsertAllPreservesInv(t: Table, s: seq<Url>, ids: map<Url, Id>, ownId: Id)
    requires TableInv(t, ownId, ids)
    requires forall u :: u in s ==> u in ids
    ensures TableInv(InsertAll(t, s, ids, ownId), ownId, ids)
  {
    if s != [] {
      var last := s[|s| - 1];
      InsertAllPreservesInv(t, s[..|s| - 1], ids, ownId);
      AddNodePreservesInv(InsertAll(t, s[..|s| - 1], ids, ownId), last, ids[last], ownId, ids);
    }
  }

  lemma {:induction false} InsertAllRefersTo(t: Table, s: seq<Url>, ids: map<Url, Id>, ownId: Id, keys: set<Url>)
    requires |t| == ID_LENGTH_BITS && RefersTo(t, keys)
    requires forall u :: u in s ==> u in ids && u in keys
    ensures RefersTo(InsertAll(t, s, ids, ownId), keys)
  {
    if s != [] {
      var last := s[|s| - 1];
      InsertAllRefersTo(t, s[..|s| - 1], ids, ownId, keys);
      AddNodeRefersTo(InsertAll(t, s[..|s| - 1], ids, ownId), last, ids[last], ownId, keys);
    }
  }

  /** Bucket saturation: inserting distinct participants that all fall into
      bucket b of a fresh table keeps exactly the first K of them, in order. */
  lemma {:induction false} BucketKeepsFirstK(s: seq<Url>, ids: map<Url, Id>, ownId: Id, b: nat)
    requires Distinct(s) && b < ID_LENGTH_BITS
    requires forall u :: u in s ==> u in ids && BucketIndex(ownId, ids[u]) == b
    ensures InsertAll(CreateNode([], ownId).table, s, ids, ownId)[b] == s[..Min(K, |s|)]
  {
    if s != [] {
      var init := CreateNode([], ownId).table;
      var p := s[..|s| - 1];
      var last := s[|s| - 1];
      assert Distinct(p);
      BucketKeepsFirstK(p, ids, ownId, b);
      var before := InsertAll(init, p, ids, ownId);
      assert before[b] == p[..Min(K, |p|)];
      if |p| < K {
        assert last !in before[b];
        assert s[..Min(K, |s|)] == p + [last];
      } else {
        assert s[..Min(K, |s|)] == p[..Min(K, |p|)];
      }
    }
  }

  /** Replace the table of participant u, keeping its URL and identifier and
      every other participant (dht-simulation.js:36-39). */
  function UpdateNodeTable(dht: Network, u: Url, newTable: Table): (r: Network)
    requires u in dht
    ensures r.Keys == dht.Keys
    ensures r[u].url == dht[u].url && r[u].id == dht[u].id && r[u].table == newTable
    ensures forall v :: v in dht && v != u ==> r[v] == dht[v]
  {
    dht[u := dht[u].(table := newTable)]
  }

  /** Writing back a participant's own table changes nothing. */
  lemma UpdateSameTable(dht: Network, u: Url)
    requires u in dht
    ensures UpdateNodeTable(dht, u, dht[u].table) == dht
  {
    assert dht[u].(table := dht[u].table) == dht[u];
  }

  /** Replacing a table keeps every identifier. */
  lemma UpdateKeepsIds(dht: Network, u: Url, newTable: Table)
    requires u in dht
    ensures Ids(UpdateNodeTable(dht, u, newTable)) == Ids(dht)
  {
  }
}
