/** The iterative lookup of a participant for a target identifier: the
    shortlist of candidates, the rounds of up to ALPHA queries, what each
    queried participant learns and answers, and the final update of the
    querying participant's own table (dht-simulation.js:6, 51-105). */
module Lookup {
  import opened Seqs
  import opened Metric
  import opened Routing
  import opened Selector

  /** Number of shortlist entries queried per round. */
  const ALPHA: nat := 3

  datatype Option<T> = None | Some(value: T)

  /** One shortlist entry: a candidate URL and whether it has been queried. */
  datatype Entry = Entry(url: Url, queried: bool)

  /** The URLs of the shortlist, in shortlist order. */
  function Urls(s: seq<Entry>): (r: seq<Url>)
    ensures |r| == |s| && forall i :: 0 <= i < |s| ==> r[i] == s[i].url
  {
    seq(|s|, i requires 0 <= i < |s| => s[i].url)
  }

  /** No URL occurs in two entries. */
  ghost predicate UniqueUrls(s: seq<Entry>)
  {
    forall i, j :: 0 <= i < j < |s| ==> s[i].url != s[j].url
  }

  lemma UrlsAppend(s: seq<Entry>, e: Entry)
    ensures Urls(s + [e]) == Urls(s) + [e.url]
  {
  }

  lemma UniqueUrlsDistinct(s: seq<Entry>)
    ensures UniqueUrls(s) <==> Distinct(Urls(s))
  {
    var us := Urls(s);
    assert forall i :: 0 <= i < |s| ==> us[i] == s[i].url;
  }

  /** `shortlist.find(n => n.url === u)`: the index of the first entry for u. */
  function FindEntry(s: seq<Entry>, u: Url): (r: Option<nat>)
    ensures r.None? ==> forall i :: 0 <= i < |s| ==> s[i].url != u
    ensures r.Some? ==> r.value < |s| && s[r.value].url == u
                        && forall i :: 0 <= i < r.value ==> s[i].url != u
  {
    if s == [] then None
    else if s[0].url == u then Some(0)
    else
      match FindEntry(s[1..], u)
      case None => None
      case Some(k) => Some(k + 1)
  }

  /** `shortlist.filter(n => !n.queried)`: exactly the unqueried entries. */
  function Unqueried(s: seq<Entry>): (r: seq<Entry>)
    ensures forall e :: e in r <==> e in s && !e.queried
  {
    if s == [] then []
    else
      assert s == [s[0]] + s[1..];
      (if s[0].queried then [] else [s[0]]) + Unqueried(s[1..])
  }

  lemma {:induction false} UnqueriedAppend(a: seq<Entry>, b: seq<Entry>)
    ensures Unqueried(a + b) == Unqueried(a) + Unqueried(b)
  {
    if a == [] {
      assert a + b == b;
    } else {
      var t := if a[0].queried then [] else [a[0]];
      AppendTail(a, b);
      UnqueriedAppend(a[1..], b);
      AppendAssoc(t, Unqueried(a[1..]), Unqueried(b));
    }
  }

  lemma {:induction false} UnqueriedUnique(s: seq<Entry>)
    requires UniqueUrls(s)
    ensures UniqueUrls(Unqueried(s))
  {
    if s != [] {
      var rest := Unqueried(s[1..]);
      assert UniqueUrls(s[1..]);
      UnqueriedUnique(s[1..]);
      if !s[0].queried {
        forall i, j | 0 <= i < j < |[s[0]] + rest|
          ensures ([s[0]] + rest)[i].url != ([s[0]] + rest)[j].url
        {
          assert ([s[0]] + rest)[j] == rest[j - 1];
          assert rest[j - 1] in s[1..];
          if i > 0 {
            assert ([s[0]] + rest)[i] == rest[i - 1];
          }
        }
      }
    }
  }

  /** The entries queried in the next round: the first ALPHA unqueried entries
      of the shortlist (dht-simulation.js:59-60). */
  function NodesToQuery(s: seq<Entry>): (r: seq<Entry>)
    ensures |r| <= ALPHA
    ensures forall e :: e in r ==> e in s && !e.queried
    ensures r == [] <==> AllQueried(s)
    ensures UniqueUrls(s) ==> UniqueUrls(r)
  {
    var u := Unqueried(s);
    assert UniqueUrls(s) ==> UniqueUrls(u) by {
      if UniqueUrls(s) {
        UnqueriedUnique(s);
      }
    }
    u[..Min(ALPHA, |u|)]
  }

  /** The unqueried entries around position j of s. */
  lemma UnqueriedSplit(a: seq<Entry>, x: Entry, b: seq<Entry>)
    requires !x.queried
    ensures Unqueried(a + [x] + b) == Unqueried(a) + [x] + Unqueried(b)
  {
    calc {
      Unqueried(a + [x] + b);
      { assert a + [x] + b == a + ([x] + b); }
      Unqueried(a + ([x] + b));
      { UnqueriedAppend(a, [x] + b); }
      Unqueried(a) + Unqueried([x] + b);
      { UnqueriedCons(x, b); }
      Unqueried(a) + ([x] + Unqueried(b));
    }
  }

  lemma UnqueriedCons(x: Entry, s: seq<Entry>)
    requires !x.queried
    ensures Unqueried([x] + s) == [x] + Unqueried(s)
  {
    assert ([x] + s)[1..] == s;
  }

  lemma UnqueriedAt(s: seq<Entry>, j: nat)
    requires j < |s| && !s[j].queried
    ensures Unqueried(s) == Unqueried(s[..j]) + [s[j]] + Unqueried(s[j + 1..])
  {
    SplitAt(s, j);
    UnqueriedSplit(s[..j], s[j], s[j + 1..]);
  }

  lemma SplitAt(s: seq<Entry>, j: nat)
    requires j < |s|
    ensures s == s[..j] + [s[j]] + s[j + 1..]
  {
  }

  /** In a sequence with unique URLs, an element occurs at one position only. */
  lemma UniquePosition(u: seq<Entry>, p: nat, i: nat)
    requires UniqueUrls(u) && p < |u| && i < |u| && u[i] == u[p]
    ensures i == p
  {
  }

  /** An unqueried entry is chosen exactly when fewer than ALPHA unqueried
      entries precede it: the round takes unqueried entries in shortlist
      order. */
  lemma NodesToQueryOrder(s: seq<Entry>, j: nat)
    requires UniqueUrls(s) && j < |s| && !s[j].queried
    ensures s[j] in NodesToQuery(s) <==> |Unqueried(s[..j])| < ALPHA
  {
    var u := Unqueried(s);
    var p := |Unqueried(s[..j])|;
    UnqueriedAt(s, j);
    assert u[p] == s[j];
    UnqueriedUnique(s);
    var m := Min(ALPHA, |u|);
    if s[j] in u[..m] {
      var i :| 0 <= i < m && u[..m][i] == s[j];
      UniquePosition(u, p, i);
    }
    if p < m {
      assert u[..m][p] == s[j];
    }
  }

  /** `shortlistEntry.queried = true` for the entry of u, if there is one
      (dht-simulation.js:64-65). */
  function MarkQueried(s: seq<Entry>, u: Url): (r: seq<Entry>)
    ensures |r| == |s| && forall i :: 0 <= i < |s| ==> r[i].url == s[i].url
    ensures UniqueUrls(s) ==> forall i :: 0 <= i < |s| ==>
              r[i] == (if s[i].url == u then s[i].(queried := true) else s[i])
  {
    match FindEntry(s, u)
    case None => s
    case Some(k) => s[k := s[k].(queried := true)]
  }

  /** `responseNodes.forEach(...)`: appends, as unqueried entries, the URLs of
      the response that the shortlist does not hold yet (dht-simulation.js:80-84). */
  method PushMissing(shortlist: seq<Entry>, response: seq<Url>) returns (r: seq<Entry>)
    ensures |r| >= |shortlist| && r[..|shortlist|] == shortlist
    ensures forall i :: |shortlist| <= i < |r| ==> !r[i].queried && r[i].url in response
    ensures forall x :: x in response ==> x in Urls(r)
    ensures UniqueUrls(shortlist) ==> UniqueUrls(r)
  {
    r := shortlist;
    for i := 0 to |response|
      invariant |r| >= |shortlist| && r[..|shortlist|] == shortlist
      invariant forall k :: |shortlist| <= k < |r| ==> !r[k].queried && r[k].url in response[..i]
      invariant forall x :: x in response[..i] ==> x in Urls(r)
      invariant UniqueUrls(shortlist) ==> UniqueUrls(r)
    {
      var x := response[i];
      if x !in Urls(r) {
        UrlsAppend(r, Entry(x, false));
        r := r + [Entry(x, false)];
      }
      assert response[..i + 1] == response[..i] + [x];
    }
    assert response[..|response|] == response;
  }

  /** The trimmed shortlist: for every kept URL its shortlist entry, or a new
      entry flagged by whether the URL was queried (dht-simulation.js:88-91). */
  function Reattach(trimmed: seq<Url>, s: seq<Entry>, queried: set<Url>): (r: seq<Entry>)
    ensures |r| == |trimmed| && forall i :: 0 <= i < |r| ==> r[i].url == trimmed[i]
    ensures forall i :: 0 <= i < |r| && trimmed[i] in Urls(s) ==> r[i] in s
    ensures forall i :: 0 <= i < |r| && trimmed[i] !in Urls(s) ==> r[i].queried == (trimmed[i] in queried)
  {
    seq(|trimmed|, i requires 0 <= i < |trimmed| =>
      match FindEntry(s, trimmed[i])
      case Some(k) => s[k]
      case None => Entry(trimmed[i], trimmed[i] in queried))
  }

  /** The fallback entry of Reattach is never built: the trimmed URLs all come
      from the shortlist, so every trimmed entry is one of its entries. */
  lemma ReattachKeepsEntries(ids: map<Url, Id>, s: seq<Entry>, target: Id, queried: set<Url>)
    requires forall i :: 0 <= i < |s| ==> s[i].url in ids
    ensures var r := Reattach(FindKClosest(ids, Urls(s), target), s, queried);
            forall i :: 0 <= i < |r| ==> r[i] in s
  {
  }

  /** The URLs of the first j + 1 entries are those of the first j and the
      URL of entry j. */
  lemma UrlsStep(t: seq<Entry>, j: nat)
    requires j < |t|
    ensures Elems(Urls(t[..j + 1])) == Elems(Urls(t[..j])) + {t[j].url}
  {
    assert t[..j + 1] == t[..j] + [t[j]];
    UrlsAppend(t[..j], t[j]);
  }

  lemma UrlsWhole(t: seq<Entry>)
    ensures Elems(Urls(t[..|t|])) == Elems(Urls(t))
  {
    assert t[..|t|] == t;
  }

  /** `shortlist.every(n => n.queried)`: no entry is left for the filter of
      unqueried entries. */
  predicate AllQueried(s: seq<Entry>): (b: bool)
    ensures b <==> Unqueried(s) == []
  {
    assert Unqueried(s) != [] ==> Unqueried(s)[0] in s;
    forall i :: 0 <= i < |s| ==> s[i].queried
  }

  /** The network after queries to the participants in queried: each of them
      has inserted the querying participant q into its table, and nothing
      else has changed. */
  ghost function Learnt(dht: Network, q: Url, queried: set<Url>): (r: Network)
    requires WellFormed(dht) && q in dht
    ensures r.Keys == dht.Keys
  {
    map u | u in dht :: dht[u].(table := if u in queried
                                         then AddNodeToTable(dht[u].table, q, dht[q].id, dht[u].id)
                                         else dht[u].table)
  }

  /** Learning keeps the network's shape and identifiers. */
  lemma LearntWellFormed(dht: Network, q: Url, queried: set<Url>)
    requires WellFormed(dht) && q in dht
    ensures WellFormed(Learnt(dht, q, queried)) && Ids(Learnt(dht, q, queried)) == Ids(dht)
  {
    var cur := Learnt(dht, q, queried);
    forall u | u in cur
      ensures |cur[u].table| == ID_LENGTH_BITS && RefersTo(cur[u].table, cur.Keys)
    {
      AddNodeRefersTo(dht[u].table, q, dht[q].id, dht[u].id, dht.Keys);
    }
  }

  /** Querying u, not queried before, informs it of q. */
  lemma LearntStep(dht: Network, q: Url, queried: set<Url>, u: Url)
    requires WellFormed(dht) && q in dht && u in dht && u !in queried
    ensures var cur := Learnt(dht, q, queried);
            Learnt(dht, q, queried + {u})
            == UpdateNodeTable(cur, u, AddNodeToTable(cur[u].table, q, dht[q].id, cur[u].id))
  {
    var cur := Learnt(dht, q, queried);
    var t := AddNodeToTable(cur[u].table, q, dht[q].id, cur[u].id);
    var a, b := Learnt(dht, q, queried + {u}), UpdateNodeTable(cur, u, t);
    forall v | v in a ensures a[v] == b[v] {
      if v != u {
        assert a[v] == cur[v];
      }
    }
  }

  /** The answer of participant u to a query of q for the target
      (dht-simulation.js:69-78): once u has inserted q into its table, the K
      URLs closest to the target among all the URLs its table holds. */
  ghost function Response(dht: Network, q: Url, u: Url, target: Id): seq<Url>
    requires WellFormed(dht) && q in dht && u in dht
  {
    var table := AddNodeToTable(dht[u].table, q, dht[q].id, dht[u].id);
    AddNodeRefersTo(dht[u].table, q, dht[q].id, dht[u].id, dht.Keys);
    KnownAreParticipants(dht, table);
    FindKClosest(Ids(dht), Flatten(table), target)
  }

  /** Every URL that a participant of queried answers is in seen. */
  ghost predicate Heard(dht: Network, q: Url, target: Id, queried: set<Url>, seen: set<Url>)
    requires WellFormed(dht) && q in dht
  {
    forall u :: u in queried && u in dht ==> Elems(Response(dht, q, u, target)) <= seen
  }

  /** Querying the j-th entry of t adds its answer to what has been heard
      from the entries before it. */
  lemma HeardStep(dht: Network, q: Url, target: Id, t: seq<Entry>, j: nat, seen: set<Url>, seen': set<Url>)
    requires WellFormed(dht) && q in dht && j < |t| && t[j].url in dht
    requires Heard(dht, q, target, Elems(Urls(t[..j])), seen) && seen <= seen'
    requires Elems(Response(dht, q, t[j].url, target)) <= seen'
    ensures Heard(dht, q, target, Elems(Urls(t[..j + 1])), seen')
  {
    UrlsStep(t, j);
  }

  lemma HeardJoin(dht: Network, q: Url, target: Id, q1: set<Url>, s1: set<Url>, q2: set<Url>, s2: set<Url>)
    requires WellFormed(dht) && q in dht
    requires Heard(dht, q, target, q1, s1) && Heard(dht, q, target, q2, s2)
    ensures Heard(dht, q, target, q1 + q2, s1 + s2)
  {
  }

  /** Every URL answered by a participant of queried. */
  ghost function Answers(dht: Network, q: Url, target: Id, queried: set<Url>): set<Url>
    requires WellFormed(dht) && q in dht
  {
    set u, x | u in queried && u in dht && x in Response(dht, q, u, target) :: x
  }

  lemma AnswersMember(dht: Network, q: Url, target: Id, queried: set<Url>, u: Url, x: Url)
    requires WellFormed(dht) && q in dht
    requires u in queried && u in dht && x in Response(dht, q, u, target)
    ensures x in Answers(dht, q, target, queried)
  {
  }

  /** Heard says exactly that every answer is seen. */
  lemma HeardAnswers(dht: Network, q: Url, target: Id, queried: set<Url>, seen: set<Url>)
    requires WellFormed(dht) && q in dht
    ensures Heard(dht, q, target, queried, seen) <==> Answers(dht, q, target, queried) <= seen
  {
    if Answers(dht, q, target, queried) <= seen {
      forall u | u in queried && u in dht ensures Elems(Response(dht, q, u, target)) <= seen {
        forall x | x in Elems(Response(dht, q, u, target)) ensures x in seen {
          AnswersMember(dht, q, target, queried, u, x);
        }
      }
    }
  }

  /** The answers of two sets of participants are the answers of each. */
  lemma AnswersUnion(dht: Network, q: Url, target: Id, q1: set<Url>, q2: set<Url>)
    requires WellFormed(dht) && q in dht
    ensures Answers(dht, q, target, q1 + q2) == Answers(dht, q, target, q1) + Answers(dht, q, target, q2)
  {
    forall x | x in Answers(dht, q, target, q1) + Answers(dht, q, target, q2)
      ensures x in Answers(dht, q, target, q1 + q2)
    {
      if x in Answers(dht, q, target, q1) {
        var u :| u in q1 && u in dht && x in Response(dht, q, u, target);
        AnswersMember(dht, q, target, q1 + q2, u, x);
      } else {
        var u :| u in q2 && u in dht && x in Response(dht, q, u, target);
        AnswersMember(dht, q, target, q1 + q2, u, x);
      }
    }
  }

  /** The shortlist between rounds, given the URLs seen so far (the bootstrap
      URLs and every answer): unique, sorted URLs of participants, at most K
      of them, all seen, flagged exactly when queried; every queried URL has
      been seen; and a seen URL outside the shortlist is farther than each of
      K entries. */
  ghost predicate ShortlistInv(ids: map<Url, Id>, target: Id, s: seq<Entry>, queried: set<Url>, seen: set<Url>)
  {
    && UniqueUrls(s) && |s| <= K && Sorted(ids, target, Urls(s))
    && (forall i :: 0 <= i < |s| ==>
          s[i].url in ids && s[i].url in seen && (s[i].queried <==> s[i].url in queried))
    && queried <= seen && seen <= ids.Keys
    && forall v :: v in seen && v !in Urls(s) ==>
         |s| == K && forall i :: 0 <= i < |s| ==> Dist(ids, target, s[i].url) < Dist(ids, target, v)
  }

  /** Under the shortlist invariant, every URL that a queried participant
      answered is in the shortlist or farther than each of its K entries. */
  lemma HeardCovered(dht: Network, q: Url, target: Id, s: seq<Entry>, queried: set<Url>, seen: set<Url>)
    requires WellFormed(dht) && q in dht
    requires ShortlistInv(Ids(dht), target, s, queried, seen) && Heard(dht, q, target, queried, seen)
    ensures forall u, x :: u in queried && u in dht && x in Response(dht, q, u, target) && x !in Urls(s) ==>
              |s| == K && forall i :: 0 <= i < |s| ==> Dist(Ids(dht), target, s[i].url) < Dist(Ids(dht), target, x)
  {
    forall u, x | u in queried && u in dht && x in Response(dht, q, u, target) && x !in Urls(s)
      ensures x in seen
    {
      assert x in Elems(Response(dht, q, u, target));
    }
  }

  /** The shortlist s during a round that started from s0 with q0 queried:
      s0 in front with its flags tracking queried, then newly pushed,
      unqueried entries; only URLs of s0 have been queried since. */
  ghost predicate RoundInv(ids: map<Url, Id>, s0: seq<Entry>, q0: set<Url>, s: seq<Entry>, queried: set<Url>)
  {
    && |s| >= |s0| && UniqueUrls(s)
    && (forall i :: 0 <= i < |s0| ==> s[i].url == s0[i].url && (s[i].queried <==> s[i].url in queried))
    && (forall i :: |s0| <= i < |s| ==> !s[i].queried && s[i].url in ids)
    && q0 <= queried
    && forall v :: v in queried && v !in q0 ==> v in Urls(s0)
  }

  /** The shortlist the lookup starts from: the K bootstrap URLs closest to
      the target, none of them queried, with every bootstrap URL seen. */
  lemma StartInv(ids: map<Url, Id>, target: Id, bootstrap: seq<Url>, s: seq<Entry>)
    requires Injective(ids) && forall u :: u in bootstrap ==> u in ids
    requires Urls(s) == FindKClosest(ids, bootstrap, target)
    requires forall i :: 0 <= i < |s| ==> !s[i].queried
    ensures ShortlistInv(ids, target, s, {}, Elems(bootstrap))
  {
    var t := Urls(s);
    UniqueUrlsDistinct(s);
    forall v | v in Elems(bootstrap) && v !in t
      ensures |s| == K && forall i :: 0 <= i < |s| ==> Dist(ids, target, s[i].url) < Dist(ids, target, v)
    {
      forall i | 0 <= i < |s| ensures Dist(ids, target, s[i].url) < Dist(ids, target, v) {
        assert t[i] == s[i].url;
        DistSeparates(ids, target, s[i].url, v);
      }
    }
  }

  lemma RoundStart(ids: map<Url, Id>, target: Id, s: seq<Entry>, queried: set<Url>, seen: set<Url>)
    requires ShortlistInv(ids, target, s, queried, seen)
    ensures RoundInv(ids, s, queried, s, queried)
  {
  }

  lemma MarkKeepsRound(ids: map<Url, Id>, s0: seq<Entry>, q0: set<Url>, s: seq<Entry>, queried: set<Url>, k: nat)
    requires RoundInv(ids, s0, q0, s, queried) && k < |s0|
    ensures RoundInv(ids, s0, q0, MarkQueried(s, s0[k].url), queried + {s0[k].url})
  {
    var u := s0[k].url;
    var r := MarkQueried(s, u);
    assert s[k].url == u;
    forall i | 0 <= i < |s| && i != k ensures s[i].url != u {
    }
    assert forall v :: v in queried + {u} && v !in q0 ==> v in Urls(s0) by {
      assert Urls(s0)[k] == u;
    }
  }

  lemma PushKeepsRound(ids: map<Url, Id>, s0: seq<Entry>, q0: set<Url>, s: seq<Entry>, queried: set<Url>,
                       response: seq<Url>, r: seq<Entry>)
    requires RoundInv(ids, s0, q0, s, queried)
    requires forall x :: x in response ==> x in ids
    requires |r| >= |s| && r[..|s|] == s
    requires forall i :: |s| <= i < |r| ==> !r[i].queried && r[i].url in response
    requires UniqueUrls(r)
    ensures RoundInv(ids, s0, q0, r, queried)
  {
    forall i | 0 <= i < |s| ensures r[i] == s[i] {
      assert r[..|s|][i] == r[i];
    }
  }

  /** Marking an entry and appending entries loses no URL. */
  lemma MarkKeepsUrls(a: seq<Entry>, u: Url, b: seq<Entry>)
    requires |b| >= |a| && b[..|a|] == MarkQueried(a, u)
    ensures Elems(Urls(a)) <= Elems(Urls(b))
  {
    forall x | x in Elems(Urls(a)) ensures x in Elems(Urls(b)) {
      var i :| 0 <= i < |a| && Urls(a)[i] == x;
      assert b[..|a|][i] == b[i];
      assert Urls(b)[i] == x;
    }
  }

  /** After a query of u, the entries past position n that were answers of
      A and the entries u answered are all answers of A + {u}. */
  lemma PushedAnswered(dht: Network, q: Url, target: Id, n: nat, a: seq<Entry>, u: Url, b: seq<Entry>,
                       A: set<Url>)
    requires WellFormed(dht) && q in dht && u in dht
    requires n <= |a| <= |b| && b[..|a|] == MarkQueried(a, u)
    requires forall i :: n <= i < |a| ==> a[i].url in Answers(dht, q, target, A)
    requires forall i :: |a| <= i < |b| ==> b[i].url in Response(dht, q, u, target)
    ensures forall i :: n <= i < |b| ==> b[i].url in Answers(dht, q, target, A + {u})
  {
    AnswersUnion(dht, q, target, A, {u});
    forall i | n <= i < |b| ensures b[i].url in Answers(dht, q, target, A + {u}) {
      if i < |a| {
        assert b[..|a|][i] == b[i];
      } else {
        AnswersMember(dht, q, target, A + {u}, u, b[i].url);
      }
    }
  }

  /** A seen URL outside the round's starting shortlist is farther than every
      URL the trim keeps, and the trim keeps K. */
  lemma StaleIsFarther(ids: map<Url, Id>, target: Id, s0: seq<Entry>, q0: set<Url>, seen0: set<Url>,
                       s: seq<Entry>, queried: set<Url>, v: Url)
    requires ShortlistInv(ids, target, s0, q0, seen0) && RoundInv(ids, s0, q0, s, queried)
    requires v in seen0 && v !in Urls(s0)
    requires forall i :: 0 <= i < |s| ==> s[i].url in ids
    ensures var t := FindKClosest(ids, Urls(s), target);
            |t| == K && forall u :: u in t ==> Dist(ids, target, u) < Dist(ids, target, v)
  {
    var w := Elems(Urls(s0));
    UniqueUrlsDistinct(s0);
    DistinctCard(Urls(s0));
    forall x | x in w ensures x in Elems(Urls(s)) && Dist(ids, target, x) < Dist(ids, target, v) {
      var i :| 0 <= i < |s0| && Urls(s0)[i] == x;
      assert Urls(s)[i] == x;
    }
    FindKClosestBelow(ids, Urls(s), target, w, Dist(ids, target, v));
  }

  /** URLs outside the round's shortlist, and URLs pushed during the round,
      are not in the shortlist the round started from. */
  lemma NotInStart(ids: map<Url, Id>, s0: seq<Entry>, q0: set<Url>, s: seq<Entry>, queried: set<Url>, v: Url)
    requires RoundInv(ids, s0, q0, s, queried)
    requires v !in Urls(s) || exists k :: |s0| <= k < |s| && s[k].url == v
    ensures v !in Urls(s0)
  {
    forall m | 0 <= m < |s0| ensures Urls(s0)[m] != v {
      assert Urls(s)[m] == s[m].url == s0[m].url;
    }
  }

  /** Every URL of the round's shortlist is a participant. */
  lemma RoundUrls(ids: map<Url, Id>, target: Id, s0: seq<Entry>, q0: set<Url>, seen0: set<Url>,
                  s: seq<Entry>, queried: set<Url>)
    requires ShortlistInv(ids, target, s0, q0, seen0) && RoundInv(ids, s0, q0, s, queried)
    ensures forall i :: 0 <= i < |s| ==> s[i].url in ids
    ensures forall u :: u in Urls(s) ==> u in ids
  {
    forall i | 0 <= i < |s| ensures s[i].url in ids {
      if i < |s0| {
        assert s0[i].url in ids;
      }
    }
  }

  /** After the trim every entry is flagged exactly when its URL was queried. */
  lemma TrimFlags(ids: map<Url, Id>, target: Id, s0: seq<Entry>, q0: set<Url>, seen0: set<Url>,
                  s: seq<Entry>, queried: set<Url>)
    requires ShortlistInv(ids, target, s0, q0, seen0) && RoundInv(ids, s0, q0, s, queried)
    requires forall i :: 0 <= i < |s| ==> s[i].url in ids
    ensures var r := Reattach(FindKClosest(ids, Urls(s), target), s, queried);
            forall i :: 0 <= i < |r| ==> r[i].url in ids && (r[i].queried <==> r[i].url in queried)
  {
    var t := FindKClosest(ids, Urls(s), target);
    var r := Reattach(t, s, queried);
    forall i | 0 <= i < |r| ensures r[i].url in ids && (r[i].queried <==> r[i].url in queried) {
      var v := t[i];
      assert v in Urls(s);
      var k :| 0 <= k < |s| && s[k] == r[i];
      if k >= |s0| && v in queried {
        NotInStart(ids, s0, q0, s, queried, v);
        StaleIsFarther(ids, target, s0, q0, seen0, s, queried, v);
        assert false;
      }
    }
  }

  /** After the trim a URL seen before the round or during it, and left
      outside the shortlist, is farther than each of its K entries. */
  lemma TrimNoReentry(ids: map<Url, Id>, target: Id, s0: seq<Entry>, q0: set<Url>, seen0: set<Url>,
                      s: seq<Entry>, queried: set<Url>)
    requires Injective(ids)
    requires ShortlistInv(ids, target, s0, q0, seen0) && RoundInv(ids, s0, q0, s, queried)
    requires forall u :: u in Urls(s) ==> u in ids
    requires forall i :: 0 <= i < |s| ==> s[i].url in ids
    ensures var t := FindKClosest(ids, Urls(s), target);
            forall v :: v in seen0 + Elems(Urls(s)) && v !in t ==>
              |t| == K && forall u :: u in t ==> Dist(ids, target, u) < Dist(ids, target, v)
  {
    var t := FindKClosest(ids, Urls(s), target);
    forall v | v in seen0 + Elems(Urls(s)) && v !in t
      ensures |t| == K && forall u :: u in t ==> Dist(ids, target, u) < Dist(ids, target, v)
    {
      if v in Urls(s) {
        forall u | u in t ensures Dist(ids, target, u) < Dist(ids, target, v) {
          DistSeparates(ids, target, u, v);
        }
      } else {
        NotInStart(ids, s0, q0, s, queried, v);
        StaleIsFarther(ids, target, s0, q0, seen0, s, queried, v);
      }
    }
  }

  /** The trim keeps at least as many entries as the round started with. */
  lemma TrimLength(ids: map<Url, Id>, target: Id, s0: seq<Entry>, q0: set<Url>, seen0: set<Url>,
                   s: seq<Entry>, queried: set<Url>)
    requires ShortlistInv(ids, target, s0, q0, seen0) && RoundInv(ids, s0, q0, s, queried)
    requires forall i :: 0 <= i < |s| ==> s[i].url in ids
    ensures |FindKClosest(ids, Urls(s), target)| >= |s0|
  {
    UniqueUrlsDistinct(s0);
    DistinctCard(Urls(s0));
    forall x | x in Elems(Urls(s0)) ensures x in Elems(Urls(s)) {
      var m :| 0 <= m < |s0| && Urls(s0)[m] == x;
      assert Urls(s)[m] == x;
    }
    SubsetCardLe(Elems(Urls(s0)), Elems(Urls(s)));
  }

  /** Trimming at the end of a round restores the shortlist invariant, with
      every URL of the round's shortlist now seen, and never shrinks the
      shortlist. */
  lemma TrimRestores(ids: map<Url, Id>, target: Id, s0: seq<Entry>, q0: set<Url>, seen0: set<Url>,
                     s: seq<Entry>, queried: set<Url>)
    requires Injective(ids)
    requires ShortlistInv(ids, target, s0, q0, seen0) && RoundInv(ids, s0, q0, s, queried)
    ensures forall i :: 0 <= i < |s| ==> s[i].url in ids
    ensures forall u :: u in Urls(s) ==> u in ids
    ensures var r := Reattach(FindKClosest(ids, Urls(s), target), s, queried);
            ShortlistInv(ids, target, r, queried, seen0 + Elems(Urls(s))) && |r| >= |s0|
  {
    RoundUrls(ids, target, s0, q0, seen0, s, queried);
    var t := FindKClosest(ids, Urls(s), target);
    var r := Reattach(t, s, queried);
    assert Urls(r) == t;
    TrimFlags(ids, target, s0, q0, seen0, s, queried);
    TrimNoReentry(ids, target, s0, q0, seen0, s, queried);
    TrimLength(ids, target, s0, q0, seen0, s, queried);
    RoundQueriedSeen(ids, s0, q0, seen0, s, queried);
    TrimmedInv(ids, target, t, r, queried, seen0 + Elems(Urls(s)));
  }

  /** The shortlist invariant for entries r over the URLs t, from its parts. */
  lemma TrimmedInv(ids: map<Url, Id>, target: Id, t: seq<Url>, r: seq<Entry>, queried: set<Url>, seen: set<Url>)
    requires Distinct(t) && |t| <= K && Sorted(ids, target, t) && Urls(r) == t
    requires forall i :: 0 <= i < |r| ==> r[i].url in ids && (r[i].queried <==> r[i].url in queried)
    requires forall u :: u in t ==> u in seen
    requires queried <= seen && seen <= ids.Keys
    requires forall v :: v in seen && v !in t ==>
               |t| == K && forall u :: u in t ==> Dist(ids, target, u) < Dist(ids, target, v)
    ensures ShortlistInv(ids, target, r, queried, seen)
  {
    UniqueUrlsDistinct(r);
    forall i | 0 <= i < |r| ensures r[i].url in seen {
      assert t[i] == r[i].url;
    }
  }

  /** Every URL queried by the end of a round is seen once the round's
      shortlist is. */
  lemma RoundQueriedSeen(ids: map<Url, Id>, s0: seq<Entry>, q0: set<Url>, seen0: set<Url>,
                         s: seq<Entry>, queried: set<Url>)
    requires q0 <= seen0 && RoundInv(ids, s0, q0, s, queried)
    ensures queried <= seen0 + Elems(Urls(s))
  {
    forall v | v in queried ensures v in seen0 + Elems(Urls(s)) {
      if v !in q0 {
        var m :| 0 <= m < |s0| && Urls(s0)[m] == v;
        assert Urls(s)[m] == v;
      }
    }
  }

  /** A round's shortlist s adds to seen exactly the answers ans: its first
      |s0| URLs are those of s0, all seen, the rest are answers, and every
      answer is in it. */
  lemma SeenGrowsByAnswers(s0: seq<Entry>, s: seq<Entry>, seen: set<Url>, ans: set<Url>)
    requires |s| >= |s0|
    requires forall i :: 0 <= i < |s0| ==> s[i].url == s0[i].url && s0[i].url in seen
    requires forall i :: |s0| <= i < |s| ==> s[i].url in ans
    requires ans <= Elems(Urls(s))
    ensures seen + Elems(Urls(s)) == seen + ans
  {
    forall x | x in Elems(Urls(s)) ensures x in seen + ans {
      var i :| 0 <= i < |s| && Urls(s)[i] == x;
    }
  }

  /** A round that queries the participants of n keeps seen equal to the
      starting set plus every answer of what has been queried. */
  lemma SeenStep(dht: Network, q: Url, target: Id, seen0: set<Url>, queried: set<Url>, seen: set<Url>,
                 n: set<Url>, seen': set<Url>)
    requires WellFormed(dht) && q in dht
    requires seen == seen0 + Answers(dht, q, target, queried)
    requires seen' == seen + Answers(dht, q, target, n)
    ensures seen' == seen0 + Answers(dht, q, target, queried + n)
  {
    AnswersUnion(dht, q, target, queried, n);
  }

  /** What the queried participants learn keeps the routing-table invariant:
      each of them inserts q under its recorded identifier. */
  lemma LearntValid(dht: Network, q: Url, queried: set<Url>)
    requires ValidNetwork(dht) && q in dht
    ensures ValidNetwork(Learnt(dht, q, queried))
  {
    var ids, cur := Ids(dht), Learnt(dht, q, queried);
    LearntWellFormed(dht, q, queried);
    forall u | u in cur ensures TableInv(cur[u].table, cur[u].id, Ids(cur)) {
      assert TableInv(dht[u].table, dht[u].id, ids);
      AddNodePreservesInv(dht[u].table, q, dht[q].id, dht[u].id, ids);
    }
  }

  /** One query (dht-simulation.js:63-84): the entry of nodeToQueryUrl is
      marked queried, the queried participant inserts the querier into its
      table and answers with Response, and the answered URLs new to the
      shortlist are appended to it. The network before the lookup, dht, and
      the round's starting shortlist s0 and queried set q0 are ghost
      parameters that the contract is stated against. */
  method QueryNode(ghost dht: Network, currentDht: Network, shortlist: seq<Entry>, queriedUrls: set<Url>,
                   ghost s0: seq<Entry>, ghost q0: set<Url>,
                   nodeToQueryUrl: Url, queryingUrl: Url, queryingId: Id, targetId: Id)
    returns (newDht: Network, newShortlist: seq<Entry>, newQueried: set<Url>)
    requires WellFormed(dht) && queryingUrl in dht && queryingId == dht[queryingUrl].id
    requires currentDht == Learnt(dht, queryingUrl, queriedUrls)
    requires RoundInv(Ids(dht), s0, q0, shortlist, queriedUrls)
    requires nodeToQueryUrl in dht && nodeToQueryUrl in Urls(s0) && nodeToQueryUrl !in queriedUrls
    ensures newQueried == queriedUrls + {nodeToQueryUrl}
    ensures newDht == Learnt(dht, queryingUrl, newQueried)
    ensures |newShortlist| >= |shortlist| && newShortlist[..|shortlist|] == MarkQueried(shortlist, nodeToQueryUrl)
    ensures forall i :: |shortlist| <= i < |newShortlist| ==>
              !newShortlist[i].queried && newShortlist[i].url in Response(dht, queryingUrl, nodeToQueryUrl, targetId)
    ensures forall x :: x in Response(dht, queryingUrl, nodeToQueryUrl, targetId) ==> x in Urls(newShortlist)
    ensures RoundInv(Ids(dht), s0, q0, newShortlist, newQueried)
  {
    ghost var k0 :| 0 <= k0 < |s0| && Urls(s0)[k0] == nodeToQueryUrl;
    MarkKeepsRound(Ids(dht), s0, q0, shortlist, queriedUrls, k0);
    LearntWellFormed(dht, queryingUrl, queriedUrls);
    LearntStep(dht, queryingUrl, queriedUrls, nodeToQueryUrl);
    newShortlist := MarkQueried(shortlist, nodeToQueryUrl);
    newQueried := queriedUrls + {nodeToQueryUrl};

    newDht := currentDht;
    var oldTable := currentDht[nodeToQueryUrl].table;
    var newTable := AddNodeToTable(oldTable, queryingUrl, queryingId, currentDht[nodeToQueryUrl].id);
    if oldTable != newTable {
      newDht := UpdateNodeTable(currentDht, nodeToQueryUrl, newTable);
    } else {
      UpdateSameTable(currentDht, nodeToQueryUrl);
    }
    LearntWellFormed(dht, queryingUrl, newQueried);

    var knownToNode := Flatten(newDht[nodeToQueryUrl].table);
    KnownAreParticipants(newDht, newDht[nodeToQueryUrl].table);
    var responseNodes := FindKClosest(Ids(newDht), knownToNode, targetId);
    assert responseNodes == Response(dht, queryingUrl, nodeToQueryUrl, targetId);
    var pushed := PushMissing(newShortlist, responseNodes);
    PushKeepsRound(Ids(dht), s0, q0, newShortlist, newQueried, responseNodes, pushed);
    newShortlist := pushed;
  }

  /** One round of queries (dht-simulation.js:62-85): QueryNode for every
      entry of nodesToQuery, in order. Every URL answered in the round is
      in the shortlist afterwards. */
  method QueryRound(ghost dht: Network, currentDht: Network, shortlist: seq<Entry>, queriedUrls: set<Url>,
                    ghost seen: set<Url>, nodesToQuery: seq<Entry>, queryingUrl: Url, queryingId: Id, targetId: Id)
    returns (newDht: Network, newShortlist: seq<Entry>, newQueried: set<Url>)
    requires WellFormed(dht) && queryingUrl in dht && queryingId == dht[queryingUrl].id
    requires currentDht == Learnt(dht, queryingUrl, queriedUrls)
    requires ShortlistInv(Ids(dht), targetId, shortlist, queriedUrls, seen)
    requires nodesToQuery == NodesToQuery(shortlist)
    ensures newDht == Learnt(dht, queryingUrl, newQueried)
    ensures RoundInv(Ids(dht), shortlist, queriedUrls, newShortlist, newQueried)
    ensures newQueried == queriedUrls + Elems(Urls(nodesToQuery))
    ensures Heard(dht, queryingUrl, targetId, Elems(Urls(nodesToQuery)), Elems(Urls(newShortlist)))
    ensures forall i :: |shortlist| <= i < |newShortlist| ==>
              newShortlist[i].url in Answers(dht, queryingUrl, targetId, Elems(Urls(nodesToQuery)))
  {
    RoundStart(Ids(dht), targetId, shortlist, queriedUrls, seen);
    newDht, newShortlist, newQueried := currentDht, shortlist, queriedUrls;
    for j := 0 to |nodesToQuery|
      invariant newDht == Learnt(dht, queryingUrl, newQueried)
      invariant RoundInv(Ids(dht), shortlist, queriedUrls, newShortlist, newQueried)
      invariant newQueried == queriedUrls + Elems(Urls(nodesToQuery[..j]))
      invariant Heard(dht, queryingUrl, targetId, Elems(Urls(nodesToQuery[..j])), Elems(Urls(newShortlist)))
      invariant forall i :: |shortlist| <= i < |newShortlist| ==>
                  newShortlist[i].url in Answers(dht, queryingUrl, targetId, Elems(Urls(nodesToQuery[..j])))
    {
      QueryTarget(shortlist, queriedUrls, seen, Ids(dht), targetId, nodesToQuery, j);
      ghost var heard := Elems(Urls(newShortlist));
      newDht, newShortlist, newQueried :=
        QueryNext(dht, newDht, newShortlist, newQueried, shortlist, queriedUrls, nodesToQuery, j,
                  queryingUrl, queryingId, targetId);
      HeardStep(dht, queryingUrl, targetId, nodesToQuery, j, heard, Elems(Urls(newShortlist)));
    }
    UrlsWhole(nodesToQuery);
  }

  /** The j-th query of a round that started from s0 with q0 queried: the
      queried set grows by the j-th URL to query, the shortlist keeps its
      URLs and gains every URL of the answer. */
  method QueryNext(ghost dht: Network, currentDht: Network, shortlist: seq<Entry>, queriedUrls: set<Url>,
                   ghost s0: seq<Entry>, ghost q0: set<Url>, nodesToQuery: seq<Entry>, j: nat,
                   queryingUrl: Url, queryingId: Id, targetId: Id)
    returns (newDht: Network, newShortlist: seq<Entry>, newQueried: set<Url>)
    requires WellFormed(dht) && queryingUrl in dht && queryingId == dht[queryingUrl].id
    requires currentDht == Learnt(dht, queryingUrl, queriedUrls)
    requires RoundInv(Ids(dht), s0, q0, shortlist, queriedUrls)
    requires j < |nodesToQuery| && queriedUrls == q0 + Elems(Urls(nodesToQuery[..j]))
    requires nodesToQuery[j].url in dht && nodesToQuery[j].url in Urls(s0)
    requires nodesToQuery[j].url !in queriedUrls
    requires forall i :: |s0| <= i < |shortlist| ==>
               shortlist[i].url in Answers(dht, queryingUrl, targetId, Elems(Urls(nodesToQuery[..j])))
    ensures newDht == Learnt(dht, queryingUrl, newQueried)
    ensures RoundInv(Ids(dht), s0, q0, newShortlist, newQueried)
    ensures newQueried == queriedUrls + {nodesToQuery[j].url}
    ensures newQueried == q0 + Elems(Urls(nodesToQuery[..j + 1]))
    ensures Elems(Urls(shortlist)) <= Elems(Urls(newShortlist))
    ensures Elems(Response(dht, queryingUrl, nodesToQuery[j].url, targetId)) <= Elems(Urls(newShortlist))
    ensures forall i :: |s0| <= i < |newShortlist| ==>
              newShortlist[i].url in Answers(dht, queryingUrl, targetId, Elems(Urls(nodesToQuery[..j + 1])))
  {
    var nodeToQueryUrl := nodesToQuery[j].url;
    newDht, newShortlist, newQueried :=
      QueryNode(dht, currentDht, shortlist, queriedUrls, s0, q0,
                nodeToQueryUrl, queryingUrl, queryingId, targetId);
    UrlsStep(nodesToQuery, j);
    MarkKeepsUrls(shortlist, nodeToQueryUrl, newShortlist);
    PushedAnswered(dht, queryingUrl, targetId, |s0|, shortlist, nodeToQueryUrl, newShortlist,
                   Elems(Urls(nodesToQuery[..j])));
  }

  /** The j-th entry to query is a shortlist URL that is neither queried
      before the round nor earlier in the round. */
  lemma QueryTarget(s: seq<Entry>, queried: set<Url>, seen: set<Url>, ids: map<Url, Id>, target: Id,
                    t: seq<Entry>, j: nat)
    requires ShortlistInv(ids, target, s, queried, seen) && t == NodesToQuery(s) && j < |t|
    ensures t[j].url in ids && t[j].url in Urls(s) && t[j].url !in queried + Elems(Urls(t[..j]))
  {
    var k :| 0 <= k < |s| && s[k] == t[j];
    assert Urls(s)[k] == t[j].url;
    forall i | 0 <= i < j ensures Urls(t[..j])[i] != t[j].url {
      assert t[..j][i] == t[i];
    }
  }

  /** `shortlist.forEach(...)` at dht-simulation.js:98-101: inserts every
      shortlist URL, in order, into the querier's table. */
  method InsertResults(table: Table, shortlist: seq<Entry>, ids: map<Url, Id>, queryingId: Id)
    returns (finalTable: Table)
    requires |table| == ID_LENGTH_BITS
    requires forall i :: 0 <= i < |shortlist| ==> shortlist[i].url in ids
    ensures finalTable == InsertAll(table, Urls(shortlist), ids, queryingId)
  {
    finalTable := table;
    for i := 0 to |shortlist|
      invariant |finalTable| == ID_LENGTH_BITS
      invariant finalTable == InsertAll(table, Urls(shortlist)[..i], ids, queryingId)
    {
      var url := shortlist[i].url;
      assert Urls(shortlist)[..i + 1] == Urls(shortlist)[..i] + [url];
      finalTable := AddNodeToTable(finalTable, url, ids[url], queryingId);
    }
    assert Urls(shortlist)[..|shortlist|] == Urls(shortlist);
  }
  /** Nothing has been learnt before the first query. */
  lemma LearntNothing(dht: Network, q: Url)
    requires WellFormed(dht) && q in dht
    ensures Learnt(dht, q, {}) == dht
  {
  }

  /** The network a lookup leaves behind: what the queried participants
      learnt, and the querier's table with the result inserted. */
  ghost function Final(dht: Network, q: Url, queried: set<Url>, result: seq<Url>): Network
    requires WellFormed(dht) && q in dht
    requires forall u :: u in result ==> u in dht
  {
    var cur := Learnt(dht, q, queried);
    UpdateNodeTable(cur, q, InsertAll(cur[q].table, result, Ids(dht), dht[q].id))
  }

  /** Final is what the querier's table update makes of Learnt. */
  lemma FinalIs(dht: Network, q: Url, queried: set<Url>, result: seq<Url>, t: Table)
    requires WellFormed(dht) && q in dht
    requires forall u :: u in result ==> u in dht
    requires t == InsertAll(Learnt(dht, q, queried)[q].table, result, Ids(dht), dht[q].id)
    ensures UpdateNodeTable(Learnt(dht, q, queried), q, t) == Final(dht, q, queried, result)
  {
  }

  /** The final network keeps the participants, their URLs and identifiers,
      and the shape of every table. */
  lemma FinalShape(dht: Network, q: Url, queried: set<Url>, result: seq<Url>)
    requires WellFormed(dht) && q in dht
    requires forall u :: u in result ==> u in dht
    ensures var newDht := Final(dht, q, queried, result);
            && newDht.Keys == dht.Keys && Ids(newDht) == Ids(dht) && WellFormed(newDht)
            && forall u :: u in dht ==> newDht[u].url == dht[u].url
  {
    var cur := Learnt(dht, q, queried);
    var t := InsertAll(cur[q].table, result, Ids(dht), dht[q].id);
    LearntWellFormed(dht, q, queried);
    UpdateKeepsIds(cur, q, t);
    InsertAllRefersTo(cur[q].table, result, Ids(dht), dht[q].id, dht.Keys);
  }

  /** The final tables: every queried participant has inserted the querier,
      the querier has inserted the result, every other table is unchanged. */
  lemma FinalTables(dht: Network, q: Url, queried: set<Url>, result: seq<Url>)
    requires WellFormed(dht) && q in dht
    requires forall u :: u in result ==> u in dht
    ensures var newDht := Final(dht, q, queried, result);
            && (forall u :: u in dht && u != q ==>
                  newDht[u].table == if u in queried
                                     then AddNodeToTable(dht[u].table, q, dht[q].id, dht[u].id)
                                     else dht[u].table)
            && newDht[q].table == InsertAll(dht[q].table, result, Ids(dht), dht[q].id)
  {
    var cur := Learnt(dht, q, queried);
    assert cur[q].table == dht[q].table;
  }

  /** A lookup that queried nobody and found nothing leaves the network as it was. */
  lemma FinalUnchanged(dht: Network, q: Url)
    requires WellFormed(dht) && q in dht
    ensures Final(dht, q, {}, []) == dht
  {
    LearntNothing(dht, q);
    UpdateSameTable(dht, q);
  }

  /** The final network keeps the routing-table invariant. */
  lemma FinalValid(dht: Network, q: Url, queried: set<Url>, result: seq<Url>)
    requires ValidNetwork(dht) && q in dht
    requires forall u :: u in result ==> u in dht
    ensures ValidNetwork(Final(dht, q, queried, result))
  {
    var cur := Learnt(dht, q, queried);
    var t := InsertAll(cur[q].table, result, Ids(dht), dht[q].id);
    var r := UpdateNodeTable(cur, q, t);
    LearntValid(dht, q, queried);
    LearntWellFormed(dht, q, queried);
    assert TableInv(cur[q].table, dht[q].id, Ids(dht));
    InsertAllPreservesInv(cur[q].table, result, Ids(dht), dht[q].id);
    FinalShape(dht, q, queried, result);
    forall u | u in r ensures TableInv(r[u].table, r[u].id, Ids(r)) {
      if u != q {
        assert r[u] == cur[u];
      }
    }
  }

  /** The result of a lookup: the final shortlist, all of it queried. */
  lemma LookupResult(ids: map<Url, Id>, target: Id, s: seq<Entry>, queried: set<Url>, seen: set<Url>)
    requires ShortlistInv(ids, target, s, queried, seen) && AllQueried(s)
    ensures var result := Urls(s);
            && Distinct(result) && |result| <= K && Sorted(ids, target, result)
            && (forall u :: u in result ==> u in ids && u in queried)
            && (forall v :: v in seen && v !in result ==>
                  |result| == K && forall u :: u in result ==> Dist(ids, target, u) < Dist(ids, target, v))
            && forall v :: v in queried && v !in result ==>
                 |result| == K && forall u :: u in result ==> Dist(ids, target, u) < Dist(ids, target, v)
  {
    UniqueUrlsDistinct(s);
    var result := Urls(s);
    forall v | v in seen && v !in result
      ensures |result| == K && forall u :: u in result ==> Dist(ids, target, u) < Dist(ids, target, v)
    {
      forall u | u in result ensures Dist(ids, target, u) < Dist(ids, target, v) {
        var i :| 0 <= i < |s| && result[i] == u;
      }
    }
  }

  /** One iteration of the lookup loop (dht-simulation.js:59-95): query the
      round's nodes, then trim the shortlist back to the K URLs closest to
      the target, keeping each entry's queried flag. The ghost newSeen adds
      the round's shortlist, and so every answer of the round, to seen. The
      invariant holds again and at least one more participant has been
      queried. */
  method LookupRound(ghost dht: Network, currentDht: Network, shortlist: seq<Entry>, queriedUrls: set<Url>,
                     ghost seen: set<Url>, nodesToQuery: seq<Entry>, queryingUrl: Url, queryingId: Id, targetId: Id)
    returns (newDht: Network, newShortlist: seq<Entry>, newQueried: set<Url>, ghost newSeen: set<Url>)
    requires WellFormed(dht) && queryingUrl in dht && queryingId == dht[queryingUrl].id
    requires Injective(Ids(dht))
    requires currentDht == Learnt(dht, queryingUrl, queriedUrls)
    requires ShortlistInv(Ids(dht), targetId, shortlist, queriedUrls, seen)
    requires Heard(dht, queryingUrl, targetId, queriedUrls, seen)
    requires nodesToQuery == NodesToQuery(shortlist) && nodesToQuery != []
    ensures newDht == Learnt(dht, queryingUrl, newQueried)
    ensures ShortlistInv(Ids(dht), targetId, newShortlist, newQueried, newSeen)
    ensures Heard(dht, queryingUrl, targetId, newQueried, newSeen) && seen <= newSeen
    ensures newQueried == queriedUrls + Elems(Urls(nodesToQuery))
    ensures newSeen == seen + Answers(dht, queryingUrl, targetId, Elems(Urls(nodesToQuery)))
    ensures forall u, x :: u in newQueried && u in dht && x in Response(dht, queryingUrl, u, targetId)
                           && x !in Urls(newShortlist) ==>
              |newShortlist| == K && forall i :: 0 <= i < |newShortlist| ==>
                Dist(Ids(dht), targetId, newShortlist[i].url) < Dist(Ids(dht), targetId, x)
    ensures |newShortlist| >= |shortlist|
    ensures queriedUrls < newQueried
    ensures |dht.Keys - newQueried| < |dht.Keys - queriedUrls|
  {
    ghost var ids := Ids(dht);
    var roundDht, roundShortlist, roundQueried :=
      QueryRound(dht, currentDht, shortlist, queriedUrls, seen, nodesToQuery, queryingUrl, queryingId, targetId);
    TrimRestores(ids, targetId, shortlist, queriedUrls, seen, roundShortlist, roundQueried);
    LearntWellFormed(dht, queryingUrl, roundQueried);
    assert nodesToQuery[0] in shortlist;
    assert Urls(nodesToQuery)[0] == nodesToQuery[0].url;
    DiffShrinks(dht.Keys, queriedUrls, roundQueried, nodesToQuery[0].url);
    newSeen := seen + Elems(Urls(roundShortlist));
    HeardAnswers(dht, queryingUrl, targetId, Elems(Urls(nodesToQuery)), Elems(Urls(roundShortlist)));
    SeenGrowsByAnswers(shortlist, roundShortlist, seen,
                       Answers(dht, queryingUrl, targetId, Elems(Urls(nodesToQuery))));
    HeardJoin(dht, queryingUrl, targetId, queriedUrls, seen, Elems(Urls(nodesToQuery)), Elems(Urls(roundShortlist)));
    assert Ids(roundDht) == ids;
    var allShortlistUrls := Urls(roundShortlist);
    newShortlist := Reattach(FindKClosest(Ids(roundDht), allShortlistUrls, targetId), roundShortlist, roundQueried);
    newDht, newQueried := roundDht, roundQueried;
    HeardCovered(dht, queryingUrl, targetId, newShortlist, newQueried, newSeen);
  }

  /** The end of a lookup (dht-simulation.js:98-104): the querier inserts
      every URL of the final shortlist into its own table; the result is
      the shortlist's URLs. */
  method FinishLookup(ghost dht: Network, currentDht: Network, shortlist: seq<Entry>, ghost queriedUrls: set<Url>,
                      queryingUrl: Url, queryingId: Id)
    returns (newDht: Network, result: seq<Url>)
    requires WellFormed(dht) && queryingUrl in dht && queryingId == dht[queryingUrl].id
    requires currentDht == Learnt(dht, queryingUrl, queriedUrls)
    requires forall i :: 0 <= i < |shortlist| ==> shortlist[i].url in dht
    ensures result == Urls(shortlist) && |result| == |shortlist|
    ensures forall u :: u in result ==> u in dht
    ensures newDht == Final(dht, queryingUrl, queriedUrls, result)
  {
    LearntWellFormed(dht, queryingUrl, queriedUrls);
    var finalTable := InsertResults(currentDht[queryingUrl].table, shortlist, Ids(currentDht), queryingId);
    FinalIs(dht, queryingUrl, queriedUrls, Urls(shortlist), finalTable);
    newDht := UpdateNodeTable(currentDht, queryingUrl, finalTable);
    result := Urls(shortlist);
  }

  /** The loop of `runLookup` (dht-simulation.js:59-96): rounds of queries
      until a round finds nothing to query or every shortlist entry has
      been queried. The ghost newSeen holds seen and every answer heard. */
  method LookupLoop(ghost dht: Network, currentDht: Network, shortlist: seq<Entry>, queriedUrls: set<Url>,
                    ghost seen: set<Url>, queryingUrl: Url, queryingId: Id, targetId: Id)
    returns (newDht: Network, newShortlist: seq<Entry>, newQueried: set<Url>, ghost newSeen: set<Url>)
    requires WellFormed(dht) && queryingUrl in dht && queryingId == dht[queryingUrl].id
    requires Injective(Ids(dht))
    requires currentDht == Learnt(dht, queryingUrl, queriedUrls)
    requires ShortlistInv(Ids(dht), targetId, shortlist, queriedUrls, seen)
    requires Heard(dht, queryingUrl, targetId, queriedUrls, seen)
    ensures newDht == Learnt(dht, queryingUrl, newQueried)
    ensures ShortlistInv(Ids(dht), targetId, newShortlist, newQueried, newSeen) && AllQueried(newShortlist)
    ensures Heard(dht, queryingUrl, targetId, newQueried, newSeen)
    ensures newSeen == seen + Answers(dht, queryingUrl, targetId, newQueried)
    ensures |newShortlist| >= |shortlist| && queriedUrls <= newQueried && seen <= newSeen
    ensures shortlist == [] ==> newShortlist == [] && newQueried == queriedUrls && newSeen == seen
  {
    newDht, newShortlist, newQueried, newSeen := currentDht, shortlist, queriedUrls, seen;
    HeardAnswers(dht, queryingUrl, targetId, queriedUrls, seen);
    while true
      invariant newDht == Learnt(dht, queryingUrl, newQueried)
      invariant ShortlistInv(Ids(dht), targetId, newShortlist, newQueried, newSeen)
      invariant Heard(dht, queryingUrl, targetId, newQueried, newSeen)
      invariant newSeen == seen + Answers(dht, queryingUrl, targetId, newQueried)
      invariant |newShortlist| >= |shortlist| && queriedUrls <= newQueried && seen <= newSeen
      invariant shortlist == [] ==> newShortlist == [] && newQueried == queriedUrls && newSeen == seen
      decreases |dht.Keys - newQueried|
    {
      var nodesToQuery := NodesToQuery(newShortlist);
      if |nodesToQuery| == 0 {
        break;
      }
      ghost var before, seenBefore := newQueried, newSeen;
      newDht, newShortlist, newQueried, newSeen :=
        LookupRound(dht, newDht, newShortlist, newQueried, newSeen, nodesToQuery, queryingUrl, queryingId, targetId);
      SeenStep(dht, queryingUrl, targetId, seen, before, seenBefore, Elems(Urls(nodesToQuery)), newSeen);
      if AllQueried(newShortlist) {
        break;
      }
    }
  }

  /** `runLookup`: the iterative lookup by queryingUrl for targetId, starting
      from bootstrapUrls (dht-simulation.js:51-105). Each round queries the
      first ALPHA unqueried shortlist entries (QueryRound); the shortlist is
      then trimmed back to the K closest. The lookup ends when every
      shortlist entry has been queried, and the querier then inserts the
      result into its own table. The ghost result queried is the set of
      participants queried, and seen holds every bootstrap URL and every
      URL a queried participant answered (Heard). No seen URL left out of
      the result is as close as any returned one. The network left behind
      is Final, whose properties FinalShape, FinalTables, FinalUnchanged and
      FinalValid state. */
  method RunLookup(dht: Network, queryingUrl: Url, targetId: Id, bootstrapUrls: seq<Url>)
    returns (newDht: Network, result: seq<Url>, ghost queried: set<Url>, ghost seen: set<Url>)
    requires WellFormed(dht) && queryingUrl in dht
    requires forall u :: u in bootstrapUrls ==> u in dht
    requires Injective(Ids(dht))
    ensures forall u :: u in result ==> u in dht
    ensures forall u :: u in result ==> u in queried
    ensures queried <= seen && seen <= dht.Keys
    ensures Elems(bootstrapUrls) <= seen && Heard(dht, queryingUrl, targetId, queried, seen)
    ensures seen == Elems(bootstrapUrls) + Answers(dht, queryingUrl, targetId, queried)
    ensures Elems(result) <= seen
    ensures newDht == Final(dht, queryingUrl, queried, result)
    ensures Distinct(result) && |result| <= K && Sorted(Ids(dht), targetId, result)
    ensures forall v :: v in seen && v !in result ==>
              |result| == K && forall u :: u in result ==> Dist(Ids(dht), targetId, u) < Dist(Ids(dht), targetId, v)
    ensures forall v :: v in queried && v !in result ==>
              |result| == K && forall u :: u in result ==> Dist(Ids(dht), targetId, u) < Dist(Ids(dht), targetId, v)
    ensures |result| >= |FindKClosest(Ids(dht), bootstrapUrls, targetId)|
    ensures bootstrapUrls == [] ==> result == [] && queried == {} && seen == {}
  {
    var queryingId := dht[queryingUrl].id;
    var initial := FindKClosest(Ids(dht), bootstrapUrls, targetId);
    var shortlist := seq(|initial|, i requires 0 <= i < |initial| => Entry(initial[i], false));
    assert Urls(shortlist) == initial;
    StartInv(Ids(dht), targetId, bootstrapUrls, shortlist);
    LearntNothing(dht, queryingUrl);
    var currentDht, queriedUrls;
    ghost var seenUrls;
    currentDht, shortlist, queriedUrls, seenUrls :=
      LookupLoop(dht, dht, shortlist, {}, Elems(bootstrapUrls), queryingUrl, queryingId, targetId);
    newDht, result := FinishLookup(dht, currentDht, shortlist, queriedUrls, queryingUrl, queryingId);
    queried, seen := queriedUrls, seenUrls;
    LookupResult(Ids(dht), targetId, shortlist, queried, seen);
    assert bootstrapUrls == [] ==> Elems(bootstrapUrls) == {};
  }
}
