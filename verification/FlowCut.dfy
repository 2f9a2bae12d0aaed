// The panel evaluates its node query and its edge query separately, and with ties at the limit the
// two may keep different pairs. Exactly when every edge still finds its nodes.
module FlowCut {
  import opened SetSizes
  import opened Strings
  import opened FlowGraph

  // ---------------------------------------------------------------- what a choice may and must hold

  ghost function Heavier(all: set<Pair>, p: Pair): set<Pair> {
    set q | q in all && q.bytes > p.bytes
  }

  ghost function AtLeast(all: set<Pair>, p: Pair): set<Pair> {
    set q | q in all && q.bytes >= p.bytes
  }

  // The pairs with fewer than n strictly heavier ones.
  ghost function May(all: set<Pair>, n: nat): set<Pair> {
    set p | p in all && |Heavier(all, p)| < n
  }

  // The pairs with at most n pairs that are as heavy, themselves counted.
  ghost function Must(all: set<Pair>, n: nat): set<Pair> {
    set p | p in all && |AtLeast(all, p)| <= n
  }

  ghost function Size(all: set<Pair>, n: nat): nat {
    if |all| <= n then |all| else n
  }

  lemma ChosenMay(chosen: seq<Pair>, all: set<Pair>, n: nat, p: Pair)
    requires Heaviest(chosen, all, n) && p in chosen
    ensures p in May(all, n)
  {
    ElementCount(chosen);
    SubsetSize(Heavier(all, p) + {p}, Elements(chosen));
  }

  lemma MustChosen(chosen: seq<Pair>, all: set<Pair>, n: nat, p: Pair)
    requires Heaviest(chosen, all, n) && p in Must(all, n)
    ensures p in chosen
  {
    if p !in chosen {
      ElementCount(chosen);
      SubsetSize(Elements(chosen) + {p}, AtLeast(all, p));
      SubsetSize(Elements(chosen) + {p}, all);
    }
  }

  lemma {:induction false} Listing<T>(c: set<T>) returns (s: seq<T>)
    ensures forall i, j | 0 <= i < j < |s| :: s[i] != s[j]
    ensures |s| == |c| && forall p :: p in s <==> p in c
    decreases |c|
  {
    if c == {} {
      s := [];
    } else {
      var p :| p in c;
      var rest := Listing(c - {p});
      s := rest + [p];
    }
  }

  // Any set between the two, of the right size, is what some evaluation keeps.
  lemma Choice(c: set<Pair>, all: set<Pair>, n: nat) returns (chosen: seq<Pair>)
    requires Must(all, n) <= c <= May(all, n) && |c| == Size(all, n)
    ensures Heaviest(chosen, all, n) && forall p :: p in chosen <==> p in c
  {
    chosen := Listing(c);
    forall p, q | p in chosen && q in all && q !in chosen ensures q.bytes <= p.bytes {
      if q.bytes > p.bytes {
        SubsetSize(AtLeast(all, q), Heavier(all, p));
      }
    }
  }

  lemma {:induction false} Between<T>(low: set<T>, high: set<T>, k: nat) returns (c: set<T>)
    requires low <= high && |low| <= k <= |high|
    ensures low <= c <= high && |c| == k
    decreases k - |low|
  {
    if |low| == k {
      c := low;
    } else {
      var p := Extra(low, high);
      c := Between(low + {p}, high, k);
    }
  }

  lemma Extra<T>(low: set<T>, high: set<T>) returns (p: T)
    requires low <= high && |low| < |high|
    ensures p in high && p !in low
  {
    if high <= low {
      SubsetSize(high, low);
    }
    p :| p in high && p !in low;
  }

  // ---------------------------------------------------------------- endpoints

  datatype Endpoint = Host(host: string) | Network(asn: string)

  predicate Carries(p: Pair, x: Endpoint) {
    match x
    case Host(host) => p.host == host
    case Network(asn) => p.asn == asn
  }

  ghost function Without(pairs: set<Pair>, x: Endpoint): set<Pair> {
    set p | p in pairs && !Carries(p, x)
  }

  // A pair every evaluation keeps carries the endpoint, or there are too few others to do without.
  ghost predicate Secure(all: set<Pair>, n: nat, x: Endpoint) {
    (exists p | p in Must(all, n) :: Carries(p, x)) || |Without(May(all, n), x)| < Size(all, n)
  }

  ghost predicate Shown(nodes: seq<Pair>, x: Endpoint) {
    exists q | q in nodes :: Carries(q, x)
  }

  lemma ResolvesByEndpoints(edges: seq<Pair>, nodes: seq<Pair>)
    ensures Resolves(edges, nodes) <==> forall p, x | p in edges && Carries(p, x) :: Shown(nodes, x)
  {
    ResolvesByPairs(edges, nodes);
    forall p | p in edges
      ensures p.host in Hosts(nodes) <==> Shown(nodes, Host(p.host))
      ensures (exists q | q in nodes :: q.asn == p.asn) <==> Shown(nodes, Network(p.asn))
    {
      HostCarried(nodes, p.host);
      NetworkCarried(nodes, p.asn);
    }
    forall p, x | p in edges && Carries(p, x) ensures x == Host(p.host) || x == Network(p.asn) {
    }
    forall p | p in edges ensures Carries(p, Host(p.host)) && Carries(p, Network(p.asn)) {
    }
  }

  lemma HostCarried(nodes: seq<Pair>, host: string)
    ensures host in Hosts(nodes) <==> Shown(nodes, Host(host))
  {
    if host in Hosts(nodes) {
      var i :| 0 <= i < |nodes| && Hosts(nodes)[i] == host;
      assert nodes[i] in nodes && Carries(nodes[i], Host(host));
    }
    if Shown(nodes, Host(host)) {
      var q :| q in nodes && Carries(q, Host(host));
      var i :| 0 <= i < |nodes| && nodes[i] == q;
      assert Hosts(nodes)[i] == host;
    }
  }

  lemma NetworkCarried(nodes: seq<Pair>, asn: string)
    ensures (exists q | q in nodes :: q.asn == asn) <==> Shown(nodes, Network(asn))
  {
    if q :| q in nodes && q.asn == asn {
      assert Carries(q, Network(asn));
    }
    if Shown(nodes, Network(asn)) {
      var q :| q in nodes && Carries(q, Network(asn));
    }
  }

  // ---------------------------------------------------------------- the exact condition

  lemma SecureShown(nodes: seq<Pair>, all: set<Pair>, n: nat, x: Endpoint)
    requires Heaviest(nodes, all, n) && Secure(all, n, x)
    ensures Shown(nodes, x)
  {
    if p :| p in Must(all, n) && Carries(p, x) {
      MustChosen(nodes, all, n, p);
    } else if !Shown(nodes, x) {
      ElementCount(nodes);
      forall p | p in Elements(nodes) ensures p in Without(May(all, n), x) {
        ChosenMay(nodes, all, n, p);
      }
      SubsetSize(Elements(nodes), Without(May(all, n), x));
    }
  }

  lemma MustFits(all: set<Pair>, n: nat, p: Pair)
    requires p in May(all, n) && p !in Must(all, n)
    ensures Must(all, n) + {p} <= May(all, n) && |Must(all, n) + {p}| <= Size(all, n)
  {
    forall m | m in Must(all, n) ensures m in Heavier(all, p) && m in May(all, n) {
      if m.bytes <= p.bytes {
        SubsetSize(AtLeast(all, p), AtLeast(all, m));
      }
      SubsetSize(Heavier(all, m) + {m}, AtLeast(all, m));
    }
    SubsetSize(Must(all, n), Heavier(all, p));
    SubsetSize(Must(all, n) + {p}, all);
  }

  // An endpoint that is not secure can be missed: one evaluation keeps a pair that carries it,
  // another keeps none.
  lemma ExposedDangles(all: set<Pair>, n: nat, p: Pair, x: Endpoint) returns (edges: seq<Pair>, nodes: seq<Pair>)
    requires p in May(all, n) && Carries(p, x) && !Secure(all, n, x)
    ensures Heaviest(edges, all, n) && Heaviest(nodes, all, n) && !Resolves(edges, nodes)
  {
    var must, may, without := Must(all, n), May(all, n), Without(May(all, n), x);
    MustFits(all, n, p);
    SubsetSize(without, may);
    SubsetSize(must, must + {p});
    var a := Between(must + {p}, may, Size(all, n));
    var b := Between(must, without, Size(all, n));
    edges := Choice(a, all, n);
    nodes := Choice(b, all, n);
    assert p in edges && !Shown(nodes, x);
    ResolvesByEndpoints(edges, nodes);
  }

  // Whatever pairs the two evaluations keep, no edge dangles, if and only if both endpoints of every
  // pair that can be kept are secure.
  ghost predicate AlwaysResolves(all: set<Pair>, n: nat) {
    forall edges, nodes | Heaviest(edges, all, n) && Heaviest(nodes, all, n) :: Resolves(edges, nodes)
  }

  lemma SeparateQueriesExactly(all: set<Pair>, n: nat)
    ensures AlwaysResolves(all, n)
       <==> forall p | p in May(all, n) :: Secure(all, n, Host(p.host)) && Secure(all, n, Network(p.asn))
  {
    if forall p | p in May(all, n) :: Secure(all, n, Host(p.host)) && Secure(all, n, Network(p.asn)) {
      forall edges, nodes | Heaviest(edges, all, n) && Heaviest(nodes, all, n) ensures Resolves(edges, nodes) {
        SecureResolves(edges, nodes, all, n);
      }
    } else {
      var p :| p in May(all, n) && !(Secure(all, n, Host(p.host)) && Secure(all, n, Network(p.asn)));
      var x := if Secure(all, n, Host(p.host)) then Network(p.asn) else Host(p.host);
      var edges, nodes := ExposedDangles(all, n, p, x);
    }
  }

  lemma SecureResolves(edges: seq<Pair>, nodes: seq<Pair>, all: set<Pair>, n: nat)
    requires Heaviest(edges, all, n) && Heaviest(nodes, all, n)
    requires forall p | p in May(all, n) :: Secure(all, n, Host(p.host)) && Secure(all, n, Network(p.asn))
    ensures Resolves(edges, nodes)
  {
    forall p, x | p in edges && Carries(p, x) ensures Shown(nodes, x) {
      ChosenMay(edges, all, n, p);
      EndpointShown(nodes, all, n, p, x);
    }
    ResolvesByEndpoints(edges, nodes);
  }

  lemma EndpointShown(nodes: seq<Pair>, all: set<Pair>, n: nat, p: Pair, x: Endpoint)
    requires Heaviest(nodes, all, n) && Carries(p, x)
    requires Secure(all, n, Host(p.host)) && Secure(all, n, Network(p.asn))
    ensures Shown(nodes, x)
  {
    SecureShown(nodes, all, n, Host(p.host));
    SecureShown(nodes, all, n, Network(p.asn));
  }

  // In particular no edge dangles when nothing is cut off, or the cut falls between different totals.
  lemma CleanCutResolves(all: set<Pair>, n: nat)
    requires May(all, n) == Must(all, n)
    ensures AlwaysResolves(all, n)
  {
    forall p | p in May(all, n) ensures Secure(all, n, Host(p.host)) && Secure(all, n, Network(p.asn)) {
      assert Carries(p, Host(p.host)) && Carries(p, Network(p.asn));
    }
    SeparateQueriesExactly(all, n);
  }

  // ---------------------------------------------------------------- a tie at the limit

  function Tied(i: nat): Pair {
    Pair(Decimal(i), Decimal(i), "AS" + Decimal(i), 5.0, 1)
  }

  // n pairs of equal weight from the i-th on, each with a host and a network of its own.
  function TiedFrom(first: nat, n: nat): seq<Pair> {
    seq(n, i requires 0 <= i < n => Tied(first + i))
  }

  lemma TiedDistinct(i: nat, j: nat)
    ensures Tied(i).host == Tied(j).host ==> i == j
  {
    DecimalRoundTrip(i);
    DecimalRoundTrip(j);
  }

  lemma TiedChoice(first: nat, n: nat)
    requires first <= 1
    ensures Heaviest(TiedFrom(first, n), Elements(TiedFrom(0, n + 1)), n)
  {
    var all, chosen := TiedFrom(0, n + 1), TiedFrom(first, n);
    forall i: nat, j: nat | i < j < |all| ensures all[i] != all[j] {
      TiedDistinct(i, j);
      assert all[i] == Tied(i) && all[j] == Tied(j);
    }
    ElementCount(all);
    forall i: nat, j: nat | i < j < |chosen| ensures chosen[i] != chosen[j] {
      TiedDistinct(first + i, first + j);
      assert chosen[i] == Tied(first + i) && chosen[j] == Tied(first + j);
    }
    forall p | p in chosen ensures p in all {
      var i :| 0 <= i < |chosen| && chosen[i] == p;
      assert chosen[i] == Tied(first + i) == all[first + i];
    }
    forall p | p in all ensures p.bytes == 5.0 {
      var i :| 0 <= i < |all| && all[i] == p;
      assert all[i] == Tied(i);
    }
    assert forall p :: p in Elements(all) <==> p in all;
  }

  // One pair too many, all of equal weight: the edge of the first dangles in the nodes of the others,
  // for every limit, the query's 60 included.
  lemma TieDangles(n: nat)
    requires n >= 1
    ensures Heaviest(TiedFrom(0, n), Elements(TiedFrom(0, n + 1)), n)
    ensures Heaviest(TiedFrom(1, n), Elements(TiedFrom(0, n + 1)), n)
    ensures !Resolves(TiedFrom(0, n), TiedFrom(1, n))
  {
    TiedChoice(0, n);
    TiedChoice(1, n);
    var edges, nodes := TiedFrom(0, n), TiedFrom(1, n);
    assert edges[0] == Tied(0);
    forall i: nat | i < |nodes| ensures Hosts(nodes)[i] != Tied(0).host {
      TiedDistinct(0, 1 + i);
    }
    ResolvesByPairs(edges, nodes);
  }
}
