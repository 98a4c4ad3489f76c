/** A cluster of Raft nodes (src/raft.c) over a network that loses, delays and
    reorders messages and delivers each sent message at most once.

    `sent` lists every message ever sent; `gone` holds the positions already
    delivered or lost.  A run is any sequence of `Event`s.  Membership is fixed
    and logs are not compacted. */
module RaftCluster {
  import opened RaftNode

  datatype Cluster = Cluster(nodes: seq<Node>, sent: seq<Msg>, gone: set<nat>)

  datatype Event =
    | TickNode(node: nat)
    | SubmitTo(node: nat, command: int)
    | ReadAt(node: nat)
    | Deliver(msg: nat)
    | Lose(msg: nat)
    | Restart(node: nat)

  predicate InFlight(c: Cluster, k: nat) {
    k < |c.sent| && k !in c.gone
  }

  function Put(c: Cluster, v: nat, a: Node): Cluster
    requires v < |c.nodes|
  {
    c.(nodes := c.nodes[v := a])
  }

  function Send(c: Cluster, ms: seq<Msg>): Cluster {
    c.(sent := c.sent + ms)
  }

  function Gone(c: Cluster, k: nat): Cluster {
    c.(gone := c.gone + {k})
  }

  function Step(c: Cluster, e: Event): Cluster {
    match e
    case TickNode(v) =>
      if v >= |c.nodes| then c else var (a, out) := Tick(c.nodes[v]); Send(Put(c, v, a), out)
    case SubmitTo(v, x) =>
      if v >= |c.nodes| then c else Put(c, v, Submit(c.nodes[v], x).0)
    case ReadAt(v) =>
      if v >= |c.nodes| then c else var (a, out, _) := ReadIndex(c.nodes[v]); Send(Put(c, v, a), out)
    case Deliver(k) =>
      if !InFlight(c, k) || c.sent[k].to >= |c.nodes| then c
      else var v := c.sent[k].to; var (a, out) := Receive(c.nodes[v], c.sent[k]); Send(Put(Gone(c, k), v, a), out)
    case Lose(k) => if InFlight(c, k) then Gone(c, k) else c
    case Restart(v) => if v >= |c.nodes| then c else Put(c, v, CrashRestart(c.nodes[v]))
  }

  /** A cluster as raft_init leaves it; timeouts may differ per node. */
  predicate Fresh(c: Cluster) {
    && 0 < |c.nodes|
    && c.sent == []
    && c.gone == {}
    && forall i | 0 <= i < |c.nodes| ::
         var r := c.nodes[i];
         |c.nodes| <= r.lim.maxNodes && r == Init(i, |c.nodes|, r.lim, r.electionTimeout, r.heartbeatTimeout)
  }

  function Run(c: Cluster, es: seq<Event>): Cluster
    decreases |es|
  {
    if es == [] then c else Step(Run(c, es[..|es| - 1]), es[|es| - 1])
  }

  lemma {:induction false} RunJoin(c: Cluster, xs: seq<Event>, ys: seq<Event>)
    ensures Run(c, xs + ys) == Run(Run(c, xs), ys)
    decreases |ys|
  {
    if ys == [] {
      assert xs + ys == xs;
    } else {
      assert (xs + ys)[..|xs + ys| - 1] == xs + ys[..|ys| - 1];
      RunJoin(c, xs, ys[..|ys| - 1]);
    }
  }

  /** Every AppendEntries sent so far carries a commit index that its own entries reach. */
  predicate SafeSends(c: Cluster) {
    forall k | 0 <= k < |c.sent| && c.sent[k].AppendEntries? ::
      c.sent[k].leaderCommit <= c.sent[k].prevIndex + |c.sent[k].entries|
  }
}
