/** A cluster of Raft objects and the messages between them, as the simulator of tests/test_raft.c
    keeps them: whatever happens, the objects are in the states of the corresponding run of
    `RaftCluster`, so the safety theorems hold of them. */
module RaftDeployment {
  import opened RaftNode
  import opened RaftCluster
  import opened RaftHistory
  import opened RaftHandlers
  import opened RaftEvents
  import opened RaftBatch
  import opened RaftSafety
  import opened RaftServer

  /** A leader of a run may send to each of its peers. */
  lemma LeaderCanSend(c: Cluster, es: seq<Event>, v: nat, p: nat)
    requires Fresh(c) && v < |c.nodes| && NodeAt(c, es, |es|, v).role == Leader
    ensures var r := NodeAt(c, es, |es|, v);
            p < |r.next| && p in r.members && p != r.id ==> r.next[p] - 1 <= LastIndex(r)
  {
    var hs := RunHistories(c, es);
    assert es[..|es|] == es;
    SizeKept(c, es);
    NodeOf(Run(c, es), hs[|es|], v);
    if p < |c.nodes| && p != v { StaysInBounds(c, es, v, p); }
  }

  /** Every message of a run comes from one of the nodes. */
  lemma SenderKnown(c: Cluster, es: seq<Event>, k: nat, v: nat)
    requires Fresh(c) && k < |Run(c, es).sent| && v < |c.nodes|
    ensures Run(c, es).sent[k].from < NodeAt(c, es, |es|, v).lim.maxNodes
  {
    var hs := RunHistories(c, es);
    assert es[..|es|] == es;
    SizeKept(c, es);
    NodeOf(Run(c, es), hs[|es|], v);
    Unfold(Run(c, es), hs[|es|]);
    assert MsgOk(Run(c, es).nodes, hs[|es|], Run(c, es).sent[k]);
  }

  class Deployment {
    const servers: seq<Server>
    var sent: seq<Msg>
    var gone: set<nat>
    ghost const start: Cluster
    ghost var done: seq<Event>

    /** The objects are distinct and each is, as a value, a node of c. */
    ghost predicate Mirrors(c: Cluster)
      reads this, servers
    {
      && |servers| == |c.nodes| && sent == c.sent && gone == c.gone
      && (forall i, j | 0 <= i < j < |servers| :: servers[i] != servers[j])
      && forall v | 0 <= v < |servers| :: servers[v].Valid() && servers[v].State() == c.nodes[v]
    }

    /** The deployment is where the events so far take the cluster it started as. */
    ghost predicate Valid()
      reads this, servers
    {
      Fresh(start) && Mirrors(Run(start, done))
    }

    /** cluster_init: one object per node. */
    constructor (lims: seq<Limits>, electionTimeouts: seq<int>, heartbeatTimeouts: seq<int>)
      requires 0 < |lims| == |electionTimeouts| == |heartbeatTimeouts|
      requires forall v | 0 <= v < |lims| :: |lims| <= lims[v].maxNodes
      ensures Valid() && done == [] && |servers| == |lims|
      ensures forall v | 0 <= v < |servers| :: servers[v].lim == lims[v]
    {
      var n := |lims|;
      var ss: seq<Server> := [];
      ghost var ns := seq(n, v requires 0 <= v < n =>
                            Init(v, n, lims[v], electionTimeouts[v], heartbeatTimeouts[v]));
      for v := 0 to n
        invariant |ss| == v
        invariant forall i | 0 <= i < v :: fresh(ss[i]) && allocated(ss[i])
        invariant forall i | 0 <= i < v :: ss[i].Valid() && ss[i].State() == ns[i]
        invariant forall i, j | 0 <= i < j < v :: ss[i] != ss[j]
      {
        var s := new Server(v, n, lims[v], electionTimeouts[v], heartbeatTimeouts[v]);
        ss := ss + [s];
      }
      servers, sent, gone, start, done := ss, [], {}, Cluster(ns, [], {}), [];
    }

    lemma Ready(v: nat)
      requires Valid() && v < |servers|
      ensures servers[v].Valid() && (servers[v].role == Leader ==> servers[v].CanSend())
    {
      var s := servers[v];
      assert done[..|done|] == done;
      SizeKept(start, done);
      if s.role == Leader {
        forall p: nat | p < s.lim.maxNodes && p in s.members && p != s.id
          ensures s.next[p] - 1 <= s.base + |s.log| - 1
        {
          LeaderCanSend(start, done, v, p);
        }
      }
    }

    method TickServer(v: nat)
      requires Valid()
      modifies this`sent, servers
      ensures Mirrors(Step(Run(start, done), TickNode(v)))
    {
      if !(v < |servers|) { return; }
      Ready(v);
      var out := servers[v].OnTick();
      sent := sent + out;
    }

    method SubmitToServer(v: nat, command: int)
      requires Valid()
      modifies servers
      ensures Mirrors(Step(Run(start, done), SubmitTo(v, command)))
    {
      if !(v < |servers|) { return; }
      var _ := servers[v].OnSubmit(command);
    }

    method ReadAtServer(v: nat)
      requires Valid()
      modifies this`sent, servers
      ensures Mirrors(Step(Run(start, done), ReadAt(v)))
    {
      if !(v < |servers|) { return; }
      Ready(v);
      var _, out := servers[v].OnReadIndex();
      sent := sent + out;
    }

    method DeliverMessage(k: nat)
      requires Valid()
      modifies this`sent, this`gone, servers
      ensures Mirrors(Step(Run(start, done), Deliver(k)))
    {
      if k >= |sent| || k in gone || sent[k].to >= |servers| { return; }
      var m := sent[k];
      assert done[..|done|] == done;
      SizeKept(start, done);
      SenderKnown(start, done, k, m.to);
      var out := servers[m.to].OnReceive(m);
      gone := gone + {k};
      sent := sent + out;
    }

    method RestartServer(v: nat)
      requires Valid()
      modifies servers
      ensures Mirrors(Step(Run(start, done), Restart(v)))
    {
      if !(v < |servers|) { return; }
      servers[v].CrashAndRestart();
    }

    method LoseMessage(k: nat)
      requires Valid()
      modifies this`gone
      ensures Mirrors(Step(Run(start, done), Lose(k)))
    {
      if k < |sent| && k !in gone { gone := gone + {k}; }
    }

    method Carry(e: Event)
      requires Valid()
      modifies this`sent, this`gone, servers
      ensures Mirrors(Step(Run(start, done), e))
    {
      match e
      case TickNode(v) => TickServer(v);
      case SubmitTo(v, command) => SubmitToServer(v, command);
      case ReadAt(v) => ReadAtServer(v);
      case Deliver(k) => DeliverMessage(k);
      case Lose(k) => LoseMessage(k);
      case Restart(v) => RestartServer(v);
    }

    /** One event. */
    method Happen(e: Event)
      requires Valid()
      modifies this, servers
      ensures Valid() && done == old(done) + [e]
    {
      Carry(e);
      assert (done + [e])[..|done|] == done;
      done := done + [e];
    }

    /** The objects never hold two leaders of one term. */
    lemma OneLeaderPerTerm(v: nat, w: nat)
      requires Valid() && v < |servers| && w < |servers|
      requires servers[v].role == Leader && servers[w].role == Leader && servers[v].term == servers[w].term
      ensures v == w
    {
      assert done[..|done|] == done;
      SizeKept(start, done);
      ElectionSafety(start, done, |done|, |done|, v, w);
    }

    /** If every delivery so far was safe, the objects applied the same commands at the same indices. */
    lemma SameCommands(v: nat, w: nat, x: Applied, y: Applied)
      requires Valid() && v < |servers| && w < |servers| && SafeRun(start, done)
      requires x in servers[v].applied && y in servers[w].applied && x.index == y.index
      ensures x.command == y.command
    {
      assert done[..|done|] == done;
      SizeKept(start, done);
      StateMachineSafety(start, done, v, w, x, y);
    }
  }
}
