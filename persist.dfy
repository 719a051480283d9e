/**
 * The gateway's node-list persistence: flattening the in-memory peer set into
 * the list written to `nodes.json`, and restoring that list at startup by
 * feeding every address to `addNode`, logging a warning for each one that is
 * rejected.
 *
 * The foreign calls (persist.LoadJSON, persist.SaveJSON) are parameters of the
 * methods that make them; the acceptance rule of addNode is a parameter of the
 * gateway.
 */
module GatewayPersist {

  /** A peer address (modules.NetAddress, a "host:port" string). */
  type NetAddress = string

  /** An opaque Go `error` value. */
  datatype Error = Error(message: string)

  datatype Option<T> = None | Some(value: T)

  /** persist.Metadata: the header and version that identify a persist file. */
  datatype Metadata = Metadata(header: string, version: string)

  /** The metadata of the gateway persist file. */
  const PersistMetadata: Metadata := Metadata("Sia Node List", "0.3.3")

  /** The name of the file that holds all seen nodes. */
  const NodesFile: string := "nodes.json"

  /** The path filepath.Join(dir, file); how it resolves is not modelled. */
  datatype FilePath = Join(dir: string, file: string)

  /** What persist.LoadJSON reports: an error, or the decoded address list. */
  datatype LoadResult = LoadFailed(err: Error) | Loaded(nodes: seq<NetAddress>)

  /** The arguments handed to persist.SaveJSON. */
  datatype SaveRequest = SaveRequest(meta: Metadata, data: seq<NetAddress>, path: FilePath)

  /** A warning written to the gateway log when a loaded node is rejected. */
  datatype Warning = LoadWarning(node: NetAddress, err: Error)

  /**
   * The acceptance rule of addNode, which is defined outside this file: given
   * the current node set and a candidate, None accepts the candidate and
   * Some(e) rejects it with error e. It may depend on the current set (the
   * gateway refuses an address it already holds).
   */
  type AddRule = (set<NetAddress>, NetAddress) -> Option<Error>

  /** The part of the gateway that load reads and writes. */
  datatype State = State(nodes: set<NetAddress>, log: seq<Warning>)

  // ---------------------------------------------------------------------------
  // Sequences of addresses

  function Elems(s: seq<NetAddress>): set<NetAddress>
  {
    set a | a in s
  }

  predicate NoDuplicates(s: seq<NetAddress>)
  {
    forall i, j :: 0 <= i < j < |s| ==> s[i] != s[j]
  }

  /** A list without duplicates has as many elements as its element set. */
  lemma {:induction false} DistinctCardinality(s: seq<NetAddress>)
    requires NoDuplicates(s)
    ensures |Elems(s)| == |s|
  {
    if s != [] {
      var init, last := s[..|s| - 1], s[|s| - 1];
      assert s == init + [last];
      assert Elems(s) == Elems(init) + {last};
      assert last !in Elems(init);
      DistinctCardinality(init);
    }
  }

  // ---------------------------------------------------------------------------
  // The recovery loop of load, as a function of the state before it

  /** One iteration of load's loop: call addNode, and log a warning if it fails. */
  function Step(rule: AddRule, s: State, a: NetAddress): State
  {
    match rule(s.nodes, a)
    case None => State(s.nodes + {a}, s.log)
    case Some(e) => State(s.nodes, s.log + [LoadWarning(a, e)])
  }

  /** The state after load's loop has processed `addrs`, in slice order. */
  function Replay(rule: AddRule, s: State, addrs: seq<NetAddress>): State
    decreases |addrs|
  {
    if addrs == [] then s
    else Step(rule, Replay(rule, s, addrs[..|addrs| - 1]), addrs[|addrs| - 1])
  }

  /**
   * Loading only adds: the node set grows by loaded addresses only, the log is
   * extended and never rewritten, every new warning names a loaded address,
   * and there is at most one new warning per loaded entry (an address listed
   * twice may be warned about twice).
   */
  lemma {:induction false} ReplayGrows(rule: AddRule, s: State, addrs: seq<NetAddress>)
    ensures s.nodes <= Replay(rule, s, addrs).nodes <= s.nodes + Elems(addrs)
    ensures |s.log| <= |Replay(rule, s, addrs).log| <= |s.log| + |addrs|
    ensures Replay(rule, s, addrs).log[..|s.log|] == s.log
    ensures forall k :: |s.log| <= k < |Replay(rule, s, addrs).log| ==>
              Replay(rule, s, addrs).log[k].node in Elems(addrs)
  {
    if addrs != [] {
      var init := addrs[..|addrs| - 1];
      assert Elems(init) <= Elems(addrs);
      ReplayGrows(rule, s, init);
    }
  }

  /**
   * A rejected address does not stop the others: every loaded address ends
   * up in the node set or is named by a warning logged by this load.
   */
  lemma {:induction false} ReplayIsolation(rule: AddRule, s: State, addrs: seq<NetAddress>, i: nat)
    requires i < |addrs|
    ensures var r := Replay(rule, s, addrs);
            addrs[i] in r.nodes ||
            exists k :: |s.log| <= k < |r.log| && r.log[k].node == addrs[i]
  {
    var init := addrs[..|addrs| - 1];
    var before := Replay(rule, s, init);
    var r := Replay(rule, s, addrs);
    ReplayGrows(rule, s, init);
    if i == |addrs| - 1 {
      match rule(before.nodes, addrs[i])
      case None =>
      case Some(e) =>
        assert r.log[|before.log|].node == addrs[i];
    } else {
      assert addrs[i] == init[i];
      ReplayIsolation(rule, s, init, i);
      if addrs[i] !in before.nodes {
        var k :| |s.log| <= k < |before.log| && before.log[k].node == addrs[i];
        assert r.log[k] == before.log[k];
      }
    }
  }

  /** The positions of `addrs` whose addNode call fails, each judged in the state the loop has reached there. */
  function RejectedCalls(rule: AddRule, s: State, addrs: seq<NetAddress>): set<nat>
  {
    set i: nat | i < |addrs| && rule(Replay(rule, s, addrs[..i]).nodes, addrs[i]) != None
  }

  /**
   * For any rule, including one that depends on the current set, load logs
   * exactly one warning per failing addNode call: the number of new warnings
   * is the number of rejected positions.
   */
  lemma {:induction false} ReplayWarningCount(rule: AddRule, s: State, addrs: seq<NetAddress>)
    ensures |Replay(rule, s, addrs).log| == |s.log| + |RejectedCalls(rule, s, addrs)|
  {
    if addrs == [] {
      assert RejectedCalls(rule, s, addrs) == {};
    } else {
      var n := |addrs| - 1;
      ReplayWarningCount(rule, s, addrs[..n]);
      RejectedCallsSnoc(rule, s, addrs);
    }
  }

  /** Extending the slice by one entry adds its position exactly when that call fails. */
  lemma RejectedCallsSnoc(rule: AddRule, s: State, addrs: seq<NetAddress>)
    requires addrs != []
    ensures var n := |addrs| - 1;
            RejectedCalls(rule, s, addrs) ==
              RejectedCalls(rule, s, addrs[..n]) +
              (if rule(Replay(rule, s, addrs[..n]).nodes, addrs[n]) == None then {} else {n})
  {
    var n := |addrs| - 1;
    var init := addrs[..n];
    forall i: nat | i < n
      ensures addrs[..i] == init[..i] && addrs[i] == init[i]
    {
    }
  }

  /**
   * Reloading a list without duplicates that shares nothing with the current
   * set, under any rule that accepts every address not yet present (such as
   * the gateway's rejection of duplicates), adds every address and logs
   * nothing. Restoring persistData's output into an empty gateway is the
   * case s.nodes == {}.
   */
  lemma {:induction false} ReplayDistinct(rule: AddRule, s: State, addrs: seq<NetAddress>)
    requires forall n, a :: a !in n ==> rule(n, a) == None
    requires NoDuplicates(addrs) && Elems(addrs) !! s.nodes
    ensures Replay(rule, s, addrs) == State(s.nodes + Elems(addrs), s.log)
  {
    if addrs != [] {
      var init, last := addrs[..|addrs| - 1], addrs[|addrs| - 1];
      assert addrs == init + [last];
      assert Elems(addrs) == Elems(init) + {last};
      assert last !in Elems(init);
      ReplayDistinct(rule, s, init);
    }
  }

  /**
   * Saving then restarting: replaying any list that enumerates a node set
   * (what persistData returns) into a gateway with no nodes, under a rule
   * that accepts every address not yet present, restores exactly that set
   * and logs no warning.
   */
  lemma PersistLoadRoundTrip(rule: AddRule, nodes: set<NetAddress>, list: seq<NetAddress>, log: seq<Warning>)
    requires forall n, a :: a !in n ==> rule(n, a) == None
    requires forall a :: a in list <==> a in nodes
    requires NoDuplicates(list)
    ensures Replay(rule, State({}, log), list) == State(nodes, log)
  {
    assert Elems(list) == nodes;
    ReplayDistinct(rule, State({}, log), list);
  }

  /** The warnings that a rule ignoring the current set gives for `addrs`, in order. */
  function Rejections(rule: AddRule, addrs: seq<NetAddress>): seq<Warning>
  {
    if addrs == [] then []
    else
      (match rule({}, addrs[0])
       case None => []
       case Some(e) => [LoadWarning(addrs[0], e)])
      + Rejections(rule, addrs[1..])
  }

  /** The addresses that a rule ignoring the current set accepts. */
  function Accepted(rule: AddRule, addrs: seq<NetAddress>): set<NetAddress>
  {
    set a | a in addrs && rule({}, a) == None
  }

  lemma {:induction false} RejectionsAppend(rule: AddRule, addrs: seq<NetAddress>, a: NetAddress)
    ensures Rejections(rule, addrs + [a]) == Rejections(rule, addrs) + Rejections(rule, [a])
  {
    if addrs != [] {
      assert (addrs + [a])[1..] == addrs[1..] + [a];
      RejectionsAppend(rule, addrs[1..], a);
    } else {
      assert addrs + [a] == [a];
    }
  }

  /**
   * When the rule does not depend on the current set, load adds exactly the
   * accepted addresses and logs exactly one warning per rejected address, in
   * slice order, whatever its position.
   */
  lemma {:induction false} ReplayStateless(rule: AddRule, s: State, addrs: seq<NetAddress>)
    requires forall n, a :: rule(n, a) == rule({}, a)
    ensures Replay(rule, s, addrs) == State(s.nodes + Accepted(rule, addrs), s.log + Rejections(rule, addrs))
  {
    if addrs != [] {
      var init, last := addrs[..|addrs| - 1], addrs[|addrs| - 1];
      assert addrs == init + [last];
      ReplayStateless(rule, s, init);
      RejectionsAppend(rule, init, last);
      var before := Replay(rule, s, init);
      assert rule(before.nodes, last) == rule({}, last);
      assert Elems(addrs) == Elems(init) + {last};
      assert Accepted(rule, addrs) ==
        Accepted(rule, init) + (if rule({}, last) == None then {last} else {});
    }
  }

  // ---------------------------------------------------------------------------
  // The gateway

  class Gateway {
    /** g.nodes: the set of known peers (a Go map used as a set). */
    var nodes: set<NetAddress>
    /** g.log: the lines written to the gateway log by load. */
    var log: seq<Warning>
    /** Every address handed to addNode so far, in call order. */
    ghost var addCalls: seq<NetAddress>
    /** g.persistDir: the directory holding nodes.json. */
    const persistDir: string
    /** The acceptance rule of addNode. */
    const addRule: AddRule

    constructor (persistDir: string, addRule: AddRule)
      ensures nodes == {} && log == [] && addCalls == []
      ensures this.persistDir == persistDir && this.addRule == addRule
    {
      nodes := {};
      log := [];
      addCalls := [];
      this.persistDir := persistDir;
      this.addRule := addRule;
    }

    /** g.addNode: insert `addr` if the rule accepts it, else report the rule's error. */
    method AddNode(addr: NetAddress) returns (err: Option<Error>)
      modifies this`nodes, this`addCalls
      ensures err == addRule(old(nodes), addr)
      ensures nodes == if err == None then old(nodes) + {addr} else old(nodes)
      ensures addr in nodes <==> (addr in old(nodes) || err == None)
      ensures addCalls == old(addCalls) + [addr]
    {
      err := addRule(nodes, addr);
      if err == None {
        nodes := nodes + {addr};
      }
      addCalls := addCalls + [addr];
    }

    /**
     * persistData: the list of every known node, each exactly once, in an
     * unspecified order (Go's map iteration order). It only reads the gateway.
     */
    method PersistData() returns (list: seq<NetAddress>)
      ensures forall a :: a in list <==> a in nodes
      ensures NoDuplicates(list)
      ensures |list| == |nodes|
    {
      list := [];
      var rest := nodes;
      while rest != {}
        invariant Elems(list) + rest == nodes
        invariant Elems(list) !! rest
        invariant NoDuplicates(list)
        decreases |rest|
      {
        var node :| node in rest;
        assert node !in Elems(list);
        list := list + [node];
        rest := rest - {node};
        assert Elems(list) == Elems(list[..|list| - 1]) + {node};
      }
      assert Elems(list) == nodes;
      DistinctCardinality(list);
    }

    /** The path of the persist file. */
    function NodesPath(): FilePath
    {
      Join(persistDir, NodesFile)
    }

    /**
     * load: ask `loadJSON` for the node list with the gateway's metadata and
     * path; hand a failure back unchanged, touching nothing; otherwise call
     * addNode once per loaded address in slice order, log one warning per
     * rejection, and succeed.
     */
    method Load(loadJSON: (Metadata, FilePath) -> LoadResult) returns (err: Option<Error>)
      modifies this`nodes, this`log, this`addCalls
      ensures var loaded := loadJSON(Metadata("Sia Node List", "0.3.3"), NodesPath());
              match loaded
              case LoadFailed(e) =>
                err == Some(e) && nodes == old(nodes) && log == old(log) && addCalls == old(addCalls)
              case Loaded(addrs) =>
                && err == None
                && State(nodes, log) == Replay(addRule, old(State(nodes, log)), addrs)
                && addCalls == old(addCalls) + addrs
    {
      var loaded := loadJSON(PersistMetadata, NodesPath());
      if loaded.LoadFailed? {
        return Some(loaded.err);
      }
      var addrs := loaded.nodes;
      ghost var start := State(nodes, log);
      ghost var calls := addCalls;
      var i := 0;
      while i < |addrs|
        invariant 0 <= i <= |addrs|
        invariant State(nodes, log) == Replay(addRule, start, addrs[..i])
        invariant addCalls == calls + addrs[..i]
      {
        var node := addrs[i];
        var addErr := AddNode(node);
        if addErr.Some? {
          log := log + [LoadWarning(node, addErr.value)];
        }
        assert addrs[..i + 1][..i] == addrs[..i];
        assert addrs[..i + 1] == addrs[..i] + [node];
        i := i + 1;
      }
      assert addrs[..i] == addrs;
      return None;
    }

    /**
     * saveSync: hand persistData's list to `saveJSON` with the gateway's
     * metadata, aimed at nodes.json in the persist directory, and return what
     * the save reports. `req` is the request that was handed over.
     */
    method SaveSync(saveJSON: SaveRequest -> Option<Error>) returns (req: SaveRequest, err: Option<Error>)
      ensures req.meta == Metadata("Sia Node List", "0.3.3")
      ensures req.path == Join(persistDir, "nodes.json")
      ensures forall a :: a in req.data <==> a in nodes
      ensures NoDuplicates(req.data) && |req.data| == |nodes|
      ensures err == saveJSON(req)
    {
      var data := PersistData();
      req := SaveRequest(PersistMetadata, data, NodesPath());
      err := saveJSON(req);
    }
  }
}
