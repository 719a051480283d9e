# Gateway node-list persistence

A Dafny model of how the Sia gateway persists its set of known peers
(`modules/gateway/persist.go`). The gateway keeps its peers in `g.nodes`, a
Go map used as a set of `NetAddress` values. `persistData` flattens that map
into the list that is written to `nodes.json`. `load` reads the list back at
startup and feeds every address to `addNode`. A rejected address gets a
warning in the gateway log and does not stop the others. `saveSync` hands
the list to the saver, together with the file's metadata
(`"Sia Node List"`, version `"0.3.3"`).

Everything is in `persist.dfy`, module `GatewayPersist`:

- `Gateway` is a class with the fields the source updates. These are the
  node set `nodes`, the log `log` and the ghost trace `addCalls` of the
  addresses handed to `addNode`. Two constant fields hold the persist
  directory and the acceptance rule of `addNode`.
- The foreign calls `persist.LoadJSON` and `persist.SaveJSON` are
  function-valued parameters of `Load` and `SaveSync`. A path is the
  datatype value `Join(dir, file)`.
- `Replay` specifies `load`'s loop as a fold of `Step` over the loaded
  slice, in slice order. The lemmas are stated about `Replay`, and `Load`
  is proved equal to it.

## Model

| member | source | states |
|---|---|---|
| `GatewayPersist.Gateway.PersistData` | modules/gateway/persist.go:27-32 | the result holds exactly the keys of `g.nodes`, with no duplicates, and its length is the number of nodes; the method has no modifies clause, so the gateway is unchanged |
| `GatewayPersist.Gateway.AddNode` | modules/gateway/persist.go:42 | the error is the acceptance rule's verdict on the current set; the address is added exactly when the rule accepts it; the call is recorded once in `addCalls` |
| `GatewayPersist.Gateway.Load` | modules/gateway/persist.go:35-48 | loads with metadata `"Sia Node List"`/`"0.3.3"` from `persistDir/nodes.json`; a LoadJSON failure is returned as the same error, with nodes, log and `addCalls` unchanged; on success the result is always nil, `addNode` was called once per loaded address in slice order, and (nodes, log) equals `Replay` of the loaded slice from the old state |
| `GatewayPersist.Gateway.SaveSync` | modules/gateway/persist.go:50-54 | the saver receives metadata `"Sia Node List"`/`"0.3.3"`, the path `persistDir/nodes.json` and a list that enumerates the node set exactly once; its error is returned unchanged |
| `GatewayPersist.DistinctCardinality` | modules/gateway/persist.go:27-31 | a duplicate-free list of addresses is exactly as long as its set of elements; `PersistData` uses it to derive that its list has one entry per node |
| `GatewayPersist.ReplayGrows` | modules/gateway/persist.go:41-46 | the loop never removes a node and adds only loaded addresses; it only appends to the log, at most one warning per loaded entry (an address listed twice can be warned about twice), and each new warning names a loaded address |
| `GatewayPersist.ReplayIsolation` | modules/gateway/persist.go:41-46 | a failing `addNode` does not stop the loop: every loaded address ends up in the node set or is named by a warning logged by this load |
| `GatewayPersist.ReplayWarningCount` | modules/gateway/persist.go:41-46 | for any rule, including one that depends on the current set, the number of warnings a load appends equals the number of positions whose `addNode` call fails in the state the loop has reached there |
| `GatewayPersist.ReplayDistinct` | modules/gateway/persist.go:41-46 | a duplicate-free slice that shares no address with the current set, under a rule that accepts every address not yet present, adds every address and logs no warning |
| `GatewayPersist.PersistLoadRoundTrip` | modules/gateway/persist.go:27-47 | replaying a list with persistData's properties into an empty gateway, under such a rule, restores exactly the saved node set and logs nothing |
| `GatewayPersist.RejectionsAppend` | modules/gateway/persist.go:41-46 | the per-address warnings of a slice extended by one address are those of the slice followed by that address's own |
| `GatewayPersist.ReplayStateless` | modules/gateway/persist.go:41-46 | when the rule ignores the current set, load adds exactly the accepted addresses and logs exactly one warning per rejected address, in slice order, so the number of warnings equals the number of rejections |

## Left out

- `threadedSaveLoop` (persist.go:57-80): its substance is concurrency. It
  races a stop channel against a timer, joins the thread group with
  `threads.Add`/`Done`, and holds `g.mu` for the whole `saveSync`,
  including the disk write. A failed `threads.Add` skips that cycle and the
  loop continues. None of this is modelled.
- `persist.LoadJSON` and `persist.SaveJSON` are not part of this model.
  JSON encoding, header and version checking, and atomic replacement of the
  file happen there. They are parameters of `Load` and `SaveSync`, so no
  round-trip through the file, version-mismatch or atomicity property is
  claimed.
- `addNode`'s real acceptance rules are defined elsewhere. They are the
  abstract `addRule: (set<NetAddress>, NetAddress) -> Option<Error>`, which
  may depend on the current set.
- `filepath.Join` is not resolved. A path is the pair `Join(dir, file)`.
- The text of a log line is not modelled. A warning records only the
  rejected address and the error.
- `logFile` and `saveFrequency` are configuration with no behaviour in
  this file.
- `SaveSync` returns the request handed to the saver as an extra result,
  so that its contents can be stated. The Go function returns only the
  error.
- `PersistData`: Go returns a nil slice for an empty map. The model
  returns the empty sequence. Whether that is encoded differently from an
  empty list is up to `SaveJSON`.
- Mutual exclusion on `g.mu` is not modelled. Every method is sequential.
