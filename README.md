# deckhand, modelled in Dafny

deckhand is a host agent with two jobs. It watches the Docker daemon's
container events, runs shell hooks for each event, and records every
started container in etcd, under a root key chosen by the agent's mode. It
also watches that etcd root. For each container stored there it reconciles
an HAProxy control plane (thalassa-aqueduct): one backend and one frontend
per published front port, both filed under the end key
`<image>:<front port>`.

This project models the core of that agent and proves properties of the
model:

- **Port parsing and NAT extraction** (`stripPort`, `getNats`). Module
  `Nats` models these on top of an exact model of Go's `strconv.ParseInt`
  and `%d` formatting (module `Strconv`).
- **The builders** (`getEndKey`, `getMembers`, `getBackends`,
  `getFrontends`), in module `Builders`. Their loops visit a Go map and
  take its keys in any order.
- **The member-list helpers** (`mergeMembers`, `isLastMembers`, and the
  member splice inside `ContainerRemoved`), in module `Members`:
  - The splice works in place on an `array` standing for the slice's
    backing array, together with the slice's current length.
  - It keeps Go's real behaviour: the range over the original length, the
    no-op splice at the last index, and the slice-bounds panic.
- **The two reconciler drivers** `ContainerUpdate` and `ContainerRemoved`
  (class `Reconciler.HAProxy`):
  - They run against a fake aqueduct client (`Aqueduct.Client`). The fake
    holds a key-to-backend map, a key-to-frontend map, a set of keys whose
    calls fail, and a trace of every call issued.
  - Each driver is proved equal to a fold over whatever order the Go map
    was visited in. The lemmas hold for every such order.
- **The etcd repository** (`Put`, `Remove`, `doWatch`), in module
  `Etcd`:
  - It runs against a fake store: an entry map, a set of failing keys and
    a call trace.
  - The watch is modelled as a given sequence of watch attempts, each with
    the responses it delivers and whether it returned an error.
- **The Docker-event side** (`NewDeckhand`'s root key, `dockerEvent`,
  `containerStart`/`containerDie`/`containerDestroy` and `shellEvents`),
  in modules `Globals`, `Events` and `Deckhand`. The inspection result,
  the handler directory's entry names and the outcome of running each
  command are inputs.

Modules follow the program: `Strconv`, `Docker` (the container record and
event types), `Nats`, `Aqueduct`, `Members`, `Builders`, `Reconciler`,
`Text`, `Globals`, `Etcd`, `Events`, `Deckhand`, plus `Wrappers`
(`Option`).

Behaviour of the code worth knowing:

- `mergeMembers` is not a set union: it can duplicate members, and an
  empty new list gains nothing from the live one.
- `isLastMembers` compares loop indices, never hosts or ports.
- A port key whose number has a syntax error is filed under front port 0
  rather than skipped; an out-of-range one under the int64 bound.
- A frontend binds the container's front port (`*:80`), not a host port.
- The removal splice leaves a member that sits at the current last index
  in place, so `[a, b]` minus `[b]` stays `[a, b]`.
- Any mode other than `"master"` selects the slave root, not only
  `"slave"`.
- A failing shell hook ends the process through `log.Fatal`; it does not
  just drop the event.

## Model

| member | source | states |
|---|---|---|
| Strconv.ParseIntExact | deckhand/haproxy.go:230 | `strconv.ParseInt(s, 10, 64)` succeeds exactly when s is an optional sign followed by decimal digits that denote an int64, and the value is then that number |
| Strconv.ParseIntSyntaxZero | deckhand/haproxy.go:198 | a syntax error always comes with the value 0, which is what getNats keeps when it ignores the error |
| Strconv.FormatParse | deckhand/haproxy.go:173 | formatting an int64 with `%d` and parsing it back gives the same number with no error |
| Strconv.FormatWellFormed | deckhand/haproxy.go:141 | the `%d` form of any integer is a well-formed decimal denoting it |
| Strconv.FormatIntInjective | deckhand/haproxy.go:173 | distinct int64 values have distinct `%d` forms |
| Nats.StripPort | deckhand/haproxy.go:228-232 | `stripPort`: the text before the first '/' of a port key, parsed by `strconv.ParseInt(_, 10, 64)`, value and error both kept |
| Nats.BeforeSlash | deckhand/haproxy.go:229 | `strings.Split(s, "/")[0]` is a prefix of s without '/', followed in s by '/' when it is shorter than s |
| Nats.StripPortOfKey | deckhand/haproxy.go:228-232 | for every int64 n and protocol, stripPort of "n/proto" returns n with no error |
| Nats.StripPortTcp | deckhand/haproxy.go:228-232 | stripPort("80/tcp") is 80 with no error |
| Nats.StripPortNotNumeric | deckhand/haproxy.go:228-232 | stripPort("http/tcp") is 0 with a syntax error |
| Nats.GetNats | deckhand/haproxy.go:191-210 | the table's keys are the front ports of the published port keys, those with a syntax error under 0 and out-of-range ones under the int64 bound; each list holds one nat per host binding in binding order (container IP, parsed host port, the front port); keys with the same number leave the list of one of them |
| Builders.EndKey | deckhand/haproxy.go:172-175 | `getEndKey`: the image, a ':' and the front port written by `%d` |
| Builders.EndKeyParts | deckhand/haproxy.go:172-175 | an end key is the image, then ':', then text that parses back to the front port |
| Builders.EndKeyInjective | deckhand/haproxy.go:172-175 | distinct (image, front port) pairs give distinct end keys, even for images containing ':' |
| Builders.GetMembers | deckhand/haproxy.go:178-188 | one member per nat, in order, with the nat's back IP and back port |
| Builders.GetBackends | deckhand/haproxy.go:155-169 | exactly one backend per front port, filed under its end key and named by it, static/tcp/roundrobin, with the members of that port's nats; key and id empty |
| Builders.BindParses | deckhand/haproxy.go:141-144 | a frontend's bind is "*:" followed by text that parses back to the front port |
| Builders.GetFrontends | deckhand/haproxy.go:137-152 | exactly one frontend per front port, filed under its end key, binding exactly "*:" followed by the `%d` form of the front port, static/tcp, forwarding to that end key |
| Builders.FrontendsMatchBackends | deckhand/haproxy.go:137-169 | backends and frontends have the same key set, and each frontend forwards to the backend filed under, and named by, its own key |
| Members.Merged | deckhand/haproxy.go:213-225 | the member list `mergeMembers` leaves in b1 for a non-nil b2: the old members, then for each old member in order the members of b2 that differ from it |
| Members.OthersThan | deckhand/haproxy.go:218-222 | the members of the live list that the inner loop appends for m are exactly those that differ from m |
| Members.AppendOthers | deckhand/haproxy.go:218-223 | the inner loop appends, in order, the live members that differ from m, and changes nothing else |
| Members.MergeMembers | deckhand/haproxy.go:213-225 | a nil b2 changes nothing; otherwise b1's members become its old members followed by, for each old member in order, every member of b2 that differs from it; no other field changes |
| Members.MergedMembership | deckhand/haproxy.go:213-225 | a member is in the merge exactly when it was in b1, or b1 was non-empty and it is in b2 |
| Members.MergeSingle | deckhand/haproxy.go:213-225 | with one new member the merge is that member followed by the live members other than it, for every live list; it has no duplicates when the live list had none |
| Members.MergeDuplicates | deckhand/haproxy.go:213-225 | merging [h1, h3] with live [h1, h2] gives [h1, h3, h2, h1, h2], which has a duplicate |
| Members.IsLastMembers | deckhand/haproxy.go:122-134 | true exactly when live has no members, or both lists have exactly one |
| Members.RemoveMembers | deckhand/haproxy.go:100-110 | the nested splice loop as written: the outer range over the original length reading the shared backing array, the inner loop splicing at i on each match with end moved back at the last index, and None for the slice-bounds panic |
| Members.SpliceAt | deckhand/haproxy.go:103-107 | a splice keeps the backing array's size and never grows the length |
| Members.SpliceInPlace | deckhand/haproxy.go:103-107 | the in-place `append(s[:i], s[end:]...)` panics exactly when `SpliceAt` gives None, and otherwise leaves the backing array and length that `SpliceAt` gives |
| Members.RemoveMatching | deckhand/haproxy.go:100-110 | the in-place splice loop panics exactly when the removal function says so; otherwise the members become its result, and no other field changes |
| Members.RemoveNoMatch | deckhand/haproxy.go:100-110 | when no live member was contributed, the live list stays as it was |
| Members.RemoveShrinks | deckhand/haproxy.go:100-110 | a removal that does not panic leaves a sub-multiset of the live members, never longer |
| Members.RemoveSingleInside | deckhand/haproxy.go:100-110 | removing one contributed member that is not last in a duplicate-free live list removes exactly that member |
| Members.RemoveSingleLast | deckhand/haproxy.go:103-106 | removing the member at the last index of a duplicate-free live list leaves the list unchanged |
| Members.RemoveDuplicatePanics | deckhand/haproxy.go:100-107 | with a duplicate the same removal panics: live [x, x] minus [x] reads the stale x at index 1 and slices past the new length |
| Members.RemoveLastOfTwo | deckhand/haproxy.go:100-110 | [a, b] minus [b] is written back as [a, b] |
| Members.ReplacementLeavesStale | deckhand/haproxy.go:100-110 | when container c2's member m2 joins live [m1] and container c1 is then removed, [m2, m1] is written back: c1's member stays, so the route goes stale |
| Members.RemoveFirstOfTwo | deckhand/haproxy.go:100-110 | [a, b] minus [a] gives [b] |
| Members.RemoveBothPanics | deckhand/haproxy.go:103-107 | [a, b] minus [a, b] goes past the shrunk length: the slice-bounds panic |
| Members.RemoveSkipsShifted | deckhand/haproxy.go:100-107 | [a, b, c] minus [a, b] gives [b, c]: b moves under an index already visited and is never compared |
| Aqueduct.Lookup | deckhand/haproxy.go:86 | a lookup succeeds exactly when the key's calls do not fail and a backend is stored under it, and then reports that backend's members under the key |
| Aqueduct.Client.GetBackendByKey | deckhand/haproxy.go:86-90 | records the call; err exactly when the lookup fails; otherwise a fresh backend object holding the looked-up record |
| Aqueduct.Client.PutBackend | deckhand/haproxy.go:58 | records the call and stores the backend unless the key's calls fail, which is the error |
| Aqueduct.Client.PutFrontend | deckhand/haproxy.go:66 | records the call and stores the frontend unless the key's calls fail, which is the error |
| Aqueduct.Client.DeleteFrontend | deckhand/haproxy.go:94 | records the call and deletes the frontend unless the key's calls fail; errors also when it was absent |
| Aqueduct.Client.DeleteBackend | deckhand/haproxy.go:96 | records the call and deletes the backend unless the key's calls fail; errors also when it was absent |
| Reconciler.UpdateStep | deckhand/haproxy.go:56-58 | one iteration of the backend loop: a lookup, then a put of the built backend merged with the live one (unmerged when the lookup failed) |
| Reconciler.UpdateBackends | deckhand/haproxy.go:55-62 | the backend loop of `ContainerUpdate` over the keys in a given order, one UpdateStep per key |
| Reconciler.PutFrontends | deckhand/haproxy.go:65-70 | the frontend loop of `ContainerUpdate` over the keys in a given order, one frontend put per key, failures ignored |
| Reconciler.HAProxy.UpdateOne | deckhand/haproxy.go:55-62 | one iteration: a lookup, the merge into the built backend, then a PutBackend of it, whatever the lookup returned |
| Reconciler.HAProxy.UpdateAll | deckhand/haproxy.go:54-62 | visits every built backend exactly once, in some order, and does one UpdateOne per key in that order |
| Reconciler.HAProxy.PutAllFrontends | deckhand/haproxy.go:64-70 | visits every built frontend exactly once and puts it, a failed put not stopping the loop |
| Reconciler.HAProxy.ContainerUpdate | deckhand/haproxy.go:44-71 | builds the NAT table, backends and frontends as getNats, getBackends and getFrontends promise, then runs the backend loop and then the frontend loop over some enumeration of each |
| Reconciler.UpdateEffect | deckhand/haproxy.go:54-62 | after the backend loop every visited key that accepts calls holds the built backend merged with the live one found before the loop; other keys, the frontends and the failing set are untouched |
| Reconciler.UpdateTrace | deckhand/haproxy.go:55-62 | the backend loop issues, per key in order, GetBackendByKey(k) then PutBackend(k, merged), even when the lookup failed |
| Reconciler.MergedForKeeps | deckhand/haproxy.go:56-57 | the merged backend keeps the built fields and members as a prefix, and keeps every live member when the built one has members |
| Reconciler.FrontendsEffect | deckhand/haproxy.go:64-70 | the frontend loop stores each frontend whose key accepts calls, one PutFrontend per key in order, and touches no backend |
| Reconciler.UpdateOrdering | deckhand/haproxy.go:54-70 | a whole update issues 2 calls per backend and 1 per frontend, and no PutFrontend comes before any PutBackend |
| Reconciler.BackendCallKinds | deckhand/haproxy.go:55-62 | the backend loop only appends lookups and backend puts, two per key |
| Reconciler.FrontendCallKinds | deckhand/haproxy.go:64-70 | the frontend loop only appends frontend puts, one per key |
| Reconciler.RemoveStep | deckhand/haproxy.go:86-118 | one iteration of the removal loop: abort on a failed lookup, teardown when `isLastMembers` holds, otherwise the splice and either the panic or a put with key and id cleared |
| Reconciler.RemoveAll | deckhand/haproxy.go:85-119 | the removal loop over the keys in a given order, stopping at the first step that aborts or panics |
| Reconciler.HAProxy.RemoveOne | deckhand/haproxy.go:85-118 | one iteration: a lookup by the built name; abort on error; teardown when isLastMembers holds; otherwise the splice, a panic outcome, or a PutBackend with key and id cleared |
| Reconciler.HAProxy.RemoveAllBackends | deckhand/haproxy.go:85-119 | visits distinct built keys in some order and stops at the first step that does not complete; when all complete, every key was visited |
| Reconciler.HAProxy.ContainerRemoved | deckhand/haproxy.go:74-120 | builds the NAT table and backends as promised, then runs the removal loop over some order of them |
| Reconciler.RemoveAllStops | deckhand/haproxy.go:86-90 | once a lookup has failed, no call at all is made for the backends still to be visited |
| Reconciler.RemoveAllEndsOnGet | deckhand/haproxy.go:86-90 | a run that does not complete ends on the lookup of the key where it stopped, and when it aborted that lookup fails |
| Reconciler.RemoveAllShaped | deckhand/haproxy.go:91-117 | in every removal trace each DeleteFrontend(x) directly follows a lookup and directly precedes DeleteBackend(x), every PutBackend has empty key and id, and no frontend is put |
| Reconciler.RemoveStepShaped | deckhand/haproxy.go:91-117 | one removal step keeps the trace in that shape |
| Reconciler.RemovePartialWrites | deckhand/haproxy.go:97-117 | the partial branch writes the live backend with key and id cleared, its other fields unchanged and its members a sub-multiset, the same members when none matched |
| Reconciler.TeardownRemoves | deckhand/haproxy.go:91-96 | in the last-members branch the key ends up with neither frontend nor backend, through exactly GetBackendByKey, DeleteFrontend, DeleteBackend |
| Globals.Env.constructor | deckhand/deckhand.go:45-48 | the host name is known at start-up, and no root key is chosen yet |
| Globals.RootKey | deckhand/deckhand.go:52-56 | the root key `NewDeckhand` chooses: "/masters" for mode "master", "/slaves/" and the host name for any other mode |
| Globals.StoreKey | deckhand/etcd.go:36 | a container's store key: the root key, '/', and the container id |
| Globals.RootKeyModes | deckhand/deckhand.go:52-56 | the root is "/masters" exactly for mode "master"; every other mode gives a key under "/slaves/" |
| Globals.MasterSlaveDisjoint | deckhand/deckhand.go:52-56 | no master container key equals any slave container key |
| Globals.SlaveKeysSeparate | deckhand/deckhand.go:55 | for host names without '/', equal slave container keys mean the same host and the same container |
| Globals.StoreKeyInjective | deckhand/etcd.go:36 | within one root, the container key determines the container id |
| Deckhand.NewDeckhand | deckhand/deckhand.go:51-56 | sets the root key for the mode and leaves the host name unchanged |
| Deckhand.RouteOf | deckhand/deckhand.go:99-108 | the status switch of `dockerEvent`: "start", "die" and "destroy" have handlers; "kill" and every other status go nowhere |
| Deckhand.EventAction | deckhand/deckhand.go:99-108 | the repository action of an event: Put for "start", Remove for "die" and "destroy", each with the inspected container, nothing when the inspection failed or for any other status |
| Deckhand.EventActionExact | deckhand/deckhand.go:99-108 | the event leads to Put(ci) exactly for "start" with inspection ci, to Remove(ci) exactly for "die" or "destroy" with inspection ci, and to nothing otherwise |
| Deckhand.KillIsIgnored | deckhand/deckhand.go:104-105 | "kill" leads to no repository action |
| Deckhand.Deckhand.ContainerStart | deckhand/events.go:23-33 | a failed inspection leaves the store unchanged; otherwise the inspected container is Put |
| Deckhand.Deckhand.ContainerDie | deckhand/events.go:35-45 | a failed inspection leaves the store unchanged; otherwise the inspected container is Removed |
| Deckhand.Deckhand.ContainerDestroy | deckhand/events.go:11-21 | a failed inspection leaves the store unchanged; otherwise the inspected container is Removed |
| Deckhand.Deckhand.DockerEvent | deckhand/deckhand.go:94-109 | the shell hooks run first for every status; a fatal hook leaves the store untouched; otherwise the store changes as the status routing says |
| Etcd.Store.Set | deckhand/etcd.go:39 | records the call and stores the value unless the key's calls fail, which is the error |
| Etcd.Store.Delete | deckhand/etcd.go:50 | records the call and recursively drops the key and everything under it unless the key's calls fail; errors also when nothing was there |
| Etcd.EtcdRepo.Put | deckhand/etcd.go:24-42 | a marshalling error is returned without a write; otherwise one Set of `ROOT_KEY + "/" + Id` with TTL 10000, and exactly its error returned |
| Etcd.EtcdRepo.Remove | deckhand/etcd.go:44-53 | one recursive Delete of the same key; nil returned whatever the store did |
| Etcd.PutThenRemove | deckhand/etcd.go:36-50 | a Put then a Remove of one container issue Set(key, json, 10000) then Delete(key, true) on the same key, after which it is absent and every entry outside it is as before |
| Etcd.PutMarshalFails | deckhand/etcd.go:27-31 | a failed marshal writes nothing and reports the marshalling error |
| Etcd.DispatchOf | deckhand/etcd.go:68-80 | the watch goroutine's switch on one value read: nil skipped, "set" updates with the decoded node, "delete" removes with the decoded previous node, a missing node or failed decode crashes, other actions call nothing |
| Etcd.DispatchExact | deckhand/etcd.go:68-80 | nil responses are skipped; "set" updates with the decoded node, "delete" removes with the decoded previous node, each in both directions; other actions call nothing |
| Etcd.Fatal | deckhand/etcd.go:76-79 | a dispatch that ends the process: the nil dereference, or a `ContainerRemoved` call that panics |
| Etcd.Drain | deckhand/etcd.go:66-82 | the reading goroutine over one attempt's responses: nil ones skipped, the others set gotdata and are dispatched, a fatal dispatch being the last |
| Etcd.RunCycle | deckhand/etcd.go:84-95 | the ticker loop of one cycle: drain each attempt, retry while the watch errs and no data has arrived, stop on a crash |
| Etcd.RunAll | deckhand/etcd.go:60-98 | the outer loop: each cycle starts with gotdata false, and a crash ends the whole watch |
| Etcd.DrainGotData | deckhand/etcd.go:67-81 | reading the responses sets gotdata exactly when one is non-nil; a crash comes from a non-nil response and ends on a fatal dispatch: a nil dereference, or a `ContainerRemoved` call that panics |
| Etcd.RemovalPanicStops | deckhand/etcd.go:77-79 | a "delete" whose `ContainerRemoved` call panics is the last dispatch: the responses after it are never dispatched |
| Etcd.CycleRetries | deckhand/etcd.go:87-95 | within a cycle every attempt but the last failed with no data so far; a cycle that stops before running out of attempts stopped on a nil error or after data arrived |
| Etcd.FreshCycleRetries | deckhand/etcd.go:62-63 | gotdata is reset in each cycle: data seen in one cycle does not stop the next from retrying |
| Etcd.DrainResponses | deckhand/etcd.go:66-82 | the reading goroutine's loop computes exactly the dispatches, gotdata and crash that `Drain` gives |
| Etcd.WatchCycle | deckhand/etcd.go:84-95 | the ticker loop makes exactly the dispatches, attempt count and crash that `RunCycle` gives |
| Etcd.DoWatch | deckhand/etcd.go:60-98 | the outer loop over cycles gives exactly the dispatches, attempt counts and crash that `RunAll` gives |
| Events.Commands | deckhand/events.go:68-72 | the commands `shellEvents` selects, in directory order: the directory name followed by each handler name that starts with the status |
| Events.RunUntilFailure | deckhand/events.go:74-80 | the selected commands run in order with the container id until one fails, which ends the process |
| Events.CommandsExact | deckhand/events.go:68-72 | a command is run exactly when it is the directory name followed directly by a handler name that starts with the status |
| Events.EmptyStatusSelectsAll | deckhand/events.go:71 | an empty status selects every handler, in directory order |
| Events.RunUntilFailureExact | deckhand/events.go:74-80 | the commands run are a prefix of the selected ones; the run is fatal exactly when a selected command fails, and then ends on it; otherwise every selected command ran |
| Events.ShellEvents | deckhand/events.go:49-85 | an unreadable directory runs nothing; otherwise the selected commands run with the container id until the first failure |

## Left out

- HTTP calls of the aqueduct client: replaced by the fake control plane.
  - In the fake, a lookup returns the stored backend with its key field set
    to the key it is stored under.
  - In the fake, a failing key's calls change nothing.
  - The client's real wire behaviour is not visible.
- Docker: inspecting a container (the result is an input) and event
  monitoring (`Start`, `dockerEventCallback`) are foreign calls.
- Whether `ContainerRemoved` panics depends on the proxy's state, which
  the watch model does not hold: it is a parameter (`panics`) of the watch
  functions, and a panicking removal ends the watch like a nil dereference.
- JSON marshalling and `getContainerInfo`'s decoding are library code.
  They are function parameters; a failed decode, like a missing node, is
  the goroutine's nil-pointer crash.
- The backoff library's timing: a cycle of the watch ends when its given
  attempts run out. Only the continue/break decision is modelled.
- Concurrency of `doWatch` is not modelled:
  - The goroutines, the channel `c` reassigned on each attempt, and the
    unsynchronised `gotdata` flag are replaced by a sequential model.
  - In that model an attempt's responses are read before its error is
    checked, which ignores the data race.
- `Watch`, which only starts `doWatch`.
- `NewHAProxy` and `NewEtcdRepo`: constructing the real clients. The
  connection failures around them in `NewDeckhand` are not modelled
  either.
- Signal handling (`waitForInterrupt`), flag parsing in main.go, and
  `getHostIps` in deckhand/utils.go.
- Reading the handler directory and running processes: the entry names
  and each command's success are inputs. `log.Fatal` is the `fatal` result
  rather than a process exit.
- Go's map iteration order: the drivers and builders are proved for every
  order, not for the runtime's.
- etcd's TTL expiry: the TTL is recorded in the Set call but never takes
  effect.
- Logging.
