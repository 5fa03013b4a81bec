/**
 * The etcd repository of deckhand/etcd.go: `Put` and `Remove` of a
 * container's record under the store key, and `doWatch`, which feeds store
 * changes to the reconciler and re-watches with back-off after errors.
 *
 * The etcd client is a fake store: a key-to-value map, a set of keys on
 * which calls fail, and the trace of calls made. JSON encoding and
 * decoding are functions given to the model.
 */
module Etcd {
  import opened Wrappers
  import opened Docker
  import opened Text
  import opened Globals

  // ------------------------------------------------------------ the store

  /** One call issued to the store. */
  datatype StoreCall =
    | Set(key: string, value: string, ttl: int)
    | Delete(key: string, recursive: bool)

  /** The entries a recursive delete of `key` removes: the key and everything under it. */
  predicate Under(k: string, key: string)
  {
    k == key || HasPrefix(k, key + "/")
  }

  /** The fake store's state. */
  datatype StoreState = StoreState(entries: map<string, string>, failing: set<string>, trace: seq<StoreCall>)

  /** Set stores the value unless the key's calls fail. */
  function AfterSet(s: StoreState, key: string, value: string, ttl: int): StoreState
  {
    s.(entries := if key in s.failing then s.entries else s.entries[key := value],
       trace := s.trace + [Set(key, value, ttl)])
  }

  /** A recursive Delete drops the key and every entry under it, unless the key's calls fail. */
  function AfterDelete(s: StoreState, key: string, recursive: bool): StoreState
  {
    s.(entries := if key in s.failing then s.entries else map k | k in s.entries && !Under(k, key) :: s.entries[k],
       trace := s.trace + [Delete(key, recursive)])
  }

  /** The fake etcd client. */
  class Store {
    var entries: map<string, string>
    var failing: set<string>
    var trace: seq<StoreCall>

    function State(): StoreState
      reads this
    {
      StoreState(entries, failing, trace)
    }

    constructor (s: StoreState)
      ensures State() == s
    {
      entries, failing, trace := s.entries, s.failing, s.trace;
    }

    method Set(key: string, value: string, ttl: int) returns (err: bool)
      modifies this
      ensures State() == AfterSet(old(State()), key, value, ttl)
      ensures err <==> key in failing
    {
      trace := trace + [StoreCall.Set(key, value, ttl)];
      err := key in failing;
      if !err {
        entries := entries[key := value];
      }
    }

    /** Fails on a failing key, or when nothing is stored at or under the key. */
    method Delete(key: string, recursive: bool) returns (err: bool)
      modifies this
      ensures State() == AfterDelete(old(State()), key, recursive)
      ensures err <==> key in failing || forall k | k in old(entries) :: !Under(k, key)
    {
      trace := trace + [StoreCall.Delete(key, recursive)];
      err := key in failing || forall k | k in entries :: !Under(k, key);
      if key !in failing {
        entries := map k | k in entries && !Under(k, key) :: entries[k];
      }
    }
  }

  // ----------------------------------------------------------- Put, Remove

  /** Why a repository operation failed; only Put ever fails. */
  datatype RepoError = MarshalFailed | SetFailed

  /** The time-to-live Put writes with. */
  const PutTtl := 10000

  /** The store after Put of a container whose JSON is `json` (None: marshalling failed). */
  function AfterPut(s: StoreState, root: string, json: Option<string>, id: string): StoreState
  {
    match json
    case None => s
    case Some(v) => AfterSet(s, StoreKey(root, id), v, PutTtl)
  }

  /** The store after Remove of container id. */
  function AfterRemove(s: StoreState, root: string, id: string): StoreState
  {
    AfterDelete(s, StoreKey(root, id), true)
  }

  /** What Put returns: the marshalling error, else exactly the error of Set. */
  function PutResult(s: StoreState, root: string, json: Option<string>, id: string): Option<RepoError>
  {
    if json.None? then Some(MarshalFailed)
    else if StoreKey(root, id) in s.failing then Some(SetFailed)
    else None
  }

  /**
   * Put and Remove address the same key: a Put and then a Remove of the
   * same container write and then recursively delete StoreKey(root, id),
   * after which nothing is stored under that key and every entry outside
   * it is as before.
   */
  lemma PutThenRemove(s: StoreState, root: string, json: string, id: string)
    requires StoreKey(root, id) !in s.failing
    ensures var key := StoreKey(root, id);
      var t := AfterRemove(AfterPut(s, root, Some(json), id), root, id);
      t.trace == s.trace + [Set(key, json, 10000), Delete(key, true)] &&
      key !in t.entries &&
      forall k | k in s.entries && !Under(k, key) :: k in t.entries && t.entries[k] == s.entries[k]
  {
  }

  /** A Put whose marshalling fails writes nothing and reports it. */
  lemma PutMarshalFails(s: StoreState, root: string, id: string)
    ensures AfterPut(s, root, None, id) == s && PutResult(s, root, None, id) == Some(MarshalFailed)
  {
  }

  /** `EtcdRepo`, with the store client and the JSON encoder it uses. */
  class EtcdRepo {
    const env: Env
    const store: Store
    /** `json.MarshalIndent`; None is a marshalling error. */
    const encode: ContainerInfo -> Option<string>

    constructor (env: Env, store: Store, encode: ContainerInfo -> Option<string>)
      ensures this.env == env && this.store == store && this.encode == encode
    {
      this.env, this.store, this.encode := env, store, encode;
    }

    /**
     * `Put`: a marshalling error is returned with nothing written;
     * otherwise the JSON is set under the container's key with TTL 10000
     * and the store's error is returned as it is.
     */
    method Put(info: ContainerInfo) returns (err: Option<RepoError>)
      modifies store
      ensures store.State() == AfterPut(old(store.State()), env.rootKey, encode(info), info.id)
      ensures err == PutResult(old(store.State()), env.rootKey, encode(info), info.id)
    {
      var b := encode(info);
      if b.None? {
        return Some(MarshalFailed);
      }
      var key := StoreKey(env.rootKey, info.id);
      var setErr := store.Set(key, b.value, PutTtl);
      err := if setErr then Some(SetFailed) else None;
    }

    /**
     * `Remove`: deletes the container's key recursively and always
     * reports success, whatever the store did.
     */
    method Remove(info: ContainerInfo) returns (err: Option<RepoError>)
      modifies store
      ensures store.State() == AfterRemove(old(store.State()), env.rootKey, info.id)
      ensures err == None
    {
      var key := StoreKey(env.rootKey, info.id);
      var delErr := store.Delete(key, true);
      return None;
    }
  }

  // ------------------------------------------------------------- dispatch

  /** A watch response: its action and the values of its node and previous node, if present. */
  datatype Response = Response(action: string, node: Option<string>, prevNode: Option<string>)

  /** What the watch goroutine does with one value read from the channel. */
  datatype Dispatch =
      /** A nil response: skipped, and gotdata is not set. */
    | Skip
      /** An action other than "set" and "delete". */
    | NoCall
      /** `ContainerUpdate` with the decoded node value. */
    | Update(info: ContainerInfo)
      /** `ContainerRemoved` with the decoded previous-node value. */
    | Removed(info: ContainerInfo)
      /** A nil node, or a value that decodes to a nil container: a nil dereference. */
    | Crash

  /** The container a node value holds, or a crash when there is none. */
  function Decoded(v: Option<string>, decode: string -> Option<ContainerInfo>, call: ContainerInfo -> Dispatch): Dispatch
  {
    match v
    case None => Crash
    case Some(s) =>
      match decode(s)
      case None => Crash
      case Some(ci) => call(ci)
  }

  /** The switch of the watch goroutine. */
  function DispatchOf(r: Option<Response>, decode: string -> Option<ContainerInfo>): Dispatch
  {
    match r
    case None => Skip
    case Some(resp) =>
      if resp.action == "set" then Decoded(resp.node, decode, ci => Update(ci))
      else if resp.action == "delete" then Decoded(resp.prevNode, decode, ci => Removed(ci))
      else NoCall
  }

  /**
   * The dispatch rules, each in both directions: nil is skipped; "set"
   * updates with the node's container, "delete" removes the previous
   * node's container; other actions call nothing.
   */
  lemma DispatchExact(r: Option<Response>, decode: string -> Option<ContainerInfo>, ci: ContainerInfo)
    ensures DispatchOf(r, decode).Skip? <==> r.None?
    ensures DispatchOf(r, decode) == Update(ci) <==>
      r.Some? && r.value.action == "set" && r.value.node.Some? && decode(r.value.node.value) == Some(ci)
    ensures DispatchOf(r, decode) == Removed(ci) <==>
      r.Some? && r.value.action == "delete" && r.value.prevNode.Some? && decode(r.value.prevNode.value) == Some(ci)
    ensures DispatchOf(r, decode).NoCall? <==> r.Some? && r.value.action != "set" && r.value.action != "delete"
  {
  }

  // ----------------------------------------------------------- watch loop

  /**
   * One tick of the back-off ticker: the responses the watch delivers on
   * the channel before it returns, and whether it returned an error.
   */
  datatype Attempt = Attempt(responses: seq<Option<Response>>, err: bool)

  /** The loop exit condition: retry only on an error while no data has arrived. */
  predicate Retry(err: bool, gotdata: bool)
  {
    err && !gotdata
  }

  /** What a stretch of work did: calls dispatched, gotdata after it, and whether it crashed. */
  datatype Drained = Drained(calls: seq<Dispatch>, gotdata: bool, crashed: bool)

  /**
   * A dispatch that ends the process: the nil dereference, or a
   * `ContainerRemoved` call that panics (panics says which containers'
   * removal does, given the proxy's state, which this module does not see).
   */
  predicate Fatal(d: Dispatch, panics: ContainerInfo -> bool)
  {
    d.Crash? || (d.Removed? && panics(d.info))
  }

  /**
   * The goroutine reading responses rs: nil ones are skipped, the others
   * set gotdata and are dispatched; a fatal dispatch is the last one.
   */
  function Drain(rs: seq<Option<Response>>, gotdata: bool, decode: string -> Option<ContainerInfo>, panics: ContainerInfo -> bool): Drained
    decreases |rs|
  {
    if rs == [] then Drained([], gotdata, false)
    else
      var d := DispatchOf(rs[0], decode);
      if d.Skip? then Drain(rs[1..], gotdata, decode, panics)
      else if Fatal(d, panics) then Drained([d], true, true)
      else
        var r := Drain(rs[1..], true, decode, panics);
        Drained([d] + r.calls, r.gotdata, r.crashed)
  }

  /** What one cycle of the outer loop did, and how many watch attempts it made. */
  datatype Cycle = Cycle(calls: seq<Dispatch>, attempts: nat, crashed: bool)

  /** The ticker loop of one cycle, from the given gotdata on. */
  function RunCycle(attempts: seq<Attempt>, gotdata: bool, decode: string -> Option<ContainerInfo>, panics: ContainerInfo -> bool): Cycle
    decreases |attempts|
  {
    if attempts == [] then Cycle([], 0, false)
    else
      var d := Drain(attempts[0].responses, gotdata, decode, panics);
      if d.crashed then Cycle(d.calls, 1, true)
      else if Retry(attempts[0].err, d.gotdata) then
        var r := RunCycle(attempts[1..], d.gotdata, decode, panics);
        Cycle(d.calls + r.calls, 1 + r.attempts, r.crashed)
      else Cycle(d.calls, 1, false)
  }

  /** The outer loop over the given cycles; each starts with gotdata false. */
  function RunAll(cycles: seq<seq<Attempt>>, decode: string -> Option<ContainerInfo>, panics: ContainerInfo -> bool): (seq<Dispatch>, seq<nat>, bool)
    decreases |cycles|
  {
    if cycles == [] then ([], [], false)
    else
      var c := RunCycle(cycles[0], false, decode, panics);
      if c.crashed then (c.calls, [c.attempts], true)
      else
        var r := RunAll(cycles[1..], decode, panics);
        (c.calls + r.0, [c.attempts] + r.1, r.2)
  }

  /**
   * A delete whose removal panics ends the watch there: the responses
   * after it are never dispatched.
   */
  lemma RemovalPanicStops(r: Response, ci: ContainerInfo, later: seq<Option<Response>>, gotdata: bool,
                          decode: string -> Option<ContainerInfo>, panics: ContainerInfo -> bool)
    requires r.action == "delete" && r.prevNode.Some? && decode(r.prevNode.value) == Some(ci) && panics(ci)
    ensures Drain([Some(r)] + later, gotdata, decode, panics) == Drained([Removed(ci)], true, true)
  {
    assert ([Some(r)] + later)[0] == Some(r);
  }

  /** Some response of rs is not nil. */
  predicate HasData(rs: seq<Option<Response>>)
  {
    exists i | 0 <= i < |rs| :: rs[i].Some?
  }

  /**
   * Draining sets gotdata exactly when some response is not nil, and makes
   * at most one dispatch per response; a crash ends on a fatal dispatch.
   */
  lemma {:induction false} DrainGotData(rs: seq<Option<Response>>, gotdata: bool, decode: string -> Option<ContainerInfo>, panics: ContainerInfo -> bool)
    ensures var d := Drain(rs, gotdata, decode, panics);
      !d.crashed ==> d.gotdata == (gotdata || HasData(rs)) && |d.calls| <= |rs|
    ensures var d := Drain(rs, gotdata, decode, panics);
      d.crashed ==> HasData(rs) && d.calls != [] && Fatal(d.calls[|d.calls| - 1], panics)
    decreases |rs|
  {
    if rs != [] {
      DrainGotData(rs[1..], gotdata, decode, panics);
      DrainGotData(rs[1..], true, decode, panics);
      if rs[0].Some? {
        assert HasData(rs);
      } else {
        HasDataTail(rs);
      }
    }
  }

  /** A nil first response adds no data. */
  lemma HasDataTail(rs: seq<Option<Response>>)
    requires rs != [] && rs[0].None?
    ensures HasData(rs) <==> HasData(rs[1..])
  {
    if HasData(rs) {
      var i :| 0 <= i < |rs| && rs[i].Some?;
      assert rs[1..][i - 1].Some?;
    }
    if HasData(rs[1..]) {
      var i :| 0 <= i < |rs[1..]| && rs[1..][i].Some?;
      assert rs[i + 1].Some?;
    }
  }

  /** Some response of the first n attempts is not nil. */
  predicate DataBefore(attempts: seq<Attempt>, n: nat)
    requires n <= |attempts|
  {
    exists j | 0 <= j < n :: HasData(attempts[j].responses)
  }

  /**
   * A cycle retries exactly while the watch fails and no data has arrived:
   * every attempt but the last it makes failed with no data so far, and
   * when it stops early (without crashing) the last attempt it made either
   * succeeded or came after data.
   */
  lemma {:induction false} CycleRetries(attempts: seq<Attempt>, decode: string -> Option<ContainerInfo>, panics: ContainerInfo -> bool)
    ensures var c := RunCycle(attempts, false, decode, panics);
      c.attempts <= |attempts| && (attempts != [] ==> c.attempts >= 1) &&
      (forall j | 0 <= j < c.attempts - 1 :: attempts[j].err && !DataBefore(attempts, j + 1)) &&
      (!c.crashed && c.attempts < |attempts| ==>
         !attempts[c.attempts - 1].err || DataBefore(attempts, c.attempts))
    decreases |attempts|
  {
    if attempts != [] {
      var d := Drain(attempts[0].responses, false, decode, panics);
      DrainGotData(attempts[0].responses, false, decode, panics);
      var c := RunCycle(attempts, false, decode, panics);
      if !d.crashed && Retry(attempts[0].err, d.gotdata) {
        var rest := attempts[1..];
        assert !HasData(attempts[0].responses);
        CycleRetries(rest, decode, panics);
        forall n | 1 <= n <= |attempts|
          ensures DataBefore(attempts, n) <==> DataBefore(rest, n - 1)
        {
          if DataBefore(attempts, n) {
            var j :| 0 <= j < n && HasData(attempts[j].responses);
            assert j != 0;
            assert HasData(rest[j - 1].responses);
          }
          if DataBefore(rest, n - 1) {
            var j :| 0 <= j < n - 1 && HasData(rest[j].responses);
            assert HasData(attempts[j + 1].responses);
          }
        }
        var r := RunCycle(rest, false, decode, panics);
        forall j | 0 <= j < c.attempts - 1
          ensures attempts[j].err && !DataBefore(attempts, j + 1)
        {
          if j > 0 {
            assert attempts[j] == rest[j - 1];
          } else {
            assert !DataBefore(attempts, 1);
          }
        }
        if !c.crashed && c.attempts < |attempts| {
          assert attempts[c.attempts - 1] == rest[r.attempts - 1];
        }
      } else if !d.crashed {
        assert d.gotdata ==> DataBefore(attempts, 1) by {
          if d.gotdata {
            assert HasData(attempts[0].responses);
          }
        }
      }
    }
  }

  /** gotdata starts false in every cycle: data seen in one cycle does not stop the next from retrying. */
  lemma FreshCycleRetries(r: Response, decode: string -> Option<ContainerInfo>, panics: ContainerInfo -> bool)
    requires r.action != "set" && r.action != "delete"
    ensures var first := [Attempt([Some(r)], true)];
      var second := [Attempt([], true), Attempt([], false)];
      RunAll([first, second], decode, panics) == ([NoCall], [1, 2], false)
  {
    var first := [Attempt([Some(r)], true)];
    var second := [Attempt([], true), Attempt([], false)];
    assert Drain([Some(r)], false, decode, panics) == Drained([NoCall], true, false);
    assert RunCycle(first, false, decode, panics) == Cycle([NoCall], 1, false);
    assert second[1..] == [Attempt([], false)];
    assert RunCycle([Attempt([], false)], false, decode, panics) == Cycle([], 1, false);
    assert RunCycle(second, false, decode, panics) == Cycle([], 2, false);
    assert [first, second][1..] == [second];
    var none: seq<seq<Attempt>> := [];
    assert [second][1..] == none;
    var noCalls: seq<Dispatch> := [];
    var noCounts: seq<nat> := [];
    assert RunAll(none, decode, panics) == (noCalls, noCounts, false);
    assert noCalls + noCalls == noCalls && [2] + noCounts == [2];
    assert RunAll([second], decode, panics) == ([], [2], false);
    assert [NoCall] + noCalls == [NoCall] && [1] + [2] == [1, 2];
    assert RunAll([first, second], decode, panics) == ([NoCall] + noCalls, [1] + [2], false);
  }

  /** The goroutine over the responses of one watch; it stops at a crash. */
  method DrainResponses(rs: seq<Option<Response>>, gotdata0: bool, decode: string -> Option<ContainerInfo>, panics: ContainerInfo -> bool)
    returns (calls: seq<Dispatch>, gotdata: bool, crashed: bool)
    ensures Drained(calls, gotdata, crashed) == Drain(rs, gotdata0, decode, panics)
  {
    calls, gotdata, crashed := [], gotdata0, false;
    var i := 0;
    assert rs[0..] == rs;
    assert calls + Drain(rs, gotdata0, decode, panics).calls == Drain(rs, gotdata0, decode, panics).calls;
    while i < |rs|
      invariant 0 <= i <= |rs|
      invariant var d := Drain(rs[i..], gotdata, decode, panics);
        Drained(calls + d.calls, d.gotdata, d.crashed) == Drain(rs, gotdata0, decode, panics)
    {
      assert rs[i..][1..] == rs[i + 1..];
      var r := rs[i];
      ghost var d0 := Drain(rs[i..], gotdata, decode, panics);
      i := i + 1;
      if r == None {
        assert d0 == Drain(rs[i..], gotdata, decode, panics);
        continue;
      }
      var d := DispatchOf(r, decode);
      if Fatal(d, panics) {
        assert d0 == Drained([d], true, true);
        calls, gotdata, crashed := calls + [d], true, true;
        return;
      }
      ghost var later := Drain(rs[i..], true, decode, panics);
      assert d0 == Drained([d] + later.calls, later.gotdata, later.crashed);
      assert calls + ([d] + later.calls) == (calls + [d]) + later.calls;
      calls, gotdata := calls + [d], true;
    }
    assert rs[i..] == [];
    assert calls + [] == calls;
  }

  /** The ticker loop of one cycle: watch, then retry or break. */
  method WatchCycle(attempts: seq<Attempt>, decode: string -> Option<ContainerInfo>, panics: ContainerInfo -> bool)
    returns (calls: seq<Dispatch>, made: nat, crashed: bool)
    ensures Cycle(calls, made, crashed) == RunCycle(attempts, false, decode, panics)
  {
    var gotdata := false;
    calls, made, crashed := [], 0, false;
    assert attempts[0..] == attempts;
    assert calls + RunCycle(attempts, false, decode, panics).calls == RunCycle(attempts, false, decode, panics).calls;
    while made < |attempts|
      invariant 0 <= made <= |attempts|
      invariant var c := RunCycle(attempts[made..], gotdata, decode, panics);
        Cycle(calls + c.calls, made + c.attempts, c.crashed) == RunCycle(attempts, false, decode, panics)
    {
      assert attempts[made..][1..] == attempts[made + 1..];
      var a := attempts[made];
      ghost var c0 := RunCycle(attempts[made..], gotdata, decode, panics);
      var newCalls, gotdata', crash := DrainResponses(a.responses, gotdata, decode, panics);
      ghost var later := RunCycle(attempts[made + 1..], gotdata', decode, panics);
      if crash {
        assert c0 == Cycle(newCalls, 1, true);
        calls := calls + newCalls;
        made := made + 1;
        assert calls + [] == calls;
        crashed := true;
        return;
      }
      if a.err && !gotdata' {
        assert c0 == Cycle(newCalls + later.calls, 1 + later.attempts, later.crashed);
        assert calls + (newCalls + later.calls) == (calls + newCalls) + later.calls;
        calls, gotdata, made := calls + newCalls, gotdata', made + 1;
        continue;
      }
      assert c0 == Cycle(newCalls, 1, false);
      calls, gotdata, made := calls + newCalls, gotdata', made + 1;
      break;
    }
  }

  /** `doWatch` over the given cycles of the outer loop; a crash ends the process. */
  method DoWatch(cycles: seq<seq<Attempt>>, decode: string -> Option<ContainerInfo>, panics: ContainerInfo -> bool)
    returns (calls: seq<Dispatch>, attempts: seq<nat>, crashed: bool)
    ensures (calls, attempts, crashed) == RunAll(cycles, decode, panics)
  {
    calls, attempts, crashed := [], [], false;
    var i := 0;
    ghost var total := RunAll(cycles, decode, panics);
    assert cycles[0..] == cycles;
    assert calls + total.0 == total.0 && attempts + total.1 == total.1;
    while i < |cycles|
      invariant 0 <= i <= |cycles|
      invariant var r := RunAll(cycles[i..], decode, panics);
        calls + r.0 == total.0 && attempts + r.1 == total.1 && r.2 == total.2
    {
      assert cycles[i..][1..] == cycles[i + 1..];
      ghost var r0 := RunAll(cycles[i..], decode, panics);
      var cycleCalls, made, crash := WatchCycle(cycles[i], decode, panics);
      if crash {
        assert r0 == (cycleCalls, [made], true);
        calls, attempts, crashed := calls + cycleCalls, attempts + [made], true;
        return;
      }
      ghost var rest := RunAll(cycles[i + 1..], decode, panics);
      assert r0 == (cycleCalls + rest.0, [made] + rest.1, rest.2);
      assert calls + (cycleCalls + rest.0) == (calls + cycleCalls) + rest.0;
      assert attempts + ([made] + rest.1) == (attempts + [made]) + rest.1;
      calls, attempts := calls + cycleCalls, attempts + [made];
      i := i + 1;
    }
    assert cycles[i..] == [];
    assert calls + [] == calls && attempts + [] == attempts;
  }
}
