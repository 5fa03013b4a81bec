/**
 * The proxy control plane as the reconciler sees it (the aqueduct client's
 * `Member`, `Backend` and `Frontend` and its five calls), and a fake of it:
 * a key-to-backend map, a key-to-frontend map, a set of keys on which calls
 * fail, and the trace of every call made.
 *
 * The fake's state is a value (`Plane`) with one transition function per
 * call; the class `Client` performs those transitions in place.
 */
module Aqueduct {
  import opened Wrappers
  import opened Strconv

  /** A traffic target of a backend. */
  datatype Member = Member(host: string, port: Int64)

  /** The fields of a backend the reconciler sets or reads. */
  datatype BackendRec = BackendRec(
    key: string,
    id: string,
    name: string,
    kind: string,
    mode: string,
    balance: string,
    members: seq<Member>)

  /** The fields of a frontend the reconciler sets. */
  datatype FrontendRec = FrontendRec(bind: string, backend: string, kind: string, mode: string)

  /** A backend object (`*aqueduct.Backend`), which the reconciler updates in place. */
  class Backend {
    var key: string
    var id: string
    var name: string
    var kind: string
    var mode: string
    var balance: string
    var members: seq<Member>

    /** The backend's current field values. */
    function Value(): BackendRec
      reads this
    {
      BackendRec(key, id, name, kind, mode, balance, members)
    }

    constructor (r: BackendRec)
      ensures Value() == r
    {
      key, id, name, kind, mode, balance, members := r.key, r.id, r.name, r.kind, r.mode, r.balance, r.members;
    }
  }

  /** One call issued to the control plane. */
  datatype Call =
    | GetBackendByKey(key: string)
    | PutBackend(key: string, backend: BackendRec)
    | PutFrontend(key: string, frontend: FrontendRec)
    | DeleteFrontend(key: string)
    | DeleteBackend(key: string)

  /** The fake control plane's state. */
  datatype Plane = Plane(
    backends: map<string, BackendRec>,
    frontends: map<string, FrontendRec>,
    failing: set<string>,
    trace: seq<Call>)

  /**
   * What GetBackendByKey returns: nothing (an error) when the key's calls
   * fail or no backend is stored under it; otherwise the stored backend,
   * reported with the key it is stored under.
   */
  function Lookup(p: Plane, key: string): (r: Option<BackendRec>)
    ensures r.Some? <==> key !in p.failing && key in p.backends
    ensures r.Some? ==> r.value.key == key && r.value.members == p.backends[key].members
  {
    if key in p.failing || key !in p.backends then None else Some(p.backends[key].(key := key))
  }

  function AfterGet(p: Plane, key: string): Plane
  {
    p.(trace := p.trace + [GetBackendByKey(key)])
  }

  /** PutBackend stores the backend unless the key's calls fail. */
  function AfterPutBackend(p: Plane, key: string, b: BackendRec): Plane
  {
    p.(backends := if key in p.failing then p.backends else p.backends[key := b],
       trace := p.trace + [PutBackend(key, b)])
  }

  function AfterPutFrontend(p: Plane, key: string, f: FrontendRec): Plane
  {
    p.(frontends := if key in p.failing then p.frontends else p.frontends[key := f],
       trace := p.trace + [PutFrontend(key, f)])
  }

  function AfterDeleteFrontend(p: Plane, key: string): Plane
  {
    p.(frontends := if key in p.failing then p.frontends else p.frontends - {key},
       trace := p.trace + [DeleteFrontend(key)])
  }

  function AfterDeleteBackend(p: Plane, key: string): Plane
  {
    p.(backends := if key in p.failing then p.backends else p.backends - {key},
       trace := p.trace + [DeleteBackend(key)])
  }

  /** The fake aqueduct client. */
  class Client {
    var backends: map<string, BackendRec>
    var frontends: map<string, FrontendRec>
    var failing: set<string>
    var trace: seq<Call>

    function State(): Plane
      reads this
    {
      Plane(backends, frontends, failing, trace)
    }

    constructor (p: Plane)
      ensures State() == p
    {
      backends, frontends, failing, trace := p.backends, p.frontends, p.failing, p.trace;
    }

    /** Returns a fresh backend object, or nil and an error. */
    method GetBackendByKey(key: string) returns (b: Backend?, err: bool)
      modifies this
      ensures State() == AfterGet(old(State()), key)
      ensures err <==> Lookup(old(State()), key).None?
      ensures err ==> b == null
      ensures !err ==> b != null && fresh(b) && b.Value() == Lookup(old(State()), key).value
    {
      trace := trace + [Call.GetBackendByKey(key)];
      if key in failing || key !in backends {
        b, err := null, true;
      } else {
        b := new Backend(backends[key].(key := key));
        err := false;
      }
    }

    method PutBackend(key: string, b: Backend) returns (err: bool)
      modifies this
      ensures State() == AfterPutBackend(old(State()), key, b.Value())
      ensures err <==> key in old(failing)
    {
      var v := b.Value();
      trace := trace + [Call.PutBackend(key, v)];
      err := key in failing;
      if !err {
        backends := backends[key := v];
      }
    }

    method PutFrontend(key: string, f: FrontendRec) returns (err: bool)
      modifies this
      ensures State() == AfterPutFrontend(old(State()), key, f)
      ensures err <==> key in old(failing)
    {
      trace := trace + [Call.PutFrontend(key, f)];
      err := key in failing;
      if !err {
        frontends := frontends[key := f];
      }
    }

    method DeleteFrontend(key: string) returns (err: bool)
      modifies this
      ensures State() == AfterDeleteFrontend(old(State()), key)
      ensures err <==> key in old(failing) || key !in old(frontends)
    {
      trace := trace + [Call.DeleteFrontend(key)];
      err := key in failing || key !in frontends;
      if key !in failing {
        frontends := frontends - {key};
      }
    }

    method DeleteBackend(key: string) returns (err: bool)
      modifies this
      ensures State() == AfterDeleteBackend(old(State()), key)
      ensures err <==> key in old(failing) || key !in old(backends)
    {
      trace := trace + [Call.DeleteBackend(key)];
      err := key in failing || key !in backends;
      if key !in failing {
        backends := backends - {key};
      }
    }
  }
}
