/**
 * The two drivers of deckhand/haproxy.go, `ContainerUpdate` and
 * `ContainerRemoved`, run against the fake control plane.
 *
 * Both visit Go maps, so their visiting order is not fixed. Each method
 * reports the order it used as a ghost result. The new control-plane
 * state is a fold, over that order, of the calls one iteration issues.
 * The lemmas below hold for every order.
 */
module Reconciler {
  import opened Wrappers
  import opened Strconv
  import opened Docker
  import opened Nats
  import opened Aqueduct
  import opened Members
  import opened Builders

  /** No key is visited twice. */
  predicate Distinct(s: seq<string>)
  {
    forall i, j | 0 <= i < j < |s| :: s[i] != s[j]
  }

  /** s visits each key of keys exactly once. */
  ghost predicate Enumerates(s: seq<string>, keys: set<string>)
  {
    Distinct(s) && forall k :: k in s <==> k in keys
  }

  // ------------------------------------------------------ ContainerUpdate

  /**
   * What ContainerUpdate writes for the built backend v under key k: v
   * merged with the live backend, or v itself when the lookup failed
   * (mergeMembers with a nil backend changes nothing).
   */
  function MergedFor(p: Plane, k: string, v: BackendRec): BackendRec
  {
    match Lookup(p, k)
    case None => v
    case Some(live) => v.(members := Merged(v.members, live.members))
  }

  /** One iteration of the backend loop of ContainerUpdate: look up, merge, put. */
  function UpdateStep(p: Plane, k: string, v: BackendRec): Plane
  {
    AfterPutBackend(AfterGet(p, k), k, MergedFor(p, k, v))
  }

  /** The backend loop of ContainerUpdate over the keys in order. */
  function UpdateBackends(p: Plane, order: seq<string>, built: map<string, BackendRec>): Plane
    requires forall k | k in order :: k in built
  {
    if order == [] then p
    else
      var k := order[|order| - 1];
      UpdateStep(UpdateBackends(p, order[..|order| - 1], built), k, built[k])
  }

  /** The frontend loop of ContainerUpdate over the keys in order. */
  function PutFrontends(p: Plane, order: seq<string>, fronts: map<string, FrontendRec>): Plane
    requires forall k | k in order :: k in fronts
  {
    if order == [] then p
    else
      var q := PutFrontends(p, order[..|order| - 1], fronts);
      var k := order[|order| - 1];
      AfterPutFrontend(q, k, fronts[k])
  }

  // ----------------------------------------------------- ContainerRemoved

  /** How ContainerRemoved ends. */
  datatype Outcome =
    | Completed
      /** A lookup failed: the method returned and visited no further backend. */
    | Aborted(key: string)
      /** The splice went past the slice's length: a Go runtime panic. */
    | Panicked(key: string)

  /**
   * One iteration of ContainerRemoved for built backend b: look up the
   * live backend by b's name; stop on an error; tear the end down when
   * isLastMembers says so; otherwise splice b's members out of the live
   * ones and put the rest back with key and id cleared.
   */
  function RemoveStep(p: Plane, b: BackendRec): (Plane, Outcome)
  {
    var p1 := AfterGet(p, b.name);
    match Lookup(p, b.name)
    case None => (p1, Aborted(b.name))
    case Some(live) =>
      if LastByCount(live.members, b.members) then
        (AfterDeleteBackend(AfterDeleteFrontend(p1, live.key), live.key), Completed)
      else
        match RemoveMembers(live.members, b.members)
        case None => (p1, Panicked(b.name))
        case Some(ms) => (AfterPutBackend(p1, live.key, live.(key := "", id := "", members := ms)), Completed)
  }

  /** The loop of ContainerRemoved over the keys in order; it stops at the first non-Completed step. */
  function RemoveAll(p: Plane, order: seq<string>, built: map<string, BackendRec>): (Plane, Outcome)
    requires forall k | k in order :: k in built
  {
    if order == [] then (p, Completed)
    else
      var r := RemoveAll(p, order[..|order| - 1], built);
      if r.1.Completed? then RemoveStep(r.0, built[order[|order| - 1]]) else r
  }

  // ------------------------------------------- what ContainerUpdate does

  lemma DistinctPrefix(s: seq<string>)
    requires Distinct(s) && s != []
    ensures Distinct(s[..|s| - 1]) && s[|s| - 1] !in s[..|s| - 1]
  {
  }

  /**
   * After the backend loop, over any order visiting each key once: every
   * built backend whose key accepts calls is stored merged with the live
   * backend as it was before the loop; every other backend, and all
   * frontends, are as before.
   */
  lemma {:induction false} UpdateEffect(p: Plane, order: seq<string>, built: map<string, BackendRec>)
    requires Distinct(order) && forall k | k in order :: k in built
    ensures var q := UpdateBackends(p, order, built);
      q.frontends == p.frontends && q.failing == p.failing &&
      (forall k | k in order && k !in p.failing :: k in q.backends && q.backends[k] == MergedFor(p, k, built[k])) &&
      (forall k | k !in order || k in p.failing ::
         (k in q.backends <==> k in p.backends) && (k in p.backends ==> q.backends[k] == p.backends[k]))
  {
    if order != [] {
      var pre, k := order[..|order| - 1], order[|order| - 1];
      DistinctPrefix(order);
      UpdateEffect(p, pre, built);
      var q0 := UpdateBackends(p, pre, built);
      assert Lookup(q0, k) == Lookup(p, k);
      forall x | x in order
        ensures x in pre || x == k
      {
        var j :| 0 <= j < |order| && order[j] == x;
        if j < |order| - 1 {
          assert pre[j] == x;
        }
      }
    }
  }

  /**
   * The calls of the backend loop: for each key in order, one
   * GetBackendByKey and then one PutBackend of the merged backend, the
   * put issued even when the lookup failed.
   */
  lemma {:induction false} UpdateTrace(p: Plane, order: seq<string>, built: map<string, BackendRec>)
    requires Distinct(order) && forall k | k in order :: k in built
    ensures var q := UpdateBackends(p, order, built);
      |q.trace| == |p.trace| + 2 * |order| && q.trace[..|p.trace|] == p.trace &&
      forall j | 0 <= j < |order| ::
        q.trace[|p.trace| + 2 * j] == GetBackendByKey(order[j]) &&
        q.trace[|p.trace| + 2 * j + 1] == PutBackend(order[j], MergedFor(p, order[j], built[order[j]]))
  {
    if order != [] {
      var pre, k := order[..|order| - 1], order[|order| - 1];
      DistinctPrefix(order);
      UpdateTrace(p, pre, built);
      UpdateEffect(p, pre, built);
      var q0 := UpdateBackends(p, pre, built);
      assert Lookup(q0, k) == Lookup(p, k);
      var q := UpdateBackends(p, order, built);
      assert q.trace == q0.trace + [GetBackendByKey(k), PutBackend(k, MergedFor(p, k, built[k]))];
      forall j | 0 <= j < |order|
        ensures q.trace[|p.trace| + 2 * j] == GetBackendByKey(order[j])
        ensures q.trace[|p.trace| + 2 * j + 1] == PutBackend(order[j], MergedFor(p, order[j], built[order[j]]))
      {
        if j < |order| - 1 {
          assert order[j] == pre[j];
        }
      }
    }
  }

  /**
   * The merge keeps the built members as a prefix, and when the built
   * backend has members it keeps every live member too; fields other than
   * the members are the built ones.
   */
  lemma MergedForKeeps(p: Plane, k: string, v: BackendRec)
    ensures MergedFor(p, k, v).(members := v.members) == v
    ensures |MergedFor(p, k, v).members| >= |v.members| && MergedFor(p, k, v).members[..|v.members|] == v.members
    ensures Lookup(p, k).Some? && v.members != [] ==>
      forall x | x in Lookup(p, k).value.members :: x in MergedFor(p, k, v).members
  {
    match Lookup(p, k)
    case None =>
    case Some(live) =>
      forall x | x in live.members
        ensures v.members != [] ==> x in MergedFor(p, k, v).members
      {
        MergedMembership(v.members, live.members, x);
      }
  }

  /**
   * The frontend loop, over any order visiting each key once: every
   * frontend whose key accepts calls is stored, one PutFrontend per key in
   * order; backends are untouched.
   */
  lemma {:induction false} FrontendsEffect(p: Plane, order: seq<string>, fronts: map<string, FrontendRec>)
    requires Distinct(order) && forall k | k in order :: k in fronts
    ensures var q := PutFrontends(p, order, fronts);
      q.backends == p.backends && q.failing == p.failing &&
      (forall k | k in order && k !in p.failing :: k in q.frontends && q.frontends[k] == fronts[k]) &&
      (forall k | k !in order || k in p.failing ::
         (k in q.frontends <==> k in p.frontends) && (k in p.frontends ==> q.frontends[k] == p.frontends[k])) &&
      |q.trace| == |p.trace| + |order| && q.trace[..|p.trace|] == p.trace &&
      forall j | 0 <= j < |order| :: q.trace[|p.trace| + j] == PutFrontend(order[j], fronts[order[j]])
  {
    if order != [] {
      var pre, k := order[..|order| - 1], order[|order| - 1];
      DistinctPrefix(order);
      FrontendsEffect(p, pre, fronts);
      var q0 := PutFrontends(p, pre, fronts);
      var q := PutFrontends(p, order, fronts);
      assert q.trace == q0.trace + [PutFrontend(k, fronts[k])];
      forall x | x in order
        ensures x in pre || x == k
      {
        var j :| 0 <= j < |order| && order[j] == x;
        if j < |order| - 1 {
          assert pre[j] == x;
        }
      }
      forall j | 0 <= j < |order|
        ensures q.trace[|p.trace| + j] == PutFrontend(order[j], fronts[order[j]])
      {
        if j < |order| - 1 {
          assert order[j] == pre[j];
        }
      }
    }
  }

  /**
   * The calls of a whole ContainerUpdate: 2 per backend and 1 per
   * frontend, and every backend put comes before every frontend put.
   */
  lemma UpdateOrdering(p: Plane, bOrder: seq<string>, built: map<string, BackendRec>,
                       fOrder: seq<string>, fronts: map<string, FrontendRec>)
    requires forall k | k in bOrder :: k in built
    requires forall k | k in fOrder :: k in fronts
    ensures var r := PutFrontends(UpdateBackends(p, bOrder, built), fOrder, fronts);
      |r.trace| == |p.trace| + 2 * |bOrder| + |fOrder| && r.trace[..|p.trace|] == p.trace &&
      forall i, j | |p.trace| <= i < j < |r.trace| :: !(r.trace[i].PutFrontend? && r.trace[j].PutBackend?)
  {
    var q := UpdateBackends(p, bOrder, built);
    var r := PutFrontends(q, fOrder, fronts);
    BackendCallKinds(p, bOrder, built);
    FrontendCallKinds(q, fOrder, fronts);
    assert r.trace[..|p.trace|] == r.trace[..|q.trace|][..|p.trace|];
    forall i | |p.trace| <= i < |q.trace|
      ensures !r.trace[i].PutFrontend?
    {
      assert r.trace[i] == r.trace[..|q.trace|][i];
    }
  }

  /** The backend loop only appends lookups and backend puts, two per key. */
  lemma {:induction false} BackendCallKinds(p: Plane, order: seq<string>, built: map<string, BackendRec>)
    requires forall k | k in order :: k in built
    ensures var q := UpdateBackends(p, order, built);
      |q.trace| == |p.trace| + 2 * |order| && q.trace[..|p.trace|] == p.trace &&
      forall i | |p.trace| <= i < |q.trace| :: q.trace[i].GetBackendByKey? || q.trace[i].PutBackend?
  {
    if order != [] {
      var pre, k := order[..|order| - 1], order[|order| - 1];
      BackendCallKinds(p, pre, built);
      var q0 := UpdateBackends(p, pre, built);
      var q := UpdateBackends(p, order, built);
      assert q.trace == q0.trace + [GetBackendByKey(k), PutBackend(k, MergedFor(q0, k, built[k]))];
      assert q.trace[..|p.trace|] == q0.trace[..|p.trace|];
    }
  }

  /** The frontend loop only appends frontend puts, one per key. */
  lemma {:induction false} FrontendCallKinds(p: Plane, order: seq<string>, fronts: map<string, FrontendRec>)
    requires forall k | k in order :: k in fronts
    ensures var q := PutFrontends(p, order, fronts);
      |q.trace| == |p.trace| + |order| && q.trace[..|p.trace|] == p.trace &&
      forall i | |p.trace| <= i < |q.trace| :: q.trace[i].PutFrontend?
  {
    if order != [] {
      var pre, k := order[..|order| - 1], order[|order| - 1];
      FrontendCallKinds(p, pre, fronts);
      var q0 := PutFrontends(p, pre, fronts);
      var q := PutFrontends(p, order, fronts);
      assert q.trace == q0.trace + [PutFrontend(k, fronts[k])];
      assert q.trace[..|p.trace|] == q0.trace[..|p.trace|];
    }
  }

  // ------------------------------------------ what ContainerRemoved does

  /**
   * Once a step has not completed, whatever keys were still to be visited
   * get no call at all: a failed lookup returns from ContainerRemoved.
   */
  lemma {:induction false} RemoveAllStops(p: Plane, order: seq<string>, rest: seq<string>, built: map<string, BackendRec>)
    requires forall k | k in order + rest :: k in built
    requires !RemoveAll(p, order, built).1.Completed?
    ensures RemoveAll(p, order + rest, built) == RemoveAll(p, order, built)
    decreases |rest|
  {
    if rest == [] {
      assert order + rest == order;
    } else {
      var rest0 := rest[..|rest| - 1];
      assert (order + rest)[..|order + rest| - 1] == order + rest0;
      RemoveAllStops(p, order, rest0, built);
    }
  }

  /**
   * A run that does not complete ends on the GetBackendByKey of the key
   * where it stopped; when it aborted, that lookup fails.
   */
  lemma {:induction false} RemoveAllEndsOnGet(p: Plane, order: seq<string>, built: map<string, BackendRec>)
    requires forall k | k in order :: k in built
    ensures var r := RemoveAll(p, order, built);
      !r.1.Completed? ==>
        |r.0.trace| > |p.trace| && r.0.trace[|r.0.trace| - 1] == GetBackendByKey(r.1.key) &&
        (r.1.Aborted? ==> Lookup(r.0, r.1.key).None?)
  {
    if order != [] {
      var pre := order[..|order| - 1];
      var q := RemoveAll(p, pre, built);
      if q.1.Completed? {
        RemoveAllTraceGrows(p, pre, built);
        RemoveStepEndsOnGet(q.0, built[order[|order| - 1]]);
      } else {
        RemoveAllEndsOnGet(p, pre, built);
      }
    }
  }

  /** A step that does not complete issued only its lookup, of b's name. */
  lemma RemoveStepEndsOnGet(p: Plane, b: BackendRec)
    ensures var r := RemoveStep(p, b);
      !r.1.Completed? ==>
        r.0 == AfterGet(p, b.name) && r.1.key == b.name &&
        (r.1.Aborted? ==> Lookup(r.0, b.name).None?)
  {
  }

  lemma {:induction false} RemoveAllTraceGrows(p: Plane, order: seq<string>, built: map<string, BackendRec>)
    requires forall k | k in order :: k in built
    ensures |RemoveAll(p, order, built).0.trace| >= |p.trace|
    ensures RemoveAll(p, order, built).0.trace[..|p.trace|] == p.trace
  {
    if order != [] {
      var pre := order[..|order| - 1];
      RemoveAllTraceGrows(p, pre, built);
      var q := RemoveAll(p, pre, built);
      var r := RemoveAll(p, order, built).0;
      if q.1.Completed? {
        RemoveStepTraceGrows(q.0, built[order[|order| - 1]]);
        assert r.trace[..|p.trace|] == r.trace[..|q.0.trace|][..|p.trace|];
      }
    }
  }

  /** One step of ContainerRemoved only appends to the trace. */
  lemma RemoveStepTraceGrows(p: Plane, b: BackendRec)
    ensures |RemoveStep(p, b).0.trace| >= |p.trace|
    ensures RemoveStep(p, b).0.trace[..|p.trace|] == p.trace
  {
    var s := RemoveStep(p, b).0;
    assert AfterGet(p, b.name).trace == p.trace + [GetBackendByKey(b.name)];
  }

  /**
   * The calls a run of ContainerRemoved issues from index `from` of the
   * trace on: each DeleteFrontend(x) follows a lookup and is followed at
   * once by DeleteBackend(x), each DeleteBackend(x) directly follows
   * DeleteFrontend(x), every PutBackend carries an empty key and id, and
   * no frontend is put.
   */
  ghost predicate RemovalShaped(t: seq<Call>, from: nat)
  {
    forall i | from <= i < |t| :: ShapedAt(t, from, i)
  }

  ghost predicate ShapedAt(t: seq<Call>, from: nat, i: nat)
    requires from <= i < |t|
  {
    (t[i].DeleteFrontend? ==> from < i && t[i - 1].GetBackendByKey? && i + 1 < |t| && t[i + 1] == DeleteBackend(t[i].key)) &&
    (t[i].DeleteBackend? ==> from < i && t[i - 1] == DeleteFrontend(t[i].key)) &&
    (t[i].PutBackend? ==> t[i].backend.key == "" && t[i].backend.id == "") &&
    !t[i].PutFrontend?
  }

  lemma ExtendShaped(t: seq<Call>, ext: seq<Call>, from: nat)
    requires from <= |t| && RemovalShaped(t, from) && RemovalShaped(ext, 0)
    ensures RemovalShaped(t + ext, from)
  {
    var u := t + ext;
    forall i | from <= i < |u|
      ensures ShapedAt(u, from, i)
    {
      if i < |t| {
        assert ShapedAt(t, from, i);
        assert u[i] == t[i];
        if i + 1 < |t| {
          assert u[i + 1] == t[i + 1];
        }
        if from < i {
          assert u[i - 1] == t[i - 1];
        }
      } else {
        var j := i - |t|;
        assert ShapedAt(ext, 0, j);
        assert u[i] == ext[j];
        if j + 1 < |ext| {
          assert u[i + 1] == ext[j + 1];
        }
        if 0 < j {
          assert u[i - 1] == ext[j - 1];
        }
      }
    }
  }

  lemma RemoveStepShaped(p: Plane, b: BackendRec, from: nat)
    requires from <= |p.trace| && RemovalShaped(p.trace, from)
    ensures RemovalShaped(RemoveStep(p, b).0.trace, from)
  {
    var ext: seq<Call>;
    match Lookup(p, b.name) {
      case None =>
        ext := [GetBackendByKey(b.name)];
      case Some(live) =>
        if LastByCount(live.members, b.members) {
          ext := [GetBackendByKey(b.name), DeleteFrontend(live.key), DeleteBackend(live.key)];
          assert ShapedAt(ext, 0, 1) && ShapedAt(ext, 0, 2);
        } else if RemoveMembers(live.members, b.members).None? {
          ext := [GetBackendByKey(b.name)];
        } else {
          var ms := RemoveMembers(live.members, b.members).value;
          ext := [GetBackendByKey(b.name), PutBackend(live.key, live.(key := "", id := "", members := ms))];
          assert ShapedAt(ext, 0, 1);
        }
    }
    assert ShapedAt(ext, 0, 0);
    assert RemoveStep(p, b).0.trace == p.trace + ext;
    ExtendShaped(p.trace, ext, from);
  }

  lemma {:induction false} RemoveAllShaped(p: Plane, order: seq<string>, built: map<string, BackendRec>)
    requires forall k | k in order :: k in built
    ensures RemovalShaped(RemoveAll(p, order, built).0.trace, |p.trace|)
  {
    if order != [] {
      var pre := order[..|order| - 1];
      RemoveAllShaped(p, pre, built);
      RemoveAllTraceGrows(p, pre, built);
      var r := RemoveAll(p, pre, built);
      if r.1.Completed? {
        RemoveStepShaped(r.0, built[order[|order| - 1]], |p.trace|);
      }
    }
  }

  /**
   * In the partial branch the backend is written back under its key with
   * key and id cleared, its other fields as they were live, and its
   * members a sub-multiset of the live ones; when none of the live
   * members was contributed, the members are written back unchanged.
   */
  lemma RemovePartialWrites(p: Plane, b: BackendRec)
    requires Lookup(p, b.name).Some?
    requires !LastByCount(Lookup(p, b.name).value.members, b.members)
    requires RemoveStep(p, b).1.Completed?
    ensures var live := Lookup(p, b.name).value;
      var q := RemoveStep(p, b).0;
      b.name in q.backends &&
      q.backends[b.name].key == "" && q.backends[b.name].id == "" &&
      q.backends[b.name].(key := live.key, id := live.id, members := live.members) == live &&
      multiset(q.backends[b.name].members) <= multiset(live.members) &&
      ((forall k | 0 <= k < |live.members| :: live.members[k] !in b.members) ==> q.backends[b.name].members == live.members)
  {
    var live := Lookup(p, b.name).value;
    RemoveShrinks(live.members, b.members);
    if forall k | 0 <= k < |live.members| :: live.members[k] !in b.members {
      RemoveNoMatch(live.members, b.members);
    }
  }

  /**
   * In the last-members branch the frontend and the backend of the key
   * are both gone afterwards (when the key accepts calls), and nothing is
   * put.
   */
  lemma TeardownRemoves(p: Plane, b: BackendRec)
    requires Lookup(p, b.name).Some?
    requires LastByCount(Lookup(p, b.name).value.members, b.members)
    ensures var q := RemoveStep(p, b);
      q.1.Completed? && b.name !in q.0.backends && b.name !in q.0.frontends &&
      q.0.trace == p.trace + [GetBackendByKey(b.name), DeleteFrontend(b.name), DeleteBackend(b.name)]
  {
  }

  // -------------------------------------------------------------- drivers

  /** The HAProxy driver; the Docker client it also holds is never used here. */
  class HAProxy {
    const client: Client

    constructor (client: Client)
      ensures this.client == client
    {
      this.client := client;
    }

    /** The body of the backend loop of ContainerUpdate for key k and built backend v. */
    method UpdateOne(k: string, v: BackendRec)
      modifies client
      ensures client.State() == UpdateStep(old(client.State()), k, v)
    {
      var b := new Backend(v);
      var live, getErr := client.GetBackendByKey(k);
      MergeMembers(b, live);
      var putErr := client.PutBackend(k, b);
    }

    /**
     * The body of the loop of ContainerRemoved for built backend b;
     * Aborted stands for its `return`, Panicked for the runtime panic.
     */
    method RemoveOne(b: BackendRec) returns (outcome: Outcome)
      modifies client
      ensures (client.State(), outcome) == RemoveStep(old(client.State()), b)
    {
      var live, err := client.GetBackendByKey(b.name);
      if err {
        return Aborted(b.name);
      }
      var last := IsLastMembers(live.Value(), b);
      if last {
        var delFrontErr := client.DeleteFrontend(live.key);
        var delBackErr := client.DeleteBackend(live.key);
      } else {
        var panicked := RemoveMatching(live, b.members);
        if panicked {
          return Panicked(b.name);
        }
        var key := live.key;
        live.key := "";
        live.id := "";
        var putErr := client.PutBackend(key, live);
      }
      return Completed;
    }

    /** The backend loop of ContainerUpdate. */
    method UpdateAll(backends: map<string, BackendRec>) returns (ghost order: seq<string>)
      modifies client
      ensures Enumerates(order, backends.Keys)
      ensures client.State() == UpdateBackends(old(client.State()), order, backends)
    {
      var todo := backends.Keys;
      order := [];
      while todo != {}
        invariant todo <= backends.Keys
        invariant forall k :: k in order <==> k in backends && k !in todo
        invariant Distinct(order)
        invariant client.State() == UpdateBackends(old(client.State()), order, backends)
        decreases todo
      {
        var k :| k in todo;
        UpdateOne(k, backends[k]);
        assert (order + [k])[..|order|] == order;
        order := order + [k];
        todo := todo - {k};
      }
    }

    /** The frontend loop of ContainerUpdate. */
    method PutAllFrontends(frontends: map<string, FrontendRec>) returns (ghost order: seq<string>)
      modifies client
      ensures Enumerates(order, frontends.Keys)
      ensures client.State() == PutFrontends(old(client.State()), order, frontends)
    {
      var todo := frontends.Keys;
      order := [];
      while todo != {}
        invariant todo <= frontends.Keys
        invariant forall k :: k in order <==> k in frontends && k !in todo
        invariant Distinct(order)
        invariant client.State() == PutFrontends(old(client.State()), order, frontends)
        decreases todo
      {
        var k :| k in todo;
        var putErr := client.PutFrontend(k, frontends[k]);
        assert (order + [k])[..|order|] == order;
        order := order + [k];
        todo := todo - {k};
      }
    }

    /**
     * `ContainerUpdate`: build the tables, then put every backend merged
     * with its live version, then put every frontend. Errors are only
     * logged, so neither loop stops early.
     */
    method ContainerUpdate(info: ContainerInfo)
      returns (ghost nats: map<Int64, seq<Nat>>, ghost built: map<string, BackendRec>,
               ghost fronts: map<string, FrontendRec>, ghost bOrder: seq<string>, ghost fOrder: seq<string>)
      modifies client
      ensures NatTable(info, nats) && BackendTable(info.image, nats, built) && FrontendTable(info.image, nats, fronts)
      ensures Enumerates(bOrder, built.Keys) && Enumerates(fOrder, fronts.Keys)
      ensures client.State() == PutFrontends(UpdateBackends(old(client.State()), bOrder, built), fOrder, fronts)
    {
      var n := GetNats(info);
      nats := n;
      var backends := GetBackends(info.image, n);
      built := backends;
      bOrder := UpdateAll(backends);
      var frontends := GetFrontends(info.image, n);
      fronts := frontends;
      fOrder := PutAllFrontends(frontends);
    }

    /** The loop of ContainerRemoved; it ends early on the first step that does not complete. */
    method RemoveAllBackends(backends: map<string, BackendRec>) returns (ghost order: seq<string>, ghost outcome: Outcome)
      modifies client
      ensures Distinct(order) && forall k | k in order :: k in backends
      ensures outcome.Completed? ==> Enumerates(order, backends.Keys)
      ensures (client.State(), outcome) == RemoveAll(old(client.State()), order, backends)
    {
      var todo := backends.Keys;
      order := [];
      outcome := Completed;
      while todo != {}
        invariant todo <= backends.Keys
        invariant forall k :: k in order <==> k in backends && k !in todo
        invariant Distinct(order)
        invariant (client.State(), Completed) == RemoveAll(old(client.State()), order, backends)
        decreases todo
      {
        var k :| k in todo;
        assert (order + [k])[..|order|] == order;
        var o := RemoveOne(backends[k]);
        if !o.Completed? {
          order, outcome := order + [k], o;
          return;
        }
        order := order + [k];
        todo := todo - {k};
      }
    }

    /**
     * `ContainerRemoved`: for each built backend, fetch the live one and
     * either tear the end down or put back what the splice leaves; a
     * failed lookup returns at once, and a splice panic ends the program.
     * `order` is the keys visited, the last one included when the outcome
     * is not Completed.
     */
    method ContainerRemoved(info: ContainerInfo)
      returns (ghost nats: map<Int64, seq<Nat>>, ghost built: map<string, BackendRec>,
               ghost order: seq<string>, ghost outcome: Outcome)
      modifies client
      ensures NatTable(info, nats) && BackendTable(info.image, nats, built)
      ensures Distinct(order) && forall k | k in order :: k in built
      ensures outcome.Completed? ==> Enumerates(order, built.Keys)
      ensures (client.State(), outcome) == RemoveAll(old(client.State()), order, built)
    {
      var n := GetNats(info);
      nats := n;
      var backends := GetBackends(info.image, n);
      built := backends;
      order, outcome := RemoveAllBackends(backends);
    }
  }
}
