/**
 * The builders of deckhand/haproxy.go (`getEndKey`, `getMembers`,
 * `getBackends`, `getFrontends`): from a container's NAT table they build
 * the backends and frontends the control plane should hold, one of each
 * per front port, both filed under the end key "<image>:<front port>".
 */
module Builders {
  import opened Wrappers
  import opened Strconv
  import opened Nats
  import opened Aqueduct

  /** `getEndKey`: "<image>:<front port>", the port written by `%d`. */
  function EndKey(image: string, fp: Int64): string
  {
    image + ":" + FormatInt(fp)
  }

  /** An end key starts with the image and a ':', and the rest parses back to the front port. */
  lemma EndKeyParts(image: string, fp: Int64)
    ensures var key := EndKey(image, fp);
      |key| > |image| + 1 && key[..|image|] == image && key[|image|] == ':' &&
      ParseInt(key[|image| + 1..]) == Parsed(fp, None)
  {
    var key := EndKey(image, fp);
    assert key[|image| + 1..] == FormatInt(fp);
    FormatParse(fp);
    FormatWellFormed(fp);
  }

  /** A decimal number never contains ':'. */
  lemma NoColonInDecimal(n: int)
    ensures ':' !in FormatInt(n)
  {
    var d := FormatInt(n);
    FormatWellFormed(n);
    var digits := if d[0] == '+' || d[0] == '-' then d[1..] else d;
    forall i | 0 <= i < |d|
      ensures d[i] != ':'
    {
      if i > 0 || !(d[0] == '+' || d[0] == '-') {
        assert d[i] == digits[if d[0] == '+' || d[0] == '-' then i - 1 else i];
      }
    }
  }

  /** The index of the last ':' in s, or -1. */
  function LastColon(s: string): (r: int)
    ensures -1 <= r < |s|
    ensures r >= 0 ==> s[r] == ':'
  {
    if s == [] then -1
    else if s[|s| - 1] == ':' then |s| - 1
    else LastColon(s[..|s| - 1])
  }

  lemma {:induction false} LastColonOf(i: string, d: string)
    requires ':' !in d
    ensures LastColon(i + ":" + d) == |i|
    decreases |d|
  {
    var s := i + ":" + d;
    if d != [] {
      assert s[|s| - 1] == d[|d| - 1];
      assert s[..|s| - 1] == i + ":" + d[..|d| - 1];
      LastColonOf(i, d[..|d| - 1]);
    }
  }

  /**
   * Distinct (image, front port) pairs get distinct end keys, even for
   * images that contain ':' themselves ("registry:5000/app"): the port
   * follows the last ':' of the key.
   */
  lemma EndKeyInjective(i1: string, f1: Int64, i2: string, f2: Int64)
    ensures EndKey(i1, f1) == EndKey(i2, f2) ==> i1 == i2 && f1 == f2
  {
    var d1, d2 := FormatInt(f1), FormatInt(f2);
    var k1, k2 := i1 + ":" + d1, i2 + ":" + d2;
    if k1 == k2 {
      NoColonInDecimal(f1);
      NoColonInDecimal(f2);
      LastColonOf(i1, d1);
      LastColonOf(i2, d2);
      assert |i1| == |i2|;
      assert i1 == k1[..|i1|] == k2[..|i2|] == i2;
      assert d1 == k1[|i1| + 1..] == k2[|i2| + 1..] == d2;
      FormatIntInjective(f1, f2);
    }
  }

  /** The members getMembers builds from a NAT list: one per NAT, in order. */
  predicate MembersOf(nats: seq<Nat>, members: seq<Member>)
  {
    |members| == |nats| &&
    forall j | 0 <= j < |members| :: members[j] == Member(nats[j].backIp, nats[j].backPort)
  }

  /** `getMembers`. */
  method GetMembers(nats: seq<Nat>) returns (members: seq<Member>)
    ensures MembersOf(nats, members)
  {
    members := [];
    var j := 0;
    while j < |nats|
      invariant 0 <= j <= |nats|
      invariant MembersOf(nats[..j], members)
    {
      members := members + [Member(nats[j].backIp, nats[j].backPort)];
      j := j + 1;
    }
    assert nats[..j] == nats;
  }

  /**
   * A backend as getBackends builds it for end key `key`: named by the
   * key, static tcp with round-robin balancing, no key or id of its own
   * (the control plane assigns those), and the members of the NAT list.
   */
  ghost predicate BuiltBackend(b: BackendRec, key: string, nats: seq<Nat>)
  {
    b.key == "" && b.id == "" && b.name == key &&
    b.kind == "static" && b.mode == "tcp" && b.balance == "roundrobin" &&
    MembersOf(nats, b.members)
  }

  /** The end keys of a NAT table: one per front port. */
  ghost function EndKeys(image: string, nats: map<Int64, seq<Nat>>): set<string>
  {
    set fp | fp in nats :: EndKey(image, fp)
  }

  /** The backends getBackends builds: one per front port, under its end key. */
  ghost predicate BackendTable(image: string, nats: map<Int64, seq<Nat>>, backends: map<string, BackendRec>)
  {
    backends.Keys == EndKeys(image, nats) &&
    forall fp | fp in nats ::
      EndKey(image, fp) in backends && BuiltBackend(backends[EndKey(image, fp)], EndKey(image, fp), nats[fp])
  }

  /** Visiting one more front port adds its end key to those of the ports visited so far. */
  lemma VisitedKeysStep(image: string, nats: map<Int64, seq<Nat>>, todo: set<Int64>, fp: Int64)
    requires fp in todo && todo <= nats.Keys
    ensures (set f | f in nats && f !in todo - {fp} :: EndKey(image, f)) ==
      (set f | f in nats && f !in todo :: EndKey(image, f)) + {EndKey(image, fp)}
  {
  }

  /** The backends built for the front ports visited so far, those of nats not in todo. */
  ghost predicate BackendsSoFar(image: string, nats: map<Int64, seq<Nat>>, todo: set<Int64>,
                                backends: map<string, BackendRec>)
  {
    todo <= nats.Keys &&
    backends.Keys == (set fp | fp in nats && fp !in todo :: EndKey(image, fp)) &&
    forall fp | fp in nats && fp !in todo ::
      EndKey(image, fp) in backends && BuiltBackend(backends[EndKey(image, fp)], EndKey(image, fp), nats[fp])
  }

  /** One iteration of getBackends keeps BackendsSoFar. */
  lemma BackendsStep(image: string, nats: map<Int64, seq<Nat>>, todo: set<Int64>,
                     backends: map<string, BackendRec>, fp: Int64, members: seq<Member>)
    requires BackendsSoFar(image, nats, todo, backends) && fp in todo && MembersOf(nats[fp], members)
    ensures var key := EndKey(image, fp);
      BackendsSoFar(image, nats, todo - {fp},
                    backends[key := BackendRec("", "", key, "static", "tcp", "roundrobin", members)])
  {
    var key := EndKey(image, fp);
    forall other | other in nats && other !in todo
      ensures EndKey(image, other) != key
    {
      EndKeyInjective(image, other, image, fp);
    }
    VisitedKeysStep(image, nats, todo, fp);
  }

  /**
   * `getBackends`. The NAT table is a Go map visited in no fixed order,
   * but end keys never collide, so the result does not depend on it.
   */
  method GetBackends(image: string, nats: map<Int64, seq<Nat>>) returns (backends: map<string, BackendRec>)
    ensures BackendTable(image, nats, backends)
  {
    backends := map[];
    var todo := nats.Keys;
    while todo != {}
      invariant BackendsSoFar(image, nats, todo, backends)
      decreases todo
    {
      var fp :| fp in todo;
      var key := EndKey(image, fp);
      var members := GetMembers(nats[fp]);
      BackendsStep(image, nats, todo, backends, fp, members);
      backends := backends[key := BackendRec("", "", key, "static", "tcp", "roundrobin", members)];
      todo := todo - {fp};
    }
    assert backends.Keys == EndKeys(image, nats);
  }

  /**
   * A frontend as getFrontends builds it for front port fp: it binds fp on
   * every address, "*:" then fp written by `%d`, and forwards to the
   * backend of the same end key.
   */
  ghost predicate BuiltFrontend(f: FrontendRec, key: string, fp: Int64)
  {
    f.backend == key && f.kind == "static" && f.mode == "tcp" &&
    f.bind == "*:" + FormatInt(fp)
  }

  /** The bind of a built frontend parses back to its front port. */
  lemma BindParses(fp: Int64)
    ensures var bind := "*:" + FormatInt(fp);
      |bind| >= 2 && bind[..2] == "*:" && ParseInt(bind[2..]) == Parsed(fp, None)
  {
    var bind := "*:" + FormatInt(fp);
    assert bind[2..] == FormatInt(fp);
    FormatParse(fp);
  }

  /** The frontends getFrontends builds: one per front port, under its end key. */
  ghost predicate FrontendTable(image: string, nats: map<Int64, seq<Nat>>, frontends: map<string, FrontendRec>)
  {
    frontends.Keys == EndKeys(image, nats) &&
    forall fp | fp in nats ::
      EndKey(image, fp) in frontends && BuiltFrontend(frontends[EndKey(image, fp)], EndKey(image, fp), fp)
  }

  /** The frontends built for the front ports visited so far, those of nats not in todo. */
  ghost predicate FrontendsSoFar(image: string, nats: map<Int64, seq<Nat>>, todo: set<Int64>,
                                 frontends: map<string, FrontendRec>)
  {
    todo <= nats.Keys &&
    frontends.Keys == (set fp | fp in nats && fp !in todo :: EndKey(image, fp)) &&
    forall fp | fp in nats && fp !in todo ::
      EndKey(image, fp) in frontends && BuiltFrontend(frontends[EndKey(image, fp)], EndKey(image, fp), fp)
  }

  /** One iteration of getFrontends keeps FrontendsSoFar. */
  lemma FrontendsStep(image: string, nats: map<Int64, seq<Nat>>, todo: set<Int64>,
                      frontends: map<string, FrontendRec>, fp: Int64)
    requires FrontendsSoFar(image, nats, todo, frontends) && fp in todo
    ensures var key := EndKey(image, fp);
      FrontendsSoFar(image, nats, todo - {fp},
                     frontends[key := FrontendRec("*:" + FormatInt(fp), key, "static", "tcp")])
  {
    var key := EndKey(image, fp);
    forall other | other in nats && other !in todo
      ensures EndKey(image, other) != key
    {
      EndKeyInjective(image, other, image, fp);
    }
    BindParses(fp);
    VisitedKeysStep(image, nats, todo, fp);
  }

  /** `getFrontends`; as for getBackends, the visiting order does not matter. */
  method GetFrontends(image: string, nats: map<Int64, seq<Nat>>) returns (frontends: map<string, FrontendRec>)
    ensures FrontendTable(image, nats, frontends)
  {
    frontends := map[];
    var todo := nats.Keys;
    while todo != {}
      invariant FrontendsSoFar(image, nats, todo, frontends)
      decreases todo
    {
      var fp :| fp in todo;
      var fpStr := FormatInt(fp);
      var key := EndKey(image, fp);
      FrontendsStep(image, nats, todo, frontends, fp);
      frontends := frontends[key := FrontendRec("*:" + fpStr, key, "static", "tcp")];
      todo := todo - {fp};
    }
    assert frontends.Keys == EndKeys(image, nats);
  }

  /**
   * The two tables agree: the same end keys, and every frontend forwards to
   * the backend filed under its own key, which is named by that key.
   */
  lemma FrontendsMatchBackends(image: string, nats: map<Int64, seq<Nat>>,
                               backends: map<string, BackendRec>, frontends: map<string, FrontendRec>)
    requires BackendTable(image, nats, backends) && FrontendTable(image, nats, frontends)
    ensures backends.Keys == frontends.Keys
    ensures forall k | k in frontends :: frontends[k].backend == k && k in backends && backends[k].name == k
  {
    forall k | k in frontends
      ensures frontends[k].backend == k && k in backends && backends[k].name == k
    {
      var fp :| fp in nats && EndKey(image, fp) == k;
    }
  }
}
