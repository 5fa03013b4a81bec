/**
 * NAT extraction (deckhand/haproxy.go, `stripPort` and `getNats`): the
 * published-port table of a container becomes one list of NAT records per
 * front port.
 */
module Nats {
  import opened Wrappers
  import opened Strconv
  import opened Docker

  /** A container port published on the host: traffic to frontPort goes to backIp:backPort. */
  datatype Nat = Nat(backIp: string, backPort: Int64, frontPort: Int64)

  /** `strings.Split(s, "/")[0]`: the text before the first '/', or all of s. */
  function BeforeSlash(s: string): (p: string)
    ensures p <= s && '/' !in p
    ensures |p| < |s| ==> s[|p|] == '/'
  {
    if s == [] || s[0] == '/' then [] else [s[0]] + BeforeSlash(s[1..])
  }

  /** `stripPort`: the front port of a port key such as "80/tcp", with Go's parse error. */
  function StripPort(pmap: string): Parsed
  {
    ParseInt(BeforeSlash(pmap))
  }

  /** The port number getNats files a port key under (its parse error is ignored). */
  function FrontPort(pmap: string): Int64
  {
    StripPort(pmap).value
  }

  /** The host port of a binding as getNats reads it (its parse error is ignored). */
  function HostPort(b: PortBinding): Int64
  {
    ParseInt(b.hostPort).value
  }

  /** A decimal number never contains '/'. */
  lemma NoSlashInDecimal(n: int)
    ensures '/' !in FormatInt(n)
  {
    FormatWellFormed(n);
  }

  /** stripPort reads back the port of any key "<n>/<proto>" with an int64 n. */
  lemma StripPortOfKey(n: Int64, proto: string)
    ensures StripPort(FormatInt(n) + "/" + proto) == Parsed(n, None)
  {
    var d := FormatInt(n);
    var s := d + "/" + proto;
    var p := BeforeSlash(s);
    NoSlashInDecimal(n);
    assert s[|d|] == '/';
    assert p == d;
    FormatParse(n);
  }

  /** The usual key: "80/tcp" gives front port 80. */
  lemma StripPortTcp()
    ensures StripPort("80/tcp") == Parsed(80, None)
  {
    StripPortOfKey(80, "tcp");
    assert FormatInt(80) == "80";
  }

  /** A key whose port text is not a number gives front port 0 and a syntax error. */
  lemma StripPortNotNumeric()
    ensures StripPort("http/tcp") == Parsed(0, Some(ErrSyntax))
  {
    assert BeforeSlash("http/tcp") == "http";
  }

  /** The NAT list getNats builds for the bindings of one port key, in binding order. */
  ghost predicate NatsFrom(ip: string, fp: Int64, bindings: seq<PortBinding>, nats: seq<Nat>)
  {
    |nats| == |bindings| &&
    forall j | 0 <= j < |nats| :: nats[j] == Nat(ip, HostPort(bindings[j]), fp)
  }

  /**
   * A NAT table of a container: one entry per front port of its port keys,
   * each holding the NAT list of one key with that front port.
   */
  ghost predicate NatTable(info: ContainerInfo, nats: map<Int64, seq<Nat>>)
  {
    nats.Keys == (set k | k in info.ports :: FrontPort(k)) &&
    forall fp | fp in nats ::
      exists k | k in info.ports && FrontPort(k) == fp ::
        NatsFrom(info.ipAddress, fp, info.ports[k], nats[fp])
  }

  /**
   * `getNats`. The port table is a Go map, iterated in no fixed order; each
   * key overwrites the entry of its front port, so when two keys share a
   * front port ("80/tcp", "80/udp") either one may be the one that stays.
   */
  method GetNats(info: ContainerInfo) returns (nats: map<Int64, seq<Nat>>)
    ensures NatTable(info, nats)
  {
    nats := map[];
    var todo := info.ports.Keys;
    while todo != {}
      invariant todo <= info.ports.Keys
      invariant nats.Keys == set k | k in info.ports && k !in todo :: FrontPort(k)
      invariant forall fp | fp in nats ::
        exists k | k in info.ports && k !in todo && FrontPort(k) == fp ::
          NatsFrom(info.ipAddress, fp, info.ports[k], nats[fp])
      decreases todo
    {
      var k :| k in todo;
      var fp := FrontPort(k);
      var bindings := info.ports[k];
      var list: seq<Nat> := [];
      var j := 0;
      while j < |bindings|
        invariant 0 <= j <= |bindings|
        invariant NatsFrom(info.ipAddress, fp, bindings[..j], list)
      {
        list := list + [Nat(info.ipAddress, HostPort(bindings[j]), fp)];
        j := j + 1;
      }
      assert bindings[..j] == bindings;
      nats := nats[fp := list];
      todo := todo - {k};
    }
  }
}
