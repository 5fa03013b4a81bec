/**
 * The package globals of deckhand/deckhand.go: the host name, read once at
 * start-up, and the root key under which this instance keeps its
 * containers in the store.
 */
module Globals {
  import opened Nats

  /** `HOST_NAME` and `ROOT_KEY`. */
  class Env {
    var hostName: string
    var rootKey: string

    /** The state after `init`: the host name is known, no root key is chosen yet. */
    constructor (hostName: string)
      ensures this.hostName == hostName && rootKey == ""
    {
      this.hostName := hostName;
      rootKey := "";
    }
  }

  /**
   * The root key NewDeckhand chooses: "/masters" for mode "master", and
   * for every other mode, not only "slave", the host's own directory
   * under "/slaves/".
   */
  function RootKey(mode: string, hostName: string): string
  {
    if mode == "master" then "/masters" else "/slaves/" + hostName
  }

  /** The key of a container in the store: `ROOT_KEY + "/" + Id`. */
  function StoreKey(root: string, id: string): string
  {
    root + "/" + id
  }

  /** Which mode selects which root: both directions. */
  lemma RootKeyModes(mode: string, hostName: string)
    ensures RootKey(mode, hostName) == "/masters" <==> mode == "master"
    ensures mode != "master" ==> RootKey(mode, hostName)[..8] == "/slaves/"
  {
    if mode != "master" {
      assert RootKey(mode, hostName)[1] == 's';
    }
  }

  /** A master's container keys never coincide with any slave's. */
  lemma MasterSlaveDisjoint(mode: string, hostName: string, id1: string, id2: string)
    requires mode != "master"
    ensures StoreKey(RootKey("master", hostName), id1) != StoreKey(RootKey(mode, hostName), id2)
  {
    var k1 := StoreKey(RootKey("master", hostName), id1);
    var k2 := StoreKey(RootKey(mode, hostName), id2);
    assert k1[1] == 'm' && k2[1] == 's';
  }

  /**
   * Two slaves whose host names contain no '/' never share a container
   * key, and within one root the key determines the container id.
   */
  lemma SlaveKeysSeparate(mode1: string, h1: string, id1: string, mode2: string, h2: string, id2: string)
    requires mode1 != "master" && mode2 != "master" && '/' !in h1 && '/' !in h2
    ensures StoreKey(RootKey(mode1, h1), id1) == StoreKey(RootKey(mode2, h2), id2) ==> h1 == h2 && id1 == id2
  {
    var k1 := StoreKey(RootKey(mode1, h1), id1);
    var k2 := StoreKey(RootKey(mode2, h2), id2);
    if k1 == k2 {
      var t := k1[8..];
      assert t == h1 + "/" + id1 && t == h2 + "/" + id2;
      HostBeforeSlash(h1, id1);
      HostBeforeSlash(h2, id2);
      assert h1 == h2;
      assert id1 == t[|h1| + 1..] == id2;
    }
  }

  lemma {:induction false} HostBeforeSlash(h: string, rest: string)
    requires '/' !in h
    ensures BeforeSlash(h + "/" + rest) == h
    decreases |h|
  {
    if h == [] {
      assert (h + "/" + rest)[0] == '/';
    } else {
      assert (h + "/" + rest)[1..] == h[1..] + "/" + rest;
      HostBeforeSlash(h[1..], rest);
    }
  }

  /** Within one root, the key determines the container id. */
  lemma StoreKeyInjective(root: string, id1: string, id2: string)
    ensures StoreKey(root, id1) == StoreKey(root, id2) ==> id1 == id2
  {
    if StoreKey(root, id1) == StoreKey(root, id2) {
      assert id1 == StoreKey(root, id1)[|root| + 1..];
    }
  }
}
